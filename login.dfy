/**
 * The login form: the field checks run before any sign-in, the mapping of
 * the identity provider's answer to a field error or a message, the profile
 * check after a successful sign-in, and the clearing of field errors while
 * typing. The provider's answer is a parameter.
 */
module Login {
  import opened Wrappers
  import opened Types
  import opened Seqs
  import opened Text
  import opened Store

  datatype LoginField = EmailField | PasswordField

  const EnterEmailMessage: string := "이메일을 입력해주세요"
  const EmailDomainMessage: string := "가천대학교 이메일만 사용할 수 있습니다"
  const EnterPasswordMessage: string := "비밀번호를 입력해주세요"
  const WrongCredentialsMessage: string := "이메일 또는 비밀번호가 올바르지 않습니다"
  /** The part of the provider's message that identifies a wrong email or password. */
  const InvalidCredentials: string := "Invalid login credentials"

  /**
   * The errors `handleLogin` collects before signing in. The email and the
   * password are checked independently; an empty email gets its own
   * message before the domain is looked at.
   */
  function LoginErrors(email: string, password: string): (r: map<LoginField, string>)
    ensures EmailField in r <==> !IsGachonAddress(email)
    ensures EmailField in r ==> r[EmailField] == if email == "" then EnterEmailMessage else EmailDomainMessage
    ensures PasswordField in r <==> password == ""
    ensures PasswordField in r ==> r[PasswordField] == EnterPasswordMessage
  {
    EndsWithIff(email, GachonDomain);
    var emailErrors: map<LoginField, string> :=
      if email == "" then map[EmailField := EnterEmailMessage]
      else if !EndsWith(email, GachonDomain) then map[EmailField := EmailDomainMessage]
      else map[];
    if password == "" then emailErrors[PasswordField := EnterPasswordMessage] else emailErrors
  }

  /** What `signInWithPassword` answered: an error with its message, or data that may hold a user. */
  datatype SignInResponse = SignInError(message: string) | SignInOk(user: Option<Id>)

  datatype LoginOutcome =
    | InvalidInput
    | WrongCredentials
    | LoginFailed
    | SignedInWithoutUser
    | ProfileMissing
    | LoggedIn

  class LoginForm {
    var email: string
    var password: string
    var errors: map<LoginField, string>
    /** The identity provider holds a session for this browser. */
    var sessionOpen: bool
    /** `onSuccess` has been called. */
    var succeeded: bool

    constructor ()
      ensures email == "" && password == "" && errors == map[] && !sessionOpen && !succeeded
    {
      email, password, errors, sessionOpen, succeeded := "", "", map[], false, false;
    }

    /** The submit button is disabled while either field is empty; such a form would not pass the checks anyway. */
    predicate SubmitDisabled()
      reads this
      ensures SubmitDisabled() ==> LoginErrors(email, password) != map[]
    {
      email == "" || password == ""
    }

    /**
     * `handleLogin`: collect the field errors; when there are any, show them
     * all and do not sign in. Otherwise sign in: a wrong-credentials answer
     * becomes a password error, any other error a generic message. A signed-in
     * user without exactly one profile row is signed out again.
     */
    method HandleLogin(store: Store, signIn: SignInResponse) returns (outcome: LoginOutcome)
      modifies this`errors, this`sessionOpen, this`succeeded
      ensures LoginErrors(email, password) != map[] ==>
        && outcome == InvalidInput && errors == LoginErrors(email, password)
        && sessionOpen == old(sessionOpen) && succeeded == old(succeeded)
      ensures LoginErrors(email, password) == map[] && signIn.SignInError? ==>
        && sessionOpen == old(sessionOpen) && succeeded == old(succeeded)
        && (Contains(signIn.message, InvalidCredentials) ==>
              outcome == WrongCredentials && errors == map[PasswordField := WrongCredentialsMessage])
        && (!Contains(signIn.message, InvalidCredentials) ==> outcome == LoginFailed && errors == map[])
      ensures LoginErrors(email, password) == map[] && signIn == SignInOk(None) ==>
        outcome == SignedInWithoutUser && errors == map[] && sessionOpen && succeeded == old(succeeded)
      ensures LoginErrors(email, password) == map[] && signIn.SignInOk? && signIn.user.Some? ==>
        && errors == map[]
        && (ProfileOf(store.users, signIn.user.value).Some? ==> outcome == LoggedIn && sessionOpen && succeeded)
        && (ProfileOf(store.users, signIn.user.value).None? ==>
              outcome == ProfileMissing && !sessionOpen && succeeded == old(succeeded))
    {
      var newErrors: map<LoginField, string> := map[];
      if email == "" {
        newErrors := newErrors[EmailField := EnterEmailMessage];
      } else if !EndsWith(email, GachonDomain) {
        newErrors := newErrors[EmailField := EmailDomainMessage];
      }
      if password == "" {
        newErrors := newErrors[PasswordField := EnterPasswordMessage];
      }
      if |newErrors.Keys| > 0 {
        errors := newErrors;
        return InvalidInput;
      }
      assert newErrors == LoginErrors(email, password);
      errors := map[];
      match signIn
      case SignInError(message) =>
        if Contains(message, InvalidCredentials) {
          errors := map[PasswordField := WrongCredentialsMessage];
          outcome := WrongCredentials;
        } else {
          outcome := LoginFailed;
        }
      case SignInOk(user) =>
        sessionOpen := true;
        if user.None? {
          return SignedInWithoutUser;
        }
        var userData := ProfileOf(store.users, user.value);
        if userData.None? {
          sessionOpen := false;
          return ProfileMissing;
        }
        succeeded := true;
        outcome := LoggedIn;
    }

    /** `handleInputChange`: the field takes the value, and only that field's error is removed. */
    method HandleInputChange(field: LoginField, value: string)
      modifies this`email, this`password, this`errors
      ensures field == EmailField ==> email == value && password == old(password)
      ensures field == PasswordField ==> password == value && email == old(email)
      ensures errors == if field in old(errors) && old(errors)[field] != "" then old(errors) - {field} else old(errors)
    {
      if field == EmailField {
        email := value;
      } else {
        password := value;
      }
      if field in errors && errors[field] != "" {
        errors := errors - {field};
      }
    }
  }

  /** A well-formed address with a password passes the checks: nothing stands between them and the sign-in. */
  lemma LoginChecksPass(local: string, password: string)
    requires password != ""
    ensures LoginErrors(local + GachonDomain, password) == map[]
  {
    var m := LoginErrors(local + GachonDomain, password);
    assert IsGachonAddress(local + GachonDomain);
    assert m.Keys == {};
  }
}
