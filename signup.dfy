/**
 * The six-step signup form: the step table, the per-step validator, the
 * form's state (current step, entered values, field errors) and its
 * transitions (typing, back, next), and the final signup with the profile
 * insert. The identity provider's answers are parameters.
 */
module Signup {
  import opened Wrappers
  import opened Types
  import opened Seqs
  import opened Text
  import opened Store

  datatype StepId = EmailStep | NameStep | PhoneStep | NicknameStep | DepartmentStep | PasswordStep

  datatype SignupStep = SignupStep(id: StepId, title: string, required: bool)

  /** `SIGNUP_STEPS`, in order. Every step is required. */
  const SignupSteps: seq<SignupStep> := [
    SignupStep(EmailStep, "가천대 이메일을 입력해주세요", true),
    SignupStep(NameStep, "실명을 입력해주세요", true),
    SignupStep(PhoneStep, "전화번호를 입력해주세요", true),
    SignupStep(NicknameStep, "닉네임을 입력해주세요", true),
    SignupStep(DepartmentStep, "학과를 선택해주세요", true),
    SignupStep(PasswordStep, "비밀번호를 입력해주세요", true)
  ]

  const LastStep: nat := 5

  const EmailDomainMessage: string := "가천대학교 이메일만 사용할 수 있습니다"
  const PhoneFormatMessage: string := "010-0000-0000 형식으로 입력해주세요"
  const NicknameLengthMessage: string := "닉네임은 2-10자로 입력해주세요"
  const PasswordLengthMessage: string := "비밀번호는 8자 이상 입력해주세요"
  const EmailTakenMessage: string := "이미 가입된 이메일입니다"
  const NicknameTakenMessage: string := "이미 사용 중인 닉네임입니다"
  const SignupFailedMessage: string := "회원가입 중 오류가 발생했습니다"

  function RequiredMessage(step: SignupStep): string {
    step.title + "을(를) 입력해주세요"
  }

  // ---------------------------------------------------------------------------
  // The phone format
  // ---------------------------------------------------------------------------

  predicate AllDigits(s: string) {
    forall i :: 0 <= i < |s| ==> IsAsciiDigit(s[i])
  }

  /** `/^010-\d{4}-\d{4}$/.test(v)`, read position by position: `\d` is an ASCII digit. */
  predicate PhoneMatches(v: string) {
    && |v| == 13
    && v[..4] == "010-"
    && v[8] == '-'
    && (forall i :: 4 <= i < 8 ==> IsAsciiDigit(v[i]))
    && (forall i :: 9 <= i < 13 ==> IsAsciiDigit(v[i]))
  }

  /** The phone format as a composition: `010-`, four digits, `-`, four digits, and nothing else. */
  ghost predicate PhoneShaped(v: string) {
    exists a, b :: AllDigits(a) && AllDigits(b) && |a| == 4 && |b| == 4 && v == "010-" + a + "-" + b
  }

  lemma PhoneMatchesIff(v: string)
    ensures PhoneMatches(v) <==> PhoneShaped(v)
  {
    if PhoneMatches(v) {
      var a, b := v[4..8], v[9..13];
      assert AllDigits(a) && AllDigits(b);
      assert v == "010-" + a + "-" + b;
    }
    if PhoneShaped(v) {
      var a, b :| AllDigits(a) && AllDigits(b) && |a| == 4 && |b| == 4 && v == "010-" + a + "-" + b;
      forall i | 4 <= i < 8 ensures IsAsciiDigit(v[i]) {
        assert v[i] == a[i - 4];
      }
      forall i | 9 <= i < 13 ensures IsAsciiDigit(v[i]) {
        assert v[i] == b[i - 9];
      }
      assert v[..4] == "010-";
      assert v[8] == '-';
    }
  }

  // ---------------------------------------------------------------------------
  // The validator
  // ---------------------------------------------------------------------------

  /**
   * `validateStep`: the error to show for `value` at `step`, or none. An empty
   * value of a required step is rejected before the step's own rule is asked.
   */
  function ValidateStep(step: SignupStep, value: string): (r: Option<string>)
    ensures value == "" && step.required ==> r == Some(RequiredMessage(step))
  {
    if value == "" && step.required then Some(RequiredMessage(step))
    else match step.id
      case EmailStep => if !EndsWith(value, GachonDomain) then Some(EmailDomainMessage) else None
      case PhoneStep => if !PhoneMatches(value) then Some(PhoneFormatMessage) else None
      case NicknameStep => if |value| < 2 || |value| > 10 then Some(NicknameLengthMessage) else None
      case PasswordStep => if |value| < 8 then Some(PasswordLengthMessage) else None
      case _ => None
  }

  /**
   * What each step accepts, stated independently of the validator: a gachon
   * address, a `010-dddd-dddd` number, a nickname of 2 to 10 characters, a
   * password of at least 8, and for name and department anything non-empty.
   */
  ghost predicate Acceptable(step: SignupStep, value: string) {
    && (value != "" || !step.required)
    && match step.id
       case EmailStep => IsGachonAddress(value)
       case PhoneStep => PhoneShaped(value)
       case NicknameStep => 2 <= |value| <= 10
       case PasswordStep => |value| >= 8
       case _ => true
  }

  /** The validator accepts a value exactly when the step's rule does. */
  lemma ValidateStepAccepts(step: SignupStep, value: string)
    ensures ValidateStep(step, value).None? <==> Acceptable(step, value)
  {
    match step.id
    case EmailStep => EndsWithIff(value, GachonDomain);
    case PhoneStep => PhoneMatchesIff(value);
    case _ =>
  }

  // ---------------------------------------------------------------------------
  // The form
  // ---------------------------------------------------------------------------

  /** `formData[id] || ''`. */
  function FieldValue(formData: map<StepId, string>, id: StepId): string {
    if id in formData then formData[id] else ""
  }

  /** Every step before `upTo` holds a value its rule accepts. */
  ghost predicate StepsAccepted(formData: map<StepId, string>, upTo: nat)
    requires upTo <= |SignupSteps|
  {
    forall k :: 0 <= k < upTo ==> Acceptable(SignupSteps[k], FieldValue(formData, SignupSteps[k].id))
  }

  /** What `auth.signUp` answered: an error with its message, or data that may or may not hold a user. */
  datatype SignUpResponse = SignUpRejected(message: string) | SignUpAccepted(user: Option<Id>)

  datatype NextOutcome =
    | Rejected(field: StepId, message: string)
    | Advanced
    | SignedUp
    | SignupFailed(message: string)
    | SignupWithoutUser

  /**
   * The duplicate-email check of the email step: the identity provider's user
   * list holds the address, or the profile table has exactly one row with it
   * (`.single()`). When the user-list call throws (`None`), neither check
   * runs; a refused call returns an empty list, so only the table is checked.
   */
  predicate EmailTaken(users: seq<User>, authEmails: Option<seq<string>>, email: string) {
    authEmails.Some? && (email in authEmails.value || Single(Filter(users, EmailIs(email))).Some?)
  }

  /** The duplicate-nickname check: exactly one profile row has the nickname (`.single()`). */
  predicate NicknameTaken(users: seq<User>, nickname: string) {
    Single(Filter(users, NicknameIs(nickname))).Some?
  }

  /** The profile row signup inserts for the account `id`. */
  function ProfileRow(formData: map<StepId, string>, id: Id, at: Instant): User {
    User(id, FieldValue(formData, EmailStep), FieldValue(formData, NameStep), FieldValue(formData, PhoneStep),
         FieldValue(formData, NicknameStep), None, FieldValue(formData, DepartmentStep), Active, false, at, at)
  }

  class SignupForm {
    var currentStep: nat
    var formData: map<StepId, string>
    var errors: map<StepId, string>
    /** `onSuccess` has been called. */
    var succeeded: bool

    /** The step stays in range, and every step already passed holds an accepted value. */
    ghost predicate Valid()
      reads this
    {
      currentStep < |SignupSteps| && StepsAccepted(formData, currentStep)
    }

    constructor ()
      ensures Valid()
      ensures currentStep == 0 && formData == map[] && errors == map[] && !succeeded
    {
      currentStep, formData, errors, succeeded := 0, map[], map[], false;
    }

    function CurrentId(): StepId
      reads this
      requires currentStep < |SignupSteps|
    {
      SignupSteps[currentStep].id
    }

    /** The Next button is disabled while the current field is empty; the validator would reject it anyway. */
    predicate NextDisabled()
      reads this
      requires currentStep < |SignupSteps|
      ensures NextDisabled() ==> ValidateStep(SignupSteps[currentStep], FieldValue(formData, CurrentId())).Some?
    {
      FieldValue(formData, CurrentId()) == ""
    }

    /**
     * `handleInputChange`: the value is stored under the current step's id,
     * and that field's error, if it shows one, is removed; other errors stay.
     */
    method HandleInputChange(value: string)
      requires Valid()
      modifies this`formData, this`errors
      ensures Valid()
      ensures formData == old(formData)[CurrentId() := value]
      ensures errors == if CurrentId() in old(errors) && old(errors)[CurrentId()] != ""
                        then old(errors) - {CurrentId()} else old(errors)
    {
      var id := CurrentId();
      ghost var before := formData;
      formData := formData[id := value];
      forall k | 0 <= k < currentStep
        ensures FieldValue(formData, SignupSteps[k].id) == FieldValue(before, SignupSteps[k].id)
      {
        assert SignupSteps[k].id != id;
      }
      if id in errors && errors[id] != "" {
        errors := errors - {id};
      }
    }

    /** The back arrow: one step back, except on the first step. */
    method Back()
      requires Valid()
      modifies this`currentStep
      ensures Valid()
      ensures currentStep == if old(currentStep) > 0 then old(currentStep) - 1 else old(currentStep)
    {
      if currentStep > 0 {
        currentStep := currentStep - 1;
      }
    }

    /**
     * `handleNext`: validate the current value; on the email and nickname
     * steps also reject a value already taken; then clear the errors and
     * advance, or on the last step sign up.
     */
    method HandleNext(store: Store, authEmails: Option<seq<string>>, signUp: SignUpResponse, profileFault: bool)
      returns (outcome: NextOutcome)
      requires Valid() && store.Valid()
      modifies this`currentStep, this`errors, this`succeeded, store`users
      ensures Valid() && store.Valid()
      ensures var step := SignupSteps[old(currentStep)];
        ValidateStep(step, FieldValue(formData, step.id)).Some? ==>
          outcome == Rejected(step.id, ValidateStep(step, FieldValue(formData, step.id)).value)
      ensures var v := FieldValue(formData, EmailStep);
        old(currentStep) == 0 && Acceptable(SignupSteps[0], v) && EmailTaken(old(store.users), authEmails, v) ==>
          outcome == Rejected(EmailStep, EmailTakenMessage)
      ensures var v := FieldValue(formData, NicknameStep);
        old(currentStep) == 3 && Acceptable(SignupSteps[3], v) && NicknameTaken(old(store.users), v) ==>
          outcome == Rejected(NicknameStep, NicknameTakenMessage)
      ensures var step := SignupSteps[old(currentStep)]; var v := FieldValue(formData, step.id);
        Acceptable(step, v)
        && !(old(currentStep) == 0 && EmailTaken(old(store.users), authEmails, v))
        && !(old(currentStep) == 3 && NicknameTaken(old(store.users), v)) ==>
          !outcome.Rejected?
      ensures outcome.Rejected? ==>
        && errors == map[outcome.field := outcome.message]
        && currentStep == old(currentStep) && succeeded == old(succeeded) && store.users == old(store.users)
      ensures !outcome.Rejected? ==>
        && errors == map[]
        && Acceptable(SignupSteps[old(currentStep)], FieldValue(formData, SignupSteps[old(currentStep)].id))
        && !(old(currentStep) == 0 && EmailTaken(old(store.users), authEmails, FieldValue(formData, EmailStep)))
        && !(old(currentStep) == 3 && NicknameTaken(old(store.users), FieldValue(formData, NicknameStep)))
      ensures old(currentStep) < LastStep && !outcome.Rejected? ==>
        outcome == Advanced && currentStep == old(currentStep) + 1
        && succeeded == old(succeeded) && store.users == old(store.users)
      ensures old(currentStep) == LastStep && !outcome.Rejected? ==>
        && currentStep == LastStep
        && StepsAccepted(formData, |SignupSteps|)
        && SignupEffect(outcome, signUp, profileFault, old(succeeded), old(store.users), store.users, store.clock)
    {
      var step := SignupSteps[currentStep];
      var value := FieldValue(formData, step.id);
      ValidateStepAccepts(step, value);
      var error := ValidateStep(step, value);
      if error.Some? {
        errors := map[step.id := error.value];
        return Rejected(step.id, error.value);
      }
      var taken := CheckTaken(store, authEmails, step.id, value);
      if taken.Some? {
        errors := map[step.id := taken.value];
        return Rejected(step.id, taken.value);
      }
      StepsAcceptedExtend(formData, currentStep);
      errors := map[];
      if currentStep == LastStep {
        outcome := HandleSignup(store, signUp, profileFault);
      } else {
        currentStep := currentStep + 1;
        outcome := Advanced;
      }
    }

    /**
     * The duplicate checks of `handleNext`: on the email step, the identity
     * provider's user list and then the profile table; on the nickname step,
     * the profile table. Other steps have none.
     */
    method CheckTaken(store: Store, authEmails: Option<seq<string>>, id: StepId, value: string)
      returns (taken: Option<string>)
      ensures id == EmailStep ==> (taken.Some? <==> EmailTaken(store.users, authEmails, value))
      ensures id == NicknameStep ==> (taken.Some? <==> NicknameTaken(store.users, value))
      ensures id != EmailStep && id != NicknameStep ==> taken.None?
      ensures taken.Some? ==> taken.value == if id == EmailStep then EmailTakenMessage else NicknameTakenMessage
    {
      if id == EmailStep && authEmails.Some? {
        if value in authEmails.value {
          return Some(EmailTakenMessage);
        }
        var userData := Single(Filter(store.users, EmailIs(value)));
        if userData.Some? {
          return Some(EmailTakenMessage);
        }
      }
      if id == NicknameStep {
        var data := Single(Filter(store.users, NicknameIs(value)));
        if data.Some? {
          return Some(NicknameTakenMessage);
        }
      }
      return None;
    }

    /**
     * `handleSignup`: create the account with the identity provider, then the
     * profile row. Once the account has a user, the signup counts as done even
     * when the profile insert is refused.
     */
    method HandleSignup(store: Store, signUp: SignUpResponse, profileFault: bool) returns (outcome: NextOutcome)
      requires store.Valid()
      modifies this`succeeded, store`users
      ensures store.Valid()
      ensures SignupEffect(outcome, signUp, profileFault, old(succeeded), old(store.users), store.users, store.clock)
      ensures outcome.SignedUp? ==>
        store.users == old(store.users) || store.users == old(store.users) + [ProfileRow(formData, signUp.user.value, store.clock)]
    {
      match signUp
      case SignUpRejected(message) =>
        outcome := SignupFailed(if message == "" then SignupFailedMessage else message);
      case SignUpAccepted(user) =>
        if user.None? {
          return SignupWithoutUser;
        }
        var profileError := store.InsertUser(user.value, FieldValue(formData, EmailStep), FieldValue(formData, NameStep),
                                             FieldValue(formData, PhoneStep), FieldValue(formData, NicknameStep),
                                             FieldValue(formData, DepartmentStep), profileFault);
        succeeded := true;
        outcome := SignedUp;
    }

    /**
     * The end of signup: a rejection (with the provider's message, or the
     * generic one when it is empty) changes nothing; an answer without a user
     * changes nothing and shows nothing; with a user, `onSuccess` is called and
     * the profile row is inserted unless the store refuses it.
     */
    ghost predicate SignupEffect(outcome: NextOutcome, signUp: SignUpResponse, profileFault: bool,
                                 succeededBefore: bool, usersBefore: seq<User>, usersAfter: seq<User>, at: Instant)
      reads this
    {
      match signUp
      case SignUpRejected(message) =>
        && outcome == SignupFailed(if message == "" then SignupFailedMessage else message)
        && succeeded == succeededBefore && usersAfter == usersBefore
      case SignUpAccepted(None) =>
        outcome == SignupWithoutUser && succeeded == succeededBefore && usersAfter == usersBefore
      case SignUpAccepted(Some(id)) =>
        && outcome == SignedUp && succeeded
        && usersAfter == if profileFault || HasUser(usersBefore, id) then usersBefore
                         else usersBefore + [ProfileRow(formData, id, at)]
    }
  }

  lemma StepsAcceptedExtend(formData: map<StepId, string>, k: nat)
    requires k < |SignupSteps|
    requires StepsAccepted(formData, k)
    requires Acceptable(SignupSteps[k], FieldValue(formData, SignupSteps[k].id))
    ensures StepsAccepted(formData, k + 1)
  {
  }

  /**
   * A profile row created by completing the form carries a gachon address, a
   * well-formed phone number, a nickname of 2 to 10 characters, and a
   * non-empty name and department.
   */
  lemma CompletedProfileIsWellFormed(formData: map<StepId, string>, id: Id, at: Instant)
    requires StepsAccepted(formData, |SignupSteps|)
    ensures var u := ProfileRow(formData, id, at);
      && IsGachonAddress(u.email)
      && PhoneShaped(u.phone)
      && 2 <= |u.nickname| <= 10
      && u.name != "" && u.department != ""
  {
    StepAccepted(formData, 0);
    StepAccepted(formData, 1);
    StepAccepted(formData, 2);
    StepAccepted(formData, 3);
    StepAccepted(formData, 4);
  }

  /** The accepted value of one step of a completed form. */
  lemma StepAccepted(formData: map<StepId, string>, k: nat)
    requires k < |SignupSteps| && StepsAccepted(formData, |SignupSteps|)
    ensures Acceptable(SignupSteps[k], FieldValue(formData, SignupSteps[k].id))
  {
  }
}
