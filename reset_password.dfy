/**
 * The password reset page: the checks of the new password and its
 * confirmation, the update attempted only after they pass, the clearing of
 * field errors while typing, the submit-disabled rule and the strength
 * indicator (three bars and a label). The identity provider's answer to the
 * update is a parameter.
 */
module ResetPassword {
  import opened Text

  datatype PasswordField = NewPassword | ConfirmPassword

  const EnterNewPasswordMessage: string := "새 비밀번호를 입력해주세요"
  const PasswordTooShortMessage: string := "비밀번호는 8자 이상이어야 합니다"
  const EnterConfirmationMessage: string := "비밀번호 확인을 입력해주세요"
  const MismatchMessage: string := "비밀번호가 일치하지 않습니다"

  /**
   * The errors `validatePasswords` collects. The two fields are checked
   * independently, so both can be reported at once: the password must have at
   * least 8 characters, the confirmation must be present and equal to it.
   */
  function PasswordErrors(password: string, confirmation: string): (r: map<PasswordField, string>)
    ensures NewPassword in r <==> |password| < 8
    ensures NewPassword in r ==> r[NewPassword] == if password == "" then EnterNewPasswordMessage else PasswordTooShortMessage
    ensures ConfirmPassword in r <==> confirmation == "" || confirmation != password
    ensures ConfirmPassword in r ==> r[ConfirmPassword] == if confirmation == "" then EnterConfirmationMessage else MismatchMessage
  {
    var passwordErrors: map<PasswordField, string> :=
      if password == "" then map[NewPassword := EnterNewPasswordMessage]
      else if |password| < 8 then map[NewPassword := PasswordTooShortMessage]
      else map[];
    if confirmation == "" then passwordErrors[ConfirmPassword := EnterConfirmationMessage]
    else if password != confirmation then passwordErrors[ConfirmPassword := MismatchMessage]
    else passwordErrors
  }

  /** The validation passes exactly for a password of at least 8 characters repeated in the confirmation. */
  lemma PasswordErrorsEmptyIff(password: string, confirmation: string)
    ensures PasswordErrors(password, confirmation) == map[] <==> |password| >= 8 && confirmation == password
  {
    var r := PasswordErrors(password, confirmation);
    if |password| >= 8 && confirmation == password {
      assert r.Keys == {};
    } else if |password| < 8 {
      assert NewPassword in r;
    } else {
      assert ConfirmPassword in r;
    }
  }

  datatype ResetOutcome = Invalid | UpdateFailed | Updated

  class ResetPasswordPage {
    var password: string
    var confirmation: string
    var errors: map<PasswordField, string>
    /** The identity provider has accepted the new password (and the page will go home). */
    var passwordUpdated: bool

    constructor ()
      ensures password == "" && confirmation == "" && errors == map[] && !passwordUpdated
    {
      password, confirmation, errors, passwordUpdated := "", "", map[], false;
    }

    /** `validatePasswords`: fill the error map field by field, show it, and report whether it is empty. */
    method ValidatePasswords() returns (ok: bool)
      modifies this`errors
      ensures errors == PasswordErrors(password, confirmation)
      ensures ok <==> |password| >= 8 && confirmation == password
    {
      var newErrors: map<PasswordField, string> := map[];
      if password == "" {
        newErrors := newErrors[NewPassword := EnterNewPasswordMessage];
      } else if |password| < 8 {
        newErrors := newErrors[NewPassword := PasswordTooShortMessage];
      }
      if confirmation == "" {
        newErrors := newErrors[ConfirmPassword := EnterConfirmationMessage];
      } else if password != confirmation {
        newErrors := newErrors[ConfirmPassword := MismatchMessage];
      }
      errors := newErrors;
      PasswordErrorsEmptyIff(password, confirmation);
      ok := |newErrors.Keys| == 0;
      assert ok <==> newErrors == map[];
    }

    /** `handleResetPassword`: the update is asked for only when the validation passes. */
    method HandleResetPassword(updateFails: bool) returns (outcome: ResetOutcome)
      modifies this`errors, this`passwordUpdated
      ensures errors == PasswordErrors(password, confirmation)
      ensures outcome == Invalid <==> !(|password| >= 8 && confirmation == password)
      ensures outcome == Updated <==> |password| >= 8 && confirmation == password && !updateFails
      ensures passwordUpdated == (old(passwordUpdated) || outcome == Updated)
    {
      var ok := ValidatePasswords();
      if !ok {
        return Invalid;
      }
      if updateFails {
        return UpdateFailed;
      }
      passwordUpdated := true;
      outcome := Updated;
    }

    /** `handleInputChange`: the field takes the value, and only that field's error is removed. */
    method HandleInputChange(field: PasswordField, value: string)
      modifies this`password, this`confirmation, this`errors
      ensures field == NewPassword ==> password == value && confirmation == old(confirmation)
      ensures field == ConfirmPassword ==> confirmation == value && password == old(password)
      ensures errors == if field in old(errors) && old(errors)[field] != "" then old(errors) - {field} else old(errors)
    {
      if field == NewPassword {
        password := value;
      } else {
        confirmation := value;
      }
      if field in errors && errors[field] != "" {
        errors := errors - {field};
      }
    }

    /** Submit is disabled while either field is empty; such a form would fail the validation anyway. */
    predicate SubmitDisabled()
      reads this
      ensures SubmitDisabled() ==> PasswordErrors(password, confirmation) != map[]
    {
      password == "" || confirmation == ""
    }
  }

  // ---------------------------------------------------------------------------
  // The strength indicator, shown while the password is not empty
  // ---------------------------------------------------------------------------

  /** `/[A-Z]/.test(p)` */
  predicate HasUpper(p: string) { exists i :: 0 <= i < |p| && IsAsciiUpper(p[i]) }
  /** `/[0-9]/.test(p)` */
  predicate HasDigit(p: string) { exists i :: 0 <= i < |p| && IsAsciiDigit(p[i]) }
  /** `/[^A-Za-z0-9]/.test(p)` */
  predicate HasSymbol(p: string) { exists i :: 0 <= i < |p| && !IsAsciiAlnum(p[i]) }

  predicate FirstBarLit(p: string) { |p| >= 8 }
  predicate SecondBarLit(p: string) { |p| >= 10 && HasUpper(p) }
  predicate ThirdBarLit(p: string) { |p| >= 12 && HasDigit(p) && HasSymbol(p) }

  const PromptLabel: string := "8자 이상 입력하세요"
  const NormalLabel: string := "보통"
  const StrongLabel: string := "강함"

  function StrengthLabel(p: string): string {
    if |p| < 8 then PromptLabel
    else if |p| < 10 then NormalLabel
    else if HasUpper(p) && HasDigit(p) then StrongLabel
    else NormalLabel
  }

  /** The first bar is lit exactly for the passwords the length check accepts. */
  lemma FirstBarIsLengthRule(p: string, confirmation: string)
    ensures FirstBarLit(p) <==> NewPassword !in PasswordErrors(p, confirmation)
  {
  }

  /** The second and third bars only light on top of the first. */
  lemma LaterBarsNeedFirst(p: string)
    ensures SecondBarLit(p) ==> FirstBarLit(p)
    ensures ThirdBarLit(p) ==> FirstBarLit(p)
  {
  }

  /** The third bar does not need the second: a long password with a digit and a symbol but no capital. */
  lemma ThirdBarWithoutSecond()
    ensures ThirdBarLit("abcdefghij1!") && !SecondBarLit("abcdefghij1!")
  {
    var p := "abcdefghij1!";
    assert IsAsciiDigit(p[10]);
    assert !IsAsciiAlnum(p[11]);
    forall i | 0 <= i < |p| ensures !IsAsciiUpper(p[i]) {
    }
  }

  /**
   * The label prompts for more exactly when the first bar is off; it reads
   * "strong" exactly for 10 or more characters with a capital and a digit,
   * which lights the second bar; every other password reads "normal".
   */
  lemma StrengthLabelMeaning(p: string)
    ensures StrengthLabel(p) == PromptLabel <==> !FirstBarLit(p)
    ensures StrengthLabel(p) == StrongLabel <==> |p| >= 10 && HasUpper(p) && HasDigit(p)
    ensures StrengthLabel(p) == StrongLabel ==> FirstBarLit(p) && SecondBarLit(p)
    ensures StrengthLabel(p) == NormalLabel <==> FirstBarLit(p) && !(|p| >= 10 && HasUpper(p) && HasDigit(p))
  {
    assert PromptLabel != NormalLabel && PromptLabel != StrongLabel && NormalLabel != StrongLabel by {
      assert |PromptLabel| != |NormalLabel| && |PromptLabel| != |StrongLabel|;
      assert NormalLabel[0] != StrongLabel[0];
    }
  }

  /** A password lighting all three bars with a capital reads "strong". */
  lemma AllBarsReadStrong(p: string)
    requires SecondBarLit(p) && ThirdBarLit(p)
    ensures StrengthLabel(p) == StrongLabel
  {
  }
}
