/** `RegisterForm`: the client-side checks of the sign-up form. The
    `onSubmit` callback's outcome is a parameter. */
module RegisterForm {
  import opened Common

  const TooShortMessage: string := "Hasło musi mieć co najmniej 8 znaków"
  const NoUpperMessage: string := "Hasło musi zawierać co najmniej jedną wielką literę"
  const NoLowerMessage: string := "Hasło musi zawierać co najmniej jedną małą literę"
  const NoDigitMessage: string := "Hasło musi zawierać co najmniej jedną cyfrę"
  const EmptyFieldsMessage: string := "Proszę wypełnić wszystkie pola"
  const MismatchMessage: string := "Hasła nie są identyczne"
  const UnexpectedMessage: string := "Wystąpił nieoczekiwany błąd"

  const MinPasswordLength: nat := 8

  /** `/[A-Z]/.test(s)` */
  predicate HasUpper(s: string)
  {
    exists i :: 0 <= i < |s| && 'A' <= s[i] <= 'Z'
  }

  /** `/[a-z]/.test(s)` */
  predicate HasLower(s: string)
  {
    exists i :: 0 <= i < |s| && 'a' <= s[i] <= 'z'
  }

  /** `/[0-9]/.test(s)` */
  predicate HasDigit(s: string)
  {
    exists i :: 0 <= i < |s| && '0' <= s[i] <= '9'
  }

  /** `validatePassword`: the message of the first rule that fails. */
  function ValidatePassword(pass: string): Option<string>
  {
    if |pass| < MinPasswordLength then Some(TooShortMessage)
    else if !HasUpper(pass) then Some(NoUpperMessage)
    else if !HasLower(pass) then Some(NoLowerMessage)
    else if !HasDigit(pass) then Some(NoDigitMessage)
    else None
  }

  /** A password passes exactly when it has eight characters, an upper-
      case and a lower-case letter and a digit; each message means its
      rule failed and every earlier rule held. */
  lemma ValidatePasswordSpec(pass: string)
    ensures ValidatePassword(pass).None? <==>
      |pass| >= MinPasswordLength && HasUpper(pass) && HasLower(pass) && HasDigit(pass)
    ensures ValidatePassword(pass) == Some(TooShortMessage) <==> |pass| < MinPasswordLength
    ensures ValidatePassword(pass) == Some(NoUpperMessage) <==> |pass| >= MinPasswordLength && !HasUpper(pass)
    ensures ValidatePassword(pass) == Some(NoLowerMessage) <==>
      |pass| >= MinPasswordLength && HasUpper(pass) && !HasLower(pass)
    ensures ValidatePassword(pass) == Some(NoDigitMessage) <==>
      |pass| >= MinPasswordLength && HasUpper(pass) && HasLower(pass) && !HasDigit(pass)
  {
    PasswordMessagesDistinct();
  }

  lemma PasswordMessagesDistinct()
    ensures TooShortMessage != NoUpperMessage && TooShortMessage != NoLowerMessage && TooShortMessage != NoDigitMessage
    ensures NoUpperMessage != NoLowerMessage && NoUpperMessage != NoDigitMessage
    ensures NoLowerMessage != NoDigitMessage
  {
    assert TooShortMessage != NoUpperMessage && TooShortMessage != NoLowerMessage && TooShortMessage != NoDigitMessage;
    assert NoUpperMessage != NoLowerMessage && NoUpperMessage != NoDigitMessage;
    assert NoLowerMessage[38] != NoDigitMessage[38];
  }

  /** "Passw0rd" passes; "password1" lacks an upper-case letter. */
  lemma PasswordExamples()
    ensures ValidatePassword("Passw0rd") == None
    ensures ValidatePassword("password1") == Some(NoUpperMessage)
  {
    var good := "Passw0rd";
    assert good[0] == 'P' && good[1] == 'a' && good[5] == '0';
    var bad := "password1";
    assert forall i :: 0 <= i < |bad| ==> !('A' <= bad[i] <= 'Z');
  }

  /** The message `handleSubmit` stops with, if any: blank fields, then
      the password rules, then the confirmation. */
  function SubmitError(email: string, password: string, confirmPassword: string): Option<string>
  {
    if IsBlank(email) || IsBlank(password) || IsBlank(confirmPassword) then Some(EmptyFieldsMessage)
    else if ValidatePassword(password).Some? then ValidatePassword(password)
    else if password != confirmPassword then Some(MismatchMessage)
    else None
  }

  /** The mismatch is reported only for a password that passes the rules,
      and a form passes only with filled fields, a valid password and a
      matching confirmation. */
  lemma SubmitErrorOrder(email: string, password: string, confirmPassword: string)
    ensures SubmitError(email, password, confirmPassword) == Some(MismatchMessage) ==>
      ValidatePassword(password).None? && password != confirmPassword
    ensures SubmitError(email, password, confirmPassword).None? <==>
      !IsBlank(email) && !IsBlank(password) && !IsBlank(confirmPassword)
      && ValidatePassword(password).None? && password == confirmPassword
  {
    PasswordErrorIsNotMismatch(password);
  }

  lemma PasswordErrorIsNotMismatch(pass: string)
    ensures ValidatePassword(pass) != Some(MismatchMessage)
  {
    MismatchDistinct();
  }

  lemma MismatchDistinct()
    ensures MismatchMessage != TooShortMessage && MismatchMessage != NoUpperMessage
    ensures MismatchMessage != NoLowerMessage && MismatchMessage != NoDigitMessage
    ensures MismatchMessage != EmptyFieldsMessage
  {
    assert |MismatchMessage| == 23;
  }

  /** How `onSubmit` ended. */
  datatype SubmitOutcome = Done | ThrewError(message: string) | ThrewOther

  /** The error `handleSubmit` shows after `onSubmit` ended. */
  function FailureText(outcome: SubmitOutcome): (r: Option<string>)
    ensures r.None? <==> outcome.Done?
    ensures outcome.ThrewError? ==> r == Some(outcome.message)
    ensures outcome.ThrewOther? ==> r == Some(UnexpectedMessage)
  {
    match outcome
    case Done => None
    case ThrewError(message) => Some(message)
    case ThrewOther => Some(UnexpectedMessage)
  }

  class Form {
    var email: string
    var password: string
    var confirmPassword: string
    var error: Option<string>
    var isLoading: bool
    /** The arguments `onSubmit` was called with, in order. */
    var submitted: seq<(string, string, string)>

    constructor ()
      ensures email == "" && password == "" && confirmPassword == "" && error == None && !isLoading && submitted == []
    {
      email, password, confirmPassword, error, isLoading, submitted := "", "", "", None, false, [];
    }

    method SetFields(e: string, p: string, c: string)
      modifies this
      ensures email == e && password == p && confirmPassword == c
      ensures error == old(error) && isLoading == old(isLoading) && submitted == old(submitted)
    {
      email, password, confirmPassword := e, p, c;
    }

    /** `handleSubmit`: the error is cleared first; `onSubmit` is called
        only when every check passes, and its failure is shown. */
    method HandleSubmit(outcome: SubmitOutcome) returns (called: bool)
      modifies this
      ensures email == old(email) && password == old(password) && confirmPassword == old(confirmPassword)
      ensures called <==> SubmitError(email, password, confirmPassword).None?
      ensures !called ==>
        error == SubmitError(email, password, confirmPassword) && submitted == old(submitted) && isLoading == old(isLoading)
      ensures called ==>
        submitted == old(submitted) + [(email, password, confirmPassword)] && !isLoading && error == FailureText(outcome)
    {
      error := None;
      var check := SubmitError(email, password, confirmPassword);
      if check.Some? {
        error := check;
        return false;
      }
      called := true;
      Call(outcome);
    }

    /** The call of `onSubmit` once every check passed: the loading flag
        is set around it and its failure, if any, becomes the error. */
    method Call(outcome: SubmitOutcome)
      modifies this
      ensures email == old(email) && password == old(password) && confirmPassword == old(confirmPassword)
      ensures submitted == old(submitted) + [(email, password, confirmPassword)]
      ensures !isLoading && error == FailureText(outcome)
    {
      isLoading := true;
      submitted := submitted + [(email, password, confirmPassword)];
      error := FailureText(outcome);
      isLoading := false;
    }
  }
}
