/** The forgot-password page: three forms shown one at a time (email, code,
    new password), each submitting one API call, with the page's state held
    in React state fields.

    Each handler runs to completion with the outcome of its API call given
    as a parameter; `sent` tells whether the call was made at all. */
module ForgotPasswordPage {
  import opened Common
  import opened PasswordStrength
  import opened EmailFormat
  import PasswordReset

  const TooManyRequestsMessage := "Too many requests. Please wait a few minutes and try again."
  const SendFailedMessage := "Failed to send OTP. Please try again."
  const OtpLengthMessage := "Please enter a valid 6-digit code."
  const OtpFailedMessage := "Invalid or expired OTP code."
  const ResetFailedMessage := "Failed to reset password. Please try again."

  // ---------------------------------------------------------------------
  // The code input's sanitiser
  // ---------------------------------------------------------------------

  /** `replace(/\D/g, '')`: the digits of `raw`, in order. */
  function DigitsOf(raw: string): (r: string)
    ensures AllDigits(r)
    ensures |r| <= |raw|
    ensures forall c :: c in r <==> c in raw && IsAsciiDigit(c)
  {
    if raw == [] then []
    else (if IsAsciiDigit(raw[0]) then [raw[0]] else []) + DigitsOf(raw[1..])
  }

  /** A string of digits has nothing to strip. */
  lemma {:induction false} DigitsOfDigits(s: string)
    requires AllDigits(s)
    ensures DigitsOf(s) == s
  {
    if s != [] {
      DigitsOfDigits(s[1..]);
      assert [s[0]] + s[1..] == s;
    }
  }

  /** Stripping goes character by character: it distributes over
      concatenation, and a single character is kept exactly when it is a
      digit. The two together fix DigitsOf on every input. */
  lemma {:induction false} DigitsOfConcat(a: string, b: string)
    ensures DigitsOf(a + b) == DigitsOf(a) + DigitsOf(b)
  {
    if a == [] {
      assert a + b == b;
    } else {
      assert (a + b)[1..] == a[1..] + b;
      DigitsOfConcat(a[1..], b);
    }
  }

  lemma DigitsOfChar(c: char)
    ensures DigitsOf([c]) == if IsAsciiDigit(c) then [c] else []
  {
    assert [c][1..] == [];
  }

  /** The code input's onChange: strip the non-digits, keep the first six. */
  function SanitizeOtp(raw: string): (r: string)
    ensures AllDigits(r)
    ensures |r| <= PasswordReset.OtpLength
    ensures |r| == if |DigitsOf(raw)| < PasswordReset.OtpLength then |DigitsOf(raw)| else PasswordReset.OtpLength
    ensures r == DigitsOf(raw)[..|r|]
  {
    var d := DigitsOf(raw);
    if |d| <= PasswordReset.OtpLength then d else d[..PasswordReset.OtpLength]
  }

  /** Sanitising twice is sanitising once, and a value of at most six
      digits is left as it is. */
  lemma SanitizeOtpIdempotent(raw: string)
    ensures SanitizeOtp(SanitizeOtp(raw)) == SanitizeOtp(raw)
    ensures AllDigits(raw) && |raw| <= PasswordReset.OtpLength ==> SanitizeOtp(raw) == raw
  {
    DigitsOfDigits(SanitizeOtp(raw));
    if AllDigits(raw) {
      DigitsOfDigits(raw);
    }
  }

  /** A code as the mail shows it survives the input unchanged. */
  lemma SanitizeKeepsIssuedCode(n: nat)
    requires n <= PasswordReset.MaxOtp
    ensures SanitizeOtp(PasswordReset.OtpCode(n)) == PasswordReset.OtpCode(n)
  {
    SanitizeOtpIdempotent(PasswordReset.OtpCode(n));
  }

  // ---------------------------------------------------------------------
  // Error messages
  // ---------------------------------------------------------------------

  /** handleSendOtp's catch: 429, then a missing response, then the
      server's message or the default. */
  function SendOtpError(o: ApiOutcome): (r: Option<string>)
    ensures r.None? <==> o.Succeeded?
    ensures o.ErrorResponse? && o.status == 429 ==> r == Some(TooManyRequestsMessage)
    ensures o.NoResponse? ==> r == Some(NetworkErrorMessage)
    ensures o.ErrorResponse? && o.status != 429 ==> r == ErrorMessageOr(o, SendFailedMessage)
    ensures r.Some? ==> r.value != ""
  {
    match o
    case Succeeded => None
    case ErrorResponse(status, _) =>
      if status == 429 then Some(TooManyRequestsMessage) else ErrorMessageOr(o, SendFailedMessage)
    case NoResponse => Some(NetworkErrorMessage)
  }

  // ---------------------------------------------------------------------
  // The step machine
  // ---------------------------------------------------------------------

  datatype Step = EmailStep | OtpStep | PasswordStep

  /** What moves the page between steps: a successful forgot-password call,
      a successful verify call, and the "Try again" button. */
  datatype StepEvent = OtpSent | OtpVerified | TryAgainClicked

  /** Each event comes from the one form its step renders. */
  predicate Enabled(s: Step, e: StepEvent) {
    match e
    case OtpSent => s == EmailStep
    case OtpVerified => s == OtpStep
    case TryAgainClicked => s == OtpStep
  }

  /** The step an event leads to: every enabled event moves the page on or
      back, never keeps it where it is, and only the verify call reaches the
      password form. */
  function After(s: Step, e: StepEvent): (t: Step)
    ensures Enabled(s, e) ==> t != s
    ensures t == PasswordStep <==> e == OtpVerified
  {
    match e
    case OtpSent => OtpStep
    case OtpVerified => PasswordStep
    case TryAgainClicked => EmailStep
  }

  /** The step after a sequence of events, or None if one of them could not
      have happened in the step it met. */
  function Run(s: Step, events: seq<StepEvent>): (r: Option<Step>)
    ensures events == [] ==> r == Some(s)
    ensures events != [] && !Enabled(s, events[0]) ==> r.None?
    ensures r.Some? && events != [] ==> Enabled(s, events[0]) && r == Run(After(s, events[0]), events[1..])
    decreases events
  {
    if events == [] then Some(s)
    else if !Enabled(s, events[0]) then None
    else Run(After(s, events[0]), events[1..])
  }

  /** The password form is reached only through a successful verify call,
      which itself needs an earlier successful send unless the run already
      started at the code form. */
  lemma {:induction false} PasswordStepNeedsVerify(s: Step, events: seq<StepEvent>)
    requires s != PasswordStep && Run(s, events) == Some(PasswordStep)
    ensures exists j :: 0 <= j < |events| && events[j] == OtpVerified
                     && (s == OtpStep || exists i :: 0 <= i < j && events[i] == OtpSent)
    decreases events
  {
    var e := events[0];
    var rest := events[1..];
    match e
    case OtpVerified =>
      assert events[0] == OtpVerified;
    case OtpSent =>
      PasswordStepNeedsVerify(OtpStep, rest);
      var j :| 0 <= j < |rest| && rest[j] == OtpVerified;
      assert events[j + 1] == OtpVerified && events[0] == OtpSent;
    case TryAgainClicked =>
      PasswordStepNeedsVerify(EmailStep, rest);
      var j :| 0 <= j < |rest| && rest[j] == OtpVerified;
      assert events[j + 1] == OtpVerified;
  }

  /** From the first form, the password form takes a successful send and,
      later, a successful verify. */
  lemma PasswordStepNeedsBothCalls(events: seq<StepEvent>)
    requires Run(EmailStep, events) == Some(PasswordStep)
    ensures exists i, j :: 0 <= i < j < |events| && events[i] == OtpSent && events[j] == OtpVerified
  {
    PasswordStepNeedsVerify(EmailStep, events);
  }

  /** The password form is the last one: no event leaves it. */
  lemma PasswordStepIsFinal(events: seq<StepEvent>)
    requires events != []
    ensures Run(PasswordStep, events).None?
  {
  }

  // ---------------------------------------------------------------------
  // The page
  // ---------------------------------------------------------------------

  class ForgotPassword {
    var step: Step
    var email: string
    var otp: string
    var password: string
    var passwordConfirmation: string
    var loading: bool
    var error: Option<string>
    var validation: Validation

    /** Between events: no call is in flight, the flags describe the
        password field, which holds no line feed, the code field holds at
        most six digits, and an error, when there is one, is a non-empty
        message. */
    ghost predicate Valid()
      reads this
    {
      && !loading
      && validation == Validate(password) && '\n' !in password
      && AllDigits(otp) && |otp| <= PasswordReset.OtpLength
      && error != Some("")
    }

    constructor ()
      ensures Valid()
      ensures step == EmailStep && email == "" && otp == "" && password == "" && passwordConfirmation == ""
      ensures error.None? && !IsPasswordValid(validation)
    {
      step := EmailStep;
      email := "";
      otp := "";
      password := "";
      passwordConfirmation := "";
      loading := false;
      error := None;
      validation := Validation(false, false, false, false, false);
    }

    /** handleSendOtp: refuses an email of the wrong shape without a call;
        otherwise calls forgot-password and moves to the code form when it
        succeeds. */
    method HandleSendOtp(o: ApiOutcome) returns (sent: bool)
      requires Valid() && step == EmailStep
      modifies this`step, this`loading, this`error
      ensures Valid() && !loading
      ensures sent <==> email != "" && IsEmailShaped(email)
      ensures !sent ==> step == EmailStep && error == Some(InvalidEmailMessage)
      ensures sent ==> error == SendOtpError(o)
      ensures sent ==> step == if o.Succeeded? then After(EmailStep, OtpSent) else EmailStep
    {
      loading := true;
      error := None;
      if email == "" || !IsEmailShaped(email) {
        error := Some(InvalidEmailMessage);
        loading := false;
        return false;
      }
      sent := true;
      if o.Succeeded? {
        step := OtpStep;
      } else {
        error := SendOtpError(o);
      }
      loading := false;
    }

    /** handleVerifyOtp: refuses a code that is not six long without a call;
        otherwise calls verify-otp and moves to the password form when it
        succeeds. */
    method HandleVerifyOtp(o: ApiOutcome) returns (sent: bool)
      requires Valid() && step == OtpStep
      modifies this`step, this`loading, this`error
      ensures Valid() && !loading
      ensures sent <==> |otp| == PasswordReset.OtpLength
      ensures sent ==> AllDigits(otp)
      ensures !sent ==> step == OtpStep && error == Some(OtpLengthMessage)
      ensures sent ==> error == ErrorMessageOr(o, OtpFailedMessage)
      ensures sent ==> step == if o.Succeeded? then After(OtpStep, OtpVerified) else OtpStep
    {
      loading := true;
      error := None;
      if |otp| != PasswordReset.OtpLength {
        error := Some(OtpLengthMessage);
        loading := false;
        return false;
      }
      sent := true;
      if o.Succeeded? {
        step := PasswordStep;
      } else {
        error := ErrorMessageOr(o, OtpFailedMessage);
      }
      loading := false;
    }

    /** handleResetPassword: the strength check, then the confirmation,
        then the reset-password call. A password it sends meets the server's
        strength rule unless mb_strlen finds it under eight characters,
        which only characters outside the Basic Multilingual Plane can
        bring about. */
    method HandleResetPassword(o: ApiOutcome) returns (sent: bool)
      requires Valid() && step == PasswordStep
      modifies this`loading, this`error
      ensures Valid() && !loading
      ensures sent <==> PasswordFormError(validation, password, passwordConfirmation).None?
      ensures !sent ==> error == PasswordFormError(validation, password, passwordConfirmation)
      ensures sent ==> error == ErrorMessageOr(o, ResetFailedMessage)
      ensures sent ==> password == passwordConfirmation
      ensures sent ==> (PasswordReset.ServerStrength(password) <==> |password| >= 8)
      ensures sent && AllInBmp(password) ==> PasswordReset.ServerStrength(password)
    {
      loading := true;
      error := None;
      if !IsPasswordValid(validation) {
        error := Some(RequirementsMessage);
        loading := false;
        return false;
      }
      if password != passwordConfirmation {
        error := Some(MismatchMessage);
        loading := false;
        return false;
      }
      ClientRuleImpliesServerStrength(password);
      sent := true;
      error := ErrorMessageOr(o, ResetFailedMessage);
      loading := false;
    }

    /** The email input's onChange: store the value, clear any error. */
    method OnEmailChange(value: string)
      requires Valid()
      modifies this`email, this`error
      ensures Valid() && email == value && error.None?
    {
      email := value;
      if JsTruthy(error) {
        error := None;
      }
    }

    /** The code input's onChange: store the sanitised value, clear any
        error. */
    method OnOtpChange(raw: string)
      requires Valid()
      modifies this`otp, this`error
      ensures Valid() && otp == SanitizeOtp(raw) && error.None?
    {
      otp := SanitizeOtp(raw);
      if JsTruthy(error) {
        error := None;
      }
    }

    /** handlePasswordChange: store the value and re-run validatePassword.
        The value of a password input never holds a line feed: the browser
        strips line breaks from it. */
    method OnPasswordChange(value: string)
      requires Valid()
      requires '\n' !in value
      modifies this`password, this`validation
      ensures Valid() && password == value && validation == Validate(value)
    {
      password := value;
      validation := Validate(value);
    }

    method OnConfirmationChange(value: string)
      requires Valid()
      modifies this`passwordConfirmation
      ensures Valid() && passwordConfirmation == value
    {
      passwordConfirmation := value;
    }

    /** "Try again": back to the email form. */
    method TryAgain()
      requires Valid() && step == OtpStep
      modifies this`step
      ensures Valid() && step == After(OtpStep, TryAgainClicked)
    {
      step := EmailStep;
    }
  }

  /** The page walked through its three forms: a short code is refused
      without a call, each successful call moves one form on, and a weak
      password is refused without a call. */
  method ResetFlow(address: string, code: string)
    requires IsEmailShaped(address)
    requires AllDigits(code) && |code| == PasswordReset.OtpLength
  {
    var page := new ForgotPassword();
    page.OnEmailChange(address);
    var sent := page.HandleSendOtp(Succeeded);
    assert sent && page.step == OtpStep;
    page.OnOtpChange(code[..2]);
    SanitizeOtpIdempotent(code[..2]);
    sent := page.HandleVerifyOtp(Succeeded);
    assert !sent && page.step == OtpStep && page.error == Some(OtpLengthMessage);
    page.OnOtpChange(code);
    SanitizeOtpIdempotent(code);
    sent := page.HandleVerifyOtp(ErrorResponse(422, None));
    assert sent && page.step == OtpStep && page.error == Some(OtpFailedMessage);
    sent := page.HandleVerifyOtp(Succeeded);
    assert sent && page.step == PasswordStep;
    page.OnPasswordChange("");
    sent := page.HandleResetPassword(Succeeded);
    assert !sent && page.error == Some(RequirementsMessage);
  }
}
