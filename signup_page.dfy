/** The sign-up page: a registration form whose submit handler refuses a
    weak or unconfirmed password before calling the register endpoint.
    The outcome of that call is a parameter. */
module SignupPage {
  import opened Common
  import opened PasswordStrength
  import PasswordReset

  const RegistrationFailedMessage := "Registration failed. Please try again."

  class Signup {
    var name: string
    var email: string
    var password: string
    var passwordConfirmation: string
    var loading: bool
    var error: Option<string>
    var validation: Validation

    /** Between events: no call in flight, the flags describe the password
        field, and that field holds no line feed. */
    ghost predicate Valid()
      reads this
    {
      !loading && validation == Validate(password) && '\n' !in password
    }

    constructor ()
      ensures Valid()
      ensures name == "" && email == "" && password == "" && passwordConfirmation == ""
      ensures error.None? && ValidCount(validation) == 0
    {
      name := "";
      email := "";
      password := "";
      passwordConfirmation := "";
      loading := false;
      error := None;
      validation := Validation(false, false, false, false, false);
    }

    /** The name input's onChange. Unlike the login page, typing here leaves
        any error in place. */
    method OnNameChange(value: string)
      requires Valid()
      modifies this`name
      ensures Valid() && name == value
    {
      name := value;
    }

    /** The email input's onChange; the error stays as well. */
    method OnEmailChange(value: string)
      requires Valid()
      modifies this`email
      ensures Valid() && email == value
    {
      email := value;
    }

    /** handlePasswordChange: store the value and re-run validatePassword.
        The value of a password input never holds a line feed: the browser
        strips line breaks from it. */
    method OnPasswordChange(value: string)
      requires Valid()
      requires '\n' !in value
      modifies this`password, this`validation
      ensures Valid() && password == value && validation == Validate(value)
    {
      password := value;
      validation := Validate(value);
    }

    method OnConfirmationChange(value: string)
      requires Valid()
      modifies this`passwordConfirmation
      ensures Valid() && passwordConfirmation == value
    {
      passwordConfirmation := value;
    }

    /** handleRegister: the strength check first, then the confirmation,
        then the register call; every exit leaves `loading` false. A password
        it sends meets the server's strength rule unless it is under eight
        characters to mb_strlen, which only characters outside the Basic
        Multilingual Plane can bring about. */
    method HandleRegister(o: ApiOutcome) returns (sent: bool)
      requires Valid()
      modifies this`loading, this`error
      ensures Valid() && !loading
      ensures sent <==> IsPasswordValid(Validate(password)) && password == passwordConfirmation
      ensures !IsPasswordValid(validation) ==> error == Some(RequirementsMessage)
      ensures IsPasswordValid(validation) && password != passwordConfirmation ==> error == Some(MismatchMessage)
      ensures sent ==> error == ErrorMessageOr(o, RegistrationFailedMessage)
      ensures sent ==> (PasswordReset.ServerStrength(password) <==> |password| >= 8)
      ensures sent && AllInBmp(password) ==> PasswordReset.ServerStrength(password)
    {
      loading := true;
      error := None;
      var refusal := PasswordFormError(validation, password, passwordConfirmation);
      if refusal.Some? {
        error := refusal;
        loading := false;
        return false;
      }
      ClientRuleImpliesServerStrength(password);
      sent := true;
      error := ErrorMessageOr(o, RegistrationFailedMessage);
      loading := false;
    }
  }

  /** A weak password and then a mismatched confirmation are refused in that
      order; the matching strong pair is sent. */
  method RegisterFlow(strong: string)
    requires IsPasswordValid(Validate(strong)) && '\n' !in strong
  {
    var page := new Signup();
    var sent := page.HandleRegister(Succeeded);
    assert !sent && page.error == Some(RequirementsMessage);
    page.OnPasswordChange(strong);
    sent := page.HandleRegister(Succeeded);
    assert !sent && page.error == Some(MismatchMessage);
    page.OnConfirmationChange(strong);
    sent := page.HandleRegister(ErrorResponse(422, Some("The email has already been taken.")));
    assert sent && page.error == Some("The email has already been taken.");
  }
}
