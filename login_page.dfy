/** The login page: an email and password form whose submit handler checks
    both fields before calling the login endpoint, and maps a failed call
    to a message. The outcome of that call is a parameter. */
module LoginPage {
  import opened Common
  import opened EmailFormat

  const MissingFieldsMessage := "Please fill in all fields."
  const InvalidCredentialsMessage := "Invalid email or password. Please check your credentials."
  const TooManyAttemptsMessage := "Too many login attempts. Please wait a few minutes and try again."
  const LoginFailedMessage := "Login failed. Please try again."

  /** handleLogin's catch: 422, then 429, then a missing response, then the
      server's message or the default. */
  function LoginError(o: ApiOutcome): (r: Option<string>)
    ensures r.None? <==> o.Succeeded?
    ensures o.ErrorResponse? && o.status == 422 ==> r == Some(InvalidCredentialsMessage)
    ensures o.ErrorResponse? && o.status == 429 ==> r == Some(TooManyAttemptsMessage)
    ensures o.NoResponse? ==> r == Some(NetworkErrorMessage)
    ensures o.ErrorResponse? && o.status != 422 && o.status != 429 ==> r == ErrorMessageOr(o, LoginFailedMessage)
    ensures r.Some? ==> r.value != ""
  {
    match o
    case Succeeded => None
    case ErrorResponse(status, _) =>
      if status == 422 then Some(InvalidCredentialsMessage)
      else if status == 429 then Some(TooManyAttemptsMessage)
      else ErrorMessageOr(o, LoginFailedMessage)
    case NoResponse => Some(NetworkErrorMessage)
  }

  /** The client-side checks in their order: both fields filled, then the
      email's shape; None lets the request go out. */
  function LoginFormError(email: string, password: string): (r: Option<string>)
    ensures r.None? <==> email != "" && password != "" && IsEmailShaped(email)
    ensures email == "" || password == "" ==> r == Some(MissingFieldsMessage)
    ensures email != "" && password != "" && !IsEmailShaped(email) ==> r == Some(InvalidEmailMessage)
  {
    if email == "" || password == "" then Some(MissingFieldsMessage)
    else if !IsEmailShaped(email) then Some(InvalidEmailMessage)
    else None
  }

  /** A 422 always reads as bad credentials, whatever message the server
      sent with it, and the server's own message shows only for a status
      other than 422 and 429. */
  lemma ServerMessageShownOnlyForOtherStatuses(o: ApiOutcome, m: string)
    requires m != "" && m != InvalidCredentialsMessage && m != TooManyAttemptsMessage
    requires m != NetworkErrorMessage && m != LoginFailedMessage
    ensures LoginError(o) == Some(m) <==> o.ErrorResponse? && o.status != 422 && o.status != 429 && o.message == Some(m)
  {
  }

  class Login {
    var email: string
    var password: string
    var loading: bool
    var error: Option<string>

    /** Between events: no call in flight, and an error, when there is one,
        is a non-empty message. */
    ghost predicate Valid()
      reads this
    {
      !loading && error != Some("")
    }

    constructor ()
      ensures Valid() && email == "" && password == "" && error.None?
    {
      email := "";
      password := "";
      loading := false;
      error := None;
    }

    /** handleLogin: the client-side checks, then the login call; every exit
        leaves `loading` false. */
    method HandleLogin(o: ApiOutcome) returns (sent: bool)
      requires Valid()
      modifies this`loading, this`error
      ensures Valid() && !loading
      ensures sent <==> LoginFormError(email, password).None?
      ensures !sent ==> error == LoginFormError(email, password)
      ensures sent ==> error == LoginError(o)
    {
      loading := true;
      error := None;
      if email == "" || password == "" {
        error := Some(MissingFieldsMessage);
        loading := false;
        return false;
      }
      if !IsEmailShaped(email) {
        error := Some(InvalidEmailMessage);
        loading := false;
        return false;
      }
      sent := true;
      error := LoginError(o);
      loading := false;
    }

    /** The email input's onChange: store the value, clear any error. */
    method OnEmailChange(value: string)
      requires Valid()
      modifies this`email, this`error
      ensures Valid() && email == value && error.None?
    {
      email := value;
      if JsTruthy(error) {
        error := None;
      }
    }

    /** The password input's onChange: store the value, clear any error. */
    method OnPasswordChange(value: string)
      requires Valid()
      modifies this`password, this`error
      ensures Valid() && password == value && error.None?
    {
      password := value;
      if JsTruthy(error) {
        error := None;
      }
    }
  }

  /** An empty form is refused before the email is looked at; a failed
      login's message disappears as soon as the user types. */
  method LoginFlow(address: string)
    requires IsEmailShaped(address)
  {
    var page := new Login();
    page.OnEmailChange("not an email");
    var sent := page.HandleLogin(Succeeded);
    assert !sent && page.error == Some(MissingFieldsMessage);
    page.OnPasswordChange("secret");
    assert page.error.None?;
    sent := page.HandleLogin(Succeeded);
    assert page.email[3] == ' ';
    assert !sent && page.error == Some(InvalidEmailMessage);
    page.OnEmailChange(address);
    sent := page.HandleLogin(ErrorResponse(422, Some("These credentials do not match our records.")));
    assert sent && page.error == Some(InvalidCredentialsMessage);
    page.OnPasswordChange("secret2");
    assert page.error.None?;
  }
}
