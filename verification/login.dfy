/** The login form of src/pages/Login.js: the two fields, the errors
    object, `validateForm`, `handleChange` and `handleSubmit`. The request is
    not made: its answer is an input. */
module Login {
  import opened Wrappers
  import opened JsText

  const UsernameRequired := "Username is required"
  const PasswordRequired := "Password is required"
  const LoginFailed := "Login failed. Please try again."
  const ServerUnreachable := "Unable to connect to server. Please try again later."
  const VerifyOtpRoute := "/verify-otp"

  /** The named inputs of the form. */
  datatype Field = Username | Password

  /** The keys of the errors object: one per input, and `api`. */
  datatype ErrorKey = FieldError(field: Field) | ApiError

  type Errors = map<ErrorKey, string>

  /** `validateForm`: a fresh errors object with an entry for each empty
      field and nothing else. */
  function ValidateForm(username: string, password: string): (e: Errors)
    ensures FieldError(Username) in e <==> username == ""
    ensures FieldError(Password) in e <==> password == ""
    ensures ApiError !in e
    ensures FieldError(Username) in e ==> e[FieldError(Username)] == UsernameRequired
    ensures FieldError(Password) in e ==> e[FieldError(Password)] == PasswordRequired
  {
    var u: Errors := if username == "" then map[FieldError(Username) := UsernameRequired] else map[];
    if password == "" then u[FieldError(Password) := PasswordRequired] else u
  }

  /** `Object.keys(newErrors).length === 0` holds exactly when both fields
      are filled in. */
  lemma NoErrorsIffFilled(username: string, password: string)
    ensures |ValidateForm(username, password).Keys| == 0 <==> username != "" && password != ""
  {
    var e := ValidateForm(username, password);
    if username == "" {
      assert FieldError(Username) in e.Keys;
    } else if password == "" {
      assert FieldError(Password) in e.Keys;
    } else {
      assert e == map[];
    }
  }

  /** The error update of `handleChange`: a set (truthy) error of the edited
      field becomes '' and keeps its key; everything else stays. */
  function ClearError(errors: Errors, field: Field): (r: Errors)
    ensures r.Keys == errors.Keys
    ensures FieldError(field) in r ==> r[FieldError(field)] == ""
    ensures forall k :: k in errors && k != FieldError(field) ==> r[k] == errors[k]
  {
    var key := FieldError(field);
    if key in errors && errors[key] != "" then errors[key := ""] else errors
  }

  /** Clearing twice is clearing once, and an error already cleared is left
      exactly as it was. */
  lemma ClearErrorIdempotent(errors: Errors, field: Field)
    ensures ClearError(ClearError(errors, field), field) == ClearError(errors, field)
    ensures FieldError(field) !in errors || errors[FieldError(field)] == "" ==> ClearError(errors, field) == errors
  {
  }

  /** The answer to the login request. */
  datatype LoginReply = Accepted(token: Option<string>) | Refused(message: Option<string>) | Threw

  /** The request the form sends. */
  datatype LoginRequest = LoginRequest(username: string, password: string)

  class LoginPage {
    var username: string
    var password: string
    var errors: Errors
    /** `localStorage.authToken` as the page leaves it. */
    var storedToken: Option<Option<string>>
    /** The route navigated to, with the username handed over as state. */
    var navigate: Option<(string, string)>

    constructor ()
      ensures username == "" && password == "" && errors == map[] && storedToken.None? && navigate.None?
    {
      username := "";
      password := "";
      errors := map[];
      storedToken := None;
      navigate := None;
    }

    /** `handleChange`: the named field takes the value, the other keeps
        its own, and the edited field's error is cleared when it was set. */
    method HandleChange(field: Field, value: string)
      modifies this`username, this`password, this`errors
      ensures field == Username ==> username == value && password == old(password)
      ensures field == Password ==> password == value && username == old(username)
      ensures errors == ClearError(old(errors), field)
    {
      match field {
        case Username => username := value;
        case Password => password := value;
      }
      errors := ClearError(errors, field);
    }

    /** `handleSubmit` up to the request: with no validation error the
        request goes out and the errors stay; otherwise the errors become
        exactly the validation errors and nothing is sent. */
    method Submit() returns (request: Option<LoginRequest>)
      modifies this`errors
      ensures username != "" && password != "" ==>
        request == Some(LoginRequest(username, password)) && errors == old(errors)
      ensures !(username != "" && password != "") ==>
        request.None? && errors == ValidateForm(username, password)
    {
      var newErrors := ValidateForm(username, password);
      NoErrorsIffFilled(username, password);
      if |newErrors.Keys| == 0 {
        return Some(LoginRequest(username, password));
      }
      errors := newErrors;
      return None;
    }

    /** The rest of `handleSubmit`: an ok answer stores the token and goes
        to the code screen with the username; otherwise the errors become a
        single `api` entry. */
    method Answer(reply: LoginReply)
      modifies this`errors, this`storedToken, this`navigate
      ensures reply.Accepted? ==>
        storedToken == Some(reply.token) && navigate == Some((VerifyOtpRoute, username)) && errors == old(errors)
      ensures reply.Refused? ==>
        errors == map[ApiError := if Filled(reply.message) then reply.message.value else LoginFailed]
        && storedToken == old(storedToken) && navigate == old(navigate)
      ensures reply.Threw? ==>
        errors == map[ApiError := ServerUnreachable] && storedToken == old(storedToken) && navigate == old(navigate)
    {
      match reply {
        case Accepted(token) =>
          storedToken := Some(token);
          navigate := Some((VerifyOtpRoute, username));
        case Refused(message) =>
          errors := map[ApiError := if Filled(message) then message.value else LoginFailed];
        case Threw =>
          errors := map[ApiError := ServerUnreachable];
      }
    }
  }
}
