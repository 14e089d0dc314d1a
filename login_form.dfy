/**
 * The sign-in form (frontend/components/LoginForm.tsx): no client-side
 * checks, error clearing on input, and the submit around the provider's
 * `login`, split at its `await`.
 */
module LoginForm {
  import opened Wrappers
  import opened FormValues
  import opened ApiErrors
  import ForgotPassword
  import AuthSession
  import LoginEndpoint

  const FallbackMessage := "Invalid email or password."
  const GeneralKey := "general"

  /** The errors once a submit has settled: the thrown error's message, or the fallback, as `general`. */
  function ErrorsAfter(thrown: Option<Thrown>, errors: Errors): (r: Errors)
    ensures thrown.None? ==> r == errors
    ensures thrown.Some? ==> r.Keys == {GeneralKey} && r[GeneralKey] != ""
    ensures thrown.Some? && thrown.value.message != "" ==> r[GeneralKey] == thrown.value.message
    ensures thrown.Some? && thrown.value.message == "" ==> r[GeneralKey] == FallbackMessage
  {
    match thrown
    case None => errors
    case Some(e) => map[GeneralKey := MessageOr(e, FallbackMessage)]
  }

  /**
   * Against the mock login endpoint, the form always ends with a general
   * error: "Invalid login response" for the one good account (the mock sends
   * no user or access token), the missing-field message when a field is
   * empty, and the endpoint's "Invalid email or password" otherwise.
   */
  lemma MockSubmitMessage(s: AuthSession.Session, email: string, password: string, now: nat)
    ensures var thrown := AuthSession.LoggedIn(s, AuthSession.ClientView(LoginEndpoint.Login(LoginEndpoint.LoginRequest(email, password), now))).1;
      var e := ErrorsAfter(thrown, map[]);
      GeneralKey in e &&
      (email == "test@example.com" && password == "password" ==> e[GeneralKey] == "Invalid login response") &&
      (email == "" || password == "" ==> e[GeneralKey] == "Email and password are required") &&
      (email != "" && password != "" && !(email == "test@example.com" && password == "password") ==>
        e[GeneralKey] == "Invalid email or password")
  {
    AuthSession.MockLoginNeverAuthenticates(s, email, password, now);
    LoginEndpoint.LoginOutcome(LoginEndpoint.LoginRequest(email, password), now);
  }

  class LoginFormState {
    var formData: map<string, string>
    var errors: Errors
    var isSubmitting: bool

    constructor()
      ensures formData == map["email" := "", "password" := ""] && errors == map[] && !isSubmitting
    {
      formData := map["email" := "", "password" := ""];
      errors := map[];
      isSubmitting := false;
    }

    /** The same clearing as the reset form: `email` on an email change, `general` on every change. */
    method HandleInputChange(field: string, value: string)
      modifies this
      ensures formData == old(formData)[field := value]
      ensures errors == ForgotPassword.ErrorsAfterInput(old(errors), field)
      ensures isSubmitting == old(isSubmitting)
    {
      formData := formData[field := value];
      if field == "email" {
        errors := ClearError(errors, "email");
      }
      errors := ClearError(errors, GeneralKey);
    }

    /** `handleSubmit` up to the `await`: always calls `login` with the current email and password. */
    method BeginSubmit() returns (email: string, password: string)
      modifies this
      ensures formData == old(formData) && errors == map[] && isSubmitting
      ensures email == (if "email" in formData then formData["email"] else "")
      ensures password == (if "password" in formData then formData["password"] else "")
    {
      isSubmitting := true;
      errors := map[];
      email := if "email" in formData then formData["email"] else "";
      password := if "password" in formData then formData["password"] else "";
    }

    /** `handleSubmit` after the `await`, `finally` included. */
    method FinishSubmit(thrown: Option<Thrown>)
      modifies this
      ensures formData == old(formData) && !isSubmitting
      ensures errors == ErrorsAfter(thrown, old(errors))
    {
      if thrown.Some? {
        errors := map[GeneralKey := MessageOr(thrown.value, FallbackMessage)];
      }
      isSubmitting := false;
    }
  }
}
