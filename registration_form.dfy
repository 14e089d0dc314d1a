/**
 * The sign-up form (frontend/components/RegistrationForm.tsx): required-field
 * checks, error clearing on input, and the register call with its outcome.
 * `handleSubmit` is split at its one `await`: `BeginSubmit` runs up to the
 * call and returns the request it sends, `FinishSubmit` takes the awaited
 * outcome and runs the rest, including the `finally`.
 */
module Registration {
  import opened Wrappers
  import opened Text
  import opened FormValues
  import opened FormRules
  import opened ApiErrors
  import RegisterEndpoint

  const InitialData: Record :=
    map["email" := Str(""), "password" := Str(""), "firstName" := Str(""), "lastName" := Str(""),
        "privacyPolicy" := Bool(false), "marketingComms" := Bool(false)]

  /** The five checks of `validateForm`; the privacy-policy box reports under `privacy`. */
  const Rules: seq<Rule> := [
    Rule("email", "email", "E-mail is required"),
    Rule("password", "password", "Password is required"),
    Rule("firstName", "firstName", "First name is required"),
    Rule("lastName", "lastName", "Last name is required"),
    Rule("privacyPolicy", "privacy", "Agreeing to the Privacy Policy is required")]

  const GeneralKey := "general"
  const DefaultCountryId := "479"
  const DefaultCurrency := "USD"
  const FallbackMessage := "Registration failed."
  const TakenMarker := "already exists"

  /**
   * The form is valid exactly when email, password and both names are
   * non-empty and the privacy policy is agreed; the marketing box plays no part.
   */
  lemma ValidateSpec(data: Record)
    ensures var e := RequiredErrors(data, Rules);
      (|e| == 0 <==>
        Filled(data, "email") && Filled(data, "password") && Filled(data, "firstName") &&
        Filled(data, "lastName") && Filled(data, "privacyPolicy")) &&
      ("privacy" in e <==> !Filled(data, "privacyPolicy")) &&
      ("privacy" in e ==> e["privacy"] == "Agreeing to the Privacy Policy is required") &&
      "privacyPolicy" !in e && "marketingComms" !in e && GeneralKey !in e
  {
    RulesDistinct();
    FiveRules(data, Rules);
  }

  /** The five checks, stated for any list holding them, so that the literal list is not unfolded. */
  lemma FiveRules(data: Record, rules: seq<Rule>)
    requires |rules| == 5 && DistinctKeys(rules)
    requires rules[0] == Rule("email", "email", "E-mail is required")
    requires rules[1] == Rule("password", "password", "Password is required")
    requires rules[2] == Rule("firstName", "firstName", "First name is required")
    requires rules[3] == Rule("lastName", "lastName", "Last name is required")
    requires rules[4] == Rule("privacyPolicy", "privacy", "Agreeing to the Privacy Policy is required")
    ensures var e := RequiredErrors(data, rules);
      (|e| == 0 <==>
        Filled(data, "email") && Filled(data, "password") && Filled(data, "firstName") &&
        Filled(data, "lastName") && Filled(data, "privacyPolicy")) &&
      ("privacy" in e <==> !Filled(data, "privacyPolicy")) &&
      ("privacy" in e ==> e["privacy"] == "Agreeing to the Privacy Policy is required") &&
      "privacyPolicy" !in e && "marketingComms" !in e && GeneralKey !in e
  {
    var e := RequiredErrors(data, rules);
    RequiredErrorsPerRule(data, rules);
    RequiredErrorsKeys(data, rules);
    forall k | k in e ensures k in {"email", "password", "firstName", "lastName", "privacy"} {
      var i :| 0 <= i < |rules| && rules[i].errorKey == k;
    }
    if Filled(data, "email") && Filled(data, "password") && Filled(data, "firstName") &&
        Filled(data, "lastName") && Filled(data, "privacyPolicy") {
      assert "email" !in e && "password" !in e && "firstName" !in e && "lastName" !in e && "privacy" !in e;
      assert e.Keys == {};
      assert e == map[];
    }
    if |e| == 0 {
      assert "email" !in e && "password" !in e && "firstName" !in e && "lastName" !in e && "privacy" !in e;
    }
  }

  lemma RulesDistinct()
    ensures DistinctKeys(Rules)
  {
  }

  /** The marketing box never affects validation. */
  lemma MarketingIgnored(data: Record, v: Value)
    ensures RequiredErrors(data["marketingComms" := v], Rules) == RequiredErrors(data, Rules)
  {
    assert forall i :: 0 <= i < |Rules| ==> Rules[i].field != "marketingComms";
    RequiredErrorsFieldsOnly(data, data["marketingComms" := v], Rules);
  }

  /** Only the fields the rules read decide the errors. */
  lemma {:induction false} RequiredErrorsFieldsOnly(a: Record, b: Record, rules: seq<Rule>)
    requires forall i :: 0 <= i < |rules| ==> (Filled(a, rules[i].field) <==> Filled(b, rules[i].field))
    ensures RequiredErrors(a, rules) == RequiredErrors(b, rules)
    decreases |rules|
  {
    if rules != [] {
      RequiredErrorsFieldsOnly(a, b, rules[..|rules| - 1]);
    }
  }

  /** The error key a field's own input clears, if it has one. */
  function OwnErrorKey(field: string): Option<string> {
    if field in {"email", "password", "firstName", "lastName"} then Some(field)
    else if field == "privacyPolicy" then Some("privacy")
    else None
  }

  /** `handleInputChange`'s effect on the errors: the field's own error, then `general`. */
  function ErrorsAfterInput(errors: Errors, field: string): (r: Errors)
    ensures GeneralKey in r <==> GeneralKey in errors && errors[GeneralKey] == ""
    ensures GeneralKey in r ==> r[GeneralKey] == ""
    ensures OwnErrorKey(field).Some? ==>
      var key := OwnErrorKey(field).value;
      (key in r <==> key in errors && errors[key] == "") && (key in r ==> r[key] == "")
    ensures forall k :: k != GeneralKey && OwnErrorKey(field) != Some(k) ==>
      (k in r <==> k in errors) && (k in r ==> r[k] == errors[k])
  {
    var afterOwn := match OwnErrorKey(field)
      case Some(key) => ClearError(errors, key)
      case None => errors;
    ClearError(afterOwn, GeneralKey)
  }

  /** Changing the marketing box clears `general` and nothing else. */
  lemma MarketingClearsOnlyGeneral(errors: Errors)
    ensures ErrorsAfterInput(errors, "marketingComms") == ClearError(errors, GeneralKey)
  {
  }

  /** The request `handleSubmit` sends: the form's text fields with the fixed country and currency. */
  datatype RegisterCall = RegisterCall(
    email: string, password: string, countryId: string, currency: string, firstName: string, lastName: string)

  /** The text of a string field; a field that holds no string is sent as empty. */
  function TextOf(data: Record, key: string): string {
    if key in data && data[key].Str? then data[key].text else ""
  }

  function RequestFor(data: Record): (c: RegisterCall)
    ensures c.countryId == DefaultCountryId && c.currency == DefaultCurrency
    ensures c.email == TextOf(data, "email") && c.password == TextOf(data, "password")
    ensures c.firstName == TextOf(data, "firstName") && c.lastName == TextOf(data, "lastName")
  {
    RegisterCall(TextOf(data, "email"), TextOf(data, "password"), DefaultCountryId, DefaultCurrency,
      TextOf(data, "firstName"), TextOf(data, "lastName"))
  }

  /** What the backend's `register` reads of the call: the names are dropped. */
  function Endpoint(c: RegisterCall): RegisterEndpoint.RegisterRequest {
    RegisterEndpoint.RegisterRequest(c.email, c.password, c.countryId, c.currency)
  }

  /** What the client sees of a register reply. */
  datatype RegisterReply = RegisterReply(jwt: Option<string>, user: Option<string>)

  predicate Present(v: Option<string>) {
    v.Some? && v.value != ""
  }

  datatype Callback = AuthSuccess | ShowLogin | NoCallback

  /** `errorMessage.toLowerCase().includes('already exists')`. */
  predicate IsTakenMessage(message: string) {
    Includes(AsciiLower(message), TakenMarker)
  }

  /** The effect after the `await`: errors, the `localStorage` writes, and the callback made. */
  function Finished(errors: Errors, outcome: Result<RegisterReply, Thrown>): (Errors, seq<(string, string)>, Callback) {
    match outcome
    case Success(reply) =>
      if Present(reply.jwt) then
        (errors, [("jwt", reply.jwt.value)] + (if Present(reply.user) then [("user", reply.user.value)] else []), AuthSuccess)
      else (errors, [], NoCallback)
    case Failure(e) =>
      var message := MessageOr(e, FallbackMessage);
      if IsTakenMessage(message) then (errors, [], ShowLogin)
      else (map[GeneralKey := message], [], NoCallback)
  }

  /**
   * The message of the `TypeError` that V8 throws for a call of an absent
   * `onAuthSuccess` prop; other engines word it differently.
   */
  const UnsetCallbackMessage := "onAuthSuccess is not a function"

  /**
   * The effect after the `await` with the form mounted as frontend/App.tsx:63
   * mounts it, without props, where calling an absent callback throws a
   * `TypeError` with message `typeError`: after the writes, calling the absent
   * `onAuthSuccess` throws inside the `try`, and the `catch` handles that
   * error like any other; calling the absent `onShowLogin` throws out of the
   * `catch`, leaving the errors as they were. The errors and the writes.
   */
  function FinishedUnwired(errors: Errors, outcome: Result<RegisterReply, Thrown>, typeError: string): (Errors, seq<(string, string)>) {
    var (e, writes, cb) := Finished(errors, outcome);
    if cb == AuthSuccess then (Finished(errors, Failure(PlainError(typeError))).0, writes)
    else (e, writes)
  }

  /**
   * Mounted without props, a registration the backend accepts stores its
   * token and then shows the `TypeError`'s message as the only, general,
   * error: the user stays on the form, told that something failed. The
   * premise on the message holds for V8's, by `UnsetMessageNotTaken`.
   */
  lemma UnwiredSuccessShowsError(errors: Errors, reply: RegisterReply, typeError: string)
    ensures (Present(reply.jwt) && typeError != "" && !IsTakenMessage(typeError)) ==>
      FinishedUnwired(errors, Success(reply), typeError).0 == map[GeneralKey := typeError] &&
      FinishedUnwired(errors, Success(reply), typeError).1 == Finished(errors, Success(reply)).1 &&
      FinishedUnwired(errors, Success(reply), typeError).1 != []
  {
  }

  /** The `TypeError`'s message does not say "already exists": it has no `y` in either case. */
  lemma UnsetMessageNotTaken()
    ensures !IsTakenMessage(UnsetCallbackMessage)
  {
    var m := UnsetCallbackMessage;
    assert 'y' !in m && 'Y' !in m;
    NoYNotTaken(m);
  }

  /** A message with no `y` and no `Y` is not the taken-email message: "already exists" has a `y`. */
  lemma NoYNotTaken(m: string)
    requires 'y' !in m && 'Y' !in m
    ensures !IsTakenMessage(m)
  {
    LowerMissing(m, 'y');
    assert TakenMarker[6] == 'y';
    MissingCharNotIncluded(AsciiLower(m), TakenMarker, 'y');
  }

  /**
   * A reply with a token stores it, then the user when there is one, and
   * calls `onAuthSuccess`; a reply without one does nothing; an error
   * mentioning "already exists" in any letter case calls `onShowLogin` and
   * leaves the errors as they were, and every other error is shown as the
   * only, general, error. Nothing is stored except on a token.
   */
  lemma FinishedSpec(errors: Errors, outcome: Result<RegisterReply, Thrown>)
    ensures var (e, writes, cb) := Finished(errors, outcome);
      (cb == AuthSuccess <==> outcome.Success? && Present(outcome.value.jwt)) &&
      (cb == AuthSuccess ==>
        e == errors &&
        writes == [("jwt", outcome.value.jwt.value)] +
          (if Present(outcome.value.user) then [("user", outcome.value.user.value)] else [])) &&
      (cb != AuthSuccess ==> writes == []) &&
      (outcome.Success? && !Present(outcome.value.jwt) ==> e == errors && cb == NoCallback) &&
      (outcome.Failure? ==>
        var m := MessageOr(outcome.error, FallbackMessage);
        (cb == ShowLogin <==> Includes(AsciiLower(m), TakenMarker)) &&
        (cb == ShowLogin ==> e == errors) &&
        (cb == NoCallback ==> e == map[GeneralKey := m] && m != ""))
  {
  }

  /**
   * Against the mock backend, a complete form whose email is the taken one
   * ends on the login form; any other complete form stores a token, and no
   * user, and calls `onAuthSuccess`.
   */
  lemma MockOutcome(data: Record, now: nat)
    requires RequiredErrors(data, Rules) == map[]
    requires "email" in data && data["email"].Str? && "password" in data && data["password"].Str?
    ensures var r := RegisterEndpoint.Register(Endpoint(RequestFor(data)), now);
      var outcome := match r
        case Success(resp) => Success(RegisterReply(Some(resp.jwt), None))
        case Failure(err) => Failure(err);
      var (_, writes, cb) := Finished(map[], outcome);
      (TextOf(data, "email") == "existing@example.com" ==> cb == ShowLogin) &&
      (TextOf(data, "email") != "existing@example.com" ==> cb == AuthSuccess && |writes| == 1)
  {
    ValidateSpec(data);
    var req := Endpoint(RequestFor(data));
    RegisterEndpoint.RegisterOutcome(req, now);
    if TextOf(data, "email") == "existing@example.com" {
      TakenMessageMatches();
    } else {
      assert Present(Some(RegisterEndpoint.Register(req, now).value.jwt)) by {
        LoginEndpointTokenNonEmpty(now);
      }
    }
  }

  /** The mock's "taken" message is recognised. */
  lemma TakenMessageMatches()
    ensures Includes(AsciiLower(RegisterEndpoint.Taken.message), TakenMarker)
  {
    assert RegisterEndpoint.Taken.message == "User with this email " + TakenMarker;
    FoundAfter("User with this email ", TakenMarker);
  }

  lemma LoginEndpointTokenNonEmpty(now: nat)
    ensures RegisterEndpoint.LoginEndpoint.MockJwt(now) != ""
  {
  }

  class RegistrationForm {
    var formData: Record
    var errors: Errors
    var isSubmitting: bool

    constructor()
      ensures formData == InitialData && errors == map[] && !isSubmitting
    {
      formData := InitialData;
      errors := map[];
      isSubmitting := false;
    }

    method HandleInputChange(field: string, value: Value)
      modifies this
      ensures formData == Merge(old(formData), map[field := value])
      ensures errors == ErrorsAfterInput(old(errors), field)
      ensures isSubmitting == old(isSubmitting)
    {
      formData := Merge(formData, map[field := value]);
      var key := OwnErrorKey(field);
      if key.Some? {
        errors := ClearError(errors, key.value);
      }
      errors := ClearError(errors, GeneralKey);
    }

    /** `validateForm`: the five checks in order, stored as the errors. */
    method ValidateForm() returns (ok: bool)
      modifies this
      ensures formData == old(formData) && isSubmitting == old(isSubmitting)
      ensures errors == RequiredErrors(formData, Rules)
      ensures ok <==> errors == map[]
    {
      // One `if (!formData[field]) newErrors[key] = message` per rule, in the order of `Rules`.
      var newErrors: Errors := map[];
      assert Rules[..0] == [];
      CheckedPrefix(formData, Rules, 0);
      if !Filled(formData, Rules[0].field) { newErrors := newErrors[Rules[0].errorKey := Rules[0].message]; }
      CheckedPrefix(formData, Rules, 1);
      if !Filled(formData, Rules[1].field) { newErrors := newErrors[Rules[1].errorKey := Rules[1].message]; }
      CheckedPrefix(formData, Rules, 2);
      if !Filled(formData, Rules[2].field) { newErrors := newErrors[Rules[2].errorKey := Rules[2].message]; }
      CheckedPrefix(formData, Rules, 3);
      if !Filled(formData, Rules[3].field) { newErrors := newErrors[Rules[3].errorKey := Rules[3].message]; }
      CheckedPrefix(formData, Rules, 4);
      if !Filled(formData, Rules[4].field) { newErrors := newErrors[Rules[4].errorKey := Rules[4].message]; }
      assert Rules[..5] == Rules;
      errors := newErrors;
      ok := newErrors == map[];
    }

    /** `handleSubmit` up to the `await`: the request sent, or none when the form is invalid. */
    method BeginSubmit() returns (request: Option<RegisterCall>)
      modifies this
      ensures formData == old(formData)
      ensures request.None? <==> RequiredErrors(formData, Rules) != map[]
      ensures request.None? ==> errors == RequiredErrors(formData, Rules) && isSubmitting == old(isSubmitting)
      ensures request.Some? ==> request.value == RequestFor(formData) && errors == map[] && isSubmitting
    {
      var ok := ValidateForm();
      if !ok {
        request := None;
      } else {
        isSubmitting := true;
        errors := map[];
        request := Some(RequestFor(formData));
      }
    }

    /** `handleSubmit` after the `await`, `finally` included: the storage writes and the callback made. */
    method FinishSubmit(outcome: Result<RegisterReply, Thrown>) returns (writes: seq<(string, string)>, callback: Callback)
      modifies this
      ensures formData == old(formData) && !isSubmitting
      ensures (errors, writes, callback) == Finished(old(errors), outcome)
    {
      writes := [];
      callback := NoCallback;
      match outcome {
        case Success(reply) =>
          if Present(reply.jwt) {
            writes := [("jwt", reply.jwt.value)] + (if Present(reply.user) then [("user", reply.user.value)] else []);
            callback := AuthSuccess;
          }
        case Failure(e) =>
          var message := MessageOr(e, FallbackMessage);
          if IsTakenMessage(message) {
            callback := ShowLogin;
          } else {
            errors := map[GeneralKey := message];
          }
      }
      isSubmitting := false;
    }
  }
}
