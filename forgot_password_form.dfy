/**
 * The password-reset request form (frontend/components/ForgotPasswordForm.tsx):
 * the email check with the unanchored pattern `\S+@\S+\.\S+`, error
 * clearing on input, and the reset call split at its `await`.
 */
module ForgotPassword {
  import opened Wrappers
  import opened Text
  import opened FormValues
  import opened ApiErrors

  const RequiredMessage := "Email is required"
  const InvalidMessage := "Please enter a valid email address"
  const FallbackMessage := "Failed to send password reset email. Please try again."
  const GeneralKey := "general"
  const EmailKey := "email"

  /** A run of characters none of which `\s` matches. */
  ghost predicate NonBlank(t: string) {
    forall k :: 0 <= k < |t| ==> !IsJsWhitespace(t[k])
  }

  /** The pattern matched with its three runs at `s[i..a]`, `s[a + 1..d]` and `s[d + 1..e]`. */
  ghost predicate MatchAt(s: string, i: int, a: int, d: int, e: int) {
    0 <= i < a && a + 1 < d && d + 1 < e <= |s| &&
    NonBlank(s[i..a]) && s[a] == '@' && NonBlank(s[a + 1..d]) && s[d] == '.' && NonBlank(s[d + 1..e])
  }

  /**
   * What `/\S+@\S+\.\S+/.test(s)` means: somewhere in `s`, a non-empty
   * non-blank run, `@`, a non-empty non-blank run, `.`, and a non-empty
   * non-blank run.
   */
  ghost predicate PatternMatches(s: string) {
    exists i, a, d, e :: MatchAt(s, i, a, d, e)
  }

  /** `@` at `a` and `.` at `d`, with one non-blank character before and after and none between. */
  predicate CandidateAt(s: string, a: int, d: int) {
    0 < a && a + 1 < d && d + 1 < |s| && !IsJsWhitespace(s[a - 1]) && s[a] == '@' && s[d] == '.' &&
    !IsJsWhitespace(s[d + 1]) && NoBlankBetween(s, a + 1, d)
  }

  /** No whitespace in `s[lo..hi]`. */
  predicate NoBlankBetween(s: string, lo: int, hi: int)
    requires 0 <= lo <= hi <= |s|
    decreases hi - lo
  {
    lo == hi || (!IsJsWhitespace(s[lo]) && NoBlankBetween(s, lo + 1, hi))
  }

  lemma {:induction false} NoBlankBetweenSpec(s: string, lo: int, hi: int)
    requires 0 <= lo <= hi <= |s|
    ensures NoBlankBetween(s, lo, hi) <==> NonBlank(s[lo..hi])
    decreases hi - lo
  {
    if lo < hi {
      NoBlankBetweenSpec(s, lo + 1, hi);
      assert s[lo..hi] == [s[lo]] + s[lo + 1..hi];
    }
  }

  /**
   * The test as a search over the positions of `@` and `.`: one non-blank
   * character on each outer side is enough, since `\S+` may stop after one.
   */
  predicate LooksLikeEmail(s: string) {
    exists d, a | 0 <= d < |s| && 0 <= a < d :: CandidateAt(s, a, d)
  }

  /** The search accepts exactly the strings the pattern matches. */
  lemma LooksLikeEmailIffPattern(s: string)
    ensures LooksLikeEmail(s) <==> PatternMatches(s)
  {
    if LooksLikeEmail(s) {
      var d, a :| 0 <= d < |s| && 0 <= a < d && CandidateAt(s, a, d);
      NoBlankBetweenSpec(s, a + 1, d);
      assert NonBlank(s[a - 1..a]);
      assert NonBlank(s[d + 1..d + 2]);
      assert MatchAt(s, a - 1, a, d, d + 2);
    }
    if PatternMatches(s) {
      var i, a, d, e :| MatchAt(s, i, a, d, e);
      assert s[i..a][a - 1 - i] == s[a - 1];
      assert s[d + 1..e][0] == s[d + 1];
      NoBlankBetweenSpec(s, a + 1, d);
      assert CandidateAt(s, a, d);
    }
  }

  /** Because the pattern is not anchored, text around an address does not matter, blanks included. */
  lemma UnanchoredExamples()
    ensures LooksLikeEmail("a@b.c")
    ensures LooksLikeEmail("see x@y.z here")
    ensures !LooksLikeEmail("a@b")
    ensures !LooksLikeEmail("@b.c")
  {
    assert CandidateAt("a@b.c", 1, 3);
    assert CandidateAt("see x@y.z here", 5, 7);
  }

  /** The email the form holds: a missing key reads as empty. */
  function EmailOf(formData: map<string, string>): string {
    if EmailKey in formData then formData[EmailKey] else ""
  }

  /** `validateForm`'s errors. */
  function EmailErrors(email: string): (e: Errors)
    ensures e.Keys <= {EmailKey} && |e| <= 1
    ensures e == map[] <==> email != "" && PatternMatches(email)
    ensures email == "" ==> e == map[EmailKey := RequiredMessage]
    ensures email != "" && !PatternMatches(email) ==> e == map[EmailKey := InvalidMessage]
  {
    LooksLikeEmailIffPattern(email);
    if email == "" then map[EmailKey := RequiredMessage]
    else if !LooksLikeEmail(email) then map[EmailKey := InvalidMessage]
    else map[]
  }

  /** `handleInputChange`'s effect on the errors: `email` on an email change, then always `general`. */
  function ErrorsAfterInput(errors: Errors, field: string): (r: Errors)
    ensures GeneralKey in r <==> GeneralKey in errors && errors[GeneralKey] == ""
    ensures GeneralKey in r ==> r[GeneralKey] == ""
    ensures field == EmailKey ==> (EmailKey in r <==> EmailKey in errors && errors[EmailKey] == "")
    ensures field == EmailKey && EmailKey in r ==> r[EmailKey] == ""
    ensures forall k :: k != GeneralKey && (k != EmailKey || field != EmailKey) ==>
      (k in r <==> k in errors) && (k in r ==> r[k] == errors[k])
  {
    ClearError(if field == EmailKey then ClearError(errors, EmailKey) else errors, GeneralKey)
  }

  /** Which of the two views the component draws. */
  datatype View = ConfirmationView | FormView

  class ForgotPasswordForm {
    var formData: map<string, string>
    var errors: Errors
    var isSubmitting: bool
    var isSuccess: bool

    constructor()
      ensures formData == map[EmailKey := ""] && errors == map[] && !isSubmitting && !isSuccess
    {
      formData := map[EmailKey := ""];
      errors := map[];
      isSubmitting := false;
      isSuccess := false;
    }

    function Showing(): (v: View)
      reads this
      ensures v == ConfirmationView <==> isSuccess
    {
      if isSuccess then ConfirmationView else FormView
    }

    method HandleInputChange(field: string, value: string)
      modifies this
      ensures formData == old(formData)[field := value]
      ensures errors == ErrorsAfterInput(old(errors), field)
      ensures isSubmitting == old(isSubmitting) && isSuccess == old(isSuccess)
    {
      formData := formData[field := value];
      if field == EmailKey {
        errors := ClearError(errors, EmailKey);
      }
      errors := ClearError(errors, GeneralKey);
    }

    /** `handleSubmit` up to the `await`: the email sent, or none when it fails the check. */
    method BeginSubmit() returns (request: Option<string>)
      modifies this
      ensures formData == old(formData) && isSuccess == old(isSuccess)
      ensures request.None? <==> EmailErrors(EmailOf(formData)) != map[]
      ensures request.None? ==> errors == EmailErrors(EmailOf(formData)) && isSubmitting == old(isSubmitting)
      ensures request.Some? ==>
        request.value == EmailOf(formData) && PatternMatches(request.value) && errors == map[] && isSubmitting
    {
      var email := EmailOf(formData);
      var newErrors := EmailErrors(email);
      errors := newErrors;
      if |newErrors| != 0 {
        request := None;
      } else {
        isSubmitting := true;
        errors := map[];
        request := Some(email);
      }
    }

    /**
     * `handleSubmit` after the `await`, `finally` included: a reply with
     * `success` switches to the confirmation view, one without changes
     * nothing, and an error becomes the general error.
     */
    method FinishSubmit(outcome: Result<bool, Thrown>)
      modifies this
      ensures formData == old(formData) && !isSubmitting
      ensures outcome.Success? ==> errors == old(errors) && isSuccess == (old(isSuccess) || outcome.value)
      ensures outcome.Failure? ==>
        errors == map[GeneralKey := MessageOr(outcome.error, FallbackMessage)] && isSuccess == old(isSuccess)
    {
      match outcome {
        case Success(success) =>
          if success {
            isSuccess := true;
          }
        case Failure(e) =>
          errors := map[GeneralKey := MessageOr(e, FallbackMessage)];
      }
      isSubmitting := false;
    }
  }
}
