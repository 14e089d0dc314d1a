/**
 * The combined personal-information step component
 * (frontend/components/steps/PersonalDetailsSteps.tsx): one component for
 * the three sub-steps of main step 1, validating by `stepId`. No component
 * of the application mounts it (StepContent renders PersonalDetails,
 * ResidenceAddress and PublicOfficialStatus instead); it is modelled on its own.
 */
module PersonalDetailsSteps {
  import opened Wrappers
  import opened FormValues
  import opened FormRules
  import PersonalDetails

  /** The checks each sub-step runs; 1-2 and every other id check nothing. */
  function RulesFor(stepId: string): seq<Rule> {
    if stepId == "1-0" then PersonalDetails.Rules
    else if stepId == "1-1" then [Rule("agreedToTerms", "agreedToTerms", "You must agree to the terms")]
    else []
  }

  /**
   * 1-0 checks exactly what the stand-alone personal-details form checks;
   * 1-1 requires the terms to be agreed and reports nothing else; 1-2 and
   * every other id always pass.
   */
  lemma ValidateSpec(stepId: string, data: Record)
    ensures var e := RequiredErrors(data, RulesFor(stepId));
      (stepId == "1-0" ==>
        (|e| == 0 <==> Filled(data, "first-name") && Filled(data, "last-name") && Filled(data, "phone")) &&
        e.Keys <= {"first-name", "last-name", "phone"}) &&
      (stepId == "1-1" ==>
        (e == map[] <==> Filled(data, "agreedToTerms")) &&
        (e != map[] ==> e == map["agreedToTerms" := "You must agree to the terms"])) &&
      (stepId != "1-0" && stepId != "1-1" ==> e == map[])
  {
    if stepId == "1-0" {
      PersonalDetails.ValidateSpec(data);
    }
  }

  /** Which of the three sub-step screens is drawn; `None` is `return null`. */
  datatype Section = PersonalDetailsSection | ResidenceSection | PublicOfficialSection

  function Render(stepId: string): (r: Option<Section>)
    ensures r.None? <==> stepId != "1-0" && stepId != "1-1" && stepId != "1-2"
  {
    if stepId == "1-0" then Some(PersonalDetailsSection)
    else if stepId == "1-1" then Some(ResidenceSection)
    else if stepId == "1-2" then Some(PublicOfficialSection)
    else None
  }

  /** `Array.from({ length: 100 }, (_, i) => currentYear - i)`: no 18-year offset here. */
  function Years(currentYear: int): seq<int> {
    seq(100, i => currentYear - i)
  }

  lemma YearsSpec(currentYear: int)
    ensures |Years(currentYear)| == 100 && Years(currentYear)[0] == currentYear
    ensures forall i, j :: 0 <= i < j < 100 ==> Years(currentYear)[i] > Years(currentYear)[j]
  {
  }

  class PersonalDetailsStepsForm {
    const stepId: string
    var localData: Record
    var errors: Errors

    constructor(stepId: string, formData: Record)
      ensures this.stepId == stepId && localData == formData && errors == map[]
    {
      this.stepId := stepId;
      localData := formData;
      errors := map[];
    }

    method SyncFromProps(formData: Record)
      modifies this
      ensures localData == formData && errors == old(errors)
    {
      localData := formData;
    }

    /** `handleInputChange`: returns the record handed to `onSaveData`. */
    method HandleInputChange(name: string, value: Value) returns (saved: Record)
      modifies this
      ensures (localData, errors) == InputChanged(old(localData), old(errors), name, value)
      ensures saved == localData
    {
      var newData := localData + map[name := value];
      localData := newData;
      saved := newData;
      if name in errors && errors[name] != "" {
        errors := errors - {name};
      }
    }

    method ValidateStep() returns (ok: bool)
      modifies this
      ensures localData == old(localData)
      ensures errors == RequiredErrors(localData, RulesFor(stepId))
      ensures ok <==> |errors| == 0
    {
      var newErrors: Errors := map[];
      var rules := RulesFor(stepId);
      assert rules[..0] == [];
      if stepId == "1-0" {
        CheckedPrefix(localData, rules, 0);
        if !Filled(localData, "first-name") { newErrors := newErrors["first-name" := "First name is required"]; }
        CheckedPrefix(localData, rules, 1);
        if !Filled(localData, "last-name") { newErrors := newErrors["last-name" := "Last name is required"]; }
        CheckedPrefix(localData, rules, 2);
        if !Filled(localData, "phone") { newErrors := newErrors["phone" := "Phone number is required"]; }
        assert rules[..3] == rules;
      } else if stepId == "1-1" {
        CheckedPrefix(localData, rules, 0);
        if !Filled(localData, "agreedToTerms") { newErrors := newErrors["agreedToTerms" := "You must agree to the terms"]; }
        assert rules[..1] == rules;
      }
      errors := newErrors;
      ok := |newErrors| == 0;
    }

    /** `handleNext`: `onNext` is called exactly when validation passes. */
    method HandleNext() returns (callsOnNext: bool)
      modifies this
      ensures localData == old(localData) && errors == RequiredErrors(localData, RulesFor(stepId))
      ensures callsOnNext <==> |errors| == 0
    {
      callsOnNext := ValidateStep();
    }
  }
}
