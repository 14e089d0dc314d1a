/**
 * The residence-address screen (frontend/components/steps/ResidenceAddress.tsx).
 * It keeps its own record, starting from fixed defaults, and takes no props:
 * "Next" navigates to the public-official route instead of calling the
 * wizard's `onNext`, and no change is forwarded through `onSaveData`.
 */
module ResidenceAddress {
  import opened Wrappers
  import opened FormValues
  import opened FormRules
  import Wizard

  /** The component's starting record. */
  const InitialData: Record :=
    map["residenceCountry" := Str("Israel"), "notUsCitizen" := Bool(false), "agreedToTerms" := Bool(false)]

  const Rules: seq<Rule> := [Rule("agreedToTerms", "agreedToTerms", "You must agree to the terms")]

  const NextRoute: string := "/en/apply/public-official-status"

  /** The starting record fails validation: the terms are not agreed yet. */
  lemma InitialDataSpec()
    ensures InitialData.Keys == {"residenceCountry", "notUsCitizen", "agreedToTerms"}
    ensures !Filled(InitialData, "agreedToTerms") && !Filled(InitialData, "notUsCitizen")
    ensures InitialData["residenceCountry"] == Str("Israel")
    ensures RequiredErrors(InitialData, Rules) == map["agreedToTerms" := "You must agree to the terms"]
  {
  }

  /** Validation fails exactly when the terms are not agreed, and `agreedToTerms` is the only key it can report. */
  lemma ValidateSpec(data: Record)
    ensures var e := RequiredErrors(data, Rules);
      (e == map[] <==> Filled(data, "agreedToTerms")) &&
      (e != map[] ==> e == map["agreedToTerms" := "You must agree to the terms"])
  {
    assert Rules[..0] == [];
  }

  class ResidenceAddressForm {
    var formData: Record
    var errors: Errors

    constructor()
      ensures formData == InitialData && errors == map[]
    {
      formData := InitialData;
      errors := map[];
    }

    /** `handleInputChange`: one key set, only that key's error cleared. */
    method HandleInputChange(name: string, value: Value)
      modifies this
      ensures (formData, errors) == InputChanged(old(formData), old(errors), name, value)
    {
      formData := formData + map[name := value];
      if name in errors && errors[name] != "" {
        errors := errors - {name};
      }
    }

    method ValidateStep() returns (ok: bool)
      modifies this
      ensures formData == old(formData)
      ensures errors == RequiredErrors(formData, Rules)
      ensures ok <==> |errors| == 0
    {
      var newErrors: Errors := map[];
      if !Filled(formData, "agreedToTerms") {
        newErrors := newErrors["agreedToTerms" := "You must agree to the terms"];
      }
      assert Rules[..0] == [];
      errors := newErrors;
      ok := |newErrors| == 0;
    }

    /** `handleNext` as written: a route to navigate to when valid, and nothing for the wizard. */
    method HandleNext() returns (navigateTo: Option<string>)
      modifies this
      ensures formData == old(formData) && errors == RequiredErrors(formData, Rules)
      ensures navigateTo == (if Filled(formData, "agreedToTerms") then Some(NextRoute) else None)
    {
      var ok := ValidateStep();
      ValidateSpec(formData);
      navigateTo := if ok then Some(NextRoute) else None;
    }
  }

  /**
   * The wizard actions a screen can trigger as written: on 1-1 the screen
   * itself triggers none, so only the stepper's clicks remain.
   */
  predicate AllowedAsWritten(s: Wizard.WizardState, a: Wizard.Action)
    requires Wizard.Valid(s)
  {
    Wizard.StepFlow[s.index] != "1-1" || a.GoTo?
  }

  ghost predicate RunAsWritten(s: Wizard.WizardState, actions: seq<Wizard.Action>)
    requires Wizard.Valid(s)
    decreases |actions|
  {
    actions == [] ||
    (AllowedAsWritten(s, actions[0]) &&
     (Wizard.ApplyKeepsValid(s, actions[0]);
      RunAsWritten(Wizard.Apply(s, actions[0]), actions[1..])))
  }

  /** One action allowed as written keeps a wizard that never got past 1-1 on 1-0 or 1-1. */
  lemma StepAsWritten(s: Wizard.WizardState, a: Wizard.Action)
    requires Wizard.Valid(s) && s.index <= 1 && s.watermark == 1
    requires AllowedAsWritten(s, a)
    ensures Wizard.Apply(s, a).index <= 1 && Wizard.Apply(s, a).watermark == 1
  {
    Wizard.FlowIdShape();
    Wizard.MainStepRanges(1);
    match a
    case SaveData(d) =>
    case Next =>
      assert s.index == 0;
    case GoTo(n) =>
      Wizard.JumpedSpec(s, n);
  }

  /**
   * The wizard cannot get past the residence-address screen: started on 1-0
   * or 1-1 with the watermark at 1, any run of the actions the screens
   * trigger as written stays on 1-0 or 1-1, and the stepper never unlocks
   * main step 2.
   */
  lemma {:induction false} StuckAtResidence(s: Wizard.WizardState, actions: seq<Wizard.Action>)
    requires Wizard.Valid(s) && s.index <= 1 && s.watermark == 1
    requires RunAsWritten(s, actions)
    ensures Wizard.Run(s, actions).index <= 1 && Wizard.Run(s, actions).watermark == 1
    ensures Wizard.StepFlow[Wizard.Run(s, actions).index] in {"1-0", "1-1"}
    decreases |actions|
  {
    Wizard.FlowIdShape();
    if actions != [] {
      StepAsWritten(s, actions[0]);
      Wizard.ApplyKeepsValid(s, actions[0]);
      StuckAtResidence(Wizard.Apply(s, actions[0]), actions[1..]);
    }
  }

  /** The intended `handleNext`: the wizard's `onNext` is called exactly when the terms are agreed. */
  function IntendedNext(data: Record): (callsOnNext: bool)
    ensures callsOnNext <==> RequiredErrors(data, Rules) == map[]
  {
    ValidateSpec(data);
    Filled(data, "agreedToTerms")
  }

  /** With the intended `handleNext`, agreeing to the terms on 1-1 moves the wizard on to 1-2 and unlocks nothing further. */
  lemma IntendedNextAdvances(s: Wizard.WizardState, data: Record)
    requires Wizard.Valid(s) && Wizard.StepFlow[s.index] == "1-1"
    requires Filled(data, "agreedToTerms")
    ensures IntendedNext(data)
    ensures Wizard.StepFlow[Wizard.Advanced(s).index] == "1-2"
    ensures Wizard.Advanced(s).watermark == s.watermark
  {
    Wizard.FlowIdShape();
    Wizard.AdvancedSpec(s);
    Wizard.MainStepRanges(2);
    assert s.index == 1;
  }
}
