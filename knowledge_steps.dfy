/** The question table of the knowledge-and-experience steps (frontend/components/steps/KnowledgeSteps.tsx). */
module KnowledgeSteps {
  import opened Wrappers
  import opened Text
  import opened ChoiceSteps
  import Wizard

  const Configs: map<string, StepConfig> := map[
    "3-0" := StepConfig("Do you have professional or academic experience...", "professionalExperience", [
      ChoiceOption("over-3-years", "Over 3 years of directly relevant experience"),
      ChoiceOption("under-3-years", "Under 3 years of directly relevant experience"),
      ChoiceOption("none", "No, none")]),
    "3-1" := StepConfig("What is your acceptable risk tolerance when trading?", "riskTolerance", [
      ChoiceOption("small", "Small losses"),
      ChoiceOption("moderate", "Moderate losses")]),
    "3-2" := StepConfig("What is your trading objective?", "tradingObjective", [
      ChoiceOption("short-term", "Short term investments"),
      ChoiceOption("long-term", "Long term investments")])
  ]

  function Lookup(stepId: string): Option<StepConfig> {
    if stepId in Configs then Some(Configs[stepId]) else None
  }

  function Render(stepId: string): Screen {
    Show(Lookup(stepId))
  }

  const FieldNames: seq<string> := ["professionalExperience", "riskTolerance", "tradingObjective"]

  /**
   * There is a question for exactly the three ids of main step 3, the one at
   * flow index 9 + i asks for `FieldNames[i]`, and every other id renders
   * "Step not found".
   */
  lemma ConfigsCoverMainStep3(stepId: string)
    ensures Render(stepId).Question? <==> stepId in Wizard.StepFlow && StartsWith(stepId, "3-")
    ensures forall i :: 0 <= i < 3 ==> Configs[Wizard.StepFlow[9 + i]].fieldName == FieldNames[i]
  {
    if stepId in Wizard.StepFlow {
      var i :| 0 <= i < |Wizard.StepFlow| && Wizard.StepFlow[i] == stepId;
      Wizard.PrefixMeansMainStep(i, 3);
      Wizard.MainStepRanges(i);
      assert Wizard.MainPrefix(3) == "3-";
    }
  }

  /** No two steps write the same field. */
  lemma FieldNamesDistinct(a: string, b: string)
    requires a in Configs && b in Configs && a != b
    ensures Configs[a].fieldName != Configs[b].fieldName
  {
  }

  /** Within each step the option values are distinct, and there is at least one option. */
  lemma OptionValuesDistinct(stepId: string)
    requires stepId in Configs
    ensures DistinctValues(Configs[stepId].options) && |Configs[stepId].options| >= 1
  {
  }

  /** Each button saves one key, the step's field, set to that option's value, and schedules one `onNext`. */
  lemma ClickSavesOneKey(stepId: string, i: nat)
    requires stepId in Configs && i < |Configs[stepId].options|
    ensures var e := ClickOption(Configs[stepId], i);
      e.saved.Keys == {Configs[stepId].fieldName} &&
      e.saved[Configs[stepId].fieldName] == FormValues.Str(Configs[stepId].options[i].value) &&
      e.scheduledNexts == 1
  {
  }
}
