/** The question table of the financial-information steps (frontend/components/steps/FinancialSteps.tsx). */
module FinancialSteps {
  import opened Wrappers
  import opened Text
  import opened ChoiceSteps
  import Wizard

  const Configs: map<string, StepConfig> := map[
    "2-0" := StepConfig("What is your current employment status?", "employmentStatus", [
      ChoiceOption("employed", "Employed"),
      ChoiceOption("self-employed", "Self-employed"),
      ChoiceOption("retired", "Retired"),
      ChoiceOption("unemployed", "Unemployed"),
      ChoiceOption("student", "Student")]),
    "2-1" := StepConfig("What industry do you work in?", "industry", [
      ChoiceOption("accountancy", "Accountancy"),
      ChoiceOption("airline", "Airline Services"),
      ChoiceOption("armed", "Armed Services")]),
    "2-2" := StepConfig("What is your estimated annual income?", "annualIncome", [
      ChoiceOption("<10k", "Less than USD 10,000"),
      ChoiceOption("10k-100k", "USD 10,000 - 100,000")]),
    "2-3" := StepConfig("How much do you have available to invest...", "availableToInvest", [
      ChoiceOption("<10k", "Less than USD 10,000")]),
    "2-4" := StepConfig("How much do you plan to invest in the next 12 months?", "planToInvest", [
      ChoiceOption("<10k", "Less than USD 10,000")]),
    "2-5" := StepConfig("What is the source of your investment funds?", "investmentSource", [
      ChoiceOption("savings", "Savings"),
      ChoiceOption("salary", "Salary")])
  ]

  function Lookup(stepId: string): Option<StepConfig> {
    if stepId in Configs then Some(Configs[stepId]) else None
  }

  function Render(stepId: string): Screen {
    Show(Lookup(stepId))
  }

  /** The field each step asks for, in flow order. */
  const FieldNames: seq<string> :=
    ["employmentStatus", "industry", "annualIncome", "availableToInvest", "planToInvest", "investmentSource"]

  /**
   * There is a question for exactly the six ids of main step 2, the one at
   * flow index 3 + i asks for `FieldNames[i]`, and every other id renders
   * "Step not found".
   */
  lemma ConfigsCoverMainStep2(stepId: string)
    ensures Render(stepId).Question? <==> stepId in Wizard.StepFlow && StartsWith(stepId, "2-")
    ensures forall i :: 0 <= i < 6 ==>
      Lookup(Wizard.StepFlow[3 + i]) == Some(Configs[Wizard.StepFlow[3 + i]]) &&
      Configs[Wizard.StepFlow[3 + i]].fieldName == FieldNames[i]
  {
    if stepId in Wizard.StepFlow {
      var i :| 0 <= i < |Wizard.StepFlow| && Wizard.StepFlow[i] == stepId;
      Wizard.PrefixMeansMainStep(i, 2);
      Wizard.MainStepRanges(i);
      assert Wizard.MainPrefix(2) == "2-";
    }
  }

  /** No two steps write the same field. */
  lemma FieldNamesDistinct(a: string, b: string)
    requires a in Configs && b in Configs && a != b
    ensures Configs[a].fieldName != Configs[b].fieldName
  {
  }

  /** Within each step the option values are distinct, and there is at least one option. */
  lemma OptionValuesDistinct(stepId: string)
    requires stepId in Configs
    ensures DistinctValues(Configs[stepId].options) && |Configs[stepId].options| >= 1
  {
  }

  /** Each button saves one key, the step's field, set to that option's value, and schedules one `onNext`. */
  lemma ClickSavesOneKey(stepId: string, i: nat)
    requires stepId in Configs && i < |Configs[stepId].options|
    ensures var e := ClickOption(Configs[stepId], i);
      e.saved.Keys == {Configs[stepId].fieldName} &&
      e.saved[Configs[stepId].fieldName] == FormValues.Str(Configs[stepId].options[i].value) &&
      e.scheduledNexts == 1
  {
  }
}
