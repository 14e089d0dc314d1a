/**
 * What the multiple-choice steps share (frontend/components/steps/FinancialSteps.tsx
 * and KnowledgeSteps.tsx): a table from step id to a question with one
 * field and its answer options, and a click handler that saves the chosen
 * answer under the field and schedules the move to the next step.
 *
 * No component of the application mounts FinancialSteps or KnowledgeSteps
 * (StepContent renders the single-question components instead), so these
 * tables are modelled as components on their own.
 */
module ChoiceSteps {
  import opened Wrappers
  import opened FormValues
  import Wizard

  datatype ChoiceOption = ChoiceOption(value: string, caption: string)

  datatype StepConfig = StepConfig(title: string, fieldName: string, options: seq<ChoiceOption>)

  /** What one click does: the record passed to `onSaveData` and how many `onNext` calls it schedules. */
  datatype ClickEffect = ClickEffect(saved: Record, scheduledNexts: nat)

  /** What the component renders: the question, or the "Step not found" message. */
  datatype Screen = Question(config: StepConfig) | NotFound

  /** `handleOptionClick(value, fieldName)`: `onSaveData({ [fieldName]: value })`, then `setTimeout(onNext, 200)`. */
  function HandleOptionClick(value: string, fieldName: string): (e: ClickEffect)
    ensures e.saved.Keys == {fieldName} && e.saved[fieldName] == Str(value)
    ensures e.scheduledNexts == 1
  {
    ClickEffect(map[fieldName := Str(value)], 1)
  }

  /** The button for option i of a question. */
  function ClickOption(c: StepConfig, i: nat): ClickEffect
    requires i < |c.options|
  {
    HandleOptionClick(c.options[i].value, c.fieldName)
  }

  /** `if (!config) return <div>Step not found</div>`. */
  function Show(config: Option<StepConfig>): (s: Screen)
    ensures s.NotFound? <==> config.None?
  {
    match config
    case Some(c) => Question(c)
    case None => NotFound
  }

  predicate DistinctValues(options: seq<ChoiceOption>) {
    forall i, j :: 0 <= i < j < |options| ==> options[i].value != options[j].value
  }

  /**
   * A click whose record a parent merges with the wizard's `saveStepData`
   * (were the component mounted as `onSaveData`) sets the step's field to the
   * chosen value and leaves every other field and the wizard's position as
   * they were.
   */
  lemma ClickThenSave(s: Wizard.WizardState, value: string, fieldName: string)
    ensures var t := Wizard.Saved(s, HandleOptionClick(value, fieldName).saved);
      fieldName in t.formData && t.formData[fieldName] == Str(value) &&
      (forall k :: k != fieldName ==> (k in t.formData <==> k in s.formData)) &&
      (forall k :: k != fieldName && k in s.formData ==> t.formData[k] == s.formData[k]) &&
      t.index == s.index && t.watermark == s.watermark
  {
  }

  /** Different options of a question with distinct values save different records. */
  lemma DistinctOptionsSaveDistinctly(c: StepConfig, i: nat, j: nat)
    requires DistinctValues(c.options)
    requires i < j < |c.options|
    ensures ClickOption(c, i).saved != ClickOption(c, j).saved
  {
    assert ClickOption(c, i).saved[c.fieldName] != ClickOption(c, j).saved[c.fieldName];
  }
}
