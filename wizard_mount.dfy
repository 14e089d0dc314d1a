/**
 * How frontend/App.tsx actually mounts the wizard: `<MultiStepContainer />`
 * with no `initialStep`. The effect then computes `Math.max(1, undefined)`,
 * which is NaN, and every later comparison with the watermark is false. The
 * watermark is modelled here as a JavaScript number that may be NaN.
 */
module WizardMount {
  import opened Wrappers
  import Wizard
  import Stepper

  datatype JsNumber = Finite(value: int) | NaN

  /** `Number(v)` for a number or `undefined`. */
  function ToNumber(v: Option<int>): JsNumber {
    match v
    case Some(n) => Finite(n)
    case None => NaN
  }

  /** `Math.max`: NaN as soon as one argument is NaN. */
  function JsMax(a: JsNumber, b: JsNumber): (r: JsNumber)
    ensures r.NaN? <==> a.NaN? || b.NaN?
    ensures r.Finite? ==> r.value >= a.value && r.value >= b.value && (r.value == a.value || r.value == b.value)
  {
    if a.NaN? || b.NaN? then NaN else Finite(Wizard.Max(a.value, b.value))
  }

  /** `n <= w`: false whenever `w` is NaN. */
  predicate JsAtMost(n: int, w: JsNumber) {
    w.Finite? && n <= w.value
  }

  /** Index and watermark as the component holds them. */
  datatype MountedWizard = MountedWizard(index: nat, watermark: JsNumber)

  /** The effect of lines 22-27 run on the mounted component's starting values. */
  function MountAsWritten(initialStep: Option<int>): MountedWizard {
    var index := if initialStep.Some? then Wizard.InitialIndex(initialStep.value) else 0;
    MountedWizard(index, JsMax(Finite(1), ToNumber(initialStep)))
  }

  /** `goToNextStep` on a possibly-NaN watermark. */
  function AdvancedAsWritten(s: MountedWizard): MountedWizard
    requires s.index < |Wizard.StepFlow|
  {
    if s.index < Wizard.LastIndex then
      MountedWizard(s.index + 1, JsMax(s.watermark, Finite(Wizard.MainStepOf(s.index + 1))))
    else s
  }

  /** `goToStep` on a possibly-NaN watermark. */
  function JumpedAsWritten(s: MountedWizard, step: int): MountedWizard {
    if JsAtMost(step, s.watermark) && Wizard.GoToStepTarget(step) != -1 then
      Wizard.GoToStepTargetSpec(step);
      s.(index := Wizard.GoToStepTarget(step))
    else s
  }

  /** The stepper's `getStepStatus` and `isClickable` on a possibly-NaN watermark. */
  function StatusAsWritten(n: int, current: int, w: JsNumber): Stepper.Status {
    if n < current then Stepper.Completed
    else if n == current then Stepper.Active
    else if JsAtMost(n, w) then Stepper.Visited
    else Stepper.Inactive
  }

  /** `k` presses of "next" on the component as App mounts it. */
  function AdvanceTimes(s: MountedWizard, k: nat): (t: MountedWizard)
    requires s.index < |Wizard.StepFlow|
    ensures t.index < |Wizard.StepFlow|
    ensures s.watermark.NaN? ==> t.watermark.NaN?
    decreases k
  {
    if k == 0 then s else AdvanceTimes(AdvancedAsWritten(s), k - 1)
  }

  /**
   * Mounted as App mounts it, the watermark is NaN and stays NaN however
   * far the user advances: no step of the stepper can be clicked, every
   * `goToStep` is ignored, and no step ahead ever shows as visited.
   */
  lemma AppMountLocksStepper(k: nat, n: int, current: int)
    ensures MountAsWritten(None).watermark.NaN?
    ensures var t := AdvanceTimes(MountAsWritten(None), k);
      !JsAtMost(n, t.watermark) &&
      JumpedAsWritten(t, n) == t &&
      (n > current ==> StatusAsWritten(n, current, t.watermark) == Stepper.Inactive)
  {
  }

  /** With an initial step given, the as-written mount agrees with the wizard's own state. */
  lemma MountWithStepAgrees(step: int)
    ensures MountAsWritten(Some(step)).watermark == Finite(Wizard.MountedState(Some(step)).watermark)
    ensures MountAsWritten(Some(step)).index == Wizard.MountedState(Some(step)).index
  {
  }
}
