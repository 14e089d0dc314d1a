/**
 * The progress header (frontend/components/Stepper.tsx): the four main
 * steps, the status of each against the current main step and the
 * watermark, and which of them a click may jump to.
 */
module Stepper {
  import opened Wrappers

  datatype Status = Completed | Active | Visited | Inactive

  datatype MainStep = MainStep(number: int, name: string)

  const Steps: seq<MainStep> := [
    MainStep(1, "Personal details"),
    MainStep(2, "Financial information"),
    MainStep(3, "Knowledge and experience"),
    MainStep(4, "Verification")
  ]

  /** `getStepStatus`. */
  function StepStatus(n: int, currentMainStep: int, highestMainStepReached: int): Status {
    if n < currentMainStep then Completed
    else if n == currentMainStep then Active
    else if n <= highestMainStepReached then Visited
    else Inactive
  }

  /** `isClickable`. */
  predicate IsClickable(n: int, highestMainStepReached: int) {
    n <= highestMainStepReached
  }

  /** `() => isClickable && onStepClick(step.number)`: the step handed to `onStepClick`, if any. */
  function Click(n: int, highestMainStepReached: int): (r: Option<int>)
    ensures r.Some? <==> IsClickable(n, highestMainStepReached)
    ensures r.Some? ==> r.value == n
  {
    if IsClickable(n, highestMainStepReached) then Some(n) else None
  }

  /** There are four steps, numbered 1 to 4 in order. */
  lemma StepsNumbered()
    ensures |Steps| == 4
    ensures forall i :: 0 <= i < |Steps| ==> Steps[i].number == i + 1
  {
  }

  /** Each status in terms of the two inputs. */
  lemma StatusCharacterized(n: int, current: int, highest: int)
    ensures StepStatus(n, current, highest) == Completed <==> n < current
    ensures StepStatus(n, current, highest) == Active <==> n == current
    ensures StepStatus(n, current, highest) == Visited <==> current < n <= highest
    ensures StepStatus(n, current, highest) == Inactive <==> n > current && n > highest
  {
  }

  /** The steps before the current one are completed, whatever the watermark. */
  lemma EarlierStepsCompleted(n: int, current: int, h1: int, h2: int)
    requires n < current
    ensures StepStatus(n, current, h1) == StepStatus(n, current, h2) == Completed
  {
  }

  /** The number of the steps that are active. */
  function ActiveCount(steps: seq<MainStep>, current: int, highest: int): (c: nat)
    ensures c <= |steps|
    ensures c == 0 <==> forall i :: 0 <= i < |steps| ==> StepStatus(steps[i].number, current, highest) != Active
  {
    if steps == [] then 0
    else
      var here := if StepStatus(steps[0].number, current, highest) == Active then 1 else 0;
      here + ActiveCount(steps[1..], current, highest)
  }

  /** With the current main step in 1..4, exactly one of the four steps is active, and it is the current one. */
  lemma ExactlyOneActive(current: int, highest: int)
    requires 1 <= current <= 4
    ensures ActiveCount(Steps, current, highest) == 1
    ensures forall i :: 0 <= i < |Steps| ==> (StepStatus(Steps[i].number, current, highest) == Active <==> i == current - 1)
  {
    var s1, s2, s3 := Steps[1..], Steps[2..], Steps[3..];
    assert s1[1..] == s2 && s2[1..] == s3 && s3[1..] == [];
    assert ActiveCount(s3, current, highest) == if current == 4 then 1 else 0;
    assert ActiveCount(s2, current, highest) == if current >= 3 then 1 else 0;
    assert ActiveCount(s1, current, highest) == if current >= 2 then 1 else 0;
  }
}
