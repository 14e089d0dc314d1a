/**
 * The onboarding wizard (frontend/components/MultiStepContainer.tsx): a
 * fixed flow of thirteen sub-step ids, the index of the one on screen, the
 * highest main step the user has reached (the watermark that unlocks the
 * stepper), and the form data collected so far.
 *
 * The pure functions below give each handler's effect on the state value;
 * the class holds the state in fields and its methods are proved to make
 * exactly those changes.
 */
module Wizard {
  import opened Wrappers
  import opened Text
  import opened FormValues
  import Stepper

  const StepFlow: seq<string> :=
    ["1-0", "1-1", "1-2", "2-0", "2-1", "2-2", "2-3", "2-4", "2-5", "3-0", "3-1", "3-2", "4-0"]

  /** Sub-steps per main step, keyed by the main step's number as text. */
  const SubstepsPerStep: map<string, nat> := map["1" := 3, "2" := 6, "3" := 3, "4" := 1]

  /** Main step number to the flow index where it starts (entry 0 unused). */
  const StepMap: seq<nat> := [0, 0, 3, 9, 12]

  const LastIndex: nat := 12

  /** `ids.findIndex(s => s.startsWith(p))`, with -1 when no id matches. */
  function FindPrefix(ids: seq<string>, p: string): (r: int)
    ensures -1 <= r < |ids|
    ensures r >= 0 ==> StartsWith(ids[r], p) && forall j :: 0 <= j < r ==> !StartsWith(ids[j], p)
    ensures r == -1 ==> forall j :: 0 <= j < |ids| ==> !StartsWith(ids[j], p)
  {
    if ids == [] then -1
    else if StartsWith(ids[0], p) then 0
    else
      var k := FindPrefix(ids[1..], p);
      if k == -1 then -1 else k + 1
  }

  /** How many ids start with `p`. */
  function CountPrefix(ids: seq<string>, p: string): (c: nat)
    ensures c <= |ids|
  {
    if ids == [] then 0
    else
      var here := if StartsWith(ids[0], p) then 1 else 0;
      here + CountPrefix(ids[1..], p)
  }

  /** `"<k>-"`: the prefix of the ids of main step k, as `step + '-'` builds it. */
  function MainPrefix(step: int): string {
    IntToDecimal(step) + "-"
  }

  /** Every id of the flow is a main-step digit 1-4, a dash, and a sub-step digit. */
  lemma FlowIdShape()
    ensures |StepFlow| == 13
    ensures forall i :: 0 <= i < |StepFlow| ==>
      |StepFlow[i]| == 3 && '1' <= StepFlow[i][0] <= '4' && StepFlow[i][1] == '-' && '0' <= StepFlow[i][2] <= '9'
  {
  }

  /** `parseInt(id.split('-')[0])` for an id of the flow: its one-digit main step. */
  function MainStepOf(i: nat): (m: int)
    requires i < |StepFlow|
    ensures 1 <= m <= 4
  {
    FlowIdShape();
    StepFlow[i][0] as int - '0' as int
  }

  /** `Number(id.split('-')[1])`: the sub-step digit. */
  function SubStepOf(i: nat): (m: int)
    requires i < |StepFlow|
    ensures 0 <= m <= 9
  {
    FlowIdShape();
    StepFlow[i][2] as int - '0' as int
  }

  /** A digit, a dash and one more character split at the dash into the digit. */
  lemma DigitDashPieces(id: string)
    requires |id| == 3 && '0' <= id[0] <= '9' && id[1] == '-' && id[2] != '-'
    ensures Split(id, '-')[0] == [id[0]]
    ensures id == IntToDecimal(id[0] as int - '0' as int) + "-" + [id[2]]
  {
    assert id == [id[0]] + ['-'] + [id[2]];
    SplitHead([id[0]], '-', [id[2]]);
  }

  /** The main step read by `split('-')[0]` is the id's first character. */
  lemma MainStepIsFirstPiece(i: nat)
    requires i < |StepFlow|
    ensures Split(StepFlow[i], '-')[0] == [StepFlow[i][0]]
    ensures StepFlow[i] == IntToDecimal(MainStepOf(i)) + "-" + [StepFlow[i][2]]
  {
    FlowIdShape();
    DigitDashPieces(StepFlow[i]);
  }

  /** Which main step each index belongs to: indices 0-2, 3-8, 9-11 and 12. */
  lemma MainStepRanges(i: nat)
    requires i < |StepFlow|
    ensures MainStepOf(i) == if i < 3 then 1 else if i < 9 then 2 else if i < 12 then 3 else 4
    ensures SubStepOf(i) == i - StepMap[MainStepOf(i)]
  {
  }

  /** The ids of main step k (1-4) are exactly those starting with `"<k>-"`. */
  lemma PrefixMeansMainStep(i: nat, k: int)
    requires i < |StepFlow| && 1 <= k <= 4
    ensures StartsWith(StepFlow[i], MainPrefix(k)) <==> MainStepOf(i) == k
  {
    FlowIdShape();
    MainStepIsFirstPiece(i);
    assert MainPrefix(k) == [DigitChar(k), '-'];
  }

  /** One past the last index of main step k. */
  function BlockEnd(k: int): (e: nat)
    requires 1 <= k <= 4
    ensures StepMap[k] < e <= |StepFlow|
  {
    if k == 4 then |StepFlow| else StepMap[k + 1]
  }

  /** Index i holds an id of main step k exactly when it lies in k's block. */
  lemma InBlock(i: nat, k: int)
    requires i < |StepFlow| && 1 <= k <= 4
    ensures StartsWith(StepFlow[i], MainPrefix(k)) <==> StepMap[k] <= i < BlockEnd(k)
  {
    PrefixMeansMainStep(i, k);
    MainStepRanges(i);
  }

  /** When the ids starting with `p` are exactly those at lo..hi-1, the count from j on is that block's part at or after j. */
  lemma {:induction false} CountBlock(ids: seq<string>, p: string, lo: nat, hi: nat, j: nat)
    requires lo <= hi <= |ids| && j <= |ids|
    requires forall i :: 0 <= i < |ids| ==> (StartsWith(ids[i], p) <==> lo <= i < hi)
    ensures CountPrefix(ids[j..], p) == if j >= hi then 0 else hi - (if j < lo then lo else j)
    decreases |ids| - j
  {
    if j < |ids| {
      CountBlock(ids, p, lo, hi, j + 1);
      assert ids[j..][1..] == ids[j + 1..];
      assert ids[j..][0] == ids[j];
    } else {
      assert ids[j..] == [];
    }
  }

  /** The ids of main step k among those from index j on: the part of its block at or after j. */
  lemma CountSuffix(k: int, j: nat)
    requires 1 <= k <= 4 && j <= |StepFlow|
    ensures CountPrefix(StepFlow[j..], MainPrefix(k)) ==
      if j >= BlockEnd(k) then 0 else BlockEnd(k) - (if j < StepMap[k] then StepMap[k] else j)
  {
    forall i | 0 <= i < |StepFlow|
      ensures StartsWith(StepFlow[i], MainPrefix(k)) <==> StepMap[k] <= i < BlockEnd(k)
    {
      InBlock(i, k);
    }
    CountBlock(StepFlow, MainPrefix(k), StepMap[k], BlockEnd(k), j);
  }

  /** `substepsPerStep[k]` is the number of ids of main step k in the flow. */
  lemma SubstepsMatchFlow(k: int)
    requires 1 <= k <= 4
    ensures IntToDecimal(k) in SubstepsPerStep
    ensures SubstepsPerStep[IntToDecimal(k)] == CountPrefix(StepFlow, MainPrefix(k))
  {
    CountSuffix(k, 0);
    assert StepFlow[0..] == StepFlow;
  }

  /** `stepMap[k]` is the index of the first sub-step `"<k>-0"` of main step k. */
  lemma StepMapIsFirstSubstep(k: int)
    requires 1 <= k <= 4
    ensures FindPrefix(StepFlow, MainPrefix(k)) == StepMap[k]
    ensures StepFlow[StepMap[k]] == MainPrefix(k) + "0"
  {
    PrefixMeansMainStep(StepMap[k], k);
    MainStepRanges(StepMap[k]);
    forall j | 0 <= j < StepMap[k] ensures !StartsWith(StepFlow[j], MainPrefix(k)) {
      PrefixMeansMainStep(j, k);
      MainStepRanges(j);
    }
    assert MainPrefix(k) == [DigitChar(k), '-'];
  }

  /** `stepMap[step] || stepFlow.findIndex(s => s.startsWith(step + '-'))`; -1 when nothing matches. */
  function GoToStepTarget(step: int): int {
    if 0 <= step < |StepMap| && StepMap[step] != 0 then StepMap[step]
    else FindPrefix(StepFlow, MainPrefix(step))
  }

  /** No id of the flow starts with `"<step>-"` for a step outside 1..4. */
  lemma NoIdsOutsideMainSteps(step: int, i: nat)
    requires !(1 <= step <= 4) && i < |StepFlow|
    ensures !StartsWith(StepFlow[i], MainPrefix(step))
  {
    FlowIdShape();
    var p := MainPrefix(step);
    if step < 0 {
      assert p[0] == '-';
    } else if step < 10 {
      assert p == [DigitChar(step), '-'];
    } else {
      assert '0' <= p[1] <= '9';
    }
  }

  /**
   * The jump target is the first sub-step of main step `step` for 1..4 and
   * -1 (no jump) for every other number.
   */
  lemma GoToStepTargetSpec(step: int)
    ensures 1 <= step <= 4 ==>
      GoToStepTarget(step) == StepMap[step] && StepFlow[GoToStepTarget(step)] == MainPrefix(step) + "0"
    ensures !(1 <= step <= 4) ==> GoToStepTarget(step) == -1
  {
    if 1 <= step <= 4 {
      StepMapIsFirstSubstep(step);
    } else {
      forall i | 0 <= i < |StepFlow| ensures !StartsWith(StepFlow[i], MainPrefix(step)) {
        NoIdsOutsideMainSteps(step, i);
      }
    }
  }

  /** A backend save: which onboarding endpoint receives the data. */
  datatype SaveCall = SaveStep1(data: Record) | SaveStep2(data: Record) | SaveStep3(data: Record)

  /** `saveCurrentStepToBackend`: nothing without a stored jwt, otherwise by the id's main-step prefix. */
  function SaveRoute(stepId: string, hasJwt: bool, data: Record): Option<SaveCall> {
    if !hasJwt then None
    else if StartsWith(stepId, "1-") then Some(SaveStep1(data))
    else if StartsWith(stepId, "2-") then Some(SaveStep2(data))
    else if StartsWith(stepId, "3-") then Some(SaveStep3(data))
    else None
  }

  /**
   * Every id of main steps 1-3 is saved to its own endpoint with the data
   * given, verification (4-0) sends nothing, and nothing is sent without a jwt.
   */
  lemma SaveRouting(i: nat, hasJwt: bool, data: Record)
    requires i < |StepFlow|
    ensures var r := SaveRoute(StepFlow[i], hasJwt, data);
      (r.Some? <==> hasJwt && MainStepOf(i) <= 3) &&
      (r.Some? ==> r.value.data == data) &&
      (r.Some? && MainStepOf(i) == 1 ==> r.value.SaveStep1?) &&
      (r.Some? && MainStepOf(i) == 2 ==> r.value.SaveStep2?) &&
      (r.Some? && MainStepOf(i) == 3 ==> r.value.SaveStep3?)
  {
    FlowIdShape();
    var id := StepFlow[i];
    assert StartsWith(id, "1-") <==> id[0] == '1';
    assert StartsWith(id, "2-") <==> id[0] == '2';
    assert StartsWith(id, "3-") <==> id[0] == '3';
  }

  /** The wizard's three pieces of state, as values. */
  datatype WizardState = WizardState(formData: Record, index: nat, watermark: int)

  /** The index is in the flow, the watermark is at least 1 and covers the main step on screen. */
  predicate Valid(s: WizardState) {
    s.index < |StepFlow| && s.watermark >= 1 && MainStepOf(s.index) <= s.watermark
  }

  function Max(a: int, b: int): (m: int)
    ensures m >= a && m >= b && (m == a || m == b)
  {
    if a >= b then a else b
  }

  /** The state on mount: no data, the first sub-step, watermark 1. */
  function InitialState(): (s: WizardState)
    ensures Valid(s)
  {
    WizardState(map[], 0, 1)
  }

  /** `stepMap[initialStep] || 0`. */
  function InitialIndex(initialStep: int): nat {
    if 0 <= initialStep < |StepMap| then StepMap[initialStep] else 0
  }

  /** The effect on `initialStep`: jump to that main step and set the watermark to `max(1, initialStep)`. */
  function Initialized(s: WizardState, initialStep: int): WizardState {
    s.(index := InitialIndex(initialStep), watermark := Max(1, initialStep))
  }

  /** `saveStepData`. */
  function Saved(s: WizardState, data: Record): WizardState {
    s.(formData := Merge(s.formData, data))
  }

  /** The state change of `goToNextStep` (the save before it does not touch the state). */
  function Advanced(s: WizardState): WizardState
    requires s.index < |StepFlow|
  {
    if s.index < LastIndex then
      s.(index := s.index + 1, watermark := Max(s.watermark, MainStepOf(s.index + 1)))
    else s
  }

  /** `goToStep`. */
  function Jumped(s: WizardState, step: int): WizardState {
    if step <= s.watermark && GoToStepTarget(step) != -1 then
      GoToStepTargetSpec(step);
      s.(index := GoToStepTarget(step))
    else s
  }

  /**
   * An initial step 1-4 opens on its first sub-step with the watermark at
   * that step; any other value opens on the first sub-step, with the
   * watermark at `max(1, initialStep)`, not capped at 4. The result is a
   * valid state whatever came before.
   */
  lemma InitializedSpec(s: WizardState, initialStep: int)
    ensures var t := Initialized(s, initialStep);
      Valid(t) && t.formData == s.formData && t.watermark == Max(1, initialStep) &&
      (1 <= initialStep <= 4 ==> StepFlow[t.index] == MainPrefix(initialStep) + "0") &&
      (!(1 <= initialStep <= 4) ==> t.index == 0)
  {
    if 1 <= initialStep <= 4 {
      StepMapIsFirstSubstep(initialStep);
      MainStepRanges(StepMap[initialStep]);
    }
  }

  /**
   * `goToNextStep` moves one sub-step forward, except on the last one where it
   * stays; the watermark becomes the larger of itself and the new main step.
   * Valid states stay valid and the watermark never goes down.
   */
  lemma AdvancedSpec(s: WizardState)
    requires Valid(s)
    ensures var t := Advanced(s);
      Valid(t) && t.formData == s.formData && t.watermark >= s.watermark &&
      t.index == (if s.index < LastIndex then s.index + 1 else s.index) &&
      t.watermark == (if s.index < LastIndex then Max(s.watermark, MainStepOf(t.index)) else s.watermark)
  {
  }

  /**
   * `goToStep(n)` does nothing above the watermark or outside 1..4; otherwise
   * it lands on the first sub-step of main step n. It never changes the
   * watermark or the data, and keeps the state valid.
   */
  lemma JumpedSpec(s: WizardState, step: int)
    requires Valid(s)
    ensures var t := Jumped(s, step);
      Valid(t) && t.formData == s.formData && t.watermark == s.watermark &&
      (step > s.watermark || !(1 <= step <= 4) ==> t == s) &&
      (step <= s.watermark && 1 <= step <= 4 ==> t.index == StepMap[step] && StepFlow[t.index] == MainPrefix(step) + "0")
  {
    GoToStepTargetSpec(step);
    if step <= s.watermark && 1 <= step <= 4 {
      MainStepRanges(StepMap[step]);
    }
  }

  /** `saveStepData` changes only the data, keeping it valid. */
  lemma SavedSpec(s: WizardState, data: Record)
    requires Valid(s)
    ensures var t := Saved(s, data); Valid(t) && t.index == s.index && t.watermark == s.watermark
  {
  }

  /** What the user can do once the wizard is mounted. */
  datatype Action = SaveData(data: Record) | Next | GoTo(step: int)

  function Apply(s: WizardState, a: Action): WizardState
    requires Valid(s)
  {
    match a
    case SaveData(d) => Saved(s, d)
    case Next => Advanced(s)
    case GoTo(n) => Jumped(s, n)
  }

  function Run(s: WizardState, actions: seq<Action>): WizardState
    requires Valid(s)
    decreases |actions|
  {
    if actions == [] then s
    else
      ApplyKeepsValid(s, actions[0]);
      Run(Apply(s, actions[0]), actions[1..])
  }

  lemma ApplyKeepsValid(s: WizardState, a: Action)
    requires Valid(s)
    ensures Valid(Apply(s, a)) && Apply(s, a).watermark >= s.watermark
  {
    match a
    case SaveData(d) => SavedSpec(s, d);
    case Next => AdvancedSpec(s);
    case GoTo(n) => JumpedSpec(s, n);
  }

  /**
   * Any sequence of saves, advances and jumps keeps the index in the flow and
   * the watermark over the main step on screen, and never lowers the watermark.
   */
  lemma {:induction false} RunKeepsValid(s: WizardState, actions: seq<Action>)
    requires Valid(s)
    ensures Valid(Run(s, actions)) && Run(s, actions).watermark >= s.watermark
    decreases |actions|
  {
    if actions != [] {
      ApplyKeepsValid(s, actions[0]);
      RunKeepsValid(Apply(s, actions[0]), actions[1..]);
    }
  }

  /** `n` advances from the mounted state. */
  function Advances(n: nat): seq<Action>
    ensures |Advances(n)| == n
    ensures forall i :: 0 <= i < n ==> Advances(n)[i] == Next
  {
    if n == 0 then [] else [Next] + Advances(n - 1)
  }

  /** n presses of "next" from the start land on index n of the flow, with the watermark at its main step. */
  lemma {:induction false} AdvancesFromStart(s: WizardState, n: nat)
    requires Valid(s) && s.index == 0 && s.watermark == 1
    requires n <= LastIndex
    ensures Run(s, Advances(n)).index == n && Run(s, Advances(n)).watermark == MainStepOf(n)
    ensures Run(s, Advances(n)).formData == s.formData
    decreases n
  {
    if n > 0 {
      var t := Advanced(s);
      assert Advances(n)[1..] == Advances(n - 1);
      MainStepRanges(0);
      MainStepRanges(1);
      AdvancesFrom(t, n - 1, 1);
    }
  }

  /** From index j with the watermark at j's main step, k advances reach index j + k. */
  lemma {:induction false} AdvancesFrom(s: WizardState, k: nat, j: nat)
    requires Valid(s) && s.index == j && s.watermark == MainStepOf(j)
    requires j + k <= LastIndex
    ensures Run(s, Advances(k)).index == j + k && Run(s, Advances(k)).watermark == MainStepOf(j + k)
    ensures Run(s, Advances(k)).formData == s.formData
    decreases k
  {
    if k > 0 {
      assert Advances(k)[1..] == Advances(k - 1);
      MainStepRanges(j);
      MainStepRanges(j + 1);
      AdvancesFrom(Advanced(s), k - 1, j + 1);
    }
  }

  /**
   * The stepper agrees with the wizard: the main step on screen is its active
   * step and every step up to it can be clicked, and a click that gets through
   * the stepper's guard on a step 1-4 lands on that step's first sub-step.
   */
  lemma StepperAgrees(s: WizardState, n: int)
    requires Valid(s)
    ensures Stepper.StepStatus(MainStepOf(s.index), MainStepOf(s.index), s.watermark) == Stepper.Active
    ensures 1 <= n <= MainStepOf(s.index) ==> Stepper.IsClickable(n, s.watermark)
    ensures Stepper.Click(n, s.watermark).Some? && 1 <= n <= 4 ==> Jumped(s, n).index == StepMap[n]
    ensures Stepper.Click(n, s.watermark).None? ==> Jumped(s, n) == s
  {
    JumpedSpec(s, n);
  }

  /**
   * The corrected mount with an optional `initialStep`: a missing one is
   * read as main step 1 (the component's own starting values). As written a
   * missing one gives a NaN watermark, see `WizardMount.MountAsWritten`.
   */
  function MountedState(initialStep: Option<int>): (s: WizardState)
    ensures Valid(s)
    ensures initialStep.None? ==> s == InitialState()
  {
    InitializedSpec(InitialState(), initialStep.GetOr(1));
    Initialized(InitialState(), initialStep.GetOr(1))
  }

  /**
   * Mounted without an initial step, the wizard stays navigable: after k
   * advances, every main step up to the one on screen is clickable and a
   * click on it goes back to its first sub-step.
   */
  lemma MountedStateNavigable(k: nat, n: int)
    requires k <= LastIndex
    requires 1 <= n <= MainStepOf(k)
    ensures var t := Run(MountedState(None), Advances(k));
      Stepper.IsClickable(n, t.watermark) && Jumped(t, n).index == StepMap[n]
  {
    AdvancesFromStart(MountedState(None), k);
    RunKeepsValid(MountedState(None), Advances(k));
    JumpedSpec(Run(MountedState(None), Advances(k)), n);
  }

  /** The wizard component's state. */
  class MultiStepContainer {
    var formData: Record
    var currentStepIndex: nat
    var highestMainStepReached: int

    function State(): WizardState
      reads this
    {
      WizardState(formData, currentStepIndex, highestMainStepReached)
    }

    /** The `useState` initial values. */
    constructor()
      ensures State() == InitialState()
    {
      formData := map[];
      currentStepIndex := 0;
      highestMainStepReached := 1;
    }

    /** The effect that runs when `initialStep` is set (lines 22-27). */
    method ApplyInitialStep(initialStep: int)
      modifies this
      ensures State() == Initialized(old(State()), initialStep)
    {
      currentStepIndex := if 0 <= initialStep < |StepMap| && StepMap[initialStep] != 0 then StepMap[initialStep] else 0;
      highestMainStepReached := if 1 >= initialStep then 1 else initialStep;
    }

    /**
     * The corrected mount: a missing `initialStep` read as 1, the evidently
     * intended default. As written (frontend/App.tsx:42 passes none) the
     * watermark becomes NaN instead; that mount is `WizardMount.MountAsWritten`.
     */
    method MountIntended(initialStep: Option<int>)
      modifies this
      ensures State() == Initialized(old(State()), initialStep.GetOr(1))
    {
      ApplyInitialStep(initialStep.GetOr(1));
    }

    method SaveStepData(data: Record)
      modifies this
      ensures State() == Saved(old(State()), data)
    {
      formData := formData + data;
    }

    /**
     * `goToNextStep`: the save of the current step goes out first (returned
     * here); its failure is caught and logged, so the advance happens either way.
     */
    method GoToNextStep(hasJwt: bool) returns (save: Option<SaveCall>)
      requires currentStepIndex < |StepFlow|
      modifies this
      ensures save == SaveRoute(StepFlow[old(currentStepIndex)], hasJwt, old(formData))
      ensures State() == Advanced(old(State()))
    {
      var currentStepId := StepFlow[currentStepIndex];
      save := SaveRoute(currentStepId, hasJwt, formData);
      if currentStepIndex < |StepFlow| - 1 {
        var nextIndex := currentStepIndex + 1;
        var newMainStep := MainStepOf(nextIndex);
        currentStepIndex := nextIndex;
        if newMainStep > highestMainStepReached {
          highestMainStepReached := newMainStep;
        }
      }
    }

    method GoToStep(step: int)
      modifies this
      ensures State() == Jumped(old(State()), step)
    {
      if step <= highestMainStepReached {
        var targetIndex := if 0 <= step < |StepMap| && StepMap[step] != 0 then StepMap[step]
          else FindPrefix(StepFlow, MainPrefix(step));
        if targetIndex != -1 {
          GoToStepTargetSpec(step);
          currentStepIndex := targetIndex;
        }
      }
    }

    /** The id on screen and the two numbers handed to the stepper. */
    method CurrentStep() returns (id: string, mainStep: int, subStep: int)
      requires Valid(State())
      ensures id == StepFlow[currentStepIndex] && mainStep == MainStepOf(currentStepIndex)
      ensures 1 <= mainStep <= highestMainStepReached && subStep == currentStepIndex - StepMap[mainStep]
    {
      MainStepRanges(currentStepIndex);
      id := StepFlow[currentStepIndex];
      mainStep := MainStepOf(currentStepIndex);
      subStep := SubStepOf(currentStepIndex);
    }
  }
}
