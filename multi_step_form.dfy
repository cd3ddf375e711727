/**
 * The reducer behind `useMultiStepForm`: a step cursor over the keys of the
 * steps configuration, together with the form data collected so far.
 * `steps` stands for `Object.keys(stepsConfig)`.
 */
module MultiStepForm {
  import opened JsValue

  datatype State = State(data: Object, currentStepIndex: int)

  datatype Action =
    | Next
    | Prev
    | GoTo(target: int)
    | UpdateData(payload: Object)
    | Reset
      /** an action whose type is none of the five above */
    | Unknown

  /** The values exposed by the hook besides the dispatchers. */
  datatype View = View(
    data: Object,
    currentStep: Option<string>,
    currentStepIndex: int,
    isFirstStep: bool,
    isLastStep: bool,
    stepsCount: nat)

  /** The state `useReducer` starts from. */
  function Initial(initialData: Object): (s: State)
    ensures s.data == initialData && s.currentStepIndex == 0
  {
    State(initialData, 0)
  }

  /** The cursor points at a step, or is 0 when there are no steps. */
  predicate InRange(steps: seq<string>, s: State) {
    0 <= s.currentStepIndex && (s.currentStepIndex < |steps| || s.currentStepIndex == 0)
  }

  function Reduce(steps: seq<string>, initialData: Object, s: State, a: Action): (r: State)
    ensures InRange(steps, s) ==> InRange(steps, r)
    ensures a.Next? ==>
      && r.data == s.data
      && r.currentStepIndex == if s.currentStepIndex < |steps| - 1 then s.currentStepIndex + 1 else s.currentStepIndex
    ensures a.Prev? ==>
      && r.data == s.data
      && r.currentStepIndex == if s.currentStepIndex > 0 then s.currentStepIndex - 1 else s.currentStepIndex
    ensures a.GoTo? ==>
      && r.data == s.data
      && r.currentStepIndex == if 0 <= a.target < |steps| then a.target else s.currentStepIndex
    ensures a.UpdateData? ==>
      && r.currentStepIndex == s.currentStepIndex
      && r.data.Keys == s.data.Keys + a.payload.Keys
      && (forall k :: k in a.payload ==> r.data[k] == a.payload[k])
      && (forall k :: k in s.data && k !in a.payload ==> r.data[k] == s.data[k])
    ensures a.Reset? ==> r == Initial(initialData)
    ensures a.Unknown? ==> r == s
  {
    match a
    case Next =>
      if s.currentStepIndex >= |steps| - 1 then s
      else s.(currentStepIndex := s.currentStepIndex + 1)
    case Prev =>
      if s.currentStepIndex <= 0 then s
      else s.(currentStepIndex := s.currentStepIndex - 1)
    case GoTo(target) =>
      if target < 0 || target >= |steps| then s
      else s.(currentStepIndex := target)
    case UpdateData(payload) =>
      s.(data := s.data + payload)
    case Reset =>
      Initial(initialData)
    case Unknown =>
      s
  }

  /** The derived fields of the hook's return value. */
  function Derive(steps: seq<string>, s: State): (v: View)
    ensures v.data == s.data && v.currentStepIndex == s.currentStepIndex && v.stepsCount == |steps|
    ensures v.isFirstStep <==> s.currentStepIndex == 0
    ensures v.isLastStep <==> s.currentStepIndex == |steps| - 1
    ensures v.currentStep.Some? <==> 0 <= s.currentStepIndex < |steps|
    ensures v.currentStep.Some? ==> v.currentStep.value == steps[s.currentStepIndex]
  {
    View(
      s.data,
      if 0 <= s.currentStepIndex < |steps| then Some(steps[s.currentStepIndex]) else None,
      s.currentStepIndex,
      s.currentStepIndex == 0,
      s.currentStepIndex == |steps| - 1,
      |steps|)
  }

  /** The state after dispatching `actions` in order. */
  function Run(steps: seq<string>, initialData: Object, s: State, actions: seq<Action>): State
    decreases |actions|
  {
    if actions == [] then s
    else Run(steps, initialData, Reduce(steps, initialData, s, actions[0]), actions[1..])
  }

  /** Every state the hook can reach keeps its cursor in range. */
  lemma {:induction false} RunInRange(steps: seq<string>, initialData: Object, s: State, actions: seq<Action>)
    requires InRange(steps, s)
    ensures InRange(steps, Run(steps, initialData, s, actions))
    decreases |actions|
  {
    if actions != [] {
      RunInRange(steps, initialData, Reduce(steps, initialData, s, actions[0]), actions[1..]);
    }
  }

  /** From the initial state, whatever is dispatched, the current step exists whenever a step does. */
  lemma ReachableHasCurrentStep(steps: seq<string>, initialData: Object, actions: seq<Action>)
    requires |steps| > 0
    ensures Derive(steps, Run(steps, initialData, Initial(initialData), actions)).currentStep.Some?
  {
    RunInRange(steps, initialData, Initial(initialData), actions);
  }

  /** NEXT leaves the state as it is exactly at the last step (or when there are no steps). */
  lemma NextNoOpIffLast(steps: seq<string>, initialData: Object, s: State)
    requires InRange(steps, s)
    ensures Reduce(steps, initialData, s, Next) == s <==> (Derive(steps, s).isLastStep || |steps| == 0)
  {
  }

  /** PREV leaves the state as it is exactly at the first step. */
  lemma PrevNoOpIffFirst(steps: seq<string>, initialData: Object, s: State)
    requires InRange(steps, s)
    ensures Reduce(steps, initialData, s, Prev) == s <==> Derive(steps, s).isFirstStep
  {
  }

  /** UPDATE_DATA, however often dispatched, never moves the cursor. */
  lemma {:induction false} UpdatesKeepCursor(steps: seq<string>, initialData: Object, s: State, payloads: seq<Object>)
    ensures Run(steps, initialData, s, seq(|payloads|, i requires 0 <= i < |payloads| => UpdateData(payloads[i]))).currentStepIndex
      == s.currentStepIndex
    decreases |payloads|
  {
    var actions := seq(|payloads|, i requires 0 <= i < |payloads| => UpdateData(payloads[i]));
    if payloads != [] {
      var s' := Reduce(steps, initialData, s, actions[0]);
      assert actions[1..] == seq(|payloads[1..]|, i requires 0 <= i < |payloads[1..]| => UpdateData(payloads[1..][i]));
      UpdatesKeepCursor(steps, initialData, s', payloads[1..]);
    }
  }
}
