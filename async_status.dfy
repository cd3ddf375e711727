/**
 * `useAsync`: the status machine around one async function. `Execute` is the
 * synchronous part of `execute` (before the await); `Resolve` and `Reject`
 * are the two ways the awaited promise settles.
 */
module AsyncStatus {
  import opened JsValue

  datatype Status = Idle | Pending | Success | Error

  datatype State = State(status: Status, value: Value, error: Value)

  datatype Event = Execute | Resolve(result: Value) | Reject(reason: Value)

  function Initial(): (s: State)
    ensures s.status == Idle && s.value == Null && s.error == Null
  {
    State(Idle, Null, Null)
  }

  /** `isLoading: status === 'pending'` */
  predicate IsLoading(s: State) {
    s.status == Pending
  }

  function Step(s: State, e: Event): (r: State)
    ensures e.Execute? ==> r == State(Pending, Null, Null)
    ensures e.Resolve? ==> r.status == Success && r.value == e.result && r.error == s.error
    ensures e.Reject? ==> r.status == Error && r.error == e.reason && r.value == s.value
  {
    match e
    case Execute => State(Pending, Null, Null)
    case Resolve(v) => s.(value := v, status := Success)
    case Reject(err) => s.(error := err, status := Error)
  }

  function Run(s: State, events: seq<Event>): State
    decreases |events|
  {
    if events == [] then s else Run(Step(s, events[0]), events[1..])
  }

  /** What the hook exposes when each execution settles before the next one starts. */
  predicate Consistent(s: State) {
    && (s.status == Idle || s.status == Pending ==> s.value == Null && s.error == Null)
    && (s.status == Success ==> s.error == Null)
    && (s.status == Error ==> s.value == Null)
  }

  /** Executions that do not overlap: every settle is preceded by its own Execute. */
  predicate Sequential(events: seq<Event>, pending: bool)
    decreases |events|
  {
    if events == [] then true
    else if events[0].Execute? then !pending && Sequential(events[1..], true)
    else pending && Sequential(events[1..], false)
  }

  /** `isLoading` holds from an execute until the next settle: exactly after an `Execute`. */
  lemma LoadingUntilSettled(s: State, e: Event)
    ensures IsLoading(Step(s, e)) <==> e.Execute?
    ensures !IsLoading(Initial())
  {
  }

  /** With non-overlapping executions, the status, value and error always agree. */
  lemma {:induction false} SequentialRunsConsistent(s: State, events: seq<Event>)
    requires Consistent(s)
    requires Sequential(events, s.status == Pending)
    ensures Consistent(Run(s, events))
    decreases |events|
  {
    if events != [] {
      SequentialRunsConsistent(Step(s, events[0]), events[1..]);
    }
  }

  /** An execution that succeeds leaves no error behind, and one that fails leaves no value. */
  lemma OneExecution(s: State, e: Event)
    requires !e.Execute?
    ensures e.Resolve? ==> Run(s, [Execute, e]) == State(Success, e.result, Null)
    ensures e.Reject? ==> Run(s, [Execute, e]) == State(Error, Null, e.reason)
  {
    var events := [Execute, e];
    assert events[1..] == [e];
    assert Run(s, events) == Run(State(Pending, Null, Null), [e]);
    assert [e][1..] == [];
    assert Run(State(Pending, Null, Null), [e]) == Step(State(Pending, Null, Null), e);
  }

  /**
   * Overlapping executions: if the first call rejects after the second call
   * started and the second then resolves, the hook shows success together
   * with the first call's error.
   */
  lemma OverlapLeavesStaleError()
    ensures var r := Run(Initial(), [Execute, Execute, Reject(Str("first")), Resolve(Num(2))]);
      r.status == Success && r.error == Str("first") && !Consistent(r)
  {
    var events := [Execute, Execute, Reject(Str("first")), Resolve(Num(2))];
    assert events[1..] == [Execute, Reject(Str("first")), Resolve(Num(2))];
    assert events[1..][1..] == [Reject(Str("first")), Resolve(Num(2))];
    assert events[1..][1..][1..] == [Resolve(Num(2))];
  }
}
