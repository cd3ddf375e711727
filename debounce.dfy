/**
 * `performance.debounce(func, wait)`: each call of the wrapper cancels the
 * pending execution and schedules a new one `wait` after the call, carrying
 * that call's arguments. The wrapper's captured `timeout` variable is the
 * `timeout` field; `trace` records the calls of the wrapper and the runs of
 * `func`, in the order they happen.
 */
module Debounce {
  import opened JsValue
  import opened Clock

  const DefaultWait := 300

  datatype Timer = Timer(deadline: int, args: seq<Value>)

  datatype Event =
    | Called(time: int, args: seq<Value>)
    | Ran(time: int, args: seq<Value>)

  class Debouncer {
    const wait: int
    var now: int
    var timeout: Option<Timer>
    var trace: seq<Event>

    /**
     * A pending execution carries the arguments of the latest call and is due
     * `wait` after it; every run of `func` comes right after the call whose
     * arguments it delivers, exactly `wait` later, with no call in between.
     */
    ghost predicate Valid()
      reads this
    {
      && (timeout.Some? ==>
            && |trace| > 0
            && trace[|trace| - 1] == Called(timeout.value.deadline - Delay(wait), timeout.value.args)
            && now <= timeout.value.deadline)
      && (timeout.None? ==> trace == [] || trace[|trace| - 1].Ran?)
      && (forall j :: 0 <= j < |trace| && trace[j].Ran? ==>
            j > 0 && trace[j - 1] == Called(trace[j].time - Delay(wait), trace[j].args))
      && (forall j :: 0 <= j < |trace| ==> trace[j].time <= now)
    }

    /** `debounce(func, wait = 300)`, created at time `start`. */
    constructor (wait: Option<int>, start: int)
      ensures Valid()
      ensures this.wait == OrDefault(wait, DefaultWait)
      ensures now == start && timeout == None && trace == []
    {
      this.wait := OrDefault(wait, DefaultWait);
      now := start;
      timeout := None;
      trace := [];
    }

    /** One call of the wrapper: `clearTimeout(timeout); timeout = setTimeout(..., wait)`. */
    method Call(args: seq<Value>)
      requires Valid()
      modifies this
      ensures Valid()
      ensures timeout == Some(Timer(now + Delay(wait), args))
      ensures trace == old(trace) + [Called(now, args)]
      ensures now == old(now)
    {
      timeout := Some(Timer(now + Delay(wait), args));
      trace := trace + [Called(now, args)];
    }

    /** Time passes up to `t`; a pending execution that falls due runs `func` with its arguments. */
    method AdvanceTo(t: int)
      requires Valid()
      requires now <= t
      modifies this
      ensures Valid()
      ensures now == t
      ensures old(timeout).Some? && old(timeout).value.deadline <= t ==>
        && timeout == None
        && trace == old(trace) + [Ran(old(timeout).value.deadline, old(timeout).value.args)]
      ensures !(old(timeout).Some? && old(timeout).value.deadline <= t) ==>
        timeout == old(timeout) && trace == old(trace)
    {
      if timeout.Some? && timeout.value.deadline <= t {
        trace := trace + [Ran(timeout.value.deadline, timeout.value.args)];
        timeout := None;
      }
      now := t;
    }
  }

  /** Calls at 0, 50 and 90 with a wait of 100: one run, at 190, with the arguments of the call at 90. */
  method Scenario(a: seq<Value>, b: seq<Value>, c: seq<Value>) {
    var d := new Debouncer(Some(100), 0);
    d.Call(a);
    d.AdvanceTo(50);
    d.Call(b);
    d.AdvanceTo(90);
    d.Call(c);
    d.AdvanceTo(189);
    assert d.trace == [Called(0, a), Called(50, b), Called(90, c)];
    d.AdvanceTo(190);
    assert d.trace == [Called(0, a), Called(50, b), Called(90, c), Ran(190, c)];
    d.AdvanceTo(1000);
    assert d.timeout == None && |d.trace| == 4;
  }
}
