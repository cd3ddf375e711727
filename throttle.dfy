/**
 * `performance.throttle(func, limit)`: a call made while not in cooldown runs
 * `func` at once and, when `func` returns, starts a cooldown of `limit`;
 * calls during the cooldown are dropped. A `func` that throws leaves before
 * `inThrottle = true`, so no cooldown starts. `resetAt` is the pending
 * `setTimeout(() => inThrottle = false, limit)`.
 */
module Throttle {
  import opened JsValue
  import opened Clock

  const DefaultLimit := 300

  /** One run of `func`: when, with which arguments, and whether it threw. */
  datatype Run = Run(time: int, args: seq<Value>, threw: bool)

  /** Any two runs that returned normally are at least `gap` apart. */
  ghost predicate SpacedReturns(runs: seq<Run>, gap: nat) {
    forall i, j :: 0 <= i < j < |runs| && !runs[i].threw && !runs[j].threw ==> runs[i].time + gap <= runs[j].time
  }

  /**
   * The throttler's invariant, over its fields: the cooldown is pending
   * exactly while `inThrottle`; it ends `gap` after `lastReturn`, the time
   * of the latest run that returned; the runs that returned are spaced by `gap`.
   */
  ghost predicate Throttled(gap: nat, now: int, inThrottle: bool, resetAt: Option<int>, runs: seq<Run>, lastReturn: Option<int>) {
    && (inThrottle <==> resetAt.Some?)
    && (resetAt.Some? ==> lastReturn.Some? && resetAt.value == lastReturn.value + gap && now <= resetAt.value)
    && (!inThrottle && lastReturn.Some? ==> lastReturn.value + gap <= now)
    && (forall i :: 0 <= i < |runs| && !runs[i].threw ==> lastReturn.Some? && runs[i].time <= lastReturn.value)
    && SpacedReturns(runs, gap)
    && (forall i :: 0 <= i < |runs| ==> runs[i].time <= now)
  }

  /** A run that returns, outside cooldown, starts a cooldown and keeps the invariant. */
  lemma ReturnKeeps(gap: nat, now: int, runs: seq<Run>, lastReturn: Option<int>, x: Run)
    requires Throttled(gap, now, false, None, runs, lastReturn)
    requires x.time == now && !x.threw
    ensures Throttled(gap, now, true, Some(now + gap), runs + [x], Some(now))
  {
    var runs' := runs + [x];
    forall i, j | 0 <= i < j < |runs'| && !runs'[i].threw && !runs'[j].threw
      ensures runs'[i].time + gap <= runs'[j].time
    {
      assert runs'[i] == runs[i];
      if j < |runs| {
        assert runs'[j] == runs[j];
      }
    }
    forall i | 0 <= i < |runs'| ensures runs'[i].time <= now {
      if i < |runs| { assert runs'[i] == runs[i]; }
    }
  }

  /** A run that throws leaves the cooldown off and keeps the invariant. */
  lemma ThrowKeeps(gap: nat, now: int, runs: seq<Run>, lastReturn: Option<int>, x: Run)
    requires Throttled(gap, now, false, None, runs, lastReturn)
    requires x.time == now && x.threw
    ensures Throttled(gap, now, false, None, runs + [x], lastReturn)
  {
    var runs' := runs + [x];
    forall i, j | 0 <= i < j < |runs'| && !runs'[i].threw && !runs'[j].threw
      ensures runs'[i].time + gap <= runs'[j].time
    {
      assert runs'[i] == runs[i] && runs'[j] == runs[j];
    }
    forall i | 0 <= i < |runs'| ensures runs'[i].time <= now {
      if i < |runs| { assert runs'[i] == runs[i]; }
    }
  }

  class Throttler {
    const limit: int
    var now: int
    var inThrottle: bool
    var resetAt: Option<int>
    /** the runs of `func`, in order, including those that threw */
    var runs: seq<Run>
    /** the time of the latest run that returned normally */
    ghost var lastReturn: Option<int>

    ghost predicate Valid()
      reads this
    {
      Throttled(Delay(limit), now, inThrottle, resetAt, runs, lastReturn)
    }

    /** `throttle(func, limit = 300)`, created at time `start`; `inThrottle` starts undefined, so falsy. */
    constructor (limit: Option<int>, start: int)
      ensures Valid()
      ensures this.limit == OrDefault(limit, DefaultLimit)
      ensures now == start && !inThrottle && resetAt == None && runs == []
    {
      this.limit := OrDefault(limit, DefaultLimit);
      now := start;
      inThrottle := false;
      resetAt := None;
      runs := [];
      lastReturn := None;
    }

    /**
     * One call of the wrapper; `ran` says whether `func` ran, and `threw`
     * whether `func` throws when it runs (the exception then propagates to
     * the caller of the wrapper).
     */
    method Call(args: seq<Value>, threw: bool) returns (ran: bool)
      requires Valid()
      modifies this
      ensures Valid()
      ensures ran == !old(inThrottle)
      ensures ran ==> runs == old(runs) + [Run(now, args, threw)]
      ensures ran && !threw ==> inThrottle && resetAt == Some(now + Delay(limit))
      ensures ran && threw ==> !inThrottle && resetAt == None
      ensures !ran ==> runs == old(runs) && inThrottle == old(inThrottle) && resetAt == old(resetAt)
      ensures ran && !threw ==> lastReturn == Some(now)
      ensures !(ran && !threw) ==> lastReturn == old(lastReturn)
      ensures now == old(now)
    {
      ran := !inThrottle;
      if ran {
        var x := Run(now, args, threw);
        if !threw {
          ReturnKeeps(Delay(limit), now, runs, lastReturn, x);
          lastReturn := Some(now);
          inThrottle := true;
          resetAt := Some(now + Delay(limit));
        } else {
          ThrowKeeps(Delay(limit), now, runs, lastReturn, x);
        }
        runs := runs + [x];
      }
    }

    /** Time passes up to `t`; a cooldown that falls due ends. */
    method AdvanceTo(t: int)
      requires Valid()
      requires now <= t
      modifies this
      ensures Valid()
      ensures now == t && runs == old(runs) && lastReturn == old(lastReturn)
      ensures old(resetAt).Some? && old(resetAt).value <= t ==> !inThrottle && resetAt == None
      ensures !(old(resetAt).Some? && old(resetAt).value <= t) ==>
        inThrottle == old(inThrottle) && resetAt == old(resetAt)
    {
      if resetAt.Some? && resetAt.value <= t {
        inThrottle := false;
        resetAt := None;
      }
      now := t;
    }
  }

  /**
   * However the wrapper is called and time advanced, no two runs of `func`
   * that returned normally are closer than `limit`.
   */
  lemma RunsSpaced(th: Throttler)
    requires th.Valid()
    ensures SpacedReturns(th.runs, Delay(th.limit))
  {
  }

  /** Calls at 0, 30 and 150 with a limit of 100: runs at 0 and 150 only. */
  method Scenario(a: seq<Value>, b: seq<Value>, c: seq<Value>) {
    var th := new Throttler(Some(100), 0);
    var r0 := th.Call(a, false);
    th.AdvanceTo(30);
    var r1 := th.Call(b, false);
    th.AdvanceTo(150);
    var r2 := th.Call(c, false);
    assert r0 && !r1 && r2;
    assert th.runs == [Run(0, a, false), Run(150, c, false)];
  }

  /** A `func` that throws starts no cooldown: calls at 0 and 1 both run it. */
  method ThrowingScenario(a: seq<Value>, b: seq<Value>) {
    var th := new Throttler(Some(100), 0);
    var r0 := th.Call(a, true);
    th.AdvanceTo(1);
    var r1 := th.Call(b, true);
    assert r0 && r1;
    assert th.runs == [Run(0, a, true), Run(1, b, true)];
  }
}
