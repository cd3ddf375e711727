/**
 * `useTimers`: a registry of the timeout and interval ids a component has
 * started, so that they can all be cancelled on unmount. The host's
 * `setTimeout`/`setInterval` choose the ids, so those ids are parameters
 * here; the ids the registry hands back to the host's clear functions are
 * recorded in `clearedTimeouts` and `clearedIntervals`.
 */
module Timers {

  type TimerId = int

  class Registry {
    /** `timersRef.current.timeouts`: each id maps to itself */
    var timeouts: map<TimerId, TimerId>
    /** `timersRef.current.intervals`: each id maps to itself */
    var intervals: map<TimerId, TimerId>
    /** every id passed to the host's `clearTimeout` */
    var clearedTimeouts: set<TimerId>
    /** every id passed to the host's `clearInterval` */
    var clearedIntervals: set<TimerId>

    ghost predicate Valid()
      reads this
    {
      && (forall id :: id in timeouts ==> timeouts[id] == id)
      && (forall id :: id in intervals ==> intervals[id] == id)
    }

    constructor ()
      ensures Valid()
      ensures timeouts == map[] && intervals == map[]
      ensures clearedTimeouts == {} && clearedIntervals == {}
    {
      timeouts, intervals := map[], map[];
      clearedTimeouts, clearedIntervals := {}, {};
    }

    /** `setTimeout(fn, delay)`: the host returns `hostId`, which is registered and returned. */
    method SetTimeout(hostId: TimerId) returns (id: TimerId)
      requires Valid()
      modifies this
      ensures Valid()
      ensures id == hostId
      ensures timeouts == old(timeouts)[hostId := hostId]
      ensures intervals == old(intervals)
      ensures clearedTimeouts == old(clearedTimeouts) && clearedIntervals == old(clearedIntervals)
    {
      id := hostId;
      timeouts := timeouts[id := id];
    }

    /** `clearTimeout(id)`: cancel with the host and drop that one id from the registry. */
    method ClearTimeout(id: TimerId)
      requires Valid()
      modifies this
      ensures Valid()
      ensures timeouts == old(timeouts) - {id}
      ensures intervals == old(intervals)
      ensures clearedTimeouts == old(clearedTimeouts) + {id} && clearedIntervals == old(clearedIntervals)
    {
      clearedTimeouts := clearedTimeouts + {id};
      timeouts := timeouts - {id};
    }

    /** `setInterval(fn, delay)`: the host returns `hostId`, which is registered and returned. */
    method SetInterval(hostId: TimerId) returns (id: TimerId)
      requires Valid()
      modifies this
      ensures Valid()
      ensures id == hostId
      ensures intervals == old(intervals)[hostId := hostId]
      ensures timeouts == old(timeouts)
      ensures clearedTimeouts == old(clearedTimeouts) && clearedIntervals == old(clearedIntervals)
    {
      id := hostId;
      intervals := intervals[id := id];
    }

    /** `clearInterval(id)`: cancel with the host and drop that one id from the registry. */
    method ClearInterval(id: TimerId)
      requires Valid()
      modifies this
      ensures Valid()
      ensures intervals == old(intervals) - {id}
      ensures timeouts == old(timeouts)
      ensures clearedIntervals == old(clearedIntervals) + {id} && clearedTimeouts == old(clearedTimeouts)
    {
      clearedIntervals := clearedIntervals + {id};
      intervals := intervals - {id};
    }

    /**
     * `clearAll`, also the unmount cleanup: every registered id is handed to
     * the host's clear function, then both maps are emptied.
     */
    method ClearAll()
      requires Valid()
      modifies this
      ensures Valid()
      ensures timeouts == map[] && intervals == map[]
      ensures clearedTimeouts == old(clearedTimeouts) + old(timeouts).Values
      ensures clearedIntervals == old(clearedIntervals) + old(intervals).Values
    {
      var rest := timeouts.Values;
      while rest != {}
        invariant rest <= old(timeouts).Values
        invariant clearedTimeouts == old(clearedTimeouts) + (old(timeouts).Values - rest)
        invariant timeouts == old(timeouts) && intervals == old(intervals)
        invariant clearedIntervals == old(clearedIntervals)
        decreases rest
      {
        Pick(rest);
        var id :| id in rest;
        clearedTimeouts := clearedTimeouts + {id};
        rest := rest - {id};
      }
      rest := intervals.Values;
      while rest != {}
        invariant rest <= old(intervals).Values
        invariant clearedIntervals == old(clearedIntervals) + (old(intervals).Values - rest)
        invariant clearedTimeouts == old(clearedTimeouts) + old(timeouts).Values
        invariant timeouts == old(timeouts) && intervals == old(intervals)
        decreases rest
      {
        Pick(rest);
        var id :| id in rest;
        clearedIntervals := clearedIntervals + {id};
        rest := rest - {id};
      }
      timeouts, intervals := map[], map[];
    }
  }

  /** A set that is not empty has an element. */
  lemma Pick(s: set<TimerId>)
    requires s != {}
    ensures exists x :: x in s
  {
    if forall x :: x !in s {
      assert false;
    }
  }

  /** A registered id is cancelled by clearAll; clearing one timeout leaves the other ids registered. */
  method Scenario() {
    var r := new Registry();
    var a := r.SetTimeout(1);
    var b := r.SetTimeout(2);
    var c := r.SetInterval(3);
    r.ClearTimeout(a);
    assert r.timeouts == map[2 := 2] && r.intervals == map[3 := 3];
    assert r.timeouts.Values == {2} by { assert r.timeouts[2] == 2; }
    assert r.intervals.Values == {3} by { assert r.intervals[3] == 3; }
    r.ClearAll();
    assert r.timeouts == map[] && r.intervals == map[];
    assert r.clearedTimeouts == {1, 2} && r.clearedIntervals == {3};
  }
}
