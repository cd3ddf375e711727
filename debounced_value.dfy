/**
 * `useDebounce(value, delay)`: the returned value follows `value` once it has
 * stayed the same for `delay`. Each render whose `value` or `delay` differs
 * from the previous one runs the effect again: its cleanup clears the pending
 * `handler` and a new one is scheduled. The same hook appears in
 * react/hooks/useDebounce.js and in react/hooks_template.js.
 */
module DebouncedValue {
  import opened JsValue
  import opened Clock

  const DefaultDelay := 300

  /** A pending `setTimeout(() => setDebouncedValue(value), delay)`. */
  datatype Update = Update(deadline: int, value: Value)

  class Hook {
    /** the `value` argument of the latest render */
    var value: Value
    /** the `delay` argument of the latest render */
    var delay: int
    /** the state the hook returns */
    var debouncedValue: Value
    var now: int
    /** the pending timer of the effect that ran last */
    var handler: Option<Update>
    /** the time the effect last ran */
    var changedAt: int
    var mounted: bool

    /**
     * At most one update is pending; it carries the current value and falls
     * due a full `delay` after the value last changed. While nothing is
     * pending, the returned value is the current one.
     */
    ghost predicate Valid()
      reads this
    {
      && changedAt <= now
      && (handler.Some? ==>
            && mounted
            && handler.value.value == value
            && handler.value.deadline == changedAt + Delay(delay)
            && now <= handler.value.deadline)
      && (mounted && handler.None? ==> debouncedValue == value)
    }

    /** The first render and its effect: the state starts at `value` and an update is scheduled. */
    constructor (value: Value, delay: Option<int>, start: int)
      ensures Valid() && mounted
      ensures this.value == value && debouncedValue == value
      ensures this.delay == OrDefault(delay, DefaultDelay)
      ensures now == start && changedAt == start
      ensures handler == Some(Update(start + Delay(this.delay), value))
    {
      this.value := value;
      this.delay := OrDefault(delay, DefaultDelay);
      debouncedValue := value;
      now := start;
      changedAt := start;
      mounted := true;
      handler := Some(Update(start + Delay(OrDefault(delay, DefaultDelay)), value));
    }

    /** A re-render with new arguments; the effect runs again only when one of them changed. */
    method Render(newValue: Value, newDelay: Option<int>)
      requires Valid() && mounted
      modifies this
      ensures Valid() && mounted
      ensures value == newValue && delay == OrDefault(newDelay, DefaultDelay)
      ensures debouncedValue == old(debouncedValue) && now == old(now)
      ensures (newValue != old(value) || delay != old(delay)) ==>
        handler == Some(Update(now + Delay(delay), newValue)) && changedAt == now
      ensures (newValue == old(value) && delay == old(delay)) ==>
        handler == old(handler) && changedAt == old(changedAt)
    {
      var d := OrDefault(newDelay, DefaultDelay);
      if newValue != value || d != delay {
        handler := Some(Update(now + Delay(d), newValue));
        changedAt := now;
      }
      value, delay := newValue, d;
    }

    /** Time passes up to `t`; a pending update that falls due publishes the value it carries. */
    method AdvanceTo(t: int)
      requires Valid()
      requires now <= t
      modifies this
      ensures Valid()
      ensures now == t && value == old(value) && delay == old(delay) && mounted == old(mounted)
      ensures changedAt == old(changedAt)
      ensures old(handler).Some? && old(handler).value.deadline <= t ==>
        handler == None && debouncedValue == old(value) && old(changedAt) + Delay(delay) <= t
      ensures !(old(handler).Some? && old(handler).value.deadline <= t) ==>
        handler == old(handler) && debouncedValue == old(debouncedValue)
    {
      if handler.Some? && handler.value.deadline <= t {
        debouncedValue := handler.value.value;
        handler := None;
      }
      now := t;
    }

    /** The cleanup on unmount clears the pending timer. */
    method Unmount()
      requires Valid()
      modifies this
      ensures Valid()
      ensures handler == None && !mounted
      ensures debouncedValue == old(debouncedValue) && value == old(value) && now == old(now)
      ensures delay == old(delay) && changedAt == old(changedAt)
    {
      handler := None;
      mounted := false;
    }
  }

  /** Typing "a", then "ab" 100 ms later, with the default delay: "a" is never published. */
  method Scenario() {
    var h := new Hook(Str(""), None, 0);
    h.AdvanceTo(300);
    assert h.debouncedValue == Str("");
    h.Render(Str("a"), None);
    h.AdvanceTo(400);
    h.Render(Str("ab"), None);
    h.AdvanceTo(699);
    assert h.debouncedValue == Str("");
    h.AdvanceTo(700);
    assert h.debouncedValue == Str("ab");
  }
}
