/**
 * `useFormState`: form values keyed by field name, the change handler with
 * its checkbox rule, and the reset to the initial values.
 * The same hook appears in react/hooks/useFormState.js and in
 * react/hooks_template.js; the two are identical.
 */
module FormState {
  import opened JsValue

  /** The parts of `e.target` the change handler reads. */
  datatype Target = Target(name: string, value: Value, inputType: string, checked: Value)

  /**
   * The hook's state: the values shown, and the `initialValues` of the latest
   * render, which `resetForm` (recreated whenever they change) restores.
   */
  datatype Hook = Hook(initialValues: Object, values: Object)

  /** What a caller can do through the hook's return value. */
  datatype Event =
    | Change(target: Target)
    | ResetForm
    | SetValues(values: Object)
      /** a re-render with a new `initialValues` argument; `useState` ignores it, `resetForm` picks it up */
    | Rerender(initialValues: Option<Object>)

  /** `initialValues = {}`: the empty object when the argument is left out. */
  const DefaultInitialValues: Object := map[]

  /** The first render: both the values and the initial values are the (defaulted) argument. */
  function Mount(initialValues: Option<Object>): (h: Hook)
    ensures initialValues.None? ==> h.initialValues == map[] && h.values == map[]
    ensures initialValues.Some? ==> h.initialValues == initialValues.value && h.values == initialValues.value
  {
    var init := OrDefault(initialValues, DefaultInitialValues);
    Hook(init, init)
  }

  /** The value a change stores: `checked` for a checkbox, `value` for every other input. */
  function FieldValue(t: Target): (v: Value)
    ensures t.inputType == "checkbox" ==> v == t.checked
    ensures t.inputType != "checkbox" ==> v == t.value
  {
    if t.inputType == "checkbox" then t.checked else t.value
  }

  /** `{ ...prevValues, [name]: ... }`: one field set, every other field kept. */
  function HandleChange(values: Object, t: Target): (r: Object)
    ensures r.Keys == values.Keys + {t.name}
    ensures r[t.name] == FieldValue(t)
    ensures forall k :: k in values && k != t.name ==> r[k] == values[k]
  {
    values[t.name := FieldValue(t)]
  }

  function Step(h: Hook, e: Event): (r: Hook)
    ensures !e.Rerender? ==> r.initialValues == h.initialValues
    ensures e.Change? ==> r.values == HandleChange(h.values, e.target)
    ensures e.ResetForm? ==> r.values == h.initialValues
    ensures e.SetValues? ==> r.values == e.values
    ensures e.Rerender? ==> r.initialValues == OrDefault(e.initialValues, DefaultInitialValues) && r.values == h.values
  {
    match e
    case Change(t) => h.(values := HandleChange(h.values, t))
    case ResetForm => h.(values := h.initialValues)
    case SetValues(v) => h.(values := v)
    case Rerender(init) => h.(initialValues := OrDefault(init, DefaultInitialValues))
  }

  function Run(h: Hook, events: seq<Event>): Hook
    decreases |events|
  {
    if events == [] then h else Run(Step(h, events[0]), events[1..])
  }

  /** The `initialValues` of the last re-render among `events`, or `init` when there is none. */
  function LatestInitial(init: Object, events: seq<Event>): Object
    decreases |events|
  {
    if events == [] then init
    else if events[|events| - 1].Rerender? then OrDefault(events[|events| - 1].initialValues, DefaultInitialValues)
    else LatestInitial(init, events[..|events| - 1])
  }

  lemma RunAppend(h: Hook, events: seq<Event>, e: Event)
    ensures Run(h, events + [e]) == Step(Run(h, events), e)
    decreases |events|
  {
    if events != [] {
      assert (events + [e])[1..] == events[1..] + [e];
      RunAppend(Step(h, events[0]), events[1..], e);
    }
  }

  /**
   * Only a re-render changes `initialValues`, so a reset after any sequence of
   * events restores exactly the initial values of the latest render.
   */
  lemma {:induction false} ResetRestoresInitial(h: Hook, events: seq<Event>)
    ensures Run(h, events).initialValues == LatestInitial(h.initialValues, events)
    ensures Step(Run(h, events), ResetForm).values == LatestInitial(h.initialValues, events)
    decreases |events|
  {
    if events != [] {
      var init := events[..|events| - 1];
      assert events == init + [events[|events| - 1]];
      ResetRestoresInitial(h, init);
      RunAppend(h, init, events[|events| - 1]);
    }
  }

  /** Without a re-render, reset restores the values the hook was mounted with. */
  lemma NoRerenderKeepsInitial(h: Hook, events: seq<Event>)
    requires forall i :: 0 <= i < |events| ==> !events[i].Rerender?
    ensures Step(Run(h, events), ResetForm).values == h.initialValues
    decreases |events|
  {
    ResetRestoresInitial(h, events);
    NoRerenderLatest(h.initialValues, events);
  }

  lemma {:induction false} NoRerenderLatest(init: Object, events: seq<Event>)
    requires forall i :: 0 <= i < |events| ==> !events[i].Rerender?
    ensures LatestInitial(init, events) == init
    decreases |events|
  {
    if events != [] {
      NoRerenderLatest(init, events[..|events| - 1]);
    }
  }

  /** Changes to two different fields commute. */
  lemma ChangesCommute(values: Object, t1: Target, t2: Target)
    requires t1.name != t2.name
    ensures HandleChange(HandleChange(values, t1), t2) == HandleChange(HandleChange(values, t2), t1)
  {
  }

  /** Repeating a change has no further effect. */
  lemma ChangeIdempotent(values: Object, t: Target)
    ensures HandleChange(HandleChange(values, t), t) == HandleChange(values, t)
  {
  }
}
