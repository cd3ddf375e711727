/**
 * `useToggle` and `useLoading`: a boolean state hook with a negating
 * updater, and a boolean with start/stop setters.
 * `useToggle` appears in react/hooks/useToggle.js and in
 * react/hooks_template.js; the two are identical.
 */
module Toggle {
  import opened JsValue

  const DefaultInitialState := false

  /** `useState(initialState)` with `initialState = false`. */
  function Mount(initialState: Option<bool>): (s: bool)
    ensures initialState.None? ==> s == DefaultInitialState
    ensures initialState.Some? ==> s == initialState.value
  {
    OrDefault(initialState, DefaultInitialState)
  }

  /** `prevState => !prevState` */
  function Flip(s: bool): (r: bool)
    ensures r != s
  {
    !s
  }

  datatype Event = Toggle | SetState(value: bool)

  function Step(s: bool, e: Event): (r: bool)
    ensures e.Toggle? ==> r != s
    ensures e.SetState? ==> r == e.value
  {
    match e
    case Toggle => Flip(s)
    case SetState(v) => v
  }

  /** Toggling twice gives the original state back. */
  lemma FlipInvolution(s: bool)
    ensures Step(Step(s, Toggle), Toggle) == s
  {
  }

  /** The state after `n` toggles. */
  function Toggles(s: bool, n: nat): bool
    decreases n
  {
    if n == 0 then s else Toggles(Step(s, Toggle), n - 1)
  }

  /** After `n` toggles the state is the original one exactly when `n` is even. */
  lemma {:induction false} TogglesParity(s: bool, n: nat)
    ensures Toggles(s, n) == (if n % 2 == 0 then s else !s)
    decreases n
  {
    if n > 0 {
      TogglesParity(!s, n - 1);
    }
  }

  datatype LoadingEvent = StartLoading | StopLoading | SetLoading(value: bool)

  /** `useLoading`: start sets true, stop sets false, the raw setter sets its argument. */
  function LoadingStep(isLoading: bool, e: LoadingEvent): (r: bool)
    ensures e.StartLoading? ==> r
    ensures e.StopLoading? ==> !r
    ensures e.SetLoading? ==> r == e.value
  {
    match e
    case StartLoading => true
    case StopLoading => false
    case SetLoading(v) => v
  }

  /** Start and stop do not depend on the state they are applied to. */
  lemma LoadingStepsAreConstant(a: bool, b: bool)
    ensures LoadingStep(a, StartLoading) == LoadingStep(b, StartLoading)
    ensures LoadingStep(a, StopLoading) == LoadingStep(b, StopLoading)
  {
  }
}
