/**
 * `useFormValidation`: values, validation errors, touched fields and the
 * submitting flag, with the change, blur, submit and reset handlers and the
 * effect that clears the submitting flag. The validation function is a
 * parameter; its default returns no errors.
 */
module FormValidation {
  import opened JsValue
  import FormState

  datatype State = State(values: Object, errors: Object, touched: Object, isSubmitting: bool)

  /** `validateFn = () => ({})` */
  function NoErrors(values: Object): (errors: Object)
    ensures errors == map[]
  {
    map[]
  }

  /** The first render; `initialValues = {}` when the argument is left out. */
  function Init(initialValues: Option<Object>): (s: State)
    ensures initialValues.Some? ==> s.values == initialValues.value
    ensures initialValues.None? ==> s.values == map[]
    ensures s.errors == map[] && s.touched == map[] && !s.isSubmitting
  {
    State(OrDefault(initialValues, FormState.DefaultInitialValues), map[], map[], false)
  }

  /** `handleChange`: the same field update as `useFormState`; nothing else moves. */
  function HandleChange(s: State, t: FormState.Target): (r: State)
    ensures r.values == FormState.HandleChange(s.values, t)
    ensures r.errors == s.errors && r.touched == s.touched && r.isSubmitting == s.isSubmitting
  {
    s.(values := FormState.HandleChange(s.values, t))
  }

  /** `handleBlur`: mark the field touched, then validate the current values. */
  function HandleBlur(s: State, name: string, validate: Object -> Object): (r: State)
    ensures r.touched.Keys == s.touched.Keys + {name} && r.touched[name] == Bool(true)
    ensures forall k :: k in s.touched && k != name ==> r.touched[k] == s.touched[k]
    ensures r.errors == validate(s.values)
    ensures r.values == s.values && r.isSubmitting == s.isSubmitting
  {
    s.(touched := s.touched[name := Bool(true)], errors := validate(s.values))
  }

  /** Every field of `values`, marked touched; the previous touched map is replaced, not merged. */
  function AllTouched(values: Object): (t: Object)
    ensures t.Keys == values.Keys
    ensures forall k :: k in t ==> t[k] == Bool(true)
  {
    map k | k in values :: Bool(true)
  }

  datatype Submitted = Submitted(state: State, callbackArgument: Option<Object>)

  /**
   * `handleSubmit(callback)(e)`: touch every field, validate, raise the
   * submitting flag, and call the callback with the values only when there
   * are no errors and a callback was given.
   */
  function HandleSubmit(s: State, validate: Object -> Object, hasCallback: bool): (r: Submitted)
    ensures r.state.touched == AllTouched(s.values)
    ensures r.state.errors == validate(s.values)
    ensures r.state.values == s.values && r.state.isSubmitting
    ensures r.callbackArgument.Some? <==> hasCallback && |validate(s.values)| == 0
    ensures r.callbackArgument.Some? ==> r.callbackArgument.value == s.values
  {
    var errors := validate(s.values);
    var noErrors := |errors| == 0;
    Submitted(
      s.(touched := AllTouched(s.values), errors := errors, isSubmitting := true),
      if noErrors && hasCallback then Some(s.values) else None)
  }

  /** The effect on `[errors, isSubmitting]`: a raised submitting flag is lowered whatever the errors. */
  function SubmitEffect(s: State): (r: State)
    ensures !r.isSubmitting
    ensures r.values == s.values && r.errors == s.errors && r.touched == s.touched
  {
    if s.isSubmitting then
      var noErrors := |s.errors| == 0;
      if noErrors then s.(isSubmitting := false) else s.(isSubmitting := false)
    else s
  }

  /**
   * `resetForm`: back to the `initialValues` of the latest render (the
   * callback is recreated when they change), with no errors, nothing
   * touched, not submitting: the state of a fresh mount.
   */
  function ResetForm(initialValues: Option<Object>): (r: State)
    ensures r == Init(initialValues)
  {
    State(OrDefault(initialValues, FormState.DefaultInitialValues), map[], map[], false)
  }

  /** With the default validation every submit with a callback reaches it. */
  lemma DefaultValidationAlwaysSubmits(s: State)
    ensures HandleSubmit(s, NoErrors, true).callbackArgument == Some(s.values)
  {
  }

  /** A field with a validation error blocks the callback. */
  lemma ErrorsBlockSubmit(s: State, validate: Object -> Object, field: string)
    requires field in validate(s.values)
    ensures HandleSubmit(s, validate, true).callbackArgument.None?
  {
    assert |validate(s.values)| > 0;
  }
}
