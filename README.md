# State rules of the ProjectTemplates React hooks and JS utilities

ProjectTemplates is a set of boilerplate fragments. This project models the
parts of it that hold a rule worth stating:

- the reducers of `useList` and `useMultiStepForm`;
- the transition rules of `useFormState`, `useFormValidation`, `useToggle`,
  `useLoading` and `useAsync`;
- the `useTimers` id registry;
- the `useDebounce` hook;
- the `api`, `storage` and `performance` utilities;
- the `Pagination` and `Tabs` components;
- the `withTheme` wrapper.

Each concept is modelled once, in its own module:

| module | file | source |
|---|---|---|
| `JsValue` | `js_value.dfy` | JavaScript values, truthiness, property reads, `String(v)`, default arguments |
| `Clock` | `clock.dfy` | the host timer's treatment of a delay: the 32-bit conversion, and negative as 0 |
| `ListReducer` | `list_reducer.dfy` | `useList` in react/hooks_template.js |
| `MultiStepForm` | `multi_step_form.dfy` | `useMultiStepForm` in react/hooks_template.js |
| `FormState` | `form_state.dfy` | react/hooks/useFormState.js |
| `FormValidation` | `form_validation.dfy` | `useFormValidation` in react/hooks_template.js |
| `Toggle` | `toggle.dfy` | react/hooks/useToggle.js, `useLoading` in react/hooks_template.js |
| `AsyncStatus` | `async_status.dfy` | `useAsync` in react/hooks_template.js |
| `Timers` | `timers.dfy` | `useTimers` in react/hooks_template.js |
| `DebouncedValue` | `debounced_value.dfy` | react/hooks/useDebounce.js |
| `ApiClient` | `api_client.dfy` | `api` in frontend/js_helpers.js |
| `Storage` | `storage.dfy` | `storage` in frontend/js_helpers.js |
| `Debounce` | `debounce.dfy` | `performance.debounce` in frontend/js_helpers.js |
| `Throttle` | `throttle.dfy` | `performance.throttle` in frontend/js_helpers.js |
| `Pagination` | `pagination.dfy` | react/components/ui/pagination.jsx |
| `Tabs` | `tabs.dfy` | react/components/ui/tabs.jsx |
| `Theme` | `theme.dfy` | react/hooks/useTheme.js |

react/hooks_template.js holds its own copies of `useFormState` (lines 17-33),
`useToggle` (lines 40-48) and `useDebounce` (lines 305-319). They are identical
to the files under react/hooks/, so the single model of each covers both.

## Modelling choices

- **Pure code stays pure.** The reducers and the hook transitions build new
  state with spread, `map` and `filter`. They become functions from a state and
  an event to a new state. `MultiStepForm`, `FormState` and `AsyncStatus`
  have a `Run` function that folds their step over a sequence of events, and
  `Toggle.Toggles` applies n toggles; lemmas about these state what holds of
  every reachable state. `ListReducer` and `FormValidation` are stated one
  action at a time.
- **Mutated state becomes a class.** This covers:
  - the registry maps of `useTimers`;
  - the captured `timeout`/`inThrottle` variables of `debounce`/`throttle`;
  - the pending handler of `useDebounce`;
  - the theme and its `localStorage` entry;
  - `api.baseUrl`.

  Each class has `modifies` methods whose contracts give the whole new state.
  `Timers.Registry`, `Debounce.Debouncer`, `Throttle.Throttler` and
  `DebouncedValue.Hook` also carry a `Valid()` invariant that every method
  keeps. `Theme.Themed` and `ApiClient.Client` hold only free-form values and
  need none.
- **Time is a logical clock.** A method `AdvanceTo(t)` moves time forward and
  fires whichever single timer is due. A method call stands for each call of a
  debounced or throttled wrapper and for each re-render. Browsers convert the
  timeout to a signed 32-bit integer and treat a negative one as 0
  (`Clock.Delay`), so a delay of 2^31 ms or more does not wait that long
  (`Clock.WrappedDelays`).
- **Host services are parameters:**
  - `fetch` is a function from the prepared request to a response record. The
    record holds the status, the `ok` flag and what `response.json()`
    resolves to.
  - The JSON codec is a pair of functions, `stringify` and `parse`.
  - Host timer ids are arguments of the timer-registry methods.
  - `localStorage` is an explicit map from keys to strings.
- **Some names differ from the source.** `label` and `method` are reserved
  words in Dafny, so a tab's label is `Tab.name` and the HTTP method is
  `Config.httpMethod`.
- **What the utilities do not have.** `request` (frontend/js_helpers.js:36-37)
  makes a single `fetch` with no timer, so there is no request timeout.
  `debounce` (frontend/js_helpers.js:96-102) returns a bare wrapper with no
  cancel.
- **Left-out arguments.** A JavaScript default parameter applies when the
  argument is missing or undefined. The model writes a missing argument as
  `None` where the parameter is not a `Value`, and `JsValue.OrDefault`
  supplies the default. This covers `request`'s method and headers, the
  `initialValues` of `useFormState` and `useFormValidation`, `useToggle`'s
  `initialState`, `debounce`'s `wait`, `throttle`'s `limit` and `useDebounce`'s
  `delay`. `useLoading`'s `initialState = false` is the same default as
  `useToggle`'s, `Toggle.Mount`. Where the parameter is a `Value`, a missing
  argument is `Undefined`: `storage.get`'s `defaultValue` and `request`'s body.
  The reducers take their starting values as given. A left-out `initialItems`
  of `useList` is the empty list, and a left-out `initialData` and
  `stepsConfig` of `useMultiStepForm` are the empty object and no steps. Every
  lemma about them holds for any starting list, data and step list, these
  included.

Some methods have no contract of their own. Each is a scenario that replays a
concrete example through the verified contracts:

- `Debounce.Scenario`: calls at 0, 50 and 90 with wait 100 give one run, at
  190, with the last call's arguments.
- `Throttle.Scenario`: calls at 0, 30 and 150 with limit 100 give runs at 0
  and 150.
- `Throttle.ThrowingScenario`: a target that throws, called at 0 and 1, runs
  both times.
- `DebouncedValue.Scenario`, `Timers.Scenario`, `Theme.Scenario` and
  `ApiClient.Scenario` do the same for their modules.

## Model

| member | source | states |
|---|---|---|
| `ListReducer.Reduce` | react/hooks_template.js:191-205 | ADD appends the item after an unchanged prefix (length + 1); UPDATE and REMOVE are `UpdateAll`/`RemoveAll`; CLEAR gives []; an unknown action returns the state itself |
| `ListReducer.Patch` | react/hooks_template.js:197 | the patched item has the keys of both; data's fields win, the item's other fields stay |
| `ListReducer.UpdateAll` | react/hooks_template.js:195-198 | same length and order; items whose id differs are identical, items whose id matches are patched |
| `ListReducer.RemoveAll` | react/hooks_template.js:199-200 | an item survives iff it was in the list and its id differs; never longer |
| `ListReducer.RemoveAllAppend` | react/hooks_template.js:199-200 | removal distributes over concatenation, so survivors keep their original order |
| `ListReducer.RemoveAllLength` | react/hooks_template.js:199-200 | the list shrinks by exactly the number of items carrying the id |
| `ListReducer.RemoveAbsent` | react/hooks_template.js:199-200 | removing an id no item carries returns the list unchanged |
| `ListReducer.RemoveTwice` | react/hooks_template.js:199-200 | REMOVE is idempotent |
| `ListReducer.UpdateAbsent` | react/hooks_template.js:195-198 | UPDATE of an id no item carries returns the list unchanged |
| `ListReducer.AddThenRemoveOther` | react/hooks_template.js:193-200 | ADD then REMOVE of another id equals the filtered list with the new item last |
| `MultiStepForm.Initial` | react/hooks_template.js:269-272 | the form starts on step 0 with `initialData` |
| `MultiStepForm.Reduce` | react/hooks_template.js:236-268 | the cursor stays in range; NEXT and PREV step by one except at the last and first step; GO_TO outside [0, steps) leaves the cursor; UPDATE_DATA merges with payload keys winning and keeps the cursor; RESET restores the initial state; only UPDATE_DATA and RESET touch data |
| `MultiStepForm.Derive` | react/hooks_template.js:280-292 | `isFirstStep` iff index 0, `isLastStep` iff index = steps - 1, `currentStep` is the step at the index when it exists, `stepsCount` is the number of steps |
| `MultiStepForm.RunInRange` | react/hooks_template.js:236-272 | every state reachable by any sequence of actions keeps 0 <= index and index < steps (or 0 with no steps) |
| `MultiStepForm.ReachableHasCurrentStep` | react/hooks_template.js:282 | with at least one step, every reachable state has a current step |
| `MultiStepForm.NextNoOpIffLast` | react/hooks_template.js:238-243 | NEXT is a no-op exactly when `isLastStep` holds or there are no steps |
| `MultiStepForm.PrevNoOpIffFirst` | react/hooks_template.js:244-249 | PREV is a no-op exactly when `isFirstStep` holds |
| `MultiStepForm.UpdatesKeepCursor` | react/hooks_template.js:256-260 | any number of UPDATE_DATA actions leaves the cursor where it was |
| `FormState.Mount` | react/hooks/useFormState.js:8-9 | the first render shows the initial values, which default to {} when the argument is left out |
| `FormState.FieldValue` | react/hooks/useFormState.js:12-15 | a checkbox stores `checked`, every other input stores `value` |
| `FormState.HandleChange` | react/hooks/useFormState.js:11-17 | the new values have one more key at most: `name` holds the field value, every other key is unchanged |
| `FormState.Step` | react/hooks/useFormState.js:8-23 | only a re-render changes `initialValues` (to its defaulted argument, values untouched); a change stores the field value, reset restores the current initial values, the setter sets exactly its argument |
| `FormState.ResetRestoresInitial` | react/hooks/useFormState.js:19-21 | after any sequence of events, `initialValues` is that of the latest render, and reset restores exactly it |
| `FormState.NoRerenderKeepsInitial` | react/hooks/useFormState.js:19-21 | without a re-render, reset after any events restores the values the hook was mounted with |
| `FormState.ChangesCommute` | react/hooks/useFormState.js:13-16 | changes to two different fields commute |
| `FormState.ChangeIdempotent` | react/hooks/useFormState.js:13-16 | repeating a change has no further effect |
| `FormValidation.NoErrors` | react/hooks_template.js:378 | the default validation returns no errors |
| `FormValidation.Init` | react/hooks_template.js:378-382 | the hook starts with the initial values ({} when left out), no errors, nothing touched, not submitting |
| `FormValidation.HandleChange` | react/hooks_template.js:401-409 | the checkbox-aware field update of `useFormState`; errors, touched and submitting flag unchanged |
| `FormValidation.HandleBlur` | react/hooks_template.js:411-420 | the blurred field becomes touched and the others keep their marks; errors become the validation of the current values |
| `FormValidation.AllTouched` | react/hooks_template.js:425-430 | submit marks exactly the keys of the values as touched |
| `FormValidation.HandleSubmit` | react/hooks_template.js:422-440 | touched is replaced by all fields, errors by the validation, submitting is raised; the callback gets the values iff there are no errors and a callback was given |
| `FormValidation.SubmitEffect` | react/hooks_template.js:384-393 | the effect lowers the submitting flag whatever the errors and changes nothing else |
| `FormValidation.ResetForm` | react/hooks_template.js:442-447 | reset gives the state of a fresh mount with the latest initial values: no errors, nothing touched, not submitting |
| `FormValidation.DefaultValidationAlwaysSubmits` | react/hooks_template.js:432-439 | with the default validation a given callback always receives the values |
| `FormValidation.ErrorsBlockSubmit` | react/hooks_template.js:432-439 | any validation error keeps the callback from being called |
| `Toggle.Mount` | react/hooks/useToggle.js:8-9 | the state defaults to false, otherwise it is the argument |
| `Toggle.Flip` | react/hooks/useToggle.js:11-13 | toggle negates the state |
| `Toggle.Step` | react/hooks/useToggle.js:9-15 | toggle negates; the exposed setter sets exactly the given value |
| `Toggle.FlipInvolution` | react/hooks/useToggle.js:12 | toggling twice restores the state |
| `Toggle.TogglesParity` | react/hooks/useToggle.js:11-13 | after n toggles the state is the original iff n is even |
| `Toggle.LoadingStep` | react/hooks_template.js:55-61 | start sets loading, stop clears it, the setter sets its argument |
| `Toggle.LoadingStepsAreConstant` | react/hooks_template.js:58-59 | start and stop ignore the previous state |
| `AsyncStatus.Initial` | react/hooks_template.js:467-469 | the status starts idle with null value and error |
| `AsyncStatus.Step` | react/hooks_template.js:471-486 | execute goes pending and clears value and error; resolve sets value and success; reject sets error and error status, each keeping the other field |
| `AsyncStatus.LoadingUntilSettled` | react/hooks_template.js:488 | `isLoading` is false initially, true after an execute and false after either settle |
| `AsyncStatus.SequentialRunsConsistent` | react/hooks_template.js:471-488 | with non-overlapping executions: idle and pending carry no value or error, success no error, error no value |
| `AsyncStatus.OneExecution` | react/hooks_template.js:471-486 | one execution ends as success with the result and no error, or as error with the reason and no value |
| `AsyncStatus.OverlapLeavesStaleError` | react/hooks_template.js:471-486 | two overlapping executions, where the first rejects and the second resolves, show success together with the first error |
| `Timers.Registry.constructor` | react/hooks_template.js:496-499 | both maps start empty |
| `Timers.Registry.SetTimeout` | react/hooks_template.js:513-517 | the host id is registered under itself and returned; intervals unchanged |
| `Timers.Registry.ClearTimeout` | react/hooks_template.js:519-522 | the id goes to the host's clear and only that id leaves the timeouts map |
| `Timers.Registry.SetInterval` | react/hooks_template.js:524-528 | the host id is registered under itself and returned; timeouts unchanged |
| `Timers.Registry.ClearInterval` | react/hooks_template.js:530-533 | the id goes to the host's clear and only that id leaves the intervals map |
| `Timers.Registry.ClearAll` | react/hooks_template.js:501-507 | every registered id is handed to the host's clear function and both maps end empty |
| `DebouncedValue.Hook.constructor` | react/hooks/useDebounce.js:9-15 | the debounced value starts as `value`, delay defaults to 300, one update is scheduled |
| `DebouncedValue.Hook.Render` | react/hooks/useDebounce.js:12-20 | a changed value or delay replaces the pending update with one `Delay(delay)` from now carrying the new value; an unchanged render leaves it |
| `DebouncedValue.Hook.AdvanceTo` | react/hooks/useDebounce.js:13-15 | an update that falls due publishes the current value, which has then been unchanged for the delay; at most one update is ever pending and it never carries a stale value |
| `DebouncedValue.Hook.Unmount` | react/hooks/useDebounce.js:17-19 | the cleanup cancels the pending update |
| `ApiClient.StripTrailingSlash` | frontend/js_helpers.js:14 | a URL ending in '/' loses exactly that one character; any other URL is kept |
| `ApiClient.StripRemovesOneSlash` | frontend/js_helpers.js:14 | of two trailing slashes one remains |
| `ApiClient.Client.constructor` | frontend/js_helpers.js:11 | the base URL starts empty |
| `ApiClient.Client.SetBaseUrl` | frontend/js_helpers.js:13-15 | the stored base URL is the argument with its trailing slash stripped |
| `ApiClient.MergeHeaders` | frontend/js_helpers.js:21-25 | Content-Type and Accept are always present, defaulting to application/json; every caller header is included and wins |
| `JsValue.OrDefault` | frontend/js_helpers.js:20 | a default parameter: the given argument, or the default when it is left out |
| `ApiClient.Prepare` | frontend/js_helpers.js:20-37 | the URL is base URL + endpoint, the headers are merged, a body is carried iff it is truthy and then it is the given body |
| `ApiClient.ErrorBody` | frontend/js_helpers.js:41 | the parsed error body, or {} when `response.json()` rejects |
| `ApiClient.GenericMessage` | frontend/js_helpers.js:42 | the fallback text starts with "HTTP Error: ", followed by the decimal status: digits whose value is the status, with no leading zero; a negative status has a "-" before the digits of its magnitude. The text is never empty |
| `JsValue.NatToString` | frontend/js_helpers.js:42 | the decimal notation of a natural number: nonempty digits whose value is the number, one digit iff it is below 10, no leading zero |
| `JsValue.IntToString` | frontend/js_helpers.js:42 | the decimal notation of an integer: a leading "-" iff it is negative, then the digits of its magnitude with no leading zero |
| `Clock.ToInt32` | frontend/js_helpers.js:100 | the timeout's conversion to a signed 32-bit integer: in [-2^31, 2^31), congruent to the argument modulo 2^32, the argument itself when in range |
| `Clock.Delay` | frontend/js_helpers.js:100 | the time a timer waits: the 32-bit conversion of the timeout, or 0 when that is negative; a timeout in [0, 2^31) waits exactly that long |
| `Clock.WrappedDelays` | frontend/js_helpers.js:114 | 2^31 - 1 ms waits that long, 2^31 and 2^32 - 1 fire at once, 2^32 + 5 waits 5 ms |
| `JsValue.ToJsString` | frontend/js_helpers.js:42 | the text `new Error(m)` keeps: "undefined", "null", "true" or "false" for those values, a string itself, a number its decimal notation, an object "[object Object]", an empty array "" |
| `JsValue.ElementText` | frontend/js_helpers.js:42 | an array element's text: "" for undefined and null, otherwise its `String` text |
| `JsValue.ArrayText` | frontend/js_helpers.js:42 | a non-empty array's text is its first element's text, then a comma and the rest's text when more elements follow |
| `JsValue.NestedArrayText` | frontend/js_helpers.js:42 | `String([1, null, "a", [true]])` is "1,,a,true" |
| `ApiClient.Classify` | frontend/js_helpers.js:40-47 | a non-ok response fails with `String` of the body's truthy `message`, else "HTTP Error: status" (also for an unparseable body), and a null body fails with a TypeError; 204 gives {}; other ok responses give the parsed body or a syntax error |
| `ApiClient.UnparseableErrorBody` | frontend/js_helpers.js:41-42 | an error response without JSON body fails with the generic message |
| `ApiClient.ServerMessageSurfaces` | frontend/js_helpers.js:40-43 | a 400 with message "bad input" fails with "bad input" |
| `ApiClient.GenericNotFound` | frontend/js_helpers.js:42 | a 404 without message fails with "HTTP Error: 404" |
| `ApiClient.NumericMessage` | frontend/js_helpers.js:42 | a numeric message 42 becomes the error text "42" |
| `ApiClient.NoContentIgnoresBody` | frontend/js_helpers.js:46 | a 204 gives {} whatever its body |
| `ApiClient.WrapperBodies` | frontend/js_helpers.js:54-57 | the config each wrapper hands to `fetch`: get and delete carry no body, post and put carry any truthy body, all with the caller's headers over the defaults |
| `ApiClient.OmittedArgumentsSendGet` | frontend/js_helpers.js:20-34 | `request(endpoint)` alone sends a GET with the two default headers and no body |
| `ApiClient.Client.Request` | frontend/js_helpers.js:20-52 | the result is the classification of the response to the prepared request, with method GET and no custom headers when they are left out; a rejected fetch is rethrown unchanged |
| `ApiClient.Client.Get` | frontend/js_helpers.js:54 | `get` is `request` with method GET and a null body |
| `ApiClient.Client.Post` | frontend/js_helpers.js:55 | `post` is `request` with method POST and the given body |
| `ApiClient.Client.Put` | frontend/js_helpers.js:56 | `put` is `request` with method PUT and the given body |
| `ApiClient.Client.Delete` | frontend/js_helpers.js:57 | `delete` is `request` with method DELETE and a null body |
| `Storage.Get` | frontend/js_helpers.js:64-72 | a missing or empty item, or one that does not parse, gives the default (null when left out); otherwise the parsed item |
| `Storage.Fallback` | frontend/js_helpers.js:64 | `defaultValue = null`: a default left out or passed as undefined is null, any other is kept |
| `Storage.Set` | frontend/js_helpers.js:74-80 | an accepted write stores the encoded value under the key; a refused write changes nothing; other keys never change |
| `Storage.Remove` | frontend/js_helpers.js:82-84 | the key is gone and every other key is unchanged |
| `Storage.SetThenGet` | frontend/js_helpers.js:64-80 | a value the codec round-trips reads back as stored |
| `Storage.SetUndefinedThenGet` | frontend/js_helpers.js:64-80 | storing undefined writes "undefined", which reads back as the default |
| `Storage.RemoveThenGet` | frontend/js_helpers.js:64-84 | after removal the default comes back, null when none is given |
| `Storage.OtherKeysUnaffected` | frontend/js_helpers.js:64-84 | writing or removing one key does not change what another key reads |
| `Debounce.Debouncer.constructor` | frontend/js_helpers.js:96-97 | the wait defaults to 300; nothing pending, nothing recorded |
| `Debounce.Debouncer.Call` | frontend/js_helpers.js:98-101 | the pending execution is replaced by one `Delay(wait)` after the call, carrying this call's arguments; nothing runs synchronously |
| `Debounce.Debouncer.AdvanceTo` | frontend/js_helpers.js:100 | a pending execution that falls due runs the target with its arguments; every run directly follows the call it delivers, exactly `Delay(wait)` later |
| `Throttle.RunsSpaced` | frontend/js_helpers.js:108-117 | in every reachable state no two runs of the target that returned normally are closer than `Delay(limit)` |
| `Throttle.Throttler.constructor` | frontend/js_helpers.js:108-109 | the limit defaults to 300; not in cooldown |
| `Throttle.Throttler.Call` | frontend/js_helpers.js:110-116 | outside cooldown the target runs now with these arguments; if it returns, a cooldown of the limit starts, if it throws, none starts; inside cooldown the call is dropped |
| `Throttle.Throttler.AdvanceTo` | frontend/js_helpers.js:114 | a cooldown that falls due ends; runs are unchanged |
| `Throttle.ReturnKeeps` | frontend/js_helpers.js:111-114 | a run that returns outside cooldown starts the cooldown and keeps every pair of returned runs a limit apart |
| `Throttle.ThrowKeeps` | frontend/js_helpers.js:111-112 | a run that throws leaves the cooldown off, and the next call runs the target again |
| `Pagination.PageRange` | react/components/ui/pagination.jsx:5-8 | the page list is [1..totalPages], empty below 1, page i+1 at position i |
| `Pagination.BuildPages` | react/components/ui/pagination.jsx:5-8 | the push loop builds exactly `PageRange(totalPages)` |
| `Pagination.Render` | react/components/ui/pagination.jsx:11-14 | one button per page, in order, highlighted iff its page equals the current page |
| `Pagination.ClickArgument` | react/components/ui/pagination.jsx:11-15 | a click hands `onPageChange` its own page number, which lies in [1, totalPages] |
| `Pagination.HighlightCount` | react/components/ui/pagination.jsx:11-14 | over strictly increasing pages, one button is highlighted if the current page is listed, none otherwise |
| `Pagination.ExactlyOneHighlighted` | react/components/ui/pagination.jsx:11-14 | exactly one button is highlighted when 1 <= currentPage <= totalPages, none otherwise |
| `Tabs.InitialActive` | react/components/ui/tabs.jsx:6 | the initial active label is the first tab's; a tab is required |
| `Tabs.Click` | react/components/ui/tabs.jsx:14 | a click makes that tab's label active |
| `Tabs.Highlights` | react/components/ui/tabs.jsx:13 | a button is highlighted iff its label is the active one |
| `Tabs.Visible` | react/components/ui/tabs.jsx:21-23 | a content is shown iff some tab with the active label carries it, and as many contents are shown as buttons are highlighted |
| `Tabs.VisibleNone` | react/components/ui/tabs.jsx:21-23 | no tab with the active label: nothing shown |
| `Tabs.VisibleUnique` | react/components/ui/tabs.jsx:21-23 | with unique labels, exactly the active tab's content is shown |
| `Tabs.OneHighlight` | react/components/ui/tabs.jsx:10-13 | with unique labels, exactly one button is highlighted |
| `Tabs.NoHighlight` | react/components/ui/tabs.jsx:10-13 | no tab with the active label: no button highlighted |
| `Tabs.FirstTabSelected` | react/components/ui/tabs.jsx:6-23 | on first render the first tab is highlighted; with unique labels its content alone is shown |
| `Tabs.ClickSelects` | react/components/ui/tabs.jsx:10-15 | after clicking a tab, it alone is highlighted and its content alone shown |
| `Theme.NextTheme` | react/hooks/useTheme.js:15 | light becomes dark and every other theme becomes light |
| `Theme.NextThemeTwice` | react/hooks/useTheme.js:14-18 | toggling twice restores the theme iff it is light or dark |
| `Theme.NextThemeIsBuiltIn` | react/hooks/useTheme.js:15 | after a toggle the theme is light or dark |
| `Theme.Themed.constructor` | react/hooks/useTheme.js:7 | the theme starts light |
| `Theme.Themed.Mount` | react/hooks/useTheme.js:8-13 | a present, non-empty stored theme replaces the current one; otherwise it stays |
| `Theme.Themed.ToggleTheme` | react/hooks/useTheme.js:14-18 | the theme always becomes the next theme; the stored "theme" equals it when the write is accepted, and the store is unchanged when `setItem` throws |

## Left out

- JSON text: `JSON.stringify` and `JSON.parse` are host functions. The
  request config carries the body value rather than its text, and storage
  takes the codec as a parameter.
- Floating point: numbers are integers. NaN, -0, fractional delays, page
  counts and GO_TO targets are not modelled.
- MultiStepForm.Reduce: a GO_TO target is an integer. A GO_TO with no payload
  passes both range tests of react/hooks_template.js:251 and stores undefined
  as the index; a numeric string passes them too and is stored as a string.
  Neither is modelled.
- The exposed raw setters (`setValues` of `useFormState`, `setState` of
  `useToggle`, `setLoading` of `useLoading`) take a value. Their functional
  updater form, `set(prev => ...)`, is not modelled.
- Reference identity: `===` and React's `Object.is` compare objects and arrays
  by identity. The model compares them structurally. This affects list ids,
  `useDebounce` dependencies and labels only when they are objects.
- Key order of plain objects is not modelled (maps are unordered). The step
  names of `useMultiStepForm` are given directly as the ordered result of
  `Object.keys(stepsConfig)`.
- Spreading a string or array payload into an object (index keys) is not
  modelled. Payloads and `data` are plain objects, and a missing one is the
  empty object. `useList` items are plain objects: the TypeError a null item
  raises in UPDATE or REMOVE is not modelled.
- MultiStepForm: a steps configuration that changes between renders is not
  modelled; the steps are fixed for the life of the hook.
- React scheduling is not modelled: batching of state updates, the reducer
  recomputed during render, closures from an older render (`toggleTheme`
  reading the rendered theme, `handleBlur` validating the rendered values) and
  Strict Mode double effects. Each event is applied to the latest state.
- Async interleaving inside `useAsync` beyond the event order is not
  modelled. `execute`'s returned promise is not modelled either.
  `AsyncStatus.OverlapLeavesStaleError` shows what overlapping executions do.
- The wrapper's `this` binding in `debounce` and `throttle` is not modelled,
  and neither are the host's nested-timer clamping and the order of timers
  due at the same instant.
- The host keeps `setTimeout` ids unique; the model trusts that and does not
  enforce it. Timers cancelled with the host are recorded, but the
  cancellation itself is in the host.
- `fetch` merges header names case-insensitively; the model keeps header names
  as given. Header values are strings.
- console logging in `request` and `storage` is not modelled. Neither is a
  `getItem` that throws, in `storage.get` or in the mount effect of
  `withTheme`: the model's store always answers. A `setItem` that throws is
  modelled, in `storage.set` and in `toggleTheme`.
- Exceptions leave the model as flags, not as control flow. A target that
  throws inside `throttle` is a `threw` argument of `Throttle.Throttler.Call`,
  and a refused write in `toggleTheme` is the `accepted` argument of
  `Theme.Themed.ToggleTheme`. Where the exception goes after that (to the
  wrapper's caller, to React's error handling) is not modelled.
- JsValue.ToJsString: an object's own `toString` is not modelled. Every object
  is written "[object Object]", as a plain parsed JSON object is.
- `handleSubmit`'s `e.preventDefault()` is a DOM call and is not modelled.
- A `useList`/`useMultiStepForm` dispatch with an unknown type is one
  `Unknown` action; the type string itself is not kept.
- `useFetch`, `useEventListener`, `useLocalStorage`, `useEffectOnce`,
  `useInView` and `useMediaQuery` wrap network and browser APIs (fetch, DOM
  events, localStorage, IntersectionObserver, matchMedia, effect lifecycle)
  and are not part of this model. The same holds for the presentational
  components, the Python scripts and the .NET scaffold, which have no logic of
  their own.
