# app-api-data store: a Dafny model

`src/stores/app-api-data.ts` is a Pinia store. It holds the API base URL and the flags and
items of the global UI: the confirmation dialog, the loading indicator (`autoSaveStatus`) and
the snackbar. Its actions fall into two groups:

- Request helpers. `getByQuery`, `getByQueryMulti`, `getByPath`, `postByBody`,
  `postByQueryMulti`, `putByBody`, `putByQueryMulti` and `deleteByQuery` each build a URL
  (and a body), raise the loading flag, send the request, and lower the flag again after a
  delay once the request settles.
- UI-state actions. `updateConfirm`, `updateAutoSaveStatus`, `updatesSnackbarStatus` and
  `prepareSnackbar` change the UI state. Some of them schedule later changes with `setTimeout`.

The model has these files:

- `values.dfy`: `Option`, a JSON value type, and opaque callback handles.
- `strings.dfy`: `Array.prototype.join` and its inverse, a splitter, with both round trips.
- `urls.dfy`: how every helper builds its URL and picks its body. Lemmas read the URL of
  every helper back into its parts and check the URLs the tests expect. The read-back needs
  the rendered items to be unambiguous: no key holds `&` or `=`, and no value holds `&`.
  The keyed multi-query forms also need at least one item with a key, and path segments
  must not contain `/`. Without these conditions the URL cannot be read back: a key `a&b`
  parses as two parameters.
- `timers.dfy`: the `setTimeout` queue made explicit, with these rules:
  - every timer fires at the current time plus its delay, where a negative delay counts as 0;
  - the queue fires the earliest timer first;
  - timers due at the same time fire in the order they were scheduled.
- `store_spec.dfy`: the store's state as a value (UI state plus clock). Every action is a
  function from the old state to the new one. `Run` advances time and fires every timer that
  falls due. Each request helper is a call that updates the state, takes an abstract HTTP
  outcome, and records the request it sent.
- `store.dfy`: the store as a class whose methods update its fields in place. Each method is
  proved to move the state exactly as the corresponding function in `store_spec.dfy` does:
  the action methods and the request methods as the function of the same name, `SetTimeout`
  as `After`, `FireNext` as `Fire`, and `FireDue`, `FireAllDue`, `MoveClock` and `Advance`
  as `Run`. Each method also says which snackbar item object the store refers to
  afterwards: the same one, except that `PrepareSnackbar` switches to the caller's object,
  and a hide, called directly or fired by a timer, drops it.
  `Advance(ms)` runs the timer loop. `SnackbarItem` is a class because `prepareSnackbar`
  writes the default timeout into the caller's own object and keeps a reference to it.
- `scenarios.dfy`: the behaviour the store's tests and comments describe, proved over
  `Run`. It covers the loading flag during a request, the last pending flag assignment
  winning, and a staged snackbar shown on close and hidden after its timeout plus 200 ms.

The base URL is a parameter of the initial state. Lines 42-45 give `'/production/'` on both
branches of the environment test; `ConfiguredBaseUrlIgnoresEnvironment` states this. The
store's unit test at `src/stores/__tests__/app-api-data.spec.ts:26` expects `'/devTest/'`,
the value the commented-out branch would give. The model follows the code and keeps the URL
a parameter, so the URL lemmas hold for any base.

The validation guard of the multi-query helpers (`jsonArray.length == 0 && !jsonArray.every(...)`)
can never be true, because `every` holds vacuously on an empty array. The spec functions keep
the guard as written. `Urls.GuardNeverRejects` and `StoreSpec.MultiQueryHelpersAlwaysSend` show
that it never fires. The class methods therefore send the request unconditionally.

## Model

| member | source | states |
|---|---|---|
| Strings.Join | src/stores/app-api-data.ts:146 | No contract; `Array.prototype.join`, described by Strings.JoinSplit and Strings.SplitJoin. Also used at lines 177, 241, 304 and 340. |
| Strings.Split | src/stores/app-api-data.ts:146-147 | The source never splits: this is the inverse of `join` that the read-back lemmas use. The pieces between separators: at least one piece, and no piece contains the separator. |
| Strings.JoinSplit | src/stores/app-api-data.ts:146-147 | Joining the split pieces with the separator gives back the original string. |
| Strings.SplitJoin | src/stores/app-api-data.ts:177-179 | A non-empty list of parts, none containing the separator, splits back into exactly those parts after `join`. |
| Urls.Show | src/stores/app-api-data.ts:146 | No contract; how a template literal renders a property that may be absent (`undefined`). Described by Urls.DeleteObjectVersusArray. |
| Urls.Endpoint | src/stores/app-api-data.ts:111 | No contract; base URL, `api/` and the path. Described by Urls.ExpectedSingleUrls and every read-back lemma. |
| Urls.Pair | src/stores/app-api-data.ts:146 | No contract; one `key=value` string, described by Urls.Pairs and Urls.QueryStringRoundTrip. |
| Urls.Pairs | src/stores/app-api-data.ts:146 | `map` renders one `key=value` string per item, in order, same length. |
| Urls.Keyed | src/stores/app-api-data.ts:241 | The `filter(item => 'key' in item)` keeps exactly the items that carry a key and never grows the list. |
| Urls.KeyedAppend | src/stores/app-api-data.ts:241 | Filtering distributes over concatenation, so the kept items stay in input order. |
| Urls.QueryString | src/stores/app-api-data.ts:146 | No contract; the pairs joined with `&`, described by Urls.QueryStringRoundTrip. |
| Urls.GetByQueryUrl | src/stores/app-api-data.ts:111 | No contract; described by Urls.SingleQueryRoundTrip and Urls.ExpectedSingleUrls. |
| Urls.GetByQueryMultiUrl | src/stores/app-api-data.ts:146-147 | No contract; described by Urls.QueryUrlRoundTrip and Urls.ExpectedMultiUrl. |
| Urls.KeyedQueryUrl | src/stores/app-api-data.ts:241-244 | No contract; also lines 304-307 and 340-341. Described by Urls.KeyedQueryUrlRoundTrip and Urls.ExpectedPostQuery. |
| Urls.GetByPathUrl | src/stores/app-api-data.ts:177-179 | No contract; described by Urls.PathUrlRoundTrip, Urls.EmptyPathHasTrailingSlash and Urls.ExpectedPathUrl. |
| Urls.FindBody | src/stores/app-api-data.ts:242-243 | A body is found iff some item has one, and it is the body of the first such item. |
| Urls.SelectBody | src/stores/app-api-data.ts:242-243 | No contract; the found body or `{}`, described by Urls.FindBody and Urls.ExpectedPostQuery. |
| Urls.DeleteUrl | src/stores/app-api-data.ts:336-344 | No contract; described by Urls.DeleteUrlRoundTrip and Urls.DeleteObjectVersusArray. |
| Urls.HasKeyAndValue | src/stores/app-api-data.ts:141 | No contract; the `every` callback, described by Urls.EveryHasKeyAndValue. |
| Urls.EveryHasKeyAndValue | src/stores/app-api-data.ts:141 | `every` is true iff every item has both `key` and `value`. |
| Urls.GuardRejects | src/stores/app-api-data.ts:141 | No contract; the guard as written (also lines 236 and 299), described by Urls.GuardNeverRejects. |
| Urls.GuardNeverRejects | src/stores/app-api-data.ts:141-144 | The length-zero guard of the multi-query helpers never rejects any array. |
| Urls.QueryStringRoundTrip | src/stores/app-api-data.ts:146 | A non-empty query string of items whose keys hold no `&` or `=` and whose values hold no `&` parses back into exactly their keys and values, in order. |
| Urls.QueryUrlRoundTrip | src/stores/app-api-data.ts:146-147 | The getByQueryMulti URL is the endpoint, `?`, and a query that parses back into the items. |
| Urls.PathUrlRoundTrip | src/stores/app-api-data.ts:177-179 | The getByPath URL is the endpoint, `/`, and a tail that splits back into the values when none contains `/`. |
| Urls.KeyedQueryUrlRoundTrip | src/stores/app-api-data.ts:241-244 | postByQueryMulti, putByQueryMulti (304-307) and the array form of deleteByQuery (340-341): with at least one keyed item and every keyed item unambiguous, the URL is the endpoint, `?`, and a query that parses back into exactly the keyed items, in order. Unkeyed items may hold anything. |
| Urls.DeleteUrlRoundTrip | src/stores/app-api-data.ts:336-344 | deleteByQuery: a string segment without `/` reads back as the one segment after `/`; an object reads back as its one pair after `?`; an array with a keyed item, whose keyed items are unambiguous, reads back as its keyed items after `?`. |
| Urls.SingleQueryRoundTrip | src/stores/app-api-data.ts:111 | An empty key gives the bare endpoint, whatever the value. A non-empty key without `&` or `=`, with a value without `&`, gives exactly one `key=value` pair after `?`. |
| Urls.EmptyPathHasTrailingSlash | src/stores/app-api-data.ts:177-179 | getByPath with an empty value list leaves a trailing `/`. |
| Urls.NoEscaping | src/stores/app-api-data.ts:111 | Values are not escaped: a value holding `&` gives the same URL as two separate query items. |
| Urls.DeleteObjectVersusArray | src/stores/app-api-data.ts:336-344 | deleteByQuery: a keyed object and a one-element array holding it give the same URL. Without a key, the object form renders `undefined=` and the array form drops the item. |
| Urls.ExpectedSingleUrls | src/stores/__tests__/app-api-data.spec.ts:90-144 | The getByQuery URLs, with and without a key, and the postByBody URL `api/test` the unit tests expect, for any base URL. |
| Urls.ExpectedPostBodyUrl | src/__tests__/integration/api-integration.spec.ts:107-124 | The postByBody URL `api/users` the integration test expects, for any base URL. |
| Urls.ExpectedQueryString | src/__tests__/integration/api-integration.spec.ts:74-90 | The two-parameter query string the integration test expects. |
| Urls.ExpectedMultiUrl | src/__tests__/integration/api-integration.spec.ts:74-90 | The full multi-query URL the integration test expects. |
| Urls.ExpectedPathUrl | src/__tests__/integration/api-integration.spec.ts:92-103 | The path URL `api/users/1/profile` the integration test expects. |
| Urls.ExpectedPostQuery | src/__tests__/integration/api-integration.spec.ts:126-142 | postByQueryMulti: the URL keeps only the keyed item, and the body is the body item's payload. |
| Timers.ScheduleDelay | src/stores/app-api-data.ts:79-81 | A negative delay schedules exactly the timer a delay of 0 does; any other delay makes the new timer due exactly `delay` ms from now. |
| Timers.Schedule | src/stores/app-api-data.ts:79-81 | `setTimeout` appends one timer due at now plus the clamped delay, with a fresh id. Time does not move, and the queue stays consistent. |
| Timers.Earliest | src/stores/app-api-data.ts:79-81 | The chosen timer has the minimum fire time, and every earlier-scheduled timer fires strictly later. |
| Timers.EarliestFiresFirst | src/stores/app-api-data.ts:79-81 | The earliest timer precedes every other pending timer in fire-time-then-scheduling order. |
| Timers.Without | src/stores/app-api-data.ts:79-81 | Removing a fired timer keeps every other timer in its order. |
| Timers.Pop | src/stores/app-api-data.ts:79-81 | Firing sets the time to the earliest timer's fire time and removes exactly that timer; the queue stays consistent. |
| Timers.NothingDue | src/stores/app-api-data.ts:79-81 | If the earliest timer is after the target time, then every timer is. |
| StoreSpec.ConfiguredBaseUrl | src/stores/app-api-data.ts:42-45 | No contract; the environment test as written, described by StoreSpec.ConfiguredBaseUrlIgnoresEnvironment. |
| StoreSpec.ConfiguredBaseUrlIgnoresEnvironment | src/stores/app-api-data.ts:42-45 | Both branches of the environment test give `/production/`. |
| StoreSpec.Initial | src/stores/app-api-data.ts:41-57 | The initial state keeps the given base URL and has no token. All flags are false, the item slots are empty, the time is 0, and no timer is pending. |
| StoreSpec.After | src/stores/app-api-data.ts:79-81 | A `setTimeout` leaves the UI unchanged and schedules exactly one timer. |
| StoreSpec.WeightAppend | src/stores/app-api-data.ts:79-81 | Not in the source: the weight is only `Run`'s termination measure for the timer queue. It is additive over concatenation. |
| StoreSpec.WeightWithout | src/stores/app-api-data.ts:79-81 | Not in the source: the weight is only `Run`'s termination measure. Removing one timer removes exactly its weight. |
| StoreSpec.UpdateConfirm | src/stores/app-api-data.ts:69-76 | The status is set. When it is true the item and callback are stored; when false both are cleared. Nothing else changes. |
| StoreSpec.CloseConfirmIgnoresArguments | src/stores/app-api-data.ts:73-75 | Closing the dialog gives the same state whatever item and callback are passed. |
| StoreSpec.Truthy | src/stores/app-api-data.ts:97 | No contract; JavaScript truthiness of a timeout (present and not 0), also line 102. Described by StoreSpec.WithDefaultTimeout and StoreSpec.UpdatesSnackbarStatus. |
| StoreSpec.HideDelay | src/stores/app-api-data.ts:97 | No contract; the hide delay as written, described by StoreSpec.UpdatesSnackbarStatus and Scenarios.CloseWithTimedSnackbar. |
| StoreSpec.UpdatesSnackbarStatus | src/stores/app-api-data.ts:88-99 | The status is set. False clears the item and schedules nothing. True keeps the item and schedules exactly one hide, after the item's timeout plus 200, or 200 without one. Nothing else changes. |
| StoreSpec.HideIdempotent | src/stores/app-api-data.ts:89-93 | Hiding the snackbar twice is the same as hiding it once. |
| StoreSpec.UpdateAutoSaveStatus | src/stores/app-api-data.ts:77-87 | The flag is not set now: an assignment is scheduled after the delay. Closing with a staged item also shows the snackbar, and nothing else changes. |
| StoreSpec.WithDefaultTimeout | src/stores/app-api-data.ts:101-103 | A falsy timeout (absent or 0) becomes 5000. A truthy one, and every other field, is kept. |
| StoreSpec.PrepareSnackbar | src/stores/app-api-data.ts:101-106 | Stages the item with its default timeout, shows nothing, and schedules nothing. |
| StoreSpec.PrepareIdempotent | src/stores/app-api-data.ts:101-106 | Preparing an already prepared item changes nothing more. |
| StoreSpec.Fire | src/stores/app-api-data.ts:79-97 | Firing the earliest timer moves time to its fire time and strictly lowers the queue's weight. What each callback then does is stated by Scenarios.FireAssign, Scenarios.FireHide and Scenarios.FireCloseLoading. |
| StoreSpec.Run | src/stores/app-api-data.ts:79-97 | Advancing to a target time ends at exactly that time, with no timer due at or before it. |
| StoreSpec.RunIdle | src/stores/app-api-data.ts:79-97 | With nothing due, advancing only moves the clock. |
| StoreSpec.RunTwice | src/stores/app-api-data.ts:79-97 | Advancing to t1 and then to t2 is the same as advancing straight to t2. |
| StoreSpec.OpenLoading | src/stores/app-api-data.ts:110 | With the start flag, one zero-delay "show loading" assignment is scheduled; without it nothing is. |
| StoreSpec.Settle | src/stores/app-api-data.ts:121-134 | Keeps the state valid; its result and queue are described by StoreSpec.Perform and StoreSpec.PerformSchedules. |
| StoreSpec.Perform | src/stores/app-api-data.ts:109-135 | A request leaves the UI unchanged at that instant and sends the given request. It returns the response data on success and nothing on failure. |
| StoreSpec.PerformSchedules | src/stores/app-api-data.ts:129-134 | After a request the queue holds, in order, the optional opening assignment and then the delayed close. |
| StoreSpec.GetByQuery | src/stores/app-api-data.ts:109-135 | No contract; described by StoreSpec.HelpersFollowPattern and Scenarios.LoadingFlagFollowsRequest. |
| StoreSpec.GetByQueryMulti | src/stores/app-api-data.ts:137-170 | No contract; described by StoreSpec.MultiQueryHelpersAlwaysSend. |
| StoreSpec.GetByPath | src/stores/app-api-data.ts:172-202 | No contract; described by StoreSpec.HelpersFollowPattern. |
| StoreSpec.PostByBody | src/stores/app-api-data.ts:204-230 | No contract; described by StoreSpec.HelpersFollowPattern. |
| StoreSpec.PostByQueryMulti | src/stores/app-api-data.ts:234-267 | No contract; described by StoreSpec.MultiQueryHelpersAlwaysSend. |
| StoreSpec.PutByBody | src/stores/app-api-data.ts:269-293 | No contract; described by StoreSpec.HelpersFollowPattern. |
| StoreSpec.PutByQueryMulti | src/stores/app-api-data.ts:297-330 | No contract; described by StoreSpec.MultiQueryHelpersAlwaysSend. |
| StoreSpec.DeleteByQuery | src/stores/app-api-data.ts:334-369 | No contract; described by StoreSpec.HelpersFollowPattern and Urls.DeleteUrlRoundTrip. |
| StoreSpec.HelpersFollowPattern | src/stores/app-api-data.ts:109-135 | getByQuery, getByPath, postByBody, putByBody and deleteByQuery each send their verb, URL and body through that one pattern. |
| StoreSpec.MultiQueryHelpersAlwaysSend | src/stores/app-api-data.ts:137-170 | getByQueryMulti, postByQueryMulti and putByQueryMulti send for every item array, with URL and body as built from it. |
| Store.SnackbarItem.constructor | src/stores/app-api-data.ts:5-8 | A snackbar item holds an optional timeout and its other fields. |
| Store.AppApiDataStore.constructor | src/stores/app-api-data.ts:41-57 | The new store is in the initial state for its base URL. |
| Store.AppApiDataStore.SetTimeout | src/stores/app-api-data.ts:79-81 | The store's queue changes exactly as `After` says, and the store keeps the same snackbar item object. |
| Store.AppApiDataStore.UpdateConfirm | src/stores/app-api-data.ts:69-76 | The fields change exactly as `StoreSpec.UpdateConfirm` says, and the store keeps the same snackbar item object. |
| Store.AppApiDataStore.UpdatesSnackbarStatus | src/stores/app-api-data.ts:88-99 | The hide delay is read from the stored item object, and the fields change exactly as `StoreSpec.UpdatesSnackbarStatus` says. `true` keeps the same item object; `false` drops the reference. |
| Store.AppApiDataStore.UpdateAutoSaveStatus | src/stores/app-api-data.ts:77-87 | The fields change exactly as `StoreSpec.UpdateAutoSaveStatus` says, and the store keeps the same snackbar item object. |
| Store.AppApiDataStore.PrepareSnackbar | src/stores/app-api-data.ts:101-106 | The caller's item object gets its default timeout in place. The store then refers to that same object, and its state moves as `StoreSpec.PrepareSnackbar` says. |
| Store.AppApiDataStore.FireNext | src/stores/app-api-data.ts:79-97 | Runs the earliest timer's callback on the fields, as `Fire` says. The snackbar item object is kept unless the callback is a hide, which drops it. |
| Store.AppApiDataStore.FireDue | src/stores/app-api-data.ts:79-97 | Firing a due timer keeps the outcome of running to the target and lowers the queue's weight. The snackbar item object is kept or dropped, never replaced. |
| Store.AppApiDataStore.Advance | src/stores/app-api-data.ts:79-97 | The clock moves ahead by `ms`, and the timer loop leaves the store in exactly the state `Run` gives for the new time. The snackbar item object is kept or dropped, never replaced. |
| Store.AppApiDataStore.FireAllDue | src/stores/app-api-data.ts:79-97 | The loop of Advance: fires callbacks until none is due by the target, never changing where running to the target ends. The snackbar item object is kept or dropped, never replaced. |
| Store.AppApiDataStore.MoveClock | src/stores/app-api-data.ts:79-97 | With nothing due, advancing only moves the clock, as `Run` says, and keeps the same snackbar item object. |
| Store.AppApiDataStore.Settle | src/stores/app-api-data.ts:121-134 | The response data on success, nothing on failure; the delayed close is scheduled either way, and the store keeps the same snackbar item object. |
| Store.AppApiDataStore.GetByQuery | src/stores/app-api-data.ts:109-135 | The request sent, the result and the new state are those of `StoreSpec.GetByQuery`. The store keeps the same snackbar item object. |
| Store.AppApiDataStore.GetByQueryMulti | src/stores/app-api-data.ts:137-170 | As `StoreSpec.GetByQueryMulti`; the dead guard is dropped because it can never fire. The store keeps the same snackbar item object. |
| Store.AppApiDataStore.GetByPath | src/stores/app-api-data.ts:172-202 | As `StoreSpec.GetByPath`. The store keeps the same snackbar item object. |
| Store.AppApiDataStore.PostByBody | src/stores/app-api-data.ts:204-230 | As `StoreSpec.PostByBody`. The store keeps the same snackbar item object. |
| Store.AppApiDataStore.PostByQueryMulti | src/stores/app-api-data.ts:234-267 | As `StoreSpec.PostByQueryMulti`, with the body of the first body item or `{}`. The store keeps the same snackbar item object. |
| Store.AppApiDataStore.PutByBody | src/stores/app-api-data.ts:269-293 | As `StoreSpec.PutByBody`. The store keeps the same snackbar item object. |
| Store.AppApiDataStore.PutByQueryMulti | src/stores/app-api-data.ts:297-330 | As `StoreSpec.PutByQueryMulti`. The store keeps the same snackbar item object. |
| Store.AppApiDataStore.DeleteByQuery | src/stores/app-api-data.ts:334-369 | As `StoreSpec.DeleteByQuery`, with the URL built from the shape of the query. The store keeps the same snackbar item object. |
| Scenarios.EarliestOfTwo | src/stores/app-api-data.ts:79-81 | Of two timers, the strictly earlier one fires first; on a tie the first scheduled fires first. |
| Scenarios.LoadingFlagFollowsRequest | src/__tests__/integration/api-integration.spec.ts:146-166 | From the initial store, a getByQuery with a 100 ms close keeps the loading flag up exactly until 100 ms, whatever the outcome. |
| Scenarios.FireClose | src/stores/app-api-data.ts:129-133 | A request's close with the end flag set, and no snackbar staged, changes no field now and queues the flag's drop at once. |
| Scenarios.RunSingleClose | src/stores/app-api-data.ts:129-133 | A pending close lowers the loading flag exactly at its fire time and changes nothing else. |
| Scenarios.LoadingWhileOpen | src/stores/app-api-data.ts:109-135 | With the open and the close of a request queued and no snackbar staged, the flag is up exactly until the close delay has passed. |
| Scenarios.FlagAssignedAfterDelay | src/stores/__tests__/app-api-data.spec.ts:79-86 | With nothing else pending and no snackbar staged, updateAutoSaveStatus(val, d) leaves the flag as it was for d ms and sets it to val from then on. |
| Scenarios.FireAssign | src/stores/app-api-data.ts:79-81 | A fired assignment sets only the loading flag. |
| Scenarios.TwoAssignments | src/stores/app-api-data.ts:77-81 | Two calls queue their two assignments in call order. |
| Scenarios.RunTwoAssignments | src/stores/app-api-data.ts:79-81 | Once both are due, the flag holds the value of the assignment that fires last. |
| Scenarios.RunSingleAssign | src/stores/app-api-data.ts:79-81 | A single due assignment sets the flag and nothing else. |
| Scenarios.LastAssignmentWins | src/stores/app-api-data.ts:77-81 | After show-after-d1 then hide-after-d2, the flag is up iff d2 < d1: a shorter close delay is overtaken. |
| Scenarios.FireHide | src/stores/app-api-data.ts:95-97 | A fired hide clears the status and the item. |
| Scenarios.FireCloseLoading | src/stores/app-api-data.ts:129-133 | A request's close callback: with the end flag it is exactly `updateAutoSaveStatus(false)` on the popped queue, which shows a staged snackbar; without it only the timer is removed. |
| Scenarios.CloseShowsStagedSnackbar | src/stores/app-api-data.ts:52 | Setup: a request's close (end flag set) is pending, a snackbar item is staged, and its hide delay is not negative. Before the close fires nothing changes. From then on the loading flag is down, and the snackbar is shown for exactly its hide delay, then hidden with its item dropped. Lines 83-85 and 129-133 are what this follows from. |
| Scenarios.PopSingle | src/stores/app-api-data.ts:79-81 | Firing the only pending timer picks it and leaves an empty queue at its fire time. |
| Scenarios.RunFiresDue | src/stores/app-api-data.ts:79-97 | When a timer is due by the target, running to the target first fires it. |
| Scenarios.FireSingleClose | src/stores/app-api-data.ts:129-133 | A request's only pending timer, its close with the end flag set, fires as `updateAutoSaveStatus(false)` on an empty queue at the close's fire time. |
| Scenarios.CloseWithStagedItem | src/stores/app-api-data.ts:83-97 | `updateAutoSaveStatus(false)`, with nothing pending and an item staged whose hide delay is not negative, shows the snackbar with the same item now. It queues the flag's drop at once, then the hide after the hide delay. |
| Scenarios.FireStagedClose | src/stores/app-api-data.ts:83-97 | A request's close with the end flag set, the only pending timer while an item is staged, leaves the snackbar shown with the same item at the close's fire time. It queues the flag's drop at once and the hide after the item's hide delay. |
| Scenarios.StagedCloseFiresFirst | src/stores/app-api-data.ts:129-133 | Running past the fire time of a request's close, the only pending timer, fires that close first. |
| Scenarios.ShownAfterStagedClose | src/stores/app-api-data.ts:52 | From the fire time of a request's close with the end flag set, with an item staged, the loading flag is down. The snackbar is shown exactly until the item's hide delay has passed, and from then on it is hidden with the item dropped. |
| Scenarios.CloseWithStagedSnackbar | src/stores/app-api-data.ts:83-85 | Closing with a staged item without a timeout shows the snackbar now. It queues the flag assignment, then the hide after 5000 + 200 ms. |
| Scenarios.CloseWithTimedSnackbar | src/stores/app-api-data.ts:83-97 | Closing with a staged item whose timeout T is truthy shows the snackbar now with the item as given. It queues the flag assignment, then the hide after T + 200 ms (at once when that is negative). |
| Scenarios.TimedSnackbarShownUntilHidden | src/stores/app-api-data.ts:77-106 | End to end, for a staged item with truthy timeout T where T + 200 is not negative: after the close the loading flag is down, and the snackbar is shown at a later instant iff fewer than T + 200 ms have passed. |
| Scenarios.RunSingleHide | src/stores/app-api-data.ts:95-97 | A pending hide takes effect exactly at its fire time. |
| Scenarios.AssignFirst | src/stores/app-api-data.ts:77-81 | A zero-delay flag assignment queued before any later timer fires first and sets only the flag. |
| Scenarios.SnackbarShownUntilHidden | src/stores/app-api-data.ts:88-97 | The snackbar stays shown, with its item, up to its hide delay and is gone from then on; the loading flag is down throughout. |
| Scenarios.StageThenClose | src/stores/app-api-data.ts:77-106 | On the store object: after prepareSnackbar(item) and updateAutoSaveStatus(false), the snackbar is shown, the store refers to the caller's own item object, and that object carries its default timeout. |

## Left out

- Axios itself, the `Content-Type` and `Authorization` headers, and `responseType` are left
  out. The request is only its verb, URL and body; the HTTP outcome is an input.
- `fetchCurrencyData` (lines 60-68) is left out. It only forwards an axios call and rethrows
  the error, and touches no store state.
- Console logging, `process.env.NODE_ENV` checks other than the base URL, and
  `globalFunctions.handErrorUtil` are left out: they are side effects that change no state.
- Real time and promise scheduling are left out. A request settles at the instant it is made,
  so the model does not cover timers firing while a response is awaited. The clock is explicit
  and advances only through `Advance` / `Run`.
- Browser clamping of very long timer delays above 2^31 - 1 ms is not modelled, and neither
  are fractional or non-numeric timeouts. Delays are integers; negative ones count as 0.
- The model does not distinguish `'key' in item` (which also sees prototype properties) from
  `hasOwnProperty`. Both are modelled as the presence of an own property.
- deleteByQuery with a query that is not a string, an array or an object leaves the URL
  empty. That fourth case is not modelled; `DeleteQuery` has only the three shapes. A `null`
  query passes the `typeof query === 'object'` test (line 342) and throws a `TypeError` at
  `query.key` (line 343), before the loading flag is raised; that path is not modelled either.
- `updateConfirm` keeps the caller's `confirmItem` object by reference (line 72). The model
  stores it as a JSON value, so later changes the caller makes to that object are not seen.
- The default arguments of the helpers (start and end true, timeout 200) and of
  `updateConfirm` are explicit parameters.
- Scenarios.SnackbarShownUntilHidden: it is stated for the queue shape that
  `Scenarios.CloseWithStagedSnackbar` and `Scenarios.CloseWithTimedSnackbar` prove a close
  produces. `Scenarios.TimedSnackbarShownUntilHidden` joins the two for a truthy timeout.
- The Vue components and router that call the store are not part of this model.
