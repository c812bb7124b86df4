/** The state of the `appApiData` store of src/stores/app-api-data.ts and its
    actions, as pure functions from the old state to the new one. The store's own
    fields form `Ui`; `setTimeout` is modelled by the explicit `Clock` of module
    Timers, and Run lets time pass, firing the due timers. */
module StoreSpec {
  import opened Values
  import opened Timers
  import Urls

  /** The callbacks the store hands to `setTimeout`. */
  datatype Action =
    | AssignAutoSave(val: bool)   // updateAutoSaveStatus: `this.autoSaveStatus = val`
    | HideSnackbar                // updatesSnackbarStatus(true): `this.updatesSnackbarStatus(false)`
    | CloseLoading(enabled: bool) // a request helper's `finally`: `if (autoSaveStatusEnd) this.updateAutoSaveStatus(false)`

  /** A snackbar item: its optional `timeout` and its other properties. */
  datatype Snackbar = Snackbar(timeout: Option<int>, fields: map<string, Json>)

  /** The fields of the store's `state()`. */
  datatype Ui = Ui(
    apiServerUrl: string,
    apiToken: Option<string>,
    confirmStatus: bool,
    confirmItem: Option<Json>,
    confirmFoo: Option<Callback>,
    autoSaveStatus: bool,          // the loading flag
    snackbarItem: Option<Snackbar>,
    snackbarStatus: bool)

  datatype StoreState = StoreState(ui: Ui, clock: Clock<Action>)

  /** The timeout a snackbar item gets when it has none. */
  const DefaultSnackbarTimeout: int := 5000
  /** The pad added to a snackbar's timeout before it is hidden. */
  const SnackbarHidePad: int := 200

  /** The base URL the store computes: `'/production/'` on both branches of its
      environment test. The model takes the base URL as a parameter instead. */
  function ConfiguredBaseUrl(production: bool): string
  {
    if production then "/production/" else "/production/"
  }

  lemma ConfiguredBaseUrlIgnoresEnvironment(production: bool)
    ensures ConfiguredBaseUrl(production) == "/production/"
  {
  }

  /** The store as `state()` creates it, for a given base URL, at time 0 with no timers. */
  function Initial(apiServerUrl: string): (s: StoreState)
    ensures Valid(s) && s.ui.apiServerUrl == apiServerUrl && s.ui.apiToken.None?
    ensures !s.ui.confirmStatus && !s.ui.autoSaveStatus && !s.ui.snackbarStatus
    ensures s.ui.confirmItem.None? && s.ui.confirmFoo.None? && s.ui.snackbarItem.None?
    ensures s.clock.now == 0 && s.clock.timers == []
  {
    StoreState(Ui(apiServerUrl, None, false, None, None, false, None, false), Start())
  }

  predicate Valid(s: StoreState)
  {
    Consistent(s.clock)
  }

  /** JavaScript truthiness of an optional number: unset and 0 are falsy. */
  predicate Truthy(timeout: Option<int>)
  {
    timeout.Some? && timeout.value != 0
  }

  // ---------------------------------------------------------------------------
  // Termination measure: firing a timer schedules fewer than its weight of new ones.

  function ActionWeight(a: Action): nat
  {
    match a
    case CloseLoading(true) => 3
    case _ => 1
  }

  function Weight(ts: seq<Timer<Action>>): nat
  {
    if |ts| == 0 then 0 else ActionWeight(ts[0].action) + Weight(ts[1..])
  }

  lemma {:induction false} WeightAppend(a: seq<Timer<Action>>, b: seq<Timer<Action>>)
    ensures Weight(a + b) == Weight(a) + Weight(b)
    decreases |a|
  {
    if |a| == 0 {
      assert a + b == b;
    } else {
      assert (a + b)[1..] == a[1..] + b;
      WeightAppend(a[1..], b);
    }
  }

  lemma {:induction false} WeightWithout(ts: seq<Timer<Action>>, k: nat)
    requires k < |ts|
    ensures Weight(ts) == Weight(Without(ts, k)) + ActionWeight(ts[k].action)
    decreases k
  {
    var rest := Without(ts, k);
    if k == 0 {
      assert rest == ts[1..];
    } else {
      var tail := Without(ts[1..], k - 1);
      WeightWithout(ts[1..], k - 1);
      assert rest == [ts[0]] + tail;
      assert rest[0] == ts[0] && rest[1..] == tail;
    }
  }

  /** `setTimeout` from inside the store. */
  function After(s: StoreState, delay: int, action: Action): (r: StoreState)
    requires Valid(s)
    ensures Valid(r) && r.ui == s.ui
    ensures r.clock == Schedule(s.clock, delay, action)
    ensures Weight(r.clock.timers) == Weight(s.clock.timers) + ActionWeight(action)
  {
    WeightAppend(s.clock.timers, [Timer(s.clock.now + ClampDelay(delay), s.clock.nextId, action)]);
    s.(clock := Schedule(s.clock, delay, action))
  }

  // ---------------------------------------------------------------------------
  // Actions

  /** updateConfirm: the status is stored; on `true` the item and callback are
      stored too, on `false` both are cleared whatever was passed. */
  function UpdateConfirm(s: StoreState, status: bool, item: Option<Json>, foo: Option<Callback>): (r: StoreState)
    requires Valid(s)
    ensures Valid(r) && r.clock == s.clock
    ensures r.ui.confirmStatus == status
    ensures status ==> r.ui.confirmItem == item && r.ui.confirmFoo == foo
    ensures !status ==> r.ui.confirmItem.None? && r.ui.confirmFoo.None?
    ensures r.ui.(confirmStatus := s.ui.confirmStatus, confirmItem := s.ui.confirmItem,
                  confirmFoo := s.ui.confirmFoo) == s.ui
  {
    if status then s.(ui := s.ui.(confirmStatus := true, confirmItem := item, confirmFoo := foo))
    else s.(ui := s.ui.(confirmStatus := false, confirmItem := None, confirmFoo := None))
  }

  /** Closing the dialog ignores the item and callback it is given. */
  lemma CloseConfirmIgnoresArguments(s: StoreState, i1: Option<Json>, f1: Option<Callback>,
                                     i2: Option<Json>, f2: Option<Callback>)
    requires Valid(s)
    ensures UpdateConfirm(s, false, i1, f1) == UpdateConfirm(s, false, i2, f2)
  {
  }

  /** The delay of the hide timer raised by `updatesSnackbarStatus(true)`:
      the item's timeout plus 200 when the item and its timeout are truthy, else 200. */
  function HideDelay(item: Option<Snackbar>): int
  {
    if item.Some? && Truthy(item.value.timeout) then item.value.timeout.value + SnackbarHidePad
    else SnackbarHidePad
  }

  /** updatesSnackbarStatus: `false` hides the snackbar and drops its item;
      `true` shows it and schedules exactly one hide. */
  function UpdatesSnackbarStatus(s: StoreState, val: bool): (r: StoreState)
    requires Valid(s)
    ensures Valid(r)
    ensures r.ui.snackbarStatus == val
    ensures !val ==> r.ui.snackbarItem.None? && r.clock == s.clock
    ensures val ==> r.ui.snackbarItem == s.ui.snackbarItem
    ensures val ==> r.clock == Schedule(s.clock, HideDelay(s.ui.snackbarItem), HideSnackbar)
    ensures Weight(r.clock.timers) == Weight(s.clock.timers) + (if val then 1 else 0)
    ensures r.ui.(snackbarStatus := s.ui.snackbarStatus, snackbarItem := s.ui.snackbarItem) == s.ui
  {
    if !val then s.(ui := s.ui.(snackbarStatus := false, snackbarItem := None))
    else After(s.(ui := s.ui.(snackbarStatus := true)), HideDelay(s.ui.snackbarItem), HideSnackbar)
  }

  /** Hiding twice is the same as hiding once. */
  lemma HideIdempotent(s: StoreState)
    requires Valid(s)
    ensures UpdatesSnackbarStatus(UpdatesSnackbarStatus(s, false), false) == UpdatesSnackbarStatus(s, false)
  {
  }

  /** updateAutoSaveStatus: the loading flag is not touched now; its assignment is
      scheduled `timeout` ms ahead. Lowering the flag while a snackbar item is
      staged shows the snackbar immediately, at call time. */
  function UpdateAutoSaveStatus(s: StoreState, val: bool, timeout: int): (r: StoreState)
    requires Valid(s)
    ensures Valid(r)
    ensures r.ui.autoSaveStatus == s.ui.autoSaveStatus
    ensures r.ui.snackbarItem == s.ui.snackbarItem
    ensures !val && s.ui.snackbarItem.Some? ==>
      r.ui.snackbarStatus &&
      r.clock == Schedule(Schedule(s.clock, timeout, AssignAutoSave(val)), HideDelay(s.ui.snackbarItem), HideSnackbar)
    ensures !(!val && s.ui.snackbarItem.Some?) ==>
      r.ui == s.ui && r.clock == Schedule(s.clock, timeout, AssignAutoSave(val))
    ensures Weight(r.clock.timers) == Weight(s.clock.timers) + (if !val && s.ui.snackbarItem.Some? then 2 else 1)
    ensures r.ui.(snackbarStatus := s.ui.snackbarStatus) == s.ui
  {
    var s1 := After(s, timeout, AssignAutoSave(val));
    if !val && s.ui.snackbarItem.Some? then UpdatesSnackbarStatus(s1, true) else s1
  }

  /** prepareSnackbar's treatment of the item: a falsy timeout becomes 5000,
      a truthy one is kept, and the other properties are untouched. */
  function WithDefaultTimeout(item: Snackbar): (p: Snackbar)
    ensures Truthy(p.timeout)
    ensures Truthy(item.timeout) ==> p == item
    ensures !Truthy(item.timeout) ==> p.timeout == Some(DefaultSnackbarTimeout)
    ensures p.fields == item.fields
  {
    if Truthy(item.timeout) then item else item.(timeout := Some(DefaultSnackbarTimeout))
  }

  /** prepareSnackbar: stages the item, its timeout defaulted, without showing it. */
  function PrepareSnackbar(s: StoreState, item: Snackbar): (r: StoreState)
    requires Valid(s)
    ensures Valid(r) && r.clock == s.clock
    ensures r.ui.snackbarItem == Some(WithDefaultTimeout(item))
    ensures r.ui.(snackbarItem := s.ui.snackbarItem) == s.ui
  {
    s.(ui := s.ui.(snackbarItem := Some(WithDefaultTimeout(item))))
  }

  /** Preparing an already prepared item again changes nothing. */
  lemma PrepareIdempotent(s: StoreState, item: Snackbar)
    requires Valid(s)
    ensures PrepareSnackbar(PrepareSnackbar(s, item), WithDefaultTimeout(item)) == PrepareSnackbar(s, item)
  {
  }

  // ---------------------------------------------------------------------------
  // The passing of time

  /** The timer that fires next, if it is due by `target`. */
  predicate Due(s: StoreState, target: nat)
    requires Valid(s)
  {
    |s.clock.timers| > 0 && s.clock.timers[Earliest(s.clock.timers)].fireAt <= target
  }

  /** Fires the next timer: the clock moves to its fire time and its callback runs. */
  function Fire(s: StoreState): (r: StoreState)
    requires Valid(s) && |s.clock.timers| > 0
    ensures Valid(r)
    ensures r.clock.now == s.clock.timers[Earliest(s.clock.timers)].fireAt
    ensures Weight(r.clock.timers) < Weight(s.clock.timers)
  {
    var t := s.clock.timers[Earliest(s.clock.timers)];
    WeightWithout(s.clock.timers, Earliest(s.clock.timers));
    var s1 := s.(clock := Pop(s.clock));
    match t.action
    case AssignAutoSave(v) => s1.(ui := s1.ui.(autoSaveStatus := v))
    case HideSnackbar => UpdatesSnackbarStatus(s1, false)
    case CloseLoading(enabled) => if enabled then UpdateAutoSaveStatus(s1, false, 0) else s1
  }

  /** Lets the clock run to `target`, firing in order every timer due by then,
      including the timers the fired callbacks schedule. */
  function Run(s: StoreState, target: nat): (r: StoreState)
    requires Valid(s) && s.clock.now <= target
    ensures Valid(r)
    ensures r.clock.now == target
    ensures forall i :: 0 <= i < |r.clock.timers| ==> r.clock.timers[i].fireAt > target
    decreases Weight(s.clock.timers)
  {
    if Due(s, target) then Run(Fire(s), target)
    else
      assert |s.clock.timers| > 0 ==> forall i :: 0 <= i < |s.clock.timers| ==> s.clock.timers[i].fireAt > target by {
        if |s.clock.timers| > 0 { NothingDue(s.clock, target); }
      }
      s.(clock := s.clock.(now := target))
  }

  /** With nothing due, running the clock only moves it. */
  lemma RunIdle(s: StoreState, target: nat)
    requires Valid(s) && s.clock.now <= target
    requires !Due(s, target)
    ensures Run(s, target) == s.(clock := s.clock.(now := target))
  {
  }

  /** Running to one time and then to a later one is running to the later one. */
  lemma {:induction false} RunTwice(s: StoreState, t1: nat, t2: nat)
    requires Valid(s) && s.clock.now <= t1 <= t2
    ensures Run(Run(s, t1), t2) == Run(s, t2)
    decreases Weight(s.clock.timers)
  {
    if Due(s, t1) {
      RunTwice(Fire(s), t1, t2);
    } else {
      var s1 := s.(clock := s.clock.(now := t1));
      assert Run(s, t1) == s1;
      if Due(s, t2) {
        assert Fire(s1) == Fire(s);
      }
    }
  }

  // ---------------------------------------------------------------------------
  // The request helpers

  datatype Verb = Get | Post | Put | Delete

  /** What a helper hands to the HTTP client. */
  datatype Request = Request(verb: Verb, url: string, body: Option<Json>)

  /** How the HTTP call settles: the environment decides. */
  datatype Outcome = Success(data: Json) | Failure

  /** The store after a helper, the request it sent (none if it returned early),
      and what it resolved with (`None` is `undefined`). */
  datatype Call = Call(state: StoreState, sent: Option<Request>, result: Option<Json>)

  /** `if (autoSaveStatusStart) this.updateAutoSaveStatus(true)` */
  function OpenLoading(s: StoreState, start: bool): (r: StoreState)
    requires Valid(s)
    ensures Valid(r) && r.ui == s.ui
    ensures r.clock == if start then Schedule(s.clock, 0, AssignAutoSave(true)) else s.clock
  {
    if start then UpdateAutoSaveStatus(s, true, 0) else s
  }

  /** `.then(r => r.data).catch(log).finally(() => setTimeout(close, timeout))`:
      the data on success, `undefined` on a swallowed failure, and in both cases
      one close timer. */
  function Settle(s: StoreState, request: Request, outcome: Outcome, end: bool, timeout: int): (c: Call)
    requires Valid(s)
    ensures Valid(c.state)
  {
    Call(After(s, timeout, CloseLoading(end)), Some(request),
         if outcome.Success? then Some(outcome.data) else None)
  }

  /** The pattern every request helper follows, on success and on failure alike:
      the request is sent, the data comes back on success and `undefined` on a
      failure (nothing is rethrown), and none of the store's own fields changes
      at once. PerformSchedules says what it leaves for later. */
  function Perform(s: StoreState, start: bool, request: Request, outcome: Outcome, end: bool, timeout: int): (c: Call)
    requires Valid(s)
    ensures Valid(c.state) && c.state.ui == s.ui
    ensures c.sent == Some(request)
    ensures outcome.Success? ==> c.result == Some(outcome.data)
    ensures outcome.Failure? ==> c.result.None?
  {
    Settle(OpenLoading(s, start), request, outcome, end, timeout)
  }

  /** What a request helper leaves on the timer queue: the loading flag's rise at
      once when `start` is set, then one close after `timeout` ms, whatever the
      outcome and whether or not `end` is set. */
  lemma PerformSchedules(s: StoreState, start: bool, request: Request, outcome: Outcome, end: bool, timeout: int)
    requires Valid(s)
    ensures var c := Perform(s, start, request, outcome, end, timeout);
      var n := s.clock.nextId;
      && c.state.clock.now == s.clock.now
      && c.state.clock.nextId == n + (if start then 2 else 1)
      && c.state.clock.timers == s.clock.timers
         + (if start then [Timer(s.clock.now, n, AssignAutoSave(true))] else [])
         + [Timer(s.clock.now + ClampDelay(timeout), if start then n + 1 else n, CloseLoading(end))]
  {
    if !start {
      assert s.clock.timers + [] == s.clock.timers;
    }
  }

  function GetByQuery(s: StoreState, path: string, key: string, value: string,
                      start: bool, end: bool, timeout: int, outcome: Outcome): Call
    requires Valid(s)
  {
    var s1 := OpenLoading(s, start);
    Settle(s1, Request(Get, Urls.GetByQueryUrl(s.ui.apiServerUrl, path, key, value), None), outcome, end, timeout)
  }

  /** The guard comes before the loading flag is raised. */
  function GetByQueryMulti(s: StoreState, path: string, items: seq<Urls.Item>,
                           start: bool, end: bool, timeout: int, outcome: Outcome): Call
    requires Valid(s)
  {
    if Urls.GuardRejects(items) then Call(s, None, None)
    else
      var s1 := OpenLoading(s, start);
      Settle(s1, Request(Get, Urls.GetByQueryMultiUrl(s.ui.apiServerUrl, path, items), None), outcome, end, timeout)
  }

  function GetByPath(s: StoreState, path: string, values: seq<string>,
                     start: bool, end: bool, timeout: int, outcome: Outcome): Call
    requires Valid(s)
  {
    var s1 := OpenLoading(s, start);
    Settle(s1, Request(Get, Urls.GetByPathUrl(s.ui.apiServerUrl, path, values), None), outcome, end, timeout)
  }

  function PostByBody(s: StoreState, path: string, payload: Json,
                      start: bool, end: bool, timeout: int, outcome: Outcome): Call
    requires Valid(s)
  {
    var s1 := OpenLoading(s, start);
    Settle(s1, Request(Post, Urls.Endpoint(s.ui.apiServerUrl, path), Some(payload)), outcome, end, timeout)
  }

  /** The guard comes after the loading flag is raised. */
  function PostByQueryMulti(s: StoreState, path: string, items: seq<Urls.Item>,
                            start: bool, end: bool, timeout: int, outcome: Outcome): Call
    requires Valid(s)
  {
    var s1 := OpenLoading(s, start);
    if Urls.GuardRejects(items) then Call(s1, None, None)
    else
      Settle(s1, Request(Post, Urls.KeyedQueryUrl(s.ui.apiServerUrl, path, items), Some(Urls.SelectBody(items))),
             outcome, end, timeout)
  }

  function PutByBody(s: StoreState, path: string, payload: Json,
                     start: bool, end: bool, timeout: int, outcome: Outcome): Call
    requires Valid(s)
  {
    var s1 := OpenLoading(s, start);
    Settle(s1, Request(Put, Urls.Endpoint(s.ui.apiServerUrl, path), Some(payload)), outcome, end, timeout)
  }

  /** The guard comes after the loading flag is raised. */
  function PutByQueryMulti(s: StoreState, path: string, items: seq<Urls.Item>,
                           start: bool, end: bool, timeout: int, outcome: Outcome): Call
    requires Valid(s)
  {
    var s1 := OpenLoading(s, start);
    if Urls.GuardRejects(items) then Call(s1, None, None)
    else
      Settle(s1, Request(Put, Urls.KeyedQueryUrl(s.ui.apiServerUrl, path, items), Some(Urls.SelectBody(items))),
             outcome, end, timeout)
  }

  /** The URL is chosen before the loading flag is raised, which the state does not show. */
  function DeleteByQuery(s: StoreState, path: string, query: Urls.DeleteQuery,
                         start: bool, end: bool, timeout: int, outcome: Outcome): Call
    requires Valid(s)
  {
    var s1 := OpenLoading(s, start);
    Settle(s1, Request(Delete, Urls.DeleteUrl(s.ui.apiServerUrl, path, query), None), outcome, end, timeout)
  }

  /** Each single-request helper follows the common pattern with its own verb, URL and body. */
  lemma HelpersFollowPattern(s: StoreState, path: string, key: string, value: string, values: seq<string>,
                             payload: Json, query: Urls.DeleteQuery,
                             start: bool, end: bool, timeout: int, outcome: Outcome)
    requires Valid(s)
    ensures GetByQuery(s, path, key, value, start, end, timeout, outcome)
         == Perform(s, start, Request(Get, Urls.GetByQueryUrl(s.ui.apiServerUrl, path, key, value), None), outcome, end, timeout)
    ensures GetByPath(s, path, values, start, end, timeout, outcome)
         == Perform(s, start, Request(Get, Urls.GetByPathUrl(s.ui.apiServerUrl, path, values), None), outcome, end, timeout)
    ensures PostByBody(s, path, payload, start, end, timeout, outcome)
         == Perform(s, start, Request(Post, Urls.Endpoint(s.ui.apiServerUrl, path), Some(payload)), outcome, end, timeout)
    ensures PutByBody(s, path, payload, start, end, timeout, outcome)
         == Perform(s, start, Request(Put, Urls.Endpoint(s.ui.apiServerUrl, path), Some(payload)), outcome, end, timeout)
    ensures DeleteByQuery(s, path, query, start, end, timeout, outcome)
         == Perform(s, start, Request(Delete, Urls.DeleteUrl(s.ui.apiServerUrl, path, query), None), outcome, end, timeout)
  {
  }

  /** Because the validation guard never fires, each multi-query helper always
      sends its request and follows the common pattern. */
  lemma MultiQueryHelpersAlwaysSend(s: StoreState, path: string, items: seq<Urls.Item>,
                                    start: bool, end: bool, timeout: int, outcome: Outcome)
    requires Valid(s)
    ensures GetByQueryMulti(s, path, items, start, end, timeout, outcome)
         == Perform(s, start, Request(Get, Urls.GetByQueryMultiUrl(s.ui.apiServerUrl, path, items), None),
                    outcome, end, timeout)
    ensures PostByQueryMulti(s, path, items, start, end, timeout, outcome)
         == Perform(s, start, Request(Post, Urls.KeyedQueryUrl(s.ui.apiServerUrl, path, items), Some(Urls.SelectBody(items))),
                    outcome, end, timeout)
    ensures PutByQueryMulti(s, path, items, start, end, timeout, outcome)
         == Perform(s, start, Request(Put, Urls.KeyedQueryUrl(s.ui.apiServerUrl, path, items), Some(Urls.SelectBody(items))),
                    outcome, end, timeout)
  {
    Urls.GuardNeverRejects(items);
  }
}
