/** The `appApiData` store as an object: its fields are updated in place by its
    actions, as in src/stores/app-api-data.ts. Each method is proved to move the
    store exactly as the corresponding function in module StoreSpec does: the
    actions and request helpers as the function of the same name, SetTimeout as
    After, FireNext as Fire, and FireDue, FireAllDue, MoveClock and Advance as Run.
    Every method also says which snackbar item object the store refers to afterwards:
    the same one, except that PrepareSnackbar switches to the caller's object, and a
    hide, called directly or fired by a timer, drops it. The properties of the store
    are proved about the StoreSpec functions. */
module Store {
  import opened Values
  import opened Timers
  import opened StoreSpec
  import Urls

  /** A snackbar item object. prepareSnackbar writes its `timeout` in place, and the
      store keeps a reference to the caller's object, not a copy. */
  class SnackbarItem {
    var timeout: Option<int>
    var fields: map<string, Json>

    constructor (timeout: Option<int>, fields: map<string, Json>)
      ensures this.timeout == timeout && this.fields == fields
    {
      this.timeout := timeout;
      this.fields := fields;
    }

    function Value(): Snackbar
      reads this
    {
      Snackbar(timeout, fields)
    }
  }

  class AppApiDataStore {
    var apiServerUrl: string
    var apiToken: Option<string>
    var confirmStatus: bool
    var confirmItem: Option<Json>
    var confirmFoo: Option<Callback>
    var autoSaveStatus: bool
    var snackbarItem: SnackbarItem?
    var snackbarStatus: bool
    /** The event loop's clock and pending `setTimeout` callbacks. */
    var clock: Clock<Action>

    /** The store's state as a value. */
    ghost function State(): StoreState
      reads this, snackbarItem
    {
      StoreState(UiState(), clock)
    }

    /** Every field but the clock, so that moving the clock leaves it untouched. */
    ghost function UiState(): Ui
      reads this`apiServerUrl, this`apiToken, this`confirmStatus, this`confirmItem, this`confirmFoo,
            this`autoSaveStatus, this`snackbarItem, this`snackbarStatus, snackbarItem
    {
      Ui(apiServerUrl, apiToken, confirmStatus, confirmItem, confirmFoo, autoSaveStatus,
         if snackbarItem == null then None else Some(snackbarItem.Value()), snackbarStatus)
    }

    /** The clock is consistent; this is all of StoreSpec.Valid(State()). */
    ghost predicate Valid()
      reads this
    {
      Consistent(clock)
    }

    /** `state()`, with the base URL as a parameter. */
    constructor (apiServerUrl: string)
      ensures Valid() && State() == Initial(apiServerUrl)
    {
      this.apiServerUrl := apiServerUrl;
      apiToken := None;
      confirmStatus := false;
      confirmItem := None;
      confirmFoo := None;
      autoSaveStatus := false;
      snackbarItem := null;
      snackbarStatus := false;
      clock := Start();
    }

    /** `setTimeout(action, delay)` */
    method SetTimeout(delay: int, action: Action)
      requires Valid()
      modifies this
      ensures snackbarItem == old(snackbarItem)
      ensures Valid() && State() == After(old(State()), delay, action)
    {
      clock := Schedule(clock, delay, action);
    }

    method UpdateConfirm(status: bool, item: Option<Json>, foo: Option<Callback>)
      requires Valid()
      modifies this
      ensures snackbarItem == old(snackbarItem)
      ensures Valid() && State() == StoreSpec.UpdateConfirm(old(State()), status, item, foo)
    {
      confirmStatus := status;
      if status {
        confirmItem, confirmFoo := item, foo;
      } else {
        confirmItem, confirmFoo := None, None;
      }
    }

    method UpdatesSnackbarStatus(val: bool)
      requires Valid()
      modifies this
      ensures val ==> snackbarItem == old(snackbarItem)
      ensures !val ==> snackbarItem == null
      ensures Valid() && State() == StoreSpec.UpdatesSnackbarStatus(old(State()), val)
    {
      ghost var s0 := State();
      snackbarStatus := val;
      if !val {
        snackbarItem := null;
        assert State() == s0.(ui := s0.ui.(snackbarStatus := false, snackbarItem := None));
      } else {
        var delay := if snackbarItem != null && Truthy(snackbarItem.timeout)
                     then snackbarItem.timeout.value + SnackbarHidePad
                     else SnackbarHidePad;
        assert delay == HideDelay(s0.ui.snackbarItem);
        ghost var shown := s0.(ui := s0.ui.(snackbarStatus := true));
        assert State() == shown;
        SetTimeout(delay, HideSnackbar);
        assert State() == After(shown, HideDelay(s0.ui.snackbarItem), HideSnackbar);
      }
    }

    method UpdateAutoSaveStatus(val: bool, timeout: int)
      requires Valid()
      modifies this
      ensures snackbarItem == old(snackbarItem)
      ensures Valid() && State() == StoreSpec.UpdateAutoSaveStatus(old(State()), val, timeout)
    {
      SetTimeout(timeout, AssignAutoSave(val));
      if !val && snackbarItem != null {
        UpdatesSnackbarStatus(true);
      }
    }

    /** Stages `item` after giving it the default timeout in place if its own is falsy. */
    method PrepareSnackbar(item: SnackbarItem)
      requires Valid()
      modifies this, item
      ensures snackbarItem == item
      ensures item.Value() == WithDefaultTimeout(old(item.Value()))
      ensures Valid() && State() == StoreSpec.PrepareSnackbar(old(State()), old(item.Value()))
    {
      if !Truthy(item.timeout) {
        item.timeout := Some(DefaultSnackbarTimeout);
      }
      snackbarItem := item;
    }

    /** Runs the next timer's callback. */
    method FireNext()
      requires Valid() && |clock.timers| > 0
      modifies this
      ensures snackbarItem == null || snackbarItem == old(snackbarItem)
      ensures old(clock.timers[Earliest(clock.timers)].action) != HideSnackbar ==> snackbarItem == old(snackbarItem)
      ensures Valid() && State() == Fire(old(State()))
    {
      ghost var s0 := State();
      var t := clock.timers[Earliest(clock.timers)];
      clock := Pop(clock);
      ghost var s1 := s0.(clock := clock);
      assert State() == s1;
      match t.action
      case AssignAutoSave(v) =>
        autoSaveStatus := v;
        assert State() == s1.(ui := s1.ui.(autoSaveStatus := v));
      case HideSnackbar =>
        UpdatesSnackbarStatus(false);
        assert State() == StoreSpec.UpdatesSnackbarStatus(s1, false);
      case CloseLoading(enabled) =>
        if enabled {
          UpdateAutoSaveStatus(false, 0);
          assert State() == StoreSpec.UpdateAutoSaveStatus(s1, false, 0);
        }
    }

    /** One step of Advance: runs the next timer, which is due by `target`. */
    method FireDue(target: nat)
      requires Valid() && clock.now <= target && Due(State(), target)
      modifies this
      ensures snackbarItem == null || snackbarItem == old(snackbarItem)
      ensures Valid() && clock.now <= target
      ensures Run(State(), target) == Run(old(State()), target)
      ensures Weight(clock.timers) < old(Weight(clock.timers))
    {
      FireNext();
    }

    /** Lets `ms` milliseconds pass, running every callback that falls due, in order. */
    method Advance(ms: nat)
      requires Valid()
      modifies this
      ensures snackbarItem == null || snackbarItem == old(snackbarItem)
      ensures Valid() && clock.now == old(clock.now) + ms && State() == Run(old(State()), clock.now)
    {
      var target := clock.now + ms;
      FireAllDue(target);
      MoveClock(target);
    }

    /** The loop of Advance: runs the due callbacks one by one until none is due by `target`. */
    method FireAllDue(target: nat)
      requires Valid() && clock.now <= target
      modifies this
      ensures snackbarItem == null || snackbarItem == old(snackbarItem)
      ensures Valid() && clock.now <= target && !Due(State(), target)
      ensures Run(State(), target) == Run(old(State()), target)
    {
      ghost var start := State();
      while |clock.timers| > 0 && clock.timers[Earliest(clock.timers)].fireAt <= target
        invariant Valid() && clock.now <= target
        invariant snackbarItem == null || snackbarItem == old(snackbarItem)
        invariant Run(State(), target) == Run(start, target)
        decreases Weight(clock.timers)
      {
        FireDue(target);
      }
    }

    /** The last step of Advance: nothing is due by `target`, so only the clock moves. */
    method MoveClock(target: nat)
      requires Valid() && clock.now <= target && !Due(State(), target)
      modifies this
      ensures snackbarItem == old(snackbarItem)
      ensures Valid() && State() == Run(old(State()), target)
    {
      ghost var idle := State();
      RunIdle(idle, target);
      clock := clock.(now := target);
      assert State() == idle.(clock := idle.clock.(now := target));
    }

    /** The tail every request helper shares: the close timer, then the data or `undefined`. */
    method Settle(outcome: Outcome, end: bool, timeout: int) returns (result: Option<Json>)
      requires Valid()
      modifies this
      ensures snackbarItem == old(snackbarItem)
      ensures Valid() && State() == After(old(State()), timeout, CloseLoading(end))
      ensures result == if outcome.Success? then Some(outcome.data) else None
    {
      SetTimeout(timeout, CloseLoading(end));
      result := if outcome.Success? then Some(outcome.data) else None;
    }

    method GetByQuery(path: string, key: string, value: string, start: bool, end: bool, timeout: int,
                      outcome: Outcome) returns (request: Request, result: Option<Json>)
      requires Valid()
      modifies this
      ensures snackbarItem == old(snackbarItem)
      ensures Valid()
      ensures StoreSpec.GetByQuery(old(State()), path, key, value, start, end, timeout, outcome)
           == Call(State(), Some(request), result)
    {
      if start {
        UpdateAutoSaveStatus(true, 0);
      }
      request := Request(Get, Urls.GetByQueryUrl(apiServerUrl, path, key, value), None);
      result := Settle(outcome, end, timeout);
    }

    method GetByQueryMulti(path: string, items: seq<Urls.Item>, start: bool, end: bool, timeout: int,
                           outcome: Outcome) returns (request: Request, result: Option<Json>)
      requires Valid()
      modifies this
      ensures snackbarItem == old(snackbarItem)
      ensures Valid()
      ensures StoreSpec.GetByQueryMulti(old(State()), path, items, start, end, timeout, outcome)
           == Call(State(), Some(request), result)
    {
      Urls.GuardNeverRejects(items);
      if start {
        UpdateAutoSaveStatus(true, 0);
      }
      request := Request(Get, Urls.GetByQueryMultiUrl(apiServerUrl, path, items), None);
      result := Settle(outcome, end, timeout);
    }

    method GetByPath(path: string, values: seq<string>, start: bool, end: bool, timeout: int,
                     outcome: Outcome) returns (request: Request, result: Option<Json>)
      requires Valid()
      modifies this
      ensures snackbarItem == old(snackbarItem)
      ensures Valid()
      ensures StoreSpec.GetByPath(old(State()), path, values, start, end, timeout, outcome)
           == Call(State(), Some(request), result)
    {
      if start {
        UpdateAutoSaveStatus(true, 0);
      }
      request := Request(Get, Urls.GetByPathUrl(apiServerUrl, path, values), None);
      result := Settle(outcome, end, timeout);
    }

    method PostByBody(path: string, payload: Json, start: bool, end: bool, timeout: int,
                      outcome: Outcome) returns (request: Request, result: Option<Json>)
      requires Valid()
      modifies this
      ensures snackbarItem == old(snackbarItem)
      ensures Valid()
      ensures StoreSpec.PostByBody(old(State()), path, payload, start, end, timeout, outcome)
           == Call(State(), Some(request), result)
    {
      if start {
        UpdateAutoSaveStatus(true, 0);
      }
      request := Request(Post, Urls.Endpoint(apiServerUrl, path), Some(payload));
      result := Settle(outcome, end, timeout);
    }

    method PostByQueryMulti(path: string, items: seq<Urls.Item>, start: bool, end: bool, timeout: int,
                            outcome: Outcome) returns (request: Request, result: Option<Json>)
      requires Valid()
      modifies this
      ensures snackbarItem == old(snackbarItem)
      ensures Valid()
      ensures StoreSpec.PostByQueryMulti(old(State()), path, items, start, end, timeout, outcome)
           == Call(State(), Some(request), result)
    {
      if start {
        UpdateAutoSaveStatus(true, 0);
      }
      Urls.GuardNeverRejects(items);
      request := Request(Post, Urls.KeyedQueryUrl(apiServerUrl, path, items), Some(Urls.SelectBody(items)));
      result := Settle(outcome, end, timeout);
    }

    method PutByBody(path: string, payload: Json, start: bool, end: bool, timeout: int,
                     outcome: Outcome) returns (request: Request, result: Option<Json>)
      requires Valid()
      modifies this
      ensures snackbarItem == old(snackbarItem)
      ensures Valid()
      ensures StoreSpec.PutByBody(old(State()), path, payload, start, end, timeout, outcome)
           == Call(State(), Some(request), result)
    {
      if start {
        UpdateAutoSaveStatus(true, 0);
      }
      request := Request(Put, Urls.Endpoint(apiServerUrl, path), Some(payload));
      result := Settle(outcome, end, timeout);
    }

    method PutByQueryMulti(path: string, items: seq<Urls.Item>, start: bool, end: bool, timeout: int,
                           outcome: Outcome) returns (request: Request, result: Option<Json>)
      requires Valid()
      modifies this
      ensures snackbarItem == old(snackbarItem)
      ensures Valid()
      ensures StoreSpec.PutByQueryMulti(old(State()), path, items, start, end, timeout, outcome)
           == Call(State(), Some(request), result)
    {
      if start {
        UpdateAutoSaveStatus(true, 0);
      }
      Urls.GuardNeverRejects(items);
      request := Request(Put, Urls.KeyedQueryUrl(apiServerUrl, path, items), Some(Urls.SelectBody(items)));
      result := Settle(outcome, end, timeout);
    }

    method DeleteByQuery(path: string, query: Urls.DeleteQuery, start: bool, end: bool, timeout: int,
                         outcome: Outcome) returns (request: Request, result: Option<Json>)
      requires Valid()
      modifies this
      ensures snackbarItem == old(snackbarItem)
      ensures Valid()
      ensures StoreSpec.DeleteByQuery(old(State()), path, query, start, end, timeout, outcome)
           == Call(State(), Some(request), result)
    {
      var url := Urls.DeleteUrl(apiServerUrl, path, query);
      if start {
        UpdateAutoSaveStatus(true, 0);
      }
      request := Request(Delete, url, None);
      result := Settle(outcome, end, timeout);
    }
  }
}
