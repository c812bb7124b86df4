/** Timelines of the store: what its flags read as time passes after a sequence of
    actions. These follow the behaviours the store's tests describe
    (src/__tests__/integration/api-integration.spec.ts, "Loading State Management";
    src/stores/__tests__/app-api-data.spec.ts, "updateAutoSaveStatus") and the
    snackbar hand-off of updateAutoSaveStatus. */
module Scenarios {
  import opened Values
  import opened Timers
  import opened StoreSpec
  import Urls
  import Store

  /** A queue of two timers fires the earlier one first, the first scheduled on a tie. */
  lemma EarliestOfTwo<A>(ts: seq<Timer<A>>)
    requires |ts| == 2
    ensures Earliest(ts) == if ts[1].fireAt < ts[0].fireAt then 1 else 0
    ensures Without(ts, 0) == [ts[1]] && Without(ts, 1) == [ts[0]]
  {
  }

  /** The close of a request with the end flag set, with no snackbar staged:
      it schedules the flag's drop at once and changes nothing else. */
  lemma FireClose(s: StoreState, fireAt: nat, id: nat)
    requires Valid(s) && s.ui.snackbarItem.None?
    requires s.clock.timers == [Timer(fireAt, id, CloseLoading(true))]
    ensures Fire(s) == StoreState(s.ui, Clock(fireAt, s.clock.nextId + 1, [Timer(fireAt, s.clock.nextId, AssignAutoSave(false))]))
  {
  }

  /** A pending close lowers the flag exactly at its fire time. */
  lemma RunSingleClose(r: StoreState, fireAt: nat, id: nat, target: nat)
    requires Valid(r) && r.ui.snackbarItem.None? && r.clock.now <= target
    requires r.clock.timers == [Timer(fireAt, id, CloseLoading(true))]
    ensures target < fireAt ==> Run(r, target).ui == r.ui
    ensures target >= fireAt ==> Run(r, target).ui == r.ui.(autoSaveStatus := false)
  {
    if target < fireAt {
      RunIdle(r, target);
    } else {
      FireClose(r, fireAt, id);
      var r1 := StoreState(r.ui, Clock(fireAt, r.clock.nextId + 1, [Timer(fireAt, r.clock.nextId, AssignAutoSave(false))]));
      assert Run(r, target) == Run(r1, target);
      FireAssign(r1, false);
      var r2 := StoreState(r.ui.(autoSaveStatus := false), Clock(fireAt, r.clock.nextId + 1, []));
      assert Run(r1, target) == Run(r2, target);
      RunIdle(r2, target);
    }
  }

  /** In a queue of a flag assignment due now and any other timer due no earlier,
      the assignment runs first. */
  lemma AssignFirst(r: StoreState, v: bool, id: nat, delay: nat, next: Action, target: nat)
    requires Valid(r) && r.clock.now <= target
    requires r.clock.timers == [Timer(r.clock.now, id, AssignAutoSave(v)), Timer(r.clock.now + delay, id + 1, next)]
    ensures var r1 := StoreState(r.ui.(autoSaveStatus := v),
                                 Clock(r.clock.now, r.clock.nextId, [Timer(r.clock.now + delay, id + 1, next)]));
      Valid(r1) && Run(r, target) == Run(r1, target)
  {
    EarliestOfTwo(r.clock.timers);
    FireAssign(r, v);
  }

  /** A request's queue: the loading flag is raised now and closed after `d` ms.
      With no snackbar staged, the flag is up exactly until the close fires. */
  lemma LoadingWhileOpen(r: StoreState, id: nat, d: nat, t: nat)
    requires Valid(r) && r.ui.snackbarItem.None? && r.clock.now <= t
    requires r.clock.timers == [Timer(r.clock.now, id, AssignAutoSave(true)), Timer(r.clock.now + d, id + 1, CloseLoading(true))]
    ensures Run(r, t).ui.autoSaveStatus <==> t < r.clock.now + d
  {
    AssignFirst(r, true, id, d, CloseLoading(true), t);
    RunSingleClose(StoreState(r.ui.(autoSaveStatus := true),
                              Clock(r.clock.now, r.clock.nextId, [Timer(r.clock.now + d, id + 1, CloseLoading(true))])),
                   r.clock.now + d, id + 1, t);
  }

  /** `getByQuery('test', 'key', 'value', true, true, 100)` on a fresh store, whatever
      the response: the loading flag is up from the start until exactly 100 ms,
      and down from then on. */
  lemma LoadingFlagFollowsRequest(url: string, outcome: Outcome, t: nat)
    ensures var s := GetByQuery(Initial(url), "test", "key", "value", true, true, 100, outcome).state;
      Run(s, t).ui.autoSaveStatus <==> t < 100
  {
    var s0 := Initial(url);
    var request := Request(Get, Urls.GetByQueryUrl(url, "test", "key", "value"), None);
    var s := GetByQuery(s0, "test", "key", "value", true, true, 100, outcome).state;
    assert s == Perform(s0, true, request, outcome, true, 100).state;
    PerformSchedules(s0, true, request, outcome, true, 100);
    LoadingWhileOpen(s, 0, 100, t);
  }

  /** `updateAutoSaveStatus(val, d)` with nothing else pending and no snackbar staged:
      the flag keeps its value for `d` ms and holds `val` from then on. */
  lemma {:induction false} FlagAssignedAfterDelay(s: StoreState, val: bool, d: nat, t: nat)
    requires Valid(s) && s.clock.timers == [] && s.ui.snackbarItem.None?
    ensures Run(UpdateAutoSaveStatus(s, val, d), s.clock.now + t).ui.autoSaveStatus
         == if t < d then s.ui.autoSaveStatus else val
  {
    var r := UpdateAutoSaveStatus(s, val, d);
    assert r.clock.timers == [Timer(s.clock.now + d, s.clock.nextId, AssignAutoSave(val))];
    if t < d {
      RunIdle(r, s.clock.now + t);
    } else {
      var r1 := Fire(r);
      assert r1.clock.timers == [] && r1.ui.autoSaveStatus == val;
      RunIdle(r1, s.clock.now + t);
    }
  }

  /** The callback of an assignment timer only sets the flag. */
  lemma FireAssign(s: StoreState, v: bool)
    requires Valid(s) && |s.clock.timers| > 0
    requires s.clock.timers[Earliest(s.clock.timers)].action == AssignAutoSave(v)
    ensures Fire(s) == StoreState(s.ui.(autoSaveStatus := v), Pop(s.clock))
  {
  }

  /** Two pending assignments of the flag, and nothing else. */
  lemma TwoAssignments(s: StoreState, d1: nat, d2: nat)
    requires Valid(s) && s.clock.timers == [] && s.ui.snackbarItem.None?
    ensures var r := UpdateAutoSaveStatus(UpdateAutoSaveStatus(s, true, d1), false, d2);
      && r.ui == s.ui
      && r.clock.now == s.clock.now
      && r.clock.timers == [Timer(s.clock.now + d1, s.clock.nextId, AssignAutoSave(true)),
                            Timer(s.clock.now + d2, s.clock.nextId + 1, AssignAutoSave(false))]
  {
    var r0 := UpdateAutoSaveStatus(s, true, d1);
    assert r0.ui == s.ui;
    assert r0.clock.timers == [Timer(s.clock.now + d1, s.clock.nextId, AssignAutoSave(true))];
  }

  /** Firing two pending assignments, in the order of their fire times. */
  lemma {:induction false} RunTwoAssignments(r: StoreState, a: Timer<Action>, b: Timer<Action>, target: nat)
    requires Valid(r) && r.clock.timers == [a, b] && r.clock.now <= target
    requires a.fireAt <= target && b.fireAt <= target
    requires a.action.AssignAutoSave? && b.action.AssignAutoSave?
    ensures Run(r, target).ui.autoSaveStatus == if b.fireAt < a.fireAt then a.action.val else b.action.val
    ensures Run(r, target).ui.(autoSaveStatus := r.ui.autoSaveStatus) == r.ui
  {
    EarliestOfTwo(r.clock.timers);
    var first, last := if b.fireAt < a.fireAt then b else a, if b.fireAt < a.fireAt then a else b;
    assert r.clock.timers[Earliest(r.clock.timers)] == first;
    FireAssign(r, first.action.val);
    var r1 := StoreState(r.ui.(autoSaveStatus := first.action.val), Pop(r.clock));
    assert r1.clock.timers == [last];
    assert Run(r, target) == Run(r1, target);
    RunSingleAssign(r1, last, target);
  }

  /** A single pending assignment, due by `target`, sets the flag and nothing else. */
  lemma RunSingleAssign(r: StoreState, pending: Timer<Action>, target: nat)
    requires Valid(r) && r.clock.timers == [pending] && r.clock.now <= target
    requires pending.action.AssignAutoSave? && pending.fireAt <= target
    ensures Run(r, target).ui == r.ui.(autoSaveStatus := pending.action.val)
  {
    FireAssign(r, pending.action.val);
    var r1 := StoreState(r.ui.(autoSaveStatus := pending.action.val), Pop(r.clock));
    assert r1.clock.timers == [];
    RunIdle(r1, target);
  }

  /** Raising the flag with delay `d1` and then lowering it with delay `d2`: the
      assignment that fires last wins, and on equal delays the later call wins.
      So once both have fired the flag is up exactly when `d2 < d1`. */
  lemma LastAssignmentWins(s: StoreState, d1: nat, d2: nat, t: nat)
    requires Valid(s) && s.clock.timers == [] && s.ui.snackbarItem.None?
    requires t >= d1 && t >= d2
    ensures Run(UpdateAutoSaveStatus(UpdateAutoSaveStatus(s, true, d1), false, d2), s.clock.now + t).ui.autoSaveStatus
         <==> d2 < d1
  {
    TwoAssignments(s, d1, d2);
    var r := UpdateAutoSaveStatus(UpdateAutoSaveStatus(s, true, d1), false, d2);
    var a := Timer(s.clock.now + d1, s.clock.nextId, AssignAutoSave(true));
    var b := Timer(s.clock.now + d2, s.clock.nextId + 1, AssignAutoSave(false));
    RunTwoAssignments(r, a, b, s.clock.now + t);
  }

  /** The callback of a hide timer hides the snackbar and drops its item. */
  lemma FireHide(s: StoreState)
    requires Valid(s) && |s.clock.timers| > 0
    requires s.clock.timers[Earliest(s.clock.timers)].action == HideSnackbar
    ensures Fire(s) == StoreState(s.ui.(snackbarStatus := false, snackbarItem := None), Pop(s.clock))
  {
  }

  /** The callback of a request's close timer: with the end flag it calls
      `updateAutoSaveStatus(false)`, which queues the flag's drop at once and shows a
      staged snackbar; without it the callback does nothing. */
  lemma FireCloseLoading(s: StoreState, end: bool)
    requires Valid(s) && |s.clock.timers| > 0
    requires s.clock.timers[Earliest(s.clock.timers)].action == CloseLoading(end)
    ensures end ==> Fire(s) == UpdateAutoSaveStatus(s.(clock := Pop(s.clock)), false, 0)
    ensures !end ==> Fire(s) == s.(clock := Pop(s.clock))
    ensures end && s.ui.snackbarItem.Some? ==> Fire(s).ui.snackbarStatus
  {
  }

  /** Firing the only pending timer empties the queue at its fire time. */
  lemma PopSingle<A>(c: Clock<A>, t: Timer<A>)
    requires Consistent(c) && c.timers == [t]
    ensures Earliest(c.timers) == 0 && Pop(c) == Clock(t.fireAt, c.nextId, [])
  {
    assert Without(c.timers, 0) == [];
  }

  /** Running to a target by which a timer is due fires that timer first. */
  lemma RunFiresDue(s: StoreState, target: nat)
    requires Valid(s) && s.clock.now <= target && Due(s, target)
    ensures Fire(s).clock.now <= target && Run(s, target) == Run(Fire(s), target)
  {
  }

  /** A request's only pending timer, its close with the end flag set, fires as
      `updateAutoSaveStatus(false)` on an empty queue at the close's fire time. */
  lemma FireSingleClose(r: StoreState, fireAt: nat, id: nat)
    requires Valid(r) && r.clock.timers == [Timer(fireAt, id, CloseLoading(true))]
    ensures Fire(r) == UpdateAutoSaveStatus(StoreState(r.ui, Clock(fireAt, r.clock.nextId, [])), false, 0)
  {
    PopSingle(r.clock, Timer(fireAt, id, CloseLoading(true)));
    FireCloseLoading(r, true);
  }

  /** `updateAutoSaveStatus(false)` with nothing pending and an item staged whose hide
      delay is not negative: the snackbar shows now with the same item, the flag's drop
      is queued at once and the hide after the hide delay. */
  lemma CloseWithStagedItem(s: StoreState)
    requires Valid(s) && s.clock.timers == [] && s.ui.snackbarItem.Some? && HideDelay(s.ui.snackbarItem) >= 0
    ensures var r := UpdateAutoSaveStatus(s, false, 0);
      && r.ui.snackbarStatus && r.ui.snackbarItem == s.ui.snackbarItem
      && r.clock.now == s.clock.now
      && r.clock.timers == [Timer(s.clock.now, s.clock.nextId, AssignAutoSave(false)),
                            Timer(s.clock.now + HideDelay(s.ui.snackbarItem), s.clock.nextId + 1, HideSnackbar)]
  {
    var p1 := After(s, 0, AssignAutoSave(false));
    assert p1.clock.timers == [Timer(s.clock.now, s.clock.nextId, AssignAutoSave(false))];
  }

  /** The state a request's close with the end flag set leaves when it is the only
      pending timer and a snackbar item is staged. */
  lemma FireStagedClose(r: StoreState, fireAt: nat, id: nat)
    requires Valid(r) && r.ui.snackbarItem.Some? && HideDelay(r.ui.snackbarItem) >= 0
    requires r.clock.timers == [Timer(fireAt, id, CloseLoading(true))]
    ensures var f := Fire(r);
      && f.clock.now == fireAt
      && f.ui.snackbarStatus && f.ui.snackbarItem == r.ui.snackbarItem
      && f.clock.timers == [Timer(fireAt, r.clock.nextId, AssignAutoSave(false)),
                            Timer(fireAt + HideDelay(r.ui.snackbarItem), r.clock.nextId + 1, HideSnackbar)]
  {
    FireSingleClose(r, fireAt, id);
    CloseWithStagedItem(StoreState(r.ui, Clock(fireAt, r.clock.nextId, [])));
  }

  /** Running past the fire time of a request's close, its only pending timer, fires
      that close first. */
  lemma StagedCloseFiresFirst(r: StoreState, fireAt: nat, id: nat, target: nat)
    requires Valid(r) && fireAt <= target
    requires r.clock.timers == [Timer(fireAt, id, CloseLoading(true))]
    ensures r.clock.now <= target && Fire(r).clock.now <= target
    ensures Run(r, target) == Run(Fire(r), target)
  {
    PopSingle(r.clock, Timer(fireAt, id, CloseLoading(true)));
    assert Due(r, target);
    RunFiresDue(r, target);
  }

  /** From the moment a request's close with the end flag fires, with a snackbar item
      staged: the flag is down, and the snackbar is shown for exactly its hide delay and
      then hidden with its item dropped. */
  lemma ShownAfterStagedClose(r: StoreState, fireAt: nat, id: nat, target: nat)
    requires Valid(r) && fireAt <= target && r.ui.snackbarItem.Some?
    requires r.clock.timers == [Timer(fireAt, id, CloseLoading(true))]
    requires HideDelay(r.ui.snackbarItem) >= 0
    ensures r.clock.now <= target
    ensures !Run(r, target).ui.autoSaveStatus
    ensures Run(r, target).ui.snackbarStatus <==> target < fireAt + HideDelay(r.ui.snackbarItem)
    ensures Run(r, target).ui.snackbarItem.None? <==> target >= fireAt + HideDelay(r.ui.snackbarItem)
  {
    FireStagedClose(r, fireAt, id);
    SnackbarShownUntilHidden(Fire(r), r.clock.nextId, HideDelay(r.ui.snackbarItem), target);
    StagedCloseFiresFirst(r, fireAt, id, target);
  }

  /** A request's close with the end flag set while a snackbar item is staged: until
      the close fires nothing changes; from then on the flag is down, and the snackbar
      is shown for exactly its hide delay and then hidden with its item dropped. */
  lemma CloseShowsStagedSnackbar(r: StoreState, fireAt: nat, id: nat, target: nat)
    requires Valid(r) && r.clock.now <= target && r.ui.snackbarItem.Some?
    requires r.clock.timers == [Timer(fireAt, id, CloseLoading(true))]
    requires HideDelay(r.ui.snackbarItem) >= 0
    ensures target < fireAt ==> Run(r, target).ui == r.ui
    ensures target >= fireAt ==>
      && !Run(r, target).ui.autoSaveStatus
      && (Run(r, target).ui.snackbarStatus <==> target < fireAt + HideDelay(r.ui.snackbarItem))
      && (Run(r, target).ui.snackbarItem.None? <==> target >= fireAt + HideDelay(r.ui.snackbarItem))
  {
    if target < fireAt {
      RunIdle(r, target);
    } else {
      ShownAfterStagedClose(r, fireAt, id, target);
    }
  }

  /** Closing the loading flag (`updateAutoSaveStatus(false)`) with an item prepared
      without a timeout: the snackbar shows at once, and its hide is due
      5200 ms later, after the flag's own assignment. SnackbarShownUntilHidden
      runs the queue from there. */
  lemma CloseWithStagedSnackbar(s: StoreState, item: Snackbar)
    requires Valid(s) && s.clock.timers == [] && !Truthy(item.timeout)
    ensures var r := UpdateAutoSaveStatus(PrepareSnackbar(s, item), false, 0);
      && r.ui.snackbarStatus && r.ui.snackbarItem == Some(WithDefaultTimeout(item))
      && r.clock.now == s.clock.now
      && r.clock.timers == [Timer(s.clock.now, s.clock.nextId, AssignAutoSave(false)),
                            Timer(s.clock.now + 5200, s.clock.nextId + 1, HideSnackbar)]
  {
    var p := PrepareSnackbar(s, item);
    assert HideDelay(p.ui.snackbarItem) == 5200;
    var p1 := After(p, 0, AssignAutoSave(false));
    assert p1.clock.timers == [Timer(s.clock.now, s.clock.nextId, AssignAutoSave(false))];
  }

  /** The same close with a staged snackbar whose timeout T is truthy: the item is kept
      as given, and its hide is due T + 200 ms later (at once when that is negative). */
  lemma CloseWithTimedSnackbar(s: StoreState, item: Snackbar)
    requires Valid(s) && s.clock.timers == [] && Truthy(item.timeout)
    ensures var r, d := UpdateAutoSaveStatus(PrepareSnackbar(s, item), false, 0), item.timeout.value + 200;
      && r.ui.snackbarStatus && r.ui.snackbarItem == Some(item)
      && r.clock.now == s.clock.now
      && r.clock.timers == [Timer(s.clock.now, s.clock.nextId, AssignAutoSave(false)),
                            Timer(s.clock.now + (if d < 0 then 0 else d), s.clock.nextId + 1, HideSnackbar)]
  {
    var p := PrepareSnackbar(s, item);
    assert HideDelay(p.ui.snackbarItem) == item.timeout.value + 200;
    var p1 := After(p, 0, AssignAutoSave(false));
    assert p1.clock.timers == [Timer(s.clock.now, s.clock.nextId, AssignAutoSave(false))];
  }

  /** End to end, for a staged snackbar with timeout T where T + 200 is not negative:
      closing the loader with status `false` leaves the snackbar visible at exactly the
      instants before T + 200 ms have passed. */
  lemma TimedSnackbarShownUntilHidden(s: StoreState, item: Snackbar, target: nat)
    requires Valid(s) && s.clock.timers == [] && Truthy(item.timeout)
    requires item.timeout.value + 200 >= 0 && s.clock.now <= target
    ensures var r := Run(UpdateAutoSaveStatus(PrepareSnackbar(s, item), false, 0), target);
      && !r.ui.autoSaveStatus
      && (r.ui.snackbarStatus <==> target < s.clock.now + item.timeout.value + 200)
  {
    var r := UpdateAutoSaveStatus(PrepareSnackbar(s, item), false, 0);
    CloseWithTimedSnackbar(s, item);
    SnackbarShownUntilHidden(r, s.clock.nextId, item.timeout.value + 200, target);
  }

  /** Running a queue that holds only a hide timer. */
  lemma RunSingleHide(r: StoreState, pending: Timer<Action>, target: nat)
    requires Valid(r) && r.clock.timers == [pending] && pending.action == HideSnackbar && r.clock.now <= target
    ensures target < pending.fireAt ==> Run(r, target).ui == r.ui
    ensures target >= pending.fireAt ==> Run(r, target).ui == r.ui.(snackbarStatus := false, snackbarItem := None)
  {
    if target < pending.fireAt {
      RunIdle(r, target);
    } else {
      FireHide(r);
      var r1 := StoreState(r.ui.(snackbarStatus := false, snackbarItem := None), Pop(r.clock));
      assert r1.clock.timers == [];
      RunIdle(r1, target);
    }
  }

  /** What follows CloseWithStagedSnackbar: the flag drops at once, the snackbar stays
      visible for exactly `delay` ms, and then it is hidden and its item dropped. */
  lemma SnackbarShownUntilHidden(r: StoreState, id: nat, delay: nat, target: nat)
    requires Valid(r) && r.clock.now <= target
    requires r.ui.snackbarStatus && r.ui.snackbarItem.Some?
    requires r.clock.timers == [Timer(r.clock.now, id, AssignAutoSave(false)), Timer(r.clock.now + delay, id + 1, HideSnackbar)]
    ensures !Run(r, target).ui.autoSaveStatus
    ensures Run(r, target).ui.snackbarStatus <==> target < r.clock.now + delay
    ensures Run(r, target).ui.snackbarItem.None? <==> target >= r.clock.now + delay
    ensures Run(r, target).ui.snackbarItem.Some? ==> Run(r, target).ui.snackbarItem == r.ui.snackbarItem
  {
    AssignFirst(r, false, id, delay, HideSnackbar, target);
    RunSingleHide(StoreState(r.ui.(autoSaveStatus := false),
                             Clock(r.clock.now, r.clock.nextId, [Timer(r.clock.now + delay, id + 1, HideSnackbar)])),
                  Timer(r.clock.now + delay, id + 1, HideSnackbar), target);
  }

  /** A component's hand-off on the store object: stage the caller's item, then close
      the loader. The store shows the snackbar and still refers to the caller's own
      object, which now carries its default timeout. */
  method StageThenClose(st: Store.AppApiDataStore, item: Store.SnackbarItem)
    requires st.Valid()
    modifies st, item
    ensures st.Valid() && st.snackbarStatus && st.snackbarItem == item
    ensures item.Value() == WithDefaultTimeout(old(item.Value()))
  {
    st.PrepareSnackbar(item);
    st.UpdateAutoSaveStatus(false, 0);
  }
}
