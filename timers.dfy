/** The event loop's timer queue, made explicit. `setTimeout(f, d)` appends a timer
    carrying the deferred callback, its fire time and its number (`id` counts the
    calls to `setTimeout`). The next timer to fire is the one with the smallest
    fire time and, among equal fire times, the one scheduled first. */
module Timers {

  datatype Timer<A> = Timer(fireAt: nat, id: nat, action: A)

  /** The clock (milliseconds), the number of timers scheduled so far, and the
      pending timers in scheduling order. */
  datatype Clock<A> = Clock(now: nat, nextId: nat, timers: seq<Timer<A>>)

  /** `a` fires no later than `b`: by fire time, then by scheduling order. */
  predicate Before<A>(a: Timer<A>, b: Timer<A>)
  {
    a.fireAt < b.fireAt || (a.fireAt == b.fireAt && a.id <= b.id)
  }

  /** The clock an application session starts with. */
  function Start<A>(): (c: Clock<A>)
    ensures Consistent(c)
  {
    Clock(0, 0, [])
  }

  /** No pending timer is due in the past, every one was numbered before
      `nextId`, and the queue lists them in the order they were scheduled. */
  predicate Consistent<A>(c: Clock<A>)
  {
    && (forall i :: 0 <= i < |c.timers| ==> c.now <= c.timers[i].fireAt && c.timers[i].id < c.nextId)
    && (forall i, j :: 0 <= i < j < |c.timers| ==> c.timers[i].id < c.timers[j].id)
  }

  /** The delay `setTimeout` actually uses: a negative delay counts as zero. */
  function ClampDelay(delay: int): nat
  {
    if delay < 0 then 0 else delay
  }

  /** `setTimeout(action, delay)`: a new timer due `delay` ms from now (a negative
      delay counts as 0), numbered after every timer scheduled so far. */
  function Schedule<A>(c: Clock<A>, delay: int, action: A): (r: Clock<A>)
    requires Consistent(c)
    ensures Consistent(r)
    ensures r.now == c.now && r.nextId == c.nextId + 1
    ensures r.timers == c.timers + [Timer(c.now + ClampDelay(delay), c.nextId, action)]
  {
    Clock(c.now, c.nextId + 1, c.timers + [Timer(c.now + ClampDelay(delay), c.nextId, action)])
  }

  /** A negative delay schedules exactly what a zero delay does; any other delay
      makes the new timer due exactly `delay` ms from now. */
  lemma ScheduleDelay<A>(c: Clock<A>, delay: int, action: A)
    requires Consistent(c)
    ensures delay < 0 ==> Schedule(c, delay, action) == Schedule(c, 0, action)
    ensures delay >= 0 ==> Schedule(c, delay, action).timers[|c.timers|].fireAt == c.now + delay
  {
  }

  /** The position of the next timer to fire: the first of those with the smallest fire time. */
  function Earliest<A>(ts: seq<Timer<A>>): (k: nat)
    requires |ts| > 0
    ensures k < |ts|
    ensures forall i :: 0 <= i < |ts| ==> ts[k].fireAt <= ts[i].fireAt
    ensures forall i :: 0 <= i < k ==> ts[i].fireAt > ts[k].fireAt
  {
    if |ts| == 1 then 0
    else
      var k := Earliest(ts[1..]);
      assert forall i :: 1 <= i < |ts| ==> ts[i] == ts[1..][i - 1];
      if ts[0].fireAt <= ts[k + 1].fireAt then 0 else k + 1
  }

  /** In a consistent queue the timer Earliest picks fires before every other pending
      timer in the order "by fire time, then by scheduling order". */
  lemma EarliestFiresFirst<A>(c: Clock<A>)
    requires Consistent(c) && |c.timers| > 0
    ensures var k := Earliest(c.timers);
      forall i :: 0 <= i < |c.timers| ==> Before(c.timers[k], c.timers[i])
  {
  }

  /** The queue without position `k`. */
  function Without<A>(ts: seq<Timer<A>>, k: nat): (r: seq<Timer<A>>)
    requires k < |ts|
    ensures |r| == |ts| - 1
    ensures forall i :: 0 <= i < k ==> r[i] == ts[i]
    ensures forall i :: k <= i < |r| ==> r[i] == ts[i + 1]
  {
    ts[..k] + ts[k + 1..]
  }

  /** Takes the next timer off the queue and moves the clock to its fire time. */
  function Pop<A>(c: Clock<A>): (r: Clock<A>)
    requires Consistent(c) && |c.timers| > 0
    ensures Consistent(r)
    ensures r.now == c.timers[Earliest(c.timers)].fireAt && r.nextId == c.nextId
    ensures r.timers == Without(c.timers, Earliest(c.timers))
  {
    var k := Earliest(c.timers);
    var r := Clock(c.timers[k].fireAt, c.nextId, Without(c.timers, k));
    assert forall i :: 0 <= i < |r.timers| ==> r.now <= r.timers[i].fireAt && r.timers[i].id < r.nextId by {
      forall i | 0 <= i < |r.timers| ensures r.now <= r.timers[i].fireAt && r.timers[i].id < r.nextId {
        assert r.timers[i] == c.timers[if i < k then i else i + 1];
      }
    }
    assert forall i, j :: 0 <= i < j < |r.timers| ==> r.timers[i].id < r.timers[j].id by {
      forall i, j | 0 <= i < j < |r.timers| ensures r.timers[i].id < r.timers[j].id {
        var i', j' := if i < k then i else i + 1, if j < k then j else j + 1;
        assert r.timers[i] == c.timers[i'] && r.timers[j] == c.timers[j'];
      }
    }
    r
  }

  /** When nothing is due by `target`, no pending timer is. */
  lemma NothingDue<A>(c: Clock<A>, target: nat)
    requires Consistent(c) && |c.timers| > 0 && c.timers[Earliest(c.timers)].fireAt > target
    ensures forall i :: 0 <= i < |c.timers| ==> c.timers[i].fireAt > target
  {
  }
}
