/**
  What both timer queues keep: the index of timers in expiry order, the registry
  by identity, and the timer whose callback is running.
 */
module TimerTable {
  import opened Options

  /** A timer; a positive interval makes it repeat. */
  datatype Timer = Timer(id: nat, expiration: int, interval: int)

  predicate Before(a: Timer, b: Timer) {
    a.expiration < b.expiration || (a.expiration == b.expiration && a.id < b.id)
  }

  ghost predicate Sorted(q: seq<Timer>) {
    forall i, j :: 0 <= i < j < |q| ==> Before(q[i], q[j])
  }

  function Insert(q: seq<Timer>, t: Timer): (r: seq<Timer>)
    ensures forall x :: x in r <==> x in q || x == t
    ensures |r| == |q| + 1
  {
    if q == [] || Before(t, q[0]) then [t] + q else [q[0]] + Insert(q[1..], t)
  }

  function Without(q: seq<Timer>, id: nat): (r: seq<Timer>)
    ensures forall x :: x in r <==> x in q && x.id != id
  {
    if q == [] then [] else if q[0].id == id then Without(q[1..], id) else [q[0]] + Without(q[1..], id)
  }

  lemma {:induction false} InsertSorted(q: seq<Timer>, t: Timer)
    requires Sorted(q) && forall x :: x in q ==> x.id != t.id
    ensures Sorted(Insert(q, t))
  {
    if q != [] && !Before(t, q[0]) {
      InsertSorted(q[1..], t);
      var rest := Insert(q[1..], t);
      forall j | 0 <= j < |rest| ensures Before(q[0], rest[j]) {
        assert rest[j] in rest;
        if rest[j] != t {
          var k :| 0 <= k < |q[1..]| && q[1..][k] == rest[j];
          assert q[k + 1] == rest[j];
        }
      }
    }
  }

  lemma {:induction false} WithoutSorted(q: seq<Timer>, id: nat)
    requires Sorted(q)
    ensures Sorted(Without(q, id))
  {
    if q != [] {
      WithoutSorted(q[1..], id);
      var rest := Without(q[1..], id);
      forall j | 0 <= j < |rest| ensures Before(q[0], rest[j]) {
        assert rest[j] in rest;
        var k :| 0 <= k < |q[1..]| && q[1..][k] == rest[j];
        assert q[k + 1] == rest[j];
      }
    }
  }

  /**
   * The registry, the index, the running callback's timer and whether it was cancelled meanwhile, the next identity.
   */
  datatype Table = Table(index: seq<Timer>, active: map<nat, Timer>, running: Option<nat>, runningCancelled: bool,
      next: nat)

  const EMPTY_TABLE := Table([], map[], None, false, 0)

  /** Which callbacks were started, in order, and for cancelled timers how many had been started by then. */
  datatype Log = Log(started: seq<nat>, cancelled: map<nat, nat>)

  /** Registry and index hold the same timers; the running timer is in neither. */
  ghost predicate TableOk(t: Table) {
    && Sorted(t.index)
    && (forall x :: x in t.index ==> x.id in t.active && t.active[x.id] == x)
    && (forall id :: id in t.active ==> id < t.next && t.active[id].id == id && t.active[id] in t.index)
    && (t.running.Some? ==> t.running.value < t.next && t.running.value !in t.active)
    && (t.runningCancelled ==> t.running.Some?)
  }

  /** A cancelled timer is never started again: it is gone, or it is running and marked. */
  ghost predicate LogOk(t: Table, log: Log) {
    && (forall id :: id in log.cancelled ==>
          && id < t.next && id !in t.active && (t.running == Some(id) ==> t.runningCancelled)
          && log.cancelled[id] <= |log.started|)
    && (forall id, k :: id in log.cancelled && log.cancelled[id] <= k < |log.started| ==> log.started[k] != id)
    && (forall k :: 0 <= k < |log.started| ==> log.started[k] < t.next)
  }

  /** Both, as one fact. */
  ghost predicate Sound(t: Table, log: Log) {
    TableOk(t) && LogOk(t, log)
  }

  // ---- Operations ------------------------------------------------------------------

  function Added(t: Table, expiration: int, interval: int): Table {
    var timer := Timer(t.next, expiration, interval);
    t.(index := Insert(t.index, timer), active := t.active[t.next := timer], next := t.next + 1)
  }

  /** A timer that is in neither is put into index and registry. */
  lemma {:induction false} InsertedTable(t: Table, timer: Timer)
    requires TableOk(t) && timer.id !in t.active && timer.id < t.next
      && (t.running.Some? ==> t.running.value == timer.id)
    ensures TableOk(t.(index := Insert(t.index, timer), active := t.active[timer.id := timer],
      running := None, runningCancelled := false))
  {
    InsertSorted(t.index, timer);
  }

  lemma {:induction false} AddedOk(t: Table, log: Log, expiration: int, interval: int)
    requires TableOk(t) && LogOk(t, log)
    ensures TableOk(Added(t, expiration, interval)) && LogOk(Added(t, expiration, interval), log)
  {
    InsertSorted(t.index, Timer(t.next, expiration, interval));
  }

  function Erased(t: Table, id: nat): Table {
    t.(index := Without(t.index, id), active := t.active - {id})
  }

  lemma {:induction false} ErasedOk(t: Table, log: Log, id: nat)
    requires TableOk(t) && LogOk(t, log)
    ensures TableOk(Erased(t, id)) && LogOk(Erased(t, id), log)
    ensures id < t.next && (t.running != Some(id) || t.runningCancelled) ==>
      LogOk(Erased(t, id), log.(cancelled := log.cancelled[id := |log.started|]))
  {
    WithoutSorted(t.index, id);
  }

  /** Taking back the timer that was just added. */
  lemma {:induction false} AddErase(t: Table, expiration: int, interval: int)
    requires TableOk(t)
    ensures Erased(Added(t, expiration, interval), t.next) == t.(next := t.next + 1)
  {
    WithoutInserted(t.index, Timer(t.next, expiration, interval));
    AddRemove(t.active, t.next, Timer(t.next, expiration, interval));
  }

  lemma {:induction false} AddRemove(active: map<nat, Timer>, id: nat, timer: Timer)
    requires id !in active
    ensures active[id := timer] - {id} == active
  {
  }

  lemma {:induction false} WithoutInserted(q: seq<Timer>, t: Timer)
    requires forall x :: x in q ==> x.id != t.id
    ensures Without(Insert(q, t), t.id) == q
  {
    if q == [] || Before(t, q[0]) {
      assert Insert(q, t)[1..] == q;
      WithoutNone(q, t.id);
    } else {
      assert Insert(q, t)[1..] == Insert(q[1..], t) && q[0] in q;
      WithoutInserted(q[1..], t);
      assert q == [q[0]] + q[1..];
    }
  }

  lemma {:induction false} WithoutNone(q: seq<Timer>, id: nat)
    requires forall x :: x in q ==> x.id != id
    ensures Without(q, id) == q
  {
    if q != [] {
      assert q[0] in q;
      WithoutNone(q[1..], id);
      assert q == [q[0]] + q[1..];
    }
  }

  lemma {:induction false} NotIndexed(t: Table, id: nat)
    requires TableOk(t) && id !in t.active
    ensures Erased(t, id) == t
  {
    WithoutNone(t.index, id);
    assert t.active - {id} == t.active;
  }

  /** The history after `id` was cancelled: from now on it is never started. */
  ghost function Noted(t: Table, log: Log, id: nat): Log {
    if id < t.next then log.(cancelled := log.cancelled[id := |log.started|]) else log
  }

  /** The running timer is marked as cancelled. */
  lemma {:induction false} MarkedOk(t: Table, log: Log, id: nat)
    requires Sound(t, log) && t.running == Some(id)
    ensures Sound(t.(runningCancelled := true), Noted(t, log, id)) && Erased(t, id) == t
  {
    NotIndexed(t, id);
  }

  /**
   * Cancelling a timer that is neither registered nor marked: it has run for the last time, or was cancelled before.
   */
  lemma {:induction false} UnknownOk(t: Table, log: Log, id: nat)
    requires Sound(t, log) && id !in t.active && t.running != Some(id)
    ensures Sound(t, Noted(t, log, id)) && Erased(t, id) == t
  {
    NotIndexed(t, id);
    ErasedOk(t, log, id);
  }

  lemma {:induction false} AddedSound(t: Table, log: Log, expiration: int, interval: int)
    requires Sound(t, log)
    ensures TableOk(t) && Sound(Added(t, expiration, interval), log)
  {
    AddedOk(t, log, expiration, interval);
  }

  lemma {:induction false} ErasedSound(t: Table, log: Log, id: nat)
    requires Sound(t, log) && id in t.active
    ensures TableOk(t) && t.running != Some(id) && Sound(Erased(t, id), Noted(t, log, id))
  {
    ErasedOk(t, log, id);
  }

  lemma {:induction false} SoundIds(t: Table, log: Log, id: nat)
    requires Sound(t, log) && id in t.active
    ensures t.active[id].id == id && t.running != Some(id)
  {
  }

  /** A callback that is not repeated is over. */
  lemma {:induction false} RestedOk(t: Table, log: Log)
    requires Sound(t, log)
    ensures Sound(t.(running := None, runningCancelled := false), log)
  {
  }

  lemma {:induction false} SoundTable(t: Table, log: Log)
    requires Sound(t, log)
    ensures TableOk(t)
  {
  }

  /** An identity that is given to no timer. */
  lemma {:induction false} SkippedOk(t: Table, log: Log)
    requires Sound(t, log)
    ensures Sound(t.(next := t.next + 1), log)
  {
  }

  /** The earliest timer leaves index and registry and its callback starts. */
  function Popped(t: Table, marked: bool): Table
    requires t.index != []
  {
    var timer := t.index[0];
    t.(index := t.index[1..], active := t.active - {timer.id},
       running := if marked then Some(timer.id) else None, runningCancelled := false)
  }

  lemma {:induction false} PoppedOk(t: Table, log: Log, marked: bool)
    requires TableOk(t) && LogOk(t, log) && t.index != [] && t.running.None?
    ensures TableOk(Popped(t, marked)) && LogOk(Popped(t, marked), log.(started := log.started + [t.index[0].id]))
  {
    assert t.index[0] in t.index;
    PoppedTable(t, marked);
  }

  lemma {:induction false} PoppedTable(t: Table, marked: bool)
    requires TableOk(t) && t.index != []
    ensures TableOk(Popped(t, marked))
  {
    var timer, rest := t.index[0], t.index[1..];
    assert timer in t.index && timer.id in t.active;
    forall x | x in rest ensures x.id != timer.id && x in t.index {
      var k :| 0 <= k < |rest| && rest[k] == x;
      assert Before(t.index[0], t.index[k + 1]) && t.index[k + 1] == x;
    }
    forall id | id in t.active && id != timer.id ensures t.active[id] in rest {
      var k :| 0 <= k < |t.index| && t.index[k] == t.active[id];
      assert rest[k - 1] == t.active[id];
    }
  }

  /** The callback of a repeating timer is over: it is armed again, from `now` on, unless it was cancelled. */
  function Rearmed(t: Table, timer: Timer, now: int): Table {
    var again := timer.(expiration := now + timer.interval);
    if t.runningCancelled then t.(running := None, runningCancelled := false)
    else t.(index := Insert(t.index, again), active := t.active[timer.id := again],
      running := None, runningCancelled := false)
  }

  lemma {:induction false} RearmedOk(t: Table, log: Log, timer: Timer, now: int)
    requires TableOk(t) && LogOk(t, log) && t.running == Some(timer.id)
    ensures TableOk(Rearmed(t, timer, now)) && LogOk(Rearmed(t, timer, now), log)
  {
    RearmedTable(t, timer, now);
  }

  lemma {:induction false} RearmedTable(t: Table, timer: Timer, now: int)
    requires TableOk(t) && t.running == Some(timer.id)
    ensures TableOk(Rearmed(t, timer, now))
  {
    hide TableOk, Insert;
    RunningApart(t);
    if !t.runningCancelled { InsertedTable(t, timer.(expiration := now + timer.interval)); }
  }

  /** The running timer is in neither index nor registry. */
  lemma {:induction false} RunningApart(t: Table)
    requires TableOk(t) && t.running.Some?
    ensures t.running.value !in t.active && t.running.value < t.next
      && TableOk(t.(running := None, runningCancelled := false))
  {
  }

  // ---- One pass over the timers that are due -----------------------------------------

  ghost predicate Ran(ran: seq<Timer>, id: nat) {
    exists k :: 0 <= k < |ran| && ran[k].id == id
  }

  /**
   * Timers `ran` were started since the table was `t0`, all due at `now` and each once; those that were there at the
   * start ran in expiry order, and each of them ran, was cancelled, or is still waiting its turn.
   */
  ghost predicate PassOk(t0: Table, now: int, ran: seq<Timer>, t: Table, log: Log) {
    && t0.next <= t.next && RanOnce(now, ran, t)
    && (forall i, j :: 0 <= i < j < |ran| && ran[i].id < t0.next && ran[j].id < t0.next ==> Before(ran[i], ran[j]))
    && (forall k, x ::
      0 <= k < |ran| && x in t.index && ran[k].id < t0.next
      && Waiting(t0, now, x) ==>
        Before(ran[k], x))
    && (forall x :: x in t0.index && x.expiration <= now ==> Ran(ran, x.id) || x.id in log.cancelled || x in t.index)
  }

  /** The timers that ran were due, ran once each, and none of them is due again. */
  ghost predicate RanOnce(now: int, ran: seq<Timer>, t: Table) {
    && (forall k :: 0 <= k < |ran| ==> ran[k].expiration <= now && ran[k].id < t.next)
    && (forall k :: 0 <= k < |ran| && ran[k].id in t.active ==> t.active[ran[k].id].expiration > now)
    && (forall i, j :: 0 <= i < j < |ran| ==> ran[i].id != ran[j].id)
  }

  /** `x` was in the table at the start and is due. */
  ghost predicate Waiting(t0: Table, now: int, x: Timer) {
    x.id < t0.next && x.expiration <= now
  }

  lemma {:induction false} PassAdded(t0: Table, now: int, ran: seq<Timer>, t: Table, log: Log, expiration: int,
      interval: int)
    requires PassOk(t0, now, ran, t, log) && TableOk(t)
    ensures PassOk(t0, now, ran, Added(t, expiration, interval), log)
  {
  }

  lemma {:induction false} PassErased(t0: Table, now: int, ran: seq<Timer>, t: Table, log: Log, id: nat)
    requires PassOk(t0, now, ran, t, log)
    ensures PassOk(t0, now, ran, Erased(t, id), log.(cancelled := log.cancelled[id := |log.started|]))
  {
  }

  lemma {:induction false} PassPopped(t0: Table, now: int, ran: seq<Timer>, t: Table, log: Log, marked: bool)
    requires PassOk(t0, now, ran, t, log) && TableOk(t) && t.index != [] && t.index[0].expiration <= now
    ensures PassOk(t0, now, ran + [t.index[0]], Popped(t, marked), log.(started := log.started + [t.index[0].id]))
  {
    assert t.index[0] in t.index;
    PoppedOnce(now, ran, t, marked);
    PoppedWaits(t0, now, ran, t, log, marked);
    PoppedOrder(t0, now, ran, t, log);
  }

  lemma {:induction false} PoppedOnce(now: int, ran: seq<Timer>, t: Table, marked: bool)
    requires RanOnce(now, ran, t) && TableOk(t) && t.index != [] && t.index[0].expiration <= now
    ensures RanOnce(now, ran + [t.index[0]], Popped(t, marked))
  {
    assert t.index[0] in t.index && t.active[t.index[0].id] == t.index[0];
  }

  lemma {:induction false} PoppedWaits(t0: Table, now: int, ran: seq<Timer>, t: Table, log: Log, marked: bool)
    requires PassOk(t0, now, ran, t, log) && t.index != []
    ensures forall x :: x in t0.index && x.expiration <= now ==>
      Ran(ran + [t.index[0]], x.id) || x.id in log.cancelled || x in Popped(t, marked).index
  {
    var first, rest, ran' := t.index[0], t.index[1..], ran + [t.index[0]];
    forall x | x in t0.index && x.expiration <= now ensures Ran(ran', x.id) || x.id in log.cancelled || x in rest {
      if Ran(ran, x.id) {
        var k :| 0 <= k < |ran| && ran[k].id == x.id;
        assert ran'[k] == ran[k];
      } else if x == first {
        assert ran'[|ran|] == first;
      } else if x in t.index {
        var k :| 0 <= k < |t.index| && t.index[k] == x;
        assert rest[k - 1] == x;
      }
    }
  }

  lemma {:induction false} PoppedOrder(t0: Table, now: int, ran: seq<Timer>, t: Table, log: Log)
    requires PassOk(t0, now, ran, t, log) && Sorted(t.index) && t.index != []
    ensures var ran' := ran + [t.index[0]];
      forall k, x ::
        0 <= k < |ran'| && x in t.index[1..] && ran'[k].id < t0.next
        && Waiting(t0, now, x) ==>
          Before(ran'[k], x)
  {
    var rest, ran' := t.index[1..], ran + [t.index[0]];
    forall k, x | 0 <= k < |ran'| && x in rest && ran'[k].id < t0.next && Waiting(t0, now, x)
      ensures Before(ran'[k], x) {
      var j :| 0 <= j < |rest| && rest[j] == x;
      assert t.index[j + 1] == x && Before(t.index[0], t.index[j + 1]);
    }
  }

  lemma {:induction false} PassRearmed(t0: Table, now: int, ran: seq<Timer>, t: Table, log: Log, timer: Timer)
    requires PassOk(t0, now, ran, t, log) && timer.interval > 0
    ensures PassOk(t0, now, ran, Rearmed(t, timer, now), log)
  {
  }

  // ---- How long a pass takes -----------------------------------------------------------

  /** How many timers are due. */
  ghost function DueCount(q: seq<Timer>, now: int): nat {
    if q == [] then 0 else (if q[0].expiration <= now then 1 else 0) + DueCount(q[1..], now)
  }

  lemma {:induction false} DueInsert(q: seq<Timer>, t: Timer, now: int)
    ensures DueCount(Insert(q, t), now) == DueCount(q, now) + if t.expiration <= now then 1 else 0
  {
    if q == [] || Before(t, q[0]) {
      assert Insert(q, t)[1..] == q;
    } else {
      assert Insert(q, t)[1..] == Insert(q[1..], t);
      DueInsert(q[1..], t, now);
    }
  }

  lemma {:induction false} DueWithout(q: seq<Timer>, id: nat, now: int)
    ensures DueCount(Without(q, id), now) <= DueCount(q, now)
  {
    if q != [] {
      DueWithout(q[1..], id, now);
      if q[0].id != id { assert Without(q, id)[1..] == Without(q[1..], id); }
    }
  }

  /**
   * What a callback does: it adds and cancels timers; `submitted` says whether the kernel takes the request this needs.
   */
  datatype Action = Add(expiration: int, interval: int, submitted: bool) | Cancel(id: nat, submitted: bool)

  /** Callbacks that only add timers that are not due yet. */
  ghost predicate LaterOnly(script: seq<Action>, now: int) {
    forall i :: 0 <= i < |script| && script[i].Add? ==> script[i].expiration > now
  }

  // ---- What callbacks have done ----------------------------------------------------------

  /** How many timers a callback adds. */
  function Adds(script: seq<Action>): nat {
    if script == [] then 0 else Adds(script[..|script| - 1]) + if script[|script| - 1].Add? then 1 else 0
  }

  ghost predicate Cancels(script: seq<Action>, id: nat) {
    exists i :: 0 <= i < |script| && script[i].Cancel? && script[i].id == id
  }

  /** The timer that the `i`-th action adds is registered, or was cancelled since. */
  ghost predicate Kept(script: seq<Action>, i: nat, next0: nat, t: Table, log: Log)
    requires i < |script| && script[i].Add?
  {
    var id := next0 + Adds(script[..i]);
    id in log.cancelled || (id in t.active && t.active[id] == Timer(id, script[i].expiration, script[i].interval))
  }

  /**
   * Callback `script` has been run since the next identity was `next0` and `cancelled0` were cancelled: the timers it
   * adds are there, in order (if `sure`, or if the kernel took the request), and exactly the ones it cancels are
   * cancelled.
   */
  ghost predicate Acted(script: seq<Action>, sure: bool, next0: nat, cancelled0: set<nat>, t: Table, log: Log) {
    && t.next == next0 + Adds(script)
    && (forall i :: 0 <= i < |script| && script[i].Add? && (sure || script[i].submitted) ==>
          Kept(script, i, next0, t, log))
    && (forall id :: id in cancelled0 ==> id in log.cancelled)
    && (forall id :: id in log.cancelled ==> id in cancelled0 || Cancels(script, id))
    && (forall id: nat :: Cancels(script, id) && id < next0 ==> id in log.cancelled)
  }

  lemma {:induction false} AddsMonotone(script: seq<Action>, i: nat, j: nat)
    requires i <= j <= |script|
    ensures Adds(script[..i]) <= Adds(script[..j])
    ensures i < j && script[i].Add? ==> Adds(script[..i]) < Adds(script[..j])
  {
    if i < j {
      AddsMonotone(script, i, j - 1);
      assert script[..j][..j - 1] == script[..j - 1];
    }
  }

  lemma {:induction false} ActedAdd(script: seq<Action>, sure: bool, next0: nat, cancelled0: set<nat>, t: Table,
      log: Log, a: Action, t': Table)
    requires Acted(script, sure, next0, cancelled0, t, log) && a.Add?
    requires t' == Added(t, a.expiration, a.interval) || (!sure && !a.submitted && t' == t.(next := t.next + 1))
    ensures Acted(script + [a], sure, next0, cancelled0, t', log)
  {
    var more := script + [a];
    assert more[..|script|] == script;
    forall i | 0 <= i < |more| && more[i].Add? && (sure || more[i].submitted) ensures Kept(more, i, next0, t', log) {
      assert more[..i] == script[..i];
      if i < |script| {
        assert Kept(script, i, next0, t, log);
        AddsMonotone(script, i, |script|);
        assert script[..|script|] == script;
      } else {
        assert script[..i] == script;
      }
    }
    SameCancels(script, a);
  }

  lemma {:induction false} SameCancels(script: seq<Action>, a: Action)
    ensures forall id :: Cancels(script + [a], id) <==> Cancels(script, id) || (a.Cancel? && a.id == id)
  {
    var more := script + [a];
    forall id ensures Cancels(more, id) <==> Cancels(script, id) || (a.Cancel? && a.id == id) {
      if Cancels(script, id) {
        var i :| 0 <= i < |script| && script[i].Cancel? && script[i].id == id;
        assert more[i] == script[i];
      }
      if a.Cancel? && a.id == id { assert more[|script|] == a; }
    }
  }

  lemma {:induction false} ActedCancel(script: seq<Action>, sure: bool, next0: nat, cancelled0: set<nat>, t: Table,
      log: Log, a: Action, mark: bool)
    requires Acted(script, sure, next0, cancelled0, t, log) && a.Cancel?
    ensures Acted(script + [a], sure, next0, cancelled0, Erased(t, a.id).(runningCancelled := mark),
      Noted(t, log, a.id))
  {
    var more, t', log' := script + [a], Erased(t, a.id).(runningCancelled := mark), Noted(t, log, a.id);
    assert more[..|script|] == script;
    forall i | 0 <= i < |more| && more[i].Add? && (sure || more[i].submitted) ensures Kept(more, i, next0, t', log') {
      assert more[..i] == script[..i] && more[i] == script[i];
      assert Kept(script, i, next0, t, log);
      AddsMonotone(script, i, |script|);
      assert script[..|script|] == script;
    }
    SameCancels(script, a);
  }

  lemma {:induction false} ActedNone(sure: bool, t: Table, log: Log)
    ensures Acted([], sure, t.next, log.cancelled.Keys, t, log)
  {
  }

  /** One more action. */
  lemma {:induction false} ActedNext(script: seq<Action>, i: nat, sure: bool, next0: nat, cancelled0: set<nat>,
      t: Table, log: Log, t': Table, log': Log)
    requires i < |script| && Acted(script[..i], sure, next0, cancelled0, t, log)
    requires match script[i]
      case Add(expiration, interval, submitted) =>
        && log' == log
        && (t' == Added(t, expiration, interval) || (!sure && !submitted && t' == t.(next := t.next + 1)))
      case Cancel(id, _) =>
        t' == Erased(t, id).(runningCancelled := t'.runningCancelled) && log' == Noted(t, log, id)
    ensures Acted(script[..i + 1], sure, next0, cancelled0, t', log')
  {
    hide Acted;
    assert script[..i + 1] == script[..i] + [script[i]];
    match script[i]
    case Add(_, _, _) => ActedAdd(script[..i], sure, next0, cancelled0, t, log, script[i], t');
    case Cancel(_, _) => ActedCancel(script[..i], sure, next0, cancelled0, t, log, script[i], t'.runningCancelled);
  }

  lemma {:induction false} PoppedIds(t: Table, log: Log)
    requires Sound(t, log) && t.index != []
    ensures t.index[0].id < t.next
  {
    assert t.index[0] in t.index;
  }

  /** The end of the callback changes none of that. */
  lemma {:induction false} ActedOver(script: seq<Action>, sure: bool, next0: nat, cancelled0: set<nat>, t: Table,
      log: Log, timer: Timer, now: int)
    requires Acted(script, sure, next0, cancelled0, t, log) && timer.id < next0
    ensures Acted(script, sure, next0, cancelled0, Rearmed(t, timer, now), log)
    ensures Acted(script, sure, next0, cancelled0, t.(running := None, runningCancelled := false), log)
  {
    var t' := Rearmed(t, timer, now);
    forall i | 0 <= i < |script| && script[i].Add? && (sure || script[i].submitted)
      ensures Kept(script, i, next0, t', log)
    {
      assert Kept(script, i, next0, t, log);
    }
  }

  /** The callbacks of a pass: what the first `n` scripts add and cancel. */
  function AllAdds(scripts: seq<seq<Action>>): nat {
    if scripts == [] then 0 else AllAdds(scripts[..|scripts| - 1]) + Adds(scripts[|scripts| - 1])
  }

  ghost predicate SomeCancels(scripts: seq<seq<Action>>, id: nat) {
    exists k :: 0 <= k < |scripts| && Cancels(scripts[k], id)
  }

  /** All callbacks in `scripts` have been run since: as many timers were added, and no others were cancelled. */
  ghost predicate AllActed(scripts: seq<seq<Action>>, next0: nat, cancelled0: set<nat>, t: Table, log: Log) {
    && t.next == next0 + AllAdds(scripts)
    && (forall id :: id in cancelled0 ==> id in log.cancelled)
    && (forall id :: id in log.cancelled ==> id in cancelled0 || SomeCancels(scripts, id))
    && (forall id: nat :: SomeCancels(scripts, id) && id < next0 ==> id in log.cancelled)
  }

  lemma {:induction false} NoneActed(scripts: seq<seq<Action>>, t: Table, log: Log)
    ensures AllActed(scripts[..0], t.next, log.cancelled.Keys, t, log)
  {
    assert scripts[..0] == [];
  }

  lemma {:induction false} AllActedNext(scripts: seq<seq<Action>>, n: nat, sure: bool, next0: nat, cancelled0: set<nat>,
      t: Table, log: Log, t': Table, log': Log)
    requires n < |scripts| && AllActed(scripts[..n], next0, cancelled0, t, log)
    requires Acted(scripts[n], sure, t.next, log.cancelled.Keys, t', log')
    ensures AllActed(scripts[..n + 1], next0, cancelled0, t', log')
  {
    var before, after := scripts[..n], scripts[..n + 1];
    assert after[..n] == before && after[n] == scripts[n];
    forall id ensures SomeCancels(after, id) <==> SomeCancels(before, id) || Cancels(scripts[n], id) {
      if SomeCancels(before, id) {
        var k :| 0 <= k < |before| && Cancels(before[k], id);
        assert after[k] == before[k];
      }
      if SomeCancels(after, id) {
        var k :| 0 <= k < |after| && Cancels(after[k], id);
        if k < n { assert before[k] == after[k]; }
      }
    }
  }

  // ---- What a pass keeps track of ------------------------------------------------------

  /**
   * A pass over the timers due at `now`, begun in `t0`: what `PassOk` says, and if callbacks only add later timers, the
   * timers still due and those that ran are no more than were due at the start.
   */
  ghost predicate InPass(t0: Table, now: int, ran: seq<Timer>, t: Table, log: Log, later: bool) {
    && PassOk(t0, now, ran, t, log) && Repeated(now, ran, t, log)
    && (later ==> DueCount(t.index, now) + |ran| <= DueCount(t0.index, now))
  }

  /**
   * What has become of timer `x` that ran at `now`: it is registered again, an interval later, if it repeats and was
   * not cancelled, and gone otherwise.
   */
  ghost predicate Again(x: Timer, now: int, t: Table, log: Log) {
    if x.interval > 0 && x.id !in log.cancelled
    then x.id in t.active && t.active[x.id] == x.(expiration := now + x.interval)
    else x.id !in t.active
  }

  /** That is so for all timers that ran and whose callbacks are over; the running one is marked only if cancelled. */
  ghost predicate Repeated(now: int, ran: seq<Timer>, t: Table, log: Log) {
    && (forall k :: 0 <= k < |ran| && t.running != Some(ran[k].id) ==> Again(ran[k], now, t, log))
    && (t.runningCancelled ==> t.running.Some? && t.running.value in log.cancelled)
  }

  lemma {:induction false} InPassRepeated(t0: Table, now: int, ran: seq<Timer>, t: Table, log: Log, later: bool)
    requires InPass(t0, now, ran, t, log, later) && t.running.None?
    ensures forall k :: 0 <= k < |ran| ==> Again(ran[k], now, t, log)
  {
  }

  lemma {:induction false} InPassStart(t0: Table, now: int, log: Log, later: bool)
    requires Sound(t0, log) && t0.running.None?
    ensures InPass(t0, now, [], t0, log, later)
  {
  }

  lemma {:induction false} InPassAdded(t0: Table, now: int, ran: seq<Timer>, t: Table, log: Log, later: bool,
      expiration: int, interval: int)
    requires InPass(t0, now, ran, t, log, later) && Sound(t, log) && (later ==> expiration > now)
    ensures InPass(t0, now, ran, Added(t, expiration, interval), log, later)
    ensures InPass(t0, now, ran, t.(next := t.next + 1), log, later)
  {
    PassAdded(t0, now, ran, t, log, expiration, interval);
    DueInsert(t.index, Timer(t.next, expiration, interval), now);
    RepeatedAdded(now, ran, t, log, expiration, interval);
    PassSkipped(t0, now, ran, t, log);
    hide PassOk, Repeated, Sound, Insert;
  }

  lemma {:induction false} PassSkipped(t0: Table, now: int, ran: seq<Timer>, t: Table, log: Log)
    requires PassOk(t0, now, ran, t, log) && Repeated(now, ran, t, log)
    ensures var t' := t.(next := t.next + 1); PassOk(t0, now, ran, t', log) && Repeated(now, ran, t', log)
  {
  }

  lemma {:induction false} RepeatedAdded(now: int, ran: seq<Timer>, t: Table, log: Log, expiration: int, interval: int)
    requires Repeated(now, ran, t, log) && RanOnce(now, ran, t)
    ensures Repeated(now, ran, Added(t, expiration, interval), log)
  {
  }

  lemma {:induction false} RepeatedRearmed(now: int, ran: seq<Timer>, t: Table, log: Log, timer: Timer)
    requires Repeated(now, ran, t, log) && RanOnce(now, ran, t) && LogOk(t, log) && t.running == Some(timer.id)
    requires timer.interval > 0 && ran != [] && ran[|ran| - 1] == timer && timer.id !in t.active
    ensures Repeated(now, ran, Rearmed(t, timer, now), log)
  {
  }

  lemma {:induction false} InPassErased(t0: Table, now: int, ran: seq<Timer>, t: Table, log: Log, later: bool, id: nat,
      mark: bool)
    requires InPass(t0, now, ran, t, log, later) && mark == (t.runningCancelled || t.running == Some(id))
    ensures InPass(t0, now, ran, Erased(t, id).(runningCancelled := mark),
      log.(cancelled := log.cancelled[id := |log.started|]), later)
  {
    PassErased(t0, now, ran, t, log, id);
    DueWithout(t.index, id, now);
  }

  lemma {:induction false} InPassNoted(t0: Table, now: int, ran: seq<Timer>, t: Table, log: Log, later: bool, id: nat,
      mark: bool)
    requires InPass(t0, now, ran, t, log, later) && Sound(t, log)
    requires mark == (t.runningCancelled || t.running == Some(id))
    ensures InPass(t0, now, ran, Erased(t, id).(runningCancelled := mark), Noted(t, log, id), later)
  {
    if id < t.next {
      InPassErased(t0, now, ran, t, log, later, id, mark);
    } else {
      NotIndexed(t, id);
    }
  }

  lemma {:induction false} InPassPopped(t0: Table, now: int, ran: seq<Timer>, t: Table, log: Log, later: bool,
      marked: bool)
    requires InPass(t0, now, ran, t, log, later) && Sound(t, log) && t.index != [] && t.index[0].expiration <= now
      && t.running.None? && (marked || t.index[0].interval <= 0)
    ensures var log' := log.(started := log.started + [t.index[0].id]);
      InPass(t0, now, ran + [t.index[0]], Popped(t, marked), log', later) && Sound(Popped(t, marked), log')
  {
    PassPopped(t0, now, ran, t, log, marked);
    PoppedOk(t, log, marked);
  }

  lemma {:induction false} InPassRearmed(t0: Table, now: int, ran: seq<Timer>, t: Table, log: Log, later: bool,
      timer: Timer)
    requires InPass(t0, now, ran, t, log, later) && Sound(t, log) && t.running == Some(timer.id) && timer.interval > 0
    requires ran != [] && ran[|ran| - 1] == timer
    ensures InPass(t0, now, ran, Rearmed(t, timer, now), log, later) && Sound(Rearmed(t, timer, now), log)
  {
    PassRearmed(t0, now, ran, t, log, timer);
    RearmedOk(t, log, timer, now);
    DueInsert(t.index, timer.(expiration := now + timer.interval), now);
    RepeatedRearmed(now, ran, t, log, timer);
    hide PassOk, Repeated, Sound, Insert;
  }

  /** The callback that ran last is over, and its timer is not armed again. */
  lemma {:induction false} InPassRested(t0: Table, now: int, ran: seq<Timer>, t: Table, log: Log, later: bool,
      timer: Timer)
    requires InPass(t0, now, ran, t, log, later) && Sound(t, log) && t.running == Some(timer.id)
    requires ran != [] && ran[|ran| - 1] == timer && (timer.interval <= 0 || t.runningCancelled)
    ensures var t' := t.(running := None, runningCancelled := false);
      InPass(t0, now, ran, t', log, later) && Sound(t', log)
  {
    RestedOk(t, log);
  }

  /** Every timer that was due has run, or was cancelled first. */
  ghost predicate AllServed(t0: Table, now: int, ran: seq<Timer>, log: Log) {
    forall x :: x in t0.index && x.expiration <= now ==> Ran(ran, x.id) || x.id in log.cancelled
  }

  /**
   * A pass that stops because nothing is due any more has served every timer; with later timers only, that comes soon.
   */
  lemma {:induction false} PassDone(t0: Table, now: int, ran: seq<Timer>, t: Table, log: Log, later: bool)
    requires InPass(t0, now, ran, t, log, later) && TableOk(t)
    ensures t.index == [] || t.index[0].expiration > now ==> AllServed(t0, now, ran, log)
    ensures later ==> |ran| <= DueCount(t0.index, now)
  {
    forall x | x in t.index ensures t.index != [] && t.index[0].expiration <= x.expiration {
      EarliestFirst(t.index, x);
    }
  }

  lemma {:induction false} EarliestFirst(q: seq<Timer>, x: Timer)
    requires Sorted(q) && x in q
    ensures q[0].expiration <= x.expiration
  {
    var k :| 0 <= k < |q| && q[k] == x;
    assert k > 0 ==> Before(q[0], q[k]);
  }

  /** The identities of timers, in order. */
  function Ids(ran: seq<Timer>): seq<nat> {
    if ran == [] then [] else Ids(ran[..|ran| - 1]) + [ran[|ran| - 1].id]
  }

  lemma {:induction false} IdsNext(ran: seq<Timer>, t: Timer)
    ensures Ids(ran + [t]) == Ids(ran) + [t.id]
  {
    assert (ran + [t])[..|ran|] == ran;
  }
}
