/**
  The timer queue of the io_uring loop: one driver timeout and one control
  request, which moves the driver timeout or stands in for it, are kept in step
  with the earliest timer.
 */
module UringTimers {
  import opened Options
  import opened TimerTable
  import Store = TimerStore

  /** How a timer request completed. */
  datatype Completion = Done | TimedOut | Failed

  class UringTimers {
    const store: Store.TimerStore
    var driverArmed: bool
    var driverDeadline: int
    var controlPending: bool
    var controlIsFallback: bool
    var fallbackArmed: bool
    var requestedDeadline: int
    /** The timespecs that the requests carry. */
    var driverSpec: int
    var controlSpec: int
    var updateSupported: bool
    var stopRequested: bool
    ghost var log: Log
    /** What the kernel has: whether the two requests are in the ring, and for which deadlines. */
    ghost var driverInRing: bool
    ghost var controlInRing: bool
    ghost var kernelDeadline: int
    ghost var kernelControl: int

    ghost predicate Valid()
      reads this, store, store.Repr()
    {
      store.Linked() && Sound(store.table, log) && Requests()
    }

    ghost predicate Requests()
      reads this
    {
      && driverArmed == driverInRing && controlPending == controlInRing
      && (controlIsFallback ==> controlPending) && (fallbackArmed <==> controlIsFallback)
      && (driverArmed ==> driverDeadline == kernelDeadline)
      && (controlPending && !controlIsFallback ==> requestedDeadline == kernelControl)
    }

    /** The loop will be woken in time for the earliest timer, or a request is out whose completion looks again. */
    ghost predicate Covered()
      reads this, store
    {
      || stopRequested || store.table.index == [] || controlInRing
      || (driverInRing && kernelDeadline <= store.table.index[0].expiration)
    }

    /** A timeout in the kernel ends no later than the earliest timer. */
    ghost predicate Timely()
      reads this, store
    {
      || stopRequested || store.table.index == []
      || (driverInRing && kernelDeadline <= store.table.index[0].expiration)
      || (controlInRing && kernelControl <= store.table.index[0].expiration)
    }

    constructor ()
      ensures Valid() && Covered() && store.table == EMPTY_TABLE && log == Log([], map[]) && fresh(store.Repr())
      ensures !driverArmed && !controlPending && !fallbackArmed && updateSupported && !stopRequested
    {
      store := new Store.TimerStore();
      log := Log([], map[]);
      driverArmed, controlPending, controlIsFallback, fallbackArmed := false, false, false, false;
      driverInRing, controlInRing := false, false;
      updateSupported, stopRequested := true, false;
      driverDeadline, requestedDeadline, driverSpec, controlSpec, kernelDeadline, kernelControl := 0, 0, 0, 0, 0, 0;
    }

    // ---- Requests ----------------------------------------------------------------------

    /** Arms the driver timeout; its request is not in the ring. */
    method Arm(deadline: int, submitted: bool) returns (ok: bool)
      requires Requests() && !driverArmed
      modifies this`driverArmed, this`driverDeadline, this`driverSpec, this`kernelDeadline, this`driverInRing
      ensures Requests() && ok == submitted && driverArmed == submitted
      ensures if submitted then driverDeadline == kernelDeadline == deadline
              else unchanged(`driverDeadline, `kernelDeadline)
    {
      driverSpec := deadline;
      if !submitted {
        return false;
      }
      driverInRing, kernelDeadline := true, driverSpec;
      driverArmed, driverDeadline := true, deadline;
      return true;
    }

    /** Arms a second timeout in place of an update; the control request is not in the ring. */
    method ArmFallback(deadline: int, submitted: bool) returns (ok: bool)
      requires Requests() && !controlPending
      modifies this`controlIsFallback, this`controlPending, this`fallbackArmed, this`controlSpec
      modifies this`controlInRing, this`kernelControl
      ensures Requests() && ok == submitted == controlPending == fallbackArmed
      ensures submitted ==> kernelControl == deadline && controlIsFallback
    {
      controlSpec := deadline;
      controlIsFallback := true;
      if submitted {
        controlInRing, kernelControl := true, controlSpec;
        controlPending, fallbackArmed := true, true;
        return true;
      }
      controlIsFallback := false;
      return false;
    }

    /** Asks the kernel to move the driver timeout; the control request is not in the ring. */
    method Update(deadline: int, submitted: bool) returns (ok: bool)
      requires Requests() && !controlPending
      modifies this`requestedDeadline, this`controlIsFallback, this`controlPending, this`controlSpec
      modifies this`controlInRing, this`kernelControl
      ensures Requests() && ok == submitted == controlPending
      ensures submitted ==> kernelControl == requestedDeadline == deadline && !controlIsFallback
    {
      controlSpec := deadline;
      requestedDeadline := deadline;
      controlIsFallback := false;
      if !submitted {
        requestedDeadline := 0;
        return false;
      }
      controlInRing, kernelControl := true, controlSpec;
      controlPending := true;
      return true;
    }

    /**
     * What is done for the earliest timer: nothing while the control request is in the ring or the driver timeout ends
     * soon enough; else the driver timeout is armed, or moved, or a second timeout stands in for it.
     */
    twostate predicate Brought()
      reads this, store
    {
      var q := store.table.index;
      if old(controlPending) || q == [] || (old(driverArmed) && old(driverDeadline) <= q[0].expiration) then
        unchanged(`driverArmed, `driverDeadline, `kernelDeadline, `controlPending, `controlIsFallback, `kernelControl)
      else if !old(driverArmed) then
        && driverArmed && driverDeadline == kernelDeadline == q[0].expiration
        && unchanged(`controlPending, `controlIsFallback, `kernelControl)
      else
        && controlPending && kernelControl == q[0].expiration && controlIsFallback == !updateSupported
        && unchanged(`driverArmed, `driverDeadline, `kernelDeadline)
    }

    /** Brings the requests in step with the earliest timer; at most one request is submitted. */
    method Reconcile(submitted: bool) returns (ok: bool)
      requires store.Linked() && Requests()
      modifies this`driverArmed, this`driverDeadline, this`driverSpec, this`kernelDeadline, this`requestedDeadline
      modifies this`controlIsFallback, this`controlPending, this`fallbackArmed, this`controlSpec, this`kernelControl
      modifies this`driverInRing, this`controlInRing
      ensures Requests() && (ok ==> Covered()) && (!ok ==> !submitted)
      ensures (ok ==> Brought()) && (ok && !old(controlPending) ==> Timely()) && (old(controlPending) ==> ok)
      ensures !ok || old(controlPending) ==>
        unchanged(`driverArmed, `driverDeadline, `kernelDeadline, `controlIsFallback, `controlPending, `fallbackArmed)
    {
      if controlPending {
        return true;
      }
      var earliest := store.Earliest();
      if !driverArmed {
        if earliest.Some? {
          ok := Arm(earliest.value.expiration, submitted);
          return;
        }
        return true;
      }
      if earliest.Some? && earliest.value.expiration < driverDeadline {
        if updateSupported {
          ok := Update(earliest.value.expiration, submitted);
          return;
        }
        if !fallbackArmed {
          ok := ArmFallback(earliest.value.expiration, submitted);
          return;
        }
      }
      return true;
    }

    method ReconcileOrStop(submitted: bool)
      requires store.Linked() && Requests()
      modifies this`driverArmed, this`driverDeadline, this`driverSpec, this`kernelDeadline, this`requestedDeadline
      modifies this`controlIsFallback, this`controlPending, this`fallbackArmed, this`controlSpec, this`kernelControl
      modifies this`driverInRing, this`controlInRing
      modifies this`stopRequested
      ensures Requests() && Covered() && (!old(controlPending) ==> Timely())
      ensures submitted || old(controlPending) ==> Brought() && stopRequested == old(stopRequested)
    {
      var ok := Reconcile(submitted);
      if !ok {
        stopRequested := true;
      }
    }

    // ---- Adding and cancelling -----------------------------------------------------------

    /**
     * A failed call leaves the timers and the requests as they were.  While the control request is in the ring, the new
     * timer is served in time exactly if a timeout that is already in the kernel ends soon enough.
     */
    method AddTimer(expiration: int, interval: int, submitted: bool) returns (id: Option<nat>)
      requires Valid()
      modifies this, store.Repr()
      ensures fresh(store.Repr() - old(store.Repr()))
      ensures Valid() && log == old(log) && stopRequested == old(stopRequested) && (old(Covered()) ==> Covered())
      ensures id.Some? ==>
        id.value == old(store.table.next)
        && store.table == Added(old(store.table), expiration, interval) && Covered()
        && id.value !in old(store.table).active && Timer(id.value, expiration, interval) in store.table.index
        && store.table.active == old(store.table).active[id.value := Timer(id.value, expiration, interval)]
      ensures (id.Some? ==> Brought()) && (id.Some? && !old(controlPending) ==> Timely())
      ensures (submitted || old(controlPending) ==> id.Some?) && updateSupported == old(updateSupported)
      ensures old(controlPending) && old(Timely()) ==>
        (Timely() <==> || stopRequested || kernelControl <= expiration || (driverArmed && kernelDeadline <= expiration))
      ensures id.None? ==>
        && store.table == old(store.table).(next := old(store.table.next) + 1)
        && unchanged(`driverArmed, `driverDeadline, `kernelDeadline, `controlIsFallback, `controlPending,
          `fallbackArmed)
    {
      hide Store.TimerStore.Linked, Sound, InPass, TableOk;
      AddedSound(store.table, log, expiration, interval);
      Store.NextIsNew(store.table);
      InsertFirst(store.table.index, Timer(store.table.next, expiration, interval));
      var n := store.Add(expiration, interval);
      var ok := Reconcile(submitted);
      if !ok {
        RemoveNewest(n, old(store.table), expiration, interval);
        return None;
      }
      return Some(n);
    }

    method RemoveNewest(n: nat, ghost before: Table, ghost expiration: int, ghost interval: int)
      requires store.Linked() && Sound(before, log) && Sound(store.table, log)
      requires store.table == Added(before, expiration, interval) && n == before.next
      modifies store.Repr()
      ensures store.Linked() && Sound(store.table, log) && store.table == before.(next := n + 1)
        && fresh(store.Repr() - old(store.Repr()))
    {
      hide Store.TimerStore.Linked, LogOk;
      AddErase(before, expiration, interval);
      SkippedOk(before, log);
      var _ := store.Erase(n);
    }

    /**
     * From now on the callback of `id` is never started again, found or not: not found is a timer that has run for the
     * last time, also one that cancels itself from its only callback, and one that was cancelled before.
     */
    method Cancel(id: nat, submitted: bool) returns (found: bool)
      requires Valid()
      modifies this, store.Repr()
      ensures fresh(store.Repr() - old(store.Repr()))
      ensures Valid() && (old(Covered()) ==> Covered())
      ensures found <==> id in old(store.table).active || old(store.table).running == Some(id)
      ensures log == Noted(old(store.table), old(log), id)
      ensures var t := old(store.table);
        store.table == Erased(t, id).(runningCancelled := t.runningCancelled || t.running == Some(id))
      ensures store.table.active == old(store.table).active - {id}
      ensures forall x :: x in store.table.index ==> x.id != id
      ensures old(store.table).running == Some(id) ==> store.table.runningCancelled
      ensures id < old(store.table).next ==> id in log.cancelled && log.cancelled[id] == |log.started|
      ensures log.started == old(log).started
      ensures forall j :: j != id ==> (j in log.cancelled <==> j in old(log).cancelled)
    {
      hide Store.TimerStore.Linked, Sound, TableOk;
      var running := store.IsRunning(id);
      if running {
        MarkRunning(id);
        return true;
      }
      var timer := store.Lookup(id);
      if timer.None? {
        UnknownOk(store.table, log, id);
        log := Noted(store.table, log, id);
        return false;
      }
      SoundIds(store.table, log, id);
      EraseTimer(id);
      ReconcileOrStop(submitted);
      return true;
    }

    method MarkRunning(id: nat)
      requires store.Linked() && Sound(store.table, log) && store.table.running == Some(id)
      modifies this`log, store.Repr()
      ensures store.Linked() && store.Repr() == old(store.Repr()) && Sound(store.table, log)
        && store.table == Erased(old(store.table), id).(runningCancelled := true)
      ensures log == Noted(old(store.table), old(log), id)
      ensures store.table == old(store.table).(runningCancelled := true)
    {
      hide Store.TimerStore.Linked, Sound, TableOk;
      MarkedOk(store.table, log, id);
      store.Mark();
      log := Noted(old(store.table), log, id);
    }

    method EraseTimer(id: nat)
      requires store.Linked() && Sound(store.table, log) && id in store.table.active
      modifies this`log, store.Repr()
      ensures store.Linked() && fresh(store.Repr() - old(store.Repr()))
      ensures Sound(store.table, log) && store.table == Erased(old(store.table), id)
      ensures log == Noted(old(store.table), old(log), id)
    {
      hide Store.TimerStore.Linked, Sound, InPass, TableOk;
      ErasedSound(store.table, log, id);
      var _ := store.Erase(id);
      log := Noted(old(store.table), log, id);
    }

    // ---- Running the timers that are due ---------------------------------------------------

    /** One thing a callback does. */
    method Act(a: Action, now: int, ghost t0: Table, ghost ran: seq<Timer>, ghost later: bool)
      requires Valid() && InPass(t0, now, ran, store.table, log, later) && (later ==> LaterOnly([a], now))
      modifies this, store.Repr()
      ensures fresh(store.Repr() - old(store.Repr()))
      ensures Valid() && InPass(t0, now, ran, store.table, log, later)
      ensures store.table.running == old(store.table).running && log.started == old(log).started
      ensures match a
        case Add(expiration, interval, submitted) =>
          && log == old(log)
          && (|| store.table == Added(old(store.table), expiration, interval)
              || (!submitted && store.table == old(store.table).(next := old(store.table).next + 1)))
        case Cancel(id, _) =>
          && store.table == Erased(old(store.table), id).(runningCancelled := store.table.runningCancelled)
          && log == Noted(old(store.table), old(log), id)
    {
      hide Store.TimerStore.Linked, Sound, InPass, TableOk;
      assert a == [a][0];
      match a {
        case Add(expiration, interval, submitted) =>
          InPassAdded(t0, now, ran, store.table, log, later, expiration, interval);
          var _ := AddTimer(expiration, interval, submitted);
        case Cancel(id, submitted) =>
          InPassNoted(t0, now, ran, store.table, log, later, id, store.table.runningCancelled
            || store.table.running == Some(id));
          var _ := Cancel(id, submitted);
      }
    }

    /** A callback. */
    method Run(script: seq<Action>, now: int, ghost t0: Table, ghost ran: seq<Timer>, ghost later: bool)
      requires Valid() && InPass(t0, now, ran, store.table, log, later) && (later ==> LaterOnly(script, now))
      modifies this, store.Repr()
      ensures fresh(store.Repr() - old(store.Repr()))
      ensures Valid() && InPass(t0, now, ran, store.table, log, later)
      ensures store.table.running == old(store.table).running && log.started == old(log).started
      ensures Acted(script, false, old(store.table).next, old(log).cancelled.Keys, store.table, log)
    {
      hide Store.TimerStore.Linked, Sound, InPass, TableOk, Acted;
      ActedNone(false, store.table, log);
      assert script[..0] == [];
      for i := 0 to |script|
        invariant fresh(store.Repr() - old(store.Repr()))
        invariant Valid() && InPass(t0, now, ran, store.table, log, later)
        invariant store.table.running == old(store.table).running && log.started == old(log).started
        invariant Acted(script[..i], false, old(store.table).next, old(log).cancelled.Keys, store.table, log)
      {
        ghost var t, l := store.table, log;
        Act(script[i], now, t0, ran, later);
        ActedNext(script, i, false, old(store.table).next, old(log).cancelled.Keys, t, l, store.table, log);
      }
      assert script[..|script|] == script;
    }

    /** Takes out the earliest timer, runs its callback and arms it again if it repeats and was not cancelled. */
    method Fire(now: int, script: seq<Action>, ghost t0: Table, ghost ran: seq<Timer>, ghost later: bool)
      requires Valid() && InPass(t0, now, ran, store.table, log, later) && (later ==> LaterOnly(script, now))
      requires store.table.running.None? && store.table.index != [] && store.table.index[0].expiration <= now
      modifies this, store.Repr()
      ensures fresh(store.Repr() - old(store.Repr()))
      ensures Valid() && InPass(t0, now, ran + [old(store.table).index[0]], store.table, log, later)
        && store.table.running.None?
      ensures log.started == old(log).started + [old(store.table).index[0].id]
      ensures Again(old(store.table).index[0], now, store.table, log)
      ensures Acted(script, false, old(store.table).next, old(log).cancelled.Keys, store.table, log)
    {
      hide Store.TimerStore.Linked, Sound, InPass, TableOk, Acted, Again;
      PoppedIds(store.table, log);
      var timer := Take(now, t0, ran, later);
      Run(script, now, t0, ran + [timer], later);
      ActedOver(script, false, old(store.table).next, old(log).cancelled.Keys, store.table, log, timer, now);
      if timer.interval > 0 {
        SoundTable(store.table, log);
        InPassRearmed(t0, now, ran + [timer], store.table, log, later, timer);
        store.Rearm(timer, now);
      }
      InPassRepeated(t0, now, ran + [timer], store.table, log, later);
      assert (ran + [timer])[|ran|] == timer;
    }

    /** The earliest timer leaves index and registry; only a callback that repeats can be cancelled while it runs. */
    method Take(now: int, ghost t0: Table, ghost ran: seq<Timer>, ghost later: bool) returns (timer: Timer)
      requires Valid() && InPass(t0, now, ran, store.table, log, later)
      requires store.table.running.None? && store.table.index != [] && store.table.index[0].expiration <= now
      modifies this`log, store.Repr()
      ensures Valid() && fresh(store.Repr() - old(store.Repr())) && timer == old(store.table).index[0]
      ensures InPass(t0, now, ran + [timer], store.table, log, later)
      ensures store.table.running == (if timer.interval > 0 then Some(timer.id) else None)
      ensures log.started == old(log).started + [timer.id] && log.cancelled == old(log).cancelled
      ensures store.table.next == old(store.table).next
    {
      hide Store.TimerStore.Linked, Sound, InPass, TableOk;
      SoundTable(store.table, log);
      var earliest := store.Earliest();
      var repeats := earliest.value.interval > 0;
      InPassPopped(t0, now, ran, store.table, log, later, repeats);
      timer := store.Pop(repeats);
      log := log.(started := log.started + [timer.id]);
    }

    /** The next timer of a pass that began with `t0` and `log0`. */
    method ServeNext(now: int, scripts: seq<seq<Action>>, runs: nat, ghost t0: Table, ghost log0: Log,
        ghost ran: seq<Timer>, ghost later: bool)
      returns (ghost ran': seq<Timer>)
      requires Valid() && InPass(t0, now, ran, store.table, log, later) && runs == |ran| < |scripts|
      requires later ==> LaterOnly(scripts[runs], now)
      requires store.table.running.None? && store.table.index != [] && store.table.index[0].expiration <= now
      requires AllActed(scripts[..runs], t0.next, log0.cancelled.Keys, store.table, log)
      requires log.started == log0.started + Ids(ran)
      modifies this, store.Repr()
      ensures fresh(store.Repr() - old(store.Repr()))
      ensures Valid() && store.table.running.None? && |ran'| == runs + 1
      ensures InPass(t0, now, ran', store.table, log, later) && log.started == log0.started + Ids(ran')
      ensures AllActed(scripts[..runs + 1], t0.next, log0.cancelled.Keys, store.table, log)
    {
      hide Store.TimerStore.Linked, Sound, InPass, TableOk, Acted, AllActed, Again;
      ghost var first := store.table.index[0];
      Fire(now, scripts[runs], t0, ran, later);
      AllActedNext(scripts, runs, false, t0.next, log0.cancelled.Keys, old(store.table), old(log), store.table, log);
      IdsNext(ran, first);
      ran' := ran + [first];
    }

    /**
     * Runs the timers that are due at `now`, earliest first, as many as there are scripts; the callbacks do what the
     * scripts say.
     */
    method ProcessExpired(now: int, scripts: seq<seq<Action>>, ghost later: bool)
        returns (runs: nat, ghost ran: seq<Timer>)
      requires Valid() && store.table.running.None?
        && (later ==> forall i :: 0 <= i < |scripts| ==> LaterOnly(scripts[i], now))
      modifies this, store.Repr()
      ensures fresh(store.Repr() - old(store.Repr()))
      ensures Valid() && store.table.running.None?
      ensures runs == |ran| <= |scripts| && InPass(old(store.table), now, ran, store.table, log, later)
      ensures runs < |scripts| ==> store.table.index == [] || store.table.index[0].expiration > now
      ensures log.started == old(log).started + Ids(ran)
      ensures forall k :: 0 <= k < |ran| ==> Again(ran[k], now, store.table, log)
      ensures AllActed(scripts[..runs], old(store.table).next, old(log).cancelled.Keys, store.table, log)
      ensures (runs < |scripts| ==> AllServed(old(store.table), now, ran, log))
        && (later ==> runs <= DueCount(old(store.table).index, now))
    {
      hide Store.TimerStore.Linked, Sound, InPass, TableOk, Acted, AllActed, Again;
      runs, ran := 0, [];
      NoneActed(scripts, store.table, log);
      InPassStart(store.table, now, log, later);
      var earliest := store.Earliest();
      while runs < |scripts| && earliest.Some? && earliest.value.expiration <= now
        invariant earliest == if store.table.index == [] then None else Some(store.table.index[0])
        invariant fresh(store.Repr() - old(store.Repr()))
        invariant Valid() && store.table.running.None? && runs == |ran| <= |scripts|
          && InPass(old(store.table), now, ran, store.table, log, later)
        invariant log.started == old(log).started + Ids(ran)
        invariant AllActed(scripts[..runs], old(store.table).next, old(log).cancelled.Keys, store.table, log)
        decreases |scripts| - runs
      {
        ran := ServeNext(now, scripts, runs, old(store.table), old(log), ran, later);
        runs := runs + 1;
        earliest := store.Earliest();
      }
      SoundTable(store.table, log);
      InPassRepeated(old(store.table), now, ran, store.table, log, later);
      PassDone(old(store.table), now, ran, store.table, log, later);
    }

    // ---- Completions -----------------------------------------------------------------------

    /** The driver timeout completes: it expired, and the timers that are due run, or an update ended it early. */
    method OnDriver(expired: bool, now: int, scripts: seq<seq<Action>>, submitted: bool, ghost later: bool)
      returns (runs: nat, ghost ran: seq<Timer>)
      requires Valid() && driverArmed && store.table.running.None?
      requires later ==> forall i :: 0 <= i < |scripts| ==> LaterOnly(scripts[i], now)
      modifies this, store.Repr()
      ensures fresh(store.Repr() - old(store.Repr()))
      ensures Valid() && Covered() && store.table.running.None?
      ensures runs == |ran| <= |scripts| && InPass(old(store.table), now, ran, store.table, log, later)
      ensures log.started == old(log).started + Ids(ran)
      ensures if expired
              then runs < |scripts| ==> store.table.index == [] || store.table.index[0].expiration > now
              else runs == 0 && store.table == old(store.table)
      ensures forall k :: 0 <= k < |ran| ==> Again(ran[k], now, store.table, log)
      ensures AllActed(scripts[..runs], old(store.table).next, old(log).cancelled.Keys, store.table, log)
      ensures expired && runs < |scripts| ==> AllServed(old(store.table), now, ran, log)
      ensures later ==> runs <= DueCount(old(store.table).index, now)
    {
      hide Store.TimerStore.Linked, Sound, InPass, TableOk, AllActed, Again;
      driverInRing := false;
      driverArmed := false;
      runs, ran := MaybeProcess(expired, now, scripts, later);
      ReconcileOrStop(submitted);
    }

    method MaybeProcess(fired: bool, now: int, scripts: seq<seq<Action>>, ghost later: bool)
        returns (runs: nat, ghost ran: seq<Timer>)
      requires Valid() && store.table.running.None?
        && (later ==> forall i :: 0 <= i < |scripts| ==> LaterOnly(scripts[i], now))
      modifies this, store.Repr()
      ensures fresh(store.Repr() - old(store.Repr()))
      ensures Valid() && store.table.running.None?
      ensures runs == |ran| <= |scripts| && InPass(old(store.table), now, ran, store.table, log, later)
      ensures log.started == old(log).started + Ids(ran)
      ensures fired ==> runs < |scripts| ==> store.table.index == [] || store.table.index[0].expiration > now
      ensures forall k :: 0 <= k < |ran| ==> Again(ran[k], now, store.table, log)
      ensures AllActed(scripts[..runs], old(store.table).next, old(log).cancelled.Keys, store.table, log)
      ensures fired && runs < |scripts| ==> AllServed(old(store.table), now, ran, log)
      ensures later ==> runs <= DueCount(old(store.table).index, now)
      ensures !fired ==> runs == 0 && store.table == old(store.table) && unchanged(this)
    {
      hide Store.TimerStore.Linked, Sound, InPass, TableOk, AllActed, Again;
      if fired {
        runs, ran := ProcessExpired(now, scripts, later);
      } else {
        InPassStart(store.table, now, log, later);
        NoneActed(scripts, store.table, log);
        runs, ran := 0, [];
      }
    }

    /**
     * The control request completes: a fallback timeout expired, or an update of the driver timeout succeeded or
     * failed.
     */
    method OnControl(c: Completion, now: int, scripts: seq<seq<Action>>, submitted: bool, ghost later: bool)
      returns (runs: nat, ghost ran: seq<Timer>)
      requires Valid() && controlPending && store.table.running.None?
      requires later ==> forall i :: 0 <= i < |scripts| ==> LaterOnly(scripts[i], now)
      modifies this, store.Repr()
      ensures fresh(store.Repr() - old(store.Repr()))
      ensures Valid() && Covered() && store.table.running.None?
      ensures runs == |ran| <= |scripts| && InPass(old(store.table), now, ran, store.table, log, later)
      ensures log.started == old(log).started + Ids(ran)
      ensures if old(controlIsFallback) && c.TimedOut?
              then runs < |scripts| ==> store.table.index == [] || store.table.index[0].expiration > now
              else runs == 0 && store.table == old(store.table)
      ensures forall k :: 0 <= k < |ran| ==> Again(ran[k], now, store.table, log)
      ensures AllActed(scripts[..runs], old(store.table).next, old(log).cancelled.Keys, store.table, log)
      ensures !(old(controlIsFallback) && c.TimedOut?) ==>
        Timely() && (submitted ==> stopRequested == old(stopRequested))
      ensures !old(controlIsFallback) ==> updateSupported == (old(updateSupported) && c.Done?)
      ensures !old(controlIsFallback) && !c.Done? && submitted && old(driverArmed) && store.table.index != [] ==>
        && driverArmed && kernelDeadline == old(kernelDeadline)
        && (store.table.index[0].expiration < kernelDeadline ==>
              controlPending && controlIsFallback && kernelControl == store.table.index[0].expiration)
      ensures old(controlIsFallback) && c.TimedOut? && runs < |scripts| ==> AllServed(old(store.table), now, ran, log)
      ensures later ==> runs <= DueCount(old(store.table).index, now)
    {
      hide Store.TimerStore.Linked, Sound, InPass, TableOk, AllActed, Again;
      controlInRing := false;
      if c.Done? && !controlIsFallback { kernelDeadline := kernelControl; }
      controlPending := false;
      var fallback := controlIsFallback;
      if fallback {
        controlIsFallback, fallbackArmed := false, false;
      } else if c.Done? {
        driverDeadline := requestedDeadline;
      } else {
        updateSupported := false;
      }
      runs, ran := MaybeProcess(fallback && c.TimedOut?, now, scripts, later);
      ReconcileOrStop(submitted);
    }
  }

  lemma {:induction false} InsertFirst(q: seq<Timer>, t: Timer)
    ensures Insert(q, t) != [] && Insert(q, t)[0] == if q == [] || Before(t, q[0]) then t else q[0]
  {
  }

  /**
   * A timer that is late: the kernel refuses to move the driver timeout, so that a second timeout is used, and a timer
   * added then is earlier than both.  No request is made for it until one of them ends.
   */
  method LateBehindFallback() returns (q: UringTimers)
    ensures fresh(q) && q.Valid() && q.store.table.index != [] && q.store.table.index[0] == Timer(2, 20, 0)
    ensures q.driverArmed && q.kernelDeadline == 100 && q.controlIsFallback && q.kernelControl == 50 && !q.Timely()
  {
    hide Store.TimerStore.Linked, Sound, TableOk, Insert, InPass, Again, AllServed;
    q := FallbackInUse();
    InsertFirst(q.store.table.index, Timer(2, 20, 0));
    var _ := q.AddTimer(20, 0, true);
  }

  /** Timers for 100 and 50; the driver timeout is for the first, and a second timeout for the other. */
  method FallbackInUse() returns (q: UringTimers)
    ensures fresh(q) && fresh(q.store) && fresh(q.store.Repr()) && q.Valid() && !q.stopRequested
    ensures q.store.table.index != [] && q.store.table.index[0] == Timer(1, 50, 0) && q.store.table.next == 2
    ensures q.controlPending && q.driverArmed && q.kernelDeadline == 100 && q.controlIsFallback && q.kernelControl == 50
  {
    hide Store.TimerStore.Linked, Sound, TableOk, Insert, InPass, Again, AllServed;
    q := new UringTimers();
    InsertFirst(q.store.table.index, Timer(0, 100, 0));
    var _ := q.AddTimer(100, 0, true);
    InsertFirst(q.store.table.index, Timer(1, 50, 0));
    var _ := q.AddTimer(50, 0, true);
    var _, _ := q.OnControl(Failed, 0, [], true, true);
  }
}
