/** The timer queue of the epoll loop: one timerfd is kept armed for the earliest timer. */
module EpollTimers {
  import opened Options
  import opened TimerTable
  import Store = TimerStore

  class EpollTimers {
    const store: Store.TimerStore
    ghost var log: Log
    /** What the timerfd is armed for. */
    ghost var armed: Option<int>

    ghost predicate Valid()
      reads this, store, store.Repr()
    {
      store.Linked() && Sound(store.table, log)
    }

    /** The timerfd wakes the loop no later than the earliest timer. */
    ghost predicate Covered()
      reads this, store
    {
      store.table.index == [] || (armed.Some? && armed.value <= store.table.index[0].expiration)
    }

    constructor ()
      ensures Valid() && Covered() && store.table == EMPTY_TABLE && fresh(store.Repr())
      ensures log == Log([], map[]) && armed == None
    {
      store := new Store.TimerStore();
      log, armed := Log([], map[]), None;
    }

    method ResetTimerfd(expiration: int)
      modifies this`armed
      ensures armed == Some(expiration)
    {
      armed := Some(expiration);
    }

    /** Arms the timerfd for the earliest timer, if there is one. */
    method ResetToEarliest()
      requires store.Linked()
      modifies this`armed
      ensures Covered()
    {
      var earliest := store.Earliest();
      if earliest.Some? {
        ResetTimerfd(earliest.value.expiration);
      }
    }

    method AddTimer(expiration: int, interval: int) returns (id: nat)
      requires Valid()
      modifies this, store.Repr()
      ensures fresh(store.Repr() - old(store.Repr()))
      ensures Valid() && (old(Covered()) ==> Covered())
      ensures id == old(store.table.next) && store.table == Added(old(store.table), expiration, interval)
        && log == old(log)
      ensures id !in old(store.table).active && Timer(id, expiration, interval) in store.table.index
      ensures store.table.active == old(store.table).active[id := Timer(id, expiration, interval)]
    {
      hide Store.TimerStore.Linked, Sound, InPass, TableOk;
      var earliest := store.Earliest();
      AddedSound(store.table, log, expiration, interval);
      Store.NextIsNew(store.table);
      id := store.Add(expiration, interval);
      var earliestChanged := earliest.None? || expiration < earliest.value.expiration;
      if earliestChanged {
        ResetTimerfd(expiration);
      }
    }

    /** From now on the callback of `id` is never started again, whether the timer is known or not. */
    method Cancel(id: nat)
      requires Valid()
      modifies this, store.Repr()
      ensures fresh(store.Repr() - old(store.Repr()))
      ensures Valid() && (old(Covered()) ==> Covered())
      ensures log == Noted(old(store.table), old(log), id)
      ensures var t := old(store.table);
        store.table == Erased(t, id).(runningCancelled := t.runningCancelled || t.running == Some(id))
      ensures store.table.active == old(store.table).active - {id}
      ensures forall x :: x in store.table.index ==> x.id != id
      ensures old(store.table).running == Some(id) ==> store.table.runningCancelled
      ensures id < old(store.table).next ==> id in log.cancelled && log.cancelled[id] == |log.started|
      ensures log.started == old(log).started
      ensures forall j :: j != id ==> (j in log.cancelled <==> j in old(log).cancelled)
    {
      hide Store.TimerStore.Linked, Sound, TableOk;
      var timer := store.Lookup(id);
      if timer.Some? {
        SoundIds(store.table, log, id);
        Remove(timer.value);
        return;
      }
      var running := store.IsRunning(id);
      if running {
        MarkedOk(store.table, log, id);
        log := Noted(store.table, log, id);
        store.Mark();
      } else {
        UnknownOk(store.table, log, id);
        log := Noted(store.table, log, id);
      }
    }

    method Remove(timer: Timer)
      requires Valid() && timer.id in store.table.active && store.table.active[timer.id] == timer
      modifies this, store.Repr()
      ensures fresh(store.Repr() - old(store.Repr()))
      ensures Valid() && (old(Covered()) ==> Covered())
      ensures store.table == Erased(old(store.table), timer.id) && log == Noted(old(store.table), old(log), timer.id)
    {
      hide Store.TimerStore.Linked, Sound, TableOk, Without;
      var earliest := store.Earliest();
      var earliestRemoved := earliest == Some(timer);
      ErasedSound(store.table, log, timer.id);
      ErasedFirst(store.table, timer.id);
      var _ := store.Erase(timer.id);
      log := Noted(old(store.table), log, timer.id);
      if earliestRemoved {
        ResetToEarliest();
      }
    }

    // ---- Running the timers that are due -----------------------------------------------------

    method Act(a: Action, now: int, ghost t0: Table, ghost ran: seq<Timer>, ghost later: bool)
      requires Valid() && InPass(t0, now, ran, store.table, log, later) && (later ==> LaterOnly([a], now))
      modifies this, store.Repr()
      ensures fresh(store.Repr() - old(store.Repr()))
      ensures Valid() && InPass(t0, now, ran, store.table, log, later)
      ensures store.table.running == old(store.table).running && log.started == old(log).started
      ensures match a
        case Add(expiration, interval, _) =>
          store.table == Added(old(store.table), expiration, interval) && log == old(log)
        case Cancel(id, _) =>
          && store.table == Erased(old(store.table), id).(runningCancelled := store.table.runningCancelled)
          && log == Noted(old(store.table), old(log), id)
    {
      hide Store.TimerStore.Linked, Sound, InPass, TableOk;
      assert a == [a][0];
      match a {
        case Add(expiration, interval, _) =>
          InPassAdded(t0, now, ran, store.table, log, later, expiration, interval);
          var _ := AddTimer(expiration, interval);
        case Cancel(id, _) =>
          InPassNoted(t0, now, ran, store.table, log, later, id, store.table.runningCancelled
            || store.table.running == Some(id));
          Cancel(id);
      }
    }

    method Run(script: seq<Action>, now: int, ghost t0: Table, ghost ran: seq<Timer>, ghost later: bool)
      requires Valid() && InPass(t0, now, ran, store.table, log, later) && (later ==> LaterOnly(script, now))
      modifies this, store.Repr()
      ensures fresh(store.Repr() - old(store.Repr()))
      ensures Valid() && InPass(t0, now, ran, store.table, log, later)
      ensures store.table.running == old(store.table).running && log.started == old(log).started
      ensures Acted(script, true, old(store.table).next, old(log).cancelled.Keys, store.table, log)
    {
      hide Store.TimerStore.Linked, Sound, InPass, TableOk, Acted;
      ActedNone(true, store.table, log);
      assert script[..0] == [];
      for i := 0 to |script|
        invariant fresh(store.Repr() - old(store.Repr()))
        invariant Valid() && InPass(t0, now, ran, store.table, log, later)
        invariant store.table.running == old(store.table).running && log.started == old(log).started
        invariant Acted(script[..i], true, old(store.table).next, old(log).cancelled.Keys, store.table, log)
      {
        ghost var t, l := store.table, log;
        Act(script[i], now, t0, ran, later);
        ActedNext(script, i, true, old(store.table).next, old(log).cancelled.Keys, t, l, store.table, log);
      }
      assert script[..|script|] == script;
    }

    /** Takes out the earliest timer, runs its callback and arms it again if it repeats and was not cancelled. */
    method Fire(now: int, script: seq<Action>, ghost t0: Table, ghost ran: seq<Timer>, ghost later: bool)
      requires Valid() && InPass(t0, now, ran, store.table, log, later) && (later ==> LaterOnly(script, now))
      requires store.table.running.None? && store.table.index != [] && store.table.index[0].expiration <= now
      modifies this, store.Repr()
      ensures fresh(store.Repr() - old(store.Repr()))
      ensures Valid() && InPass(t0, now, ran + [old(store.table).index[0]], store.table, log, later)
        && store.table.running.None?
      ensures log.started == old(log).started + [old(store.table).index[0].id]
      ensures Again(old(store.table).index[0], now, store.table, log)
      ensures Acted(script, true, old(store.table).next, old(log).cancelled.Keys, store.table, log)
    {
      hide Store.TimerStore.Linked, Sound, InPass, TableOk, Acted, Again, Rearmed;
      SoundTable(store.table, log);
      InPassPopped(t0, now, ran, store.table, log, later, true);
      var timer := store.Pop(true);
      log := log.(started := log.started + [timer.id]);
      PoppedIds(old(store.table), old(log));
      Run(script, now, t0, ran + [timer], later);
      ActedOver(script, true, old(store.table).next, old(log).cancelled.Keys, store.table, log, timer, now);
      Finish(timer, now, t0, ran + [timer], later);
      InPassRepeated(t0, now, ran + [timer], store.table, log, later);
      assert (ran + [timer])[|ran|] == timer;
    }

    method Finish(timer: Timer, now: int, ghost t0: Table, ghost ran: seq<Timer>, ghost later: bool)
      requires Valid() && InPass(t0, now, ran, store.table, log, later) && store.table.running == Some(timer.id)
      requires ran != [] && ran[|ran| - 1] == timer
      modifies store.Repr()
      ensures fresh(store.Repr() - old(store.Repr()))
      ensures Valid() && InPass(t0, now, ran, store.table, log, later) && store.table.running.None?
      ensures var t := old(store.table);
        store.table == if timer.interval > 0 && !t.runningCancelled then Rearmed(t, timer, now)
                       else t.(running := None, runningCancelled := false)
    {
      hide Store.TimerStore.Linked, Sound, TableOk, InPass;
      var marked := store.IsMarked();
      if timer.interval > 0 && !marked {
        SoundTable(store.table, log);
        InPassRearmed(t0, now, ran, store.table, log, later, timer);
        store.Rearm(timer, now);
      } else {
        InPassRested(t0, now, ran, store.table, log, later, timer);
        store.Rest();
      }
    }

    /** The next timer of a pass that began with `t0` and `log0`. */
    method ServeNext(now: int, scripts: seq<seq<Action>>, runs: nat, ghost t0: Table, ghost log0: Log,
        ghost ran: seq<Timer>, ghost later: bool)
      returns (ghost ran': seq<Timer>)
      requires Valid() && InPass(t0, now, ran, store.table, log, later) && runs == |ran| < |scripts|
      requires later ==> LaterOnly(scripts[runs], now)
      requires store.table.running.None? && store.table.index != [] && store.table.index[0].expiration <= now
      requires AllActed(scripts[..runs], t0.next, log0.cancelled.Keys, store.table, log)
      requires log.started == log0.started + Ids(ran)
      modifies this, store.Repr()
      ensures fresh(store.Repr() - old(store.Repr()))
      ensures Valid() && store.table.running.None? && |ran'| == runs + 1
      ensures InPass(t0, now, ran', store.table, log, later) && log.started == log0.started + Ids(ran')
      ensures AllActed(scripts[..runs + 1], t0.next, log0.cancelled.Keys, store.table, log)
    {
      hide Store.TimerStore.Linked, Sound, InPass, TableOk, Acted, AllActed, Again;
      ghost var first := store.table.index[0];
      Fire(now, scripts[runs], t0, ran, later);
      AllActedNext(scripts, runs, true, t0.next, log0.cancelled.Keys, old(store.table), old(log), store.table, log);
      IdsNext(ran, first);
      ran' := ran + [first];
    }

    /** Runs the timers that are due at `now`, as many as there are scripts. */
    method PopDue(now: int, scripts: seq<seq<Action>>, ghost later: bool) returns (runs: nat, ghost ran: seq<Timer>)
      requires Valid() && store.table.running.None?
        && (later ==> forall i :: 0 <= i < |scripts| ==> LaterOnly(scripts[i], now))
      modifies this, store.Repr()
      ensures fresh(store.Repr() - old(store.Repr()))
      ensures Valid() && store.table.running.None?
      ensures runs == |ran| <= |scripts| && InPass(old(store.table), now, ran, store.table, log, later)
      ensures runs < |scripts| ==> store.table.index == [] || store.table.index[0].expiration > now
      ensures log.started == old(log).started + Ids(ran)
      ensures forall k :: 0 <= k < |ran| ==> Again(ran[k], now, store.table, log)
      ensures AllActed(scripts[..runs], old(store.table).next, old(log).cancelled.Keys, store.table, log)
      ensures (runs < |scripts| ==> AllServed(old(store.table), now, ran, log))
        && (later ==> runs <= DueCount(old(store.table).index, now))
    {
      hide Store.TimerStore.Linked, Sound, InPass, TableOk, Acted, AllActed, Again;
      runs, ran := 0, [];
      NoneActed(scripts, store.table, log);
      InPassStart(store.table, now, log, later);
      var earliest := store.Earliest();
      while runs < |scripts| && earliest.Some? && earliest.value.expiration <= now
        invariant earliest == if store.table.index == [] then None else Some(store.table.index[0])
        invariant fresh(store.Repr() - old(store.Repr()))
        invariant Valid() && store.table.running.None? && runs == |ran| <= |scripts|
          && InPass(old(store.table), now, ran, store.table, log, later)
        invariant log.started == old(log).started + Ids(ran)
        invariant AllActed(scripts[..runs], old(store.table).next, old(log).cancelled.Keys, store.table, log)
        decreases |scripts| - runs
      {
        ran := ServeNext(now, scripts, runs, old(store.table), old(log), ran, later);
        runs := runs + 1;
        earliest := store.Earliest();
      }
      SoundTable(store.table, log);
      InPassRepeated(old(store.table), now, ran, store.table, log, later);
      PassDone(old(store.table), now, ran, store.table, log, later);
    }

    /** The timerfd fires: the timers that are due run, and it is armed again. */
    method HandleRead(now: int, scripts: seq<seq<Action>>, ghost later: bool) returns (runs: nat, ghost ran: seq<Timer>)
      requires Valid() && store.table.running.None?
        && (later ==> forall i :: 0 <= i < |scripts| ==> LaterOnly(scripts[i], now))
      modifies this, store.Repr()
      ensures fresh(store.Repr() - old(store.Repr()))
      ensures Valid() && Covered() && store.table.running.None?
      ensures runs == |ran| <= |scripts| && InPass(old(store.table), now, ran, store.table, log, later)
      ensures runs < |scripts| ==> store.table.index == [] || store.table.index[0].expiration > now
      ensures log.started == old(log).started + Ids(ran)
      ensures forall k :: 0 <= k < |ran| ==> Again(ran[k], now, store.table, log)
      ensures AllActed(scripts[..runs], old(store.table).next, old(log).cancelled.Keys, store.table, log)
      ensures (runs < |scripts| ==> AllServed(old(store.table), now, ran, log))
        && (later ==> runs <= DueCount(old(store.table).index, now))
    {
      hide Store.TimerStore.Linked, Sound, InPass, TableOk, AllActed, Again;
      runs, ran := PopDue(now, scripts, later);
      ResetToEarliest();
    }
  }

  /** Erasing another timer leaves the earliest one in front. */
  lemma {:induction false} ErasedFirst(t: Table, id: nat)
    requires TableOk(t) && id in t.active
    ensures t.index != []
    ensures t.active[id] != t.index[0] ==> Erased(t, id).index != [] && Erased(t, id).index[0] == t.index[0]
  {
    assert t.active[id] in t.index && t.index[0] in t.index;
  }
}
