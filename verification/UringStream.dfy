/**
  The io_uring stream as it is programmed: flags, a timer generation and two
  resume slots per direction, and the close that waits for both directions.
  Every handler is proved to be one step of the stream machine.
 */
module UringStream {
  import opened Options
  import opened StreamModel

  /** One direction of a stream; operations and timers are known by numbers. */
  class Direction {
    var pending: Option<nat>
    var target: Option<nat>
    var cancelRequested: bool
    var cancelSubmitted: bool
    var cancelTerminal: bool
    var primaryTerminal: bool
    var timedOut: bool
    var hasDeadline: bool
    var generation: nat
    /** The continuation, held by the operation or by its cancel request. */
    var primaryWork: Option<nat>
    var cancelWork: Option<nat>
    /** The awaiter of the current operation: its result is recorded, and whether that is a timeout. */
    var resultRecorded: bool
    var resultTimedOut: bool
    /** Neither a cancel request nor its retry could be scheduled: the loop is told to stop. */
    var stopRequested: bool
    /** Where the machine stands, and the generations for which a retry was scheduled. */
    ghost var state: Side
    ghost var retries: set<nat>

    /** The phase that the flags stand for. */
    ghost function PhaseOf(): Phase
      reads this
    {
      if target.None? then Idle
      else if primaryTerminal then PrimaryFirst
      else if cancelTerminal then CancelFirst
      else if cancelSubmitted then Cancelling
      else if cancelRequested then Expired
      else Active
    }

    /**
     * The flags encode the machine's state: the slot is held as long as an operation is registered, and exactly one of
     * the operation and its cancel request holds the continuation.
     */
    ghost predicate Valid()
      reads this
    {
      && state.phase == PhaseOf() && state.generation == generation
      && (target.Some? ==> state.result == resultRecorded)
      && pending == target && timedOut == cancelRequested
      && (cancelSubmitted ==> cancelRequested) && (cancelTerminal ==> cancelSubmitted)
      && (primaryTerminal ==> cancelSubmitted && !cancelTerminal)
      && (target.None? ==> !cancelRequested && primaryWork.None? && cancelWork.None?)
      && (target.Some? ==>
            && target == Some(Current(state))
            && primaryWork == (if primaryTerminal then None else target)
            && cancelWork == (if primaryTerminal then target else None))
      && (forall g :: g in retries ==> g <= generation)
      && (generation in retries ==> target.Some? && cancelRequested)
    }

    constructor ()
      ensures Valid() && state == INITIAL_SIDE && !hasDeadline && retries == {} && !stopRequested
    {
      pending, target, primaryWork, cancelWork := None, None, None, None;
      cancelRequested, cancelSubmitted, cancelTerminal, primaryTerminal, timedOut := false, false, false, false, false;
      hasDeadline, resultRecorded, resultTimedOut, stopRequested := false, false, false, false;
      generation := 0;
      state := INITIAL_SIDE;
      retries := {};
    }

    // ---- Timers --------------------------------------------------------------

    method CancelTimer()
      modifies this`generation
      ensures generation == old(generation) + 1
    {
      generation := generation + 1;
    }

    /** Arms the deadline timer of the current operation if it needs one; the loop may refuse the timer. */
    method ArmTimer(accepted: bool) returns (ok: bool)
      modifies this`generation
      ensures var needed := target.Some? && hasDeadline && !cancelRequested;
        generation == old(generation) + (if needed then 1 else 0) && (ok <==> !needed || accepted)
    {
      if target.None? || !hasDeadline || cancelRequested {
        return true;
      }
      generation := generation + 1;
      return accepted;
    }

    // ---- Beginning and aborting ----------------------------------------------

    method ClearDeadlineState()
      modifies this`target, this`cancelRequested, this`cancelSubmitted, this`cancelTerminal, this`primaryTerminal,
        this`timedOut
      ensures target.None? && !cancelRequested && !cancelSubmitted && !cancelTerminal && !primaryTerminal && !timedOut
    {
      target := None;
      cancelRequested, cancelSubmitted, cancelTerminal, primaryTerminal, timedOut := false, false, false, false, false;
    }

    /** Registers operation `op`; refused if its deadline has passed or its timer cannot be armed. */
    method Begin(op: nat, passed: bool, accepted: bool) returns (ok: bool)
      requires target.None?
      modifies this
      ensures unchanged(`pending, `hasDeadline, `primaryWork, `retries, `stopRequested, `state) && cancelWork.None?
      ensures target == Some(op) && !cancelRequested && !cancelSubmitted && !cancelTerminal && !primaryTerminal
        && !timedOut
      ensures !resultRecorded && (ok <==> !hasDeadline || (!passed && accepted))
      ensures generation == old(generation) + (if hasDeadline && !passed then 1 else 0)
    {
      cancelWork := None;
      ClearDeadlineState();
      target := Some(op);
      resultRecorded, resultTimedOut := false, false;
      if hasDeadline && passed {
        return false;
      }
      ok := ArmTimer(accepted);
    }

    /** Takes the registration back. */
    method Abort()
      modifies this`generation
      modifies this`target, this`cancelRequested, this`cancelSubmitted, this`cancelTerminal, this`primaryTerminal,
        this`timedOut
      ensures target.None? && !cancelRequested && !cancelSubmitted && !cancelTerminal && !primaryTerminal && !timedOut
      ensures generation == old(generation) + 1
    {
      CancelTimer();
      ClearDeadlineState();
    }

    /**
     * Starts operation `op`, the next one: reserves the slot, begins, submits.  `passed`, `accepted` and `submitted`
     * say whether the deadline has passed, the timer was accepted and the request was submitted.
     */
    method Start(op: nat, passed: bool, accepted: bool, submitted: bool) returns (began: bool)
      requires Valid() && pending.None? && op == state.log.begun
      modifies this
      ensures Valid()
      ensures began <==> submitted && (!hasDeadline || (!passed && accepted))
      ensures began ==> state == Step(old(state), Event.Start(hasDeadline))
      ensures began ==> target == pending == Some(op) && PhaseOf().Active? && !resultRecorded && op == Current(state)
      ensures began && hasDeadline ==> generation in state.log.armed && state.log.armed[generation] == op
      ensures !began ==> pending.None? && state.log == old(state).log
      ensures unchanged(`hasDeadline, `retries, `stopRequested)
      ensures !began ==> generation > old(generation) && state == Step(old(state), Refuse(generation - old(generation)))
    {
      ghost var s := state;
      pending := Some(op);
      var ok := Begin(op, passed, accepted);
      if ok {
        primaryWork := Some(op);
        if submitted {
          state := Step(s, Event.Start(hasDeadline));
          return true;
        }
        primaryWork := None;
      }
      Abort();
      pending := None;
      state := Step(s, Refuse(generation - s.generation));
      return false;
    }

    // ---- Completions -----------------------------------------------------------

    /** Both requests are settled: the finalizer releases the slot. */
    method Finalize()
      requires target.Some? && primaryTerminal && (!cancelSubmitted || cancelTerminal)
      modifies this`generation, this`pending
      modifies this`target, this`cancelRequested, this`cancelSubmitted, this`cancelTerminal, this`primaryTerminal,
        this`timedOut
      ensures target.None? && pending.None? && generation == old(generation) + 1
      ensures !cancelRequested && !cancelSubmitted && !cancelTerminal && !primaryTerminal && !timedOut
    {
      pending := None;
      CancelTimer();
      ClearDeadlineState();
    }

    /** The operation is settled; if its cancel request is still out, that takes over the continuation. */
    method Complete()
      requires target.Some? && !primaryTerminal && (cancelTerminal ==> cancelSubmitted) && primaryWork == target
        && cancelWork.None?
      modifies this`generation, this`pending, this`primaryWork, this`cancelWork
      modifies this`target, this`cancelRequested, this`cancelSubmitted, this`cancelTerminal, this`primaryTerminal,
        this`timedOut
      ensures var wait := old(cancelSubmitted && !cancelTerminal);
        if wait then
          && unchanged(`target, `pending, `cancelRequested, `cancelSubmitted, `cancelTerminal, `timedOut)
            && primaryTerminal
          && generation == old(generation) + 1 && primaryWork.None? && cancelWork == old(primaryWork)
        else
          && target.None? && pending.None? && generation == old(generation) + 2 && unchanged(`primaryWork, `cancelWork)
          && !cancelRequested && !cancelSubmitted && !cancelTerminal && !primaryTerminal && !timedOut
    {
      primaryTerminal := true;
      CancelTimer();
      if cancelSubmitted && !cancelTerminal {
        cancelWork := primaryWork;
        primaryWork := None;
        return;
      }
      Finalize();
    }

    /** Hands the continuation that the operation holds to the loop, if it holds one. */
    method ResumePrimary() returns (resumed: Option<nat>)
      modifies this`primaryWork
      ensures resumed == old(primaryWork) && primaryWork.None?
    {
      resumed := primaryWork;
      primaryWork := None;
    }

    /**
     * The result of the operation arrives; `last` unless the kernel announces a notification to follow, as it does for
     * a zero-copy send.  The continuation runs now exactly if nothing is owed any more.
     */
    method OnResult(last: bool) returns (resumed: Option<nat>)
      requires Valid() && Enabled(state, Result(last))
      modifies this
      ensures Valid() && state == Step(old(state), Result(last))
      ensures resumed == if pending.None? then Some(Current(old(state))) else None
      ensures state.log.reported == old(state.log.reported)[Current(old(state)) := resultTimedOut]
      ensures resultRecorded && resultTimedOut == old(timedOut)
      ensures pending.None? <==> last && !old(cancelSubmitted && !cancelTerminal)
      ensures last && pending.Some? ==> primaryTerminal && cancelWork == old(pending)
    {
      ghost var s := state;
      resultRecorded, resultTimedOut := true, timedOut;
      state := Step(s, Result(last));
      resumed := None;
      if last {
        Complete();
        if pending.None? { resumed := ResumePrimary(); }
      }
    }

    /** The notification that follows the result of a zero-copy send. */
    method OnNotification() returns (resumed: Option<nat>)
      requires Valid() && Enabled(state, Notify)
      modifies this
      ensures Valid() && state == Step(old(state), Notify)
      ensures resumed == if pending.None? then Some(Current(old(state))) else None
      ensures pending.None? <==> !old(cancelSubmitted && !cancelTerminal)
      ensures pending.Some? ==> primaryTerminal && cancelWork == old(pending)
    {
      state := Step(state, Notify);
      resumed := None;
      Complete();
      if pending.None? { resumed := ResumePrimary(); }
    }

    /** The cancel request completes. */
    method OnCancelDone() returns (resumed: Option<nat>)
      requires Valid() && Enabled(state, CancelDone)
      modifies this
      ensures Valid() && state == Step(old(state), CancelDone)
      ensures resumed == if pending.None? then Some(Current(old(state))) else None
      ensures (pending.None? <==> old(primaryTerminal)) && (pending.Some? ==> cancelTerminal && pending == old(pending))
    {
      state := Step(state, CancelDone);
      cancelTerminal := true;
      if !primaryTerminal {
        return None;
      }
      resumed := cancelWork;
      Finalize();
      cancelWork := None;
    }

    // ---- Deadlines -------------------------------------------------------------

    /** A timer of generation `g` is the latest, and the operation it was set for runs without a cancel request. */
    ghost predicate Due(g: nat)
      reads this
    {
      g == generation && target.Some? && !primaryTerminal && !cancelSubmitted
    }

    /**
     * The deadline timer of generation `g` fires; `submitted` says whether the cancel request went out, and `scheduled`
     * whether a retry was scheduled if it did not.
     */
    method OnDeadline(g: nat, submitted: bool, scheduled: bool)
      requires Valid() && Enabled(state, Fire(g, submitted))
      modifies this
      ensures Valid() && state == Step(old(state), Fire(g, submitted))
      ensures old(Due(g)) ==> timedOut && cancelRequested && Asked(g, submitted, scheduled)
      ensures !old(Due(g)) ==> unchanged(this)
    {
      ghost var next := Step(state, Fire(g, submitted));
      if g != generation || target.None? || primaryTerminal || cancelSubmitted {
        return;
      }
      timedOut, cancelRequested := true, true;
      Cancel(g, submitted, scheduled);
      state := next;
    }

    /** The cancel request is out, or will be retried under the same generation, or the loop stops. */
    twostate predicate Asked(g: nat, submitted: bool, scheduled: bool)
      reads this
    {
      && cancelSubmitted == submitted && unchanged(`target, `pending, `hasDeadline, `generation)
      && retries == (if !submitted && scheduled then old(retries) + {g} else old(retries))
      && stopRequested == (old(stopRequested) || (!submitted && !scheduled))
    }

    /** A failed submission is retried under the same generation. */
    method Cancel(g: nat, submitted: bool, scheduled: bool)
      modifies this`cancelSubmitted, this`cancelWork, this`retries, this`stopRequested
      ensures cancelWork.None?
      ensures cancelSubmitted == (old(cancelSubmitted) || submitted)
      ensures retries == if !submitted && scheduled then old(retries) + {g} else old(retries)
      ensures stopRequested == (old(stopRequested) || (!submitted && !scheduled))
    {
      cancelWork := None;
      if submitted {
        cancelSubmitted := true;
      } else if scheduled {
        retries := retries + {g};
      } else {
        stopRequested := true;
      }
    }

    method OnRetry(g: nat, submitted: bool, scheduled: bool)
      requires Valid() && Enabled(state, Fire(g, submitted)) && g in retries
      modifies this
      ensures Valid() && state == Step(old(state), Fire(g, submitted))
      ensures old(Due(g)) ==> timedOut && cancelRequested && Asked(g, submitted, scheduled)
      ensures !old(Due(g)) ==> unchanged(this)
    {
      ghost var next := Step(state, Fire(g, submitted));
      if g != generation || target.None? || primaryTerminal || cancelSubmitted {
        return;
      }
      Cancel(g, submitted, scheduled);
      state := next;
    }

    /** A new deadline for the current and all later operations. */
    method SetDeadline(given: bool, accepted: bool) returns (ok: bool)
      requires Valid()
      modifies this
      ensures Valid() && hasDeadline == given
      ensures var timer := given && old(PhaseOf()).Active?;
        && (ok <==> !timer || accepted)
        && state == Step(old(state), Event.SetDeadline(timer && accepted, if timer && !accepted then 1 else 0))
        && generation > old(generation)
        && (timer && accepted ==> generation in state.log.armed && Some(state.log.armed[generation]) == target)
      ensures target == old(target) && pending == old(pending) && PhaseOf() == old(PhaseOf())
      ensures unchanged(`timedOut, `cancelRequested, `cancelSubmitted, `retries, `stopRequested)
    {
      ghost var s := state;
      CancelTimer();
      hasDeadline := given;
      ok := ArmTimer(accepted);
      ghost var timer := given && PhaseOf().Active?;
      state := Step(s, Event.SetDeadline(timer && accepted, if timer && !accepted then 1 else 0));
    }
  }

  /**
   * An operation that is never cancelled: its deadline passes, the cancel request cannot be submitted, and a new
   * deadline is set before the retry.  The retry is stale then, and no timer is armed for the new deadline.
   */
  method StuckAfterNewDeadline() returns (d: Direction)
    ensures fresh(d) && d.Valid() && d.target == Some(0) && d.timedOut && d.hasDeadline && !d.cancelSubmitted
    ensures d.PhaseOf().Expired? && d.generation !in d.state.log.armed && d.generation !in d.retries && !d.stopRequested
  {
    d := new Direction();
    var _ := d.SetDeadline(true, true);
    assert d.generation == 1 && d.state.log == INITIAL_SIDE.log;
    var _ := d.Start(0, false, true, true);
    assert d.state.generation == 2 && d.state.log.armed == map[2 := 0];
    d.OnDeadline(2, false, true);
    var _ := d.SetDeadline(true, true);
    assert d.state.generation == 3;
    d.OnRetry(2, true, true);
  }

  datatype Resource = ResourceOpen | ResourceClosing | ResourceClosed

  class UringStream {
    const read: Direction
    const write: Direction
    var resource: Resource
    /** A close awaiter is registered; its cancel-all request has completed. */
    var closePending: bool
    var closeCancelTerminal: bool
    var fdOpen: bool
    ghost var log: CloseLog

    ghost function ClosingOf(): Closing
      reads this
    {
      if resource.ResourceClosed? then Closed else if closePending then Draining(closeCancelTerminal) else Open
    }

    ghost function State(): Stream
      reads this, read, write
    {
      Stream(read.state, write.state, ClosingOf(), log)
    }

    ghost predicate Valid()
      reads this, read, write
    {
      && read != write && read.Valid() && write.Valid()
      && (closePending <==> resource.ResourceClosing?) && (fdOpen <==> !resource.ResourceClosed?)
    }

    constructor ()
      ensures Valid() && State() == INITIAL_STREAM && fresh(read) && fresh(write)
    {
      read := new Direction();
      write := new Direction();
      resource, closePending, closeCancelTerminal, fdOpen := ResourceOpen, false, false, true;
      log := CloseLog(0, 0, 0, 0, 0);
    }

    method CloseFd()
      modifies this`resource, this`fdOpen, this`log
      ensures resource == ResourceClosed && !fdOpen
      ensures log == old(log).(fdCloses := old(log).fdCloses + if old(fdOpen) then 1 else 0)
    {
      resource := ResourceClosed;
      if fdOpen {
        fdOpen := false;
        log := log.(fdCloses := log.fdCloses + 1);
      }
    }

    /** Closes the descriptor if the cancel-all request is settled and both slots are free. */
    method TryComplete() returns (resumed: bool)
      requires Valid()
      modifies this
      ensures Valid() && State() == TryClose(old(State()))
      ensures resumed <==> log.resumes > old(log).resumes
      ensures resumed <==> old(closePending && closeCancelTerminal) && read.pending.None? && write.pending.None?
      ensures if resumed then resource.ResourceClosed? && !fdOpen && !closePending else unchanged(this)
    {
      if !closePending || !closeCancelTerminal || read.pending.Some? || write.pending.Some? {
        return false;
      }
      closePending := false;
      CloseFd();
      log := log.(resumes := log.resumes + 1);
      return true;
    }

    /**
     * Awaits the close; `submitted` says whether the cancel-all request went out. Refused while another close waits.
     */
    method Close(submitted: bool) returns (suspended: bool)
      requires Valid()
      modifies this
      ensures Valid() && State() == After(old(State()), StreamEvent.Close(submitted))
      ensures suspended <==> log.waits > old(log).waits
      ensures var idle := read.pending.None? && write.pending.None?;
        && (suspended <==> old(resource.ResourceOpen?) && !idle && submitted)
        && (suspended ==> resource.ResourceClosing? && closePending && !closeCancelTerminal && fdOpen)
        && (old(resource.ResourceOpen?) && idle ==> resource.ResourceClosed? && !fdOpen)
        && (!suspended && !(old(resource.ResourceOpen?) && idle) ==> resource == old(resource) && fdOpen == old(fdOpen))
    {
      if closePending || !resource.ResourceOpen? {
        return false;
      }
      resource := ResourceClosing;
      if read.pending.None? && write.pending.None? {
        CloseFd();
        return false;
      }
      closePending, closeCancelTerminal := true, false;
      if !submitted {
        closePending := false;
        resource := ResourceOpen;
        return false;
      }
      log := log.(waits := log.waits + 1, cancelsSent := log.cancelsSent + 1);
      return true;
    }

    /** The cancel-all request of the close completes. */
    method OnCloseDone() returns (resumed: bool)
      requires Valid() && CanHappen(State(), CloseDone)
      modifies this
      ensures Valid() && State() == After(old(State()), CloseDone)
      ensures resumed <==> log.resumes > old(log).resumes
      ensures resumed <==> old(closePending) && read.pending.None? && write.pending.None?
      ensures resumed ==> resource.ResourceClosed? && !fdOpen
      ensures !resumed ==> resource == old(resource) && (closePending ==> closeCancelTerminal)
    {
      log := log.(cancelsDone := log.cancelsDone + 1);
      closeCancelTerminal := true;
      resumed := TryComplete();
    }

    /** An event of direction `d`. */
    ghost function On(d: Direction, e: Event): StreamEvent {
      if d == read then StreamEvent.Read(e) else StreamEvent.Write(e)
    }

    /** Starts operation `op` in direction `d`, if the stream is open and the slot free. */
    method Start(d: Direction, op: nat, passed: bool, accepted: bool, submitted: bool) returns (began: bool)
      requires Valid() && (d == read || d == write) && op == d.state.log.begun
      modifies this, d
      ensures Valid()
      ensures began ==>
        old(resource.ResourceOpen? && d.state.phase.Idle?)
        && CanHappen(old(State()), On(d, Event.Start(d.hasDeadline)))
      ensures began ==> State() == After(old(State()), On(d, Event.Start(d.hasDeadline)))
      ensures began <==>
        old(resource.ResourceOpen? && d.pending.None?) && submitted && (!d.hasDeadline || (!passed && accepted))
      ensures began ==> d.pending == Some(op)
      ensures !began ==>
        d.state.phase == old(d.state.phase) && d.state.log == old(d.state.log)
        && ClosingOf() == old(ClosingOf())
    {
      if !resource.ResourceOpen? || d.pending.Some? {
        return false;
      }
      assert d.state.phase.Idle?;
      began := d.Start(op, passed, accepted, submitted);
    }

    method OnResult(d: Direction, last: bool) returns (resumed: Option<nat>, closed: bool)
      requires Valid() && (d == read || d == write) && Enabled(d.state, Result(last))
      modifies this, d
      ensures Valid() && State() == After(old(State()), On(d, Result(last)))
      ensures resumed == if d.pending.None? then Some(Current(old(d.state))) else None
      ensures closed <==> old(closePending && closeCancelTerminal) && read.pending.None? && write.pending.None?
      ensures closed ==> resource.ResourceClosed? && !fdOpen
    {
      resumed := d.OnResult(last);
      closed := TryComplete();
    }

    method OnNotification(d: Direction) returns (resumed: Option<nat>, closed: bool)
      requires Valid() && (d == read || d == write) && Enabled(d.state, Notify)
      modifies this, d
      ensures Valid() && State() == After(old(State()), On(d, Notify))
      ensures resumed == if d.pending.None? then Some(Current(old(d.state))) else None
      ensures closed <==> old(closePending && closeCancelTerminal) && read.pending.None? && write.pending.None?
      ensures closed ==> resource.ResourceClosed? && !fdOpen
    {
      resumed := d.OnNotification();
      closed := TryComplete();
    }

    method OnCancelDone(d: Direction) returns (resumed: Option<nat>, closed: bool)
      requires Valid() && (d == read || d == write) && Enabled(d.state, CancelDone)
      modifies this, d
      ensures Valid() && State() == After(old(State()), On(d, CancelDone))
      ensures resumed == if d.pending.None? then Some(Current(old(d.state))) else None
      ensures closed <==> old(closePending && closeCancelTerminal) && read.pending.None? && write.pending.None?
      ensures closed ==> resource.ResourceClosed? && !fdOpen
    {
      resumed := d.OnCancelDone();
      closed := TryComplete();
    }
  }
}
