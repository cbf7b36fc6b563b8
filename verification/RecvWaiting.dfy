/**
  A consumer that waits on the io_uring receive source: whether it can still be
  served, whatever happens next, and which calls leave it waiting for good.
 */
module RecvWaiting {
  import opened RecvControl

  // ---- At rest -------------------------------------------------------------------------

  /** A source that can go on has neither failed nor a cancel request in the ring. */
  ghost predicate Fit(c: Control) {
    && (c.admission.phase.Active? || c.admission.phase.Idle? ==> !c.cancelling && !c.failed)
    && (c.admission.phase.Idle? ==> !c.waiting)
  }

  /** The free slots that a source keeps for a request: as many as it resumes with, but at most 8, and one at least. */
  function Reserve(l: Limits): nat { if l.resume == 0 then 1 else if l.resume < 8 then l.resume else 8 }

  /** An active source without a request lacks free slots. */
  ghost predicate Supplied(l: Limits, c: Control) {
    c.admission.phase.Active? && !c.receiving ==> l.buffers < c.admission.leases + Reserve(l)
  }

  /** A source whose queue is full, or overflows, is not active. */
  ghost predicate Roomy(l: Limits, c: Control) {
    c.admission.phase.Active? ==> c.admission.queued < l.events && c.kept == 0
  }

  /** A source stays paused only if it must. */
  ghost predicate Detained(l: Limits, c: Control) {
    c.admission.phase.Paused? ==> c.cancelling || c.failed || c.kept > 0 || c.admission.queued > l.resume
  }

  /** What holds between two calls. */
  ghost predicate Rest(l: Limits, c: Control) {
    ControlOk(l, c) && InStep(c) && Starved(c) && Fit(c) && Roomy(l, c) && Supplied(l, c) && Detained(l, c)
  }

  /** A consumer waits, and no completion, no cancel and no slot is outstanding, or the source is over. */
  ghost predicate Abandoned(c: Control) {
    c.waiting && (c.admission.phase.Terminal? || (!c.receiving && !c.cancelling && c.admission.leases == 0))
  }

  /** A consumer waits on a source that receives no more: it has ended, or it is paused for good by an error. */
  ghost predicate LeftBehind(c: Control) {
    c.waiting && !c.receiving && (Ended(c.admission.phase) || (c.admission.phase.Paused? && c.failed))
  }

  /** Nothing is outstanding exactly if the source is over, or paused by an error with all slots and the cancel back. */
  lemma {:induction false} AbandonedExactly(l: Limits, c: Control)
    requires Rest(l, c)
    ensures Abandoned(c) <==>
      && c.waiting
      && var a := c.admission;
         a.phase.Terminal? || (a.phase.Paused? && c.failed && !c.cancelling && a.leases == 0)
    ensures Abandoned(c) <==>
      LeftBehind(c) && (c.admission.phase.Terminal? || (!c.cancelling && c.admission.leases == 0))
  {
  }

  // ---- Every call keeps it --------------------------------------------------------------

  /** What holds between the parts of a call. */
  ghost predicate Between(l: Limits, c: Control) { ControlOk(l, c) && InStep(c) && Fit(c) && Roomy(l, c) }

  lemma {:induction false} ServedKeeps(l: Limits, c: Control)
    requires Between(l, c) && Ended(c.admission.phase)
    ensures Between(l, Served(c)) && Ended(Served(c).admission.phase)
  {
    TakeKeeps(l, c.admission);
  }

  lemma {:induction false} EnsuredKeeps(l: Limits, c: Control, k: Answers)
    requires Between(l, c)
    ensures Between(l, Ensured(l, c, k)) && Supplied(l, Ensured(l, c, k))
    ensures Ensured(l, c, k).admission.phase.Paused? ==> Ensured(l, c, k) == c
  {
    hide Served, Stopped;
    StoppedOk(l, c, true, k);
    if Ended(Stopped(c, true, k).admission.phase) { ServedKeeps(l, Stopped(c, true, k)); }
  }

  lemma {:induction false} ResumedKeeps(l: Limits, c: Control, k: Answers)
    requires Between(l, c) && Supplied(l, c)
    ensures Between(l, Resumed(l, c, k)) && Supplied(l, Resumed(l, c, k)) && Detained(l, Resumed(l, c, k))
  {
    hide Ensured;
    StopKeeps(l, c.admission);
    var a := Resume(l, c.admission);
    if !(c.failed || c.cancelling || c.kept > 0 || a.None?) { EnsuredKeeps(l, c.(admission := a.value), k); }
  }

  lemma {:induction false} TookKeeps(l: Limits, c: Control, k: Answers)
    requires Between(l, c) && Supplied(l, c)
    ensures Between(l, Took(l, c, k)) && Supplied(l, Took(l, c, k)) && (Detained(l, c) ==> Detained(l, Took(l, c, k)))
  {
    hide Resumed;
    TakeKeeps(l, c.admission);
    if c.admission.queued > 0 {
      ResumedKeeps(l, c.(admission := Acquire(c.admission).value), k);
    } else if c.kept > 0 {
      ResumedKeeps(l, c.(kept := c.kept - 1), k);
    }
  }

  lemma {:induction false} CountedFit(l: Limits, c: Control, recorded: bool, last: bool, k: Answers)
    requires ControlOk(l, c) && Fit(c) && c.admission.armed == (if recorded && last then 0 else 1)
    ensures Fit(Counted(l, c, recorded, last, k))
  {
    if !recorded { CompleteKeeps(l, c.admission, NoEvent, last); }
    var a := if recorded then c.admission else Complete(l, c.admission, NoEvent, last).value;
    if a.phase.Active? { HaltedFit(l, c.(admission := a), k); }
  }

  lemma {:induction false} HaltedFit(l: Limits, c: Control, k: Answers)
    requires ControlOk(l, c) && Fit(c) && !c.admission.phase.Idle?
    ensures Fit(Halted(c, k))
  {
    StoppedOk(l, Cancelled(c.(admission := Pause(c.admission)), k.pause), true, k);
  }

  lemma {:induction false} PlacedFit(l: Limits, c: Control, last: bool, k: Answers)
    requires ControlOk(l, c) && Fit(c) && Roomy(l, c) && c.admission.armed == 1
    ensures var d := Placed(l, c, last, k); Fit(d) && (d.admission.phase.Active? ==> d.kept == 0)
  {
    hide Halted, Stopped;
    HaltedFit(l, c.(kept := c.kept + 1), k);
    HaltedOk(l, c.(kept := c.kept + 1), k);
    StoppedOk(l, c.(kept := c.kept + 1, admission := Pause(c.admission)), true, k);
    StoppedOk(l, c, true, k);
  }

  /** The end of a completion settles everything. */
  lemma {:induction false} FinishedKeeps(l: Limits, c: Control, recorded: bool, last: bool, k: Answers)
    requires ControlOk(l, c) && Fit(c) && OneAtMost(c) && c.receiving == !last
    requires c.admission.phase.Active? ==> c.kept == 0
    requires c.admission.armed == if recorded && last then 0 else 1
    ensures Rest(l, Finished(l, c, recorded, last, k))
  {
    hide Counted, Ensured, Took, Resumed;
    CountedOk(l, c, recorded, last, k);
    CountedFit(l, c, recorded, last, k);
    var d := Counted(l, c, recorded, last, k);
    CountedReceiving(l, c, recorded, last, k);
    CountedRoomy(l, c, recorded, last, k);
    EnsuredKeeps(l, d, k);
    var e := Rearmed(l, d, last, k);
    TookKeeps(l, e, k);
    ResumedKeeps(l, Delivery(l, e, k), k);
    FinishedRest(l, c, recorded, last, k);
  }

  lemma {:induction false} CountedRoomy(l: Limits, c: Control, recorded: bool, last: bool, k: Answers)
    requires ControlOk(l, c) && (c.admission.phase.Active? ==> c.kept == 0)
    requires c.admission.armed == if recorded && last then 0 else 1
    ensures Roomy(l, Counted(l, c, recorded, last, k))
  {
    hide Halted;
    if !recorded { CompleteKeeps(l, c.admission, NoEvent, last); }
    var a := if recorded then c.admission else Complete(l, c.admission, NoEvent, last).value;
    HaltedOk(l, c.(admission := a), k);
    StoppedOk(l, c.(admission := Pause(a)), true, k);
  }

  lemma {:induction false} CountedReceiving(l: Limits, c: Control, recorded: bool, last: bool, k: Answers)
    ensures Counted(l, c, recorded, last, k).receiving == c.receiving
  {
  }

  lemma {:induction false} DataKeeps(l: Limits, c: Control, ok: bool, last: bool, k: Answers)
    requires Rest(l, c) && c.receiving
    ensures Rest(l, AfterData(l, c, ok, last, k))
  {
    hide Placed, Stopped, Finished, IsRecorded;
    var d := Ending(c, last);
    PlacedCases(l, d, last, k);
    PlacedOk(l, d, last, k);
    PlacedFit(l, d, last, k);
    PlacedControl(l, d, last, k);
    StoppedOk(l, d, true, k);
    if ok {
      FinishedKeeps(l, Placed(l, d, last, k), IsRecorded(l, d, last), last, k);
    } else {
      FinishedKeeps(l, Stopped(d, true, k), false, last, k);
    }
  }

  lemma {:induction false} PlacedControl(l: Limits, c: Control, last: bool, k: Answers)
    requires ControlOk(l, c) && c.admission.armed == 1
    ensures ControlOk(l, Placed(l, c, last, k))
  {
    hide Halted, Stopped, Placed, Entry, Behind, IsDirect, IsRecorded;
    PlacedCases(l, c, last, k);
    HaltedOk(l, c.(kept := c.kept + 1), k);
    StoppedOk(l, c, true, k);
  }

  lemma {:induction false} NoDataKeeps(l: Limits, c: Control, quiet: Quiet, malformed: bool, last: bool, k: Answers)
    requires Rest(l, c) && c.receiving
    ensures Rest(l, AfterNoData(l, c, quiet, malformed, last, k))
  {
    hide Finished, Stopped;
    var d := Ending(c, last);
    QuietenedOk(l, d, quiet, malformed, last, k);
    StoppedOk(l, d, !quiet.EndOfData?, k);
    var e := if Quits(d, quiet, last) then Stopped(d, !quiet.EndOfData?, k) else d;
    StoppedOk(l, e, true, k.(stop := k.again));
    FinishedKeeps(l, Quietened(d, quiet, malformed, last, k), false, last, k);
  }

  lemma {:induction false} CancelKeeps(l: Limits, c: Control, expected: bool, k: Answers)
    requires Rest(l, c) && c.cancelling
    ensures Rest(l, AfterCancel(l, c, expected, k))
  {
    hide Resumed;
    CancelRest(l, c, expected, k);
    ResumedKeeps(l, c.(cancelling := false, failed := c.failed || !expected), k);
  }

  lemma {:induction false} StartedKeeps(l: Limits, c: Control, k: Answers)
    requires Rest(l, c) && c.admission.phase.Idle?
    ensures Rest(l, Started(l, c, k))
  {
  }

  /** An idle source starts to receive, or fails for good. */
  lemma {:induction false} StartsExactly(l: Limits, c: Control, k: Answers)
    requires Rest(l, c) && c.admission.phase.Idle?
    ensures Started(l, c, k).admission.phase == if k.arm then Active else Terminal
    ensures var d := AfterNext(l, c, k);
      if k.arm then d == c.(admission := Admission(Active, 0, 1, 0), receiving := true, waiting := true)
      else d.admission.phase.Terminal? && d.failed && !d.waiting
  {
  }

  lemma {:induction false} NextKeeps(l: Limits, c: Control, k: Answers)
    requires Rest(l, c)
    ensures Rest(l, AfterNext(l, c, k))
  {
    hide Started, Took;
    NextRest(l, c, k);
    if c.admission.phase.Idle? { StartedKeeps(l, c, k); }
    WaitedKeeps(l, if c.admission.phase.Idle? then Started(l, c, k) else c, k);
  }

  lemma {:induction false} WaitedKeeps(l: Limits, c: Control, k: Answers)
    requires Rest(l, c)
    ensures !c.admission.phase.Idle? ==> Rest(l, Waited(l, c, k))
  {
    hide Resumed;
    TookKeeps(l, c, k);
  }

  lemma {:induction false} ReturnKeeps(l: Limits, c: Control, k: Answers)
    requires Rest(l, c) && c.admission.leases > c.admission.queued
    ensures Rest(l, AfterReturn(l, c, k))
  {
    hide Ensured;
    ReturnRest(l, c, k);
    TakeKeeps(l, c.admission);
    EnsuredKeeps(l, c.(admission := Release(c.admission).value), k);
  }

  lemma {:induction false} StopCallKeeps(l: Limits, c: Control, k: Answers)
    requires Rest(l, c)
    ensures Rest(l, AfterStop(c, k))
  {
    StopKeeps(l, c.admission);
  }

  // ---- What calls do to the requests ------------------------------------------------------

  /** A source without a request gets one exactly if enough slots are free and the ring takes it. */
  lemma {:induction false} ArmsExactly(l: Limits, c: Control, k: Answers)
    requires Between(l, c) && c.admission.phase.Active? && !c.receiving
    ensures var d, enough := Ensured(l, c, k), l.buffers >= c.admission.leases + Reserve(l);
      && (d.receiving <==> enough && k.arm) && (Ended(d.admission.phase) <==> enough && !k.arm)
      && (!Ended(d.admission.phase) ==> d.admission.phase.Active? && d.waiting == c.waiting && d.failed == c.failed)
      && (Ended(d.admission.phase) ==> d.failed) && (!enough ==> d == c)
  {
  }

  lemma {:induction false} ReturnArms(l: Limits, c: Control, k: Answers)
    requires Rest(l, c) && c.admission.leases > c.admission.queued
    ensures var d := AfterReturn(l, c, k);
      && d.admission.leases == c.admission.leases - 1
      && (d.receiving <==>
            c.receiving || (c.admission.phase.Active? && l.buffers >= d.admission.leases + Reserve(l) && k.arm))
  {
  }

  /** A paused source is resumed exactly if it has not failed, its cancel request is over and enough was consumed. */
  lemma {:induction false} ResumesExactly(l: Limits, c: Control, k: Answers)
    requires Between(l, c) && c.admission.phase.Paused?
    ensures var d, a := Resumed(l, c, k), c.admission;
      var may := !c.failed && !c.cancelling && c.kept == 0 && a.queued <= l.resume;
      && (!may ==> d == c)
      && (may ==> if l.buffers >= a.leases + Reserve(l) && !k.arm then Ended(d.admission.phase) && d.failed
                  else d.admission.phase.Active? && (d.receiving <==> l.buffers >= a.leases + Reserve(l)))
  {
    hide Ensured;
    var a := Resume(l, c.admission);
    if !(c.failed || c.cancelling || c.kept > 0 || a.None?) {
      StopKeeps(l, c.admission);
      ArmsExactly(l, c.(admission := a.value), k);
    }
  }

  /** The payload that fills the queue of an active source makes it cancel its request. */
  lemma {:induction false} FullPauses(l: Limits, c: Control, k: Answers)
    requires Rest(l, c) && c.receiving && c.admission.phase.Active? && !c.waiting
    requires c.admission.queued + 1 == l.events && c.admission.leases < l.buffers && k.pause
    ensures var d := AfterData(l, c, true, false, k);
      d == c.(admission := Admission(Pausing, l.events, 1, c.admission.leases + 1), cancelling := true)
  {
    var d := c.(admission := Admission(Active, l.events, 1, c.admission.leases + 1));
    assert Placed(l, c, false, k) == d && IsRecorded(l, c, false);
    assert Counted(l, d, true, false, k) == d.(admission := Pause(d.admission), cancelling := true);
  }

  /** What a completion without a payload means. */
  predicate Stops(c: Control, quiet: Quiet, malformed: bool, last: bool) {
    || malformed || (quiet.EndOfData? && last)
    || (c.admission.phase.Active? && (quiet.Error? || (quiet.NoBuffers? && !last)))
  }

  /**
   * A malformed completion, the end of the data, and on an active source an error or a lack of buffers that does not
   * end the request, stop the source, with an error unless it is the end; anything else leaves it as it is if the
   * request goes on, and an active source whose request ended for want of buffers asks again.
   */
  lemma {:induction false} NoDataOutcome(l: Limits, c: Control, quiet: Quiet, malformed: bool, last: bool, k: Answers)
    requires Rest(l, c) && c.receiving
    ensures var d := AfterNoData(l, c, quiet, malformed, last, k);
      && (Stops(c, quiet, malformed, last) ==> Ended(d.admission.phase))
      && (Stops(c, quiet, malformed, last) && last ==> d.failed == (c.failed || malformed || !quiet.EndOfData?))
      && (Stops(c, quiet, malformed, last) && !last ==> d.failed)
      && (!Stops(c, quiet, malformed, last) && !last ==> d == c)
      && (!Stops(c, quiet, malformed, last) && last && c.admission.phase.Active? && k.arm ==>
            && d.admission.phase.Active? && d.waiting == c.waiting
            && (d.receiving <==> l.buffers >= c.admission.leases + Reserve(l)))
  {
    hide Finished, Stopped;
    var d := Ending(c, last);
    var e := Quietened(d, quiet, malformed, last, k);
    QuietenedOk(l, d, quiet, malformed, last, k);
    if Stops(c, quiet, malformed, last) {
      QuietenedStops(l, d, quiet, malformed, last, k);
      QuietenedFails(l, d, quiet, malformed, last, k);
      EndedStays(l, e, last, k);
    } else if !last {
      assert d == c && !Quits(d, quiet, last) && e == d;
      Unmoved(l, d, k);
    } else if c.admission.phase.Active? && k.arm {
      AsksAgain(l, d, k);
    }
  }

  lemma {:induction false} QuietenedFails(l: Limits, c: Control, quiet: Quiet, malformed: bool, last: bool, k: Answers)
    requires ControlOk(l, c) && c.admission.armed == 1 && c.receiving == !last && Stops(c, quiet, malformed, last)
    ensures var d := Quietened(c, quiet, malformed, last, k);
      if last then d.failed == (c.failed || malformed || !quiet.EndOfData?) else d.failed
  {
    hide Stopped;
    var error := !quiet.EndOfData?;
    StoppedOk(l, c, error, k);
    StoppedOk(l, if Quits(c, quiet, last) then Stopped(c, error, k) else c, true, k.(stop := k.again));
  }

  lemma {:induction false} EndedStays(l: Limits, c: Control, last: bool, k: Answers)
    requires ControlOk(l, c) && c.admission.phase.Stopping? && c.admission.armed == 1 && c.receiving == !last
    ensures var d := Finished(l, c, false, last, k); Ended(d.admission.phase) && d.failed == c.failed
  {
    var d := Counted(l, c, false, last, k);
    assert Ended(d.admission.phase) && d.failed == c.failed && Rearmed(l, d, last, k) == d;
    EndedServes(l, d, k);
    assert Ended(Served(d).admission.phase) && Resumed(l, Served(d), k) == Served(d);
  }

  lemma {:induction false} Unmoved(l: Limits, c: Control, k: Answers)
    requires ControlOk(l, c) && Starved(c) && Roomy(l, c) && c.admission.armed == 1 && c.receiving
    ensures Finished(l, c, false, false, k) == c
  {
  }

  lemma {:induction false} AsksAgain(l: Limits, c: Control, k: Answers)
    requires ControlOk(l, c) && Starved(c) && Fit(c) && Roomy(l, c) && c.admission.armed == 1 && !c.receiving
    requires c.admission.phase.Active? && k.arm
    ensures var d := Finished(l, c, false, true, k);
      && d.admission.phase.Active? && d.waiting == c.waiting
      && (d.receiving <==> l.buffers >= c.admission.leases + Reserve(l))
  {
    var d := c.(admission := c.admission.(armed := 0));
    assert Counted(l, c, false, true, k) == d;
    ArmsExactly(l, d, k);
  }

  // ---- Which calls leave a consumer behind ------------------------------------------------

  /** The request that a source without one would submit is refused. */
  predicate Refused(l: Limits, leases: nat, k: Answers) { CanArm(l, Admission(Active, 0, 0, leases)) && !k.arm }

  lemma {:induction false} NextLeaves(l: Limits, c: Control, k: Answers)
    requires Rest(l, c)
    ensures LeftBehind(AfterNext(l, c, k)) <==> LeftBehind(c) || (!HasResult(c) && LeftBehind(c.(waiting := true)))
    ensures Abandoned(AfterNext(l, c, k)) <==>
      Abandoned(c) || (!HasResult(c) && !c.admission.phase.Idle? && Abandoned(c.(waiting := true)))
  {
  }

  lemma {:induction false} StopLeaves(l: Limits, c: Control, k: Answers)
    requires Rest(l, c)
    ensures LeftBehind(AfterStop(c, k)) <==> c.waiting && !c.receiving
    ensures Abandoned(AfterStop(c, k)) <==> c.waiting && !c.receiving && c.admission.leases == 0
  {
  }

  lemma {:induction false} ReturnLeaves(l: Limits, c: Control, k: Answers)
    requires Rest(l, c) && c.admission.leases > c.admission.queued
    ensures LeftBehind(AfterReturn(l, c, k)) <==>
      || LeftBehind(c)
      || (c.waiting && c.admission.phase.Active? && !c.receiving && c.admission.leases > 1
          && Refused(l, c.admission.leases - 1, k))
    ensures Abandoned(AfterReturn(l, c, k)) <==>
      LeftBehind(c) && c.admission.leases == 1 && (c.admission.phase.Draining? || !c.cancelling)
  {
  }

  lemma {:induction false} CancelLeaves(l: Limits, c: Control, expected: bool, k: Answers)
    requires Rest(l, c) && c.cancelling
    ensures LeftBehind(AfterCancel(l, c, expected, k)) <==>
      || LeftBehind(c)
      || (c.waiting && c.admission.phase.Paused?
          && (!expected || (c.admission.leases > 0 && Refused(l, c.admission.leases, k))))
    ensures Abandoned(AfterCancel(l, c, expected, k)) <==>
      && c.waiting
      && (c.admission.phase.Terminal?
          || (c.admission.phase.Paused? && c.admission.leases == 0 && (c.failed || !expected)))
  {
  }

  /** Nobody begins to wait in a completion. */
  lemma {:induction false} FinishedWaits(l: Limits, c: Control, recorded: bool, last: bool, k: Answers)
    ensures Finished(l, c, recorded, last, k).waiting ==> c.waiting
  {
    hide Resumed, Stopped, Halted;
    var d := Rearmed(l, Counted(l, c, recorded, last, k), last, k);
    CountedWaits(l, c, recorded, last, k);
    RearmedWaits(l, Counted(l, c, recorded, last, k), last, k);
    ResumedWaits(l, Delivery(l, d, k), k);
  }

  lemma {:induction false} StoppedWaits(c: Control, error: bool, k: Answers)
    ensures var d := Stopped(c, error, k);
      d.waiting == c.waiting && d.kept == c.kept && d.admission.queued == c.admission.queued
  {
  }

  lemma {:induction false} CountedWaits(l: Limits, c: Control, recorded: bool, last: bool, k: Answers)
    ensures Counted(l, c, recorded, last, k).waiting == c.waiting
  {
  }

  lemma {:induction false} RearmedWaits(l: Limits, c: Control, last: bool, k: Answers)
    ensures Rearmed(l, c, last, k).waiting ==> c.waiting
    ensures Rearmed(l, c, last, k).waiting && HasPayload(c) ==> HasPayload(Rearmed(l, c, last, k))
  {
    hide Stopped;
    StoppedWaits(c, true, k);
  }

  /** A payload that is there goes to the consumer that waits. */
  lemma {:induction false} FinishedGives(l: Limits, c: Control, recorded: bool, last: bool, k: Answers)
    requires ControlOk(l, c) && OneAtMost(c) && c.receiving == !last && HasPayload(c)
    requires c.admission.armed == if recorded && last then 0 else 1
    ensures !Finished(l, c, recorded, last, k).waiting
  {
    hide Resumed, Counted, Rearmed, Took;
    CountedOk(l, c, recorded, last, k);
    RearmedWaits(l, Counted(l, c, recorded, last, k), last, k);
    var d := Rearmed(l, Counted(l, c, recorded, last, k), last, k);
    ResumedWaits(l, Delivery(l, d, k), k);
  }

  /** A source that has ended drains, if it has lent a slot, without telling the consumer that waits. */
  lemma {:induction false} EndedLeaves(l: Limits, c: Control, last: bool, k: Answers)
    requires ControlOk(l, c) && c.admission.phase.Stopping? && c.admission.armed == 1 && c.receiving == !last
    requires !HasPayload(c) && c.waiting
    ensures var d := Finished(l, c, false, last, k);
      !Abandoned(d) && (LeftBehind(d) <==> last && c.admission.leases > 0)
  {
  }

  /** A payload is lost: its buffer cannot be borrowed, or it is for a consumer that waits and no slot is free. */
  predicate Loses(l: Limits, c: Control, ok: bool) { !ok || (IsDirect(c) && c.admission.leases == l.buffers) }

  lemma {:induction false} DataLeaves(l: Limits, c: Control, ok: bool, last: bool, k: Answers)
    requires Rest(l, c) && c.receiving
    ensures !Abandoned(AfterData(l, c, ok, last, k))
    ensures LeftBehind(AfterData(l, c, ok, last, k)) <==>
      c.waiting && last && Loses(l, c, ok) && c.admission.leases > 0
  {
    hide Placed, Finished, IsRecorded, Stopped, Entry, Behind;
    var d := Ending(c, last);
    PlacedCases(l, d, last, k);
    PlacedOk(l, d, last, k);
    PlacedControl(l, d, last, k);
    StoppedStops(l, d, true, k);
    if Loses(l, c, ok) {
      FinishedWaits(l, Stopped(d, true, k), false, last, k);
      if c.waiting { EndedLeaves(l, Stopped(d, true, k), last, k); }
    } else {
      var e := Placed(l, d, last, k);
      FinishedWaits(l, e, IsRecorded(l, d, last), last, k);
      if e.waiting {
        HaltedOk(l, d.(kept := d.kept + 1), k);
        FinishedGives(l, e, IsRecorded(l, d, last), last, k);
      }
    }
  }

  lemma {:induction false} StoppedStops(l: Limits, c: Control, error: bool, k: Answers)
    requires ControlOk(l, c) && c.admission.armed == 1
    ensures var d := Stopped(c, error, k);
      ControlOk(l, d) && d.admission == c.admission.(phase := Stopping)
      && d.kept == c.kept && d.waiting == c.waiting && d.receiving == c.receiving
  {
  }

  lemma {:induction false} NoDataLeaves(l: Limits, c: Control, quiet: Quiet, malformed: bool, last: bool, k: Answers)
    requires Rest(l, c) && c.receiving
    ensures Abandoned(AfterNoData(l, c, quiet, malformed, last, k)) <==>
      && c.waiting && last && !quiet.EndOfData? && !malformed
      && c.admission.phase.Pausing? && c.failed && !c.cancelling && c.admission.leases == 0
    ensures LeftBehind(AfterNoData(l, c, quiet, malformed, last, k)) <==>
      && c.waiting && last
      && (if malformed || Quits(c, quiet, last) || c.admission.phase.Stopping? then c.admission.leases > 0
          else || (c.admission.phase.Pausing? && c.failed)
               || (!c.cancelling && c.admission.leases > 0 && Refused(l, c.admission.leases, k)))
  {
    hide Finished, Stopped;
    var d := Ending(c, last);
    FinishedWaits(l, Quietened(d, quiet, malformed, last, k), false, last, k);
    QuietenedOk(l, d, quiet, malformed, last, k);
    if c.waiting {
      if malformed || Quits(c, quiet, last) || c.admission.phase.Stopping? {
        QuietenedStops(l, d, quiet, malformed, last, k);
        EndedLeaves(l, Quietened(d, quiet, malformed, last, k), last, k);
      } else if last {
        PausedLeaves(l, d, k);
      } else {
        StillReceives(l, d, k);
      }
    }
  }

  lemma {:induction false} QuietenedStops(l: Limits, c: Control, quiet: Quiet, malformed: bool, last: bool, k: Answers)
    requires ControlOk(l, c) && c.admission.armed == 1
    requires malformed || Quits(c, quiet, last) || c.admission.phase.Stopping?
    ensures Quietened(c, quiet, malformed, last, k).admission.phase.Stopping?
  {
    hide Stopped;
    StoppedStops(l, c, !quiet.EndOfData?, k);
    var d := if Quits(c, quiet, last) then Stopped(c, !quiet.EndOfData?, k) else c;
    StoppedStops(l, d, true, k.(stop := k.again));
  }

  /** A request that ends and does not stop the source. */
  lemma {:induction false} PausedLeaves(l: Limits, c: Control, k: Answers)
    requires ControlOk(l, c) && Fit(c) && (c.admission.phase.Active? || c.admission.phase.Pausing?)
    requires c.admission.armed == 1 && !c.receiving && !HasPayload(c) && c.waiting
    ensures var d, a := Finished(l, c, false, true, k), c.admission;
      && (Abandoned(d) <==> a.phase.Pausing? && c.failed && !c.cancelling && a.leases == 0)
      && (LeftBehind(d) <==>
          || (a.phase.Pausing? && c.failed)
          || (!c.cancelling && a.leases > 0 && Refused(l, a.leases, k)))
  {
  }

  lemma {:induction false} StillReceives(l: Limits, c: Control, k: Answers)
    requires ControlOk(l, c) && c.admission.armed == 1 && c.receiving && !HasPayload(c) && c.waiting
    ensures Finished(l, c, false, false, k) == c
  {
  }

  // ---- Left behind means never served -----------------------------------------------------

  /** All that can happen to a source: the application's calls, and completions of the kernel. */
  datatype Call =
    | NextCall(k: Answers)
    | StopCall(k: Answers)
    | ReturnCall(k: Answers)
    | Data(ok: bool, last: bool, k: Answers)
    | NoData(quiet: Quiet, malformed: bool, last: bool, k: Answers)
    | CancelDone(expected: bool, k: Answers)

  /** Only a slot that is lent can be returned, and only a request that is in the ring completes. */
  predicate Possible(c: Control, call: Call) {
    match call
    case NextCall(_) => true
    case StopCall(_) => true
    case ReturnCall(_) => c.admission.leases > c.admission.queued
    case Data(_, _, _) => c.receiving
    case NoData(_, _, _, _) => c.receiving
    case CancelDone(_, _) => c.cancelling
  }

  function After(l: Limits, c: Control, call: Call): Control
    requires Possible(c, call)
  {
    match call
    case NextCall(k) => AfterNext(l, c, k)
    case StopCall(k) => AfterStop(c, k)
    case ReturnCall(k) => AfterReturn(l, c, k)
    case Data(ok, last, k) => AfterData(l, c, ok, last, k)
    case NoData(quiet, malformed, last, k) => AfterNoData(l, c, quiet, malformed, last, k)
    case CancelDone(expected, k) => AfterCancel(l, c, expected, k)
  }

  lemma {:induction false} CallKeeps(l: Limits, c: Control, call: Call)
    requires Rest(l, c) && Possible(c, call)
    ensures Rest(l, After(l, c, call))
  {
    hide AfterNext, AfterStop, AfterReturn, AfterData, AfterNoData, AfterCancel, Rest;
    match call
    case NextCall(k) => NextKeeps(l, c, k);
    case StopCall(k) => StopCallKeeps(l, c, k);
    case ReturnCall(k) => ReturnKeeps(l, c, k);
    case Data(ok, last, k) => DataKeeps(l, c, ok, last, k);
    case NoData(quiet, malformed, last, k) => NoDataKeeps(l, c, quiet, malformed, last, k);
    case CancelDone(expected, k) => CancelKeeps(l, c, expected, k);
  }

  /** Nothing that can happen serves a consumer that is left behind. */
  lemma {:induction false} CallLeaves(l: Limits, c: Control, call: Call)
    requires Rest(l, c) && Possible(c, call) && LeftBehind(c)
    ensures LeftBehind(After(l, c, call))
  {
    hide AfterNext, AfterStop, AfterReturn, AfterData, AfterNoData, AfterCancel, Rest;
    match call
    case NextCall(k) => NextLeaves(l, c, k);
    case StopCall(k) => StopLeaves(l, c, k);
    case ReturnCall(k) => ReturnLeaves(l, c, k);
    case Data(_, _, _) =>
    case NoData(_, _, _, _) =>
    case CancelDone(expected, k) => CancelLeaves(l, c, expected, k);
  }

  /** The calls can happen one after the other from `c` on. */
  ghost predicate Run(l: Limits, c: Control, calls: seq<Call>)
    decreases |calls|
  {
    calls != [] ==> Possible(c, calls[0]) && Run(l, After(l, c, calls[0]), calls[1..])
  }

  ghost function End(l: Limits, c: Control, calls: seq<Call>): Control
    requires Run(l, c, calls)
    decreases |calls|
  {
    if calls == [] then c else End(l, After(l, c, calls[0]), calls[1..])
  }

  /** The consumer that waits in `c` is still the one that waits after the run: it was served at no point of it. */
  ghost predicate Unserved(l: Limits, c: Control, calls: seq<Call>)
    requires Run(l, c, calls)
    decreases |calls|
  {
    c.waiting && (calls != [] ==> Unserved(l, After(l, c, calls[0]), calls[1..]))
  }

  /** Whatever happens, a consumer that is left behind is never served. */
  lemma {:induction false} NeverServed(l: Limits, c: Control, calls: seq<Call>)
    requires Rest(l, c) && LeftBehind(c) && Run(l, c, calls)
    ensures Unserved(l, c, calls) && LeftBehind(End(l, c, calls))
    decreases |calls|
  {
    hide Rest, After;
    if calls != [] {
      CallKeeps(l, c, calls[0]);
      CallLeaves(l, c, calls[0]);
      NeverServed(l, After(l, c, calls[0]), calls[1..]);
    }
  }

  const SENT := Answers(true, true, true, true)

  /** A call that brings a waiting consumer that is not left behind closer to its result. */
  function Helpful(c: Control): Call {
    if c.receiving then Data(true, false, SENT)
    else if c.admission.phase.Paused? then CancelDone(true, SENT)
    else ReturnCall(SENT)
  }

  /** How far it is from it. */
  function Distance(l: Limits, c: Control): nat {
    if !c.waiting then 0
    else if c.receiving then (if IsDirect(c) && c.admission.leases >= l.buffers then 2 else 1)
    else if c.admission.phase.Paused? then c.admission.leases + 4
    else c.admission.leases + 3
  }

  lemma {:induction false} Helps(l: Limits, c: Control)
    requires Rest(l, c) && c.waiting && !LeftBehind(c)
    ensures Possible(c, Helpful(c))
    ensures var d := After(l, c, Helpful(c)); !LeftBehind(d) && Distance(l, d) < Distance(l, c)
  {
    if c.receiving {
      DataHelps(l, c);
    } else if c.admission.phase.Paused? {
      CancelLeaves(l, c, true, SENT);
    } else {
      ReturnLeaves(l, c, SENT);
    }
  }

  lemma {:induction false} DataHelps(l: Limits, c: Control)
    requires Rest(l, c) && c.receiving && c.waiting
    ensures var d := AfterData(l, c, true, false, SENT); !LeftBehind(d) && Distance(l, d) < Distance(l, c)
  {
  }

  /** Every other waiting consumer can still be served. */
  lemma {:induction false} CanBeServed(l: Limits, c: Control) returns (calls: seq<Call>)
    requires Rest(l, c) && c.waiting && !LeftBehind(c)
    ensures Run(l, c, calls) && !Unserved(l, c, calls)
    decreases Distance(l, c)
  {
    hide Rest, After, LeftBehind;
    Helps(l, c);
    CallKeeps(l, c, Helpful(c));
    var d, rest := After(l, c, Helpful(c)), [];
    if d.waiting { rest := CanBeServed(l, d); }
    calls := [Helpful(c)] + rest;
    assert calls[1..] == rest;
  }

  /** A consumer is left behind exactly if it waits and no run serves it. */
  lemma {:induction false} LeftBehindExactly(l: Limits, c: Control)
    requires Rest(l, c)
    ensures LeftBehind(c) <==> c.waiting && forall calls :: Run(l, c, calls) ==> Unserved(l, c, calls)
  {
    if LeftBehind(c) {
      forall calls | Run(l, c, calls) ensures Unserved(l, c, calls) { NeverServed(l, c, calls); }
    } else if c.waiting {
      var calls := CanBeServed(l, c);
    }
  }
}
