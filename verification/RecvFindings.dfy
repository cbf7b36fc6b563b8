/**
  Histories of a receive source that lead to a lost payload and to a consumer
  that waits for good, from a new source on and by its own operations: one for
  each operation that leaves a consumer waiting with nothing outstanding, and
  one for the ordinary end of a stream.
 */
module RecvFindings {
  import opened RecvControl
  import opened RecvWaiting
  import opened RecvSource

  const TWO_SLOTS := Limits(2, 2, 1, 1)
  const ONE_SLOT := Limits(1, 1, 1, 0)

  /** An active source with its request armed, `leases` slots lent and nothing queued. */
  function Receiving(leases: nat, waiting: bool): Control {
    Control(Admission(Active, 0, 1, leases), 0, waiting, true, false, false)
  }

  /** A source that is pausing or paused: its cancel request is in the ring, or has failed. */
  function Holding(phase: Phase, queued: nat, leases: nat, waiting: bool, failed: bool): Control {
    var armed := phase.Pausing?;
    Control(Admission(phase, queued, if armed then 1 else 0, leases), 0, waiting, armed, !failed, failed)
  }

  // ---- What the operations do to the control state ------------------------------------

  lemma {:induction false} FirstNext(l: Limits)
    requires l == ONE_SLOT || l == TWO_SLOTS
    ensures AfterNext(l, Control(Admission(Idle, 0, 0, 0), 0, false, false, false, false), SENT) == Receiving(0, true)
  {
  }

  lemma {:induction false} NextWaits(l: Limits, leases: nat)
    ensures AfterNext(l, Receiving(leases, false), SENT) == Receiving(leases, true)
  {
  }

  lemma {:induction false} DataGiven(l: Limits, leases: nat)
    requires leases < l.buffers && 0 < l.events
    ensures IsDirect(Receiving(leases, true))
    ensures AfterData(l, Receiving(leases, true), true, false, SENT) == Receiving(leases + 1, false)
  {
    var c := Receiving(leases, true);
    assert Placed(l, c, false, SENT) == Receiving(leases + 1, false) && IsRecorded(l, c, false);
  }

  /** A source that has ended, with its request over and one slot lent. */
  function Drained(cancelling: bool): Control {
    Control(Admission(Draining, 0, 0, 1), 0, true, false, cancelling, false)
  }

  /** A stop, and the end of the request while one slot is lent. */
  lemma {:induction false} StopDrains()
    ensures var c := Control(Admission(Stopping, 0, 1, 1), 0, true, true, true, false);
      && AfterStop(Receiving(1, true), SENT) == c
      && AfterNoData(TWO_SLOTS, c, Error, false, true, SENT) == Drained(true)
  {
    var c := Control(Admission(Stopping, 0, 1, 1), 0, true, false, true, false);
    assert Counted(TWO_SLOTS, c, false, true, SENT) == Drained(true);
  }

  lemma {:induction false} EndDrains()
    ensures AfterNoData(TWO_SLOTS, Receiving(1, true), EndOfData, false, true, SENT) == Drained(false)
  {
    var c := Control(Admission(Stopping, 0, 1, 1), 0, true, false, false, false);
    assert Quietened(Ending(Receiving(1, true), true), EndOfData, false, true, SENT) == c;
    assert Counted(TWO_SLOTS, c, false, true, SENT) == Drained(false);
  }

  lemma {:induction false} LastReturned(cancelling: bool)
    ensures AfterReturn(TWO_SLOTS, Drained(cancelling), SENT)
      == Control(Admission(Terminal, 0, 0, 0), 0, true, false, cancelling, false)
  {
  }

  lemma {:induction false} FillPauses()
    ensures AfterReturn(ONE_SLOT, Receiving(1, false), SENT) == Receiving(0, false)
    ensures AfterData(ONE_SLOT, Receiving(0, false), true, false, SENT) == Holding(Pausing, 1, 1, false, false)
  {
    var c := Receiving(0, false);
    var d := c.(admission := Admission(Active, 1, 1, 1));
    assert Placed(ONE_SLOT, c, false, SENT) == d && IsRecorded(ONE_SLOT, c, false);
    assert Counted(ONE_SLOT, d, true, false, SENT) == Holding(Pausing, 1, 1, false, false);
  }

  lemma {:induction false} EndPauses(n: nat, waiting: bool, failed: bool)
    requires (n == 1 && !waiting) || (n == 0 && waiting && failed)
    ensures AfterNoData(ONE_SLOT, Holding(Pausing, n, n, waiting, failed), Error, false, true, SENT)
      == Holding(Paused, n, n, waiting, failed)
  {
    var c := Holding(Pausing, n, n, waiting, failed).(receiving := false);
    assert Counted(ONE_SLOT, c, false, true, SENT) == Holding(Paused, n, n, waiting, failed);
  }

  lemma {:induction false} CancelFails(phase: Phase, n: nat, waiting: bool)
    requires phase.Pausing? || phase.Paused?
    ensures AfterCancel(ONE_SLOT, Holding(phase, n, n, waiting, false), false, SENT)
      == Holding(phase, n, n, waiting, true)
  {
  }

  lemma {:induction false} DrainHeld(phase: Phase, failed: bool)
    requires phase.Pausing? || phase.Paused?
    ensures AfterNext(ONE_SLOT, Holding(phase, 1, 1, false, failed), SENT) == Holding(phase, 0, 1, false, failed)
    ensures AfterReturn(ONE_SLOT, Holding(phase, 0, 1, false, failed), SENT) == Holding(phase, 0, 0, false, failed)
    ensures AfterNext(ONE_SLOT, Holding(phase, 0, 0, false, failed), SENT) == Holding(phase, 0, 0, true, failed)
  {
  }

  // ---- The histories --------------------------------------------------------------------

  /** With nothing queued and nothing kept, what was accepted was delivered. */
  lemma {:induction false} NoneWaiting<P>(s: Source<P>)
    requires s.Valid() && !HasPayload(s.ctl)
    ensures s.delivered == s.accepted
  {
    assert s.delivered + [] + [] == s.delivered;
  }

  lemma {:induction false} NothingLent<P>(s: Source<P>)
    requires s.Valid() && s.ctl.admission.leases == s.ctl.admission.queued
    ensures s.lent == {}
  {
    assert |s.lent| == 0;
  }

  /** The slot of the only payload that is out. */
  method LentSlotOf<P>(s: Source<P>, t: Taken<P>) returns (slot: nat)
    requires s.Valid() && s.lent == Lent(t) && s.ctl.admission.leases == 1 && s.ctl.admission.queued == 0
    ensures slot in s.lent
  {
    assert |s.lent| == 1;
    return t.slot.value;
  }

  /** A new source, and a consumer that waits. */
  method StartWaiting<P>(l: Limits, pool: nat) returns (s: Source<P>)
    requires l == ONE_SLOT || l == TWO_SLOTS
    ensures fresh(s) && s.AtRest() && s.limits == l && s.ctl == Receiving(0, true) && |s.buffers| == pool
    ensures s.delivered == s.dropped == [] && s.lent == {}
  {
    hide AfterNext;
    s := new Source(l, pool);
    NoneWaiting(s);
    NothingLent(s);
    FirstNext(l);
    var t := s.Next(SENT);
    assert t.Nothing?;
  }

  /** A consumer that waits gets a payload. */
  method Give<P>(s: Source<P>, id: nat, a: P, leases: nat) returns (t: Taken<P>)
    requires s.AtRest() && s.ctl == Receiving(leases, true) && leases < s.limits.buffers && id < |s.buffers|
    modifies s
    ensures s.AtRest() && s.ctl == Receiving(leases + 1, false) && |s.buffers| == |old(s.buffers)|
      && s.dropped == old(s.dropped)
    ensures s.delivered == old(s.delivered) + [a] && s.lent == old(s.lent) + Lent(t)
  {
    hide AfterData;
    DataGiven(s.limits, leases);
    NoneWaiting(s);
    t := s.OnData(id, a, false, true, SENT);
    NoneWaiting(s);
  }

  /** A consumer that waits gets a payload and waits again. */
  method GiveAndWait<P>(s: Source<P>, id: nat, a: P, leases: nat) returns (t: Taken<P>)
    requires s.AtRest() && s.ctl == Receiving(leases, true) && leases < s.limits.buffers && id < |s.buffers|
    modifies s
    ensures s.AtRest() && s.ctl == Receiving(leases + 1, true) && |s.buffers| == |old(s.buffers)|
      && s.dropped == old(s.dropped)
    ensures s.delivered == old(s.delivered) + [a] && s.lent == old(s.lent) + Lent(t)
  {
    hide AfterNext;
    t := Give(s, id, a, leases);
    NextWaits(s.limits, leases + 1);
    var u := s.Next(SENT);
    assert u.Nothing?;
  }

  /**
   * Two copy slots, both in the application's hands, a consumer that waits, and a request that is still armed: the
   * third payload is lost.
   */
  method LosesPayload<P>(a: P, b: P, c: P) returns (s: Source<P>)
    ensures fresh(s) && s.AtRest() && [a, b] <= s.delivered && s.dropped == [c]
  {
    hide AfterData;
    s := StartWaiting(TWO_SLOTS, 3);
    var _ := GiveAndWait(s, 0, a, 0);
    var _ := GiveAndWait(s, 1, b, 1);
    var _ := s.OnData(2, c, false, true, SENT);
  }

  /** A stop while one slot is lent and a consumer waits: the request ends, the slot comes back, nobody is told. */
  method StrandsByReturn<P>(a: P) returns (s: Source<P>)
    ensures fresh(s) && s.AtRest() && Abandoned(s.ctl) && s.ctl.admission.phase.Terminal?
  {
    hide AfterStop, AfterNoData, AfterReturn;
    s := StartWaiting(TWO_SLOTS, 1);
    var t := GiveAndWait(s, 0, a, 0);
    var slot := LentSlotOf(s, t);
    StopDrains();
    LastReturned(true);
    var _ := s.RequestStop(SENT);
    var u := s.OnNoData(Error, false, true, SENT);
    assert u.Nothing?;
    var _ := s.ReturnSlot(slot, SENT);
  }

  /** The peer closes the stream while one slot is lent and a consumer waits: it never gets the end. */
  method StrandsByEnd<P>(a: P) returns (s: Source<P>)
    ensures fresh(s) && s.AtRest() && s.delivered == [a] && s.dropped == []
    ensures Abandoned(s.ctl) && s.ctl.admission.phase.Terminal? && !s.ctl.failed
  {
    hide AfterNoData, AfterReturn;
    s := StartWaiting(TWO_SLOTS, 1);
    var t := GiveAndWait(s, 0, a, 0);
    var slot := LentSlotOf(s, t);
    EndDrains();
    LastReturned(false);
    var u := s.OnNoData(EndOfData, false, true, SENT);
    assert u.Nothing? && LeftBehind(s.ctl);
    var _ := s.ReturnSlot(slot, SENT);
  }

  /** A payload is consumed and its slot returned; the next one fills the queue, and the source pauses. */
  method Fill<P>(a: P, b: P) returns (s: Source<P>)
    ensures fresh(s) && s.AtRest() && s.limits == ONE_SLOT && s.ctl == Holding(Pausing, 1, 1, false, false)
  {
    hide AfterData, AfterReturn;
    s := StartWaiting(ONE_SLOT, 1);
    var t := Give(s, 0, a, 0);
    var slot := LentSlotOf(s, t);
    FillPauses();
    var _ := s.ReturnSlot(slot, SENT);
    var _ := s.OnData(0, b, false, true, SENT);
  }

  /** The request then ends before the cancel request does. */
  method FillAndPause<P>(a: P, b: P) returns (s: Source<P>)
    ensures fresh(s) && s.AtRest() && s.limits == ONE_SLOT && s.ctl == Holding(Paused, 1, 1, false, false)
  {
    hide AfterNoData;
    s := Fill(a, b);
    EndPauses(1, false, false);
    var _ := s.OnNoData(Error, false, true, SENT);
  }

  /** The consumer empties the queue, returns the slot and waits. */
  method DrainAndWait<P>(s: Source<P>, phase: Phase, failed: bool)
    requires s.AtRest() && s.limits == ONE_SLOT && (phase.Pausing? || phase.Paused?)
    requires s.ctl == Holding(phase, 1, 1, false, failed)
    modifies s
    ensures s.AtRest() && s.ctl == Holding(phase, 0, 0, true, failed)
  {
    hide AfterNext, AfterReturn;
    NothingLent(s);
    DrainHeld(phase, failed);
    var t := s.Next(SENT);
    var slot := LentSlotOf(s, t);
    var _ := s.ReturnSlot(slot, SENT);
    var _ := s.Next(SENT);
  }

  /** A stop then ends the source at once. */
  method StrandsByStop<P>(a: P, b: P) returns (s: Source<P>)
    ensures fresh(s) && s.AtRest() && Abandoned(s.ctl) && s.ctl.admission.phase.Terminal?
  {
    s := FillAndPause(a, b);
    DrainAndWait(s, Paused, false);
    var _ := s.RequestStop(SENT);
  }

  /** The cancel request fails while the consumer waits: the error is kept, and nobody is told. */
  method StrandsByCancel<P>(a: P, b: P) returns (s: Source<P>)
    ensures fresh(s) && s.AtRest() && Abandoned(s.ctl) && s.ctl.admission.phase.Paused? && s.ctl.failed
  {
    hide AfterCancel;
    s := FillAndPause(a, b);
    DrainAndWait(s, Paused, false);
    CancelFails(Paused, 0, true);
    var _ := s.OnCancelDone(false, SENT);
  }

  /** The cancel request fails before: the consumer waits on a source that is paused for good. */
  method StrandsByNext<P>(a: P, b: P) returns (s: Source<P>)
    ensures fresh(s) && s.AtRest() && Abandoned(s.ctl) && s.ctl.admission.phase.Paused? && s.ctl.failed
  {
    hide AfterCancel;
    s := FillAndPause(a, b);
    CancelFails(Paused, 1, false);
    var _ := s.OnCancelDone(false, SENT);
    DrainAndWait(s, Paused, true);
  }

  /** The cancel request fails before the receive request ends. */
  method StrandsByCompletion<P>(a: P, b: P) returns (s: Source<P>)
    ensures fresh(s) && s.AtRest() && Abandoned(s.ctl) && s.ctl.admission.phase.Paused? && s.ctl.failed
  {
    hide AfterCancel, AfterNoData;
    s := Fill(a, b);
    CancelFails(Pausing, 1, false);
    EndPauses(0, true, true);
    var _ := s.OnCancelDone(false, SENT);
    DrainAndWait(s, Pausing, true);
    var _ := s.OnNoData(Error, false, true, SENT);
  }
}
