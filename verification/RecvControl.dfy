/**
  What decides the behaviour of the io_uring receive source: the counters that
  admit events, the requests in the ring, and a consumer that waits; and what
  each call does to them.
 */
module RecvControl {
  import opened Options

  // ---- Admission ---------------------------------------------------------------------

  datatype Phase = Idle | Active | Pausing | Paused | Stopping | Draining | Terminal

  /** The counters that admit events: queued events, armed requests, payload copies in use. */
  datatype Admission = Admission(phase: Phase, queued: nat, armed: nat, leases: nat)

  datatype Limits = Limits(events: nat, buffers: nat, depth: nat, resume: nat)

  /** The options that a source is created with. */
  predicate LimitsOk(l: Limits) { 0 < l.events <= l.buffers && l.depth > 0 && l.resume < l.events }

  datatype Kind = NoEvent | Produced | Delivered

  const REARM_WORKING_SET: nat := 8

  function Reconcile(a: Admission): Admission {
    var phase := if a.phase.Pausing? && a.armed == 0 then Paused else a.phase;
    if phase.Stopping? then
      if a.armed != 0 then a
      else a.(phase := if a.queued == 0 && a.leases == 0 then Terminal else Draining)
    else if phase.Draining? && a.armed == 0 && a.queued == 0 && a.leases == 0 then a.(phase := Terminal)
    else a.(phase := phase)
  }

  /** Outside the active phase every change may end a pause or a stop. */
  function Settled(a: Admission): Admission {
    if a.phase.Active? then a else Reconcile(a)
  }

  predicate CanQueue(l: Limits, a: Admission) {
    a.queued < l.events && a.leases < l.buffers
  }

  function Min(x: nat, y: nat): nat { if x < y then x else y }

  predicate CanArm(l: Limits, a: Admission) {
    && a.phase.Active? && a.armed < l.depth && CanQueue(l, a) && a.leases + a.armed < l.buffers
    && l.buffers - (a.leases + a.armed) >= Min(l.resume, REARM_WORKING_SET)
  }

  /** A completion is recorded, or refused. */
  function Complete(l: Limits, a: Admission, kind: Kind, last: bool): Option<Admission> {
    if a.armed == 0 || (kind.Produced? && !CanQueue(l, a)) || (kind.Delivered? && a.leases >= l.buffers) then None
    else
      Some(Settled(a.(armed := if last then a.armed - 1 else a.armed,
                      queued := if kind.Produced? then a.queued + 1 else a.queued,
                      leases := if kind.NoEvent? then a.leases else a.leases + 1)))
  }

  function Acquire(a: Admission): Option<Admission> {
    if a.queued == 0 then None else Some(Settled(a.(queued := a.queued - 1)))
  }

  function Release(a: Admission): Option<Admission> {
    if a.leases == 0 then None else Some(Settled(a.(leases := a.leases - 1)))
  }

  function Pause(a: Admission): Admission {
    if a.phase.Active? then a.(phase := if a.armed == 0 then Paused else Pausing) else a
  }

  function Stop(a: Admission): Admission {
    match a.phase
    case Terminal => a
    case Draining => a
    case Stopping => a
    case Idle => a.(phase := Terminal)
    case _ => Reconcile(a.(phase := Stopping))
  }

  function Resume(l: Limits, a: Admission): Option<Admission> {
    if a.phase.Paused? && a.queued <= l.resume then Some(a.(phase := Active)) else None
  }

  /** The source will never be active again. */
  predicate Ended(p: Phase) { p.Stopping? || p.Draining? || p.Terminal? }

  /** A terminal source has nothing queued, nothing lent and nothing armed. */
  ghost predicate AdmissionOk(l: Limits, a: Admission) {
    && a.queued <= l.events && a.queued <= a.leases <= l.buffers
    && (a.phase.Terminal? || a.phase.Idle? ==> a.queued == a.armed == a.leases == 0)
    && (a.phase.Paused? || a.phase.Draining? ==> a.armed == 0)
    && (a.phase.Pausing? || a.phase.Stopping? ==> a.armed > 0) && (a.phase.Draining? ==> a.leases > 0)
  }

  /** Every transition keeps the counters in bounds, and a source becomes terminal only when it is empty. */
  lemma {:induction false} CompleteKeeps(l: Limits, a: Admission, kind: Kind, last: bool)
    requires AdmissionOk(l, a) && Complete(l, a, kind, last).Some?
    ensures AdmissionOk(l, Complete(l, a, kind, last).value)
    ensures Ended(a.phase) ==> Ended(Complete(l, a, kind, last).value.phase)
  {
  }

  lemma {:induction false} StopKeeps(l: Limits, a: Admission)
    requires AdmissionOk(l, a)
    ensures AdmissionOk(l, Pause(a)) && AdmissionOk(l, Stop(a))
    ensures Resume(l, a).Some? ==> AdmissionOk(l, Resume(l, a).value)
  {
  }

  lemma {:induction false} TakeKeeps(l: Limits, a: Admission)
    requires AdmissionOk(l, a)
    ensures Acquire(a).Some? ==> AdmissionOk(l, Acquire(a).value) && (Ended(a.phase) ==> Ended(Acquire(a).value.phase))
    ensures Release(a).Some? && a.queued < a.leases ==>
      AdmissionOk(l, Release(a).value) && (Ended(a.phase) ==> Ended(Release(a).value.phase))
  {
  }

  ghost predicate SameCounts(a: Admission, b: Admission) {
    a.queued == b.queued && a.armed == b.armed && a.leases == b.leases
  }

  // ---- Control -----------------------------------------------------------------------

  /**
   * All that decides what a source does: its admission, how many payloads overflowed, whether a consumer waits, which
   * requests are in the ring, and whether it failed.
   */
  datatype Control = Control(admission: Admission, kept: nat, waiting: bool, receiving: bool, cancelling: bool,
      failed: bool)

  ghost predicate ControlOk(l: Limits, c: Control) {
    AdmissionOk(l, c.admission) && LimitsOk(l) && (c.admission.phase.Idle? ==> c.kept == 0)
  }

  /** One request is armed exactly while one is in the ring. */
  ghost predicate InStep(c: Control) { c.admission.armed == if c.receiving then 1 else 0 }

  /** A consumer waits only while there is nothing to give. */
  ghost predicate Starved(c: Control) { c.waiting ==> c.admission.queued == 0 && c.kept == 0 }

  /**
   * In a completion: at most one payload has come in for a consumer that waits, and it overflowed only for want of
   * slots.
   */
  ghost predicate OneAtMost(c: Control) {
    c.waiting ==> c.admission.queued + c.kept <= 1 && (c.kept > 0 ==> c.admission.leases > 0)
  }

  /** A consumer waits on a source that is over. */
  ghost predicate Stranded(c: Control) { c.waiting && c.admission.phase.Terminal? }

  /**
   * What the ring answers to the submissions of one call: the receive request, the cancel of a pause, of a stop, and of
   * a second stop.
   */
  datatype Answers = Answers(arm: bool, pause: bool, stop: bool, again: bool)

  predicate CancelSent(c: Control, ok: bool) { !c.receiving || c.cancelling || ok }

  function Cancelled(c: Control, ok: bool): Control {
    if !c.receiving || c.cancelling then c else c.(cancelling := ok)
  }

  function Stopped(c: Control, error: bool, k: Answers): Control {
    var d := c.(failed := c.failed || error, admission := Stop(c.admission));
    Cancelled(d, k.stop).(failed := d.failed || !CancelSent(d, k.stop))
  }

  function Halted(c: Control, k: Answers): Control {
    var d := c.(admission := Pause(c.admission));
    if CancelSent(d, k.pause) then Cancelled(d, k.pause) else Stopped(Cancelled(d, k.pause), true, k)
  }

  /** A source that has ended serves its waiting consumer. */
  function Served(c: Control): Control {
    if !c.waiting then c
    else if c.admission.queued > 0 then c.(admission := Acquire(c.admission).value, waiting := false)
    else if c.kept > 0 then c.(kept := c.kept - 1, waiting := false)
    else c.(waiting := !c.admission.phase.Terminal?)
  }

  function Armed(l: Limits, c: Control): Control {
    if c.receiving || !CanArm(l, c.admission) then c
    else c.(admission := c.admission.(armed := c.admission.armed + 1), receiving := true)
  }

  /** Whether the receive request that is wanted, if any, went out. */
  predicate ArmSent(l: Limits, c: Control, k: Answers) { c.receiving || !CanArm(l, c.admission) || k.arm }

  function Ensured(l: Limits, c: Control, k: Answers): Control {
    if !c.admission.phase.Active? || c.receiving || c.cancelling then c
    else if ArmSent(l, c, k) then Armed(l, c) else Served(Stopped(c, true, k))
  }

  function Resumed(l: Limits, c: Control, k: Answers): Control {
    var a := Resume(l, c.admission);
    if c.failed || c.cancelling || c.kept > 0 || a.None? then c else Ensured(l, c.(admission := a.value), k)
  }

  /** There is a payload, or the end, to be given. */
  predicate HasResult(c: Control) { HasPayload(c) || c.admission.phase.Terminal? }

  predicate HasPayload(c: Control) { c.admission.queued > 0 || c.kept > 0 }

  function Took(l: Limits, c: Control, k: Answers): Control {
    if c.admission.queued > 0 then
      var d := c.(admission := Acquire(c.admission).value);
      if d.admission.phase.Paused? then Resumed(l, d, k) else d
    else if c.kept > 0 then
      var d := c.(kept := c.kept - 1);
      if d.kept == 0 && d.admission.phase.Paused? then Resumed(l, d, k) else d
    else c
  }

  function Delivery(l: Limits, c: Control, k: Answers): Control {
    if !c.waiting then c else if HasResult(c) then Took(l, c, k).(waiting := false) else c
  }

  function Counted(l: Limits, c: Control, recorded: bool, last: bool, k: Answers): Control {
    var a := if recorded then Some(c.admission) else Complete(l, c.admission, NoEvent, last);
    var d := c.(admission := if a.Some? then a.value else c.admission);
    if d.admission.phase.Active? && d.admission.queued >= l.events then Halted(d, k) else d
  }

  function Finished(l: Limits, c: Control, recorded: bool, last: bool, k: Answers): Control {
    var d := Counted(l, c, recorded, last, k);
    Resumed(l, Delivery(l, Rearmed(l, d, last, k), k), k)
  }

  /** A request that is over is replaced. */
  function Rearmed(l: Limits, c: Control, last: bool, k: Answers): Control {
    if last && c.admission.phase.Active? && !c.failed then Ensured(l, c, k) else c
  }

  predicate IsDirect(c: Control) { c.waiting && c.admission.queued == 0 && c.kept == 0 && c.admission.phase.Active? }

  predicate Behind(l: Limits, c: Control) { !IsDirect(c) && (c.kept > 0 || !CanQueue(l, c.admission)) }

  /** How a payload is counted, unless it goes behind the queue. */
  function Entry(l: Limits, c: Control, last: bool): Option<Admission> {
    Complete(l, c.admission, if IsDirect(c) then Delivered else Produced, last)
  }

  function Placed(l: Limits, c: Control, last: bool, k: Answers): Control {
    if Behind(l, c) then Halted(c.(kept := c.kept + 1), k)
    else if Entry(l, c, last).None? then Stopped(c, true, k)
    else c.(admission := Entry(l, c, last).value, waiting := c.waiting && !IsDirect(c))
  }

  predicate IsRecorded(l: Limits, c: Control, last: bool) { !Behind(l, c) && Entry(l, c, last).Some? }

  /** The request is over with this completion. */
  function Ending(c: Control, last: bool): Control { c.(receiving := c.receiving && !last) }

  function AfterData(l: Limits, c: Control, ok: bool, last: bool, k: Answers): Control {
    var d := Ending(c, last);
    if ok then Finished(l, Placed(l, d, last, k), IsRecorded(l, d, last), last, k)
    else Finished(l, Stopped(d, true, k), false, last, k)
  }

  /** A completion without a payload: no more data, no buffer to be had, or another error. */
  datatype Quiet = EndOfData | NoBuffers | Error

  function AfterNoData(l: Limits, c: Control, quiet: Quiet, malformed: bool, last: bool, k: Answers): Control {
    Finished(l, Quietened(Ending(c, last), quiet, malformed, last, k), false, last, k)
  }

  /** Whether a completion without a payload stops the source: not if it is pausing or stopping anyway. */
  predicate Quits(c: Control, quiet: Quiet, last: bool) {
    match quiet
    case EndOfData => last
    case NoBuffers => (c.admission.phase.Active? || c.admission.phase.Idle?) && !last
    case Error => c.admission.phase.Active? || c.admission.phase.Idle?
  }

  /** A malformed completion, one that keeps its buffer, stops the source in any case. */
  function Quietened(c: Control, quiet: Quiet, malformed: bool, last: bool, k: Answers): Control {
    var d := if Quits(c, quiet, last) then Stopped(c, !quiet.EndOfData?, k) else c;
    if malformed then Stopped(d, true, k.(stop := k.again)) else d
  }

  function Started(l: Limits, c: Control, k: Answers): Control {
    var d := c.(admission := c.admission.(phase := Active));
    if ArmSent(l, d, k) then Armed(l, d) else Stopped(d, true, k)
  }

  function AfterNext(l: Limits, c: Control, k: Answers): Control {
    if c.waiting then c
    else if !c.admission.phase.Idle? then Waited(l, c, k)
    else if Started(l, c, k).admission.phase.Active? then Waited(l, Started(l, c, k), k)
    else Started(l, c, k)
  }

  function Waited(l: Limits, c: Control, k: Answers): Control {
    Took(l, c, k).(waiting := !HasResult(c))
  }

  function AfterReturn(l: Limits, c: Control, k: Answers): Control
    requires c.admission.leases > 0
  {
    Ensured(l, c.(admission := Release(c.admission).value), k)
  }

  function AfterStop(c: Control, k: Answers): Control {
    Cancelled(c.(admission := Stop(c.admission)), k.stop)
  }

  function AfterCancel(l: Limits, c: Control, expected: bool, k: Answers): Control {
    Resumed(l, c.(cancelling := false, failed := c.failed || !expected), k)
  }

  lemma {:induction false} StoppedOk(l: Limits, c: Control, error: bool, k: Answers)
    requires ControlOk(l, c)
    ensures var d := Stopped(c, error, k);
      && ControlOk(l, d) && SameCounts(d.admission, c.admission) && Ended(d.admission.phase)
        && (c.failed || error ==> d.failed)
      && d.kept == c.kept && d.waiting == c.waiting && d.receiving == c.receiving
      && d.cancelling == (c.cancelling || (c.receiving && k.stop))
      && d.failed == (c.failed || error || (c.receiving && !c.cancelling && !k.stop))
      && (!Ended(c.admission.phase) ==>
            d.admission.phase == (if c.admission.armed > 0 then Stopping
                                  else if c.admission.leases > 0 then Draining else Terminal))
      && (Ended(c.admission.phase) ==> d.admission.phase == c.admission.phase)
  {
  }

  lemma {:induction false} HaltedOk(l: Limits, c: Control, k: Answers)
    requires ControlOk(l, c)
    ensures var d := Halted(c, k);
      && ControlOk(l, d) && SameCounts(d.admission, c.admission) && (c.failed ==> d.failed)
      && (Ended(c.admission.phase) ==> Ended(d.admission.phase))
      && d.kept == c.kept && d.waiting == c.waiting && d.receiving == c.receiving
    ensures ControlOk(l, c.(admission := Pause(c.admission)))
    ensures var d := Halted(c, k);
      if c.receiving && !c.cancelling && !k.pause then d == Stopped(c.(admission := Pause(c.admission)), true, k)
      else
        && d.cancelling == (c.cancelling || c.receiving) && d.failed == c.failed
        && d.admission.phase == (if !c.admission.phase.Active? then c.admission.phase
                                 else if c.admission.armed > 0 then Pausing else Paused)
  {
    StoppedOk(l, Cancelled(c.(admission := Pause(c.admission)), k.pause), true, k);
  }

  /** After the end, delivering is serving: nothing is resumed. */
  lemma {:induction false} EndedServes(l: Limits, c: Control, k: Answers)
    requires Ended(c.admission.phase)
    ensures Delivery(l, c, k) == Served(c)
  {
  }

  /** Taking a payload never takes the consumer away that is about to get it. */
  lemma {:induction false} TookWaits(l: Limits, c: Control, k: Answers)
    requires ControlOk(l, c) && (OneAtMost(c) || Ended(c.admission.phase))
    ensures Took(l, c, k).waiting == c.waiting && (!HasPayload(c) ==> Took(l, c, k) == c)
  {
    if c.admission.queued > 0 {
      ResumedWaits(l, c.(admission := Acquire(c.admission).value), k);
    } else if c.kept > 0 {
      ResumedWaits(l, c.(kept := c.kept - 1), k);
    }
  }

  lemma {:induction false} ResumedWaits(l: Limits, c: Control, k: Answers)
    ensures Resumed(l, c, k).waiting ==> c.waiting
    ensures c.admission.queued == 0 && c.kept == 0 && c.admission.leases > 0 ==> Resumed(l, c, k).waiting == c.waiting
    ensures c.admission.queued == 0 && c.kept == 0 && !Stranded(c) ==> !Stranded(Resumed(l, c, k))
  {
  }

  lemma {:induction false} RearmedOne(l: Limits, c: Control, last: bool, k: Answers)
    requires OneAtMost(c)
    ensures OneAtMost(Rearmed(l, c, last, k))
  {
  }

  lemma {:induction false} CountedOk(l: Limits, c: Control, recorded: bool, last: bool, k: Answers)
    requires ControlOk(l, c) && OneAtMost(c) && c.receiving == !last
      && c.admission.armed == (if recorded && last then 0 else 1)
    ensures var d := Counted(l, c, recorded, last, k);
      && ControlOk(l, d) && OneAtMost(d) && InStep(d) && d.admission.queued == c.admission.queued && d.kept == c.kept
      && d.waiting == c.waiting
      && d.admission.leases == c.admission.leases
        && (c.failed && Ended(c.admission.phase) ==> d.failed && Ended(d.admission.phase))
  {
    if !recorded { CompleteKeeps(l, c.admission, NoEvent, last); }
    var a := if recorded then c.admission else Complete(l, c.admission, NoEvent, last).value;
    HaltedOk(l, c.(admission := a), k);
  }

  /** Every completion leaves a consumer waiting only if there is nothing to give, not even the end. */
  lemma {:induction false} FinishedRest(l: Limits, c: Control, recorded: bool, last: bool, k: Answers)
    ensures Starved(Finished(l, c, recorded, last, k)) && !Stranded(Finished(l, c, recorded, last, k))
  {
    var d := Rearmed(l, Counted(l, c, recorded, last, k), last, k);
    DeliveryRest(l, d, k);
    ResumedRest(l, Delivery(l, d, k), k);
  }

  lemma {:induction false} DeliveryRest(l: Limits, c: Control, k: Answers)
    ensures Starved(Delivery(l, c, k)) && !Stranded(Delivery(l, c, k))
  {
  }

  lemma {:induction false} ResumedRest(l: Limits, c: Control, k: Answers)
    requires Starved(c)
    ensures Starved(Resumed(l, c, k)) && (Stranded(Resumed(l, c, k)) ==> Stranded(c))
  {
  }

  /** The four ways of a payload. */
  lemma {:induction false} PlacedCases(l: Limits, c: Control, last: bool, k: Answers)
    requires ControlOk(l, c) && c.admission.armed == 1
    ensures Placed(l, c, last, k).waiting == (c.waiting && !(IsRecorded(l, c, last) && IsDirect(c)))
    ensures Behind(l, c) ==>
      && Placed(l, c, last, k) == Halted(c.(kept := c.kept + 1), k) && !IsRecorded(l, c, last) && !IsDirect(c)
    ensures !Behind(l, c) && Entry(l, c, last).None? ==>
      && Placed(l, c, last, k) == Stopped(c, true, k) && !IsRecorded(l, c, last)
      && IsDirect(c) && c.admission.leases == l.buffers
    ensures !Behind(l, c) && Entry(l, c, last).Some? ==>
      var a := Entry(l, c, last).value;
      && Placed(l, c, last, k) == c.(admission := a, waiting := c.waiting && !IsDirect(c)) && IsRecorded(l, c, last)
      && c.kept == 0 && c.admission.leases < l.buffers && AdmissionOk(l, a) && a.leases == c.admission.leases + 1
      && a.queued == c.admission.queued + (if IsDirect(c) then 0 else 1)
      && !a.phase.Idle? && (Ended(c.admission.phase) ==> Ended(a.phase))
  {
    HaltedOk(l, c.(kept := c.kept + 1), k);
    StoppedOk(l, c, true, k);
    if Entry(l, c, last).Some? {
      CompleteKeeps(l, c.admission, if IsDirect(c) then Delivered else Produced, last);
    }
  }

  lemma {:induction false} PlacedOk(l: Limits, c: Control, last: bool, k: Answers)
    requires ControlOk(l, c) && Starved(c) && c.admission.armed == 1
    ensures var d := Placed(l, c, last, k);
      && OneAtMost(d) && d.receiving == c.receiving
        && d.admission.armed == (if IsRecorded(l, c, last) && last then 0 else 1)
  {
    HaltedOk(l, c.(kept := c.kept + 1), k);
    StoppedOk(l, c, true, k);
  }

  lemma {:induction false} QuietenedOk(l: Limits, c: Control, quiet: Quiet, malformed: bool, last: bool, k: Answers)
    requires ControlOk(l, c)
    ensures var d := Quietened(c, quiet, malformed, last, k);
      && ControlOk(l, d) && SameCounts(d.admission, c.admission) && d.kept == c.kept
      && d.waiting == c.waiting && d.receiving == c.receiving
      && (c.failed && Ended(c.admission.phase) ==> d.failed && Ended(d.admission.phase))
  {
    hide Stopped;
    var error := !quiet.EndOfData?;
    StoppedOk(l, c, error, k);
    StoppedOk(l, if Quits(c, quiet, last) then Stopped(c, error, k) else c, true, k.(stop := k.again));
  }

  lemma {:induction false} NextRest(l: Limits, c: Control, k: Answers)
    requires Starved(c)
    ensures Starved(AfterNext(l, c, k)) && (Stranded(AfterNext(l, c, k)) ==> Stranded(c))
  {
  }

  lemma {:induction false} CancelRest(l: Limits, c: Control, expected: bool, k: Answers)
    requires Starved(c)
    ensures Starved(AfterCancel(l, c, expected, k)) && (Stranded(AfterCancel(l, c, expected, k)) <==> Stranded(c))
  {
    ResumedRest(l, c.(cancelling := false, failed := c.failed || !expected), k);
  }

  lemma {:induction false} ReturnRest(l: Limits, c: Control, k: Answers)
    requires ControlOk(l, c) && Starved(c) && c.admission.leases > c.admission.queued
    ensures Starved(AfterReturn(l, c, k))
    ensures Stranded(AfterReturn(l, c, k)) <==> c.waiting && c.admission.phase.Draining? && c.admission.leases == 1
  {
  }
}
