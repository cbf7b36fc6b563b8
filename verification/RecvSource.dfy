/**
  The multishot receive source of the io_uring loop: payloads are delivered
  directly, through a bounded queue, or through an overflow list, always in the
  order of their completions; copy slots and kernel buffers are conserved.
 */
module RecvSource {
  import opened Options
  import opened RecvControl
  import opened RecvWaiting

  // ---- The source --------------------------------------------------------------------

  /** A queued payload and the copy slot that holds it. */
  datatype Pending<P> = Pending(slot: nat, payload: P)

  /** A kernel buffer: borrowed, finished by the kernel, lent to a copy in progress. */
  datatype Buffer = Buffer(active: bool, kernelDone: bool, leases: nat)

  const RETURNED := Buffer(false, false, 0)

  ghost function Payloads<P>(q: seq<Pending<P>>): seq<P> {
    if q == [] then [] else [q[0].payload] + Payloads(q[1..])
  }

  ghost function Queued<P>(q: seq<Pending<P>>, n: nat): nat {
    if q == [] then 0 else (if q[0].slot == n then 1 else 0) + Queued(q[1..], n)
  }

  ghost function Count(q: seq<nat>, n: nat): nat {
    if q == [] then 0 else (if q[|q| - 1] == n then 1 else 0) + Count(q[..|q| - 1], n)
  }

  lemma {:induction false} PayloadsAdd<P>(q: seq<Pending<P>>, e: Pending<P>)
    ensures Payloads(q + [e]) == Payloads(q) + [e.payload]
    ensures forall n :: Queued(q + [e], n) == Queued(q, n) + if e.slot == n then 1 else 0
  {
    if q == [] {
      assert [] + [e] == [e] && [e][1..] == [];
    } else {
      assert (q + [e])[0] == q[0] && (q + [e])[1..] == q[1..] + [e];
      PayloadsAdd(q[1..], e);
    }
  }

  lemma {:induction false} CountAdd(q: seq<nat>, x: nat)
    ensures forall n :: Count(q + [x], n) == Count(q, n) + if x == n then 1 else 0
  {
    assert (q + [x])[..|q|] == q;
  }

  /** Every copy slot is free, queued or lent, and only one of these. */
  ghost predicate SlotsOk<P>(free: seq<nat>, events: seq<Pending<P>>, lent: set<nat>, slots: nat) {
    forall n: nat :: Count(free, n) + Queued(events, n) + (if n in lent then 1 else 0) == if n < slots then 1 else 0
  }

  lemma {:induction false} QueuePayload<P>(free: seq<nat>, rest: seq<nat>, events: seq<Pending<P>>, lent: set<nat>,
      slots: nat, slot: nat, payload: P)
    requires SlotsOk(free, events, lent, slots) && free == rest + [slot]
    ensures SlotsOk(rest, events + [Pending(slot, payload)], lent, slots)
      && Payloads(events + [Pending(slot, payload)]) == Payloads(events) + [payload]
  {
    PayloadsAdd(events, Pending(slot, payload));
    CountAdd(rest, slot);
  }

  lemma {:induction false} LendSlot<P>(free: seq<nat>, rest: seq<nat>, events: seq<Pending<P>>, lent: set<nat>,
      slots: nat, slot: nat)
    requires SlotsOk(free, events, lent, slots) && free == rest + [slot]
    ensures SlotsOk(rest, events, lent + {slot}, slots) && slot !in lent
  {
    CountAdd(rest, slot);
    assert Count(free, slot) >= 1;
  }

  /** What a Next gets: a payload (and its copy slot unless it overflowed), the end, an error, or a refusal. */
  datatype Taken<P> = Nothing | Lease(slot: Option<nat>, payload: P) | End | Failure | Busy

  predicate Over<P>(t: Taken<P>) { t.End? || t.Failure? }

  function Lent<P>(t: Taken<P>): set<nat> { if t.Lease? && t.slot.Some? then {t.slot.value} else {} }

  function Got<P>(t: Taken<P>): seq<P> { if t.Lease? then [t.payload] else [] }

  class Source<P> {
    const limits: Limits
    var ctl: Control
    var events: seq<Pending<P>>
    var overflow: seq<P>
    var copyFree: seq<nat>
    var buffers: seq<Buffer>
    /**
     * Copy slots in the application's hands; payloads accepted, delivered and dropped; kernel buffers taken and
     * returned.
     */
    ghost var lent: set<nat>
    ghost var accepted: seq<P>
    ghost var delivered: seq<P>
    ghost var dropped: seq<P>
    ghost var taken: seq<nat>
    ghost var returned: seq<nat>

    /** Every copy slot is in one place, and every accepted payload was delivered or waits its turn. */
    ghost predicate Books()
      reads this`copyFree, this`events, this`lent, this`accepted, this`delivered, this`overflow
    {
      && |copyFree| + |events| + |lent| == limits.buffers && SlotsOk(copyFree, events, lent, limits.buffers)
      && accepted == delivered + Payloads(events) + overflow
    }

    /** The counters are in bounds and agree with the books; a loss stops the source with an error. */
    ghost predicate Sane()
      reads this`ctl, this`events, this`overflow, this`lent, this`dropped
    {
      && ControlOk(limits, ctl) && ctl.admission.queued == |events| && ctl.admission.leases == |events| + |lent|
      && ctl.kept == |overflow| && (dropped != [] ==> ctl.failed && Ended(ctl.admission.phase))
    }

    ghost predicate Valid()
      reads this
    {
      Books() && Sane()
    }

    /** No kernel buffer is borrowed: each one taken was returned. */
    ghost predicate Clear()
      reads this`taken, this`returned, this`buffers
    {
      taken == returned && forall i :: 0 <= i < |buffers| ==> buffers[i] == RETURNED
    }

    /** Between two calls. */
    ghost predicate AtRest()
      reads this
    {
      Valid() && Clear() && Rest(limits, ctl)
    }

    /** An end or an error comes when all accepted payloads were delivered; a clean end says that none was lost. */
    ghost predicate AllGiven(t: Taken<P>)
      reads this`accepted, this`delivered, this`dropped
    {
      Over(t) ==> delivered == accepted && (t.End? ==> dropped == [])
    }

    constructor (limits: Limits, pool: nat)
      requires LimitsOk(limits)
      ensures AtRest() && ctl == Control(Admission(Idle, 0, 0, 0), 0, false, false, false, false)
        && this.limits == limits
      ensures accepted == [] && dropped == [] && |buffers| == pool
    {
      this.limits := limits;
      ctl := Control(Admission(Idle, 0, 0, 0), 0, false, false, false, false);
      events, overflow := [], [];
      copyFree := seq(limits.buffers, i => i);
      buffers := seq(pool, _ => RETURNED);
      lent, accepted, delivered, dropped, taken, returned := {}, [], [], [], [], [];
      new;
      forall n: nat ensures Count(copyFree, n) == if n < limits.buffers then 1 else 0 { CountUpto(limits.buffers, n); }
    }

    // ---- Kernel buffers ----------------------------------------------------------------

    /** Borrows a kernel buffer for a copy; the pool may refuse. */
    method AcquireBuffer(id: nat, granted: bool) returns (ok: bool)
      modifies this`buffers, this`taken
      ensures ok <==> id < |old(buffers)| && !old(buffers)[id].active && granted
      ensures ok ==> buffers == old(buffers)[id := Buffer(true, false, 1)] && taken == old(taken) + [id]
      ensures !ok ==> buffers == old(buffers) && taken == old(taken)
    {
      if id >= |buffers| || buffers[id].active || !granted {
        return false;
      }
      buffers := buffers[id := Buffer(true, false, 1)];
      taken := taken + [id];
      return true;
    }

    method ReturnIfReclaimable(id: nat)
      requires id < |buffers|
      modifies this`buffers, this`returned
      ensures var b := old(buffers)[id];
        if b.active && b.kernelDone && b.leases == 0
        then buffers == old(buffers)[id := RETURNED] && returned == old(returned) + [id]
        else buffers == old(buffers) && returned == old(returned)
    {
      var b := buffers[id];
      if b.active && b.kernelDone && b.leases == 0 {
        returned := returned + [id];
        buffers := buffers[id := RETURNED];
      }
    }

    method MarkKernelDone(id: nat)
      requires id < |buffers| && buffers[id].active && !buffers[id].kernelDone && buffers[id].leases > 0
      modifies this`buffers, this`returned
      ensures buffers == old(buffers)[id := old(buffers)[id].(kernelDone := true)] && returned == old(returned)
    {
      buffers := buffers[id := buffers[id].(kernelDone := true)];
      ReturnIfReclaimable(id);
    }

    /** Kernel buffer `id` is borrowed for one copy, and nothing else is. */
    ghost predicate Borrowed(id: nat)
      reads this
    {
      && id < |buffers| && buffers[id] == Buffer(true, true, 1) && taken == returned + [id]
      && forall i :: 0 <= i < |buffers| && i != id ==> buffers[i] == RETURNED
    }

    /** The copy is done: the kernel buffer goes back. */
    method ReleaseBuffer(id: nat)
      requires Borrowed(id)
      modifies this`buffers, this`returned
      ensures Clear() && |buffers| == |old(buffers)|
    {
      buffers := buffers[id := buffers[id].(leases := buffers[id].leases - 1)];
      ReturnIfReclaimable(id);
    }

    // ---- Payloads ----------------------------------------------------------------------

    method TakeCopySlot() returns (slot: nat)
      requires copyFree != []
      modifies this`copyFree
      ensures slot == old(copyFree)[|old(copyFree)| - 1] && copyFree == old(copyFree)[..|old(copyFree)| - 1]
    {
      slot := copyFree[|copyFree| - 1];
      copyFree := copyFree[..|copyFree| - 1];
    }

    /** Behind the queued payloads. */
    method QueueEvent(id: nat, payload: P)
      requires Borrowed(id) && Books() && copyFree != [] && overflow == []
      modifies this`copyFree, this`events, this`accepted, this`buffers, this`returned
      ensures Clear() && |buffers| == |old(buffers)| && Books()
      ensures accepted == old(accepted) + [payload] && |events| == |old(events)| + 1
    {
      ghost var free := copyFree;
      var slot := TakeCopySlot();
      ReleaseBuffer(id);
      QueuePayload(free, copyFree, events, lent, limits.buffers, slot, payload);
      assert delivered + (Payloads(events) + [payload]) + [] == delivered + Payloads(events) + [] + [payload];
      events := events + [Pending(slot, payload)];
      accepted := accepted + [payload];
    }

    /** Straight to the consumer that waits; nothing is queued. */
    method DeliverDirectly(id: nat, payload: P) returns (t: Taken<P>)
      requires Borrowed(id) && Books() && copyFree != [] && overflow == [] && events == []
      modifies this`copyFree, this`lent, this`accepted, this`delivered, this`buffers, this`returned
      ensures Clear() && |buffers| == |old(buffers)| && Books() && accepted == old(accepted) + [payload]
      ensures t.Lease? && t.payload == payload && delivered == old(delivered) + [payload]
      ensures lent == old(lent) + Lent(t) && |lent| == |old(lent)| + 1
    {
      ghost var free := copyFree;
      var slot := TakeCopySlot();
      ReleaseBuffer(id);
      t := Lease(Some(slot), payload);
      LendSlot(free, copyFree, events, lent, limits.buffers, slot);
      lent := lent + {slot};
      accepted, delivered := accepted + [payload], delivered + [payload];
      assert delivered + [] + [] == delivered;
    }

    /** Behind everything else, in memory of its own. */
    method KeepOverflow(id: nat, payload: P)
      requires Borrowed(id) && Books()
      modifies this`overflow, this`accepted, this`buffers, this`returned
      ensures Clear() && |buffers| == |old(buffers)| && Books()
      ensures overflow == old(overflow) + [payload] && accepted == old(accepted) + [payload]
    {
      ReleaseBuffer(id);
      ghost var before := delivered + Payloads(events);
      assert before + (overflow + [payload]) == before + overflow + [payload];
      overflow, accepted := overflow + [payload], accepted + [payload];
    }

    /** Takes the first payload out of the queue; its slot is lent. */
    method PopEvent() returns (e: Pending<P>)
      requires Books() && events != []
      modifies this`events, this`lent, this`delivered
      ensures Books() && e == old(events)[0] && events == old(events)[1..] && delivered == old(delivered) + [e.payload]
      ensures lent == old(lent) + {e.slot} && |lent| == |old(lent)| + 1
    {
      e := events[0];
      TakeFirst(copyFree, events, lent, limits.buffers);
      Shift(delivered, e.payload, Payloads(events[1..]), overflow);
      events := events[1..];
      lent := lent + {e.slot};
      delivered := delivered + [e.payload];
    }

    method PopOverflow() returns (payload: P)
      requires Books() && events == [] && overflow != []
      modifies this`overflow, this`delivered
      ensures Books() && payload == old(overflow)[0] && delivered == old(delivered) + [payload]
        && overflow == old(overflow)[1..]
    {
      payload := overflow[0];
      assert delivered + [] + overflow == (delivered + [payload]) + [] + overflow[1..];
      overflow := overflow[1..];
      delivered := delivered + [payload];
    }

    /** A slot comes back. */
    method FreeSlot(slot: nat)
      requires Books() && slot in lent
      modifies this`copyFree, this`lent
      ensures Books() && lent == old(lent) - {slot} && |lent| == |old(lent)| - 1
    {
      GiveBack(copyFree, events, lent, limits.buffers, slot);
      copyFree := copyFree + [slot];
      lent := lent - {slot};
    }

    // ---- Data ----------------------------------------------------------------------------

    /** A payload is lost: the source stops with an error. */
    method DropPayload(payload: P, k: Answers)
      requires Sane()
      modifies this`ctl, this`dropped
      ensures Sane() && ctl == Stopped(old(ctl), true, k) && dropped == old(dropped) + [payload]
    {
      StoppedOk(limits, ctl, true, k);
      ctl := Stopped(ctl, true, k);
      dropped := dropped + [payload];
    }

    /**
     * A payload is in kernel buffer `id`: it is delivered, queued or kept, in order, and the buffer goes back.  It is
     * dropped, and the source stops with an error, exactly if it would be delivered directly while every copy slot
     * is in use.
     */
    method Place(id: nat, payload: P, last: bool, k: Answers) returns (recorded: bool, t: Taken<P>)
      requires Valid() && Borrowed(id) && ctl.admission.armed == 1
      modifies this
      ensures Valid() && Clear() && |buffers| == |old(buffers)|
      ensures ctl == Placed(limits, old(ctl), last, k) && recorded == IsRecorded(limits, old(ctl), last)
      ensures delivered == old(delivered) + Got(t) && lent == old(lent) + Lent(t)
      ensures ctl.waiting == (old(ctl).waiting && t.Nothing?) && (t.Nothing? || old(ctl).waiting)
        && (t.Nothing? || t.Lease?)
      ensures if IsDirect(old(ctl)) && old(ctl).admission.leases == limits.buffers
              then dropped == old(dropped) + [payload] && accepted == old(accepted)
              else dropped == old(dropped) && accepted == old(accepted) + [payload]
    {
      hide Halted, Stopped, Books, Placed, IsRecorded, AdmissionOk, CanQueue;
      recorded, t := false, Nothing;
      PlacedCases(limits, ctl, last, k);
      if Behind(limits, ctl) {
        PlaceBehind(id, payload, k);
        return;
      }
      var direct, a := IsDirect(ctl), Entry(limits, ctl, last);
      if a.None? {
        ReleaseBuffer(id);
        DropPayload(payload, k);
        return;
      }
      SomeSlotFree();
      recorded := true;
      t := PlaceCounted(id, payload, direct, a.value);
    }

    lemma SomeSlotFree()
      requires Valid()
      ensures ctl.admission.leases < limits.buffers <==> copyFree != []
    {
    }

    method PlaceBehind(id: nat, payload: P, k: Answers)
      requires Valid() && Borrowed(id) && ctl.admission.armed == 1
      modifies this
      ensures Valid() && Clear() && |buffers| == |old(buffers)|
        && ctl == Halted(old(ctl).(kept := old(ctl).kept + 1), k)
      ensures dropped == old(dropped) && accepted == old(accepted) + [payload] && delivered == old(delivered)
        && lent == old(lent)
    {
      hide Books, Halted;
      KeepOverflow(id, payload);
      var c := ctl.(kept := ctl.kept + 1);
      HaltedOk(limits, c, k);
      ctl := Halted(c, k);
    }

    method PlaceCounted(id: nat, payload: P, direct: bool, a: Admission) returns (t: Taken<P>)
      requires Valid() && Borrowed(id) && overflow == [] && copyFree != [] && (direct ==> events == [])
      requires AdmissionOk(limits, a) && a.leases == ctl.admission.leases + 1
      requires a.queued == ctl.admission.queued + (if direct then 0 else 1) && (dropped != [] ==> Ended(a.phase))
      modifies this
      ensures Valid() && Clear() && |buffers| == |old(buffers)| && dropped == old(dropped)
        && accepted == old(accepted) + [payload]
      ensures ctl == old(ctl).(admission := a, waiting := old(ctl).waiting && !direct)
      ensures delivered == old(delivered) + Got(t) && lent == old(lent) + Lent(t)
        && (if direct then t.Lease? else t.Nothing?)
    {
      hide Books;
      if direct {
        t := DeliverDirectly(id, payload);
      } else {
        QueueEvent(id, payload);
        t := Nothing;
      }
      ctl := ctl.(admission := a, waiting := ctl.waiting && !direct);
    }

    // ---- Delivery --------------------------------------------------------------------------

    /** Keeps a request armed; if that fails the source stops, and `served` is what a waiting consumer then gets. */
    method EnsureSubmission(k: Answers) returns (served: Taken<P>)
      requires Valid() && InStep(ctl)
      modifies this`ctl, this`events, this`overflow, this`lent, this`delivered
      decreases if Ended(ctl.admission.phase) then 0 else 1, 1
      ensures Valid() && InStep(ctl) && ctl == Ensured(limits, old(ctl), k)
      ensures delivered == old(delivered) + Got(served) && lent == old(lent) + Lent(served) && AllGiven(served)
        && !served.Busy?
      ensures ctl.waiting == (old(ctl).waiting && served.Nothing?) && (served.Nothing? || old(ctl).waiting)
      ensures served.Lease? ==> HasPayload(old(ctl))
      ensures !served.End?
    {
      if !ctl.admission.phase.Active? || ctl.receiving || ctl.cancelling {
        return Nothing;
      }
      if ArmSent(limits, ctl, k) {
        ctl := Armed(limits, ctl);
        return Nothing;
      }
      StoppedOk(limits, ctl, true, k);
      ctl := Stopped(ctl, true, k);
      EndedServes(limits, ctl, k);
      served := DeliverNextIfReady(k);
    }

    method MaybeResume(k: Answers) returns (served: Taken<P>)
      requires Valid() && InStep(ctl)
      modifies this`ctl, this`events, this`overflow, this`lent, this`delivered
      decreases if Ended(ctl.admission.phase) then 0 else 1, 2, 0
      ensures Valid() && InStep(ctl) && ctl == Resumed(limits, old(ctl), k)
      ensures delivered == old(delivered) + Got(served) && lent == old(lent) + Lent(served) && AllGiven(served)
        && !served.Busy?
      ensures ctl.waiting == (old(ctl).waiting && served.Nothing?) && (served.Nothing? || old(ctl).waiting)
      ensures served.Lease? ==> HasPayload(old(ctl))
      ensures !served.End?
    {
      var a := Resume(limits, ctl.admission);
      if ctl.failed || ctl.cancelling || overflow != [] || a.None? {
        return Nothing;
      }
      StopKeeps(limits, ctl.admission);
      ctl := ctl.(admission := a.value);
      served := EnsureSubmission(k);
    }

    /**
     * The oldest payload: from the queue, else from the overflow; the end or the error only when both are empty.
     * If the source cannot be resumed it serves a waiting consumer meanwhile, which finds nothing.
     */
    method TryTakeNext(k: Answers) returns (t: Taken<P>)
      requires Valid() && InStep(ctl) && (OneAtMost(ctl) || Ended(ctl.admission.phase))
      modifies this`ctl, this`events, this`overflow, this`lent, this`delivered
      decreases if Ended(ctl.admission.phase) then 0 else 1, 3
      ensures Valid() && InStep(ctl) && ctl == Took(limits, old(ctl), k) && ctl.waiting == old(ctl).waiting
      ensures !t.Busy? && (t.Lease? <==> HasPayload(old(ctl))) && (t.Nothing? <==> !HasResult(old(ctl)))
      ensures t.Lease? ==> old(Payloads(events) + overflow) != [] && t.payload == old(Payloads(events) + overflow)[0]
      ensures delivered == old(delivered) + Got(t) && lent == old(lent) + Lent(t)
      ensures (Over(t) ==> (t.Failure? <==> old(ctl).failed)) && AllGiven(t)
    {
      hide Resumed, Took;
      TookWaits(limits, ctl, k);
      if events != [] || overflow != [] {
        t := TakePayload(k);
        return;
      }
      if ctl.admission.phase.Terminal? {
        return if ctl.failed then Failure else End;
      }
      return Nothing;
    }

    method TakePayload(k: Answers) returns (t: Taken<P>)
      requires Valid() && InStep(ctl) && HasPayload(ctl) && Took(limits, ctl, k).waiting == ctl.waiting
      modifies this`ctl, this`events, this`overflow, this`lent, this`delivered
      decreases if Ended(ctl.admission.phase) then 0 else 1, 2, 2
      ensures Valid() && InStep(ctl) && ctl == Took(limits, old(ctl), k) && t.Lease?
      ensures old(Payloads(events) + overflow) != [] && t.payload == old(Payloads(events) + overflow)[0]
      ensures delivered == old(delivered) + Got(t) && lent == old(lent) + Lent(t)
    {
      hide Resumed;
      if events != [] {
        TakeKeeps(limits, ctl.admission);
        var e := TakeQueued();
        ResumeTaken(true, k);
        return Lease(Some(e.slot), e.payload);
      }
      var payload := TakeOverflow();
      ResumeTaken(overflow == [], k);
      return Lease(None, payload);
    }

    /** A payload has been taken: a paused source resumes if it may; that gives nothing to a consumer that waits. */
    method ResumeTaken(may: bool, k: Answers)
      requires Valid() && InStep(ctl)
      requires may && ctl.admission.phase.Paused? ==> Resumed(limits, ctl, k).waiting == ctl.waiting
      modifies this`ctl, this`events, this`overflow, this`lent, this`delivered
      decreases if Ended(ctl.admission.phase) then 0 else 1, 2, 1
      ensures Valid() && InStep(ctl) && delivered == old(delivered) && lent == old(lent)
      ensures ctl == if may && old(ctl).admission.phase.Paused? then Resumed(limits, old(ctl), k) else old(ctl)
    {
      if may && ctl.admission.phase.Paused? {
        var served := MaybeResume(k);
        assert served.Nothing?;
      }
    }

    method TakeQueued() returns (e: Pending<P>)
      requires Valid() && events != []
      modifies this`events, this`ctl, this`lent, this`delivered
      ensures Valid() && e == old(events)[0] && delivered == old(delivered) + [e.payload] && events == old(events)[1..]
      ensures ctl == old(ctl).(admission := Acquire(old(ctl).admission).value) && lent == old(lent) + {e.slot}
      ensures ctl.admission.armed == old(ctl).admission.armed
    {
      hide Books;
      TakeKeeps(limits, ctl.admission);
      e := PopEvent();
      ctl := ctl.(admission := Acquire(ctl.admission).value);
    }

    method TakeOverflow() returns (payload: P)
      requires Valid() && events == [] && overflow != []
      modifies this`overflow, this`ctl, this`delivered
      ensures Valid() && payload == old(overflow)[0] && delivered == old(delivered) + [payload]
        && overflow == old(overflow)[1..]
      ensures ctl == old(ctl).(kept := old(ctl).kept - 1)
    {
      hide Books;
      payload := PopOverflow();
      ctl := ctl.(kept := ctl.kept - 1);
    }

    /** A waiting consumer gets what there is; it is still the one that waits when its result is there. */
    method DeliverNextIfReady(k: Answers) returns (served: Taken<P>)
      requires Valid() && InStep(ctl) && (OneAtMost(ctl) || Ended(ctl.admission.phase))
      modifies this`ctl, this`events, this`overflow, this`lent, this`delivered
      decreases if Ended(ctl.admission.phase) then 0 else 1, 4
      ensures Valid() && InStep(ctl) && ctl == Delivery(limits, old(ctl), k)
      ensures delivered == old(delivered) + Got(served) && lent == old(lent) + Lent(served) && AllGiven(served)
        && !served.Busy?
      ensures ctl.waiting == (old(ctl).waiting && served.Nothing?) && (served.Nothing? || old(ctl).waiting)
      ensures served.Lease? ==> HasPayload(old(ctl))
      ensures Over(served) ==> (served.Failure? <==> old(ctl).failed)
    {
      if !ctl.waiting {
        return Nothing;
      }
      served := TryTakeNext(k);
      assert ctl.waiting;
      if !served.Nothing? { ctl := ctl.(waiting := false); }
    }

    /**
     * Next: starts an idle source, takes what there is, or waits for it; refused while another Next waits.  It waits
     * for good if the source receives no more, is not over, and has nothing to give.
     */
    method Next(k: Answers) returns (t: Taken<P>)
      requires AtRest()
      modifies this`ctl, this`events, this`overflow, this`lent, this`delivered
      ensures AtRest() && ctl == AfterNext(limits, old(ctl), k)
      ensures delivered == old(delivered) + Got(t) && lent == old(lent) + Lent(t) && AllGiven(t)
      ensures (t.Busy? <==> old(ctl).waiting) && (ctl.waiting <==> t.Nothing? || t.Busy?)
      ensures t.Lease? <==> !old(ctl).waiting && HasPayload(old(ctl))
      ensures old(ctl).admission.phase.Terminal? && !old(ctl).waiting && !HasPayload(old(ctl)) ==>
        if old(ctl).failed then t.Failure? else t.End?
      ensures old(ctl).admission.phase.Idle? ==>
        if k.arm then t.Nothing? && ctl.receiving && ctl.admission.phase.Active?
        else t.Failure? && ctl.admission.phase.Terminal? && ctl.failed
      ensures LeftBehind(ctl) <==> LeftBehind(old(ctl)) || (t.Nothing? && LeftBehind(old(ctl).(waiting := true)))
      ensures Abandoned(ctl) <==>
        || Abandoned(old(ctl))
        || (t.Nothing? && !old(ctl).admission.phase.Idle? && Abandoned(old(ctl).(waiting := true)))
    {
      NextKeeps(limits, ctl, k);
      NextLeaves(limits, ctl, k);
      assert InStep(ctl) && (ctl.waiting ==> !HasPayload(ctl)) && (ctl.admission.phase.Idle? ==> !HasPayload(ctl));
      if ctl.admission.phase.Idle? { StartsExactly(limits, ctl, k); }
      hide Rest, LeftBehind, Abandoned, Started, Waited, Books;
      if ctl.waiting {
        return Busy;
      }
      if ctl.admission.phase.Idle? {
        var ok := Start(k);
        if !ok {
          return Failure;
        }
      }
      t := TakeOrWait(k);
    }

    method TakeOrWait(k: Answers) returns (t: Taken<P>)
      requires Valid() && InStep(ctl) && !ctl.waiting
      modifies this`ctl, this`events, this`overflow, this`lent, this`delivered
      ensures Valid() && InStep(ctl) && ctl == Waited(limits, old(ctl), k)
      ensures delivered == old(delivered) + Got(t) && lent == old(lent) + Lent(t) && AllGiven(t)
      ensures !t.Busy? && (ctl.waiting <==> t.Nothing?) && (t.Lease? <==> HasPayload(old(ctl)))
      ensures (t.Nothing? <==> !HasResult(old(ctl))) && (Over(t) ==> (t.Failure? <==> old(ctl).failed))
    {
      t := TryTakeNext(k);
      ctl := ctl.(waiting := t.Nothing?);
    }

    // ---- Completions -----------------------------------------------------------------------

    /** The common end of a completion; `recorded` says whether the admission has counted it. */
    method FinishCompletion(recorded: bool, last: bool, k: Answers) returns (t: Taken<P>)
      requires Valid() && OneAtMost(ctl)
      requires ctl.receiving == !last && ctl.admission.armed == (if recorded && last then 0 else 1)
      modifies this`ctl, this`events, this`overflow, this`lent, this`delivered
      ensures Valid() && InStep(ctl) && ctl == Finished(limits, old(ctl), recorded, last, k)
      ensures delivered == old(delivered) + Got(t) && lent == old(lent) + Lent(t) && AllGiven(t) && !t.Busy?
      ensures ctl.waiting == (old(ctl).waiting && t.Nothing?) && (t.Nothing? || old(ctl).waiting)
    {
      hide Counted, Rearmed, Delivery, Resumed, Books;
      CountedOk(limits, ctl, recorded, last, k);
      ctl := Counted(limits, ctl, recorded, last, k);
      t := Rearm(last, k);
      var served := DeliverAndResume(k);
      if t.Nothing? { t := served; }
    }

    method Rearm(last: bool, k: Answers) returns (t: Taken<P>)
      requires Valid() && InStep(ctl) && OneAtMost(ctl)
      modifies this`ctl, this`events, this`overflow, this`lent, this`delivered
      ensures Valid() && InStep(ctl) && OneAtMost(ctl) && ctl == Rearmed(limits, old(ctl), last, k)
      ensures delivered == old(delivered) + Got(t) && lent == old(lent) + Lent(t) && AllGiven(t) && !t.Busy?
      ensures ctl.waiting == (old(ctl).waiting && t.Nothing?) && (t.Nothing? || old(ctl).waiting)
    {
      RearmedOne(limits, ctl, last, k);
      t := Nothing;
      if last && ctl.admission.phase.Active? && !ctl.failed {
        t := EnsureSubmission(k);
      }
    }

    method DeliverAndResume(k: Answers) returns (t: Taken<P>)
      requires Valid() && InStep(ctl) && OneAtMost(ctl)
      modifies this`ctl, this`events, this`overflow, this`lent, this`delivered
      ensures Valid() && InStep(ctl) && ctl == Resumed(limits, Delivery(limits, old(ctl), k), k)
      ensures delivered == old(delivered) + Got(t) && lent == old(lent) + Lent(t) && AllGiven(t) && !t.Busy?
      ensures ctl.waiting == (old(ctl).waiting && t.Nothing?) && (t.Nothing? || old(ctl).waiting)
    {
      t := DeliverNextIfReady(k);
      var served := MaybeResume(k);
      if t.Nothing? { t := served; }
    }

    /**
     * The kernel completed a receive with a payload in buffer `id`; `last` if the request ended with it.  The payload
     * is dropped, and the source stops with an error, exactly if the buffer cannot be borrowed or the payload would be
     * delivered directly while every copy slot is in use.  `t` is what a waiting consumer gets; it is left behind
     * exactly if the payload is lost, the request is over and a slot is lent.
     */
    method OnData(id: nat, payload: P, last: bool, granted: bool, k: Answers) returns (t: Taken<P>)
      requires AtRest() && ctl.receiving
      modifies this
      ensures AtRest() && |buffers| == |old(buffers)|
      ensures ctl == AfterData(limits, old(ctl), id < |old(buffers)| && granted, last, k)
      ensures if Loses(limits, old(ctl), id < |old(buffers)| && granted)
              then dropped == old(dropped) + [payload] && accepted == old(accepted)
              else dropped == old(dropped) && accepted == old(accepted) + [payload]
      ensures delivered == old(delivered) + Got(t) && lent == old(lent) + Lent(t) && AllGiven(t) && !t.Busy?
      ensures ctl.waiting == (old(ctl).waiting && t.Nothing?) && (t.Nothing? || old(ctl).waiting)
      ensures !Abandoned(ctl)
      ensures LeftBehind(ctl) <==>
        && old(ctl).waiting && last && old(ctl).admission.leases > 0
        && Loses(limits, old(ctl), id < |old(buffers)| && granted)
    {
      hide Placed, Finished, Stopped, Books, Entry, Behind, IsRecorded, Rest, LeftBehind, Abandoned;
      DataKeeps(limits, ctl, id < |buffers| && granted, last, k);
      DataLeaves(limits, ctl, id < |buffers| && granted, last, k);
      var recorded, direct := PlaceOrStop(id, payload, last, granted, k);
      t := FinishCompletion(recorded, last, k);
      if direct.Lease? { t := direct; }
    }

    /** The part of a completion that deals with its payload. */
    method PlaceOrStop(id: nat, payload: P, last: bool, granted: bool, k: Answers) returns (recorded: bool, t: Taken<P>)
      requires AtRest() && ctl.receiving
      modifies this
      ensures Valid() && Clear() && |buffers| == |old(buffers)| && OneAtMost(ctl)
      ensures ctl.receiving == !last && ctl.admission.armed == (if recorded && last then 0 else 1)
      ensures var c, ok := Ending(old(ctl), last), id < |old(buffers)| && granted;
        && ctl == (if ok then Placed(limits, c, last, k) else Stopped(c, true, k))
        && recorded == (ok && IsRecorded(limits, c, last)) && ctl.waiting == (c.waiting && t.Nothing?)
      ensures delivered == old(delivered) + Got(t) && lent == old(lent) + Lent(t)
      ensures (t.Nothing? || t.Lease?) && (t.Nothing? || old(ctl).waiting)
      ensures if Loses(limits, old(ctl), id < |old(buffers)| && granted)
              then dropped == old(dropped) + [payload] && accepted == old(accepted)
              else dropped == old(dropped) && accepted == old(accepted) + [payload]
    {
      hide Placed, Stopped, Books, Entry, Behind, IsRecorded;
      ctl := Ending(ctl, last);
      PlacedOk(limits, ctl, last, k);
      StoppedOk(limits, ctl, true, k);
      var ok := Borrow(id, granted);
      if ok {
        recorded, t := Place(id, payload, last, k);
      } else {
        recorded, t := false, Nothing;
        DropPayload(payload, k);
      }
    }

    /** Borrows the kernel buffer that the kernel has just filled. */
    method Borrow(id: nat, granted: bool) returns (ok: bool)
      requires Clear()
      modifies this`buffers, this`taken, this`returned
      ensures (ok <==> id < |old(buffers)| && granted) && |buffers| == |old(buffers)|
      ensures if ok then Borrowed(id) else Clear()
    {
      ok := AcquireBuffer(id, granted);
      if ok { MarkKernelDone(id); }
    }

    /**
     * The kernel completed a receive without a payload.  A waiting consumer is left behind exactly if the request is
     * over and the source ends while a slot is lent, or was pausing and has failed.
     */
    method OnNoData(quiet: Quiet, malformed: bool, last: bool, k: Answers) returns (t: Taken<P>)
      requires AtRest() && ctl.receiving
      modifies this`ctl, this`events, this`overflow, this`lent, this`delivered
      ensures AtRest() && ctl == AfterNoData(limits, old(ctl), quiet, malformed, last, k)
      ensures delivered == old(delivered) + Got(t) && lent == old(lent) + Lent(t) && AllGiven(t) && !t.Busy?
      ensures ctl.waiting == (old(ctl).waiting && t.Nothing?) && (t.Nothing? || old(ctl).waiting)
      ensures Stops(old(ctl), quiet, malformed, last) ==>
        Ended(ctl.admission.phase) && (last ==> ctl.failed == (old(ctl).failed || malformed || !quiet.EndOfData?))
      ensures !Stops(old(ctl), quiet, malformed, last) && !last ==> ctl == old(ctl)
      ensures Abandoned(ctl) <==>
        && old(ctl).waiting && last && !quiet.EndOfData? && !malformed && old(ctl).admission.phase.Pausing?
        && old(ctl).failed && !old(ctl).cancelling && old(ctl).admission.leases == 0
      ensures LeftBehind(ctl) <==>
        && old(ctl).waiting && last
        && var c, leases := old(ctl), old(ctl).admission.leases;
           if malformed || Quits(c, quiet, last) || c.admission.phase.Stopping? then leases > 0
           else || (c.admission.phase.Pausing? && c.failed)
                || (!c.cancelling && leases > 0 && Refused(limits, leases, k))
    {
      assert InStep(ctl) && Starved(ctl);
      hide AfterNoData, Books, Sane, Rest, LeftBehind, Abandoned, Quits, Refused, Stops, InStep, Starved;
      NoDataKeeps(limits, ctl, quiet, malformed, last, k);
      NoDataLeaves(limits, ctl, quiet, malformed, last, k);
      NoDataOutcome(limits, ctl, quiet, malformed, last, k);
      t := CompleteQuietly(quiet, malformed, last, k);
    }

    method CompleteQuietly(quiet: Quiet, malformed: bool, last: bool, k: Answers) returns (t: Taken<P>)
      requires Valid() && InStep(ctl) && Starved(ctl) && ctl.receiving
      modifies this`ctl, this`events, this`overflow, this`lent, this`delivered
      ensures Valid() && ctl == AfterNoData(limits, old(ctl), quiet, malformed, last, k)
      ensures delivered == old(delivered) + Got(t) && lent == old(lent) + Lent(t) && AllGiven(t) && !t.Busy?
      ensures ctl.waiting == (old(ctl).waiting && t.Nothing?) && (t.Nothing? || old(ctl).waiting)
    {
      hide Finished, Quietened, Books;
      ctl := Ending(ctl, last);
      Quieten(quiet, malformed, last, k);
      t := FinishCompletion(false, last, k);
    }

    method Quieten(quiet: Quiet, malformed: bool, last: bool, k: Answers)
      requires Sane()
      modifies this`ctl
      ensures Sane() && ctl == Quietened(old(ctl), quiet, malformed, last, k)
        && SameCounts(ctl.admission, old(ctl).admission)
      ensures ctl.kept == old(ctl).kept && ctl.waiting == old(ctl).waiting && ctl.receiving == old(ctl).receiving
    {
      QuietenedOk(limits, ctl, quiet, malformed, last, k);
      ctl := Quietened(ctl, quiet, malformed, last, k);
    }

    /**
     * The cancel request completed.  A waiting consumer is left behind exactly if it was before, or the source was
     * paused and the result is unexpected, or the source cannot be resumed while a slot is lent.
     */
    method OnCancelDone(expected: bool, k: Answers) returns (served: Taken<P>)
      requires AtRest() && ctl.cancelling
      modifies this`ctl, this`events, this`overflow, this`lent, this`delivered
      ensures AtRest() && ctl == AfterCancel(limits, old(ctl), expected, k) && delivered == old(delivered)
        && lent == old(lent)
      ensures AllGiven(served) && (served.Nothing? || (served.Failure? && old(ctl).waiting))
      ensures ctl.waiting == (old(ctl).waiting && served.Nothing?)
      ensures LeftBehind(ctl) <==>
        || LeftBehind(old(ctl))
        || (old(ctl).waiting && old(ctl).admission.phase.Paused?
            && var leases := old(ctl).admission.leases; !expected || (leases > 0 && Refused(limits, leases, k)))
      ensures Abandoned(ctl) <==>
        && old(ctl).waiting
        && var a := old(ctl).admission;
           a.phase.Terminal? || (a.phase.Paused? && a.leases == 0 && (old(ctl).failed || !expected))
    {
      assert InStep(ctl) && Starved(ctl);
      hide Rest, Books, Resumed, LeftBehind, Abandoned;
      CancelKeeps(limits, ctl, expected, k);
      CancelLeaves(limits, ctl, expected, k);
      ctl := ctl.(cancelling := false, failed := ctl.failed || !expected);
      served := MaybeResume(k);
    }

    /** Starts an idle source; a failure to submit stops it. */
    method Start(k: Answers) returns (ok: bool)
      requires Sane() && InStep(ctl) && ctl.admission.phase.Idle?
      modifies this`ctl
      ensures Sane() && InStep(ctl) && ctl == Started(limits, old(ctl), k) && (ok <==> ctl.admission.phase.Active?)
    {
      var c := ctl.(admission := ctl.admission.(phase := Active));
      StoppedOk(limits, c, true, k);
      ok := ArmSent(limits, c, k);
      ctl := if ok then Armed(limits, c) else Stopped(c, true, k);
    }

    /**
     * Stops the source.  A waiting consumer is not told, so it is left behind exactly if no request is in the ring.
     */
    method RequestStop(k: Answers) returns (ok: bool)
      requires AtRest()
      modifies this`ctl
      ensures AtRest() && ctl == AfterStop(old(ctl), k)
      ensures ctl.waiting == old(ctl).waiting && SameCounts(ctl.admission, old(ctl).admission)
      ensures Ended(ctl.admission.phase) && (ok <==> !ctl.receiving || ctl.cancelling)
      ensures ctl.receiving == old(ctl).receiving
      ensures ctl.cancelling == (old(ctl).cancelling || (ctl.receiving && k.stop))
      ensures LeftBehind(ctl) <==> ctl.waiting && !ctl.receiving
      ensures Abandoned(ctl) <==> ctl.waiting && !ctl.receiving && ctl.admission.leases == 0
    {
      StopCallKeeps(limits, ctl, k);
      StopLeaves(limits, ctl, k);
      StopKeeps(limits, ctl.admission);
      ctl := ctl.(admission := Stop(ctl.admission));
      ok := CancelSent(ctl, k.stop);
      ctl := Cancelled(ctl, k.stop);
    }

    /**
     * The application gives a copy slot back.  A waiting consumer is left behind exactly if it was before, or the
     * source cannot receive again while another slot is lent.
     */
    method ReturnSlot(slot: nat, k: Answers) returns (served: Taken<P>)
      requires AtRest() && slot in lent
      modifies this`copyFree, this`ctl, this`events, this`overflow, this`lent, this`delivered
      ensures AtRest() && delivered == old(delivered) && lent == old(lent) - {slot}
      ensures old(ctl).admission.leases > 0 && ctl == AfterReturn(limits, old(ctl), k)
      ensures ctl.admission.leases == old(ctl).admission.leases - 1
      ensures var enough := limits.buffers >= ctl.admission.leases + Reserve(limits);
        ctl.receiving <==> old(ctl).receiving || (old(ctl).admission.phase.Active? && enough && k.arm)
      ensures AllGiven(served) && (served.Nothing? || (served.Failure? && old(ctl).waiting))
      ensures ctl.waiting == (old(ctl).waiting && served.Nothing?)
      ensures LeftBehind(ctl) <==>
        || LeftBehind(old(ctl))
        || (old(ctl).waiting && old(ctl).admission.phase.Active? && !old(ctl).receiving
            && var leases := old(ctl).admission.leases; leases > 1 && Refused(limits, leases - 1, k))
      ensures Abandoned(ctl) <==>
        && LeftBehind(old(ctl)) && old(ctl).admission.leases == 1
        && (old(ctl).admission.phase.Draining? || !old(ctl).cancelling)
    {
      assert InStep(ctl) && Starved(ctl);
      hide Rest, Books, Ensured, LeftBehind, Abandoned;
      LentSlot(slot);
      ReturnKeeps(limits, ctl, k);
      ReturnArms(limits, ctl, k);
      ReturnLeaves(limits, ctl, k);
      FreeCopySlot(slot);
      served := EnsureSubmission(k);
    }

    lemma LentSlot(slot: nat)
      requires Sane() && slot in lent
      ensures ctl.admission.leases > ctl.admission.queued
    {
      assert lent != {};
    }

    method FreeCopySlot(slot: nat)
      requires Valid() && InStep(ctl) && slot in lent && ctl.admission.leases > ctl.admission.queued
      modifies this`copyFree, this`lent, this`ctl
      ensures Valid() && InStep(ctl) && lent == old(lent) - {slot}
      ensures ctl == old(ctl).(admission := Release(old(ctl).admission).value)
    {
      hide Books;
      TakeKeeps(limits, ctl.admission);
      FreeSlot(slot);
      ctl := ctl.(admission := Release(ctl.admission).value);
    }
  }

  lemma {:induction false} TakeFirst<P>(free: seq<nat>, events: seq<Pending<P>>, lent: set<nat>, slots: nat)
    requires SlotsOk(free, events, lent, slots) && events != []
    ensures SlotsOk(free, events[1..], lent + {events[0].slot}, slots) && events[0].slot !in lent
  {
    assert Queued(events, events[0].slot) >= 1;
  }

  lemma {:induction false} Shift<P>(a: seq<P>, x: P, b: seq<P>, c: seq<P>)
    ensures a + ([x] + b) + c == (a + [x]) + b + c
  {
    assert a + ([x] + b) == (a + [x]) + b;
  }

  lemma {:induction false} GiveBack<P>(free: seq<nat>, events: seq<Pending<P>>, lent: set<nat>, slots: nat, slot: nat)
    requires SlotsOk(free, events, lent, slots) && slot in lent
    ensures SlotsOk(free + [slot], events, lent - {slot}, slots)
  {
    CountAdd(free, slot);
  }

  lemma {:induction false} CountUpto(k: nat, n: nat)
    ensures Count(seq(k, i => i), n) == if n < k then 1 else 0
  {
    if k > 0 {
      CountUpto(k - 1, n);
      assert seq(k, i => i)[..k - 1] == seq(k - 1, i => i);
    }
  }
}
