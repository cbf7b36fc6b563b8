/**
  What the callers of channels are told, and what it means: the effect of every
  operation said outright, and the state after any run said in terms of the
  events of the run and of the answers given.
 */
module ChannelAnswers {
  import opened Options
  import opened ChannelModel
  import opened ChannelRuns

  // ---- Effects ---------------------------------------------------------------------------

  /** Nothing happened to the operations there were, but to `o`. */
  ghost predicate OthersSame<T>(w: World<T>, w': World<T>, o: nat) {
    |w.ops| <= |w'.ops| && forall i :: 0 <= i < |w.ops| && i != o ==> w'.ops[i] == w.ops[i]
  }

  /** No channel but `c` has a new buffer, none is opened or closed. */
  ghost predicate BuffersSame<T>(w: World<T>, w': World<T>, c: nat) {
    && |w'.chans| == |w.chans|
    && forall d :: 0 <= d < |w.chans| ==>
      && w'.chans[d].capacity == w.chans[d].capacity && w'.chans[d].closed == w.chans[d].closed
      && (d != c ==> w'.chans[d].buffer == w.chans[d].buffer)
  }

  /** Waiting case `x` completes with `output`, and its operation leaves all queues and is scheduled. */
  ghost predicate Woken<T>(w: World<T>, w': World<T>, x: Waiter, output: Option<Option<T>>) {
    && x.Case? && x.op < |w.ops| && OthersSame(w, w', x.op)
    && w.ops[x.op].phase.Waiting? && w'.ops[x.op].phase.Scheduled? && w'.ops[x.op].cases == w.ops[x.op].cases
    && x.index < |w.ops[x.op].cases| == |w'.ops[x.op].regs| && w'.ops[x.op].winner == Some(x.index)
    && w'.ops[x.op].regs[x.index].output == output && w'.ops[x.op].wakeups == w.ops[x.op].wakeups + 1
    && !InQueues(w', x.op)
  }

  /** `v` goes to the first receiver that waits on channel `c`, else to the end of its buffer. */
  ghost predicate Delivered<T>(w: World<T>, w': World<T>, c: nat, v: T) {
    && c < |w.chans| && BuffersSame(w, w', c)
    && if w.chans[c].receivers == [] then
         && w'.chans == w.chans[c := w.chans[c].(buffer := w.chans[c].buffer + [v])]
         && OthersSame(w, w', |w.ops|)
       else
         Woken(w, w', w.chans[c].receivers[0], Some(Some(v))) && w'.chans[c].buffer == w.chans[c].buffer
  }

  /** The next value of channel `c` is taken; the first sender that waits completes, and its value moves up. */
  ghost predicate Removed<T>(w: World<T>, w': World<T>, c: nat, v: T) {
    && c < |w.chans| && BuffersSame(w, w', c)
    && if w.chans[c].senders == [] then
         && w.chans[c].buffer != [] && v == w.chans[c].buffer[0]
         && w'.chans == w.chans[c := w.chans[c].(buffer := w.chans[c].buffer[1..])] && OthersSame(w, w', |w.ops|)
       else
         var e := w.chans[c].senders[0];
         && Woken(w, w', e.who, None) && w'.ops[e.who.op].regs[e.who.index].taken
         && [v] + w'.chans[c].buffer == w.chans[c].buffer + [e.value]
  }

  lemma {:induction false} Evicted<T>(chans: seq<Chan<T>>, o: nat, w: World<T>)
    requires w.chans == EvictAll(chans, o)
    ensures !InQueues(w, o)
  {
  }

  lemma {:induction false} WinWakes<T>(w: World<T>, o: nat, k: nat, out: Option<T>)
    requires o < |w.ops| && OpOk(w.ops[o]) && w.ops[o].phase.Waiting? && k < |w.ops[o].cases|
    ensures var w', q := Win(w, o, k, out), w.ops[o].cases[k];
      && Woken(w, w', Case(o, k), if q.ReceiveFrom? then Some(out) else None) && BuffersSame(w, w', |w.chans|)
      && (forall d :: 0 <= d < |w.chans| ==> w'.chans[d].buffer == w.chans[d].buffer)
      && w'.ops[o].regs[k].taken == q.SendTo?
  {
    Evicted(w.chans, o, Win(w, o, k, out));
  }

  lemma {:induction false} FirstReceiver<T>(w: World<T>, c: nat)
    requires Good(w) && InRange(w, c)
    ensures forall r :: r in w.chans[c].receivers ==> r.Case? && r.op < |w.ops|
    ensures w.chans[c].receivers != [] ==>
      var r := w.chans[c].receivers[0]; Queued(w.ops, r, ReceiveFrom(c)) && OpOk(w.ops[r.op])
  {
    assert ChanOk(w, c);
    if w.chans[c].receivers != [] { assert w.chans[c].receivers[0] in w.chans[c].receivers; }
  }

  lemma {:induction false} FirstSender<T>(w: World<T>, c: nat)
    requires Good(w) && InRange(w, c)
    ensures forall e :: e in w.chans[c].senders ==> e.who.Case? && e.who.op < |w.ops|
    ensures w.chans[c].senders != [] ==>
      var e := w.chans[c].senders[0]; Queued(w.ops, e.who, SendTo(c, e.value)) && OpOk(w.ops[e.who.op])
  {
    assert ChanOk(w, c);
    if w.chans[c].senders != [] { assert w.chans[c].senders[0] in w.chans[c].senders; }
  }

  lemma {:induction false} AcceptDelivers<T>(w: World<T>, c: nat, who: Waiter, v: T)
    requires Good(w) && InRange(w, c) && CanAccept(w.chans[c])
    ensures forall r :: r in w.chans[c].receivers ==> r.Case? && r.op < |w.ops|
    ensures Delivered(w, Accept(w, c, who, v), c, v)
  {
    hide Good, OpOk, Win, InQueues;
    FirstReceiver(w, c);
    var ch, log := w.chans[c], w.logs[c];
    if ch.receivers != [] {
      var r := ch.receivers[0];
      var w1 := w.(logs := w.logs[c := Log(log.accepted + [Entry(who, v)], log.received + [Entry(r, v)])]);
      WinWakes(w1, r.op, r.index, Some(v));
    }
  }

  lemma {:induction false} TakeRemoves<T>(w: World<T>, c: nat, getter: Waiter)
    requires Good(w) && InRange(w, c) && CanTake(w.chans[c])
    ensures forall e :: e in w.chans[c].senders ==> e.who.Case? && e.who.op < |w.ops|
    ensures Removed(w, Take(w, c, getter), c, Next(w.chans[c]))
  {
    hide Good, OpOk, Win, InQueues;
    FirstSender(w, c);
    if w.chans[c].senders == [] {
      PopRemoves(w, c, getter);
    } else {
      AdmitRemoves(w, c, w.chans[c].senders[0], getter);
    }
  }

  lemma {:induction false} PopRemoves<T>(w: World<T>, c: nat, getter: Waiter)
    requires InRange(w, c) && CanTake(w.chans[c]) && w.chans[c].senders == []
    ensures Removed(w, Take(w, c, getter), c, Next(w.chans[c]))
  {
  }

  lemma {:induction false} AdmitRemoves<T>(w: World<T>, c: nat, e: Entry<T>, getter: Waiter)
    requires InRange(w, c) && w.chans[c].senders != [] && e == w.chans[c].senders[0]
    requires forall e :: e in w.chans[c].senders ==> e.who.Case? && e.who.op < |w.ops|
    requires Queued(w.ops, e.who, SendTo(c, e.value)) && OpOk(w.ops[e.who.op])
    ensures Removed(w, Take(w, c, getter), c, Next(w.chans[c]))
  {
    hide Win, OpOk, InQueues;
    var ch, log, all := w.chans[c], w.logs[c], w.chans[c].buffer + [e.value];
    var logs := w.logs[c := log.(received := log.received + [Entry(getter, Next(ch))])];
    var w1 := w.(logs := logs, chans := w.chans[c := ch.(buffer := all[1..])]);
    WinWakes(w1, e.who.op, e.who.index, None);
    assert Take(w, c, getter) == Win(w1, e.who.op, e.who.index, None);
    assert [all[0]] + all[1..] == all && Next(ch) == all[0];
    assert Win(w1, e.who.op, e.who.index, None).chans[c].buffer == all[1..];
  }

  /** A new operation with these cases has completed at once with case `k`. */
  ghost predicate Committed<T>(w: World<T>, w': World<T>, cases: seq<Request<T>>, k: nat) {
    && |w'.ops| == |w.ops| + 1 && k < |cases|
    && var op := w'.ops[|w.ops|];
       && op.cases == cases && op.winner == Some(k) && op.phase.Arming? && op.wakeups == 0 && |op.regs| == |cases|
       && match cases[k]
          case SendTo(c, v) => op.regs[k].taken && Delivered(w, w', c, v)
          case ReceiveFrom(c) =>
            && c < |w.chans| && op.regs[k].output.Some?
            && (match op.regs[k].output.value
                case Some(v) => Removed(w, w', c, v)
                case None => Exhausted(w.chans[c]) && w'.chans == w.chans && OthersSame(w, w', |w.ops|))
          case Default => w'.chans == w.chans && OthersSame(w, w', |w.ops|)
  }

  /** Nothing is left to receive, and nothing will come. */
  ghost predicate Exhausted<T>(ch: Chan<T>) { ch.closed && ch.buffer == [] && ch.senders == [] }

  /** The same for the operations that were there before `op`. */
  lemma {:induction false} NewApart<T>(w: World<T>, op: Op<T>, w': World<T>, c: nat, v: T)
    requires Good(w) && InRange(w, c)
    ensures var w1 := w.(ops := w.ops + [op]);
      && (Delivered(w1, w', c, v) ==> Delivered(w, w', c, v) && |w.ops| < |w'.ops| && w'.ops[|w.ops|] == op)
      && (Removed(w1, w', c, v) ==> Removed(w, w', c, v) && |w.ops| < |w'.ops| && w'.ops[|w.ops|] == op)
  {
    hide Good, OpOk, InQueues, BuffersSame, OthersSame, Woken;
    FirstReceiver(w, c);
    FirstSender(w, c);
    var ch, w1 := w.chans[c], w.(ops := w.ops + [op]);
    SameBuffers(w, w1, w', c);
    OthersApart(w, op, w');
    if ch.receivers != [] { WokenApart(w, op, w', ch.receivers[0], Some(Some(v))); }
    if ch.senders != [] { WokenApart(w, op, w', ch.senders[0].who, None); }
  }

  lemma {:induction false} OthersApart<T>(w: World<T>, op: Op<T>, w': World<T>)
    ensures var w1 := w.(ops := w.ops + [op]);
      OthersSame(w1, w', |w1.ops|) ==> OthersSame(w, w', |w.ops|) && |w.ops| < |w'.ops| && w'.ops[|w.ops|] == op
  {
    var w1 := w.(ops := w.ops + [op]);
    if OthersSame(w1, w', |w1.ops|) {
      assert w'.ops[|w.ops|] == w1.ops[|w.ops|];
      forall i | 0 <= i < |w.ops| ensures w'.ops[i] == w.ops[i] { assert w1.ops[i] == w.ops[i]; }
    }
  }

  lemma {:induction false} WokenApart<T>(w: World<T>, op: Op<T>, w': World<T>, x: Waiter, output: Option<Option<T>>)
    requires x.Case? && x.op < |w.ops|
    ensures Woken(w.(ops := w.ops + [op]), w', x, output) ==>
      Woken(w, w', x, output) && |w.ops| < |w'.ops| && w'.ops[|w.ops|] == op
  {
    hide InQueues;
    var w1 := w.(ops := w.ops + [op]);
    if Woken(w1, w', x, output) {
      assert w'.ops[|w.ops|] == w1.ops[|w.ops|] && w1.ops[x.op] == w.ops[x.op];
      forall i | 0 <= i < |w.ops| && i != x.op ensures w'.ops[i] == w.ops[i] { assert w1.ops[i] == w.ops[i]; }
    }
  }

  lemma {:induction false} SameBuffers<T>(w: World<T>, w1: World<T>, w': World<T>, c: nat)
    requires w1.chans == w.chans
    ensures BuffersSame(w1, w', c) ==> BuffersSame(w, w', c)
  {
  }

  lemma {:induction false} CommitCommits<T>(w: World<T>, cases: seq<Request<T>>, k: nat)
    requires Good(w) && k < |cases| && CanCommit(w, cases[k])
    ensures Committed(w, Commit(w, cases, k), cases, k)
  {
    hide Accept, Take, Delivered, Removed, OpOk;
    var takes := cases[k].ReceiveFrom? && CanTake(w.chans[cases[k].ch]);
    var out := if takes then Some(Next(w.chans[cases[k].ch])) else None;
    var op := Immediate(cases, k, out);
    ImmediateOk(cases, k, out);
    NewOpGood(w, op);
    var w1, o := w.(ops := w.ops + [op]), Case(|w.ops|, k);
    match cases[k]
    case SendTo(c, v) =>
      AcceptDelivers(w1, c, o, v);
      NewApart(w, op, Accept(w1, c, o, v), c, v);
      AcceptCount(w1, c, o, v);
    case ReceiveFrom(c) =>
      if takes {
        TakeRemoves(w1, c, o);
        NewApart(w, op, Take(w1, c, o), c, Next(w.chans[c]));
        TakeCount(w1, c, o);
      }
    case Default =>
  }

  lemma {:induction false} AcceptCount<T>(w: World<T>, c: nat, who: Waiter, v: T)
    requires InRange(w, c) && CanAccept(w.chans[c])
    requires forall r :: r in w.chans[c].receivers ==> r.Case? && r.op < |w.ops|
    ensures |Accept(w, c, who, v).ops| == |w.ops| && |Accept(w, c, who, v).logs| == |w.logs|
  {
  }

  lemma {:induction false} TakeCount<T>(w: World<T>, c: nat, getter: Waiter)
    requires InRange(w, c) && CanTake(w.chans[c])
    requires forall e :: e in w.chans[c].senders ==> e.who.Case? && e.who.op < |w.ops|
    ensures |Take(w, c, getter).ops| == |w.ops| && |Take(w, c, getter).logs| == |w.logs|
  {
  }

  /** A new operation with these cases waits behind all others, in the queues that its cases name and in no other. */
  ghost predicate Waits<T>(w: World<T>, w': World<T>, cases: seq<Request<T>>) {
    && |w'.ops| == |w.ops| + 1 && OthersSame(w, w', |w.ops|) && |w'.chans| == |w.chans|
    && w'.ops[|w.ops|].cases == cases && w'.ops[|w.ops|].phase.Waiting? && w'.ops[|w.ops|].winner.None?
    && forall d :: 0 <= d < |w.chans| ==> Joined(w.chans[d], w'.chans[d], |w.ops|, cases, d)
  }

  /** Channel `c` has got the waiting cases of `o` that name it, at the ends of its queues. */
  ghost predicate Joined<T>(ch: Chan<T>, ch': Chan<T>, o: nat, cases: seq<Request<T>>, c: nat) {
    && ch'.capacity == ch.capacity && ch'.closed == ch.closed && ch'.buffer == ch.buffer
    && ch.senders <= ch'.senders && ch.receivers <= ch'.receivers
    && (forall e :: e in ch'.senders[|ch.senders|..] ==>
          e.who.Case? && e.who.op == o && e.who.index < |cases| && cases[e.who.index] == SendTo(c, e.value))
    && (forall r :: r in ch'.receivers[|ch.receivers|..] ==>
          r.Case? && r.op == o && r.index < |cases| && cases[r.index] == ReceiveFrom(c))
    && (forall i :: 0 <= i < |cases| && cases[i].SendTo? && cases[i].ch == c ==>
          Entry(Case(o, i), cases[i].value) in ch'.senders[|ch.senders|..])
    && (forall i :: 0 <= i < |cases| && cases[i] == ReceiveFrom(c) ==>
          Case(o, i) in ch'.receivers[|ch.receivers|..])
  }

  lemma {:induction false} EnlistJoins<T>(ch: Chan<T>, o: nat, cases: seq<Request<T>>, c: nat)
    ensures Joined(ch, Enlist(ch, o, cases, |cases|, c), o, cases, c)
  {
    var ch' := Enlist(ch, o, cases, |cases|, c);
    assert ch'.senders[|ch.senders|..] == OffersTo(o, cases, |cases|, c);
    assert ch'.receivers[|ch.receivers|..] == WantsFrom(o, cases, |cases|, c);
    forall i: nat | i < |cases| && !cases[i].Default?
      ensures cases[i].SendTo? ==> Entry(Case(o, i), cases[i].value) in OffersTo(o, cases, |cases|, cases[i].ch)
      ensures cases[i].ReceiveFrom? ==> Case(o, i) in WantsFrom(o, cases, |cases|, cases[i].ch)
    {
      NewListed(o, cases, |cases|, i);
    }
  }

  lemma {:induction false} ArmWaits<T>(w: World<T>, cases: seq<Request<T>>)
    ensures Waits(w, Arm(w, cases), cases)
  {
    var w' := Arm(w, cases);
    forall d: nat | d < |w.chans| ensures Joined(w.chans[d], w'.chans[d], |w.ops|, cases, d) {
      EnlistJoins(w.chans[d], |w.ops|, cases, d);
    }
  }

  /** The awaiter of operation `o` is gone, and it is in no queue; the queues of others keep their order. */
  ghost predicate Withdrawn<T>(w: World<T>, w': World<T>, o: nat) {
    && o < |w.ops| == |w'.ops| && OthersSame(w, w', o) && BuffersSame(w, w', |w.chans|)
    && w'.ops[o].phase.Gone? && w'.ops[o].winner.None? && w'.ops[o].cases == w.ops[o].cases && !InQueues(w', o)
    && forall d :: 0 <= d < |w.chans| ==>
      && w'.chans[d].senders == Rest(w.chans[d].senders, o) && w'.chans[d].receivers == RestW(w.chans[d].receivers, o)
  }

  lemma {:induction false} DropWithdraws<T>(w: World<T>, o: nat)
    requires Good(w) && o < |w.ops| && w.ops[o].phase.Waiting?
    ensures Withdrawn(w, Drop(w, o), o)
  {
    assert OpOk(w.ops[o]);
    Evicted(w.chans, o, Drop(w, o));
  }

  // ---- Closing -----------------------------------------------------------------------------

  /** Operation `op` has been told by channel `c`, on which it waited, that the stream has ended. */
  ghost predicate ToldEnd<T>(op: Op<T>, op': Op<T>, c: nat) {
    op.phase.Waiting? && op'.phase.Scheduled? && op'.wakeups == op.wakeups + 1 && Ended(op', c) && op'.cases == op.cases
  }

  ghost predicate WaitsOn<T>(ch: Chan<T>, o: nat) { exists r :: r in ch.receivers && r.Case? && r.op == o }

  /** Exactly the operations that waited to receive from `c` are told, and nothing else happens. */
  ghost predicate AllTold<T>(w: World<T>, w': World<T>, c: nat) {
    && c < |w.chans| && |w'.ops| == |w.ops| && |w'.chans| == |w.chans|
    && (forall o :: 0 <= o < |w.ops| ==>
          if WaitsOn(w.chans[c], o) then ToldEnd(w.ops[o], w'.ops[o], c) else w'.ops[o] == w.ops[o])
    && (forall d :: 0 <= d < |w.chans| ==>
          w'.chans[d].buffer == w.chans[d].buffer && w'.chans[d].capacity == w.chans[d].capacity)
  }

  lemma {:induction false} EndAllTells<T>(w: World<T>, c: nat)
    requires Good(w) && InRange(w, c)
    requires forall r :: r in w.chans[c].receivers ==> r.Case? && r.op < |w.ops|
    ensures AllTold(w, EndAll(w, c), c) && EndAll(w, c).chans[c].receivers == []
    ensures forall d :: 0 <= d < |w.chans| ==> EndAll(w, c).chans[d].closed == w.chans[d].closed
    decreases |w.chans[c].receivers|
  {
    var q := w.chans[c].receivers;
    if q != [] {
      var r := q[0];
      assert ChanOk(w, c) && r in q && Queued(w.ops, r, ReceiveFrom(c)) && OpOk(w.ops[r.op]);
      EndGood(w, c, r);
      RestWShorter(q, r.op);
      var w1 := Win(w, r.op, r.index, None);
      EndAllTells(w1, c);
      hide Good, ChanOk, EndAll;
      WinWakes(w, r.op, r.index, None);
      TellsNext(w, w1, EndAll(w1, c), c, r);
    }
  }

  lemma {:induction false} TellsNext<T>(w: World<T>, w1: World<T>, w': World<T>, c: nat, r: Waiter)
    requires c < |w.chans| && r in w.chans[c].receivers && Queued(w.ops, r, ReceiveFrom(c))
    requires w1 == Win(w, r.op, r.index, None) && AllTold(w1, w', c)
    requires Woken(w, w1, r, Some(None))
    ensures AllTold(w, w', c)
  {
    forall o | 0 <= o < |w.ops|
      ensures if WaitsOn(w.chans[c], o) then ToldEnd(w.ops[o], w'.ops[o], c) else w'.ops[o] == w.ops[o]
    {
      if o == r.op {
        assert !WaitsOn(w1.chans[c], o) && WaitsOn(w.chans[c], o);
      } else {
        assert WaitsOn(w1.chans[c], o) <==> WaitsOn(w.chans[c], o);
      }
    }
  }

  /** Channel `c` is closed: it keeps its values, and all that wait to receive from it are told of the end. */
  ghost predicate Shutdown<T>(w: World<T>, w': World<T>, c: nat) {
    && AllTold(w, w', c) && w'.chans[c].receivers == []
    && forall d :: 0 <= d < |w.chans| ==> w'.chans[d].closed == (w.chans[d].closed || d == c)
  }

  lemma {:induction false} CloseShuts<T>(w: World<T>, c: nat)
    requires Good(w) && InRange(w, c) && w.chans[c].senders == [] && !w.chans[c].closed
    ensures forall r :: r in w.chans[c].receivers ==> r.Case? && r.op < |w.ops|
    ensures Shutdown(w, Close(w, c), c)
  {
    CloseGood(w, c);
    hide Good;
    EndAllTells(w, c);
  }

  // ---- Every event ---------------------------------------------------------------------------

  ghost predicate Same<T>(w: World<T>, w': World<T>) { w'.chans == w.chans && w'.ops == w.ops }

  /** What an event does, said outright. */
  ghost predicate Effects<T>(w: World<T>, e: Event<T>, w': World<T>) {
    match e
    case TrySend(c, v) =>
      && c < |w.chans| && |w'.ops| == |w.ops|
      && if w.chans[c].receivers != [] || |w.chans[c].buffer| < w.chans[c].capacity then Delivered(w, w', c, v)
         else Same(w, w')
    case TryReceive(c) =>
      && c < |w.chans| && |w'.ops| == |w.ops|
      && if CanTake(w.chans[c]) then Removed(w, w', c, Next(w.chans[c])) else Same(w, w')
    case Begin(cases, k) =>
      && ValidCases(w, cases)
      && if AnyReady(w, cases) then k < |cases| && Ready(w.chans, cases[k]) && Committed(w, w', cases, k)
         else if FirstDefault(cases, k) then Committed(w, w', cases, k)
         else Waits(w, w', cases)
    case CloseChannel(c) => Shutdown(w, w', c)
    case Destroy(o) => Withdrawn(w, w', o)
  }

  lemma {:induction false} StepEffects<T>(w: World<T>, e: Event<T>)
    requires Good(w) && Allowed(w, e)
    ensures Effects(w, e, Step(w, e))
  {
    hide Delivered, Removed, Committed, Waits, Shutdown, Withdrawn;
    match e
    case TrySend(c, v) =>
      if CanAccept(w.chans[c]) { AcceptDelivers(w, c, Direct, v); AcceptCount(w, c, Direct, v); }
    case TryReceive(c) =>
      if CanTake(w.chans[c]) { TakeRemoves(w, c, Direct); TakeCount(w, c, Direct); }
    case Begin(cases, k) =>
      if GoesAhead(w, cases, k) {
        ReadyCommits(w, cases, k);
        CommitCommits(w, cases, k);
      } else {
        ArmWaits(w, cases);
      }
    case CloseChannel(c) => CloseShuts(w, c);
    case Destroy(o) => DropWithdraws(w, o);
  }

  // ---- Every run -----------------------------------------------------------------------------

  ghost predicate Run<T>(w: World<T>, es: seq<Event<T>>)
    decreases |es|
  {
    es != [] ==> Good(w) && Allowed(w, es[0]) && Run(Step(w, es[0]), es[1..])
  }

  lemma {:induction false} ReachesRun<T>(w: World<T>, es: seq<Event<T>>, w': World<T>)
    requires Reaches(w, es, w')
    ensures Run(w, es)
    decreases |es|
  {
    if es != [] { ReachesRun(Step(w, es[0]), es[1..], w'); }
  }

  /** What a nonblocking send of `v` on a channel is answered. */
  predicate SendAnswer<T>(ch: Chan<T>) { ch.receivers != [] || |ch.buffer| < ch.capacity }

  /** What a nonblocking receive is answered. */
  function ReceiveAnswer<T>(ch: Chan<T>): Option<Option<T>> {
    if CanTake(ch) then Some(Some(Next(ch))) else if ch.closed then Some(None) else None
  }

  /** The values that nonblocking sends on channel `c` were told to have sent, in order. */
  ghost function SendsTold<T>(w: World<T>, es: seq<Event<T>>, c: nat): seq<T>
    requires Run(w, es)
    decreases |es|
  {
    if es == [] then []
    else
      var told := if es[0].TrySend? && es[0].ch == c && SendAnswer(w.chans[c]) then [es[0].value] else [];
      told + SendsTold(Step(w, es[0]), es[1..], c)
  }

  /** The values that nonblocking receives on channel `c` were given, in order. */
  ghost function ReceivesTold<T>(w: World<T>, es: seq<Event<T>>, c: nat): seq<T>
    requires Run(w, es)
    decreases |es|
  {
    if es == [] then []
    else Given(w, es[0], c) + ReceivesTold(Step(w, es[0]), es[1..], c)
  }

  ghost function Given<T>(w: World<T>, e: Event<T>, c: nat): seq<T>
    requires Good(w) && Allowed(w, e)
  {
    if e != TryReceive(c) then []
    else match ReceiveAnswer(w.chans[c])
      case Some(Some(v)) => [v]
      case Some(None) => []
      case None => []
  }

  /** The values that nonblocking calls put into, or got out of, a history. */
  ghost function Directs<T>(q: seq<Entry<T>>): seq<T> {
    if q == [] then [] else if q[0].who.Direct? then [q[0].value] + Directs(q[1..]) else Directs(q[1..])
  }

  lemma {:induction false} DirectsSplit<T>(a: seq<Entry<T>>, b: seq<Entry<T>>)
    ensures Directs(a + b) == Directs(a) + Directs(b)
  {
    if a == [] {
      assert a + b == b;
    } else {
      assert (a + b)[0] == a[0] && (a + b)[1..] == a[1..] + b;
      DirectsSplit(a[1..], b);
    }
  }

  lemma {:induction false} DirectsLosers<T>(q: seq<Entry<T>>, o: nat, keep: Option<nat>)
    ensures Directs(WithoutLosers(q, o, keep)) == Directs(q)
  {
    if q != [] { DirectsLosers(q[1..], o, keep); }
  }

  lemma {:induction false} NoDirects<T>(q: seq<Entry<T>>)
    requires forall e :: e in q ==> e.who.Case?
    ensures Directs(q) == []
  {
    if q != [] {
      assert q[0] in q;
      NoDirects(q[1..]);
    }
  }

  lemma {:induction false} DirectsAdd<T>(q: seq<Entry<T>>, e: Entry<T>)
    ensures Directs(q + [e]) == if e.who.Direct? then Directs(q) + [e.value] else Directs(q)
  {
    DirectsSplit(q, [e]);
    assert Directs([e]) == if e.who.Direct? then [e.value] else [];
  }

  /** The nonblocking part of history `b` is that of `a` with `sent` sent and `got` received since. */
  ghost predicate Grows<T>(a: Log<T>, b: Log<T>, sent: seq<T>, got: seq<T>) {
    Directs(b.accepted) == Directs(a.accepted) + sent && Directs(b.received) == Directs(a.received) + got
  }

  lemma {:induction false} WinGrows<T>(w: World<T>, o: nat, k: nat, out: Option<T>, d: nat)
    requires o < |w.ops| && d < |w.logs|
    ensures Grows(w.logs[d], Win(w, o, k, out).logs[d], [], [])
  {
    DirectsLosers(w.logs[d].accepted, o, Some(k));
  }

  lemma {:induction false} AcceptGrows<T>(w: World<T>, c: nat, who: Waiter, v: T, d: nat)
    requires Good(w) && InRange(w, c) && CanAccept(w.chans[c]) && d < |w.logs|
    ensures forall r :: r in w.chans[c].receivers ==> r.Case? && r.op < |w.ops|
    ensures Grows(w.logs[d], Accept(w, c, who, v).logs[d], if d == c && who.Direct? then [v] else [], [])
  {
    hide Good, OpOk, Win, Directs;
    FirstReceiver(w, c);
    var ch, log, e := w.chans[c], w.logs[c], Entry(who, v);
    DirectsAdd(log.accepted, e);
    if ch.receivers != [] {
      var r := ch.receivers[0];
      DirectsAdd(log.received, Entry(r, v));
      var w1 := w.(logs := w.logs[c := Log(log.accepted + [e], log.received + [Entry(r, v)])]);
      WinGrows(w1, r.op, r.index, Some(v), d);
    }
  }

  lemma {:induction false} TakeGrows<T>(w: World<T>, c: nat, getter: Waiter, d: nat)
    requires Good(w) && InRange(w, c) && CanTake(w.chans[c]) && d < |w.logs|
    ensures forall e :: e in w.chans[c].senders ==> e.who.Case? && e.who.op < |w.ops|
    ensures Grows(w.logs[d], Take(w, c, getter).logs[d], [],
      if d == c && getter.Direct? then [Next(w.chans[c])] else [])
  {
    hide Good, OpOk, Win, Directs;
    FirstSender(w, c);
    var ch, log, g := w.chans[c], w.logs[c], Entry(getter, Next(w.chans[c]));
    DirectsAdd(log.received, g);
    if ch.senders != [] {
      var e := ch.senders[0];
      var w1 := w.(logs := w.logs[c := log.(received := log.received + [g])],
                   chans := w.chans[c := ch.(buffer := (ch.buffer + [e.value])[1..])]);
      WinGrows(w1, e.who.op, e.who.index, None, d);
    }
  }

  lemma {:induction false} CommitGrows<T>(w: World<T>, cases: seq<Request<T>>, k: nat, d: nat)
    requires Good(w) && k < |cases| && CanCommit(w, cases[k]) && d < |w.logs|
    ensures |Commit(w, cases, k).logs| == |w.logs| && Grows(w.logs[d], Commit(w, cases, k).logs[d], [], [])
  {
    hide Accept, Take, Grows, Directs;
    var takes := cases[k].ReceiveFrom? && CanTake(w.chans[cases[k].ch]);
    var out := if takes then Some(Next(w.chans[cases[k].ch])) else None;
    var op := Immediate(cases, k, out);
    ImmediateOk(cases, k, out);
    NewOpGood(w, op);
    CommitGood(w, cases, k);
    CommitLogs(w, cases, k);
    var w1, o := w.(ops := w.ops + [op]), Case(|w.ops|, k);
    GrowsNot(w.logs[d]);
    match cases[k]
    case SendTo(c, v) => AcceptGrows(w1, c, o, v, d);
    case ReceiveFrom(c) => if takes { TakeGrows(w1, c, o, d); }
    case Default =>
  }

  lemma {:induction false} GrowsNot<T>(log: Log<T>)
    ensures Grows(log, log, [], [])
  {
  }

  lemma {:induction false} CommitLogs<T>(w: World<T>, cases: seq<Request<T>>, k: nat)
    requires Good(w) && k < |cases| && CanCommit(w, cases[k])
    ensures |Commit(w, cases, k).logs| == |w.logs|
  {
    CommitGood(w, cases, k);
    hide Good;
    CommitCommits(w, cases, k);
  }

  lemma {:induction false} EndAllGrows<T>(w: World<T>, c: nat, d: nat)
    requires Good(w) && InRange(w, c) && d < |w.logs|
    requires forall r :: r in w.chans[c].receivers ==> r.Case? && r.op < |w.ops|
    ensures |EndAll(w, c).logs| == |w.logs| && Grows(w.logs[d], EndAll(w, c).logs[d], [], [])
    decreases |w.chans[c].receivers|
  {
    var q := w.chans[c].receivers;
    if q != [] {
      EndGood(w, c, q[0]);
      RestWShorter(q, q[0].op);
      WinGrows(w, q[0].op, q[0].index, None, d);
      EndAllGrows(Win(w, q[0].op, q[0].index, None), c, d);
    }
  }

  lemma {:induction false} ArmGrows<T>(w: World<T>, cases: seq<Request<T>>, d: nat)
    requires d < |w.logs|
    ensures |Arm(w, cases).logs| == |w.logs| && Grows(w.logs[d], Arm(w, cases).logs[d], [], [])
  {
    var offers := OffersTo(|w.ops|, cases, |cases|, d);
    DirectsSplit(w.logs[d].accepted, offers);
    NoDirects(offers);
  }

  lemma {:induction false} DropGrows<T>(w: World<T>, o: nat, d: nat)
    requires o < |w.ops| && d < |w.logs|
    ensures |Drop(w, o).logs| == |w.logs| && Grows(w.logs[d], Drop(w, o).logs[d], [], [])
  {
    DirectsLosers(w.logs[d].accepted, o, None);
  }

  lemma {:induction false} StepGrows<T>(w: World<T>, e: Event<T>, d: nat)
    requires Good(w) && Allowed(w, e) && d < |w.logs|
    ensures |Step(w, e).logs| == |w.logs|
    ensures Grows(w.logs[d], Step(w, e).logs[d],
      if e.TrySend? && e.ch == d && SendAnswer(w.chans[d]) then [e.value] else [], Given(w, e, d))
  {
    hide Accept, Take, Commit, Arm, EndAll, Grows, Directs;
    GrowsNot(w.logs[d]);
    match e
    case TrySend(c, v) =>
      if CanAccept(w.chans[c]) { AcceptGrows(w, c, Direct, v, d); AcceptCount(w, c, Direct, v); }
    case TryReceive(c) =>
      if CanTake(w.chans[c]) { TakeGrows(w, c, Direct, d); TakeCount(w, c, Direct); }
    case Begin(cases, k) =>
      if GoesAhead(w, cases, k) {
        ReadyCommits(w, cases, k);
        CommitGrows(w, cases, k, d);
      } else {
        ArmGrows(w, cases, d);
      }
    case CloseChannel(c) => CloseGood(w, c); EndAllGrows(w, c, d);
    case Destroy(o) => DropGrows(w, o, d);
  }

  lemma {:induction false} RunGrows<T>(w: World<T>, es: seq<Event<T>>, w': World<T>, c: nat)
    requires Reaches(w, es, w') && c < |w.logs|
    ensures Run(w, es) && c < |w'.logs| && Grows(w.logs[c], w'.logs[c], SendsTold(w, es, c), ReceivesTold(w, es, c))
    decreases |es|
  {
    hide Step, Good, Allowed, Given, Directs;
    ReachesRun(w, es, w');
    if es != [] {
      StepGrows(w, es[0], c);
      RunGrows(Step(w, es[0]), es[1..], w', c);
    }
  }

  /**
   * Every run: what nonblocking sends put into a channel are, in order, the values of those that were answered true,
   * and what nonblocking receives took out of it are, in order, the values they were given.
   */
  lemma {:induction false} NonblockingExact<T>(capacities: seq<nat>, es: seq<Event<T>>, w: World<T>, c: nat)
    requires Reaches(Initial(capacities), es, w) && c < |capacities|
    ensures var w0 := Initial<T>(capacities);
      && Run(w0, es) && c < |w.logs|
      && Directs(w.logs[c].accepted) == SendsTold(w0, es, c) && Directs(w.logs[c].received) == ReceivesTold(w0, es, c)
  {
    RunGrows(Initial(capacities), es, w, c);
  }

  /** The operations that were begun, in order. */
  function Begun<T>(es: seq<Event<T>>): seq<seq<Request<T>>> {
    if es == [] then [] else (if es[0].Begin? then [es[0].cases] else []) + Begun(es[1..])
  }

  /** What is known of a state `w'` that events `es` have led to from `w`. */
  ghost predicate Follows<T>(w: World<T>, es: seq<Event<T>>, w': World<T>) {
    && |w'.chans| == |w.chans| && |w'.ops| == |w.ops| + |Begun(es)|
    && (forall c :: 0 <= c < |w.chans| ==>
          && w'.chans[c].capacity == w.chans[c].capacity
          && (w'.chans[c].closed <==> w.chans[c].closed || CloseChannel(c) in es))
    && (forall o :: 0 <= o < |w.ops| ==> w'.ops[o].cases == w.ops[o].cases)
    && (forall o :: |w.ops| <= o < |w'.ops| ==> w'.ops[o].cases == Begun(es)[o - |w.ops|])
    && (forall o :: 0 <= o < |w'.ops| ==>
          (w'.ops[o].phase.Gone? <==> (o < |w.ops| && w.ops[o].phase.Gone?) || Event.Destroy(o) in es))
  }

  /** One event and its effect on what there is. */
  lemma {:induction false} EffectFollows<T>(w: World<T>, e: Event<T>, w': World<T>)
    requires Good(w) && Allowed(w, e) && Effects(w, e, w')
    ensures Follows(w, [e], w') && (e.Destroy? ==> e.op < |w'.ops|)
  {
    assert [e][1..] == [];
    match e
    case TrySend(c, v) =>
    case TryReceive(c) =>
    case Begin(cases, k) =>
    case CloseChannel(c) =>
    case Destroy(o) =>
  }

  lemma {:induction false} FollowsOn<T>(w: World<T>, e: Event<T>, w1: World<T>, es: seq<Event<T>>, w': World<T>)
    requires Follows(w, [e], w1) && Follows(w1, es, w') && (e.Destroy? ==> e.op < |w1.ops|)
    ensures Follows(w, [e] + es, w')
  {
    assert ([e] + es)[1..] == es && [e][1..] == [];
    assert Begun([e]) == if e.Begin? then [e.cases] else [];
    assert Begun([e] + es) == Begun([e]) + Begun(es);
  }

  lemma {:induction false} RunFollows<T>(w: World<T>, es: seq<Event<T>>, w': World<T>)
    requires Reaches(w, es, w')
    ensures Follows(w, es, w')
    decreases |es|
  {
    hide Step, Good, Allowed, Effects, Follows;
    if es == [] {
      NothingFollows(w);
    } else {
      StepEffects(w, es[0]);
      EffectFollows(w, es[0], Step(w, es[0]));
      RunFollows(Step(w, es[0]), es[1..], w');
      FollowsOn(w, es[0], Step(w, es[0]), es[1..], w');
      assert [es[0]] + es[1..] == es;
    }
  }

  lemma {:induction false} NothingFollows<T>(w: World<T>)
    ensures Follows(w, [], w)
  {
  }

  /**
   * Every run, from its events alone: the operations are those that were begun, with their cases; those destroyed, and
   * no others, are gone; the channels closed, and no others, are closed; and capacities never change.
   */
  lemma {:induction false} EventsTell<T>(capacities: seq<nat>, es: seq<Event<T>>, w: World<T>)
    requires Reaches(Initial(capacities), es, w)
    ensures |w.chans| == |capacities| && |w.ops| == |Begun(es)|
    ensures forall o :: 0 <= o < |w.ops| ==> w.ops[o].cases == Begun(es)[o]
    ensures forall o :: 0 <= o < |w.ops| ==> (w.ops[o].phase.Gone? <==> Event.Destroy(o) in es)
    ensures forall c :: 0 <= c < |w.chans| ==> w.chans[c].capacity == capacities[c]
    ensures forall c :: 0 <= c < |w.chans| ==> (w.chans[c].closed <==> CloseChannel(c) in es)
  {
    RunFollows(Initial(capacities), es, w);
  }
}
