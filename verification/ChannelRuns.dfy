/** Runs of the channel machine: what holds in every state that any sequence of operations reaches. */
module ChannelRuns {
  import opened Options
  import opened ChannelModel
  import opened ChannelHistory

  datatype Event<T> =
    | TrySend(ch: nat, value: T)
    | TryReceive(ch: nat)
    | Begin(cases: seq<Request<T>>, pick: nat)
    | CloseChannel(ch: nat)
    | Destroy(op: nat)

  ghost predicate AnyReady<T>(w: World<T>, cases: seq<Request<T>>)
    requires ValidCases(w, cases)
  {
    exists i :: 0 <= i < |cases| && Ready(w.chans, cases[i])
  }

  /** `k` is the first default case. */
  predicate FirstDefault<T>(cases: seq<Request<T>>, k: nat) {
    k < |cases| && cases[k].Default? && forall i :: 0 <= i < k ==> !cases[i].Default?
  }

  /**
   * What callers promise (no send on a closed channel, no close with waiting senders, one close) and what an
   * operation may pick: any ready case, else the first default case, else nothing.
   */
  ghost predicate Allowed<T>(w: World<T>, e: Event<T>) {
    match e
    case TrySend(c, _) => InRange(w, c) && !w.chans[c].closed
    case TryReceive(c) => InRange(w, c)
    case Begin(cases, k) =>
      && ValidCases(w, cases)
      && (if AnyReady(w, cases)
          then k < |cases| && Ready(w.chans, cases[k]) && !(cases[k].SendTo? && w.chans[cases[k].ch].closed)
          else FirstDefault(cases, k) || forall i :: 0 <= i < |cases| ==> !cases[i].Default?)
    case CloseChannel(c) => InRange(w, c) && !w.chans[c].closed && w.chans[c].senders == []
    case Destroy(o) => o < |w.ops| && w.ops[o].phase.Waiting?
  }

  /** An operation goes ahead with case `k`. */
  ghost predicate GoesAhead<T>(w: World<T>, cases: seq<Request<T>>, k: nat)
    requires ValidCases(w, cases)
  {
    AnyReady(w, cases) || FirstDefault(cases, k)
  }

  lemma {:induction false} ReadyCommits<T>(w: World<T>, cases: seq<Request<T>>, k: nat)
    requires Good(w) && Allowed(w, Begin(cases, k)) && GoesAhead(w, cases, k)
    ensures k < |cases| && CanCommit(w, cases[k])
  {
    if !cases[k].Default? { assert ChanOk(w, cases[k].ch); }
  }

  ghost function Step<T>(w: World<T>, e: Event<T>): World<T>
    requires Good(w) && Allowed(w, e)
  {
    match e
    case TrySend(c, v) => if CanAccept(w.chans[c]) then AcceptGood(w, c, Direct, v); Accept(w, c, Direct, v) else w
    case TryReceive(c) => if CanTake(w.chans[c]) then TakeGood(w, c, Direct); Take(w, c, Direct) else w
    case Begin(cases, k) =>
      if GoesAhead(w, cases, k) then ReadyCommits(w, cases, k); Commit(w, cases, k) else Arm(w, cases)
    case CloseChannel(c) => CloseGood(w, c); Close(w, c)
    case Destroy(o) => Drop(w, o)
  }

  lemma {:induction false} StepGood<T>(w: World<T>, e: Event<T>)
    requires Good(w) && Allowed(w, e)
    ensures Good(Step(w, e))
  {
    match e
    case TrySend(c, v) => if CanAccept(w.chans[c]) { AcceptGood(w, c, Direct, v); }
    case TryReceive(c) => if CanTake(w.chans[c]) { TakeGood(w, c, Direct); }
    case Begin(cases, k) =>
      if GoesAhead(w, cases, k) {
        ReadyCommits(w, cases, k);
        CommitGood(w, cases, k);
      } else {
        ArmGood(w, cases);
      }
    case CloseChannel(c) => CloseGood(w, c);
    case Destroy(o) => DropGood(w, o);
  }

  lemma {:induction false} StepRecorded<T>(w: World<T>, e: Event<T>)
    requires Good(w) && Recorded(w) && Allowed(w, e)
    ensures Recorded(Step(w, e))
  {
    match e
    case TrySend(c, v) => if CanAccept(w.chans[c]) { AcceptRecorded(w, c, Direct, v); }
    case TryReceive(c) => if CanTake(w.chans[c]) { TakeRecorded(w, c, Direct); }
    case Begin(cases, k) =>
      if GoesAhead(w, cases, k) {
        ReadyCommits(w, cases, k);
        CommitRecorded(w, cases, k);
      } else {
        ArmRecorded(w, cases);
      }
    case CloseChannel(c) => CloseGood(w, c); CloseRecorded(w, c);
    case Destroy(o) => DropRecorded(w, o);
  }

  /** Open, empty channels of the given capacities and no operation. */
  ghost function Initial<T>(capacities: seq<nat>): World<T> {
    World(seq(|capacities|, c requires 0 <= c < |capacities| => Chan(capacities[c], [], false, [], [])), [],
          seq(|capacities|, _ => Log([], [])))
  }

  ghost predicate Reaches<T>(w: World<T>, es: seq<Event<T>>, w': World<T>)
    decreases |es|
  {
    if es == [] then w' == w else Good(w) && Allowed(w, es[0]) && Reaches(Step(w, es[0]), es[1..], w')
  }

  lemma {:induction false} ReachedGood<T>(w: World<T>, es: seq<Event<T>>, w': World<T>)
    requires Good(w) && Recorded(w) && Reaches(w, es, w')
    ensures Good(w') && Recorded(w')
    decreases |es|
  {
    if es != [] {
      StepGood(w, es[0]);
      StepRecorded(w, es[0]);
      ReachedGood(Step(w, es[0]), es[1..], w');
    }
  }

  /** Every run: the invariant and the accounts hold. */
  lemma {:induction false} EveryRun<T>(capacities: seq<nat>, es: seq<Event<T>>, w: World<T>)
    requires Reaches(Initial(capacities), es, w)
    ensures Good(w) && Recorded(w)
  {
    ReachedGood(Initial(capacities), es, w);
  }

  /** Every run: values received, then buffered, then waiting, are the values sent in order less those withdrawn. */
  lemma {:induction false} FirstInFirstOut<T>(capacities: seq<nat>, es: seq<Event<T>>, w: World<T>, c: nat)
    requires Reaches(Initial(capacities), es, w) && c < |w.chans|
    ensures c < |w.logs|
      && Values(w.logs[c].accepted) == Values(w.logs[c].received) + w.chans[c].buffer + Values(w.chans[c].senders)
  {
    EveryRun(capacities, es, w);
    assert ChanOk(w, c);
    var past := OrderedSplit(w.chans[c], w.logs[c], w.ops);
    ValuesSplit(past, w.chans[c].senders);
  }

  /** A case took effect: its value was taken, its output was set, or it is the default case that was picked. */
  ghost predicate TookEffect<T>(op: Op<T>, i: nat)
    requires i < |op.cases| == |op.regs|
  {
    match op.cases[i]
    case SendTo(_, _) => op.regs[i].taken
    case ReceiveFrom(_) => op.regs[i].output.Some?
    case Default => op.winner == Some(i)
  }

  ghost predicate InQueues<T>(w: World<T>, o: nat) {
    exists c :: 0 <= c < |w.chans| && InQueue(w.chans[c], o)
  }

  ghost predicate InQueue<T>(ch: Chan<T>, o: nat) {
    (exists e :: e in ch.senders && e.who.Case? && e.who.op == o)
      || (exists r :: r in ch.receivers && r.Case? && r.op == o)
  }

  /**
   * Every run, every operation: exactly the winner takes effect; the continuation is scheduled once if the
   * operation had to wait and never otherwise; and an operation with a winner is in no queue.
   */
  lemma {:induction false} ExactlyOneCase<T>(capacities: seq<nat>, es: seq<Event<T>>, w: World<T>, o: nat)
    requires Reaches(Initial(capacities), es, w) && o < |w.ops|
    ensures var op := w.ops[o];
      && |op.regs| == |op.cases|
      && (forall i :: 0 <= i < |op.cases| ==> (TookEffect(op, i) <==> op.winner == Some(i)))
      && (op.winner.Some? ==> op.winner.value < |op.cases|)
      && op.wakeups == (if op.phase.Scheduled? then 1 else 0) && (op.phase.Scheduled? ==> op.winner.Some?)
      && (op.winner.Some? ==> !InQueues(w, o))
      && (InQueues(w, o) ==> op.phase.Waiting?)
  {
    EveryRun(capacities, es, w);
    assert OpOk(w.ops[o]);
    if InQueues(w, o) {
      var c :| 0 <= c < |w.chans| && InQueue(w.chans[c], o);
      assert ChanOk(w, c);
    }
  }

  ghost predicate OnlyOf<T>(ch: Chan<T>, o: nat) {
    (forall e :: e in ch.senders ==> e.who.Case? && e.who.op == o)
      && (forall r :: r in ch.receivers ==> r.Case? && r.op == o)
  }

  /** Every run: the exclusion rules of a channel, and who may wait on both of its sides. */
  lemma {:induction false} Exclusion<T>(capacities: seq<nat>, es: seq<Event<T>>, w: World<T>, c: nat)
    requires Reaches(Initial(capacities), es, w) && c < |w.chans|
    ensures var ch := w.chans[c];
      && |ch.buffer| <= ch.capacity
      && (ch.senders != [] ==> |ch.buffer| == ch.capacity && !ch.closed)
      && (ch.receivers != [] ==> ch.buffer == [])
      && (ch.closed ==> ch.senders == [] && ch.receivers == [])
      && (ch.senders != [] && ch.receivers != [] ==> ch.capacity == 0 && exists o :: OnlyOf(ch, o))
  {
    EveryRun(capacities, es, w);
    assert ChanOk(w, c);
    var ch := w.chans[c];
    if ch.senders != [] && ch.receivers != [] {
      assert ch.senders[0] in ch.senders && ch.receivers[0] in ch.receivers;
      assert OnlyOf(ch, ch.receivers[0].op);
    }
  }

  // ---- End of stream -------------------------------------------------------

  ghost predicate Drained<T>(w: World<T>, c: nat) {
    c < |w.chans| && w.chans[c].closed && w.chans[c].buffer == []
  }

  /** Channel `c` has told operation `op` that the stream has ended. */
  ghost predicate Ended<T>(op: Op<T>, c: nat) {
    op.winner.Some? && op.winner.value < |op.cases| == |op.regs|
    && op.cases[op.winner.value] == ReceiveFrom(c) && op.regs[op.winner.value].output == Some(None)
  }

  /** Only a closed and drained channel ends a stream; `x` is exempt. */
  ghost predicate EndsBut<T>(w: World<T>, x: Option<nat>) {
    forall o: nat, c: nat :: o < |w.ops| && Ended(w.ops[o], c) && x != Some(c) ==> Drained(w, c)
  }

  lemma {:induction false} WinEnds<T>(w: World<T>, o: nat, k: nat, out: Option<T>, x: Option<nat>)
    requires EndsBut(w, x) && o < |w.ops| && k < |w.ops[o].cases|
    requires out.Some? || w.ops[o].cases[k].SendTo?
      || (w.ops[o].cases[k].ReceiveFrom? && x == Some(w.ops[o].cases[k].ch))
    ensures EndsBut(Win(w, o, k, out), x)
  {
    var w' := Win(w, o, k, out);
    forall p: nat, c: nat | p < |w'.ops| && Ended(w'.ops[p], c) && x != Some(c) ensures Drained(w', c) {
      if p != o { assert Ended(w.ops[p], c) && Drained(w, c); }
    }
  }

  /** A channel that is not drained changes its buffer. */
  lemma {:induction false} BufferEnds<T>(w: World<T>, w': World<T>, c: nat)
    requires EndsBut(w, None) && c < |w.chans| == |w'.chans| && w'.ops == w.ops && !Drained(w, c)
    requires forall d :: 0 <= d < |w.chans| && d != c ==> w'.chans[d] == w.chans[d]
    ensures EndsBut(w', None)
  {
    forall o: nat, d: nat | o < |w'.ops| && Ended(w'.ops[o], d) ensures Drained(w', d) {
      assert Ended(w.ops[o], d) && Drained(w, d);
    }
  }

  lemma {:induction false} AcceptEnds<T>(w: World<T>, c: nat, who: Waiter, v: T)
    requires Good(w) && EndsBut(w, None) && InRange(w, c) && CanAccept(w.chans[c])
    requires forall r :: r in w.chans[c].receivers ==> r.Case? && r.op < |w.ops|
    ensures EndsBut(Accept(w, c, who, v), None)
  {
    assert ChanOk(w, c);
    var q := w.chans[c].receivers;
    if q == [] {
      BufferEnds(w, Accept(w, c, who, v), c);
    } else {
      HandOffEnds(w, c, who, v, q[0]);
    }
  }

  lemma {:induction false} HandOffEnds<T>(w: World<T>, c: nat, who: Waiter, v: T, r: Waiter)
    requires EndsBut(w, None) && InRange(w, c) && CanAccept(w.chans[c])
    requires w.chans[c].receivers != [] && r == w.chans[c].receivers[0] && Queued(w.ops, r, ReceiveFrom(c))
    requires forall r :: r in w.chans[c].receivers ==> r.Case? && r.op < |w.ops|
    ensures EndsBut(Accept(w, c, who, v), None)
  {
    var log := w.logs[c];
    var w1 := w.(logs := w.logs[c := Log(log.accepted + [Entry(who, v)], log.received + [Entry(r, v)])]);
    BufferEnds(w, w1, c);
    WinEnds(w1, r.op, r.index, Some(v), None);
  }

  lemma {:induction false} TakeEnds<T>(w: World<T>, c: nat, getter: Waiter)
    requires Good(w) && EndsBut(w, None) && InRange(w, c) && CanTake(w.chans[c])
    requires forall e :: e in w.chans[c].senders ==> e.who.Case? && e.who.op < |w.ops|
    ensures EndsBut(Take(w, c, getter), None)
  {
    assert ChanOk(w, c);
    var w', ch, log := Take(w, c, getter), w.chans[c], w.logs[c];
    var logs := w.logs[c := log.(received := log.received + [Entry(getter, Next(ch))])];
    if ch.senders == [] {
      BufferEnds(w, w', c);
    } else {
      var e := ch.senders[0];
      assert e in ch.senders && Queued(w.ops, e.who, SendTo(c, e.value));
      var w1 := w.(logs := logs, chans := w.chans[c := ch.(buffer := (ch.buffer + [e.value])[1..])]);
      BufferEnds(w, w1, c);
      WinEnds(w1, e.who.op, e.who.index, None, None);
    }
  }

  lemma {:induction false} NewOpEnds<T>(w: World<T>, op: Op<T>)
    requires EndsBut(w, None) && forall c: nat :: Ended(op, c) ==> Drained(w, c)
    ensures EndsBut(w.(ops := w.ops + [op]), None)
  {
    var w' := w.(ops := w.ops + [op]);
    forall o: nat, c: nat | o < |w'.ops| && Ended(w'.ops[o], c) ensures Drained(w', c) {
      if o < |w.ops| { assert Ended(w.ops[o], c); }
      assert Drained(w, c);
    }
  }

  lemma {:induction false} CommitEnds<T>(w: World<T>, cases: seq<Request<T>>, k: nat)
    requires Good(w) && EndsBut(w, None) && k < |cases| && CanCommit(w, cases[k])
    ensures EndsBut(Commit(w, cases, k), None)
  {
    var takes := cases[k].ReceiveFrom? && CanTake(w.chans[cases[k].ch]);
    var out := if takes then Some(Next(w.chans[cases[k].ch])) else None;
    var op := Immediate(cases, k, out);
    ImmediateOk(cases, k, out);
    NewOpGood(w, op);
    NewOpEnds(w, op);
    var w1 := w.(ops := w.ops + [op]);
    if cases[k].SendTo? {
      AcceptGood(w1, cases[k].ch, Case(|w.ops|, k), cases[k].value);
      AcceptEnds(w1, cases[k].ch, Case(|w.ops|, k), cases[k].value);
    } else if out.Some? {
      TakeGood(w1, cases[k].ch, Case(|w.ops|, k));
      TakeEnds(w1, cases[k].ch, Case(|w.ops|, k));
    }
  }

  lemma {:induction false} EndAllEnds<T>(w: World<T>, c: nat)
    requires Good(w) && EndsBut(w, Some(c)) && InRange(w, c)
    requires forall r :: r in w.chans[c].receivers ==> r.Case? && r.op < |w.ops|
    ensures EndsBut(EndAll(w, c), Some(c)) && EndAll(w, c).chans[c].buffer == w.chans[c].buffer
    ensures w.chans[c].receivers == [] ==> EndAll(w, c) == w
    decreases |w.chans[c].receivers|
  {
    var q := w.chans[c].receivers;
    if q != [] {
      assert ChanOk(w, c) && q[0] in q && Queued(w.ops, q[0], ReceiveFrom(c));
      EndGood(w, c, q[0]);
      RestWShorter(q, q[0].op);
      WinEnds(w, q[0].op, q[0].index, None, Some(c));
      EndAllEnds(Win(w, q[0].op, q[0].index, None), c);
    }
  }

  lemma {:induction false} CloseEnds<T>(w: World<T>, c: nat)
    requires Good(w) && EndsBut(w, None) && InRange(w, c) && !w.chans[c].closed
    requires forall r :: r in w.chans[c].receivers ==> r.Case? && r.op < |w.ops|
    ensures EndsBut(Close(w, c), None)
  {
    assert ChanOk(w, c);
    EndAllEnds(w, c);
    var w1, w' := EndAll(w, c), Close(w, c);
    forall o: nat, d: nat | o < |w'.ops| && Ended(w'.ops[o], d) ensures Drained(w', d) {
      assert Ended(w1.ops[o], d);
      if d != c { assert Drained(w1, d); }
    }
  }

  lemma {:induction false} StepEnds<T>(w: World<T>, e: Event<T>)
    requires Good(w) && EndsBut(w, None) && Allowed(w, e)
    ensures EndsBut(Step(w, e), None)
  {
    match e
    case TrySend(c, v) => if CanAccept(w.chans[c]) { AcceptGood(w, c, Direct, v); AcceptEnds(w, c, Direct, v); }
    case TryReceive(c) => if CanTake(w.chans[c]) { TakeGood(w, c, Direct); TakeEnds(w, c, Direct); }
    case Begin(cases, k) =>
      if GoesAhead(w, cases, k) {
        ReadyCommits(w, cases, k);
        CommitEnds(w, cases, k);
      } else {
        OtherEnds(w, Arm(w, cases));
      }
    case CloseChannel(c) => CloseGood(w, c); CloseEnds(w, c);
    case Destroy(o) => OtherEnds(w, Drop(w, o));
  }

  /** No operation is told anything. */
  lemma {:induction false} OtherEnds<T>(w: World<T>, w': World<T>)
    requires EndsBut(w, None) && |w'.chans| == |w.chans| && |w.ops| <= |w'.ops|
    requires forall c :: 0 <= c < |w.chans| ==>
      w'.chans[c].closed == w.chans[c].closed
      && w'.chans[c].buffer == w.chans[c].buffer
    requires forall o :: 0 <= o < |w'.ops| ==> (o < |w.ops| && w'.ops[o] == w.ops[o]) || w'.ops[o].winner.None?
    ensures EndsBut(w', None)
  {
    forall o: nat, c: nat | o < |w'.ops| && Ended(w'.ops[o], c) ensures Drained(w', c) {
      assert Ended(w.ops[o], c) && Drained(w, c);
    }
  }

  lemma {:induction false} ReachedEnds<T>(w: World<T>, es: seq<Event<T>>, w': World<T>)
    requires Good(w) && EndsBut(w, None) && Reaches(w, es, w')
    ensures EndsBut(w', None)
    decreases |es|
  {
    if es != [] {
      StepGood(w, es[0]);
      StepEnds(w, es[0]);
      ReachedEnds(Step(w, es[0]), es[1..], w');
    }
  }

  /** Every run: a receive is told the stream has ended only by a channel that is closed and empty, and stays so. */
  lemma {:induction false} EndOfStream<T>(capacities: seq<nat>, es: seq<Event<T>>, w: World<T>, o: nat, c: nat)
    requires Reaches(Initial(capacities), es, w) && o < |w.ops| && Ended(w.ops[o], c)
    ensures c < |w.chans| && w.chans[c].closed && w.chans[c].buffer == [] && w.chans[c].senders == []
  {
    EveryRun(capacities, [], Initial<T>(capacities));
    ReachedEnds(Initial(capacities), es, w);
    EveryRun(capacities, es, w);
    assert Drained(w, c) && ChanOk(w, c);
  }
}
