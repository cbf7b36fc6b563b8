/**
  The channels and selects of one scheduler as they are programmed: queues are
  searched, registrations are cancelled one at a time, a select scans its cases.
  Every operation is proved to be one step of the channel machine.
 */
module ChannelExchange {
  import opened Options
  import opened ChannelModel
  import opened ChannelRuns
  import opened ChannelAnswers
  import Buffers = Ring

  // ---- Queues, one waiter at a time ----------------------------------------

  /** A queue without the waiter `x`. */
  function Less<T>(q: seq<Entry<T>>, x: Waiter): seq<Entry<T>> {
    if q == [] then [] else if q[0].who == x then Less(q[1..], x) else [q[0]] + Less(q[1..], x)
  }

  function LessW(q: seq<Waiter>, x: Waiter): seq<Waiter> {
    if q == [] then [] else if q[0] == x then LessW(q[1..], x) else [q[0]] + LessW(q[1..], x)
  }

  /** A queue without the first `n` cases of operation `o`. */
  function Below<T>(q: seq<Entry<T>>, o: nat, n: nat): (r: seq<Entry<T>>)
    ensures forall e :: e in r ==> e in q
    ensures forall e :: e in q && e.who.Case? && e.who.op == o && e.who.index >= n ==> e in r
  {
    if q == [] then []
    else if q[0].who.Case? && q[0].who.op == o && q[0].who.index < n then Below(q[1..], o, n)
    else [q[0]] + Below(q[1..], o, n)
  }

  function BelowW(q: seq<Waiter>, o: nat, n: nat): (r: seq<Waiter>)
    ensures forall e :: e in r ==> e in q
    ensures forall e :: e in q && e.Case? && e.op == o && e.index >= n ==> e in r
  {
    if q == [] then []
    else if q[0].Case? && q[0].op == o && q[0].index < n then BelowW(q[1..], o, n)
    else [q[0]] + BelowW(q[1..], o, n)
  }

  lemma {:induction false} LessSplit<T>(a: seq<Entry<T>>, b: seq<Entry<T>>, x: Waiter)
    ensures Less(a + b, x) == Less(a, x) + Less(b, x)
  {
    if a == [] {
      assert a + b == b;
    } else {
      assert (a + b)[0] == a[0] && (a + b)[1..] == a[1..] + b;
      LessSplit(a[1..], b, x);
    }
  }

  lemma {:induction false} LessWSplit(a: seq<Waiter>, b: seq<Waiter>, x: Waiter)
    ensures LessW(a + b, x) == LessW(a, x) + LessW(b, x)
  {
    if a == [] {
      assert a + b == b;
    } else {
      assert (a + b)[0] == a[0] && (a + b)[1..] == a[1..] + b;
      LessWSplit(a[1..], b, x);
    }
  }

  lemma {:induction false} BelowNext<T>(q: seq<Entry<T>>, o: nat, n: nat)
    ensures Below(q, o, n + 1) == Less(Below(q, o, n), Case(o, n))
  {
    if q != [] {
      BelowNext(q[1..], o, n);
      if !(q[0].who.Case? && q[0].who.op == o && q[0].who.index < n) {
        assert Below(q, o, n)[1..] == Below(q[1..], o, n);
      }
    }
  }

  lemma {:induction false} BelowWNext(q: seq<Waiter>, o: nat, n: nat)
    ensures BelowW(q, o, n + 1) == LessW(BelowW(q, o, n), Case(o, n))
  {
    if q != [] {
      BelowWNext(q[1..], o, n);
      if !(q[0].Case? && q[0].op == o && q[0].index < n) {
        assert BelowW(q, o, n)[1..] == BelowW(q[1..], o, n);
      }
    }
  }

  lemma {:induction false} BelowNone<T>(q: seq<Entry<T>>, o: nat)
    ensures Below(q, o, 0) == q
  {
    if q != [] { BelowNone(q[1..], o); assert q == [q[0]] + q[1..]; }
  }

  lemma {:induction false} BelowWNone(q: seq<Waiter>, o: nat)
    ensures BelowW(q, o, 0) == q
  {
    if q != [] { BelowWNone(q[1..], o); assert q == [q[0]] + q[1..]; }
  }

  lemma {:induction false} BelowAll<T>(q: seq<Entry<T>>, o: nat, n: nat)
    requires forall e :: e in q && e.who.Case? && e.who.op == o ==> e.who.index < n
    ensures Below(q, o, n) == Rest(q, o)
  {
    if q != [] {
      assert q[0] in q;
      BelowAll(q[1..], o, n);
    }
  }

  lemma {:induction false} BelowWAll(q: seq<Waiter>, o: nat, n: nat)
    requires forall e :: e in q && e.Case? && e.op == o ==> e.index < n
    ensures BelowW(q, o, n) == RestW(q, o)
  {
    if q != [] {
      assert q[0] in q;
      BelowWAll(q[1..], o, n);
    }
  }

  lemma {:induction false} LessNone<T>(q: seq<Entry<T>>, x: Waiter)
    requires forall e :: e in q ==> e.who != x
    ensures Less(q, x) == q
  {
    if q != [] { assert q[0] in q; LessNone(q[1..], x); assert q == [q[0]] + q[1..]; }
  }

  lemma {:induction false} LessWNone(q: seq<Waiter>, x: Waiter)
    requires x !in q
    ensures LessW(q, x) == q
  {
    if q != [] { LessWNone(q[1..], x); assert q == [q[0]] + q[1..]; }
  }

  /** Walks the queue and drops every node that is `x`. */
  method Unlink<T>(q: seq<Entry<T>>, x: Waiter) returns (r: seq<Entry<T>>, removed: bool)
    ensures r == Less(q, x) && (removed <==> exists e :: e in q && e.who == x)
  {
    r, removed := [], false;
    for i := 0 to |q|
      invariant r == Less(q[..i], x) && (removed <==> exists e :: e in q[..i] && e.who == x)
    {
      assert q[..i + 1] == q[..i] + [q[i]];
      LessSplit(q[..i], [q[i]], x);
      if q[i].who == x {
        assert q[i] in q[..i + 1];
        removed := true;
      } else {
        r := r + [q[i]];
      }
    }
    assert q[..|q|] == q;
  }

  method UnlinkW(q: seq<Waiter>, x: Waiter) returns (r: seq<Waiter>, removed: bool)
    ensures r == LessW(q, x) && (removed <==> x in q)
  {
    r, removed := [], false;
    for i := 0 to |q|
      invariant r == LessW(q[..i], x) && (removed <==> x in q[..i])
    {
      assert q[..i + 1] == q[..i] + [q[i]];
      LessWSplit(q[..i], [q[i]], x);
      if q[i] == x {
        removed := true;
      } else {
        r := r + [q[i]];
      }
    }
    assert q[..|q|] == q;
  }

  // ---- Cancelling the losers of an operation -------------------------------

  function Dead<T>(): Registration<T> { Registration(false, false, false, None) }

  function BelowChan<T>(ch: Chan<T>, o: nat, n: nat): Chan<T> {
    ch.(senders := Below(ch.senders, o, n), receivers := BelowW(ch.receivers, o, n))
  }

  function BelowAllChans<T>(chans: seq<Chan<T>>, o: nat, n: nat): seq<Chan<T>> {
    seq(|chans|, c requires 0 <= c < |chans| => BelowChan(chans[c], o, n))
  }

  /** The registrations once the losers among the first `n` cases are cancelled. */
  function Cancelled<T>(regs: seq<Registration<T>>, k: nat, n: nat): seq<Registration<T>> {
    seq(|regs|, i requires 0 <= i < |regs| => if i < n && i != k then Dead() else regs[i])
  }

  lemma {:induction false} CancelledNext<T>(regs: seq<Registration<T>>, k: nat, n: nat)
    requires n < |regs| && n != k
    ensures Cancelled(regs, k, n + 1) == Cancelled(regs, k, n)[n := Dead()]
    ensures regs[n] == Dead() ==> Cancelled(regs, k, n + 1) == Cancelled(regs, k, n)
  {
  }

  /** A case that has not won: if it is queued it is in its channel's queue. */
  ghost predicate Track<T>(chans: seq<Chan<T>>, op: Op<T>, o: nat, i: nat)
    requires i < |op.cases| == |op.regs|
  {
    var r := op.regs[i];
    && !r.taken && r.output.None? && (r.queued ==>
      r.active && !op.cases[i].Default?
      && Listed(chans, Case(o, i), op.cases[i]))
  }

  /** The waiters of `o` on channel `c` are its queued cases other than `k`. */
  ghost predicate OwnWaiters<T>(ch: Chan<T>, c: nat, op: Op<T>, o: nat, k: nat)
    requires |op.cases| == |op.regs|
  {
    && (forall e :: e in ch.senders && e.who.Case? && e.who.op == o ==>
          e.who.index < |op.cases| && e.who.index != k && op.cases[e.who.index] == SendTo(c, e.value)
            && op.regs[e.who.index].queued)
    && (forall r :: r in ch.receivers && r.Case? && r.op == o ==>
          r.index < |op.cases| && r.index != k && op.cases[r.index] == ReceiveFrom(c) && op.regs[r.index].queued)
  }

  /**
   * Case `k` of `o` is in no queue (it is about to win, or there is no such case); the other queued cases are in
   * theirs.
   */
  ghost predicate Tracked<T>(chans: seq<Chan<T>>, op: Op<T>, o: nat, k: nat) {
    && |op.cases| == |op.regs|
    && (forall i :: 0 <= i < |op.cases| && i != k ==> Track(chans, op, o, i))
    && (forall c :: 0 <= c < |chans| ==> OwnWaiters(chans[c], c, op, o, k))
  }

  lemma {:induction false} BelowStart<T>(chans: seq<Chan<T>>, o: nat)
    ensures BelowAllChans(chans, o, 0) == chans
  {
    forall c | 0 <= c < |chans| ensures BelowChan(chans[c], o, 0) == chans[c] {
      BelowNone(chans[c].senders, o);
      BelowWNone(chans[c].receivers, o);
    }
  }

  lemma {:induction false} BelowEnd<T>(chans: seq<Chan<T>>, op: Op<T>, o: nat, k: nat)
    requires Tracked(chans, op, o, k)
    ensures BelowAllChans(chans, o, |op.cases|) == EvictAll(chans, o)
  {
    forall c | 0 <= c < |chans| ensures BelowChan(chans[c], o, |op.cases|) == Evict(chans[c], o) {
      assert OwnWaiters(chans[c], c, op, o, k);
      BelowAll(chans[c].senders, o, |op.cases|);
      BelowWAll(chans[c].receivers, o, |op.cases|);
    }
  }

  /** A case that is not queued on channel `c` leaves it alone. */
  lemma {:induction false} BelowSkip<T>(chans: seq<Chan<T>>, op: Op<T>, o: nat, k: nat, n: nat, c: nat)
    requires Tracked(chans, op, o, k) && n < |op.cases| && c < |chans|
    requires n == k || !op.regs[n].queued || op.cases[n].Default? || op.cases[n].ch != c
    ensures BelowChan(chans[c], o, n + 1) == BelowChan(chans[c], o, n)
  {
    var ch := chans[c];
    assert OwnWaiters(ch, c, op, o, k);
    BelowNext(ch.senders, o, n);
    BelowWNext(ch.receivers, o, n);
    LessNone(Below(ch.senders, o, n), Case(o, n));
    LessWNone(BelowW(ch.receivers, o, n), Case(o, n));
  }

  lemma {:induction false} BelowSend<T>(chans: seq<Chan<T>>, op: Op<T>, o: nat, k: nat, n: nat)
    requires Tracked(chans, op, o, k) && n < |op.cases| && n != k && op.regs[n].queued && op.cases[n].SendTo?
      && op.cases[n].ch < |chans|
    ensures var ch := BelowChan(chans[op.cases[n].ch], o, n);
      && BelowChan(chans[op.cases[n].ch], o, n + 1) == ch.(senders := Less(ch.senders, Case(o, n)))
      && exists e :: e in ch.senders && e.who == Case(o, n)
  {
    var c := op.cases[n].ch;
    assert OwnWaiters(chans[c], c, op, o, k) && Track(chans, op, o, n);
    BelowNext(chans[c].senders, o, n);
    BelowWNext(chans[c].receivers, o, n);
    LessWNone(BelowW(chans[c].receivers, o, n), Case(o, n));
    assert Entry(Case(o, n), op.cases[n].value) in Below(chans[c].senders, o, n);
  }

  lemma {:induction false} BelowReceive<T>(chans: seq<Chan<T>>, op: Op<T>, o: nat, k: nat, n: nat)
    requires Tracked(chans, op, o, k) && n < |op.cases| && n != k && op.regs[n].queued && op.cases[n].ReceiveFrom?
      && op.cases[n].ch < |chans|
    ensures var ch := BelowChan(chans[op.cases[n].ch], o, n);
      && BelowChan(chans[op.cases[n].ch], o, n + 1) == ch.(receivers := LessW(ch.receivers, Case(o, n)))
      && Case(o, n) in ch.receivers
  {
    var c := op.cases[n].ch;
    assert OwnWaiters(chans[c], c, op, o, k) && Track(chans, op, o, n);
    BelowNext(chans[c].senders, o, n);
    BelowWNext(chans[c].receivers, o, n);
    LessNone(Below(chans[c].senders, o, n), Case(o, n));
  }

  /** One loser is cancelled. */
  lemma {:induction false} BelowStep<T>(chans: seq<Chan<T>>, chans': seq<Chan<T>>, op: Op<T>, o: nat, k: nat, n: nat)
    requires Tracked(chans, op, o, k) && n < |op.cases| && |chans'| == |chans|
    requires forall c ::
      0 <= c < |chans|
      && (n == k || !op.regs[n].queued || op.cases[n].Default? || op.cases[n].ch != c) ==>
               chans'[c] == BelowChan(chans[c], o, n)
    requires n != k && op.regs[n].queued && !op.cases[n].Default? && op.cases[n].ch < |chans| ==>
               chans'[op.cases[n].ch] == BelowChan(chans[op.cases[n].ch], o, n + 1)
    ensures chans' == BelowAllChans(chans, o, n + 1)
  {
    forall c | 0 <= c < |chans| ensures chans'[c] == BelowChan(chans[c], o, n + 1) {
      if n == k || !op.regs[n].queued || op.cases[n].Default? || op.cases[n].ch != c {
        BelowSkip(chans, op, o, k, n, c);
      }
    }
  }

  /** Being tracked does not depend on the winner's own registration. */
  lemma {:induction false} FinishTracked<T>(chans: seq<Chan<T>>, op: Op<T>, op': Op<T>, o: nat, k: nat)
    requires Tracked(chans, op, o, k) && op'.cases == op.cases && |op'.regs| == |op.regs|
    requires forall i :: 0 <= i < |op.regs| && i != k ==> op'.regs[i] == op.regs[i]
    ensures Tracked(chans, op', o, k)
  {
    forall i | 0 <= i < |op.cases| && i != k ensures Track(chans, op', o, i) { assert Track(chans, op, o, i); }
    forall c | 0 <= c < |chans| ensures OwnWaiters(chans[c], c, op', o, k) { assert OwnWaiters(chans[c], c, op, o, k); }
  }

  lemma {:induction false} FinishRegs<T>(op: Op<T>, k: nat, out: Option<T>)
    requires k < |op.cases| == |op.regs|
    ensures Cancelled(op.regs[k := Outcome(op.cases, k, out, k)], k, |op.cases|) == Outcomes(op.cases, k, out)
  {
    var regs := op.regs[k := Outcome(op.cases, k, out, k)];
    forall i: nat | i < |regs| ensures Cancelled(regs, k, |op.cases|)[i] == Outcomes(op.cases, k, out)[i] {
      assert i != k ==> Cancelled(regs, k, |op.cases|)[i] == Dead() == Outcome(op.cases, k, out, i);
    }
  }

  /** The waiters of `x`'s operation on channel `d` once `x` is out of its queue. */
  lemma {:induction false} OwnAfter<T>(w: World<T>, d: nat, x: Waiter, ch: Chan<T>)
    requires Good(w) && d < |w.chans| && x.Case? && x.op < |w.ops| && w.ops[x.op].phase.Waiting?
    requires forall e :: e in ch.senders ==> e in w.chans[d].senders && e.who != x
    requires forall r :: r in ch.receivers ==> r in w.chans[d].receivers && r != x
    ensures |w.ops[x.op].regs| == |w.ops[x.op].cases| && OwnWaiters(ch, d, w.ops[x.op], x.op, x.index)
  {
    assert ChanOk(w, d) && OpOk(w.ops[x.op]);
    var op := w.ops[x.op];
    forall e | e in ch.senders && e.who.Case? && e.who.op == x.op
      ensures e.who.index < |op.cases| && e.who.index != x.index && op.cases[e.who.index] == SendTo(d, e.value)
        && op.regs[e.who.index].queued
    {
      assert Queued(w.ops, e.who, SendTo(d, e.value));
    }
    forall r | r in ch.receivers && r.Case? && r.op == x.op
      ensures r.index < |op.cases| && r.index != x.index && op.cases[r.index] == ReceiveFrom(d)
        && op.regs[r.index].queued
    {
      assert Queued(w.ops, r, ReceiveFrom(d));
    }
  }

  /** The other cases of `x`'s operation are still in their queues. */
  lemma {:induction false} TrackAfter<T>(w: World<T>, x: Waiter, chans: seq<Chan<T>>, i: nat)
    requires Good(w) && x.Case? && x.op < |w.ops| && w.ops[x.op].phase.Waiting? && |chans| == |w.chans|
    requires i < |w.ops[x.op].cases| && i != x.index
    requires forall d, e :: 0 <= d < |w.chans| && e in w.chans[d].senders && e.who != x ==> e in chans[d].senders
    requires forall d, r :: 0 <= d < |w.chans| && r in w.chans[d].receivers && r != x ==> r in chans[d].receivers
    ensures |w.ops[x.op].regs| == |w.ops[x.op].cases| && Track(chans, w.ops[x.op], x.op, i)
  {
    assert OpOk(w.ops[x.op]) && Armed(w.chans, w.ops[x.op], x.op);
    assert Listed(w.chans, Case(x.op, i), w.ops[x.op].cases[i]);
  }

  lemma {:induction false} RestWHead(q: seq<Waiter>)
    requires q != [] && q[0].Case?
    ensures RestW(q[1..], q[0].op) == RestW(q, q[0].op)
  {
  }

  /** In a consistent state, the first waiter of a queue can be taken out and completed. */
  lemma {:induction false} PopReceiverTracked<T>(w: World<T>, c: nat)
    requires Good(w) && c < |w.chans| && w.chans[c].receivers != []
    ensures var r, ch := w.chans[c].receivers[0], w.chans[c];
      var chans := w.chans[c := ch.(receivers := ch.receivers[1..])];
      && r.Case? && r.op < |w.ops| && w.ops[r.op].winner.None? && r.index < |w.ops[r.op].cases|
        && Tracked(chans, w.ops[r.op], r.op, r.index)
      && EvictAll(chans, r.op) == EvictAll(w.chans, r.op)
  {
    assert ChanOk(w, c);
    var r, ch := w.chans[c].receivers[0], w.chans[c];
    assert r in ch.receivers && Queued(w.ops, r, ReceiveFrom(c)) && OpOk(w.ops[r.op]);
    var chans := w.chans[c := ch.(receivers := ch.receivers[1..])];
    forall i | 0 <= i < |w.ops[r.op].cases| && i != r.index ensures Track(chans, w.ops[r.op], r.op, i) {
      TrackAfter(w, r, chans, i);
    }
    forall d | 0 <= d < |chans| ensures OwnWaiters(chans[d], d, w.ops[r.op], r.op, r.index) {
      assert ChanOk(w, d);
      OwnAfter(w, d, r, chans[d]);
    }
    RestWHead(ch.receivers);
  }

  lemma {:induction false} PopSenderTracked<T>(w: World<T>, c: nat, buffer: seq<T>)
    requires Good(w) && c < |w.chans| && w.chans[c].senders != []
    ensures var e, ch := w.chans[c].senders[0], w.chans[c];
      var chans := w.chans[c := ch.(senders := ch.senders[1..], buffer := buffer)];
      && e.who.Case? && e.who.op < |w.ops| && w.ops[e.who.op].winner.None? && e.who.index < |w.ops[e.who.op].cases|
        && Tracked(chans, w.ops[e.who.op], e.who.op, e.who.index)
      && EvictAll(chans, e.who.op) == EvictAll(w.chans[c := ch.(buffer := buffer)], e.who.op)
  {
    assert ChanOk(w, c);
    var e, ch := w.chans[c].senders[0], w.chans[c];
    assert e in ch.senders && Queued(w.ops, e.who, SendTo(c, e.value)) && OpOk(w.ops[e.who.op]);
    var chans := w.chans[c := ch.(senders := ch.senders[1..], buffer := buffer)];
    forall i | 0 <= i < |w.ops[e.who.op].cases| && i != e.who.index ensures Track(chans, w.ops[e.who.op], e.who.op, i) {
      TrackAfter(w, e.who, chans, i);
    }
    forall d | 0 <= d < |chans| ensures OwnWaiters(chans[d], d, w.ops[e.who.op], e.who.op, e.who.index) {
      PopSenderOwn(w, c, buffer, e, d);
    }
    assert ch.senders == [e] + ch.senders[1..];
    RestHead(e, ch.senders[1..]);
  }

  lemma {:induction false} PopSenderOwn<T>(w: World<T>, c: nat, buffer: seq<T>, e: Entry<T>, d: nat)
    requires Good(w) && c < |w.chans| && w.chans[c].senders != [] && e == w.chans[c].senders[0] && d < |w.chans|
    requires Queued(w.ops, e.who, SendTo(c, e.value))
    ensures var ch := if d == c then w.chans[c].(senders := w.chans[c].senders[1..], buffer := buffer) else w.chans[d];
      |w.ops[e.who.op].regs| == |w.ops[e.who.op].cases| && OwnWaiters(ch, d, w.ops[e.who.op], e.who.op, e.who.index)
  {
    assert ChanOk(w, d);
    var ch := if d == c then w.chans[c].(senders := w.chans[c].senders[1..], buffer := buffer) else w.chans[d];
    forall x | x in ch.senders ensures x.who != e.who {
      assert Queued(w.ops, x.who, SendTo(d, x.value));
    }
    OwnAfter(w, d, e.who, ch);
  }

  // ---- A new operation -----------------------------------------------------

  function NewOp<T>(cases: seq<Request<T>>): Op<T> {
    Op(cases, seq(|cases|, i requires 0 <= i < |cases| => Registration(!cases[i].Default?, false, false, None)), None,
      Arming, 0)
  }

  /** No case of `o` is queued anywhere. */
  ghost predicate NoWaiter<T>(chans: seq<Chan<T>>, o: nat) {
    forall c :: 0 <= c < |chans| ==>
      && (forall e :: e in chans[c].senders ==> !(e.who.Case? && e.who.op == o))
      && (forall r :: r in chans[c].receivers ==> !(r.Case? && r.op == o))
  }

  lemma {:induction false} NotWaiting<T>(w: World<T>, o: nat)
    requires Good(w) && (o < |w.ops| ==> !w.ops[o].phase.Waiting?)
    ensures NoWaiter(w.chans, o)
  {
    forall c | 0 <= c < |w.chans|
      ensures (forall e :: e in w.chans[c].senders ==> !(e.who.Case? && e.who.op == o))
           && (forall r :: r in w.chans[c].receivers ==> !(r.Case? && r.op == o))
    {
      assert ChanOk(w, c);
    }
  }

  lemma {:induction false} NewTracked<T>(chans: seq<Chan<T>>, cases: seq<Request<T>>, o: nat, k: nat)
    requires NoWaiter(chans, o) && k < |cases|
    ensures Tracked(chans, NewOp(cases), o, k)
  {
  }

  lemma {:induction false} RestNothing<T>(q: seq<Entry<T>>, o: nat)
    requires forall e :: e in q ==> !(e.who.Case? && e.who.op == o)
    ensures Rest(q, o) == q
  {
    if q != [] { assert q[0] in q; RestNothing(q[1..], o); assert q == [q[0]] + q[1..]; }
  }

  lemma {:induction false} RestWNothing(q: seq<Waiter>, o: nat)
    requires forall e :: e in q ==> !(e.Case? && e.op == o)
    ensures RestW(q, o) == q
  {
    if q != [] { assert q[0] in q; RestWNothing(q[1..], o); assert q == [q[0]] + q[1..]; }
  }

  lemma {:induction false} EvictNothing<T>(chans: seq<Chan<T>>, o: nat)
    requires NoWaiter(chans, o)
    ensures EvictAll(chans, o) == chans
  {
    forall c | 0 <= c < |chans| ensures Evict(chans[c], o) == chans[c] {
      RestNothing(chans[c].senders, o);
      RestWNothing(chans[c].receivers, o);
    }
  }

  /** The operations after a commit: those of the channel's side, then the new one. */
  lemma {:induction false} CommitOps<T>(w: World<T>, cases: seq<Request<T>>, k: nat)
    requires Good(w) && k < |cases| && CanCommit(w, cases[k])
    ensures var q, w', x := cases[k], Commit(w, cases, k), Case(|w.ops|, k);
      && (q.SendTo? ==>
            && (forall r :: r in w.chans[q.ch].receivers ==> r.Case? && r.op < |w.ops|)
            && w'.chans == Accept(w, q.ch, x, q.value).chans
            && w'.ops == Accept(w, q.ch, x, q.value).ops + [Immediate(cases, k, None)])
      && (q.ReceiveFrom? && CanTake(w.chans[q.ch]) ==>
            && (forall e :: e in w.chans[q.ch].senders ==> e.who.Case? && e.who.op < |w.ops|)
            && w'.chans == Take(w, q.ch, x).chans
            && w'.ops == Take(w, q.ch, x).ops + [Immediate(cases, k, Some(Next(w.chans[q.ch])))])
  {
    if !cases[k].Default? { assert ChanOk(w, cases[k].ch); }
  }

  // ---- Arming ----------------------------------------------------------------

  function Enlisted<T>(chans: seq<Chan<T>>, o: nat, cases: seq<Request<T>>, n: nat): seq<Chan<T>>
    requires n <= |cases|
  {
    seq(|chans|, c requires 0 <= c < |chans| => Enlist(chans[c], o, cases, n, c))
  }

  function HalfArmed<T>(cases: seq<Request<T>>, n: nat): Op<T> {
    NewOp(cases).(regs := seq(|cases|, i requires 0 <= i < |cases| =>
      Registration(!cases[i].Default?, i < n, false, None)))
  }

  /** Channel `ch` with case `q` of `o` at the end of its queue. */
  function Enqueue<T>(ch: Chan<T>, who: Waiter, q: Request<T>): Chan<T> {
    match q
    case SendTo(_, v) => ch.(senders := ch.senders + [Entry(who, v)])
    case ReceiveFrom(_) => ch.(receivers := ch.receivers + [who])
    case Default => ch
  }

  lemma {:induction false} EnlistNext<T>(chans: seq<Chan<T>>, o: nat, cases: seq<Request<T>>, n: nat)
    requires n < |cases| && !cases[n].Default? && cases[n].ch < |chans|
    ensures var c, now := cases[n].ch, Enlisted(chans, o, cases, n);
      Enlisted(chans, o, cases, n + 1) == now[c := Enqueue(now[c], Case(o, n), cases[n])]
  {
    var c := cases[n].ch;
    forall d: nat | d < |chans|
      ensures Enlist(chans[d], o, cases, n + 1, d) ==
        if d == c then Enqueue(Enlist(chans[d], o, cases, n, d), Case(o, n), cases[n])
        else Enlist(chans[d], o, cases, n, d)
    {
      if cases[n].SendTo? && d == c {
        var e := Entry(Case(o, n), cases[n].value);
        assert chans[d].senders + (OffersTo(o, cases, n, d) + [e]) == chans[d].senders + OffersTo(o, cases, n, d) + [e];
      } else if d == c {
        assert chans[d].receivers + (WantsFrom(o, cases, n, d) + [Case(o, n)])
          == chans[d].receivers + WantsFrom(o, cases, n, d) + [Case(o, n)];
      }
    }
  }

  lemma {:induction false} ArmStart<T>(chans: seq<Chan<T>>, o: nat, cases: seq<Request<T>>)
    ensures Enlisted(chans, o, cases, 0) == chans && HalfArmed(cases, 0) == NewOp(cases)
  {
    forall d: nat | d < |chans| ensures Enlist(chans[d], o, cases, 0, d) == chans[d] {
      assert chans[d].senders + [] == chans[d].senders && chans[d].receivers + [] == chans[d].receivers;
    }
  }

  lemma {:induction false} HalfArmedNext<T>(cases: seq<Request<T>>, n: nat)
    requires n < |cases| && !cases[n].Default?
    ensures HalfArmed(cases, n + 1)
      == HalfArmed(cases, n).(regs := HalfArmed(cases, n).regs[n := Registration(true, true, false, None)])
  {
  }

  lemma {:induction false} AllArmed<T>(cases: seq<Request<T>>)
    requires forall i :: 0 <= i < |cases| ==> !cases[i].Default?
    ensures HalfArmed(cases, |cases|).(phase := Waiting) == WaitingOp(cases)
  {
  }

  // ---- Picking a case --------------------------------------------------------

  function CountTrue(s: seq<bool>): nat {
    if s == [] then 0 else CountTrue(s[..|s| - 1]) + if s[|s| - 1] then 1 else 0
  }

  /** `k` is the ready case that the draw falls on. */
  ghost predicate Chosen(ready: seq<bool>, draw: nat, k: nat) {
    k < |ready| && ready[k] && CountTrue(ready) > 0 && CountTrue(ready[..k]) == draw % CountTrue(ready)
  }

  lemma {:induction false} CountPrefix(s: seq<bool>, n: nat)
    requires n < |s|
    ensures CountTrue(s[..n + 1]) == CountTrue(s[..n]) + if s[n] then 1 else 0
  {
    assert s[..n + 1][..n] == s[..n];
  }

  lemma {:induction false} CountNone(s: seq<bool>)
    ensures CountTrue(s) == 0 <==> forall i :: 0 <= i < |s| ==> !s[i]
  {
    if s != [] {
      CountNone(s[..|s| - 1]);
      assert s == s[..|s| - 1] + [s[|s| - 1]];
    }
  }

  /** Counts the ready cases and picks one of them by the draw. */
  method Choose(ready: seq<bool>, draw: nat) returns (k: Option<nat>)
    ensures k.None? <==> forall i :: 0 <= i < |ready| ==> !ready[i]
    ensures k.Some? ==> Chosen(ready, draw, k.value)
  {
    var count := 0;
    for n := 0 to |ready|
      invariant count == CountTrue(ready[..n])
    {
      CountPrefix(ready, n);
      if ready[n] { count := count + 1; }
    }
    assert ready[..|ready|] == ready;
    CountNone(ready);
    if count == 0 {
      return None;
    }
    var choice := draw % count;
    for n := 0 to |ready|
      invariant 0 <= choice && choice + CountTrue(ready[..n]) == draw % count
    {
      CountPrefix(ready, n);
      if ready[n] {
        if choice == 0 {
          return Some(n);
        }
        choice := choice - 1;
      }
    }
    assert false;
  }

  /** What the scan of the cases found is what the machine allows. */
  /** Which cases can go ahead. */
  ghost predicate Readiness<T>(chans: seq<Chan<T>>, cases: seq<Request<T>>, ready: seq<bool>)
    requires forall i :: 0 <= i < |cases| ==> cases[i].Default? || cases[i].ch < |chans|
  {
    |ready| == |cases| && forall i :: 0 <= i < |cases| ==> ready[i] == Ready(chans, cases[i])
  }

  lemma {:induction false} BeginStep<T>(w: World<T>, cases: seq<Request<T>>, selected: Option<nat>, pick: nat,
      ready: seq<bool>)
    requires Good(w) && ValidCases(w, cases)
    requires |ready| == |cases| && forall i :: 0 <= i < |cases| ==> ready[i] == Ready(w.chans, cases[i])
    requires selected.Some? ==> pick == selected.value
    requires AnyReady(w, cases) ==>
      selected.Some? && pick < |cases| && ready[pick] && (cases[pick].SendTo? ==> !w.chans[cases[pick].ch].closed)
    requires !AnyReady(w, cases) ==>
      if selected.Some? then FirstDefault(cases, pick)
      else forall i :: 0 <= i < |cases| ==> !cases[i].Default?
    ensures Allowed(w, Event.Begin(cases, pick)) && (GoesAhead(w, cases, pick) <==> selected.Some?)
    ensures selected.Some? ==> pick < |cases| && CanCommit(w, cases[pick])
    ensures selected.None? ==> MustWait(w, cases)
  {
    if selected.Some? { ReadyCommits(w, cases, pick); }
  }

  lemma {:induction false} AwaitStep<T>(w: World<T>, q: Request<T>, suspended: bool)
    requires Good(w) && !q.Default? && InRange(w, q.ch) && (q.SendTo? ==> !w.chans[q.ch].closed)
    requires suspended <==> !Ready(w.chans, q)
    ensures Allowed(w, Event.Begin([q], 0)) && (GoesAhead(w, [q], 0) <==> !suspended)
    ensures if suspended then MustWait(w, [q]) else CanCommit(w, [q][0])
  {
    assert ValidCases(w, [q]) && [q][0] == q;
    BeginStep(w, [q], if suspended then None else Some(0), 0, [!suspended]);
  }

  lemma {:induction false} CommitPhase<T>(w: World<T>, cases: seq<Request<T>>, k: nat)
    requires Good(w) && k < |cases| && CanCommit(w, cases[k])
    ensures var w' := Commit(w, cases, k); |w'.ops| == |w.ops| + 1 && w'.ops[|w.ops|].phase.Arming?
  {
    CommitOps(w, cases, k);
  }

  lemma {:induction false} AllCancelled<T>(op: Op<T>)
    requires |op.cases| == |op.regs|
    ensures Cancelled(op.regs, |op.cases|, |op.cases|) == seq(|op.cases|, _ => Registration(false, false, false, None))
  {
    var n := |op.cases|;
    forall i: nat | i < n ensures Cancelled(op.regs, n, n)[i] == Registration(false, false, false, None) {
      assert Cancelled(op.regs, n, n)[i] == Dead();
    }
  }

  lemma {:induction false} WaitingTracked<T>(w: World<T>, o: nat)
    requires Good(w) && o < |w.ops| && w.ops[o].phase.Waiting?
    ensures Tracked(w.chans, w.ops[o], o, |w.ops[o].cases|)
  {
    var x := Case(o, |w.ops[o].cases|);
    assert OpOk(w.ops[o]);
    forall i | 0 <= i < |w.ops[o].cases| ensures Track(w.chans, w.ops[o], o, i) { TrackAfter(w, x, w.chans, i); }
    forall d | 0 <= d < |w.chans| ensures OwnWaiters(w.chans[d], d, w.ops[o], o, |w.ops[o].cases|) {
      assert ChanOk(w, d);
      OwnAfter(w, d, x, w.chans[d]);
    }
  }

  // ---- Closing ---------------------------------------------------------------

  function Shut<T>(chans: seq<Chan<T>>, c: nat): seq<Chan<T>>
    requires c < |chans|
  {
    chans[c := chans[c].(closed := true)]
  }

  /** The flag does not matter to the waiters. */
  lemma {:induction false} ShutTracked<T>(chans: seq<Chan<T>>, c: nat, op: Op<T>, r: Waiter)
    requires c < |chans| && chans[c].receivers != [] && r.Case? && r == chans[c].receivers[0]
    requires Tracked(chans[c := chans[c].(receivers := chans[c].receivers[1..])], op, r.op, r.index)
    requires EvictAll(chans[c := chans[c].(receivers := chans[c].receivers[1..])], r.op) == EvictAll(chans, r.op)
    ensures var now := Shut(chans, c)[c := Shut(chans, c)[c].(receivers := chans[c].receivers[1..])];
      Tracked(now, op, r.op, r.index) && EvictAll(now, r.op) == Shut(EvictAll(chans, r.op), c)
  {
    var before := chans[c := chans[c].(receivers := chans[c].receivers[1..])];
    var now := Shut(chans, c)[c := Shut(chans, c)[c].(receivers := chans[c].receivers[1..])];
    forall i | 0 <= i < |op.cases| && i != r.index ensures Track(now, op, r.op, i) {
      assert Track(before, op, r.op, i);
    }
    forall d | 0 <= d < |now| ensures OwnWaiters(now[d], d, op, r.op, r.index) {
      assert OwnWaiters(before[d], d, op, r.op, r.index);
    }
    assert EvictAll(before, r.op)[c] == Evict(before[c], r.op);
  }

  /** A channel that is about to be closed. */
  ghost predicate Closing<T>(w: World<T>, c: nat) {
    Good(w) && InRange(w, c) && forall r :: r in w.chans[c].receivers ==> r.Case? && r.op < |w.ops|
  }

  /** Some of its receivers have been told; the others still will be. */
  ghost predicate Ending<T>(w0: World<T>, w: World<T>, c: nat) {
    Closing(w0, c) && Closing(w, c) && EndAll(w, c) == EndAll(w0, c)
  }

  lemma {:induction false} EndingNext<T>(w0: World<T>, w: World<T>, c: nat) returns (w': World<T>)
    requires Ending(w0, w, c) && w.chans[c].receivers != []
    ensures Ending(w0, w', c) && |w'.chans[c].receivers| < |w.chans[c].receivers|
    ensures var r := w.chans[c].receivers[0]; w' == Win(w, r.op, r.index, None)
  {
    var r := w.chans[c].receivers[0];
    EndGood(w, c, r);
    RestWShorter(w.chans[c].receivers, r.op);
    w' := Win(w, r.op, r.index, None);
    EndAllNext(w, c, w');
  }

  lemma {:induction false} CloseStart<T>(w: World<T>, c: nat)
    requires Good(w) && Allowed(w, CloseChannel(c))
    ensures Closing(w, c) && (w.chans[c].buffer != [] ==> w.chans[c].receivers == [])
  {
    assert ChanOk(w, c);
    CloseGood(w, c);
  }

  lemma {:induction false} CloseEnd<T>(w0: World<T>, w: World<T>, c: nat)
    requires Allowed(w0, CloseChannel(c)) && Ending(w0, w, c) && w.chans[c].receivers == []
    ensures var w' := Step(w0, CloseChannel(c)); w'.chans == Shut(w.chans, c) && w'.ops == w.ops
  {
    CloseGood(w0, c);
  }

  lemma {:induction false} EndAllNext<T>(w: World<T>, c: nat, w': World<T>)
    requires c < |w.chans| && w.chans[c].receivers != []
    requires forall r :: r in w.chans[c].receivers ==> r.Case? && r.op < |w.ops|
    requires var r := w.chans[c].receivers[0]; w' == Win(w, r.op, r.index, None)
    ensures (forall r :: r in w'.chans[c].receivers ==> r.Case? && r.op < |w'.ops|) && EndAll(w, c) == EndAll(w', c)
  {
  }

  /** What a channel keeps beside its buffer. */
  datatype Line<T> = Line(closed: bool, senders: seq<Entry<T>>, receivers: seq<Waiter>)

  /** The rings are different objects, all of them in `storage`. */
  ghost predicate Apart<T>(rings: seq<Buffers.Ring<T>>, storage: set<object>) {
    && (forall c :: 0 <= c < |rings| ==> rings[c] in storage && rings[c].slots in storage)
    && (forall c, d :: 0 <= c < d < |rings| ==> rings[c] != rings[d] && rings[c].slots != rings[d].slots)
  }

  method MakeRings<T>(capacities: seq<nat>) returns (rings: seq<Buffers.Ring<T>>, ghost storage: set<object>)
    ensures |rings| == |capacities| && Apart(rings, storage) && fresh(storage)
    ensures forall c :: 0 <= c < |rings| ==>
      rings[c].Valid() && rings[c].Contents() == []
      && rings[c].capacity == capacities[c]
  {
    rings, storage := [], {};
    for n := 0 to |capacities|
      invariant |rings| == n && Apart(rings, storage) && fresh(storage)
      invariant forall c :: 0 <= c < n ==>
        rings[c].Valid() && rings[c].Contents() == []
        && rings[c].capacity == capacities[c]
    {
      var ring := new Buffers.Ring<T>(capacities[n]);
      rings, storage := rings + [ring], storage + {ring, ring.slots};
    }
  }

  /**
   * `chans` is what the queues and the rings stand for; the operations are proved against it, and they read and write
   * the queues and the rings only.
   */
  class Exchange<T> {
    const rings: seq<Buffers.Ring<T>>
    ghost const storage: set<object>
    var lines: seq<Line<T>>
    var ops: seq<Op<T>>
    ghost var chans: seq<Chan<T>>
    ghost var logs: seq<Log<T>>

    ghost predicate LinkedAt(c: nat)
      requires c < |rings| == |lines| == |chans| && Apart(rings, storage)
      reads this`lines, this`chans, storage
    {
      && rings[c].Valid()
      && chans[c] == Chan(rings[c].capacity, rings[c].Contents(), lines[c].closed, lines[c].senders, lines[c].receivers)
    }

    ghost predicate Linked()
      reads this`lines, this`chans, storage
    {
      && this !in storage && |rings| == |lines| == |chans| && Apart(rings, storage)
      && forall c :: 0 <= c < |rings| ==> LinkedAt(c)
    }

    ghost function State(): World<T>
      reads this
    {
      World(chans, ops, logs)
    }

    constructor (capacities: seq<nat>)
      ensures State() == Initial(capacities) && Linked() && fresh(storage)
    {
      var rs: seq<Buffers.Ring<T>>;
      ghost var memory;
      rs, memory := MakeRings(capacities);
      rings, storage := rs, memory;
      lines := seq(|capacities|, _ => Line(false, [], []));
      chans := seq(|capacities|, c requires 0 <= c < |capacities| => Chan(capacities[c], [], false, [], []));
      ops := [];
      logs := seq(|capacities|, _ => Log([], []));
    }

    // ---- One channel ---------------------------------------------------------

    method SetLine(c: nat, line: Line<T>)
      requires Linked() && c < |chans|
      modifies this`lines, this`chans
      ensures Linked() && lines == old(lines)[c := line]
      ensures chans == old(chans)[c :=
        old(chans)[c].(closed := line.closed, senders := line.senders, receivers := line.receivers)]
    {
      lines := lines[c := line];
      chans := chans[c := chans[c].(closed := line.closed, senders := line.senders, receivers := line.receivers)];
      forall d | 0 <= d < |chans| ensures LinkedAt(d) {
        assert old(LinkedAt(d));
      }
    }

    method SetSenders(c: nat, q: seq<Entry<T>>)
      requires Linked() && c < |chans|
      modifies this`lines, this`chans
      ensures Linked() && chans == old(chans)[c := old(chans)[c].(senders := q)]
    {
      assert LinkedAt(c);
      SetLine(c, lines[c].(senders := q));
    }

    method SetReceivers(c: nat, q: seq<Waiter>)
      requires Linked() && c < |chans|
      modifies this`lines, this`chans
      ensures Linked() && chans == old(chans)[c := old(chans)[c].(receivers := q)]
    {
      assert LinkedAt(c);
      SetLine(c, lines[c].(receivers := q));
    }

    method PushBuffer(c: nat, v: T)
      requires Linked() && c < |chans| && |chans[c].buffer| < chans[c].capacity
      modifies this`chans, storage
      ensures Linked() && chans == old(chans)[c := old(chans)[c].(buffer := old(chans)[c].buffer + [v])]
    {
      assert LinkedAt(c);
      rings[c].Push(v);
      chans := chans[c := chans[c].(buffer := chans[c].buffer + [v])];
      forall d | 0 <= d < |chans| ensures LinkedAt(d) {
        assert old(LinkedAt(d));
      }
    }

    method PopBuffer(c: nat) returns (v: T)
      requires Linked() && c < |chans| && chans[c].buffer != []
      modifies this`chans, storage
      ensures Linked() && v == old(chans)[c].buffer[0]
      ensures chans == old(chans)[c := old(chans)[c].(buffer := old(chans)[c].buffer[1..])]
    {
      assert LinkedAt(c);
      v := rings[c].Pop();
      chans := chans[c := chans[c].(buffer := chans[c].buffer[1..])];
      forall d | 0 <= d < |chans| ensures LinkedAt(d) {
        assert old(LinkedAt(d));
      }
    }

    // ---- Registrations -------------------------------------------------------

    method SetRegistration(o: nat, i: nat, r: Registration<T>)
      requires o < |ops| && i < |ops[o].regs|
      modifies this`ops
      ensures ops == old(ops)[o := old(ops)[o].(regs := old(ops)[o].regs[i := r])]
    {
      ops := ops[o := ops[o].(regs := ops[o].regs[i := r])];
    }

    /** Takes case `i` of `o` out of the channel it waits on. */
    method CancelQueued(o: nat, i: nat) returns (removed: bool)
      requires Linked() && o < |ops| && i < |ops[o].cases| && !ops[o].cases[i].Default? && ops[o].cases[i].ch < |chans|
      modifies this`lines, this`chans
      ensures Linked() && |chans| == |old(chans)|
      ensures var q, ch := ops[o].cases[i], old(chans)[ops[o].cases[i].ch];
        && chans == old(chans)[q.ch := if q.SendTo? then ch.(senders := Less(ch.senders, Case(o, i)))
                                       else ch.(receivers := LessW(ch.receivers, Case(o, i)))]
        && (removed <==> if q.SendTo? then exists e :: e in ch.senders && e.who == Case(o, i)
                         else Case(o, i) in ch.receivers)
    {
      var c := ops[o].cases[i].ch;
      assert LinkedAt(c);
      if ops[o].cases[i].SendTo? {
        var q, r := Unlink(lines[c].senders, Case(o, i));
        removed := r;
        SetSenders(c, q);
      } else {
        var q, r := UnlinkW(lines[c].receivers, Case(o, i));
        removed := r;
        SetReceivers(c, q);
      }
    }

    /** Cancels every case of `o` but `k`; a queued case is found in its queue each time. */
    method CancelLosers(o: nat, k: nat)
      requires Linked() && o < |ops| && Tracked(chans, ops[o], o, k)
      modifies this`lines, this`chans, this`ops
      ensures Linked() && chans == EvictAll(old(chans), o)
      ensures ops == old(ops)[o := old(ops)[o].(regs := Cancelled(old(ops)[o].regs, k, |old(ops)[o].cases|))]
    {
      ghost var chans0, op0 := chans, ops[o];
      BelowStart(chans, o);
      assert ops[o].regs == Cancelled(op0.regs, k, 0);
      for n := 0 to |ops[o].cases|
        invariant ops == old(ops)[o := op0.(regs := Cancelled(op0.regs, k, n))]
        invariant Linked() && chans == BelowAllChans(chans0, o, n)
      {
        if n != k {
          CancelCase(o, n, chans0, op0, k);
        } else {
          BelowStep(chans0, chans, op0, o, k, n);
          assert Cancelled(op0.regs, k, n + 1) == Cancelled(op0.regs, k, n);
        }
      }
      BelowEnd(chans0, op0, o, k);
    }

    method CancelCase(o: nat, n: nat, ghost chans0: seq<Chan<T>>, ghost op0: Op<T>, ghost k: nat)
      requires Linked() && o < |ops| && Tracked(chans0, op0, o, k) && n < |op0.cases| && n != k
      requires ops[o] == op0.(regs := Cancelled(op0.regs, k, n)) && chans == BelowAllChans(chans0, o, n)
      modifies this`lines, this`chans, this`ops
      ensures Linked() && ops == old(ops)[o := op0.(regs := Cancelled(op0.regs, k, n + 1))]
        && chans == BelowAllChans(chans0, o, n + 1)
    {
      var r := ops[o].regs[n];
      assert Track(chans0, op0, o, n);
      if r.active {
        if r.queued {
          var removed := CancelQueued(o, n);
          if op0.cases[n].SendTo? { BelowSend(chans0, op0, o, k, n); } else { BelowReceive(chans0, op0, o, k, n); }
          assert removed;
        }
        SetRegistration(o, n, Dead());
      }
      BelowStep(chans0, chans, op0, o, k, n);
      CancelledNext(op0.regs, k, n);
    }

    method TryWin(o: nat, k: nat) returns (won: bool)
      requires o < |ops|
      modifies this`ops
      ensures won <==> old(ops)[o].winner.None?
      ensures ops == if won then old(ops)[o := old(ops)[o].(winner := Some(k))] else old(ops)
    {
      if ops[o].winner.Some? {
        return false;
      }
      ops := ops[o := ops[o].(winner := Some(k))];
      return true;
    }

    method ResumeIfWaiting(o: nat)
      requires o < |ops|
      modifies this`ops
      ensures var op := old(ops)[o];
        ops == if op.phase.Waiting? then old(ops)[o := op.(phase := Scheduled, wakeups := op.wakeups + 1)] else old(ops)
    {
      if ops[o].phase.Waiting? {
        ops := ops[o := ops[o].(phase := Scheduled, wakeups := ops[o].wakeups + 1)];
      }
    }

    /** Case `k` of `o`, which is in no queue any more, completes: it always wins. */
    method Finish(o: nat, k: nat, out: Option<T>)
      requires Linked() && o < |ops| && k < |ops[o].cases| && Tracked(chans, ops[o], o, k) && ops[o].winner.None?
      modifies this`lines, this`chans, this`ops
      ensures Linked() && chans == EvictAll(old(chans), o) && ops == old(ops)[o := Complete(old(ops)[o], k, out)]
    {
      ghost var op := ops[o];
      var q := ops[o].cases[k];
      SetRegistration(o, k, Registration(false, false, q.SendTo?, if q.ReceiveFrom? then Some(out) else None));
      var won := TryWin(o, k);
      assert won;
      FinishTracked(chans, op, ops[o], o, k);
      CancelLosers(o, k);
      FinishRegs(op, k, out);
      ResumeIfWaiting(o);
    }

    // ---- Hand-off and admission ----------------------------------------------

    /** The first receiver of channel `c` gets `v`; `w` is the part of the state that is settled. */
    method HandOff(c: nat, v: T, ghost w: World<T>)
      requires Linked() && Good(w) && w.chans == chans && w.ops <= ops && c < |chans| && chans[c].receivers != []
      modifies this`lines, this`chans, this`ops
      ensures Linked()
      ensures var r := old(chans)[c].receivers[0];
        && r.Case? && r.op < |w.ops|
        && chans == EvictAll(old(chans), r.op) && ops == old(ops)[r.op := Complete(old(ops)[r.op], r.index, Some(v))]
    {
      assert LinkedAt(c);
      var r := lines[c].receivers[0];
      PopReceiverTracked(w, c);
      SetReceivers(c, lines[c].receivers[1..]);
      Finish(r.op, r.index, Some(v));
    }

    /**
     * A value is taken while a sender waits: from the buffer, which then gets the sender's, or straight from the
     * sender.
     */
    method Exchanged(c: nat, e: Entry<T>) returns (v: T)
      requires Linked() && c < |chans| && chans[c].senders != [] && e == chans[c].senders[0]
      requires |chans[c].buffer| == chans[c].capacity
      modifies this`chans, storage
      ensures Linked() && v == Next(old(chans)[c])
      ensures chans == old(chans)[c := old(chans)[c].(buffer := (old(chans)[c].buffer + [e.value])[1..])]
    {
      assert LinkedAt(c);
      if rings[c].size != 0 {
        v := PopBuffer(c);
        PushBuffer(c, e.value);
        ghost var buffer := old(chans)[c].buffer;
        assert buffer[1..] + [e.value] == (buffer + [e.value])[1..];
      } else {
        v := e.value;
        assert chans[c].buffer == [] && ([] + [e.value])[1..] == [];
        assert chans[c := chans[c].(buffer := (chans[c].buffer + [e.value])[1..])] == chans;
      }
    }

    /** The same, and the sender leaves its queue. */
    method Relieve(c: nat) returns (e: Entry<T>, v: T)
      requires Linked() && c < |chans| && chans[c].senders != [] && |chans[c].buffer| == chans[c].capacity
      modifies this`lines, this`chans, storage
      ensures Linked() && e == old(chans)[c].senders[0] && v == Next(old(chans)[c])
      ensures var ch := old(chans)[c];
        chans == old(chans)[c := ch.(senders := ch.senders[1..], buffer := (ch.buffer + [e.value])[1..])]
    {
      assert LinkedAt(c);
      e := lines[c].senders[0];
      v := Exchanged(c, e);
      SetSenders(c, lines[c].senders[1..]);
    }

    /**
     * The first sender of channel `c` completes; its value goes to the end of the buffer, whose first value is taken.
     */
    method Admit(c: nat, ghost w: World<T>) returns (v: T)
      requires Linked() && Good(w) && w.chans == chans && w.ops <= ops && c < |chans| && chans[c].senders != []
      modifies this`lines, this`chans, this`ops, storage
      ensures Linked() && v == Next(old(chans)[c])
      ensures var e, ch := old(chans)[c].senders[0], old(chans)[c];
        && e.who.Case? && e.who.op < |w.ops|
        && chans == EvictAll(old(chans)[c := ch.(buffer := (ch.buffer + [e.value])[1..])], e.who.op)
        && ops == old(ops)[e.who.op := Complete(old(ops)[e.who.op], e.who.index, None)]
    {
      assert ChanOk(w, c);
      PopSenderTracked(w, c, (chans[c].buffer + [chans[c].senders[0].value])[1..]);
      var e;
      e, v := Relieve(c);
      Finish(e.who.op, e.who.index, None);
    }

    /** Takes the next value out of channel `c`. */
    method TakeNext(c: nat, ghost w: World<T>, ghost getter: Waiter) returns (v: T)
      requires Linked() && Good(w) && w.chans == chans && w.ops <= ops && InRange(w, c) && CanTake(chans[c])
      modifies this`lines, this`chans, this`ops, storage
      ensures Linked() && v == Next(old(chans)[c])
      ensures forall e :: e in w.chans[c].senders ==> e.who.Case? && e.who.op < |w.ops|
      ensures var w' := Take(w, c, getter); chans == w'.chans && ops == w'.ops + old(ops)[|w.ops|..]
    {
      TakeGood(w, c, getter);
      assert LinkedAt(c);
      if lines[c].senders == [] {
        v := PopBuffer(c);
      } else {
        v := Admit(c, w);
      }
    }

    /** Puts `v` into channel `c`. */
    method Put(c: nat, v: T, ghost w: World<T>, ghost who: Waiter)
      requires Linked() && Good(w) && w.chans == chans && w.ops <= ops && InRange(w, c) && CanAccept(chans[c])
      modifies this`lines, this`chans, this`ops, storage
      ensures Linked()
      ensures forall r :: r in w.chans[c].receivers ==> r.Case? && r.op < |w.ops|
      ensures var w' := Accept(w, c, who, v); chans == w'.chans && ops == w'.ops + old(ops)[|w.ops|..]
    {
      assert ChanOk(w, c) && LinkedAt(c);
      if lines[c].receivers != [] {
        HandOff(c, v, w);
      } else {
        PushBuffer(c, v);
      }
    }

    // ---- Nonblocking operations ----------------------------------------------

    method TrySend(c: nat, v: T) returns (ok: bool)
      requires Linked() && Good(State()) && Allowed(State(), Event.TrySend(c, v))
      modifies this, storage
      ensures Linked() && State() == Step(old(State()), Event.TrySend(c, v)) && Good(State())
      ensures ok <==> SendAnswer(old(chans)[c])
      ensures if ok then Delivered(old(State()), State(), c, v) else Same(old(State()), State())
    {
      ghost var w := State();
      StepGood(w, Event.TrySend(c, v));
      StepEffects(w, Event.TrySend(c, v));
      hide Delivered, BuffersSame, Woken;
      assert ChanOk(w, c) && LinkedAt(c);
      ok := lines[c].receivers != [] || rings[c].size != rings[c].capacity;
      if ok {
        Put(c, v, w, Direct);
        logs := Step(w, Event.TrySend(c, v)).logs;
      }
    }

    /** `None` when an open channel would block; `Some(None)` at the end of the stream. */
    method TryReceive(c: nat) returns (output: Option<Option<T>>)
      requires Linked() && Good(State()) && Allowed(State(), Event.TryReceive(c))
      modifies this, storage
      ensures Linked() && State() == Step(old(State()), Event.TryReceive(c)) && Good(State())
      ensures output == ReceiveAnswer(old(chans)[c])
      ensures if output.Some? && output.value.Some? then Removed(old(State()), State(), c, output.value.value)
              else Same(old(State()), State())
    {
      ghost var w := State();
      StepGood(w, Event.TryReceive(c));
      StepEffects(w, Event.TryReceive(c));
      hide Removed, BuffersSame, Woken;
      assert LinkedAt(c);
      if rings[c].size != 0 || lines[c].senders != [] {
        var v := TakeNext(c, w, Direct);
        logs := Step(w, Event.TryReceive(c)).logs;
        return Some(Some(v));
      }
      return if lines[c].closed then Some(None) else None;
    }

    // ---- Blocking operations -------------------------------------------------

    /** The channel's side of a ready case: the value moves, and a partner that waited completes. */
    method MoveValue(cases: seq<Request<T>>, k: nat, ghost w: World<T>) returns (out: Option<T>)
      requires Linked() && Good(w) && k < |cases| && CanCommit(w, cases[k]) && chans == w.chans
        && ops == w.ops + [NewOp(cases)]
      modifies this`lines, this`chans, this`ops, storage
      ensures Linked()
      ensures chans == Commit(w, cases, k).chans && |ops| == |w.ops| + 1
      ensures ops[|w.ops|] == NewOp(cases) && Commit(w, cases, k).ops == ops[|w.ops| := Immediate(cases, k, out)]
    {
      ghost var o := |w.ops|;
      CommitOps(w, cases, k);
      out := None;
      match cases[k] {
        case SendTo(c, v) =>
          Put(c, v, w, Case(o, k));
        case ReceiveFrom(c) =>
          assert LinkedAt(c);
          if rings[c].size != 0 || lines[c].senders != [] {
            var v := TakeNext(c, w, Case(o, k));
            out := Some(v);
          }
        case Default =>
      }
    }

    /** A ready case takes effect; the operation is the last one. */
    method CommitCase(cases: seq<Request<T>>, k: nat, ghost w: World<T>)
      requires Linked() && Good(w) && k < |cases| && CanCommit(w, cases[k]) && chans == w.chans
        && ops == w.ops + [NewOp(cases)]
      modifies this`lines, this`chans, this`ops, storage
      ensures Linked()
      ensures var w' := Commit(w, cases, k); chans == w'.chans && ops == w'.ops
    {
      var o := |ops| - 1;
      ghost var w' := Commit(w, cases, k);
      CommitGood(w, cases, k);
      var out := MoveValue(cases, k, w);
      NotWaiting(w', o);
      NewTracked(w'.chans, cases, o, k);
      Finish(o, k, out);
      EvictNothing(w'.chans, o);
    }

    method ArmCase(o: nat, n: nat)
      requires Linked() && o < |ops| && n < |ops[o].cases| == |ops[o].regs|
      requires !ops[o].cases[n].Default? && ops[o].cases[n].ch < |chans|
      modifies this`lines, this`chans, this`ops
      ensures Linked()
      ensures var op, c := old(ops)[o], old(ops)[o].cases[n].ch;
        && ops == old(ops)[o := op.(regs := op.regs[n := Registration(true, true, false, None)])]
        && chans == old(chans)[c := Enqueue(old(chans)[c], Case(o, n), op.cases[n])]
    {
      var q := ops[o].cases[n];
      SetRegistration(o, n, Registration(true, true, false, None));
      assert LinkedAt(q.ch);
      match q {
        case SendTo(c, v) => SetSenders(c, lines[c].senders + [Entry(Case(o, n), v)]);
        case ReceiveFrom(c) => SetReceivers(c, lines[c].receivers + [Case(o, n)]);
      }
    }

    /** Queues all cases of the last operation, in order. */
    method ArmCases(cases: seq<Request<T>>, ghost w: World<T>)
      requires Linked() && MustWait(w, cases) && chans == w.chans && ops == w.ops + [NewOp(cases)]
      modifies this`lines, this`chans, this`ops
      ensures Linked() && chans == Arm(w, cases).chans && ops == Arm(w, cases).ops
    {
      var o := |ops| - 1;
      ArmStart(chans, o, cases);
      for n := 0 to |cases|
        invariant Linked() && chans == Enlisted(w.chans, o, cases, n) && ops == w.ops + [HalfArmed(cases, n)]
      {
        ArmCase(o, n);
        EnlistNext(w.chans, o, cases, n);
        HalfArmedNext(cases, n);
      }
      ops := ops[o := ops[o].(phase := Waiting)];
      AllArmed(cases);
    }

    /** Whether a case can go ahead, as the channel sees it. */
    predicate IsReady(q: Request<T>)
      requires Linked() && (q.Default? || q.ch < |chans|)
      reads this`lines, this`chans, storage
      ensures IsReady(q) == Ready(chans, q)
    {
      match q
      case SendTo(c, _) => assert LinkedAt(c); lines[c].closed || lines[c].receivers != []
        || rings[c].size != rings[c].capacity
      case ReceiveFrom(c) => assert LinkedAt(c); lines[c].closed || lines[c].senders != [] || rings[c].size != 0
      case Default => false
    }

    method FindReady(cases: seq<Request<T>>) returns (ready: seq<bool>, fallback: Option<nat>)
      requires Linked() && forall i :: 0 <= i < |cases| ==> cases[i].Default? || cases[i].ch < |chans|
      ensures |ready| == |cases| && forall i :: 0 <= i < |cases| ==> ready[i] == Ready(chans, cases[i])
      ensures match fallback
        case None => forall i :: 0 <= i < |cases| ==> !cases[i].Default?
        case Some(k) => FirstDefault(cases, k)
    {
      ready, fallback := [], None;
      for n := 0 to |cases|
        invariant |ready| == n && forall i :: 0 <= i < n ==> ready[i] == Ready(chans, cases[i])
        invariant match fallback
          case None => forall i :: 0 <= i < n ==> !cases[i].Default?
          case Some(k) => FirstDefault(cases, k)
      {
        if cases[n].Default? && fallback.None? {
          fallback := Some(n);
        }
        ready := ready + [IsReady(cases[n])];
      }
    }

    /** A new operation goes ahead with the selected case, or waits. */
    method Launch(cases: seq<Request<T>>, selected: Option<nat>, ghost pick: nat) returns (o: nat)
      requires Linked() && Good(State()) && Allowed(State(), Event.Begin(cases, pick))
        && (GoesAhead(State(), cases, pick) <==> selected.Some?)
      requires if selected.Some?
               then pick == selected.value < |cases| && CanCommit(State(), cases[pick])
               else MustWait(State(), cases)
      modifies this, storage
      ensures Linked() && State() == Step(old(State()), Event.Begin(cases, pick)) && Good(State())
      ensures o == |old(ops)| && |ops| == o + 1 && (selected.None? <==> ops[o].phase.Waiting?)
      ensures if selected.None? then Waits(old(State()), State(), cases)
              else Committed(old(State()), State(), cases, selected.value)
    {
      ghost var w := State();
      StepGood(w, Event.Begin(cases, pick));
      StepEffects(w, Event.Begin(cases, pick));
      hide Waits, Committed;
      o := |ops|;
      ops := ops + [NewOp(cases)];
      if selected.None? {
        ArmCases(cases, w);
      } else {
        CommitCase(cases, selected.value, w);
        CommitPhase(w, cases, pick);
      }
      logs := Step(w, Event.Begin(cases, pick)).logs;
    }

    /**
     * Suspends on several cases: one that is ready is picked at random, else the default case, else all wait.
     * The caller must not let a send on a closed channel be picked.
     */
    method Begin(cases: seq<Request<T>>, draw: nat) returns (o: nat, suspended: bool, ghost pick: nat)
      requires Linked() && Good(State()) && ValidCases(State(), cases)
      requires forall k: nat, ready: seq<bool> :: Readiness(chans, cases, ready) && Chosen(ready, draw, k) ==>
        cases[k].SendTo? ==> !chans[cases[k].ch].closed
      modifies this, storage
      ensures Linked() && Allowed(old(State()), Event.Begin(cases, pick))
      ensures State() == Step(old(State()), Event.Begin(cases, pick)) && Good(State())
      ensures o == |old(ops)| && |ops| == o + 1 && (suspended <==> ops[o].phase.Waiting?)
      ensures suspended <==> !AnyReady(old(State()), cases) && forall i :: 0 <= i < |cases| ==> !cases[i].Default?
      ensures if suspended then Waits(old(State()), State(), cases) else Committed(old(State()), State(), cases, pick)
      ensures AnyReady(old(State()), cases) ==>
        exists ready :: Readiness(old(chans), cases, ready) && Chosen(ready, draw, pick)
      ensures !AnyReady(old(State()), cases) && !suspended ==> FirstDefault(cases, pick)
    {
      hide Waits, Committed;
      var ready, fallback := FindReady(cases);
      assert Readiness(chans, cases, ready);
      var selected := Choose(ready, draw);
      if selected.None? { selected := fallback; }
      pick := if selected.Some? then selected.value else 0;
      BeginStep(State(), cases, selected, pick, ready);
      suspended := selected.None?;
      o := Launch(cases, selected, pick);
    }

    /** A blocking operation with one case: it goes ahead if it can and waits otherwise. */
    method Await(q: Request<T>) returns (o: nat, suspended: bool)
      requires Linked() && Good(State()) && !q.Default? && InRange(State(), q.ch) && (q.SendTo? ==> !chans[q.ch].closed)
      modifies this, storage
      ensures Linked() && Allowed(old(State()), Event.Begin([q], 0))
      ensures State() == Step(old(State()), Event.Begin([q], 0)) && Good(State())
      ensures o == |old(ops)| && |ops| == o + 1 && (suspended <==> ops[o].phase.Waiting?)
      ensures suspended <==> !Ready(old(chans), q)
      ensures if suspended then Waits(old(State()), State(), [q]) else Committed(old(State()), State(), [q], 0)
    {
      hide Waits, Committed;
      var line, ring := lines[q.ch], rings[q.ch];
      assert ChanOk(State(), q.ch) && LinkedAt(q.ch);
      suspended := if q.SendTo? then line.receivers == [] && ring.size == ring.capacity
                   else ring.size == 0 && line.senders == [] && !line.closed;
      AwaitStep(State(), q, suspended);
      o := Launch([q], if suspended then None else Some(0), 0);
    }

    /** The awaiter of a waiting operation is destroyed. */
    method Destroy(o: nat)
      requires Linked() && Good(State()) && Allowed(State(), Event.Destroy(o))
      modifies this
      ensures Linked() && State() == Step(old(State()), Event.Destroy(o)) && Good(State())
      ensures Withdrawn(old(State()), State(), o)
    {
      ghost var w := State();
      StepGood(w, Event.Destroy(o));
      StepEffects(w, Event.Destroy(o));
      hide Withdrawn;
      WaitingTracked(w, o);
      CancelLosers(o, |ops[o].cases|);
      ops := ops[o := ops[o].(phase := Gone)];
      logs := Drop(w, o).logs;
      AllCancelled(w.ops[o]);
    }

    /** Closes channel `c`: all waiting receivers are told that the stream has ended. */
    method Close(c: nat)
      requires Linked() && Good(State()) && Allowed(State(), CloseChannel(c))
      modifies this
      ensures Linked() && State() == Step(old(State()), CloseChannel(c)) && Good(State())
      ensures Shutdown(old(State()), State(), c)
    {
      ghost var w := State();
      StepGood(w, CloseChannel(c));
      StepEffects(w, CloseChannel(c));
      hide Shutdown;
      CloseStart(w, c);
      assert LinkedAt(c);
      SetLine(c, lines[c].(closed := true));
      ghost var w1 := w;
      if rings[c].size == 0 {
        w1 := EndReceivers(c, w);
      }
      CloseEnd(w, w1, c);
      logs := Step(w, CloseChannel(c)).logs;
    }

    /** Completes the receivers of a closed channel one by one. */
    method EndReceivers(c: nat, ghost w0: World<T>) returns (ghost w: World<T>)
      requires Linked() && Closing(w0, c) && chans == Shut(w0.chans, c) && ops == w0.ops
      modifies this`lines, this`chans, this`ops
      ensures Linked() && Ending(w0, w, c) && w.chans[c].receivers == [] && chans == Shut(w.chans, c) && ops == w.ops
    {
      w := w0;
      assert LinkedAt(c);
      while lines[c].receivers != []
        invariant Linked() && Ending(w0, w, c) && c < |chans| && chans == Shut(w.chans, c) && ops == w.ops
        invariant lines[c].receivers == w.chans[c].receivers
        decreases |lines[c].receivers|
      {
        w := EndFirst(c, w0, w);
        assert LinkedAt(c);
      }
    }

    method EndFirst(c: nat, ghost w0: World<T>, ghost w: World<T>) returns (ghost w': World<T>)
      requires Linked() && Ending(w0, w, c) && chans == Shut(w.chans, c) && ops == w.ops && w.chans[c].receivers != []
      modifies this`lines, this`chans, this`ops
      ensures Linked() && Ending(w0, w', c) && chans == Shut(w'.chans, c) && ops == w'.ops
      ensures |w'.chans[c].receivers| < |w.chans[c].receivers|
    {
      assert LinkedAt(c);
      var r := lines[c].receivers[0];
      w' := EndingNext(w0, w, c);
      PopReceiverTracked(w, c);
      ShutTracked(w.chans, c, w.ops[r.op], r);
      SetReceivers(c, lines[c].receivers[1..]);
      Finish(r.op, r.index, None);
    }
  }
}
