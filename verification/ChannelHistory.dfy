/**
  Exact accounting for channels: over every run, the history of a channel holds
  the value of a send case exactly once if that case took effect or still waits,
  and never otherwise; it holds what a receive case delivered exactly once.
 */
module ChannelHistory {
  import opened Options
  import opened ChannelModel

  function Times<T>(q: seq<Entry<T>>, who: Waiter): nat {
    if q == [] then 0 else (if q[0].who == who then 1 else 0) + Times(q[1..], who)
  }

  lemma {:induction false} TimesSplit<T>(a: seq<Entry<T>>, b: seq<Entry<T>>, who: Waiter)
    ensures Times(a + b, who) == Times(a, who) + Times(b, who)
  {
    if a == [] {
      assert a + b == b;
    } else {
      assert (a + b)[0] == a[0] && (a + b)[1..] == a[1..] + b;
      TimesSplit(a[1..], b, who);
    }
  }

  lemma {:induction false} TimesLosers<T>(q: seq<Entry<T>>, o: nat, keep: Option<nat>, who: Waiter)
    ensures Times(WithoutLosers(q, o, keep), who)
      == if who.Case? && who.op == o && keep != Some(who.index) then 0 else Times(q, who)
  {
    if q != [] { TimesLosers(q[1..], o, keep, who); }
  }

  lemma {:induction false} TimesAbsent<T>(q: seq<Entry<T>>, who: Waiter)
    requires forall e :: e in q ==> e.who != who
    ensures Times(q, who) == 0
  {
    if q != [] {
      assert q[0] in q;
      TimesAbsent(q[1..], who);
    }
  }

  /** Case `k` offered its value to channel `c` and has not been withdrawn. */
  ghost predicate Sends<T>(op: Op<T>, k: nat, c: nat)
    requires k < |op.cases|
  {
    op.cases[k].SendTo? && op.cases[k].ch == c && (op.phase.Waiting? || op.winner == Some(k))
  }

  /** Case `k` got a value from channel `c`. */
  ghost predicate Gets<T>(op: Op<T>, k: nat, c: nat)
    requires k < |op.cases|
  {
    && op.cases[k] == ReceiveFrom(c) && op.winner == Some(k)
    && k < |op.regs| && op.regs[k].output.Some? && op.regs[k].output.value.Some?
  }

  ghost predicate SentOk<T>(q: seq<Entry<T>>, c: nat, op: Op<T>, who: Waiter)
    requires who.Case? && who.index < |op.cases|
  {
    && Times(q, who) == (if Sends(op, who.index, c) then 1 else 0)
    && forall e :: e in q && e.who == who ==> op.cases[who.index] == SendTo(c, e.value)
  }

  ghost predicate GotOk<T>(q: seq<Entry<T>>, c: nat, op: Op<T>, who: Waiter)
    requires who.Case? && who.index < |op.cases|
  {
    && Times(q, who) == (if Gets(op, who.index, c) then 1 else 0)
    && forall e :: e in q && e.who == who ==> who.index < |op.regs| && op.regs[who.index].output == Some(Some(e.value))
  }

  ghost predicate Known<T>(q: seq<Entry<T>>, ops: seq<Op<T>>) {
    forall e :: e in q && e.who.Case? ==> e.who.op < |ops| && e.who.index < |ops[e.who.op].cases|
  }

  ghost predicate RecordedAt<T>(w: World<T>, c: nat, o: nat, k: nat)
    requires c < |w.logs| && o < |w.ops| && k < |w.ops[o].cases|
  {
    SentOk(w.logs[c].accepted, c, w.ops[o], Case(o, k)) && GotOk(w.logs[c].received, c, w.ops[o], Case(o, k))
  }

  /** The histories are right for all cases but `x`, which does not occur. */
  ghost predicate RecordedBut<T>(w: World<T>, x: Waiter) {
    && (forall c, o, k ::
      0 <= c < |w.logs| && 0 <= o < |w.ops| && 0 <= k < |w.ops[o].cases|
      && Case(o, k) != x ==>
        RecordedAt(w, c, o, k))
    && (forall c :: 0 <= c < |w.logs| ==> Known(w.logs[c].accepted, w.ops) && Known(w.logs[c].received, w.ops))
    && (x.Case? ==> forall c :: 0 <= c < |w.logs| ==> Absent(w.logs[c], x))
  }

  ghost predicate Recorded<T>(w: World<T>) {
    RecordedBut(w, Direct)
  }

  ghost predicate Absent<T>(log: Log<T>, x: Waiter) {
    (forall e :: e in log.accepted ==> e.who != x) && (forall e :: e in log.received ==> e.who != x)
  }

  // ---- One entry of the history --------------------------------------------

  /** What a history says about a case that another operation's win, or its own, does not touch. */
  lemma {:induction false} SentSame<T>(q: seq<Entry<T>>, a: seq<Entry<T>>, o: nat, keep: Option<nat>, c: nat,
      op: Op<T>, who: Waiter)
    requires who.Case? && who.index < |op.cases| && SentOk(q, c, op, who)
    requires !(who.op == o && keep != Some(who.index)) && forall e :: e in a ==> e.who != who
    ensures SentOk(WithoutLosers(q + a, o, keep), c, op, who)
  {
    TimesLosers(q + a, o, keep, who);
    TimesSplit(q, a, who);
    TimesAbsent(a, who);
  }

  /** A case whose value is accepted now. */
  lemma {:induction false} SentNow<T>(q: seq<Entry<T>>, o: nat, keep: Option<nat>, c: nat, op: Op<T>, who: Waiter, v: T)
    requires who.Case? && who.index < |op.cases| && (forall e :: e in q ==> e.who != who)
    requires who.op != o && op.cases[who.index] == SendTo(c, v) && op.winner == Some(who.index)
    ensures SentOk(WithoutLosers(q + [Entry(who, v)], o, keep), c, op, who)
  {
    var a := [Entry(who, v)];
    TimesLosers(q + a, o, keep, who);
    TimesSplit(q, a, who);
    TimesAbsent(q, who);
    assert Times(a, who) == 1;
  }

  /** The cases of the operation that wins: the winner keeps its entry, the losers lose theirs. */
  lemma {:induction false} SentWin<T>(q: seq<Entry<T>>, a: seq<Entry<T>>, o: nat, k: nat, c: nat, op: Op<T>,
      op': Op<T>, j: nat)
    requires j < |op.cases| && SentOk(q, c, op, Case(o, j)) && op.phase.Waiting? && op'.cases == op.cases
    requires !op'.phase.Waiting? && op'.winner == Some(k) && forall e :: e in a ==> e.who != Case(o, j)
    ensures SentOk(WithoutLosers(q + a, o, Some(k)), c, op', Case(o, j))
  {
    TimesLosers(q + a, o, Some(k), Case(o, j));
    TimesSplit(q, a, Case(o, j));
    TimesAbsent(a, Case(o, j));
  }

  lemma {:induction false} GotSame<T>(q: seq<Entry<T>>, g: seq<Entry<T>>, c: nat, op: Op<T>, who: Waiter)
    requires who.Case? && who.index < |op.cases| && GotOk(q, c, op, who) && forall e :: e in g ==> e.who != who
    ensures GotOk(q + g, c, op, who)
  {
    TimesSplit(q, g, who);
    TimesAbsent(g, who);
  }

  lemma {:induction false} GotNow<T>(q: seq<Entry<T>>, c: nat, op: Op<T>, who: Waiter, v: T)
    requires who.Case? && who.index < |op.cases| && (forall e :: e in q ==> e.who != who)
    requires op.cases[who.index] == ReceiveFrom(c) && op.winner == Some(who.index)
    requires who.index < |op.regs| && op.regs[who.index].output == Some(Some(v))
    ensures GotOk(q + [Entry(who, v)], c, op, who)
  {
    TimesSplit(q, [Entry(who, v)], who);
    TimesAbsent(q, who);
    assert Times([Entry(who, v)], who) == 1;
  }

  /** A case that got nothing yet does not occur among the values received. */
  lemma {:induction false} GotNothing<T>(q: seq<Entry<T>>, who: Waiter)
    requires Times(q, who) == 0
    ensures forall e :: e in q ==> e.who != who
  {
    if q != [] { GotNothing(q[1..], who); }
  }

  // ---- Sends and receives --------------------------------------------------

  lemma {:induction false} HandOffRecordedAt<T>(w: World<T>, c: nat, who: Waiter, v: T, r: Waiter, d: nat, o: nat,
      j: nat)
    requires Good(w) && InRange(w, c) && CanAccept(w.chans[c]) && Sender(w, c, who, v) && RecordedBut(w, who)
    requires w.chans[c].receivers != [] && r == w.chans[c].receivers[0] && Queued(w.ops, r, ReceiveFrom(c))
    requires forall r :: r in w.chans[c].receivers ==> r.Case? && r.op < |w.ops|
    requires d < |w.logs| && o < |w.ops| && j < |w.ops[o].cases|
    ensures RecordedAt(Accept(w, c, who, v), d, o, j)
  {
    var w', x, log, keep := Accept(w, c, who, v), Case(o, j), w.logs[d], Some(r.index);
    var a, g := if d == c then [Entry(who, v)] else [], if d == c then [Entry(r, v)] else [];
    assert log.accepted + [] == log.accepted && log.received + [] == log.received;
    assert w'.logs[d] == Log(WithoutLosers(log.accepted + a, r.op, keep), log.received + g);
    assert OpOk(w.ops[r.op]);
    if x == who {
      if d == c {
        SentNow(log.accepted, r.op, keep, c, w'.ops[o], x, v);
      } else {
        TimesAbsent(WithoutLosers(log.accepted, r.op, keep), x);
      }
      TimesSplit(log.received, g, x);
      TimesAbsent(log.received, x);
      TimesAbsent(g, x);
    } else if o == r.op {
      assert RecordedAt(w, d, o, j);
      SentWin(log.accepted, a, o, r.index, d, w.ops[o], w'.ops[o], j);
      GotNothing(log.received, x);
      if d == c && j == r.index { GotNow(log.received, c, w'.ops[o], x, v); } else { TimesAbsent(log.received + g, x); }
    } else {
      assert RecordedAt(w, d, o, j);
      SentSame(log.accepted, a, r.op, keep, d, w.ops[o], x);
      GotSame(log.received, g, d, w.ops[o], x);
    }
  }

  lemma {:induction false} SentAppend<T>(q: seq<Entry<T>>, a: seq<Entry<T>>, c: nat, op: Op<T>, who: Waiter)
    requires who.Case? && who.index < |op.cases| && SentOk(q, c, op, who) && forall e :: e in a ==> e.who != who
    ensures SentOk(q + a, c, op, who)
  {
    TimesSplit(q, a, who);
    TimesAbsent(a, who);
  }

  /** `who` is the case whose value is accepted by channel `c` now. */
  ghost predicate Sender<T>(w: World<T>, c: nat, who: Waiter, v: T) {
    && Final(w.ops, who)
    && (who.Case? ==>
      who.op < |w.ops| && who.index < |w.ops[who.op].cases|
      && w.ops[who.op].cases[who.index] == SendTo(c, v))
  }

  lemma {:induction false} PushRecordedAt<T>(w: World<T>, c: nat, who: Waiter, v: T, d: nat, o: nat, j: nat)
    requires InRange(w, c) && CanAccept(w.chans[c]) && w.chans[c].receivers == [] && Sender(w, c, who, v)
      && RecordedBut(w, who)
    requires d < |w.logs| && o < |w.ops| && j < |w.ops[o].cases|
    ensures RecordedAt(Accept(w, c, who, v), d, o, j)
  {
    var w', x, log := Accept(w, c, who, v), Case(o, j), w.logs[d];
    if x == who {
      TimesAbsent(log.accepted, x);
      TimesAbsent(log.received, x);
      TimesSplit(log.accepted, [Entry(who, v)], x);
      assert Times([Entry(who, v)], x) == 1;
    } else {
      assert RecordedAt(w, d, o, j);
      SentAppend(log.accepted, [Entry(who, v)], d, w.ops[o], x);
    }
  }

  lemma {:induction false} AcceptKnown<T>(w: World<T>, c: nat, who: Waiter, v: T, d: nat)
    requires Good(w) && InRange(w, c) && CanAccept(w.chans[c]) && Sender(w, c, who, v) && RecordedBut(w, who)
      && d < |w.logs|
    requires forall r :: r in w.chans[c].receivers ==> r.Case? && r.op < |w.ops| && Queued(w.ops, r, ReceiveFrom(c))
    ensures var w' := Accept(w, c, who, v); Known(w'.logs[d].accepted, w'.ops) && Known(w'.logs[d].received, w'.ops)
  {
    var w', log := Accept(w, c, who, v), w.logs[d];
    assert Known(log.accepted, w.ops) && Known(log.received, w.ops);
    if w.chans[c].receivers != [] { assert w.chans[c].receivers[0] in w.chans[c].receivers; }
  }

  /** A send that need not wait keeps the accounts. */
  lemma {:induction false} AcceptRecorded<T>(w: World<T>, c: nat, who: Waiter, v: T)
    requires Good(w) && InRange(w, c) && CanAccept(w.chans[c]) && Sender(w, c, who, v) && RecordedBut(w, who)
    ensures forall r :: r in w.chans[c].receivers ==> r.Case? && r.op < |w.ops|
    ensures Recorded(Accept(w, c, who, v))
  {
    assert ChanOk(w, c);
    var w', q := Accept(w, c, who, v), w.chans[c].receivers;
    forall d, o, j | 0 <= d < |w'.logs| && 0 <= o < |w'.ops| && 0 <= j < |w'.ops[o].cases|
      ensures RecordedAt(w', d, o, j) {
      if q == [] { PushRecordedAt(w, c, who, v, d, o, j); } else { HandOffRecordedAt(w, c, who, v, q[0], d, o, j); }
    }
    forall d | 0 <= d < |w'.logs| ensures Known(w'.logs[d].accepted, w'.ops) && Known(w'.logs[d].received, w'.ops) {
      AcceptKnown(w, c, who, v, d);
    }
  }

  /** `getter` is the case that gets the next value of channel `c` now. */
  ghost predicate Receiver<T>(w: World<T>, c: nat, getter: Waiter)
    requires c < |w.chans| && CanTake(w.chans[c])
  {
    getter.Case? ==>
      && getter.op < |w.ops| && getter.index < |w.ops[getter.op].cases| == |w.ops[getter.op].regs|
      && w.ops[getter.op].cases[getter.index] == ReceiveFrom(c) && w.ops[getter.op].winner == Some(getter.index)
      && w.ops[getter.op].regs[getter.index].output == Some(Some(Next(w.chans[c])))
  }

  lemma {:induction false} PopRecordedAt<T>(w: World<T>, c: nat, getter: Waiter, d: nat, o: nat, j: nat)
    requires InRange(w, c) && CanTake(w.chans[c]) && w.chans[c].senders == [] && Receiver(w, c, getter)
      && RecordedBut(w, getter)
    requires d < |w.logs| && o < |w.ops| && j < |w.ops[o].cases|
    ensures RecordedAt(Take(w, c, getter), d, o, j)
  {
    var w', x, log := Take(w, c, getter), Case(o, j), w.logs[d];
    if x == getter {
      TimesAbsent(log.accepted, x);
      TimesAbsent(log.received, x);
      if d == c { GotNow(log.received, c, w.ops[o], x, Next(w.chans[c])); }
    } else {
      assert RecordedAt(w, d, o, j);
      GotSame(log.received, [Entry(getter, Next(w.chans[c]))], d, w.ops[o], x);
    }
  }

  lemma {:induction false} AdmitRecordedAt<T>(w: World<T>, c: nat, getter: Waiter, e: Entry<T>, d: nat, o: nat, j: nat)
    requires Good(w) && InRange(w, c) && CanTake(w.chans[c]) && Receiver(w, c, getter) && RecordedBut(w, getter)
    requires w.chans[c].senders != [] && e == w.chans[c].senders[0] && Queued(w.ops, e.who, SendTo(c, e.value))
    requires forall e :: e in w.chans[c].senders ==> e.who.Case? && e.who.op < |w.ops|
    requires d < |w.logs| && o < |w.ops| && j < |w.ops[o].cases|
    ensures RecordedAt(Take(w, c, getter), d, o, j)
  {
    var w', x, log, p, keep := Take(w, c, getter), Case(o, j), w.logs[d], e.who.op, Some(e.who.index);
    var v := Next(w.chans[c]);
    var g := if d == c then [Entry(getter, v)] else [];
    assert log.accepted + [] == log.accepted && log.received + [] == log.received;
    assert w'.logs[d] == Log(WithoutLosers(log.accepted, p, keep), log.received + g);
    assert OpOk(w.ops[p]);
    if x == getter {
      TimesAbsent(WithoutLosers(log.accepted, p, keep), x);
      if d == c { GotNow(log.received, c, w.ops[o], x, v); } else { TimesAbsent(log.received, x); }
    } else {
      assert RecordedAt(w, d, o, j);
      if o == p {
        SentWin(log.accepted, [], o, e.who.index, d, w.ops[o], w'.ops[o], j);
        GotNothing(log.received, x);
        TimesAbsent(log.received + g, x);
      } else {
        SentSame(log.accepted, [], p, keep, d, w.ops[o], x);
        GotSame(log.received, g, d, w.ops[o], x);
      }
    }
  }

  lemma {:induction false} TakeKnown<T>(w: World<T>, c: nat, getter: Waiter, d: nat)
    requires Good(w) && InRange(w, c) && CanTake(w.chans[c]) && Receiver(w, c, getter) && RecordedBut(w, getter)
      && d < |w.logs|
    requires forall e :: e in w.chans[c].senders ==>
      e.who.Case? && e.who.op < |w.ops|
      && Queued(w.ops, e.who, SendTo(c, e.value))
    ensures var w' := Take(w, c, getter); Known(w'.logs[d].accepted, w'.ops) && Known(w'.logs[d].received, w'.ops)
  {
    var w', log := Take(w, c, getter), w.logs[d];
    assert Known(log.accepted, w.ops) && Known(log.received, w.ops);
  }

  /** A receive that gets a value keeps the accounts. */
  lemma {:induction false} TakeRecorded<T>(w: World<T>, c: nat, getter: Waiter)
    requires Good(w) && InRange(w, c) && CanTake(w.chans[c]) && Receiver(w, c, getter) && RecordedBut(w, getter)
    ensures forall e :: e in w.chans[c].senders ==> e.who.Case? && e.who.op < |w.ops|
    ensures Recorded(Take(w, c, getter))
  {
    assert ChanOk(w, c);
    var w', q := Take(w, c, getter), w.chans[c].senders;
    forall d, o, j | 0 <= d < |w'.logs| && 0 <= o < |w'.ops| && 0 <= j < |w'.ops[o].cases|
      ensures RecordedAt(w', d, o, j) {
      if q == [] { PopRecordedAt(w, c, getter, d, o, j); } else { AdmitRecordedAt(w, c, getter, q[0], d, o, j); }
    }
    forall d | 0 <= d < |w'.logs| ensures Known(w'.logs[d].accepted, w'.ops) && Known(w'.logs[d].received, w'.ops) {
      TakeKnown(w, c, getter, d);
    }
  }

  // ---- The other transitions -----------------------------------------------

  lemma {:induction false} EndRecorded<T>(w: World<T>, c: nat, r: Waiter)
    requires Good(w) && Recorded(w) && InRange(w, c) && r.Case? && r.op < |w.ops| && Queued(w.ops, r, ReceiveFrom(c))
    ensures Recorded(Win(w, r.op, r.index, None))
  {
    var w' := Win(w, r.op, r.index, None);
    assert OpOk(w.ops[r.op]);
    forall d, o, j | 0 <= d < |w'.logs| && 0 <= o < |w'.ops| && 0 <= j < |w'.ops[o].cases|
      ensures RecordedAt(w', d, o, j) {
      assert RecordedAt(w, d, o, j);
      var log := w.logs[d];
      assert log.accepted + [] == log.accepted;
      if o == r.op {
        SentWin(log.accepted, [], o, r.index, d, w.ops[o], w'.ops[o], j);
        GotNothing(log.received, Case(o, j));
      } else {
        SentSame(log.accepted, [], r.op, Some(r.index), d, w.ops[o], Case(o, j));
      }
    }
    forall d | 0 <= d < |w'.logs| ensures Known(w'.logs[d].accepted, w'.ops) && Known(w'.logs[d].received, w'.ops) {
      assert Known(w.logs[d].accepted, w.ops) && Known(w.logs[d].received, w.ops);
    }
  }

  lemma {:induction false} EndAllRecorded<T>(w: World<T>, c: nat)
    requires Good(w) && Recorded(w) && InRange(w, c)
    requires forall r :: r in w.chans[c].receivers ==> r.Case? && r.op < |w.ops|
    ensures Recorded(EndAll(w, c))
    decreases |w.chans[c].receivers|
  {
    var q := w.chans[c].receivers;
    if q != [] {
      assert ChanOk(w, c) && q[0] in q;
      EndRecorded(w, c, q[0]);
      EndGood(w, c, q[0]);
      RestWShorter(q, q[0].op);
      EndAllRecorded(Win(w, q[0].op, q[0].index, None), c);
    }
  }

  lemma {:induction false} CloseRecorded<T>(w: World<T>, c: nat)
    requires Good(w) && Recorded(w) && InRange(w, c)
    requires forall r :: r in w.chans[c].receivers ==> r.Case? && r.op < |w.ops|
    ensures Recorded(Close(w, c))
  {
    EndAllRecorded(w, c);
    SameLogs(EndAll(w, c), Close(w, c), Direct);
  }

  lemma {:induction false} SameLogs<T>(w: World<T>, w': World<T>, x: Waiter)
    requires RecordedBut(w, x) && w'.ops == w.ops && w'.logs == w.logs
    ensures RecordedBut(w', x)
  {
    forall d, o, j | 0 <= d < |w'.logs| && 0 <= o < |w'.ops| && 0 <= j < |w'.ops[o].cases| && Case(o, j) != x
      ensures RecordedAt(w', d, o, j) {
      assert RecordedAt(w, d, o, j);
    }
  }

  lemma {:induction false} DropRecorded<T>(w: World<T>, o: nat)
    requires Good(w) && Recorded(w) && o < |w.ops| && w.ops[o].phase.Waiting?
    ensures Recorded(Drop(w, o))
  {
    var w' := Drop(w, o);
    assert OpOk(w.ops[o]);
    forall d, p, j | 0 <= d < |w'.logs| && 0 <= p < |w'.ops| && 0 <= j < |w'.ops[p].cases|
      ensures RecordedAt(w', d, p, j) {
      assert RecordedAt(w, d, p, j);
      var log := w.logs[d];
      assert log.accepted + [] == log.accepted;
      if p == o {
        TimesLosers(log.accepted, o, None, Case(o, j));
        GotNothing(log.received, Case(o, j));
      } else {
        SentSame(log.accepted, [], o, None, d, w.ops[p], Case(p, j));
      }
    }
    forall d | 0 <= d < |w'.logs| ensures Known(w'.logs[d].accepted, w'.ops) && Known(w'.logs[d].received, w'.ops) {
      assert Known(w.logs[d].accepted, w.ops) && Known(w.logs[d].received, w.ops);
    }
  }

  /** A new operation, not yet in any history. */
  lemma {:induction false} NewOpRecorded<T>(w: World<T>, op: Op<T>, k: nat)
    requires Recorded(w) && OpOk(op) && op.winner == Some(k)
    ensures RecordedBut(w.(ops := w.ops + [op]), Case(|w.ops|, k))
  {
    var w', x := w.(ops := w.ops + [op]), Case(|w.ops|, k);
    forall d | 0 <= d < |w'.logs| ensures Known(w'.logs[d].accepted, w'.ops) && Known(w'.logs[d].received, w'.ops)
      && Absent(w'.logs[d], x) {
      assert Known(w.logs[d].accepted, w.ops) && Known(w.logs[d].received, w.ops);
    }
    forall d, o, j | 0 <= d < |w'.logs| && 0 <= o < |w'.ops| && 0 <= j < |w'.ops[o].cases| && Case(o, j) != x
      ensures RecordedAt(w', d, o, j) {
      if o < |w.ops| {
        assert RecordedAt(w, d, o, j);
      } else {
        assert Known(w.logs[d].accepted, w.ops) && Known(w.logs[d].received, w.ops);
        TimesAbsent(w.logs[d].accepted, Case(o, j));
        TimesAbsent(w.logs[d].received, Case(o, j));
      }
    }
  }

  /** The same when the case that took effect moved no value. */
  lemma {:induction false} NewOpNoValue<T>(w: World<T>, op: Op<T>, k: nat)
    requires Recorded(w) && OpOk(op) && op.winner == Some(k) && !op.cases[k].SendTo?
    requires op.cases[k].ReceiveFrom? ==> op.regs[k].output == Some(None)
    ensures Recorded(w.(ops := w.ops + [op]))
  {
    NewOpRecorded(w, op, k);
    var w', x := w.(ops := w.ops + [op]), Case(|w.ops|, k);
    forall d, o, j | 0 <= d < |w'.logs| && 0 <= o < |w'.ops| && 0 <= j < |w'.ops[o].cases|
      ensures RecordedAt(w', d, o, j) {
      if Case(o, j) == x {
        assert Absent(w'.logs[d], x);
        TimesAbsent(w.logs[d].accepted, x);
        TimesAbsent(w.logs[d].received, x);
      }
    }
  }

  lemma {:induction false} CommitRecorded<T>(w: World<T>, cases: seq<Request<T>>, k: nat)
    requires Good(w) && Recorded(w) && k < |cases| && CanCommit(w, cases[k])
    ensures Recorded(Commit(w, cases, k))
  {
    var takes := cases[k].ReceiveFrom? && CanTake(w.chans[cases[k].ch]);
    var out := if takes then Some(Next(w.chans[cases[k].ch])) else None;
    var op, x := Immediate(cases, k, out), Case(|w.ops|, k);
    ImmediateOk(cases, k, out);
    NewOpGood(w, op);
    NewOpRecorded(w, op, k);
    var w1 := w.(ops := w.ops + [op]);
    if cases[k].SendTo? {
      AcceptRecorded(w1, cases[k].ch, x, cases[k].value);
    } else if out.Some? {
      TakeRecorded(w1, cases[k].ch, x);
    } else {
      NewOpNoValue(w, op, k);
    }
  }

  lemma {:induction false} OfferedOnce<T>(o: nat, cases: seq<Request<T>>, n: nat, c: nat, j: nat)
    requires n <= |cases| && j < |cases|
    ensures Times(OffersTo(o, cases, n, c), Case(o, j))
      == if j < n && cases[j].SendTo? && cases[j].ch == c then 1 else 0
  {
    if n > 0 {
      OfferedOnce(o, cases, n - 1, c, j);
      if cases[n - 1].SendTo? && cases[n - 1].ch == c {
        TimesSplit(OffersTo(o, cases, n - 1, c), [Entry(Case(o, n - 1), cases[n - 1].value)], Case(o, j));
      }
    }
  }

  lemma {:induction false} ArmRecorded<T>(w: World<T>, cases: seq<Request<T>>)
    requires Good(w) && Recorded(w)
    ensures Recorded(Arm(w, cases))
  {
    var w', p := Arm(w, cases), |w.ops|;
    forall d | 0 <= d < |w'.logs| ensures Known(w'.logs[d].accepted, w'.ops) && Known(w'.logs[d].received, w'.ops) {
      assert Known(w.logs[d].accepted, w.ops) && Known(w.logs[d].received, w.ops);
    }
    forall d, o, j | 0 <= d < |w'.logs| && 0 <= o < |w'.ops| && 0 <= j < |w'.ops[o].cases|
      ensures RecordedAt(w', d, o, j) {
      ArmRecordedAt(w, cases, d, o, j);
    }
  }

  lemma {:induction false} ArmRecordedAt<T>(w: World<T>, cases: seq<Request<T>>, d: nat, o: nat, j: nat)
    requires Good(w) && Recorded(w) && d < |w.logs| && o <= |w.ops| && j < |Arm(w, cases).ops[o].cases|
    ensures RecordedAt(Arm(w, cases), d, o, j)
  {
    var p, log := |w.ops|, w.logs[d];
    var new1 := OffersTo(p, cases, |cases|, d);
    assert Known(log.accepted, w.ops) && Known(log.received, w.ops);
    if o < p {
      assert RecordedAt(w, d, o, j);
      SentAppend(log.accepted, new1, d, w.ops[o], Case(o, j));
    } else {
      TimesAbsent(log.accepted, Case(o, j));
      TimesAbsent(log.received, Case(o, j));
      TimesSplit(log.accepted, new1, Case(o, j));
      OfferedOnce(p, cases, |cases|, d, j);
    }
  }
}
