/**
  Channels and selects of one scheduler, as a state machine.

  An operation is a list of cases: a Select has several, a blocking send or
  receive has one.  A case that waits is queued in its channel under the name
  `Case(op, index)`.
 */
module ChannelModel {
  import opened Options

  /** Who offered a value: a nonblocking send, or a case of an operation. */
  datatype Waiter = Direct | Case(op: nat, index: nat)

  datatype Entry<T> = Entry(who: Waiter, value: T)

  datatype Chan<T> = Chan(capacity: nat, buffer: seq<T>, closed: bool, senders: seq<Entry<T>>, receivers: seq<Waiter>)

  datatype Request<T> = SendTo(ch: nat, value: T) | ReceiveFrom(ch: nat) | Default

  /** One case of an operation; `output` is what a receive delivered, `Some(None)` being the end of the stream. */
  datatype Registration<T> = Registration(active: bool, queued: bool, taken: bool, output: Option<Option<T>>)

  datatype Phase = Arming | Waiting | Scheduled | Gone

  /** `wakeups` counts how often the continuation was scheduled. */
  datatype Op<T> = Op(cases: seq<Request<T>>, regs: seq<Registration<T>>, winner: Option<nat>, phase: Phase,
      wakeups: nat)

  /**
   * History of a channel: the values offered, in order and without those withdrawn, and the values received, with who
   * sent and who got them.
   */
  datatype Log<T> = Log(accepted: seq<Entry<T>>, received: seq<Entry<T>>)

  datatype World<T> = World(chans: seq<Chan<T>>, ops: seq<Op<T>>, logs: seq<Log<T>>)

  // ---- Operations ----------------------------------------------------------

  /** The registrations once case `k` has taken effect. */
  function Outcome<T>(cases: seq<Request<T>>, k: nat, out: Option<T>, i: nat): Registration<T>
    requires i < |cases|
  {
    Registration(false, false, i == k && cases[i].SendTo?, if i == k && cases[i].ReceiveFrom? then Some(out) else None)
  }

  function Outcomes<T>(cases: seq<Request<T>>, k: nat, out: Option<T>): seq<Registration<T>> {
    seq(|cases|, i requires 0 <= i < |cases| => Outcome(cases, k, out, i))
  }

  /** A send takes effect when its value is taken, a receive when its output is set. */
  ghost predicate Effect<T>(q: Request<T>, r: Registration<T>, effective: bool) {
    !r.active && !r.queued && r.taken == (effective && q.SendTo?) && r.output.Some? == (effective && q.ReceiveFrom?)
  }

  /** Exactly case `k` took effect. */
  ghost predicate Settled<T>(op: Op<T>, k: nat) {
    && k < |op.cases| && |op.regs| == |op.cases|
    && forall i :: 0 <= i < |op.regs| ==> Effect(op.cases[i], op.regs[i], i == k)
  }

  /** All cases are queued and none has taken effect. */
  ghost predicate AllQueued<T>(op: Op<T>) {
    && |op.regs| == |op.cases|
    && forall i :: 0 <= i < |op.regs| ==> !op.cases[i].Default? && op.regs[i] == Registration(true, true, false, None)
  }

  ghost predicate NoEffect<T>(op: Op<T>) {
    && |op.regs| == |op.cases|
    && forall i :: 0 <= i < |op.regs| ==> op.regs[i] == Registration(false, false, false, None)
  }

  ghost predicate OpOk<T>(op: Op<T>) {
    match op.phase
    case Arming => op.wakeups == 0 && op.winner.Some? && Settled(op, op.winner.value)
    case Waiting => op.wakeups == 0 && op.winner.None? && AllQueued(op)
    case Scheduled => op.wakeups == 1 && op.winner.Some? && Settled(op, op.winner.value)
    case Gone => op.wakeups == 0 && op.winner.None? && NoEffect(op)
  }

  // ---- Queues --------------------------------------------------------------

  /** A queue without the cases of operation `o`. */
  function Rest<T>(q: seq<Entry<T>>, o: nat): (r: seq<Entry<T>>)
    ensures forall e :: e in r ==> e in q && !(e.who.Case? && e.who.op == o)
    ensures forall e :: e in q ==> (e.who.Case? && e.who.op == o) || e in r
    ensures |r| <= |q|
  {
    if q == [] then []
    else if q[0].who.Case? && q[0].who.op == o then Rest(q[1..], o)
    else [q[0]] + Rest(q[1..], o)
  }

  function RestW(q: seq<Waiter>, o: nat): (r: seq<Waiter>)
    ensures forall e :: e in r ==> e in q && !(e.Case? && e.op == o)
    ensures forall e :: e in q ==> (e.Case? && e.op == o) || e in r
    ensures |r| <= |q|
  {
    if q == [] then []
    else if q[0].Case? && q[0].op == o then RestW(q[1..], o)
    else [q[0]] + RestW(q[1..], o)
  }

  /** A queue without the cases of `o` other than `keep`. */
  function WithoutLosers<T>(q: seq<Entry<T>>, o: nat, keep: Option<nat>): (r: seq<Entry<T>>)
    ensures forall e :: e in r ==> e in q
  {
    if q == [] then []
    else if q[0].who.Case? && q[0].who.op == o && keep != Some(q[0].who.index) then WithoutLosers(q[1..], o, keep)
    else [q[0]] + WithoutLosers(q[1..], o, keep)
  }

  ghost predicate NoDup<A>(q: seq<A>) {
    q != [] ==> q[0] !in q[1..] && NoDup(q[1..])
  }

  function Values<T>(q: seq<Entry<T>>): (vs: seq<T>)
    ensures |vs| == |q|
  {
    if q == [] then [] else [q[0].value] + Values(q[1..])
  }

  function Evict<T>(ch: Chan<T>, o: nat): Chan<T> {
    ch.(senders := Rest(ch.senders, o), receivers := RestW(ch.receivers, o))
  }

  function EvictAll<T>(chans: seq<Chan<T>>, o: nat): seq<Chan<T>> {
    seq(|chans|, c requires 0 <= c < |chans| => Evict(chans[c], o))
  }

  function WithdrawAll<T>(logs: seq<Log<T>>, o: nat, keep: Option<nat>): seq<Log<T>> {
    seq(|logs|, c requires 0 <= c < |logs| => logs[c].(accepted := WithoutLosers(logs[c].accepted, o, keep)))
  }

  // ---- Invariant -----------------------------------------------------------

  /** Case `i` of `o` waits on channel `c` with request `q`. */
  ghost predicate Queued<T>(ops: seq<Op<T>>, who: Waiter, q: Request<T>) {
    && who.Case? && who.op < |ops| && ops[who.op].phase.Waiting?
    && who.index < |ops[who.op].cases| && ops[who.op].cases[who.index] == q
  }

  /** Capacity, and who may wait: the waiters on both sides of a channel belong to one operation. */
  ghost predicate Exclusive<T>(ch: Chan<T>) {
    && |ch.buffer| <= ch.capacity
    && (ch.senders != [] ==> |ch.buffer| == ch.capacity && !ch.closed)
    && (ch.receivers != [] ==> ch.buffer == [] && !ch.closed)
    && (forall e, r :: e in ch.senders && r in ch.receivers ==> e.who.Case? && r.Case? && e.who.op == r.op)
  }

  ghost predicate Consistent<T>(ch: Chan<T>, c: nat, ops: seq<Op<T>>) {
    && NoDup(ch.senders) && NoDup(ch.receivers)
    && (forall e :: e in ch.senders ==> Queued(ops, e.who, SendTo(c, e.value)))
    && (forall r :: r in ch.receivers ==> Queued(ops, r, ReceiveFrom(c)))
  }

  ghost predicate Final<T>(ops: seq<Op<T>>, who: Waiter) {
    who.Direct? || (who.op < |ops| && ops[who.op].winner == Some(who.index))
  }

  /** First come, first served: what was accepted is what was received, then the buffer, then the waiting senders. */
  ghost predicate Ordered<T>(ch: Chan<T>, log: Log<T>, ops: seq<Op<T>>) {
    && |ch.senders| <= |log.accepted|
    && var n := |log.accepted| - |ch.senders|;
       && log.accepted[n..] == ch.senders
       && Values(log.accepted[..n]) == Values(log.received) + ch.buffer
       && forall e :: e in log.accepted[..n] ==> Final(ops, e.who)
  }

  ghost predicate Listed<T>(chans: seq<Chan<T>>, who: Waiter, q: Request<T>) {
    match q
    case SendTo(c, v) => c < |chans| && Entry(who, v) in chans[c].senders
    case ReceiveFrom(c) => c < |chans| && who in chans[c].receivers
    case Default => true
  }

  ghost predicate Armed<T>(chans: seq<Chan<T>>, op: Op<T>, o: nat) {
    op.phase.Waiting? ==> forall i :: 0 <= i < |op.cases| ==> Listed(chans, Case(o, i), op.cases[i])
  }

  ghost predicate ChanOk<T>(w: World<T>, c: nat)
    requires c < |w.chans| == |w.logs|
  {
    Exclusive(w.chans[c]) && Consistent(w.chans[c], c, w.ops) && Ordered(w.chans[c], w.logs[c], w.ops)
  }

  ghost predicate Good<T>(w: World<T>) {
    && |w.logs| == |w.chans|
    && (forall o :: 0 <= o < |w.ops| ==> OpOk(w.ops[o]) && Armed(w.chans, w.ops[o], o))
    && (forall c :: 0 <= c < |w.chans| ==> ChanOk(w, c))
  }

  // ---- Transitions ---------------------------------------------------------

  /** Case `k` wins: the continuation of a waiting operation is scheduled. */
  function Complete<T>(op: Op<T>, k: nat, out: Option<T>): Op<T> {
    op.(regs := Outcomes(op.cases, k, out), winner := Some(k),
        phase := if op.phase.Waiting? then Scheduled else op.phase,
        wakeups := op.wakeups + if op.phase.Waiting? then 1 else 0)
  }

  /** Case `k` of operation `o` wins and all its registrations leave the queues. */
  function Win<T>(w: World<T>, o: nat, k: nat, out: Option<T>): World<T>
    requires o < |w.ops|
  {
    World(EvictAll(w.chans, o), w.ops[o := Complete(w.ops[o], k, out)], WithdrawAll(w.logs, o, Some(k)))
  }

  ghost predicate InRange<T>(w: World<T>, c: nat) {
    c < |w.chans| == |w.logs|
  }

  predicate CanAccept<T>(ch: Chan<T>) {
    !ch.closed && (ch.receivers != [] || |ch.buffer| < ch.capacity)
  }

  /** A send that need not wait: the value goes to the first receiver or into the buffer. */
  ghost function Accept<T>(w: World<T>, c: nat, who: Waiter, v: T): World<T>
    requires InRange(w, c) && CanAccept(w.chans[c])
    requires forall r :: r in w.chans[c].receivers ==> r.Case? && r.op < |w.ops|
  {
    var ch, log := w.chans[c], w.logs[c];
    var accepted := log.accepted + [Entry(who, v)];
    if ch.receivers != [] then
      var r := ch.receivers[0];
      Win(w.(logs := w.logs[c := Log(accepted, log.received + [Entry(r, v)])]), r.op, r.index, Some(v))
    else
      w.(chans := w.chans[c := ch.(buffer := ch.buffer + [v])], logs := w.logs[c := log.(accepted := accepted)])
  }

  predicate CanTake<T>(ch: Chan<T>) {
    ch.buffer != [] || ch.senders != []
  }

  /** The value the next receive gets. */
  function Next<T>(ch: Chan<T>): T
    requires CanTake(ch)
  {
    if ch.buffer != [] then ch.buffer[0] else ch.senders[0].value
  }

  /** A receive that gets a value: the first waiting sender moves up into the buffer. */
  ghost function Take<T>(w: World<T>, c: nat, getter: Waiter): World<T>
    requires InRange(w, c) && CanTake(w.chans[c])
    requires forall e :: e in w.chans[c].senders ==> e.who.Case? && e.who.op < |w.ops|
  {
    var ch, log := w.chans[c], w.logs[c];
    var w1 := w.(logs := w.logs[c := log.(received := log.received + [Entry(getter, Next(ch))])]);
    if ch.senders == [] then
      w1.(chans := w.chans[c := ch.(buffer := ch.buffer[1..])])
    else
      var e := ch.senders[0];
      Win(w1.(chans := w.chans[c := ch.(buffer := (ch.buffer + [e.value])[1..])]), e.who.op, e.who.index, None)
  }

  // ---- Filtering -----------------------------------------------------------

  lemma {:induction false} LosersSplit<T>(a: seq<Entry<T>>, b: seq<Entry<T>>, o: nat, keep: Option<nat>)
    ensures WithoutLosers(a + b, o, keep) == WithoutLosers(a, o, keep) + WithoutLosers(b, o, keep)
  {
    if a == [] {
      assert a + b == b;
    } else {
      assert (a + b)[0] == a[0] && (a + b)[1..] == a[1..] + b;
      LosersSplit(a[1..], b, o, keep);
    }
  }

  lemma {:induction false} NoLosers<T>(q: seq<Entry<T>>, o: nat, keep: Option<nat>)
    requires forall e :: e in q ==> !(e.who.Case? && e.who.op == o && keep != Some(e.who.index))
    ensures WithoutLosers(q, o, keep) == q
  {
    if q != [] {
      assert q[0] in q;
      NoLosers(q[1..], o, keep);
      assert [q[0]] + q[1..] == q;
    }
  }

  lemma {:induction false} OnlyLosers<T>(q: seq<Entry<T>>, o: nat, keep: Option<nat>)
    requires forall e :: e in q ==> !(e.who.Case? && e.who.op == o && keep == Some(e.who.index))
    ensures WithoutLosers(q, o, keep) == Rest(q, o)
  {
    if q != [] {
      assert q[0] in q;
      OnlyLosers(q[1..], o, keep);
    }
  }

  lemma {:induction false} RestAll<T>(q: seq<Entry<T>>, o: nat)
    requires forall e :: e in q ==> e.who.Case? && e.who.op == o
    ensures Rest(q, o) == []
  {
    if q != [] { RestAll(q[1..], o); }
  }

  lemma {:induction false} RestNoDup<T>(q: seq<Entry<T>>, o: nat)
    requires NoDup(q)
    ensures NoDup(Rest(q, o))
  {
    if q != [] {
      RestNoDup(q[1..], o);
      if !(q[0].who.Case? && q[0].who.op == o) {
        assert Rest(q, o)[1..] == Rest(q[1..], o);
      }
    }
  }

  lemma {:induction false} RestWNoDup(q: seq<Waiter>, o: nat)
    requires NoDup(q)
    ensures NoDup(RestW(q, o))
  {
    if q != [] {
      RestWNoDup(q[1..], o);
      if !(q[0].Case? && q[0].op == o) {
        assert RestW(q, o)[1..] == RestW(q[1..], o);
      }
    }
  }

  lemma {:induction false} ValuesSplit<T>(a: seq<Entry<T>>, b: seq<Entry<T>>)
    ensures Values(a + b) == Values(a) + Values(b)
  {
    if a == [] {
      assert a + b == b;
    } else {
      assert (a + b)[0] == a[0] && (a + b)[1..] == a[1..] + b;
      ValuesSplit(a[1..], b);
    }
  }

  // ---- What a win keeps ----------------------------------------------------

  /** Operation `o` stops waiting; everybody else stays. */
  ghost predicate Retired<T>(ops: seq<Op<T>>, ops': seq<Op<T>>, o: nat) {
    && o < |ops| == |ops'| && ops[o].phase.Waiting? && !ops'[o].phase.Waiting? && ops[o].winner.None?
    && forall i :: 0 <= i < |ops| && i != o ==> ops'[i] == ops[i]
  }

  lemma {:induction false} EvictConsistent<T>(ch: Chan<T>, c: nat, ops: seq<Op<T>>, ops': seq<Op<T>>, o: nat)
    requires Exclusive(ch) && Consistent(ch, c, ops) && Retired(ops, ops', o)
    ensures Exclusive(Evict(ch, o)) && Consistent(Evict(ch, o), c, ops')
  {
    RestNoDup(ch.senders, o);
    RestWNoDup(ch.receivers, o);
  }

  /** `past` is the part of the accepted values that no longer waits. */
  ghost predicate OrderedAt<T>(ch: Chan<T>, log: Log<T>, ops: seq<Op<T>>, past: seq<Entry<T>>) {
    && log.accepted == past + ch.senders && Values(past) == Values(log.received) + ch.buffer
    && forall e :: e in past ==> Final(ops, e.who)
  }

  lemma {:induction false} OrderedSplit<T>(ch: Chan<T>, log: Log<T>, ops: seq<Op<T>>) returns (past: seq<Entry<T>>)
    requires Ordered(ch, log, ops)
    ensures OrderedAt(ch, log, ops, past)
  {
    past := log.accepted[..|log.accepted| - |ch.senders|];
  }

  lemma {:induction false} OrderedJoin<T>(ch: Chan<T>, log: Log<T>, ops: seq<Op<T>>, past: seq<Entry<T>>)
    requires OrderedAt(ch, log, ops, past)
    ensures Ordered(ch, log, ops)
  {
    assert log.accepted[..|past|] == past && log.accepted[|past|..] == ch.senders;
  }

  lemma {:induction false} EvictOrdered<T>(ch: Chan<T>, log: Log<T>, ops: seq<Op<T>>, ops': seq<Op<T>>, o: nat,
      keep: Option<nat>)
    requires Ordered(ch, log, ops) && Retired(ops, ops', o)
    requires forall e :: e in ch.senders ==> !(e.who.Case? && e.who.op == o && keep == Some(e.who.index))
    ensures Ordered(Evict(ch, o), log.(accepted := WithoutLosers(log.accepted, o, keep)), ops')
  {
    var past := OrderedSplit(ch, log, ops);
    PastStays(past, ops, ops', o);
    LosersSplit(past, ch.senders, o, keep);
    NoLosers(past, o, keep);
    OnlyLosers(ch.senders, o, keep);
    OrderedJoin(Evict(ch, o), log.(accepted := WithoutLosers(log.accepted, o, keep)), ops', past);
  }

  /** A waiting operation owns nothing that was passed on. */
  lemma {:induction false} PastStays<T>(past: seq<Entry<T>>, ops: seq<Op<T>>, ops': seq<Op<T>>, o: nat)
    requires Retired(ops, ops', o) && forall e :: e in past ==> Final(ops, e.who)
    ensures forall e :: e in past ==> Final(ops', e.who) && !(e.who.Case? && e.who.op == o)
  {
  }

  /** The head of the sender queue wins: it moves from the waiting values to the buffered ones. */
  lemma {:induction false} AdmitOrdered<T>(ch: Chan<T>, log: Log<T>, ops: seq<Op<T>>, ops': seq<Op<T>>, e: Entry<T>,
      rest: seq<Entry<T>>)
    requires Ordered(ch, log, ops) && ch.senders == [e] + rest && e.who.Case?
    requires Retired(ops, ops', e.who.op) && ops'[e.who.op].winner == Some(e.who.index)
    requires forall x :: x in rest ==> x.who != e.who
    ensures Ordered(Evict(ch, e.who.op).(buffer := ch.buffer + [e.value]),
                    log.(accepted := WithoutLosers(log.accepted, e.who.op, Some(e.who.index))), ops')
  {
    var o, keep := e.who.op, Some(e.who.index);
    var past := OrderedSplit(ch, log, ops);
    PastStays(past, ops, ops', o);
    AdmitAccepted(log.accepted, past, e, rest, keep);
    AdmitValues(past, log.received, ch.buffer, e);
    RestHead(e, rest);
    OrderedJoin(Evict(ch, o).(buffer := ch.buffer + [e.value]), log.(accepted := WithoutLosers(log.accepted, o, keep)),
      ops', past + [e]);
  }

  lemma {:induction false} AdmitAccepted<T>(accepted: seq<Entry<T>>, past: seq<Entry<T>>, e: Entry<T>,
      rest: seq<Entry<T>>, keep: Option<nat>)
    requires accepted == past + ([e] + rest) && e.who.Case? && keep == Some(e.who.index)
    requires forall x :: x in past ==> !(x.who.Case? && x.who.op == e.who.op)
    requires forall x :: x in rest ==> x.who != e.who
    ensures WithoutLosers(accepted, e.who.op, keep) == (past + [e]) + Rest(rest, e.who.op)
  {
    assert accepted == (past + [e]) + rest;
    LosersSplit(past + [e], rest, e.who.op, keep);
    NoLosers(past + [e], e.who.op, keep);
    OnlyLosers(rest, e.who.op, keep);
  }

  lemma {:induction false} AdmitValues<T>(past: seq<Entry<T>>, received: seq<Entry<T>>, buffer: seq<T>, e: Entry<T>)
    requires Values(past) == Values(received) + buffer
    ensures Values(past + [e]) == Values(received) + (buffer + [e.value])
  {
    ValuesSplit(past, [e]);
    assert Values([e]) == [e.value];
  }

  lemma {:induction false} RestHead<T>(e: Entry<T>, rest: seq<Entry<T>>)
    requires e.who.Case?
    ensures Rest([e] + rest, e.who.op) == Rest(rest, e.who.op)
  {
    assert ([e] + rest)[1..] == rest;
  }

  lemma {:induction false} EvictArmed<T>(chans: seq<Chan<T>>, op: Op<T>, i: nat, o: nat)
    requires Armed(chans, op, i) && i != o
    ensures Armed(EvictAll(chans, o), op, i)
  {
    var chans' := EvictAll(chans, o);
    if op.phase.Waiting? {
      forall j | 0 <= j < |op.cases| ensures Listed(chans', Case(i, j), op.cases[j]) {
        assert Listed(chans, Case(i, j), op.cases[j]);
      }
    }
  }

  lemma {:induction false} CompleteOk<T>(op: Op<T>, k: nat, out: Option<T>)
    requires OpOk(op) && op.phase.Waiting? && k < |op.cases|
    ensures OpOk(Complete(op, k, out))
  {
  }

  /** The operations after a win. */
  lemma {:induction false} WinOps<T>(w: World<T>, o: nat, k: nat, out: Option<T>)
    requires Good(w) && o < |w.ops| && w.ops[o].phase.Waiting? && k < |w.ops[o].cases|
    ensures var w' := Win(w, o, k, out);
      && Retired(w.ops, w'.ops, o) && w'.ops[o].winner == Some(k)
      && forall i :: 0 <= i < |w'.ops| ==> OpOk(w'.ops[i]) && Armed(w'.chans, w'.ops[i], i)
  {
    CompleteOk(w.ops[o], k, out);
    var w' := Win(w, o, k, out);
    forall i | 0 <= i < |w'.ops| ensures OpOk(w'.ops[i]) && Armed(w'.chans, w'.ops[i], i) {
      if i != o { EvictArmed(w.chans, w.ops[i], i, o); }
    }
  }

  /** A channel whose queues do not hold the winner itself. */
  lemma {:induction false} WinElsewhere<T>(w: World<T>, o: nat, k: nat, ops': seq<Op<T>>, d: nat)
    requires d < |w.chans| == |w.logs| && ChanOk(w, d) && Retired(w.ops, ops', o) && k < |w.ops[o].cases|
    requires !(w.ops[o].cases[k].SendTo? && w.ops[o].cases[k].ch == d)
    ensures var w' := World(EvictAll(w.chans, o), ops', WithdrawAll(w.logs, o, Some(k)));
      ChanOk(w', d)
  {
    var ch := w.chans[d];
    EvictConsistent(ch, d, w.ops, ops', o);
    forall e | e in ch.senders ensures !(e.who.Case? && e.who.op == o && e.who.index == k) {
      assert Queued(w.ops, e.who, SendTo(d, e.value));
    }
    EvictOrdered(ch, w.logs[d], w.ops, ops', o, Some(k));
  }

  // ---- Sends and receives that need not wait keep the invariant ------------

  /** The receiver side of a hand-off: `v` passes through the channel. */
  lemma {:induction false} HandOffOrdered<T>(ch: Chan<T>, log: Log<T>, ops: seq<Op<T>>, who: Waiter, v: T, r: Waiter)
    requires Ordered(ch, log, ops) && ch.senders == [] && ch.buffer == [] && Final(ops, who)
    ensures Ordered(ch, Log(log.accepted + [Entry(who, v)], log.received + [Entry(r, v)]), ops)
  {
    PushOrdered(ch, log, ops, who, v);
    PopOrdered(ch.(buffer := ch.buffer + [v]), log.(accepted := log.accepted + [Entry(who, v)]), ops, r);
  }

  lemma {:induction false} PushOrdered<T>(ch: Chan<T>, log: Log<T>, ops: seq<Op<T>>, who: Waiter, v: T)
    requires Ordered(ch, log, ops) && ch.senders == [] && Final(ops, who)
    ensures Ordered(ch.(buffer := ch.buffer + [v]), log.(accepted := log.accepted + [Entry(who, v)]), ops)
  {
    var e := Entry(who, v);
    var past := OrderedSplit(ch, log, ops);
    assert log.accepted == past;
    ValuesSplit(past, [e]);
    assert Values([e]) == [v];
    assert Values(log.received) + (ch.buffer + [v]) == Values(log.received) + ch.buffer + [v];
    OrderedJoin(ch.(buffer := ch.buffer + [v]), log.(accepted := log.accepted + [e]), ops, past + [e]);
  }

  lemma {:induction false} AcceptGood<T>(w: World<T>, c: nat, who: Waiter, v: T)
    requires Good(w) && InRange(w, c) && CanAccept(w.chans[c]) && Final(w.ops, who)
    ensures forall r :: r in w.chans[c].receivers ==> r.Case? && r.op < |w.ops|
    ensures Good(Accept(w, c, who, v))
  {
    assert ChanOk(w, c);
    var ch, log, w' := w.chans[c], w.logs[c], Accept(w, c, who, v);
    if ch.receivers == [] {
      PushOrdered(ch, log, w.ops, who, v);
      PushGood(w, c, ch.buffer + [v], log.(accepted := log.accepted + [Entry(who, v)]));
    } else {
      var r := ch.receivers[0];
      assert r in ch.receivers && Queued(w.ops, r, ReceiveFrom(c));
      HandOffGood(w, c, who, v, r);
    }
  }

  /** The buffer and the history of one channel change, its queues do not. */
  lemma {:induction false} PushGood<T>(w: World<T>, c: nat, buffer: seq<T>, log: Log<T>)
    requires Good(w) && InRange(w, c)
    requires var ch := w.chans[c].(buffer := buffer); Exclusive(ch) && Ordered(ch, log, w.ops)
    ensures Good(w.(chans := w.chans[c := w.chans[c].(buffer := buffer)], logs := w.logs[c := log]))
  {
    assert ChanOk(w, c);
    var w' := w.(chans := w.chans[c := w.chans[c].(buffer := buffer)], logs := w.logs[c := log]);
    forall d | 0 <= d < |w'.chans| ensures ChanOk(w', d) { assert ChanOk(w, d); }
    forall o | 0 <= o < |w'.ops| ensures Armed(w'.chans, w'.ops[o], o) {
      SameQueuesArmed(w.chans, w'.chans, w.ops[o], o);
    }
  }

  lemma {:induction false} SameQueuesArmed<T>(chans: seq<Chan<T>>, chans': seq<Chan<T>>, op: Op<T>, o: nat)
    requires Armed(chans, op, o) && |chans'| == |chans|
    requires forall c :: 0 <= c < |chans| ==>
      chans'[c].senders == chans[c].senders
      && chans'[c].receivers == chans[c].receivers
    ensures Armed(chans', op, o)
  {
    if op.phase.Waiting? {
      forall j | 0 <= j < |op.cases| ensures Listed(chans', Case(o, j), op.cases[j]) {
        assert Listed(chans, Case(o, j), op.cases[j]);
      }
    }
  }

  lemma {:induction false} HandOffGood<T>(w: World<T>, c: nat, who: Waiter, v: T, r: Waiter)
    requires Good(w) && InRange(w, c) && CanAccept(w.chans[c]) && Final(w.ops, who)
    requires w.chans[c].receivers != [] && r == w.chans[c].receivers[0] && Queued(w.ops, r, ReceiveFrom(c))
    requires forall r :: r in w.chans[c].receivers ==> r.Case? && r.op < |w.ops|
    ensures Good(Accept(w, c, who, v))
  {
    var w' := Accept(w, c, who, v);
    WinOps(w, r.op, r.index, Some(v));
    forall d | 0 <= d < |w'.chans| ensures ChanOk(w', d) {
      assert ChanOk(w, d);
      if d == c {
        assert OpOk(w.ops[r.op]);
        HandOffHere(w, c, who, v, r, w'.ops);
      } else {
        WinElsewhere(w, r.op, r.index, w'.ops, d);
      }
    }
  }

  lemma {:induction false} HandOffHere<T>(w: World<T>, c: nat, who: Waiter, v: T, r: Waiter, ops': seq<Op<T>>)
    requires c < |w.chans| == |w.logs| && ChanOk(w, c) && Final(w.ops, who) && r in w.chans[c].receivers
    requires Queued(w.ops, r, ReceiveFrom(c)) && Retired(w.ops, ops', r.op)
    ensures var ch, log, keep := Evict(w.chans[c], r.op), w.logs[c], Some(r.index);
      && Exclusive(ch) && Consistent(ch, c, ops')
      && Ordered(ch, Log(WithoutLosers(log.accepted + [Entry(who, v)], r.op, keep), log.received + [Entry(r, v)]), ops')
  {
    var ch, log, keep := w.chans[c], w.logs[c], Some(r.index);
    WinElsewhere(w, r.op, r.index, ops', c);
    LosersSplit(log.accepted, [Entry(who, v)], r.op, keep);
    NoLosers([Entry(who, v)], r.op, keep);
    RestAll(ch.senders, r.op);
    HandOffOrdered(Evict(ch, r.op), Log(WithoutLosers(log.accepted, r.op, keep), log.received), ops', who, v, r);
  }

  lemma {:induction false} TakeGood<T>(w: World<T>, c: nat, getter: Waiter)
    requires Good(w) && InRange(w, c) && CanTake(w.chans[c])
    ensures forall e :: e in w.chans[c].senders ==> e.who.Case? && e.who.op < |w.ops|
    ensures Good(Take(w, c, getter))
  {
    assert ChanOk(w, c);
    var ch, log, w' := w.chans[c], w.logs[c], Take(w, c, getter);
    if ch.senders == [] {
      PopOrdered(ch, log, w.ops, getter);
      PushGood(w, c, ch.buffer[1..], log.(received := log.received + [Entry(getter, ch.buffer[0])]));
    } else {
      AdmitGood(w, c, ch.senders[0], getter);
    }
  }

  lemma {:induction false} PopOrdered<T>(ch: Chan<T>, log: Log<T>, ops: seq<Op<T>>, getter: Waiter)
    requires Ordered(ch, log, ops) && ch.buffer != []
    ensures Ordered(ch.(buffer := ch.buffer[1..]), log.(received := log.received + [Entry(getter, ch.buffer[0])]), ops)
  {
    var e := Entry(getter, ch.buffer[0]);
    ValuesSplit(log.received, [e]);
    assert Values([e]) == [e.value];
    assert Values(log.received) + ch.buffer == (Values(log.received) + [e.value]) + ch.buffer[1..];
  }

  lemma {:induction false} AdmitGood<T>(w: World<T>, c: nat, e: Entry<T>, getter: Waiter)
    requires Good(w) && InRange(w, c) && w.chans[c].senders != [] && e == w.chans[c].senders[0]
    requires forall e :: e in w.chans[c].senders ==> e.who.Case? && e.who.op < |w.ops|
    ensures Good(Take(w, c, getter))
  {
    assert ChanOk(w, c);
    var w', ch, log := Take(w, c, getter), w.chans[c], w.logs[c];
    var o, k := e.who.op, e.who.index;
    assert e in ch.senders && Queued(w.ops, e.who, SendTo(c, e.value));
    WinOps(w, o, k, None);
    var ch1 := ch.(buffer := (ch.buffer + [e.value])[1..]);
    forall i | 0 <= i < |w'.ops| ensures Armed(w'.chans, w'.ops[i], i) {
      SameQueuesArmed(EvictAll(w.chans, o), w'.chans, w'.ops[i], i);
    }
    forall d | 0 <= d < |w'.chans| ensures ChanOk(w', d) {
      assert ChanOk(w, d);
      if d == c {
        AdmitHere(w, c, e, w'.ops, getter);
      } else {
        WinElsewhere(w, o, k, w'.ops, d);
      }
    }
  }

  lemma {:induction false} AdmitHere<T>(w: World<T>, c: nat, e: Entry<T>, ops': seq<Op<T>>, getter: Waiter)
    requires c < |w.chans| == |w.logs| && ChanOk(w, c) && w.chans[c].senders != [] && e == w.chans[c].senders[0]
    requires e.who.Case? && Retired(w.ops, ops', e.who.op) && ops'[e.who.op].winner == Some(e.who.index)
    ensures var ch, log, all := w.chans[c], w.logs[c], w.chans[c].buffer + [e.value];
      var ch' := Evict(ch, e.who.op).(buffer := all[1..]);
      && Exclusive(ch') && Consistent(ch', c, ops')
      && Ordered(ch', Log(WithoutLosers(log.accepted, e.who.op, Some(e.who.index)),
        log.received + [Entry(getter, all[0])]), ops')
  {
    var ch, rest := w.chans[c], w.chans[c].senders[1..];
    EvictConsistent(ch, c, w.ops, ops', e.who.op);
    forall x | x in rest ensures x.who != e.who {
      assert x in ch.senders && Queued(w.ops, x.who, SendTo(c, x.value)) && Queued(w.ops, e.who, SendTo(c, e.value));
    }
    AdmitOrdered(ch, w.logs[c], w.ops, ops', e, rest);
    PopOrdered(Evict(ch, e.who.op).(buffer := ch.buffer + [e.value]),
               w.logs[c].(accepted := WithoutLosers(w.logs[c].accepted, e.who.op, Some(e.who.index))), ops', getter);
  }

  // ---- Dropping a waiting operation ----------------------------------------

  /** The awaiter of a waiting operation is destroyed: all its registrations are cancelled. */
  ghost function Drop<T>(w: World<T>, o: nat): World<T>
    requires o < |w.ops|
  {
    var op := w.ops[o];
    var gone := op.(regs := seq(|op.cases|, _ => Registration(false, false, false, None)), phase := Gone);
    World(EvictAll(w.chans, o), w.ops[o := gone], WithdrawAll(w.logs, o, None))
  }

  lemma {:induction false} DropGood<T>(w: World<T>, o: nat)
    requires Good(w) && o < |w.ops| && w.ops[o].phase.Waiting?
    ensures Good(Drop(w, o))
  {
    var w' := Drop(w, o);
    assert OpOk(w.ops[o]);
    forall i | 0 <= i < |w'.ops| ensures OpOk(w'.ops[i]) && Armed(w'.chans, w'.ops[i], i) {
      if i != o { EvictArmed(w.chans, w.ops[i], i, o); }
    }
    forall d | 0 <= d < |w'.chans| ensures ChanOk(w', d) {
      assert ChanOk(w, d);
      EvictConsistent(w.chans[d], d, w.ops, w'.ops, o);
      EvictOrdered(w.chans[d], w.logs[d], w.ops, w'.ops, o, None);
    }
  }

  // ---- Closing -------------------------------------------------------------

  /** Completes the receivers of channel `c` one by one with the end of the stream. */
  ghost function EndAll<T>(w: World<T>, c: nat): (w': World<T>)
    requires c < |w.chans| && forall r :: r in w.chans[c].receivers ==> r.Case? && r.op < |w.ops|
    ensures |w'.chans| == |w.chans| && |w'.ops| == |w.ops|
    decreases |w.chans[c].receivers|
  {
    var q := w.chans[c].receivers;
    if q == [] then w else
      assert q[0] in q;
      RestWShorter(q, q[0].op);
      EndAll(Win(w, q[0].op, q[0].index, None), c)
  }

  lemma {:induction false} RestWShorter(q: seq<Waiter>, o: nat)
    requires q != [] && q[0].Case? && q[0].op == o
    ensures |RestW(q, o)| < |q|
  {
  }

  ghost function Close<T>(w: World<T>, c: nat): World<T>
    requires c < |w.chans| && forall r :: r in w.chans[c].receivers ==> r.Case? && r.op < |w.ops|
  {
    var w1 := EndAll(w, c);
    w1.(chans := w1.chans[c := w1.chans[c].(closed := true)])
  }

  /** Completing one receiver with the end of the stream. */
  lemma {:induction false} EndGood<T>(w: World<T>, c: nat, r: Waiter)
    requires Good(w) && InRange(w, c) && r in w.chans[c].receivers
    ensures r.Case? && r.op < |w.ops| && Good(Win(w, r.op, r.index, None))
  {
    assert ChanOk(w, c) && Queued(w.ops, r, ReceiveFrom(c));
    WinOps(w, r.op, r.index, None);
    var w' := Win(w, r.op, r.index, None);
    forall d | 0 <= d < |w'.chans| ensures ChanOk(w', d) {
      assert ChanOk(w, d);
      WinElsewhere(w, r.op, r.index, w'.ops, d);
    }
  }

  lemma {:induction false} EndAllGood<T>(w: World<T>, c: nat)
    requires Good(w) && InRange(w, c)
    requires forall r :: r in w.chans[c].receivers ==> r.Case? && r.op < |w.ops|
    ensures Good(EndAll(w, c)) && EndAll(w, c).chans[c].receivers == []
    ensures w.chans[c].senders == [] ==> EndAll(w, c).chans[c].senders == []
    decreases |w.chans[c].receivers|
  {
    var q := w.chans[c].receivers;
    if q != [] {
      EndGood(w, c, q[0]);
      RestWShorter(q, q[0].op);
      EndAllGood(Win(w, q[0].op, q[0].index, None), c);
    }
  }

  /** Close keeps the invariant and strands no receiver. */
  lemma {:induction false} CloseGood<T>(w: World<T>, c: nat)
    requires Good(w) && InRange(w, c) && w.chans[c].senders == [] && !w.chans[c].closed
    ensures forall r :: r in w.chans[c].receivers ==> r.Case? && r.op < |w.ops|
    ensures Good(Close(w, c)) && Close(w, c).chans[c].receivers == []
  {
    assert ChanOk(w, c);
    EndAllGood(w, c);
    ShutGood(EndAll(w, c), c);
  }

  lemma {:induction false} ShutGood<T>(w: World<T>, c: nat)
    requires Good(w) && InRange(w, c) && w.chans[c].senders == [] && w.chans[c].receivers == []
    ensures Good(w.(chans := w.chans[c := w.chans[c].(closed := true)]))
  {
    var w' := w.(chans := w.chans[c := w.chans[c].(closed := true)]);
    forall d | 0 <= d < |w'.chans| ensures ChanOk(w', d) { assert ChanOk(w, d); }
    forall o | 0 <= o < |w'.ops| ensures OpOk(w'.ops[o]) && Armed(w'.chans, w'.ops[o], o) {
      SameQueuesArmed(w.chans, w'.chans, w.ops[o], o);
    }
  }

  // ---- Starting an operation -----------------------------------------------

  ghost predicate ValidCases<T>(w: World<T>, cases: seq<Request<T>>) {
    forall i :: 0 <= i < |cases| ==> cases[i].Default? || cases[i].ch < |w.chans|
  }

  predicate Ready<T>(chans: seq<Chan<T>>, q: Request<T>)
    requires q.Default? || q.ch < |chans|
  {
    match q
    case SendTo(c, _) => chans[c].closed || chans[c].receivers != [] || |chans[c].buffer| != chans[c].capacity
    case ReceiveFrom(c) => chans[c].closed || chans[c].senders != [] || chans[c].buffer != []
    case Default => false
  }

  /** An operation that completes without waiting. */
  function Immediate<T>(cases: seq<Request<T>>, k: nat, out: Option<T>): Op<T> {
    Op(cases, Outcomes(cases, k, out), Some(k), Arming, 0)
  }

  function WaitingOp<T>(cases: seq<Request<T>>): Op<T> {
    Op(cases, seq(|cases|, _ => Registration(true, true, false, None)), None, Waiting, 0)
  }

  /** A new operation that is not queued anywhere. */
  lemma {:induction false} NewOpGood<T>(w: World<T>, op: Op<T>)
    requires Good(w) && OpOk(op) && !op.phase.Waiting?
    ensures Good(w.(ops := w.ops + [op]))
  {
    var w' := w.(ops := w.ops + [op]);
    forall d | 0 <= d < |w'.chans| ensures ChanOk(w', d) { assert ChanOk(w, d); }
  }

  lemma {:induction false} ImmediateOk<T>(cases: seq<Request<T>>, k: nat, out: Option<T>)
    requires k < |cases|
    ensures OpOk(Immediate(cases, k, out))
  {
  }

  /** Case `k` is ready and takes effect at once; a closed channel refuses sends. */
  ghost predicate CanCommit<T>(w: World<T>, q: Request<T>) {
    match q
    case SendTo(c, _) => InRange(w, c) && CanAccept(w.chans[c])
    case ReceiveFrom(c) => InRange(w, c) && (CanTake(w.chans[c]) || w.chans[c].closed)
    case Default => true
  }

  ghost function Commit<T>(w: World<T>, cases: seq<Request<T>>, k: nat): World<T>
    requires Good(w) && k < |cases| && CanCommit(w, cases[k])
  {
    var o := |w.ops|;
    match cases[k]
    case SendTo(c, v) =>
      var w1 := w.(ops := w.ops + [Immediate(cases, k, None)]);
      ImmediateOk<T>(cases, k, None);
      NewOpGood(w, Immediate(cases, k, None));
      AcceptGood(w1, c, Case(o, k), v);
      Accept(w1, c, Case(o, k), v)
    case ReceiveFrom(c) =>
      if CanTake(w.chans[c]) then
        var out := Some(Next(w.chans[c]));
        var w1 := w.(ops := w.ops + [Immediate(cases, k, out)]);
        ImmediateOk(cases, k, out);
        NewOpGood(w, Immediate(cases, k, out));
        TakeGood(w1, c, Case(o, k));
        Take(w1, c, Case(o, k))
      else
        w.(ops := w.ops + [Immediate(cases, k, None)])
    case Default =>
      w.(ops := w.ops + [Immediate(cases, k, None)])
  }

  lemma {:induction false} CommitGood<T>(w: World<T>, cases: seq<Request<T>>, k: nat)
    requires Good(w) && k < |cases| && CanCommit(w, cases[k])
    ensures Good(Commit(w, cases, k))
  {
    var takes := cases[k].ReceiveFrom? && CanTake(w.chans[cases[k].ch]);
    var out := if takes then Some(Next(w.chans[cases[k].ch])) else None;
    var op := Immediate(cases, k, out);
    ImmediateOk(cases, k, out);
    NewOpGood(w, op);
    var w1 := w.(ops := w.ops + [op]);
    match cases[k]
    case SendTo(c, v) => AcceptGood(w1, c, Case(|w.ops|, k), v);
    case ReceiveFrom(c) => if CanTake(w.chans[c]) { TakeGood(w1, c, Case(|w.ops|, k)); }
    case Default =>
  }

  /** The sends, and the receives, of the first `n` cases that go to channel `c`. */
  function OffersTo<T>(o: nat, cases: seq<Request<T>>, n: nat, c: nat): (r: seq<Entry<T>>)
    requires n <= |cases|
    ensures forall e :: e in r ==>
      e.who.Case? && e.who.op == o && e.who.index < n
      && cases[e.who.index] == SendTo(c, e.value)
  {
    if n == 0 then []
    else if cases[n - 1].SendTo? && cases[n - 1].ch == c then
      OffersTo(o, cases, n - 1, c) + [Entry(Case(o, n - 1), cases[n - 1].value)]
    else OffersTo(o, cases, n - 1, c)
  }

  function WantsFrom<T>(o: nat, cases: seq<Request<T>>, n: nat, c: nat): (r: seq<Waiter>)
    requires n <= |cases|
    ensures forall e :: e in r ==> e.Case? && e.op == o && e.index < n && cases[e.index] == ReceiveFrom(c)
  {
    if n == 0 then []
    else if cases[n - 1] == ReceiveFrom(c) then WantsFrom(o, cases, n - 1, c) + [Case(o, n - 1)]
    else WantsFrom(o, cases, n - 1, c)
  }

  function Enlist<T>(ch: Chan<T>, o: nat, cases: seq<Request<T>>, n: nat, c: nat): Chan<T>
    requires n <= |cases|
  {
    ch.(senders := ch.senders + OffersTo(o, cases, n, c), receivers := ch.receivers + WantsFrom(o, cases, n, c))
  }

  /** No case can go ahead: all of them are queued, in order. */
  ghost function Arm<T>(w: World<T>, cases: seq<Request<T>>): World<T> {
    var o, n := |w.ops|, |cases|;
    World(seq(|w.chans|, c requires 0 <= c < |w.chans| => Enlist(w.chans[c], o, cases, n, c)),
          w.ops + [WaitingOp(cases)],
          seq(|w.logs|, c requires 0 <= c < |w.logs| =>
            w.logs[c].(accepted := w.logs[c].accepted + OffersTo(o, cases, n, c))))
  }

  ghost predicate MustWait<T>(w: World<T>, cases: seq<Request<T>>) {
    forall i :: 0 <= i < |cases| ==> !cases[i].Default? && cases[i].ch < |w.chans| && !Ready(w.chans, cases[i])
  }

  lemma {:induction false} NoDupJoin<A>(a: seq<A>, b: seq<A>)
    requires NoDup(a) && NoDup(b) && forall x :: x in a ==> x !in b
    ensures NoDup(a + b)
  {
    if a == [] {
      assert a + b == b;
    } else {
      assert (a + b)[0] == a[0] && (a + b)[1..] == a[1..] + b;
      NoDupJoin(a[1..], b);
    }
  }

  lemma {:induction false} NewNoDup<T>(o: nat, cases: seq<Request<T>>, n: nat, c: nat)
    requires n <= |cases|
    ensures NoDup(OffersTo(o, cases, n, c)) && NoDup(WantsFrom(o, cases, n, c))
  {
    if n > 0 {
      NewNoDup(o, cases, n - 1, c);
      if cases[n - 1].SendTo? && cases[n - 1].ch == c {
        NoDupJoin(OffersTo(o, cases, n - 1, c), [Entry(Case(o, n - 1), cases[n - 1].value)]);
      } else if cases[n - 1] == ReceiveFrom(c) {
        NoDupJoin(WantsFrom(o, cases, n - 1, c), [Case(o, n - 1)]);
      }
    }
  }

  lemma {:induction false} NewListed<T>(o: nat, cases: seq<Request<T>>, n: nat, i: nat)
    requires i < n <= |cases| && !cases[i].Default?
    ensures cases[i].SendTo? ==> Entry(Case(o, i), cases[i].value) in OffersTo(o, cases, n, cases[i].ch)
    ensures cases[i].ReceiveFrom? ==> Case(o, i) in WantsFrom(o, cases, n, cases[i].ch)
  {
    if i < n - 1 { NewListed(o, cases, n - 1, i); }
  }

  lemma {:induction false} ArmConsistent<T>(w: World<T>, cases: seq<Request<T>>, c: nat)
    requires Good(w) && MustWait(w, cases) && InRange(w, c)
    ensures Consistent(Enlist(w.chans[c], |w.ops|, cases, |cases|, c), c, w.ops + [WaitingOp(cases)])
  {
    assert ChanOk(w, c);
    NewNoDup(|w.ops|, cases, |cases|, c);
    ArmSenders(w, cases, c);
    ArmReceivers(w, cases, c);
  }

  lemma {:induction false} ArmSenders<T>(w: World<T>, cases: seq<Request<T>>, c: nat)
    requires c < |w.chans| && Consistent(w.chans[c], c, w.ops) && NoDup(OffersTo(|w.ops|, cases, |cases|, c))
    ensures var q := w.chans[c].senders + OffersTo(|w.ops|, cases, |cases|, c);
      NoDup(q) && forall e :: e in q ==> Queued(w.ops + [WaitingOp(cases)], e.who, SendTo(c, e.value))
  {
    var q, new1, ops' := w.chans[c].senders, OffersTo(|w.ops|, cases, |cases|, c), w.ops + [WaitingOp(cases)];
    forall e | e in q ensures e !in new1 && Queued(ops', e.who, SendTo(c, e.value)) {
      assert Queued(w.ops, e.who, SendTo(c, e.value));
    }
    NoDupJoin(q, new1);
  }

  lemma {:induction false} ArmReceivers<T>(w: World<T>, cases: seq<Request<T>>, c: nat)
    requires c < |w.chans| && Consistent(w.chans[c], c, w.ops) && NoDup(WantsFrom(|w.ops|, cases, |cases|, c))
    ensures var q := w.chans[c].receivers + WantsFrom(|w.ops|, cases, |cases|, c);
      NoDup(q) && forall r :: r in q ==> Queued(w.ops + [WaitingOp(cases)], r, ReceiveFrom(c))
  {
    var q, new2, ops' := w.chans[c].receivers, WantsFrom(|w.ops|, cases, |cases|, c), w.ops + [WaitingOp(cases)];
    forall r | r in q ensures r !in new2 && Queued(ops', r, ReceiveFrom(c)) {
      assert Queued(w.ops, r, ReceiveFrom(c));
    }
    NoDupJoin(q, new2);
  }

  lemma {:induction false} ArmExclusive<T>(w: World<T>, cases: seq<Request<T>>, c: nat)
    requires Good(w) && MustWait(w, cases) && InRange(w, c)
    ensures Exclusive(Enlist(w.chans[c], |w.ops|, cases, |cases|, c))
  {
    assert ChanOk(w, c);
    var o, n := |w.ops|, |cases|;
    var new1, new2 := OffersTo(o, cases, n, c), WantsFrom(o, cases, n, c);
    if new1 != [] { assert new1[0] in new1 && !Ready(w.chans, cases[new1[0].who.index]); }
    if new2 != [] { assert new2[0] in new2 && !Ready(w.chans, cases[new2[0].index]); }
  }

  lemma {:induction false} ArmGood<T>(w: World<T>, cases: seq<Request<T>>)
    requires Good(w) && MustWait(w, cases)
    ensures Good(Arm(w, cases))
  {
    var o, n, w' := |w.ops|, |cases|, Arm(w, cases);
    forall c | 0 <= c < |w'.chans| ensures ChanOk(w', c) {
      ArmConsistent(w, cases, c);
      ArmExclusive(w, cases, c);
      ArmOrdered(w, cases, c);
    }
    forall i | 0 <= i < |w'.ops| ensures OpOk(w'.ops[i]) && Armed(w'.chans, w'.ops[i], i) {
      ArmArmed(w, cases, i);
    }
  }

  lemma {:induction false} ArmOrdered<T>(w: World<T>, cases: seq<Request<T>>, c: nat)
    requires Good(w) && InRange(w, c)
    ensures var w' := Arm(w, cases); Ordered(w'.chans[c], w'.logs[c], w'.ops)
  {
    assert ChanOk(w, c);
    var w' := Arm(w, cases);
    var past := OrderedSplit(w.chans[c], w.logs[c], w.ops);
    OrderedJoin(w'.chans[c], w'.logs[c], w'.ops, past);
  }

  lemma {:induction false} ArmArmed<T>(w: World<T>, cases: seq<Request<T>>, i: nat)
    requires Good(w) && MustWait(w, cases) && i <= |w.ops|
    ensures var w' := Arm(w, cases); OpOk(w'.ops[i]) && Armed(w'.chans, w'.ops[i], i)
  {
    var w' := Arm(w, cases);
    forall j | 0 <= j < |w'.ops[i].cases| && w'.ops[i].phase.Waiting?
      ensures Listed(w'.chans, Case(i, j), w'.ops[i].cases[j]) {
      if i < |w.ops| {
        assert Armed(w.chans, w.ops[i], i) && Listed(w.chans, Case(i, j), w.ops[i].cases[j]);
      } else {
        NewListed(i, cases, |cases|, j);
      }
    }
  }
}
