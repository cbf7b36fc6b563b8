/**
  Posting callbacks to a loop from other threads, under every interleaving of
  posters with the owner: the critical sections, the wakeup and the close.
 */
module LoopPost {

  /** A callback by its poster and its number among that poster's callbacks. */
  datatype Callback = Callback(poster: nat, number: nat)

  /** Between its critical section and its signal, a poster that found the queue empty must wake the owner. */
  datatype Poster = Poster(mustWake: bool, posts: nat)

  /**
   * The owner polls; has drained the wakeup descriptor and is about to take the queue; runs a batch; or is past its
   * loop, draining for the last time, until the queue is closed.
   */
  datatype Owner = Polling | Drained | Running(batch: seq<Callback>) | Closing | ClosingRun(batch: seq<Callback>)
      | Stopped

  /** `accepted` and `ran` are histories. */
  datatype Mailbox = Mailbox(
    posted: seq<Callback>,
    closed: bool,
    signalled: bool,
    posters: seq<Poster>,
    owner: Owner,
    accepted: seq<Callback>,
    ran: seq<Callback>)

  datatype Event =
    | Post(p: nat)
    | Signal(p: nat)
    | Drain
    | Take
    | RunOne
    | LeaveLoop
    | TakeOrClose

  predicate Enabled(m: Mailbox, e: Event) {
    match e
    case Post(p) => p < |m.posters| && !m.posters[p].mustWake
    case Signal(p) => p < |m.posters| && m.posters[p].mustWake
    case Drain => m.owner.Polling? && m.signalled
    case Take => m.owner.Drained? || m.owner.Polling?
    case RunOne => (m.owner.Running? || m.owner.ClosingRun?) && m.owner.batch != []
    case LeaveLoop => m.owner.Polling?
    case TakeOrClose => m.owner.Closing?
  }

  function Step(m: Mailbox, e: Event): Mailbox
    requires Enabled(m, e)
  {
    match e
    case Post(p) =>
      if m.closed then m
      else
        var cb := Callback(p, m.posters[p].posts);
        m.(posted := m.posted + [cb], accepted := m.accepted + [cb],
           posters := m.posters[p := Poster(m.posted == [], m.posters[p].posts + 1)])
    case Signal(p) => m.(signalled := true, posters := m.posters[p := m.posters[p].(mustWake := false)])
    case Drain => m.(signalled := false, owner := Drained)
    case Take => m.(posted := [], owner := if m.posted == [] then Polling else Running(m.posted))
    case RunOne =>
      var rest := m.owner.batch[1..];
      m.(ran := m.ran + [m.owner.batch[0]],
         owner := if m.owner.Running? then (if rest == [] then Polling else Running(rest))
                  else if rest == [] then Closing else ClosingRun(rest))
    case LeaveLoop => m.(owner := Closing)
    case TakeOrClose =>
      if m.posted == [] then m.(closed := true, owner := Stopped) else m.(posted := [], owner := ClosingRun(m.posted))
  }

  function Batch(m: Mailbox): seq<Callback> {
    if m.owner.Running? || m.owner.ClosingRun? then m.owner.batch else []
  }

  /** Some poster is about to signal. */
  ghost predicate WakeComing(m: Mailbox) {
    exists p :: 0 <= p < |m.posters| && m.posters[p].mustWake
  }

  ghost predicate Good(m: Mailbox) {
    && m.accepted == m.ran + Batch(m) + m.posted
    && (m.owner.Running? || m.owner.ClosingRun? ==> m.owner.batch != [])
    && (m.closed <==> m.owner.Stopped?) && (m.closed ==> m.posted == [])
    && (m.posted != [] ==> m.signalled || WakeComing(m) || m.owner.Drained? || m.owner.Closing? || m.owner.ClosingRun?)
    && Numbered(m)
  }

  /** Every poster's callbacks were accepted in the order of their numbers, all of them below its count. */
  ghost predicate Numbered(m: Mailbox) {
    && (forall i :: 0 <= i < |m.accepted| ==>
          m.accepted[i].poster < |m.posters| && m.accepted[i].number < m.posters[m.accepted[i].poster].posts)
    && (forall i, j :: 0 <= i < j < |m.accepted| && m.accepted[i].poster == m.accepted[j].poster ==>
          m.accepted[i].number < m.accepted[j].number)
  }

  lemma {:induction false} PostGood(m: Mailbox, p: nat)
    requires Good(m) && Enabled(m, Post(p))
    ensures Good(Step(m, Post(p)))
  {
    if !m.closed {
      var m' := Step(m, Post(p));
      assert m'.posters[p].mustWake == (m.posted == []);
      assert m'.accepted == m'.ran + Batch(m') + m'.posted;
      if m.posted != [] && WakeComing(m) {
        var q :| 0 <= q < |m.posters| && m.posters[q].mustWake;
        assert m'.posters[q].mustWake;
      }
    }
  }

  lemma {:induction false} SignalGood(m: Mailbox, p: nat)
    requires Good(m) && Enabled(m, Signal(p))
    ensures Good(Step(m, Signal(p)))
  {
  }

  lemma {:induction false} OwnerGood(m: Mailbox, e: Event)
    requires Good(m) && Enabled(m, e) && !e.Post? && !e.Signal?
    ensures Good(Step(m, e))
  {
    var m' := Step(m, e);
    if e.RunOne? {
      assert m.owner.batch == [m.owner.batch[0]] + m.owner.batch[1..];
      assert m'.ran + Batch(m') == m.ran + Batch(m);
    }
    assert m'.accepted == m'.ran + Batch(m') + m'.posted;
    if WakeComing(m) {
      var q :| 0 <= q < |m.posters| && m.posters[q].mustWake;
      assert m'.posters[q].mustWake;
    }
  }

  lemma {:induction false} StepGood(m: Mailbox, e: Event)
    requires Good(m) && Enabled(m, e)
    ensures Good(Step(m, e))
  {
    if e.Post? { PostGood(m, e.p); } else if e.Signal? { SignalGood(m, e.p); } else { OwnerGood(m, e); }
  }

  ghost function Start(posters: nat): Mailbox {
    Mailbox([], false, false, seq(posters, _ => Poster(false, 0)), Polling, [], [])
  }

  ghost predicate Reaches(m: Mailbox, es: seq<Event>, m': Mailbox)
    decreases |es|
  {
    if es == [] then m' == m else Enabled(m, es[0]) && Reaches(Step(m, es[0]), es[1..], m')
  }

  lemma {:induction false} ReachedGood(m: Mailbox, es: seq<Event>, m': Mailbox)
    requires Good(m) && Reaches(m, es, m')
    ensures Good(m')
    decreases |es|
  {
    if es != [] {
      StepGood(m, es[0]);
      ReachedGood(Step(m, es[0]), es[1..], m');
    }
  }

  /**
   * Every interleaving: callbacks run in the order in which they were accepted, none twice, and once the loop has
   * stopped every accepted callback has run.
   */
  lemma {:induction false} AcceptedRunOnce(posters: nat, es: seq<Event>, m: Mailbox)
    requires Reaches(Start(posters), es, m)
    ensures m.ran <= m.accepted && (m.owner.Stopped? ==> m.ran == m.accepted)
    ensures forall i, j ::
      0 <= i < j < |m.ran|
      && m.ran[i].poster == m.ran[j].poster ==>
        m.ran[i].number < m.ran[j].number
  {
    ReachedGood(Start(posters), es, m);
  }

  /** Every interleaving: after the close every post is refused, and the queue is closed only when it is empty. */
  lemma {:induction false} ClosedRefuses(posters: nat, es: seq<Event>, m: Mailbox, p: nat)
    requires Reaches(Start(posters), es, m) && m.closed && Enabled(m, Post(p))
    ensures Step(m, Post(p)) == m && m.posted == [] && m.owner.Stopped?
  {
    ReachedGood(Start(posters), es, m);
  }

  /**
   * Every interleaving: while callbacks wait, the descriptor is signalled, or a poster is about to signal it, or the
   * owner is about to take the queue without polling again.
   */
  lemma {:induction false} NoLostWakeup(posters: nat, es: seq<Event>, m: Mailbox)
    requires Reaches(Start(posters), es, m) && m.posted != []
    ensures m.signalled || WakeComing(m) || m.owner.Drained? || m.owner.Closing? || m.owner.ClosingRun?
  {
    ReachedGood(Start(posters), es, m);
  }

  // ---- What the events tell ----------------------------------------------------------------

  /**
   * What follows from the events alone: the callbacks that posters were told were accepted, how many of them have been
   * taken from the queue and how many started, whether the descriptor was signalled since it was drained, which posters
   * owe a signal, and whether the queue is closed.
   */
  datatype Ledger = Ledger(told: seq<Callback>, taken: nat, started: nat, signal: bool, owed: set<nat>, closed: bool)

  const BLANK := Ledger([], 0, 0, false, {}, false)

  function PostsOf(cs: seq<Callback>, p: nat): nat {
    if cs == [] then 0 else (if cs[|cs| - 1].poster == p then 1 else 0) + PostsOf(cs[..|cs| - 1], p)
  }

  function Noted(l: Ledger, e: Event): Ledger {
    match e
    case Post(p) =>
      if l.closed then l
      else
        l.(told := l.told + [Callback(p, PostsOf(l.told, p))],
           owed := if l.taken == |l.told| then l.owed + {p} else l.owed)
    case Signal(p) => l.(signal := true, owed := l.owed - {p})
    case Drain => l.(signal := false)
    case Take => l.(taken := |l.told|)
    case RunOne => l.(started := l.started + 1)
    case LeaveLoop => l
    case TakeOrClose => if l.taken == |l.told| then l.(closed := true) else l.(taken := |l.told|)
  }

  function LedgerOf(l: Ledger, es: seq<Event>): Ledger
    decreases |es|
  {
    if es == [] then l else LedgerOf(Noted(l, es[0]), es[1..])
  }

  ghost predicate Matches(m: Mailbox, l: Ledger) { Lists(m, l) && Debts(m, l) }

  ghost predicate Lists(m: Mailbox, l: Ledger) {
    && l.started <= l.taken <= |l.told| && m.accepted == l.told && m.posted == l.told[l.taken..]
    && m.ran == l.told[..l.started] && Batch(m) == l.told[l.started..l.taken]
  }

  ghost predicate Debts(m: Mailbox, l: Ledger) {
    && m.signalled == l.signal && m.closed == l.closed
    && forall p :: 0 <= p < |m.posters| ==>
      (m.posters[p].mustWake <==> p in l.owed) && m.posters[p].posts == PostsOf(l.told, p)
  }

  lemma {:induction false} PostLists(m: Mailbox, p: nat, l: Ledger)
    requires Enabled(m, Post(p)) && Lists(m, l) && m.closed == l.closed && m.posters[p].posts == PostsOf(l.told, p)
    ensures Lists(Step(m, Post(p)), Noted(l, Post(p)))
  {
    if !m.closed {
      hide PostsOf;
      var cb := Callback(p, PostsOf(l.told, p));
      Extended(l.told, cb, l.started, l.taken);
    }
  }

  lemma {:induction false} Extended(told: seq<Callback>, cb: Callback, a: nat, b: nat)
    requires a <= b <= |told|
    ensures (told + [cb])[b..] == told[b..] + [cb] && (told + [cb])[..a] == told[..a]
    ensures (told + [cb])[a..b] == told[a..b]
  {
  }

  lemma {:induction false} PostDebts(m: Mailbox, p: nat, l: Ledger)
    requires Enabled(m, Post(p)) && Debts(m, l) && (m.posted == [] <==> l.taken == |l.told|)
    ensures Debts(Step(m, Post(p)), Noted(l, Post(p)))
  {
    if !m.closed {
      var cb := Callback(p, PostsOf(l.told, p));
      assert (l.told + [cb])[..|l.told|] == l.told;
    }
  }

  lemma {:induction false} TakeLists(m: Mailbox, e: Event, l: Ledger)
    requires Enabled(m, e) && Lists(m, l) && (e.Take? || e.TakeOrClose?)
    ensures Lists(Step(m, e), Noted(l, e)) && l.started == l.taken
  {
    assert l.told[|l.told|..] == [];
  }

  lemma {:induction false} RunLists(m: Mailbox, l: Ledger)
    requires Enabled(m, RunOne) && Lists(m, l)
    ensures Lists(Step(m, RunOne), Noted(l, RunOne))
  {
    var batch := l.told[l.started..l.taken];
    assert batch[1..] == l.told[l.started + 1..l.taken];
    assert l.told[..l.started + 1] == l.told[..l.started] + [batch[0]];
  }

  lemma {:induction false} StepMatches(m: Mailbox, e: Event, l: Ledger)
    requires Enabled(m, e) && Matches(m, l)
    ensures Matches(Step(m, e), Noted(l, e))
  {
    match e
    case Post(p) =>
      PostLists(m, p, l);
      PostDebts(m, p, l);
    case Signal(p) =>
    case Drain =>
    case Take => TakeLists(m, e, l);
    case RunOne => RunLists(m, l);
    case LeaveLoop =>
    case TakeOrClose => TakeLists(m, e, l);
  }

  lemma {:induction false} RunMatches(m: Mailbox, es: seq<Event>, m': Mailbox, l: Ledger)
    requires Reaches(m, es, m') && Matches(m, l)
    ensures Matches(m', LedgerOf(l, es))
    decreases |es|
  {
    hide Step, Noted, Matches;
    if es != [] {
      StepMatches(m, es[0], l);
      RunMatches(Step(m, es[0]), es[1..], m', Noted(l, es[0]));
    }
  }

  /**
   * Every interleaving: accepted are exactly the callbacks that posters were told so, one for each post while the queue
   * was open, in order; those taken and those started are prefixes of them; and signals, debts and the close are as the
   * events say.
   */
  lemma {:induction false} EventsTell(posters: nat, es: seq<Event>, m: Mailbox)
    requires Reaches(Start(posters), es, m)
    ensures var l := LedgerOf(BLANK, es);
      && l.started <= l.taken <= |l.told| && m.accepted == l.told && m.ran == l.told[..l.started]
      && m.posted == l.told[l.taken..] && m.signalled == l.signal && m.closed == l.closed
      && forall p :: 0 <= p < |m.posters| ==> (m.posters[p].mustWake <==> p in l.owed)
  {
    RunMatches(Start(posters), es, m, BLANK);
  }

  // ---- The queue itself ------------------------------------------------------------------

  lemma {:induction false} ReachesNext(m: Mailbox, es: seq<Event>, m1: Mailbox, e: Event)
    requires Reaches(m, es, m1) && Enabled(m1, e)
    ensures Reaches(m, es + [e], Step(m1, e))
    decreases |es|
  {
    if es == [] {
      assert ([e] + [])[1..] == [] && es + [e] == [e];
    } else {
      assert (es + [e])[0] == es[0] && (es + [e])[1..] == es[1..] + [e];
      ReachesNext(Step(m, es[0]), es[1..], m1, e);
    }
  }

  /** A run that began in `start` and has led to `m`; what the class keeps of it. */
  ghost predicate InRun(start: Mailbox, es: seq<Event>, m: Mailbox) {
    Reaches(start, es, m) && Good(m)
  }

  lemma {:induction false} InRunNext(start: Mailbox, es: seq<Event>, m: Mailbox, e: Event)
    requires InRun(start, es, m) && Enabled(m, e)
    ensures InRun(start, es + [e], Step(m, e))
  {
    StepGood(m, e);
    ReachesNext(start, es, m, e);
  }

  /** The posters in `ps` make a step each, in turn: the signal they owe, or a post. */
  ghost function Turns(m: Mailbox, ps: seq<nat>): Mailbox
    decreases |ps|
  {
    if ps == [] then m
    else
      var m1, p := Turns(m, ps[..|ps| - 1]), ps[|ps| - 1];
      if p >= |m1.posters| then m1
      else if m1.posters[p].mustWake then Step(m1, Event.Signal(p)) else Step(m1, Event.Post(p))
  }

  function At(schedule: seq<seq<nat>>, k: nat): seq<nat> { if k < |schedule| then schedule[k] else [] }

  /** The owner runs `n` callbacks of its batch, and between any two of them the posters do what the schedule says. */
  ghost function Batched(m: Mailbox, n: nat, schedule: seq<seq<nat>>, k: nat): Mailbox
    decreases n
  {
    if n == 0 || !Enabled(m, RunOne) then m
    else Batched(Turns(Step(m, RunOne), At(schedule, k)), n - 1, schedule, k + 1)
  }

  lemma {:induction false} NoneBatched(m: Mailbox, schedule: seq<seq<nat>>, k: nat)
    ensures Batched(m, 0, schedule, k) == m
  {
  }

  /** The owner takes the queue and runs it. */
  ghost function Emptied(m: Mailbox, schedule: seq<seq<nat>>): Mailbox {
    if Enabled(m, Take) then Batched(Step(m, Take), |m.posted|, schedule, 0) else m
  }

  /** The owner, past its loop, runs what is posted, again and again, until nothing is left, and closes the queue. */
  ghost function Finished(m: Mailbox, schedule: seq<seq<nat>>, k: nat): Mailbox
    decreases if k < |schedule| then |schedule| - k else 0, |m.posted|
  {
    if !Enabled(m, TakeOrClose) then m
    else if m.posted == [] then Step(m, TakeOrClose)
    else
      var m1 := Batched(Step(m, TakeOrClose), |m.posted|, schedule, k);
      if k >= |schedule| && m1.posted != [] then m1 else Finished(m1, schedule, k + |m.posted|)
  }

  /** The owner with `rest` left of its batch. */
  ghost function Working(closing: bool, rest: seq<Callback>): Owner {
    if closing then (if rest == [] then Closing else ClosingRun(rest))
    else if rest == [] then Polling
    else Owner.Running(rest)
  }

  /**
   * The posted queue.  `start` is where its run began and `events` what happened since; the owner's methods take a
   * schedule that says which posters make a step between any two of the owner's.
   */
  class PostQueue {
    var posted: seq<Callback>
    var closed: bool
    var signalled: bool
    var posters: seq<Poster>
    ghost var owner: Owner
    ghost var accepted: seq<Callback>
    ghost var ran: seq<Callback>
    ghost const start: Mailbox
    ghost var events: seq<Event>

    ghost function State(): Mailbox
      reads this
    {
      Mailbox(posted, closed, signalled, posters, owner, accepted, ran)
    }

    ghost predicate Valid()
      reads this
    {
      InRun(start, events, State())
    }

    constructor (posters: nat)
      ensures Valid() && State() == start == Start(posters)
    {
      posted, closed, signalled, this.posters := [], false, false, seq(posters, _ => Poster(false, 0));
      owner, accepted, ran, events, start := Polling, [], [], [], Start(posters);
    }

    /** Accepted exactly while the queue is open; `wake` obliges the poster to signal. */
    method Post(p: nat) returns (ok: bool, wake: bool)
      requires Valid() && Enabled(State(), Event.Post(p))
      modifies this
      ensures Valid() && State() == Step(old(State()), Event.Post(p)) && events == old(events) + [Event.Post(p)]
      ensures (ok <==> !old(closed)) && (wake <==> ok && old(posted) == [])
      ensures var callback := Callback(p, old(posters)[p].posts);
        if ok then
          && posted == old(posted) + [callback] && accepted == old(accepted) + [callback]
          && posters == old(posters)[p := Poster(wake, old(posters)[p].posts + 1)]
        else posted == old(posted) && accepted == old(accepted) && posters == old(posters)
      ensures owner == old(owner) && ran == old(ran) && closed == old(closed) && signalled == old(signalled)
    {
      InRunNext(start, events, State(), Event.Post(p));
      events := events + [Event.Post(p)];
      if closed {
        return false, false;
      }
      wake := posted == [];
      var callback := Callback(p, posters[p].posts);
      posted := posted + [callback];
      posters := posters[p := Poster(wake, posters[p].posts + 1)];
      accepted := accepted + [callback];
      ok := true;
    }

    method Signal(p: nat)
      requires Valid() && Enabled(State(), Event.Signal(p))
      modifies this
      ensures Valid() && State() == Step(old(State()), Event.Signal(p)) && events == old(events) + [Event.Signal(p)]
      ensures signalled && posters == old(posters)[p := old(posters)[p].(mustWake := false)] && posted == old(posted)
    {
      InRunNext(start, events, State(), Event.Signal(p));
      events := events + [Event.Signal(p)];
      signalled := true;
      posters := posters[p := posters[p].(mustWake := false)];
    }

    /** The posters in `ps` make a step each, in turn: the signal they owe, or a post. */
    method Others(ps: seq<nat>)
      requires Valid()
      modifies this
      ensures Valid() && old(events) <= events && owner == old(owner) && ran == old(ran) && closed == old(closed)
      ensures old(accepted) <= accepted && posted == old(posted) + accepted[|old(accepted)|..]
      ensures closed || ps == [] ==> posted == old(posted) && accepted == old(accepted)
      ensures State() == Turns(old(State()), ps)
    {
      assert ps[..0] == [];
      for i := 0 to |ps|
        invariant State() == Turns(old(State()), ps[..i])
        invariant Valid() && old(events) <= events && owner == old(owner) && ran == old(ran) && closed == old(closed)
        invariant old(accepted) <= accepted && posted == old(posted) + accepted[|old(accepted)|..]
        invariant closed || i == 0 ==> posted == old(posted) && accepted == old(accepted)
      {
        if ps[i] < |posters| {
          if posters[ps[i]].mustWake { Signal(ps[i]); } else { var _, _ := Post(ps[i]); }
        }
        assert ps[..i + 1][..i] == ps[..i] && ps[..i + 1][i] == ps[i];
      }
      assert ps[..|ps|] == ps;
    }

    /** Runs a batch in order while others post. */
    method RunBatch(batch: seq<Callback>, schedule: seq<seq<nat>>, from: nat, ghost closing: bool)
      requires Valid() && batch != [] && owner == Working(closing, batch)
      modifies this
      ensures Valid() && old(events) <= events && ran == old(ran) + batch && closed == old(closed)
      ensures owner == Working(closing, [])
      ensures from >= |schedule| ==> posted == old(posted)
      ensures State() == Batched(old(State()), |batch|, schedule, from)
    {
      var rest, k := batch, from;
      while rest != []
        invariant Batched(State(), |rest|, schedule, k) == Batched(old(State()), |batch|, schedule, from)
        invariant Valid() && old(events) <= events && ran + rest == old(ran) + batch && closed == old(closed)
        invariant owner == Working(closing, rest) && from <= k
        invariant from >= |schedule| ==> posted == old(posted)
      {
        RunNext(rest, At(schedule, k), closing);
        rest, k := rest[1..], k + 1;
      }
    }

    method RunNext(rest: seq<Callback>, ps: seq<nat>, ghost closing: bool)
      requires Valid() && rest != [] && owner == Working(closing, rest)
      modifies this
      ensures Valid() && old(events) <= events && ran + rest[1..] == old(ran) + rest && closed == old(closed)
      ensures owner == Working(closing, rest[1..]) && (ps == [] ==> posted == old(posted))
      ensures Enabled(old(State()), RunOne) && State() == Turns(Step(old(State()), RunOne), ps)
    {
      InRunNext(start, events, State(), RunOne);
      events := events + [RunOne];
      ran, owner := ran + [rest[0]], Working(closing, rest[1..]);
      assert ran + rest[1..] == old(ran) + rest;
      Others(ps);
    }

    /** Takes the whole queue and runs it in order. */
    method RunPosted(schedule: seq<seq<nat>>)
      requires Valid() && (owner.Polling? || owner.Drained?)
      modifies this
      ensures Valid() && old(events) <= events && owner.Polling? && closed == old(closed)
      ensures ran == old(ran) + old(posted) && State() == Emptied(old(State()), schedule)
    {
      hide Batched, Turns;
      InRunNext(start, events, State(), Take);
      events := events + [Take];
      var batch := posted;
      owner := if posted == [] then Polling else Owner.Running(posted);
      posted := [];
      if batch != [] { RunBatch(batch, schedule, 0, false); } else { NoneBatched(State(), schedule, 0); }
    }

    /** The wakeup descriptor is readable: it is drained, and then the queue is run. */
    method DrainWakeup(schedule: seq<seq<nat>>)
      requires Valid() && owner.Polling? && signalled
      modifies this
      ensures Valid() && old(events) <= events && owner.Polling? && old(ran) + old(posted) <= ran
      ensures var m := Turns(Step(old(State()), Drain), At(schedule, 0));
        State() == Emptied(m, if schedule == [] then [] else schedule[1..])
    {
      hide Emptied, Turns;
      InRunNext(start, events, State(), Drain);
      events := events + [Drain];
      signalled, owner := false, Drained;
      Others(At(schedule, 0));
      RunPosted(if schedule == [] then [] else schedule[1..]);
    }

    /**
     * Past its loop the owner runs what is posted, and what others post meanwhile, until nothing is left, and closes in
     * that critical section: then all that was ever accepted has run, in order, and no post is accepted any more.
     */
    method DrainPostedAndClose(schedule: seq<seq<nat>>)
      requires Valid() && owner.Polling?
      modifies this
      ensures Valid() && old(events) <= events && closed && owner.Stopped?
      ensures posted == [] && ran == accepted && old(ran) + old(posted) <= ran
      ensures State() == Finished(Step(old(State()), LeaveLoop), schedule, 0)
    {
      hide InRun, Batched, Step;
      Leave();
      ghost var target := Finished(State(), schedule, 0);
      var k := 0;
      while posted != []
        invariant Finished(State(), schedule, k) == target
        invariant Valid() && old(events) <= events && owner.Closing? && old(ran) + old(posted) <= ran + posted
        decreases if k < |schedule| then |schedule| - k else 0, |posted|
      {
        var batch := posted;
        DrainBatch(batch, schedule, k);
        k := k + |batch|;
      }
      Shut();
    }

    method Leave()
      requires Valid() && owner.Polling?
      modifies this`owner, this`events
      ensures Valid() && old(events) <= events && owner.Closing? && State() == Step(old(State()), LeaveLoop)
    {
      InRunNext(start, events, State(), LeaveLoop);
      events, owner := events + [LeaveLoop], Closing;
    }

    method Shut()
      requires Valid() && owner.Closing? && posted == []
      modifies this`closed, this`owner, this`events
      ensures Valid() && old(events) <= events && closed && owner.Stopped? && ran == accepted
      ensures Enabled(old(State()), TakeOrClose) && State() == Step(old(State()), TakeOrClose)
    {
      InRunNext(start, events, State(), TakeOrClose);
      events := events + [TakeOrClose];
      closed, owner := true, Stopped;
    }

    method DrainBatch(batch: seq<Callback>, schedule: seq<seq<nat>>, k: nat)
      requires Valid() && owner.Closing? && posted != [] && batch == posted
      modifies this
      ensures Valid() && old(events) <= events && owner.Closing? && ran == old(ran) + batch
      ensures Enabled(old(State()), TakeOrClose) && (k >= |schedule| ==> posted == [])
      ensures State() == Batched(Step(old(State()), TakeOrClose), |batch|, schedule, k)
    {
      hide InRun, Batched;
      TakeBatch();
      RunBatch(batch, schedule, k, true);
    }

    method TakeBatch()
      requires Valid() && owner.Closing? && posted != []
      modifies this
      ensures Valid() && old(events) <= events && owner == ClosingRun(old(posted)) && posted == [] && ran == old(ran)
      ensures Enabled(old(State()), TakeOrClose) && State() == Step(old(State()), TakeOrClose) && closed == old(closed)
    {
      InRunNext(start, events, State(), TakeOrClose);
      events := events + [TakeOrClose];
      owner, posted := ClosingRun(posted), [];
    }
  }
}
