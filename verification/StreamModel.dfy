/**
  One direction of an io_uring stream under a deadline, and the closing of the
  stream, as a machine over its phases.  The kernel answers in any order: the
  completion of the operation, the completion of its cancellation, the timer.

  Every state carries its history, so that what happened at most once, at least
  once or in order can be stated about a state.
 */
module StreamModel {

  /**
   * Where the current operation stands: in flight; past its deadline with no cancel request out yet; with both
   * requests out; with only the operation, or only its cancel request, still out.
   */
  datatype Phase = Idle | Active | Expired | Cancelling | CancelFirst | PrimaryFirst

  /** What has happened to the operations `0 .. begun` of one direction. */
  datatype History = History(
    begun: nat,
    finalized: seq<nat>,
    resumed: seq<nat>,
    reported: map<nat, bool>,
    expired: set<nat>,
    terminal: set<nat>,
    cancelSent: set<nat>,
    cancelDone: set<nat>,
    armed: map<nat, nat>)

  /** `result` is set once the result completion of the current operation arrived (zero-copy sends get a second one). */
  datatype Side = Side(phase: Phase, result: bool, generation: nat, log: History)

  /** The running operation. */
  function Current(s: Side): nat { if s.log.begun == 0 then 0 else s.log.begun - 1 }

  predicate TimedOut(s: Side) { s.phase.Expired? || s.phase.Cancelling? || s.phase.CancelFirst? }

  predicate InFlight(s: Side) { s.phase.Active? || TimedOut(s) }

  /** Request completions that the kernel still owes. */
  predicate Owed(s: Side) { InFlight(s) || s.phase.PrimaryFirst? }

  const INITIAL_SIDE := Side(Idle, false, 0, History(0, [], [], map[], {}, {}, {}, {}, map[]))

  datatype Event =
    | Start(timer: bool)
    | Refuse(bumps: nat)
    | Fire(generation: nat, submitted: bool)
    | Result(last: bool)
    | Notify
    | CancelDone
    | SetDeadline(timer: bool, bumps: nat)

  function Arm(s: Side, timer: bool): Side {
    if timer
    then s.(generation := s.generation + 1, log := s.log.(armed := s.log.armed[s.generation + 1 := Current(s)]))
    else s
  }

  /** Both requests are settled: the slot is released and the continuation scheduled. */
  function Finalize(s: Side): Side {
    var op := Current(s);
    Side(Idle, false, s.generation + 1, s.log.(finalized := s.log.finalized + [op], resumed := s.log.resumed + [op]))
  }

  /** The operation itself is settled. */
  function Settle(s: Side): Side {
    var s1 := s.(generation := s.generation + 1, log := s.log.(terminal := s.log.terminal + {Current(s)}));
    if s.phase.Cancelling? then s1.(phase := PrimaryFirst) else Finalize(s1)
  }

  predicate Enabled(s: Side, e: Event) {
    match e
    case Start(_) => s.phase.Idle?
    case Refuse(_) => s.phase.Idle?
    case Fire(g, _) => g in s.log.armed || g < s.generation
    case Result(_) => InFlight(s) && !s.result
    case Notify => InFlight(s) && s.result
    case CancelDone => s.phase.Cancelling? || s.phase.PrimaryFirst?
    case SetDeadline(timer, _) => timer ==> s.phase.Active?
  }

  function Step(s: Side, e: Event): Side
    requires Enabled(s, e)
  {
    var op := Current(s);
    match e
    case Start(timer) => Arm(s.(phase := Active, result := false, log := s.log.(begun := s.log.begun + 1)), timer)
    case Refuse(bumps) => s.(generation := s.generation + bumps)
    case Fire(g, submitted) =>
      if g != s.generation || !(s.phase.Active? || s.phase.Expired?) then s
      else
        s.(phase := if submitted then Cancelling else Expired,
           log := s.log.(expired := if s.result then s.log.expired else s.log.expired + {op},
                         cancelSent := if submitted then s.log.cancelSent + {op} else s.log.cancelSent))
    case Result(last) =>
      var s1 := s.(result := true, log := s.log.(reported := s.log.reported[op := TimedOut(s)]));
      if last then Settle(s1) else s1
    case Notify => Settle(s)
    case CancelDone =>
      var s1 := s.(log := s.log.(cancelDone := s.log.cancelDone + {op}));
      if s.phase.Cancelling? then s1.(phase := CancelFirst) else Finalize(s1)
    case SetDeadline(timer, bumps) => Arm(s.(generation := s.generation + 1 + bumps), timer)
  }

  function Upto(n: nat): seq<nat> { seq(n, i => i) }

  ghost predicate Ok(s: Side) {
    var op, h := Current(s), s.log;
    var past := if s.phase.Idle? then h.begun else op;
    && (s.phase.Idle? || h.begun > 0)
    && h.finalized == h.resumed == Upto(past)
    && (forall i: nat :: i in h.reported <==> i < past || (i == op && s.result && !s.phase.Idle?))
    && (forall i :: i in h.reported ==> (h.reported[i] <==> i in h.expired))
    && (forall i: nat :: i in h.terminal <==> i < past || (i == op && s.phase.PrimaryFirst?))
    && (forall i :: 0 <= i < past && i in h.cancelSent ==> i in h.cancelDone)
    && (s.phase.PrimaryFirst? ==> s.result)
    && (!s.phase.Idle? ==>
          && (op in h.cancelSent <==> s.phase.Cancelling? || s.phase.CancelFirst? || s.phase.PrimaryFirst?)
          && (op in h.cancelDone <==> s.phase.CancelFirst?)
          && (!s.result ==> (op in h.expired <==> TimedOut(s))))
    && (forall i :: i in h.expired || i in h.cancelSent || i in h.cancelDone ==> i < h.begun)
    && (forall g :: g in h.armed ==> g <= s.generation && h.armed[g] < h.begun)
    && (s.generation in h.armed ==> !s.phase.Idle? && h.armed[s.generation] == op)
  }

  lemma {:induction false} UptoNext(n: nat)
    ensures Upto(n + 1) == Upto(n) + [n]
  {
  }

  lemma {:induction false} StartOk(s: Side, timer: bool)
    requires Ok(s) && s.phase.Idle?
    ensures Ok(Step(s, Start(timer)))
  {
  }

  lemma {:induction false} RefuseOk(s: Side, bumps: nat)
    requires Ok(s) && s.phase.Idle?
    ensures Ok(Step(s, Refuse(bumps)))
  {
  }

  lemma {:induction false} SetDeadlineOk(s: Side, timer: bool, bumps: nat)
    requires Ok(s) && Enabled(s, SetDeadline(timer, bumps))
    ensures Ok(Step(s, SetDeadline(timer, bumps)))
  {
  }

  lemma {:induction false} FireOk(s: Side, g: nat, submitted: bool)
    requires Ok(s) && Enabled(s, Fire(g, submitted))
    ensures Ok(Step(s, Fire(g, submitted)))
  {
  }

  lemma {:induction false} ResultOk(s: Side, last: bool)
    requires Ok(s) && Enabled(s, Result(last))
    ensures Ok(Step(s, Result(last)))
  {
    UptoNext(Current(s));
  }

  lemma {:induction false} NotifyOk(s: Side)
    requires Ok(s) && Enabled(s, Notify)
    ensures Ok(Step(s, Notify))
  {
    UptoNext(Current(s));
  }

  lemma {:induction false} CancelDoneOk(s: Side)
    requires Ok(s) && Enabled(s, CancelDone)
    ensures Ok(Step(s, CancelDone))
  {
    UptoNext(Current(s));
  }

  lemma {:induction false} StepOk(s: Side, e: Event)
    requires Ok(s) && Enabled(s, e)
    ensures Ok(Step(s, e))
  {
    match e
    case Start(timer) => StartOk(s, timer);
    case Refuse(bumps) => RefuseOk(s, bumps);
    case Fire(g, submitted) => FireOk(s, g, submitted);
    case Result(last) => ResultOk(s, last);
    case Notify => NotifyOk(s);
    case CancelDone => CancelDoneOk(s);
    case SetDeadline(timer, bumps) => SetDeadlineOk(s, timer, bumps);
  }

  ghost predicate Reaches(s: Side, es: seq<Event>, s': Side)
    decreases |es|
  {
    if es == [] then s' == s else Enabled(s, es[0]) && Reaches(Step(s, es[0]), es[1..], s')
  }

  lemma {:induction false} ReachedOk(s: Side, es: seq<Event>, s': Side)
    requires Ok(s) && Reaches(s, es, s')
    ensures Ok(s')
    decreases |es|
  {
    if es != [] {
      StepOk(s, es[0]);
      ReachedOk(Step(s, es[0]), es[1..], s');
    }
  }

  lemma {:induction false} InitialOk()
    ensures Ok(INITIAL_SIDE)
  {
    assert Upto(0) == [];
  }

  /**
   * Every run, every operation that began: once it is over it was finalized and resumed exactly once and in order,
   * after its own completion and after that of its cancel request if one was sent.
   */
  lemma {:induction false} FinalizedOnce(es: seq<Event>, s: Side, op: nat)
    requires Reaches(INITIAL_SIDE, es, s) && op < s.log.begun
    ensures var over := s.phase.Idle? || op < Current(s);
      && s.log.resumed == s.log.finalized
      && (over ==> op < |s.log.finalized| && s.log.finalized[op] == op)
      && (forall i :: 0 <= i < |s.log.finalized| && s.log.finalized[i] == op ==> i == op && over)
      && (over ==> op in s.log.terminal && (op in s.log.cancelSent ==> op in s.log.cancelDone))
  {
    InitialOk();
    ReachedOk(INITIAL_SIDE, es, s);
  }

  /** Every run: an operation reports a timeout exactly if its deadline handler ran before its result came in. */
  lemma {:induction false} TimeoutReported(es: seq<Event>, s: Side, op: nat)
    requires Reaches(INITIAL_SIDE, es, s) && op in s.log.reported
    ensures s.log.reported[op] <==> op in s.log.expired
  {
    InitialOk();
    ReachedOk(INITIAL_SIDE, es, s);
  }

  /** Every run: a timer that fires changes nothing unless it was armed for the operation that is running. */
  lemma {:induction false} StaleTimer(es: seq<Event>, s: Side, g: nat, submitted: bool)
    requires Reaches(INITIAL_SIDE, es, s) && Enabled(s, Fire(g, submitted))
    ensures Step(s, Fire(g, submitted)) == s || (g in s.log.armed && !s.phase.Idle? && s.log.armed[g] == Current(s))
  {
    InitialOk();
    ReachedOk(INITIAL_SIDE, es, s);
  }

  /**
   * Every run: a timer that fires while its generation is current and its operation runs uncancelled takes effect: the
   * operation counts as expired unless its result is there, and its cancel request is out exactly if it was submitted.
   */
  lemma {:induction false} DeadlineTakesEffect(es: seq<Event>, s: Side, submitted: bool)
    requires Reaches(INITIAL_SIDE, es, s) && s.generation in s.log.armed && (s.phase.Active? || s.phase.Expired?)
    ensures Enabled(s, Fire(s.generation, submitted)) && s.log.armed[s.generation] == Current(s)
    ensures var s', op := Step(s, Fire(s.generation, submitted)), Current(s);
      && (!s.result ==> op in s'.log.expired) && (op in s'.log.cancelSent <==> submitted)
      && s'.phase == (if submitted then Cancelling else Expired) && s'.generation == s.generation
  {
    InitialOk();
    ReachedOk(INITIAL_SIDE, es, s);
  }

  // ---- The story of a direction ------------------------------------------------

  /**
   * What is known from the events alone: how many operations started, got their result, were settled, and had a cancel
   * request sent and completed; which were late; and of the current one, whether it has its result, a live timer, was
   * told to end, and has been asked to by a cancel request.
   */
  datatype Story = Story(starts: nat, results: nat, settled: nat, sent: nat, cancelled: nat, late: set<nat>,
      answered: bool, timed: bool, fired: bool, asked: bool)

  const UNBEGUN := Story(0, 0, 0, 0, 0, {}, false, false, false, false)

  /** `current` says whether a timer that fires is the latest one. */
  function Told(h: Story, e: Event, current: bool): Story {
    match e
    case Start(timer) =>
      h.(starts := h.starts + 1, answered := false, timed := timer, fired := false, asked := false)
    case Refuse(_) => h
    case Fire(_, submitted) =>
      if !current || h.settled >= h.starts || h.asked then h
      else
        h.(fired := true, asked := submitted, sent := if submitted then h.sent + 1 else h.sent,
           late := if h.answered then h.late else h.late + {h.starts - 1})
    case Result(last) =>
      h.(results := h.results + 1, answered := true, settled := if last then h.settled + 1 else h.settled)
    case Notify => h.(settled := h.settled + 1)
    case CancelDone => h.(cancelled := h.cancelled + 1)
    case SetDeadline(timer, _) => h.(timed := timer)
  }

  ghost function StoryOf(s: Side, es: seq<Event>, s': Side, h: Story): Story
    requires Reaches(s, es, s')
    decreases |es|
  {
    if es == [] then h
    else StoryOf(Step(s, es[0]), es[1..], s', Told(h, es[0], es[0].Fire? && es[0].generation == s.generation))
  }

  /** Where a direction stands, by its story. */
  function PhaseBy(h: Story): Phase {
    if h.settled == h.starts then (if h.sent > h.cancelled then PrimaryFirst else Idle)
    else if h.asked then (if h.sent > h.cancelled then Cancelling else CancelFirst)
    else if h.fired then Expired
    else Active
  }

  ghost predicate Fits(s: Side, h: Story) {
    && s.phase == PhaseBy(h) && s.log.begun == h.starts && s.log.expired == h.late
    && h.settled <= h.starts <= h.settled + 1 && h.cancelled <= h.sent <= h.cancelled + 1
    && h.results == (if h.settled < h.starts && h.answered then h.settled + 1 else h.settled)
    && (!s.phase.Idle? ==> s.result == h.answered) && (h.sent > h.cancelled ==> h.asked) && (h.asked ==> h.fired)
    && (forall i: nat :: i in s.log.reported <==> i < h.results)
    && |s.log.finalized| == (if s.phase.Idle? then h.starts else h.starts - 1)
    && (s.phase.Active? || s.phase.Expired? ==> (s.generation in s.log.armed <==> h.timed))
  }

  lemma {:induction false} StepFits(s: Side, e: Event, h: Story)
    requires Ok(s) && Enabled(s, e) && Fits(s, h)
    ensures Fits(Step(s, e), Told(h, e, e.Fire? && e.generation == s.generation))
  {
    UptoNext(Current(s));
  }

  lemma {:induction false} RunFits(s: Side, es: seq<Event>, s': Side, h: Story)
    requires Ok(s) && Reaches(s, es, s') && Fits(s, h)
    ensures Ok(s') && Fits(s', StoryOf(s, es, s', h))
    decreases |es|
  {
    hide Step, Told, Fits, Ok;
    if es != [] {
      StepOk(s, es[0]);
      var h1 := Told(h, es[0], es[0].Fire? && es[0].generation == s.generation);
      StepFits(s, es[0], h);
      RunFits(Step(s, es[0]), es[1..], s', h1);
    }
  }

  /**
   * Every run: what the events tell determines where the direction stands.  In particular it is idle exactly if every
   * operation that started is settled and every cancel request that was sent has completed; every result is reported,
   * in order, as a timeout exactly if the operation was late; every operation but a running one is finalized; and the
   * latest timer is live exactly if the last start or the last new deadline set one.
   */
  lemma {:induction false} EventsTell(es: seq<Event>, s: Side)
    requires Reaches(INITIAL_SIDE, es, s)
    ensures var h := StoryOf(INITIAL_SIDE, es, s, UNBEGUN);
      && s.phase == PhaseBy(h) && s.log.begun == h.starts && s.log.expired == h.late
      && (s.phase.Idle? <==> h.settled == h.starts && h.sent == h.cancelled)
      && (forall i: nat :: i in s.log.reported <==> i < h.results)
      && (forall i :: i in s.log.reported ==> (s.log.reported[i] <==> i in h.late))
      && |s.log.finalized| == (if s.phase.Idle? then h.starts else h.starts - 1)
      && (s.phase.Active? || s.phase.Expired? ==> (s.generation in s.log.armed <==> h.timed))
  {
    InitialOk();
    RunFits(INITIAL_SIDE, es, s, UNBEGUN);
  }

  /** The kernel completes nothing of the operation itself. */
  predicate Uncompleted(es: seq<Event>) { forall i :: 0 <= i < |es| ==> !es[i].Result? && !es[i].Notify? }

  lemma {:induction false} NoRetryLeft(s: Side, es: seq<Event>, s': Side)
    requires Ok(s) && s.phase.Expired? && s.generation !in s.log.armed && Reaches(s, es, s') && Uncompleted(es)
    ensures s'.phase.Expired? && Current(s') == Current(s)
    decreases |es|
  {
    if es != [] {
      StepOk(s, es[0]);
      NoRetryLeft(Step(s, es[0]), es[1..], s');
    }
  }

  /**
   * Every run: an operation that is past its deadline with no cancel request out can still get one exactly if the timer
   * generation for its retry is current; else nothing but its own completion ends it.
   */
  lemma {:induction false} RetryExactly(es: seq<Event>, s: Side)
    requires Reaches(INITIAL_SIDE, es, s) && s.phase.Expired?
    ensures s.generation in s.log.armed ==>
      Enabled(s, Fire(s.generation, true)) && Step(s, Fire(s.generation, true)).phase.Cancelling?
    ensures s.generation !in s.log.armed ==>
      forall more, s' :: Reaches(s, more, s') && Uncompleted(more) ==> s'.phase.Expired? && Current(s') == Current(s)
  {
    InitialOk();
    ReachedOk(INITIAL_SIDE, es, s);
    if s.generation !in s.log.armed {
      forall more, s' | Reaches(s, more, s') && Uncompleted(more)
        ensures s'.phase.Expired? && Current(s') == Current(s)
      {
        NoRetryLeft(s, more, s');
      }
    }
  }

  // ---- The whole stream: two directions and a close --------------------------

  /** A close that must wait is draining; `cancelDone` once its cancel-all request completed. */
  datatype Closing = Open | Draining(cancelDone: bool) | Closed

  /**
   * What happened to closes: how many suspended and were resumed, how often the descriptor was closed, and how many
   * cancel-all requests were sent and have completed.
   */
  datatype CloseLog = CloseLog(waits: nat, resumes: nat, fdCloses: nat, cancelsSent: nat, cancelsDone: nat)

  datatype Stream = Stream(read: Side, write: Side, closing: Closing, log: CloseLog)

  datatype StreamEvent = Read(event: Event) | Write(event: Event) | Close(submitted: bool) | CloseDone

  const INITIAL_STREAM := Stream(INITIAL_SIDE, INITIAL_SIDE, Open, CloseLog(0, 0, 0, 0, 0))

  predicate CanHappen(st: Stream, e: StreamEvent) {
    match e
    case Read(x) => Enabled(st.read, x) && (x.Start? ==> st.closing.Open?)
    case Write(x) => Enabled(st.write, x) && (x.Start? ==> st.closing.Open?)
    case Close(_) => true
    case CloseDone => st.log.cancelsDone < st.log.cancelsSent
  }

  /** Closes the descriptor once the cancel-all request is settled and both slots are free. */
  function TryClose(st: Stream): Stream {
    if st.closing == Draining(true) && st.read.phase.Idle? && st.write.phase.Idle? then
      st.(closing := Closed, log := st.log.(resumes := st.log.resumes + 1, fdCloses := st.log.fdCloses + 1))
    else st
  }

  function After(st: Stream, e: StreamEvent): Stream
    requires CanHappen(st, e)
  {
    match e
    case Read(x) => TryClose(st.(read := Step(st.read, x)))
    case Write(x) => TryClose(st.(write := Step(st.write, x)))
    case Close(submitted) =>
      if !st.closing.Open? then st
      else if st.read.phase.Idle? && st.write.phase.Idle? then
        st.(closing := Closed, log := st.log.(fdCloses := st.log.fdCloses + 1))
      else if submitted then
        st.(closing := Draining(false),
          log := st.log.(waits := st.log.waits + 1, cancelsSent := st.log.cancelsSent + 1))
      else st
    case CloseDone =>
      TryClose(st.(closing := if st.closing.Draining? then Draining(true) else st.closing,
                   log := st.log.(cancelsDone := st.log.cancelsDone + 1)))
  }

  ghost predicate StreamOk(st: Stream) {
    var log := st.log;
    && Ok(st.read) && Ok(st.write) && log.cancelsSent == log.waits
    && match st.closing
       case Open => log == CloseLog(0, 0, 0, 0, 0)
       case Draining(done) =>
         && log.waits == 1 && log.resumes == log.fdCloses == 0 && log.cancelsDone == (if done then 1 else 0)
         && (done ==> !st.read.phase.Idle? || !st.write.phase.Idle?)
       case Closed =>
         && log.fdCloses == 1 && log.resumes == log.cancelsDone == log.waits <= 1
         && st.read.phase.Idle? && st.write.phase.Idle?
  }

  lemma {:induction false} AfterOk(st: Stream, e: StreamEvent)
    requires StreamOk(st) && CanHappen(st, e)
    ensures StreamOk(After(st, e))
  {
    match e
    case Read(x) => StepOk(st.read, x);
    case Write(x) => StepOk(st.write, x);
    case Close(_) =>
    case CloseDone =>
  }

  ghost predicate StreamReaches(st: Stream, es: seq<StreamEvent>, st': Stream)
    decreases |es|
  {
    if es == [] then st' == st else CanHappen(st, es[0]) && StreamReaches(After(st, es[0]), es[1..], st')
  }

  lemma {:induction false} StreamReachedOk(st: Stream, es: seq<StreamEvent>, st': Stream)
    requires StreamOk(st) && StreamReaches(st, es, st')
    ensures StreamOk(st')
    decreases |es|
  {
    if es != [] {
      AfterOk(st, es[0]);
      StreamReachedOk(After(st, es[0]), es[1..], st');
    }
  }

  /**
   * Every run: the descriptor is closed at most once, and only when no request of the stream is owed by the kernel,
   * neither of its directions nor of the close itself; a close that had to wait is resumed exactly once, at that
   * moment; and the last of the events it waits for does close the descriptor, whichever that is.
   */
  lemma {:induction false} CloseConverges(es: seq<StreamEvent>, st: Stream)
    requires StreamReaches(INITIAL_STREAM, es, st)
    ensures st.log.fdCloses == (if st.closing.Closed? then 1 else 0)
    ensures st.log.fdCloses > 0 ==> !Owed(st.read) && !Owed(st.write) && st.log.cancelsDone == st.log.cancelsSent
    ensures st.log.resumes == (if st.closing.Closed? then st.log.waits else 0)
      && st.log.cancelsSent == st.log.waits <= 1
    ensures st.log.waits == 1 && !st.closing.Closed? ==>
      Owed(st.read) || Owed(st.write) || st.log.cancelsDone < st.log.cancelsSent
  {
    InitialOk();
    StreamReachedOk(INITIAL_STREAM, es, st);
  }

  // ---- The story of a stream -------------------------------------------------------

  /** The events of one direction. */
  function ReadsOf(es: seq<StreamEvent>): seq<Event> {
    if es == [] then [] else if es[0].Read? then [es[0].event] + ReadsOf(es[1..]) else ReadsOf(es[1..])
  }

  function WritesOf(es: seq<StreamEvent>): seq<Event> {
    if es == [] then [] else if es[0].Write? then [es[0].event] + WritesOf(es[1..]) else WritesOf(es[1..])
  }

  /** Every run: the two directions do not disturb each other, and the close disturbs neither. */
  lemma {:induction false} DirectionsApart(st: Stream, es: seq<StreamEvent>, st': Stream)
    requires StreamReaches(st, es, st')
    ensures Reaches(st.read, ReadsOf(es), st'.read) && Reaches(st.write, WritesOf(es), st'.write)
    decreases |es|
  {
    hide Step, Enabled;
    if es != [] {
      var e, st1 := es[0], After(st, es[0]);
      DirectionsApart(st1, es[1..], st');
      if e.Read? {
        assert ReadsOf(es)[0] == e.event && ReadsOf(es)[1..] == ReadsOf(es[1..]) && st1.write == st.write;
      } else if e.Write? {
        assert WritesOf(es)[0] == e.event && WritesOf(es)[1..] == WritesOf(es[1..]) && st1.read == st.read;
      } else {
        assert st1.read == st.read && st1.write == st.write;
      }
    }
  }

  /** A close that is not refused: nothing is in the way, or its cancel-all request went out. */
  predicate Accepts(st: Stream, e: StreamEvent) {
    e.Close? && (e.submitted || (st.read.phase.Idle? && st.write.phase.Idle?))
  }

  /** Whether some close of the run was not refused. */
  ghost predicate SomeAccepted(st: Stream, es: seq<StreamEvent>, st': Stream)
    requires StreamReaches(st, es, st')
    decreases |es|
  {
    es != [] && (Accepts(st, es[0]) || SomeAccepted(After(st, es[0]), es[1..], st'))
  }

  function CloseDones(es: seq<StreamEvent>): nat {
    if es == [] then 0 else (if es[0].CloseDone? then 1 else 0) + CloseDones(es[1..])
  }

  lemma {:induction false} AcceptedCloses(st: Stream, es: seq<StreamEvent>, st': Stream)
    requires StreamReaches(st, es, st')
    ensures st'.closing.Open? <==> st.closing.Open? && !SomeAccepted(st, es, st')
    ensures st'.log.cancelsDone == st.log.cancelsDone + CloseDones(es)
    decreases |es|
  {
    hide Step, Enabled;
    if es != [] { AcceptedCloses(After(st, es[0]), es[1..], st'); }
  }

  /**
   * Every run, from its events: the stream is open exactly if every close was refused, and it is closed exactly if one
   * was not and no request is owed any more.
   */
  lemma {:induction false} ClosedByEvents(es: seq<StreamEvent>, st: Stream)
    requires StreamReaches(INITIAL_STREAM, es, st)
    ensures st.closing.Open? <==> !SomeAccepted(INITIAL_STREAM, es, st)
    ensures st.closing.Closed? <==>
      && SomeAccepted(INITIAL_STREAM, es, st) && !Owed(st.read) && !Owed(st.write)
      && CloseDones(es) == st.log.cancelsSent
  {
    AcceptedCloses(INITIAL_STREAM, es, st);
    InitialOk();
    StreamReachedOk(INITIAL_STREAM, es, st);
  }
}
