/**
  One size class of the coroutine frame pool under every interleaving of its
  owner thread with foreign threads that free frames.

  Slots are addresses, 0 is null; `next` is the link word inside a free slot.
 */
module FramePool {
  import opened FrameLayout

  /** The owner runs, moves a stolen chain over to its free list, or links the slots of a new chunk. */
  datatype Owner = Running | Draining(list: nat) | Linking(slots: seq<nat>)

  /** A foreign thread; while it pushes it holds `node`, has read `seen` and may have linked the node to it. */
  datatype Foreign = Away | Pushing(node: nat, seen: nat, linked: bool)

  datatype Pool = Pool(
    next: map<nat, nat>,
    free: nat,
    remote: nat,
    owner: Owner,
    foreign: seq<Foreign>,
    live: set<nat>,
    slots: set<nat>)

  datatype Event =
    | Allocate
    | FreeLocal(node: nat)
    | Steal
    | MoveOne
    | AddChunk(added: seq<nat>)
    | LinkOne
    | BeginPush(thread: nat, node: nat)
    | LinkPush(thread: nat)
    | CasPush(thread: nat, spurious: bool)

  ghost predicate Enabled(p: Pool, e: Event) {
    match e
    case Allocate => p.owner.Running? && p.free != 0 && p.free in p.next
    case FreeLocal(n) => p.owner.Running? && n in p.live
    case Steal => p.owner.Running? && p.remote != 0
    case MoveOne => p.owner.Draining? && p.owner.list in p.next
    case AddChunk(added) =>
      p.owner.Running? && added != [] && NoDup(added) && forall n :: n in added ==> n != 0 && n !in p.slots
    case LinkOne => p.owner.Linking? && p.owner.slots != []
    case BeginPush(t, n) => t < |p.foreign| && p.foreign[t].Away? && n in p.live
    case LinkPush(t) => t < |p.foreign| && p.foreign[t].Pushing? && !p.foreign[t].linked
    case CasPush(t, _) => t < |p.foreign| && p.foreign[t].Pushing? && p.foreign[t].linked
  }

  function Step(p: Pool, e: Event): Pool
    requires Enabled(p, e)
  {
    match e
    case Allocate => p.(free := p.next[p.free], live := p.live + {p.free})
    case FreeLocal(n) => p.(next := p.next[n := p.free], free := n, live := p.live - {n})
    case Steal => p.(owner := Draining(p.remote), remote := 0)
    case MoveOne =>
      var n := p.owner.list;
      p.(next := p.next[n := p.free], free := n, owner := if p.next[n] == 0 then Running else Draining(p.next[n]))
    case AddChunk(added) => p.(slots := p.slots + (set n | n in added), owner := Linking(added))
    case LinkOne =>
      var n, rest := p.owner.slots[0], p.owner.slots[1..];
      p.(next := p.next[n := p.free], free := n, owner := if rest == [] then Running else Linking(rest))
    case BeginPush(t, n) => p.(foreign := p.foreign[t := Pushing(n, p.remote, false)], live := p.live - {n})
    case LinkPush(t) =>
      var f := p.foreign[t];
      p.(next := p.next[f.node := f.seen], foreign := p.foreign[t := f.(linked := true)])
    case CasPush(t, spurious) =>
      var f := p.foreign[t];
      if !spurious && p.remote == f.seen then p.(remote := f.node, foreign := p.foreign[t := Away])
      else p.(foreign := p.foreign[t := Pushing(f.node, p.remote, false)])
  }

  // ---- Lists -------------------------------------------------------------------

  ghost predicate NoDup(q: seq<nat>) {
    q != [] ==> q[0] !in q[1..] && NoDup(q[1..])
  }

  function Count(q: seq<nat>, n: nat): nat {
    if q == [] then 0 else (if q[0] == n then 1 else 0) + Count(q[1..], n)
  }

  /** The links from `head` on spell out `q`. */
  ghost predicate Chain(next: map<nat, nat>, head: nat, q: seq<nat>)
    decreases |q|
  {
    if q == [] then head == 0 else head == q[0] != 0 && head in next && Chain(next, next[head], q[1..])
  }

  ghost function Reversed(q: seq<nat>): seq<nat> {
    if q == [] then [] else Reversed(q[1..]) + [q[0]]
  }

  /** Pushing the elements of a list in front of another, one by one, puts them there in reverse. */
  lemma {:induction false} PushOne(q: seq<nat>, onto: seq<nat>)
    requires q != []
    ensures Reversed(q[1..]) + ([q[0]] + onto) == Reversed(q) + onto
  {
    assert Reversed(q) == Reversed(q[1..]) + [q[0]];
  }

  lemma {:induction false} ChainEmpty(next: map<nat, nat>, head: nat, q: seq<nat>)
    requires Chain(next, head, q)
    ensures q == [] <==> head == 0
  {
  }

  lemma {:induction false} ChainFrame(next: map<nat, nat>, head: nat, q: seq<nat>, n: nat, v: nat)
    requires Chain(next, head, q) && Count(q, n) == 0
    ensures Chain(next[n := v], head, q)
    decreases |q|
  {
    if q != [] { ChainFrame(next, next[head], q[1..], n, v); }
  }

  function Held(ts: seq<Foreign>, n: nat): nat {
    if ts == [] then 0 else (if ts[0].Pushing? && ts[0].node == n then 1 else 0) + Held(ts[1..], n)
  }

  lemma {:induction false} HeldUpdate(ts: seq<Foreign>, t: nat, f: Foreign, n: nat)
    requires t < |ts|
    ensures Held(ts[t := f], n) + (if ts[t].Pushing? && ts[t].node == n then 1 else 0)
      == Held(ts, n) + if f.Pushing? && f.node == n then 1 else 0
  {
    var ts' := ts[t := f];
    if t == 0 {
      assert ts'[1..] == ts[1..];
    } else {
      assert ts'[1..] == ts[1..][t - 1 := f] && ts'[0] == ts[0];
      HeldUpdate(ts[1..], t - 1, f, n);
    }
  }

  lemma {:induction false} CountNoDup(q: seq<nat>, n: nat)
    requires NoDup(q)
    ensures Count(q, n) == if n in q then 1 else 0
  {
    if q != [] { CountNoDup(q[1..], n); }
  }

  // ---- Invariant -----------------------------------------------------------------

  /** The lists as sequences: the owner's free list, the remote stack and what the owner is moving over. */
  datatype View = View(local: seq<nat>, remote: seq<nat>, moving: seq<nat>)

  ghost function Unlinked(p: Pool): seq<nat> {
    if p.owner.Linking? then p.owner.slots else []
  }

  /** In how many places a slot is. */
  ghost function Places(p: Pool, v: View, n: nat): nat {
    (if n in p.live then 1 else 0) + Count(v.local, n) + Count(v.remote, n) + Count(v.moving, n)
    + Held(p.foreign, n) + Count(Unlinked(p), n)
  }

  ghost predicate Spelled(p: Pool, v: View) {
    && Chain(p.next, p.free, v.local) && Chain(p.next, p.remote, v.remote)
    && (if p.owner.Draining? then v.moving != [] && Chain(p.next, p.owner.list, v.moving) else v.moving == [])
    && (p.owner.Linking? ==> p.owner.slots != [])
    && (forall t :: 0 <= t < |p.foreign| && p.foreign[t].Pushing? && p.foreign[t].linked ==> Points(p, p.foreign[t]))
  }

  /** A pusher's node, once linked, points to what the pusher read. */
  ghost predicate Points(p: Pool, f: Foreign)
    requires f.Pushing?
  {
    f.node in p.next && p.next[f.node] == f.seen
  }

  /** Every slot is in exactly one place, nothing else is anywhere. */
  ghost predicate Good(p: Pool, v: View) {
    && Spelled(p, v) && 0 !in p.slots
    && forall n: nat :: Places(p, v, n) == if n in p.slots then 1 else 0
  }

  // ---- Every step keeps it -------------------------------------------------------

  /** Writing the link of a slot that no list and no linked pusher uses leaves the lists as they are. */
  lemma {:induction false} WriteLink(p: Pool, v: View, n: nat, x: nat)
    requires Spelled(p, v) && Count(v.local, n) == 0 && Count(v.remote, n) == 0 && Count(v.moving, n) == 0
    requires forall t :: 0 <= t < |p.foreign| && p.foreign[t].Pushing? && p.foreign[t].linked ==> p.foreign[t].node != n
    ensures Spelled(p.(next := p.next[n := x]), v)
  {
    ChainFrame(p.next, p.free, v.local, n, x);
    ChainFrame(p.next, p.remote, v.remote, n, x);
    if p.owner.Draining? { ChainFrame(p.next, p.owner.list, v.moving, n, x); }
    var p' := p.(next := p.next[n := x]);
    forall t | 0 <= t < |p.foreign| && p.foreign[t].Pushing? && p.foreign[t].linked ensures Points(p', p.foreign[t]) {
      assert Points(p, p.foreign[t]);
    }
  }

  lemma {:induction false} HeldSome(ts: seq<Foreign>, t: nat)
    requires t < |ts| && ts[t].Pushing?
    ensures Held(ts, ts[t].node) >= 1
  {
    if t > 0 { HeldSome(ts[1..], t - 1); }
  }

  /** A slot held by nobody but pusher `t` is no other pusher's node. */
  lemma {:induction false} HeldOnce(ts: seq<Foreign>, t: nat, u: nat)
    requires t < |ts| && u < |ts| && t != u && ts[t].Pushing? && ts[u].Pushing? && ts[t].node == ts[u].node
    ensures Held(ts, ts[t].node) >= 2
  {
    var n := ts[t].node;
    HeldUpdate(ts, t, Away, n);
    assert ts[t := Away][u] == ts[u];
    HeldSome(ts[t := Away], u);
  }

  lemma {:induction false} NotPushed(p: Pool, v: View, n: nat)
    requires Held(p.foreign, n) == 0
    ensures forall t :: 0 <= t < |p.foreign| && p.foreign[t].Pushing? ==> p.foreign[t].node != n
  {
    forall t | 0 <= t < |p.foreign| && p.foreign[t].Pushing? ensures p.foreign[t].node != n { HeldSome(p.foreign, t); }
  }

  /** The owner puts `n`, a slot that is in one place outside the lists, at the front of its free list. */
  lemma {:induction false} LinkFront(p: Pool, v: View, n: nat)
    requires Spelled(p, v) && n != 0 && Held(p.foreign, n) == 0
    requires Count(v.local, n) == 0 && Count(v.remote, n) == 0 && Count(v.moving, n) == 0
    ensures Spelled(p.(next := p.next[n := p.free], free := n), v.(local := [n] + v.local))
  {
    NotPushed(p, v, n);
    WriteLink(p, v, n, p.free);
    assert ([n] + v.local)[1..] == v.local;
  }

  lemma {:induction false} CountCons(n: nat, q: seq<nat>, m: nat)
    ensures Count([n] + q, m) == (if n == m then 1 else 0) + Count(q, m)
  {
    assert ([n] + q)[1..] == q;
  }

  lemma {:induction false} AllocateGood(p: Pool, v: View) returns (v': View)
    requires Good(p, v) && Enabled(p, Allocate)
    ensures v.local != [] && v.local[0] == p.free && v' == v.(local := v.local[1..])
    ensures Good(Step(p, Allocate), v') && p.free in p.slots && p.free !in p.live
  {
    v' := v.(local := v.local[1..]);
    var n := p.free;
    assert Places(p, v, n) == 1;
    var p' := Step(p, Allocate);
    forall m: nat ensures Places(p', v', m) == if m in p.slots then 1 else 0 {
      assert Places(p, v, m) == if m in p.slots then 1 else 0;
    }
  }

  lemma {:induction false} FreeLocalGood(p: Pool, v: View, n: nat) returns (v': View)
    requires Good(p, v) && Enabled(p, FreeLocal(n))
    ensures Good(Step(p, FreeLocal(n)), v') && v' == v.(local := [n] + v.local)
  {
    assert Places(p, v, n) == if n in p.slots then 1 else 0;
    LinkFront(p, v, n);
    v' := v.(local := [n] + v.local);
    var p' := Step(p, FreeLocal(n));
    forall m: nat ensures Places(p', v', m) == if m in p.slots then 1 else 0 {
      assert Places(p, v, m) == if m in p.slots then 1 else 0;
      CountCons(n, v.local, m);
    }
  }

  lemma {:induction false} StealGood(p: Pool, v: View) returns (v': View)
    requires Good(p, v) && Enabled(p, Steal)
    ensures Good(Step(p, Steal), v') && v' == View(v.local, [], v.remote)
  {
    v' := View(v.local, [], v.remote);
    var p' := Step(p, Steal);
    forall m: nat ensures Places(p', v', m) == if m in p.slots then 1 else 0 {
      assert Places(p, v, m) == if m in p.slots then 1 else 0;
    }
  }

  lemma {:induction false} MoveOneGood(p: Pool, v: View) returns (v': View)
    requires Good(p, v) && Enabled(p, MoveOne)
    ensures v.moving != [] && v' == View([v.moving[0]] + v.local, v.remote, v.moving[1..])
    ensures Good(Step(p, MoveOne), v')
  {
    var n, rest := v.moving[0], v.moving[1..];
    assert Places(p, v, n) == if n in p.slots then 1 else 0;
    var p1 := p.(owner := if p.next[n] == 0 then Running else Draining(p.next[n]));
    ChainEmpty(p.next, p.next[n], rest);
    LinkFront(p1, v.(moving := rest), n);
    v' := View([n] + v.local, v.remote, rest);
    var p' := Step(p, MoveOne);
    forall m: nat ensures Places(p', v', m) == if m in p.slots then 1 else 0 {
      assert Places(p, v, m) == if m in p.slots then 1 else 0;
      CountCons(n, v.local, m);
    }
  }

  lemma {:induction false} AddChunkGood(p: Pool, v: View, added: seq<nat>)
    requires Good(p, v) && Enabled(p, AddChunk(added))
    ensures Good(Step(p, AddChunk(added)), v)
  {
    var p' := Step(p, AddChunk(added));
    forall m: nat ensures Places(p', v, m) == if m in p'.slots then 1 else 0 {
      assert Places(p, v, m) == if m in p.slots then 1 else 0;
      CountNoDup(added, m);
    }
  }

  lemma {:induction false} LinkOneGood(p: Pool, v: View) returns (v': View)
    requires Good(p, v) && Enabled(p, LinkOne)
    ensures Good(Step(p, LinkOne), v') && v' == v.(local := [p.owner.slots[0]] + v.local)
  {
    var n, rest := p.owner.slots[0], p.owner.slots[1..];
    assert Places(p, v, n) == if n in p.slots then 1 else 0;
    var p1 := p.(owner := if rest == [] then Running else Linking(rest));
    LinkFront(p1, v, n);
    v' := v.(local := [n] + v.local);
    var p' := Step(p, LinkOne);
    forall m: nat ensures Places(p', v', m) == if m in p.slots then 1 else 0 {
      assert Places(p, v, m) == if m in p.slots then 1 else 0;
      CountCons(n, v.local, m);
    }
  }

  lemma {:induction false} BeginPushGood(p: Pool, v: View, t: nat, n: nat)
    requires Good(p, v) && Enabled(p, BeginPush(t, n))
    ensures Good(Step(p, BeginPush(t, n)), v)
  {
    var p' := Step(p, BeginPush(t, n));
    forall m: nat ensures Places(p', v, m) == if m in p.slots then 1 else 0 {
      assert Places(p, v, m) == if m in p.slots then 1 else 0;
      HeldUpdate(p.foreign, t, p'.foreign[t], m);
    }
    forall u | 0 <= u < |p'.foreign| && p'.foreign[u].Pushing? && p'.foreign[u].linked
      ensures Points(p', p'.foreign[u]) {
      assert u != t && Points(p, p.foreign[u]);
    }
  }

  lemma {:induction false} LinkPushGood(p: Pool, v: View, t: nat)
    requires Good(p, v) && Enabled(p, LinkPush(t))
    ensures Good(Step(p, LinkPush(t)), v)
  {
    var f, p' := p.foreign[t], Step(p, LinkPush(t));
    assert Places(p, v, f.node) == if f.node in p.slots then 1 else 0;
    HeldSome(p.foreign, t);
    forall u | 0 <= u < |p.foreign| && p.foreign[u].Pushing? && p.foreign[u].linked
      ensures p.foreign[u].node != f.node {
      if p.foreign[u].node == f.node { HeldOnce(p.foreign, t, u); }
    }
    WriteLink(p, v, f.node, f.seen);
    forall m: nat ensures Places(p', v, m) == if m in p.slots then 1 else 0 {
      assert Places(p, v, m) == if m in p.slots then 1 else 0;
      HeldUpdate(p.foreign, t, p'.foreign[t], m);
    }
    forall u | 0 <= u < |p'.foreign| && p'.foreign[u].Pushing? && p'.foreign[u].linked
      ensures Points(p', p'.foreign[u]) {
      if u != t { assert Points(p.(next := p.next[f.node := f.seen]), p.foreign[u]); }
    }
  }

  /** The compare-and-swap of thread `t` finds the head of the remote stack that the thread has read. */
  predicate Swaps(p: Pool, t: nat, spurious: bool)
    requires t < |p.foreign| && p.foreign[t].Pushing?
  {
    !spurious && p.remote == p.foreign[t].seen
  }

  lemma {:induction false} CasPushGood(p: Pool, v: View, t: nat, spurious: bool) returns (v': View)
    requires Good(p, v) && Enabled(p, CasPush(t, spurious))
    ensures Good(Step(p, CasPush(t, spurious)), v')
    ensures v' == if Swaps(p, t, spurious) then v.(remote := [p.foreign[t].node] + v.remote) else v
  {
    var f, p' := p.foreign[t], Step(p, CasPush(t, spurious));
    var won := !spurious && p.remote == f.seen;
    v' := if won then v.(remote := [f.node] + v.remote) else v;
    HeldSome(p.foreign, t);
    assert Points(p, f) && Places(p, v, f.node) == if f.node in p.slots then 1 else 0;
    assert ([f.node] + v.remote)[1..] == v.remote;
    forall m: nat ensures Places(p', v', m) == if m in p.slots then 1 else 0 {
      assert Places(p, v, m) == if m in p.slots then 1 else 0;
      HeldUpdate(p.foreign, t, p'.foreign[t], m);
      CountCons(f.node, v.remote, m);
    }
    forall u | 0 <= u < |p'.foreign| && p'.foreign[u].Pushing? && p'.foreign[u].linked
      ensures Points(p', p'.foreign[u]) {
      assert u != t && Points(p, p.foreign[u]);
    }
  }

  /** What an event does to the lists. */
  ghost function Shifted(p: Pool, v: View, e: Event): View {
    match e
    case Allocate => if v.local == [] then v else v.(local := v.local[1..])
    case FreeLocal(n) => v.(local := [n] + v.local)
    case Steal => View(v.local, [], v.remote)
    case MoveOne => if v.moving == [] then v else View([v.moving[0]] + v.local, v.remote, v.moving[1..])
    case AddChunk(_) => v
    case LinkOne => if Unlinked(p) == [] then v else v.(local := [Unlinked(p)[0]] + v.local)
    case BeginPush(_, _) => v
    case LinkPush(_) => v
    case CasPush(t, spurious) =>
      if t < |p.foreign| && p.foreign[t].Pushing? && Swaps(p, t, spurious)
      then v.(remote := [p.foreign[t].node] + v.remote) else v
  }

  lemma {:induction false} StepGood(p: Pool, v: View, e: Event) returns (v': View)
    requires Good(p, v) && Enabled(p, e)
    ensures Good(Step(p, e), v') && v' == Shifted(p, v, e)
  {
    v' := v;
    match e
    case Allocate => v' := AllocateGood(p, v);
    case FreeLocal(n) => v' := FreeLocalGood(p, v, n);
    case Steal => v' := StealGood(p, v);
    case MoveOne => v' := MoveOneGood(p, v);
    case AddChunk(added) => AddChunkGood(p, v, added);
    case LinkOne => v' := LinkOneGood(p, v);
    case BeginPush(t, n) => BeginPushGood(p, v, t, n);
    case LinkPush(t) => LinkPushGood(p, v, t);
    case CasPush(t, spurious) => v' := CasPushGood(p, v, t, spurious);
  }

  // ---- Every interleaving --------------------------------------------------------

  ghost function Empty(threads: nat): Pool {
    Pool(map[], 0, 0, Running, seq(threads, _ => Away), {}, {})
  }

  ghost predicate Reaches(p: Pool, es: seq<Event>, p': Pool)
    decreases |es|
  {
    if es == [] then p' == p else Enabled(p, es[0]) && Reaches(Step(p, es[0]), es[1..], p')
  }

  lemma {:induction false} ReachedGood(p: Pool, v: View, es: seq<Event>, p': Pool) returns (v': View)
    requires Good(p, v) && Reaches(p, es, p')
    ensures Good(p', v')
    decreases |es|
  {
    if es == [] {
      v' := v;
    } else {
      var v1 := StepGood(p, v, es[0]);
      v' := ReachedGood(Step(p, es[0]), v1, es[1..], p');
    }
  }

  lemma {:induction false} NobodyPushes(ts: seq<Foreign>, n: nat)
    requires forall t :: 0 <= t < |ts| ==> ts[t].Away?
    ensures Held(ts, n) == 0
  {
    if ts != [] { NobodyPushes(ts[1..], n); }
  }

  /**
   * Every interleaving of the owner with any number of foreign threads: the three lists are well formed, and each slot
   * of each chunk is in exactly one of: handed out, the free list, the remote stack, the chain being moved, a pusher's
   * hands, the chunk being linked.
   */
  lemma {:induction false} SlotsConserved(threads: nat, es: seq<Event>, p: Pool) returns (v: View)
    requires Reaches(Empty(threads), es, p)
    ensures Good(p, v)
  {
    var start, lists := Empty(threads), View([], [], []);
    forall n: nat ensures Places(start, lists, n) == 0 { NobodyPushes(start.foreign, n); }
    v := ReachedGood(start, lists, es, p);
  }

  /** Every interleaving: what the pool hands out is a slot of the pool that nobody has. */
  lemma {:induction false} NeverHandedOutTwice(threads: nat, es: seq<Event>, p: Pool)
    requires Reaches(Empty(threads), es, p) && Enabled(p, Allocate)
    ensures p.free in p.slots && p.free !in p.live
    ensures forall t :: 0 <= t < |p.foreign| && p.foreign[t].Pushing? ==> p.foreign[t].node != p.free
  {
    var v := SlotsConserved(threads, es, p);
    var _ := AllocateGood(p, v);
    assert Places(p, v, p.free) == 1;
    NotPushed(p, v, p.free);
  }

  // ---- What the callers know ---------------------------------------------------------

  /** The node that a foreign thread is pushing, and the head of the remote stack as it last read it. */
  datatype Hand = Hand(node: nat, seen: nat)

  /** The slots there are, those handed out and not given back since, and the pushes under way. */
  datatype Account = Account(slots: set<nat>, out: set<nat>, hands: map<nat, Hand>)

  const NOTHING := Account({}, {}, map[])

  /** An event as its caller sees it; an allocation gets `free`, and a read of the remote stack gives `remote`. */
  function Noted(a: Account, e: Event, free: nat, remote: nat): Account {
    match e
    case Allocate => a.(out := a.out + {free})
    case FreeLocal(n) => a.(out := a.out - {n})
    case AddChunk(added) => a.(slots := a.slots + (set n | n in added))
    case BeginPush(t, n) => a.(out := a.out - {n}, hands := a.hands[t := Hand(n, remote)])
    case CasPush(t, spurious) =>
      if t !in a.hands then a
      else if !spurious && remote == a.hands[t].seen then a.(hands := a.hands - {t})
      else a.(hands := a.hands[t := a.hands[t].(seen := remote)])
    case _ => a
  }

  ghost function NotedAll(p: Pool, es: seq<Event>, p': Pool, a: Account): Account
    requires Reaches(p, es, p')
    decreases |es|
  {
    if es == [] then a else NotedAll(Step(p, es[0]), es[1..], p', Noted(a, es[0], p.free, p.remote))
  }

  ghost predicate Agrees(p: Pool, a: Account) {
    && p.slots == a.slots && p.live == a.out
    && (forall t :: t in a.hands ==> t < |p.foreign|)
    && (forall t :: 0 <= t < |p.foreign| ==> (p.foreign[t].Pushing? <==> t in a.hands))
    && (forall t :: t in a.hands ==> a.hands[t] == Hand(p.foreign[t].node, p.foreign[t].seen))
  }

  lemma {:induction false} StepAgrees(p: Pool, e: Event, a: Account)
    requires Enabled(p, e) && Agrees(p, a)
    ensures Agrees(Step(p, e), Noted(a, e, p.free, p.remote))
  {
  }

  lemma {:induction false} RunAgrees(p: Pool, es: seq<Event>, p': Pool, a: Account)
    requires Reaches(p, es, p') && Agrees(p, a)
    ensures Agrees(p', NotedAll(p, es, p', a))
    decreases |es|
  {
    hide Step, Noted, Agrees;
    if es != [] {
      StepAgrees(p, es[0], a);
      RunAgrees(Step(p, es[0]), es[1..], p', Noted(a, es[0], p.free, p.remote));
    }
  }

  /**
   * Every interleaving, from its events: the slots in use are exactly those handed out and not given back since, by the
   * owner or by a push; the threads at a push are those that began one and have not swapped; and every other slot is
   * once in the free list, the remote stack or the chain being moved, or still to be linked.
   */
  lemma {:induction false} GivenBackIsFree(threads: nat, es: seq<Event>, p: Pool) returns (v: View)
    requires Reaches(Empty(threads), es, p)
    ensures Good(p, v)
    ensures var a := NotedAll(Empty(threads), es, p, NOTHING);
      && p.slots == a.slots && p.live == a.out
      && (forall t :: 0 <= t < |p.foreign| ==> (p.foreign[t].Pushing? <==> t in a.hands))
      && (forall t :: t in a.hands ==> t < |p.foreign| && p.foreign[t].node == a.hands[t].node)
      && (forall n :: n in p.slots && n !in a.out && (forall t :: t in a.hands ==> a.hands[t].node != n) ==>
            Count(v.local, n) + Count(v.remote, n) + Count(v.moving, n) + Count(Unlinked(p), n) == 1)
  {
    v := SlotsConserved(threads, es, p);
    RunAgrees(Empty(threads), es, p, NOTHING);
    var a := NotedAll(Empty(threads), es, p, NOTHING);
    forall n | n in p.slots && n !in a.out && (forall t :: t in a.hands ==> a.hands[t].node != n)
      ensures Count(v.local, n) + Count(v.remote, n) + Count(v.moving, n) + Count(Unlinked(p), n) == 1
    {
      assert Places(p, v, n) == 1;
      NobodyHolds(p.foreign, n);
    }
  }

  lemma {:induction false} NobodyHolds(ts: seq<Foreign>, n: nat)
    requires forall t :: 0 <= t < |ts| && ts[t].Pushing? ==> ts[t].node != n
    ensures Held(ts, n) == 0
  {
    if ts != [] { NobodyHolds(ts[1..], n); }
  }

  /** A push that no other thread disturbs ends with the slot on top of the remote stack. */
  lemma {:induction false} PushAlone(p: Pool, v: View, t: nat, n: nat) returns (p': Pool)
    requires Good(p, v) && t < |p.foreign| && p.foreign[t].Away? && n in p.live
    ensures Reaches(p, [BeginPush(t, n), LinkPush(t), CasPush(t, false)], p')
    ensures Good(p', v.(remote := [n] + v.remote)) && p'.live == p.live - {n} && p'.foreign == p.foreign
  {
    var es := [BeginPush(t, n), LinkPush(t), CasPush(t, false)];
    var p1 := Step(p, es[0]);
    BeginPushGood(p, v, t, n);
    var p2 := Step(p1, es[1]);
    LinkPushGood(p1, v, t);
    p' := Step(p2, es[2]);
    var v' := CasPushGood(p2, v, t, false);
    assert p'.foreign == p.foreign;
    var last := [es[2]];
    assert last[1..] == [] && Reaches(p', [], p') && Reaches(p2, last, p');
    var rest := [es[1]] + last;
    assert rest[1..] == last && Reaches(p1, rest, p');
    assert es[1..] == rest;
  }

  // ---- The owner's code ----------------------------------------------------------

  lemma {:induction false} ReachesNext(p: Pool, es: seq<Event>, q: Pool, e: Event)
    requires Reaches(p, es, q) && Enabled(q, e)
    ensures Reaches(p, es + [e], Step(q, e))
    decreases |es|
  {
    if es == [] {
      assert es + [e] == [e] && [e][1..] == [];
    } else {
      assert (es + [e])[0] == es[0] && (es + [e])[1..] == es[1..] + [e];
      ReachesNext(Step(p, es[0]), es[1..], q, e);
    }
  }

  /** A run from `start` that has led to `p`, and the lists there. */
  ghost predicate InRun(start: Pool, es: seq<Event>, p: Pool, v: View) {
    Reaches(start, es, p) && Good(p, v)
  }

  lemma {:induction false} InRunNext(start: Pool, es: seq<Event>, p: Pool, v: View, e: Event, v': View)
    requires InRun(start, es, p, v) && Enabled(p, e) && Good(Step(p, e), v')
    ensures InRun(start, es + [e], Step(p, e), v')
  {
    ReachesNext(start, es, p, e);
  }

  predicate IsForeign(e: Event) { e.BeginPush? || e.LinkPush? || e.CasPush? }

  /** A step of a foreign thread leaves what the owner is moving alone. */
  lemma {:induction false} ForeignGood(p: Pool, v: View, e: Event) returns (v': View)
    requires Good(p, v) && Enabled(p, e) && IsForeign(e)
    ensures Good(Step(p, e), v') && v' == Shifted(p, v, e)
  {
    v' := v;
    match e
    case BeginPush(t, n) => BeginPushGood(p, v, t, n);
    case LinkPush(t) => LinkPushGood(p, v, t);
    case CasPush(t, spurious) => v' := CasPushGood(p, v, t, spurious);
  }

  /** The steps of foreign threads, as far as they are possible one after the other. */
  ghost function Interleaved(p: Pool, es: seq<Event>): Pool
    decreases |es|
  {
    if es == [] then p
    else
      var q, e := Interleaved(p, es[..|es| - 1]), es[|es| - 1];
      if IsForeign(e) && Enabled(q, e) then Step(q, e) else q
  }

  lemma {:induction false} InterleavedNext(p: Pool, es: seq<Event>, i: nat)
    requires i < |es|
    ensures var q := Interleaved(p, es[..i]);
      Interleaved(p, es[..i + 1]) == if IsForeign(es[i]) && Enabled(q, es[i]) then Step(q, es[i]) else q
  {
    assert es[..i + 1][..i] == es[..i];
  }

  function At(schedule: seq<seq<Event>>, k: nat): seq<Event> { if k < |schedule| then schedule[k] else [] }

  /** The owner makes `n` steps `e`, and after each of them foreign threads do what the schedule says. */
  ghost function Repeated(p: Pool, e: Event, n: nat, schedule: seq<seq<Event>>, k: nat): Pool
    decreases n
  {
    if n == 0 || !Enabled(p, e) then p
    else Repeated(Interleaved(Step(p, e), At(schedule, k)), e, n - 1, schedule, k + 1)
  }

  ghost function ChunkSlots(base: nat, size: nat, count: nat): seq<nat> {
    seq(count, i requires 0 <= i => SlotAt(base, size, i))
  }

  lemma {:induction false} ChunkNoDup(base: nat, size: nat, count: nat, i: nat)
    requires size > 0 && i <= count
    ensures NoDup(ChunkSlots(base, size, count)[i..])
    decreases count - i
  {
    var all := ChunkSlots(base, size, count);
    if i < count {
      ChunkNoDup(base, size, count, i + 1);
      assert all[i..][1..] == all[i + 1..];
      forall j | i < j < count ensures all[j] != all[i] {
        MulMonotone(i + 1, j, size);
        assert (i + 1) * size == i * size + size;
      }
    }
  }

  /**
   * A size class.  `start` is where its run began and `events` what happened since; the owner's methods take a schedule
   * that says which foreign threads make a step between any two of the owner's.
   */
  class SizeClass {
    var next: map<nat, nat>
    var free: nat
    var remote: nat
    var foreign: seq<Foreign>
    var live: set<nat>
    ghost var owner: Owner
    ghost var slots: set<nat>
    ghost const start: Pool
    ghost var events: seq<Event>
    ghost var view: View

    ghost function State(): Pool
      reads this
    {
      Pool(next, free, remote, owner, foreign, live, slots)
    }

    ghost predicate Valid()
      reads this
    {
      InRun(start, events, State(), view)
    }

    constructor (threads: nat)
      ensures Valid() && State() == start == Empty(threads)
    {
      next, free, remote, foreign, live := map[], 0, 0, seq(threads, _ => Away), {};
      owner, slots, start, events, view := Running, {}, Empty(threads), [], View([], [], []);
      new;
      forall n: nat ensures Places(State(), view, n) == 0 { NobodyPushes(foreign, n); }
    }

    // ---- Foreign threads ---------------------------------------------------------

    /** A foreign thread makes a step of its push, if it can. */
    method PushStep(e: Event)
      requires Valid()
      modifies this`next, this`remote, this`foreign, this`live, this`events, this`view
      ensures Valid() && old(events) <= events && view.moving == old(view).moving && view.local == old(view).local
      ensures if IsForeign(e) && Enabled(old(State()), e)
              then && State() == Step(old(State()), e) && events == old(events) + [e]
                   && view == Shifted(old(State()), old(view), e)
              else State() == old(State()) && events == old(events) && view == old(view)
    {
      if !Possible(e) {
        return;
      }
      ghost var v := ForeignGood(State(), view, e);
      InRunNext(start, events, State(), view, e, v);
      events, view := events + [e], v;
      match e {
        case BeginPush(t, n) =>
          foreign, live := foreign[t := Pushing(n, remote, false)], live - {n};
        case LinkPush(t) =>
          var f := foreign[t];
          next, foreign := next[f.node := f.seen], foreign[t := f.(linked := true)];
        case CasPush(t, spurious) =>
          var f := foreign[t];
          if !spurious && remote == f.seen {
            remote, foreign := f.node, foreign[t := Away];
          } else {
            foreign := foreign[t := Pushing(f.node, remote, false)];
          }
      }
    }

    /** Whether `e` is a step that a foreign thread can make. */
    predicate Possible(e: Event)
      reads this
      ensures Possible(e) <==> IsForeign(e) && Enabled(State(), e)
    {
      match e
      case BeginPush(t, n) => t < |foreign| && foreign[t].Away? && n in live
      case LinkPush(t) => t < |foreign| && foreign[t].Pushing? && !foreign[t].linked
      case CasPush(t, _) => t < |foreign| && foreign[t].Pushing? && foreign[t].linked
      case _ => false
    }

    /** Foreign threads make the steps `es`, as far as they can. */
    method Others(es: seq<Event>)
      requires Valid()
      modifies this`next, this`remote, this`foreign, this`live, this`events, this`view
      ensures Valid() && old(events) <= events && view.moving == old(view).moving && view.local == old(view).local
      ensures State() == Interleaved(old(State()), es)
    {
      hide InRun, Step, Enabled, Shifted;
      for i := 0 to |es|
        invariant Valid() && old(events) <= events && view.moving == old(view).moving && view.local == old(view).local
        invariant State() == Interleaved(old(State()), es[..i])
      {
        PushStep(es[i]);
        InterleavedNext(old(State()), es, i);
      }
      assert es[..|es|] == es;
    }

    // ---- The owner -----------------------------------------------------------------

    /** Steals the remote stack and moves it over to the free list, slot by slot, while others push. */
    method DrainRemote(schedule: seq<seq<Event>>)
      requires Valid() && owner.Running?
      modifies this
      ensures Valid() && old(events) <= events && owner.Running? && slots == old(slots)
      ensures view.local == Reversed(old(view).remote) + old(view).local
      ensures old(remote) != 0 ==> free != 0
      ensures State() == if old(remote) == 0 then old(State())
                         else Repeated(Step(old(State()), Steal), MoveOne, |old(view).remote|, schedule, 0)
    {
      hide InRun, Step, Interleaved, Enabled;
      if remote == 0 {
        NothingRemote();
        return;
      }
      var list := StealRemote();
      var k := 0;
      ghost var target := Repeated(State(), MoveOne, |view.moving|, schedule, 0);
      while list != 0
        invariant Repeated(State(), MoveOne, |view.moving|, schedule, k) == target
        invariant Valid() && old(events) <= events && slots == old(slots)
        invariant if list == 0 then owner.Running? && free != 0 && view.moving == [] else owner == Draining(list)
        invariant Reversed(view.moving) + view.local == Reversed(old(view).remote) + old(view).local
        decreases |view.moving|
      {
        ghost var moving, local := view.moving, view.local;
        list := MoveOver(list);
        PushOne(moving, local);
        Others(At(schedule, k));
        k := k + 1;
      }
    }

    lemma NothingRemote()
      requires Valid() && remote == 0
      ensures view.remote == []
    {
      ChainEmpty(next, remote, view.remote);
    }

    /** Exchanges the remote stack for an empty one. */
    method StealRemote() returns (list: nat)
      requires Valid() && owner.Running? && remote != 0
      modifies this`remote, this`owner, this`events, this`view
      ensures Valid() && old(events) <= events && list == old(remote) && remote == 0 && owner == Draining(list)
      ensures view == View(old(view).local, [], old(view).remote)
      ensures Enabled(old(State()), Steal) && State() == Step(old(State()), Steal)
    {
      ghost var v := StealGood(State(), view);
      InRunNext(start, events, State(), view, Steal, v);
      events, view := events + [Steal], v;
      list := remote;
      remote, owner := 0, Draining(remote);
    }

    method MoveOver(list: nat) returns (after: nat)
      requires Valid() && list != 0 && owner == Draining(list)
      modifies this`next, this`free, this`owner, this`events, this`view
      ensures Valid() && old(events) <= events && free == list && old(view).moving != []
      ensures view == View([old(view).moving[0]] + old(view).local, old(view).remote, old(view).moving[1..])
      ensures after == 0 ==> view.moving == []
      ensures Enabled(old(State()), MoveOne) && State() == Step(old(State()), MoveOne)
      ensures owner == if after == 0 then Running else Draining(after)
    {
      ghost var v := MoveOneGood(State(), view);
      InRunNext(start, events, State(), view, MoveOne, v);
      events, view := events + [MoveOne], v;
      after := next[list];
      next := next[list := free];
      free := list;
      owner := if after == 0 then Running else Draining(after);
    }

    /** Links all slots of a new chunk in front of the free list, while others push. */
    method AddChunk(base: nat, size: nat, count: nat, schedule: seq<seq<Event>>)
      requires Valid() && owner.Running? && size > 0 && count > 0
      requires forall n :: n in ChunkSlots(base, size, count) ==> n !in slots
      modifies this
      ensures Valid() && old(events) <= events && owner.Running? && free != 0
      ensures slots == old(slots) + (set n | n in ChunkSlots(base, size, count))
      ensures view.local == Reversed(ChunkSlots(base, size, count)) + old(view).local
      ensures var e := Event.AddChunk(ChunkSlots(base, size, count));
        Enabled(old(State()), e) && State() == Repeated(Step(old(State()), e), LinkOne, count, schedule, 0)
    {
      hide InRun, Interleaved;
      ghost var added := ChunkSlots(base, size, count);
      OpenChunk(added, base, size, count);
      assert added[0..] == added;
      ghost var target := Repeated(State(), LinkOne, count, schedule, 0);
      for i := 0 to count
        invariant Repeated(State(), LinkOne, count - i, schedule, i) == target
        invariant Valid() && old(events) <= events && slots == old(slots) + (set n | n in added)
        invariant owner == if i == count then Running else Linking(added[i..])
        invariant i > 0 ==> free != 0
        invariant Reversed(added[i..]) + view.local == Reversed(added) + old(view).local
      {
        PushOne(added[i..], view.local);
        assert added[i..] == [added[i]] + added[i + 1..];
        LinkNext(SlotAt(base, size, i), added[i + 1..]);
        Others(At(schedule, i));
      }
    }

    ghost method OpenChunk(added: seq<nat>, base: nat, size: nat, count: nat)
      requires Valid() && owner.Running? && size > 0 && count > 0 && added == ChunkSlots(base, size, count)
      requires forall n :: n in added ==> n !in slots
      modifies this`slots, this`owner, this`events
      ensures Valid() && old(events) <= events && slots == old(slots) + (set n | n in added) && owner == Linking(added)
      ensures Enabled(old(State()), Event.AddChunk(added)) && State() == Step(old(State()), Event.AddChunk(added))
    {
      ChunkNoDup(base, size, count, 0);
      assert added[0..] == added;
      AddChunkGood(State(), view, added);
      InRunNext(start, events, State(), view, Event.AddChunk(added), view);
      events := events + [Event.AddChunk(added)];
      slots, owner := slots + (set n | n in added), Linking(added);
    }

    method LinkNext(node: nat, ghost rest: seq<nat>)
      requires Valid() && owner == Linking([node] + rest)
      modifies this`next, this`free, this`owner, this`events, this`view
      ensures Valid() && old(events) <= events && free == node != 0 && view.local == [node] + old(view).local
      ensures owner == if rest == [] then Running else Linking(rest)
      ensures Enabled(old(State()), LinkOne) && State() == Step(old(State()), LinkOne)
    {
      ghost var v := LinkOneGood(State(), view);
      InRunNext(start, events, State(), view, LinkOne, v);
      assert ([node] + rest)[1..] == rest;
      CountCons(node, rest, node);
      assert Places(State(), view, node) >= 1;
      events, view := events + [LinkOne], v;
      next := next[node := free];
      free := node;
      owner := if rest == [] then Running else Linking(rest);
    }

    /**
     * Hands out a slot: from the free list, else from the remote stack, else from a new chunk at `base`.  In the state
     * `before` it is handed out nobody has it.
     */
    method Allocate(base: nat, size: nat, count: nat, schedule: seq<seq<Event>>) returns (node: nat, ghost before: Pool)
      requires Valid() && owner.Running? && size > 0 && count > 0
      requires forall n :: n in ChunkSlots(base, size, count) ==> n !in slots
      modifies this
      ensures Valid() && old(events) <= events && owner.Running? && node in live && node in slots
      ensures Enabled(before, Event.Allocate) && State() == Step(before, Event.Allocate)
      ensures node == before.free && node !in before.live && Held(before.foreign, node) == 0
      ensures live == before.live + {node}
      ensures old(free) != 0 ==> before == old(State()) && view.local == old(view).local[1..]
      ensures old(free) != 0 || old(remote) != 0 ==> slots == old(slots)
    {
      hide InRun;
      if free == 0 {
        DrainRemote(schedule);
      }
      if free == 0 {
        AddChunk(base, size, count, schedule);
      }
      node, before := TakeFirst();
    }

    method TakeFirst() returns (node: nat, ghost before: Pool)
      requires Valid() && owner.Running? && free != 0
      modifies this`free, this`live, this`events, this`view
      ensures Valid() && old(events) <= events && before == old(State()) && node in live && node in slots
      ensures Enabled(before, Event.Allocate) && State() == Step(before, Event.Allocate)
      ensures node == before.free && node !in before.live && Held(before.foreign, node) == 0
      ensures live == before.live + {node} && owner == old(owner) && slots == old(slots)
      ensures old(view).local != [] && node == old(view).local[0] && view == old(view).(local := old(view).local[1..])
    {
      before := State();
      ChainEmpty(next, free, view.local);
      ghost var v := AllocateGood(before, view);
      assert Places(before, view, free) == 1 && Count(view.local, free) >= 1;
      InRunNext(start, events, before, view, Event.Allocate, v);
      events, view := events + [Event.Allocate], v;
      node := free;
      free := next[node];
      live := live + {node};
    }

    /** The owner gives a slot back. */
    method FreeLocal(node: nat)
      requires Valid() && owner.Running? && node in live
      modifies this
      ensures Valid() && State() == Step(old(State()), Event.FreeLocal(node))
        && events == old(events) + [Event.FreeLocal(node)]
      ensures live == old(live) - {node} && free == node && view == old(view).(local := [node] + old(view).local)
      ensures remote == old(remote) && foreign == old(foreign) && slots == old(slots) && owner == old(owner)
    {
      ghost var v := FreeLocalGood(State(), view, node);
      InRunNext(start, events, State(), view, Event.FreeLocal(node), v);
      events, view := events + [Event.FreeLocal(node)], v;
      next := next[node := free];
      free := node;
      live := live - {node};
    }
  }
}
