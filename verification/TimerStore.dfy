/**
  What both timer queues keep their timers in: a registry by identity and the
  red-black tree by expiration, together with the callback that is running.
  Its operations are those of the timer table.
 */
module TimerStore {
  import opened Options
  import opened TimerTable
  import opened RedBlackLinks
  import Tree = IntrusiveRbTree
  import Index = TimerIndex

  class TimerStore {
    const index: Index.TimerIndex
    var nodes: map<nat, Node<Timer>>
    var running: Option<nat>
    /** The node of the timer whose callback is running; it is in no tree. */
    var runner: Node?<Timer>
    var runningCancelled: bool
    var next: nat
    ghost var table: Table
    /** All nodes there ever were. */
    ghost var owned: set<Node<Timer>>

    ghost function Repr(): set<object>
      reads this`owned
    {
      {this, index.store} + owned
    }

    /** The tree is in order and made of nodes of this store. */
    ghost predicate Planted()
      reads this`owned, index.store, owned
    {
      index.store.Region() <= owned && index.Valid()
    }

    /** A node of this store that can be put into the tree. */
    ghost predicate Spare(n: Node<Timer>)
      reads this`owned, index.store, owned
    {
      n in owned && n !in index.store.Region() && n.HookClear()
    }

    /** The timer whose callback is running is in no tree. */
    ghost predicate Apart()
      reads this`runner, this`owned, index.store, owned
    {
      runner != null ==> Spare(runner)
    }

    /** Registry and tree stand for the table. */
    ghost predicate Linked()
      reads this, index.store, owned
    {
      && Planted() && table.index == index.Queue() && table.active.Keys == nodes.Keys
      && (running.Some? <==> runner != null) && Apart()
      && table.running == running && table.runningCancelled == runningCancelled && table.next == next
      && forall id :: id in nodes ==> nodes[id] in Nodes(index.store.Elements()) && nodes[id].key == table.active[id]
    }

    constructor ()
      ensures Linked() && table == EMPTY_TABLE && fresh(Repr())
    {
      index := new Index.TimerIndex();
      nodes, running, runner, runningCancelled, next := map[], None, null, false, 0;
      table := EMPTY_TABLE;
      new;
      hide Index.TimerIndex.Valid, Index.TimerIndex.Queue;
      owned := index.store.Region();
    }

    method Earliest() returns (timer: Option<Timer>)
      requires Linked()
      ensures timer == if table.index == [] then None else Some(table.index[0])
    {
      var n := index.Earliest();
      return if n == null then None else Some(n.key);
    }

    method Lookup(id: nat) returns (timer: Option<Timer>)
      requires Linked()
      ensures timer == if id in table.active then Some(table.active[id]) else None
    {
      return if id in nodes then Some(nodes[id].key) else None;
    }

    /** Whether the callback of `id` is running and can be marked. */
    method IsRunning(id: nat) returns (b: bool)
      requires Linked()
      ensures b <==> table.running == Some(id)
    {
      return running == Some(id);
    }

    method IsMarked() returns (b: bool)
      requires Linked()
      ensures b == table.runningCancelled
    {
      return runningCancelled;
    }

    method Plant(n: Node<Timer>)
      requires Planted() && n !in index.store.Region() && n.HookClear() && n != runner && Apart()
      requires forall i :: 0 <= i < |index.store.Elements()| ==> Tree.KeyAt(index.store.Elements(), i).id != n.key.id
      modifies this`owned, index.store, owned, n
      ensures Planted() && owned == old(owned) + {n} && index.Queue() == TimerTable.Insert(old(index.Queue()), n.key)
      ensures Nodes(index.store.Elements()) == old(Nodes(index.store.Elements())) + {n}
      ensures forall x :: x in owned ==> x.key == old(x.key)
      ensures Apart()
    {
      index.Insert(n);
      owned := owned + {n};
    }

    method Uproot(n: Node<Timer>)
      requires Planted() && Apart() && n in Nodes(index.store.Elements())
      modifies index.store, owned
      ensures Planted() && index.Queue() == Without(old(index.Queue()), n.key.id) && Spare(n)
      ensures Nodes(index.store.Elements()) == old(Nodes(index.store.Elements())) - {n}
      ensures forall x :: x in owned ==> x.key == old(x.key)
      ensures Apart() && n != runner
    {
      NoSentinel(n);
      index.Erase(n);
    }

    lemma NoSentinel(n: Node<Timer>)
      requires Planted() && n in Nodes(index.store.Elements())
      ensures n != index.store.sentinel
    {
      var i := Index.ElementOf(index.store, n);
      assert n.linked;
    }

    /** A timer that is in neither goes into registry and tree, on a node that is in no tree. */
    method Enlist(n: Node<Timer>)
      requires Linked() && TableOk(table) && n.key.id !in table.active
      requires n !in index.store.Region() && n.HookClear() && n != runner
      modifies Repr(), n
      ensures Linked() && owned == old(owned) + {n} && nodes == old(nodes)[n.key.id := n]
      ensures n.key == old(n.key) && table == old(table).(index := TimerTable.Insert(old(table).index, n.key),
        active := old(table).active[n.key.id := n.key])
    {
      hide Planted, Apart, TableOk, TimerTable.Insert, Index.TimerIndex.Queue;
      var timer := n.key;
      NewIdentity(timer.id);
      Plant(n);
      nodes := nodes[timer.id := n];
      table := table.(index := TimerTable.Insert(table.index, timer), active := table.active[timer.id := timer]);
      assert table.active.Keys == nodes.Keys;
      forall id | id in nodes ensures nodes[id] in Nodes(index.store.Elements()) && nodes[id].key == table.active[id] {
        if id != timer.id { assert nodes[id] == old(nodes)[id]; }
      }
    }

    lemma NewIdentity(id: nat)
      requires Linked() && TableOk(table) && id !in table.active
      ensures forall i :: 0 <= i < |index.store.Elements()| ==> Tree.KeyAt(index.store.Elements(), i).id != id
    {
      var xs := index.store.Elements();
      forall i | 0 <= i < |xs| ensures Tree.KeyAt(xs, i).id != id {
        Index.TimersAt(xs, i);
        assert table.index[i] in table.index;
      }
    }

    method Add(expiration: int, interval: int) returns (id: nat)
      requires Linked() && TableOk(table)
      modifies Repr()
      ensures Linked() && fresh(Repr() - old(Repr())) && id == old(table).next
        && table == Added(old(table), expiration, interval)
    {
      hide Planted, Apart, TableOk, TimerTable.Insert, Index.TimerIndex.Queue;
      NextIsNew(table);
      id := next;
      var n := new Node<Timer>(Timer(id, expiration, interval));
      assert index.store.Region() <= owned by { AllOwned(); }
      Enlist(n);
      next := next + 1;
      table := table.(next := next);
    }

    lemma AllOwned()
      requires Planted()
      ensures index.store.Region() <= owned
    {
    }

    /** A registered timer leaves registry and tree. */
    method Erase(id: nat) returns (n: Node<Timer>)
      requires Linked() && TableOk(table) && id in table.active
      modifies Repr()
      ensures Linked() && owned == old(owned) && table == Erased(old(table), id)
      ensures Spare(n) && n != runner && n.key.id == id
    {
      hide Planted, Apart, TableOk, Without, Index.TimerIndex.Queue;
      NodeOf(id);
      n := nodes[id];
      Uproot(n);
      nodes := nodes - {id};
      table := Erased(table, id);
      assert table.active.Keys == nodes.Keys;
      forall j | j in nodes ensures nodes[j] in Nodes(index.store.Elements()) && nodes[j].key == table.active[j] {
        assert nodes[j] == old(nodes)[j];
      }
    }

    lemma NodeOf(id: nat)
      requires Linked() && TableOk(table) && id in table.active
      ensures id in nodes && nodes[id] in Nodes(index.store.Elements()) && nodes[id].key.id == id
      ensures forall j :: j in nodes && j != id ==> nodes[j] != nodes[id]
    {
      hide Planted;
      forall j | j in nodes ensures nodes[j].key.id == j {
        assert j in table.active;
      }
    }

    /** The earliest timer leaves both; `marked` if its callback can be cancelled while it runs. */
    method Pop(marked: bool) returns (timer: Timer)
      requires Linked() && TableOk(table) && table.index != []
      modifies Repr()
      ensures Linked() && owned == old(owned) && timer == old(table).index[0]
        && table == Popped(old(table), marked)
    {
      hide Linked, TableOk, Without, Spare;
      var earliest := Earliest();
      timer := earliest.value;
      WithoutFirst(table);
      var n := Erase(timer.id);
      if marked { SetRunning(timer.id, n); } else { Rest(); }
    }

    /** The callback of `id` starts; its node is `n`. */
    method SetRunning(id: nat, n: Node<Timer>)
      requires Linked() && Spare(n)
      modifies this`running, this`runner, this`runningCancelled, this`table
      ensures Linked() && table == old(table).(running := Some(id), runningCancelled := false) && runner == n
    {
      hide Planted, Index.TimerIndex.Queue;
      running, runner, runningCancelled := Some(id), n, false;
      table := table.(running := Some(id), runningCancelled := false);
    }

    /** No callback is running. */
    method Rest()
      requires Linked()
      modifies this`running, this`runner, this`runningCancelled, this`table
      ensures Linked() && table == old(table).(running := None, runningCancelled := false) && runner == null
    {
      hide Planted;
      running, runner, runningCancelled := None, null, false;
      table := table.(running := None, runningCancelled := false);
    }

    /** The callback that runs is not to be repeated. */
    method Mark()
      requires Linked()
      modifies this`runningCancelled, this`table
      ensures Linked() && table == old(table).(runningCancelled := true)
    {
      runningCancelled := true;
      table := table.(runningCancelled := true);
    }

    /** The callback of a repeating timer is over: unless it was cancelled, its node goes back into the tree. */
    method Rearm(timer: Timer, now: int)
      requires Linked() && TableOk(table) && table.running == Some(timer.id)
      modifies Repr()
      ensures Linked() && owned == old(owned) && table == Rearmed(old(table), timer, now)
      ensures !old(runningCancelled) ==> timer.id in nodes && nodes[timer.id] == old(runner)
    {
      hide Planted, TableOk, TimerTable.Insert;
      RunningApart(table);
      var n, repeats := runner, !runningCancelled;
      Rest();
      if repeats {
        Restart(n, timer.(expiration := now + timer.interval));
        Enlist(n);
      }
    }

    /** A node that is in no tree gets a new expiration. */
    method Restart(n: Node<Timer>, timer: Timer)
      requires Linked() && Spare(n)
      modifies n`key
      ensures Linked() && Spare(n) && n.key == timer
    {
      n.key := timer;
    }
  }

  lemma {:induction false} NextIsNew(t: Table)
    requires TableOk(t)
    ensures t.next !in t.active
  {
  }

  lemma {:induction false} WithoutFirst(t: Table)
    requires TableOk(t) && t.index != []
    ensures Without(t.index, t.index[0].id) == t.index[1..] && t.index[0].id in t.active
  {
    assert t.index[0] in t.index;
    forall x | x in t.index[1..] ensures x.id != t.index[0].id {
      var k :| 0 <= k < |t.index[1..]| && t.index[1..][k] == x;
      assert x in t.index && Before(t.index[0], t.index[k + 1]);
    }
    WithoutNone(t.index[1..], t.index[0].id);
  }
}
