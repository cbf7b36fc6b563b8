/**
  The ordered index of the timer queues: the red-black tree, ordered by
  expiration and then identity, does what the timer table expects of its index.
 */
module TimerIndex {
  import opened IntrusiveRbTree
  import opened RedBlackLinks
  import Table = TimerTable
  type Timer = Table.Timer

  /** Earlier expirations first, and identities among equal ones. */
  predicate TimerLess(a: Timer, b: Timer) {
    if a.expiration < b.expiration then true
    else if a.expiration > b.expiration then false
    else a.id < b.id
  }

  lemma {:induction false} TimerOrder()
    ensures StrictWeakOrder(TimerLess)
    ensures forall a, b :: TimerLess(a, b) <==> Table.Before(a, b)
  {
  }

  ghost function Timers(xs: seq<Cell<Timer>>): (q: seq<Timer>)
    ensures |q| == |xs|
  {
    if xs == [] then [] else [xs[0].key] + Timers(xs[1..])
  }

  lemma {:induction false} TimersAt(xs: seq<Cell<Timer>>, i: nat)
    requires i < |xs|
    ensures Timers(xs)[i] == xs[i].key
  {
    if i > 0 { TimersAt(xs[1..], i - 1); }
  }

  /** Inserting into the tree is inserting into the index. */
  lemma {:induction false} InsertAgrees(xs: seq<Cell<Timer>>, c: Cell<Timer>)
    ensures Timers(SortedInsert(TimerLess, xs, c)) == Table.Insert(Timers(xs), c.key)
  {
    if xs == [] || TimerLess(c.key, xs[0].key) {
      assert ([c] + xs)[1..] == xs;
    } else {
      InsertAgrees(xs[1..], c);
      assert ([xs[0]] + SortedInsert(TimerLess, xs[1..], c))[1..] == SortedInsert(TimerLess, xs[1..], c);
      assert Timers(xs)[1..] == Timers(xs[1..]);
    }
  }

  /** No two timers have the same identity. */
  ghost predicate OwnIds(xs: seq<Cell<Timer>>) {
    forall i, j :: 0 <= i < j < |xs| ==> KeyAt(xs, i).id != KeyAt(xs, j).id
  }

  lemma {:induction false} OtherIds(xs: seq<Cell<Timer>>, id: nat)
    requires forall i :: 0 <= i < |xs| ==> KeyAt(xs, i).id != id
    ensures Table.Without(Timers(xs), id) == Timers(xs)
  {
    if xs != [] {
      assert KeyAt(xs, 0).id != id;
      assert forall i :: 0 <= i < |xs| - 1 ==> KeyAt(xs[1..], i) == KeyAt(xs, i + 1);
      OtherIds(xs[1..], id);
      assert Timers(xs)[1..] == Timers(xs[1..]);
    }
  }

  /** Erasing a node of the tree is erasing its timer from the index. */
  lemma {:induction false} EraseAgrees(xs: seq<Cell<Timer>>, i: nat)
    requires i < |xs| && Distinct(xs) && OwnIds(xs)
    ensures Timers(RemoveNode(xs, xs[i].node)) == Table.Without(Timers(xs), xs[i].key.id)
  {
    assert Timers(xs)[1..] == Timers(xs[1..]);
    assert forall j :: 0 <= j < |xs| - 1 ==>
      KeyAt(xs[1..], j) == KeyAt(xs, j + 1)
      && NodeAt(xs[1..], j) == NodeAt(xs, j + 1);
    if i == 0 {
      assert forall j :: 0 < j < |xs| ==> KeyAt(xs, 0).id != KeyAt(xs, j).id;
      OtherIds(xs[1..], xs[0].key.id);
    } else {
      assert KeyAt(xs, 0).id != KeyAt(xs, i).id && NodeAt(xs, 0) != NodeAt(xs, i);
      EraseAgrees(xs[1..], i - 1);
      assert ([xs[0]] + RemoveNode(xs[1..], xs[i].node))[1..] == RemoveNode(xs[1..], xs[i].node);
    }
  }

  /** A tree of timers with identities of their own is sorted as the index is. */
  lemma {:induction false} OrderAgrees(xs: seq<Cell<Timer>>)
    requires OwnIds(xs)
    ensures Sorted(TimerLess, xs) <==> Table.Sorted(Timers(xs))
  {
    forall i, j | 0 <= i < j < |xs| ensures !TimerLess(KeyAt(xs, j), KeyAt(xs, i)) <==>
      Table.Before(Timers(xs)[i], Timers(xs)[j]) {
      TimersAt(xs, i);
      TimersAt(xs, j);
      assert KeyAt(xs, i).id != KeyAt(xs, j).id;
    }
  }

  lemma {:induction false} InsertKeepsIds(xs: seq<Cell<Timer>>, c: Cell<Timer>)
    requires OwnIds(xs) && forall i :: 0 <= i < |xs| ==> KeyAt(xs, i).id != c.key.id
    ensures OwnIds(SortedInsert(TimerLess, xs, c))
  {
    var k := SortedInsertAt(TimerLess, xs, c);
    var ys := SortedInsert(TimerLess, xs, c);
    forall i, j | 0 <= i < j < |ys| ensures KeyAt(ys, i).id != KeyAt(ys, j).id {
      var i', j' := if i < k then i else i - 1, if j < k then j else j - 1;
      if i != k { assert KeyAt(ys, i) == KeyAt(xs, i'); }
      if j != k { assert KeyAt(ys, j) == KeyAt(xs, j'); }
    }
  }

  lemma {:induction false} EraseKeepsIds(xs: seq<Cell<Timer>>, i: nat)
    requires i < |xs| && Distinct(xs) && OwnIds(xs)
    ensures OwnIds(RemoveNode(xs, xs[i].node))
  {
    RemoveNodeAt(xs, i);
    var ys := RemoveNode(xs, xs[i].node);
    assert forall j :: 0 <= j < |ys| ==> KeyAt(ys, j) == KeyAt(xs, if j < i then j else j + 1);
  }

  lemma {:induction false} InsertNodes(xs: seq<Cell<Timer>>, c: Cell<Timer>)
    ensures Nodes(SortedInsert(TimerLess, xs, c)) == Nodes(xs) + {c.node}
  {
    var k := SortedInsertAt(TimerLess, xs, c);
    assert forall x :: x in xs[..k] + [c] + xs[k..] <==> x in xs || x == c;
  }

  lemma {:induction false} EraseNodes(xs: seq<Cell<Timer>>, i: nat)
    requires i < |xs| && Distinct(xs)
    ensures Nodes(RemoveNode(xs, xs[i].node)) == Nodes(xs) - {xs[i].node}
  {
    RemoveNodeAt(xs, i);
    var ys := RemoveNode(xs, xs[i].node);
    forall y | y in ys ensures y in xs && y.node != xs[i].node {
      var j :| 0 <= j < |ys| && ys[j] == y;
      assert y == xs[if j < i then j else j + 1] && NodeAt(xs, i) == xs[i].node;
      assert NodeAt(xs, if j < i then j else j + 1) != NodeAt(xs, i);
    }
    forall x | x in xs && x.node != xs[i].node ensures x in ys {
      var j :| 0 <= j < |xs| && xs[j] == x;
      assert ys[if j < i then j else j - 1] == x;
    }
  }

  /** A node of a tree is one of its elements, under its key. */
  lemma {:induction false} ElementOf(t: IntrusiveTree<Timer>, n: Node<Timer>) returns (i: nat)
    requires t.Valid() && n in Nodes(t.Elements())
    ensures i < |t.Elements()| && t.Elements()[i] == Cell(n, n.key) && n.linked && Distinct(t.Elements())
  {
    var x :| x in t.Elements() && x.node == n;
    KeyOf(Snap(t.Region()), t.tree, t.sentinel, t.sentinel, x);
    i :| 0 <= i < |t.Elements()| && t.Elements()[i] == x;
  }

  class TimerIndex {
    const store: IntrusiveTree<Timer>

    ghost predicate Valid()
      reads store, store.Region()
    {
      store.Valid() && store.less == TimerLess && OwnIds(store.Elements())
    }

    /** The timers, earliest first. */
    ghost function Queue(): seq<Timer>
      reads store
    {
      Timers(store.Elements())
    }

    constructor ()
      ensures Valid() && Queue() == [] && fresh(store) && fresh(store.Region())
    {
      TimerOrder();
      store := new IntrusiveTree(TimerLess);
    }

    method Insert(n: Node<Timer>)
      requires Valid() && n.HookClear() && !n.linked
      requires forall i :: 0 <= i < |store.Elements()| ==> KeyAt(store.Elements(), i).id != n.key.id
      modifies store`size, store`tree
      modifies store.With(n)`left, store.With(n)`right, store.With(n)`parent, store.With(n)`red, store.With(n)`linked
      ensures Valid() && Queue() == Table.Insert(old(Queue()), n.key) && Table.Sorted(Queue())
      ensures Nodes(store.Elements()) == old(Nodes(store.Elements())) + {n}
    {
      ghost var xs := store.Elements();
      var ok := store.Insert(n);
      InsertAgrees(xs, Cell(n, n.key));
      InsertKeepsIds(xs, Cell(n, n.key));
      InsertNodes(xs, Cell(n, n.key));
      OrderAgrees(store.Elements());
    }

    method Erase(n: Node<Timer>)
      requires Valid() && n in Nodes(store.Elements())
      modifies store`size, store`tree
      modifies store.Region()`left, store.Region()`right, store.Region()`parent, store.Region()`red, n`linked
      ensures Valid() && Queue() == Table.Without(old(Queue()), old(n.key).id) && n.HookClear()
      ensures Nodes(store.Elements()) == old(Nodes(store.Elements())) - {n}
    {
      ghost var xs := store.Elements();
      ghost var i := ElementOf(store, n);
      EraseAgrees(xs, i);
      EraseKeepsIds(xs, i);
      EraseNodes(xs, i);
      var _ := store.Erase(n);
    }

    method Earliest() returns (n: Node?<Timer>)
      requires Valid()
      ensures n == null <==> Queue() == []
      ensures n != null ==> n.key == Queue()[0] && n in Nodes(store.Elements())
    {
      n := store.Earliest();
      if n != null { store.FirstKey(); }
    }
  }
}
