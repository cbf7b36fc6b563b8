/** The intrusive red-black tree: the operations, on node objects. */
module IntrusiveRbTree {
  import opened RedBlackShape
  import opened RedBlackLinks

  /** The insertion fix-up works at a red spot. */
  ghost predicate RedAt<K(0)>(m: Memory<K>, p: Path<Cell<K>>, t: Tree<Cell<K>>, node: Node<K>, s: Node<K>) {
    Holds(m, Plug(p, t), s) && RedSpot(p, t) && t.item.node == node
  }

  /** What the insertion fix-up reads. */
  lemma {:induction false} Family<K(0)>(m: Memory<K>, p: Path<Cell<K>>, t: Tree<Cell<K>>, s: Node<K>)
    requires Holds(m, Plug(p, t), s) && !p.Top? && !p.up.Top? && t.Bin?
    ensures t.item.node in m && p.item.node in m && p.up.item.node in m && RootNode(Beside(p.up), s) in m
    ensures p.item.node != s && p.up.item.node != s
    ensures m[t.item.node].parent == p.item.node && m[p.item.node].parent == p.up.item.node
    ensures m[p.item.node].red == p.red && m[RootNode(Beside(p.up), s)].red == IsRed(Beside(p.up))
    ensures p.InL? <==> m[p.item.node].left == t.item.node
    ensures p.InR? <==> m[p.item.node].right == t.item.node
    ensures p.up.InL? <==> m[p.up.item.node].left == p.item.node
    ensures (if p.up.InL? then m[p.up.item.node].right else m[p.up.item.node].left) == RootNode(Beside(p.up), s)
  {
    Look(m, p, t, s);
    Look(m, p.up, Lift(p, t), s);
    assert Spells(m, Beside(p.up), p.up.item.node, s);
  }

  /** What the deletion fix-up reads; `t` may be the sentinel. */
  lemma {:induction false} Siblings<K(0)>(m: Memory<K>, p: Path<Cell<K>>, t: Tree<Cell<K>>, s: Node<K>)
    requires Holds(m, Plug(p, t), s) && !p.Top? && Beside(p).Bin?
    ensures p.item.node in m && Beside(p).item.node in m && p.item.node != s && Beside(p).item.node != s
    ensures RootNode(Beside(p).left, s) in m && RootNode(Beside(p).right, s) in m
    ensures p.InL? <==> m[p.item.node].left == RootNode(t, s)
    ensures p.InR? ==> m[p.item.node].right == RootNode(t, s)
    ensures (if p.InL? then m[p.item.node].right else m[p.item.node].left) == Beside(p).item.node
    ensures m[p.item.node].parent == ParentNode(p.up, s) && m[p.item.node].red == p.red
    ensures var S := Beside(p);
      m[S.item.node] == TreeHook(S, p.item.node, s)
      && m[RootNode(S.left, s)].red == IsRed(S.left) && m[RootNode(S.right, s)].red == IsRed(S.right)
  {
    Look(m, p, t, s);
    var S := Beside(p);
    var q := if p.InL? then InR(p.up, t, p.item, p.red) else InL(p.up, p.item, p.red, t);
    Look(m, q, S, s);
    assert Spells(m, S.left, S.item.node, s) && Spells(m, S.right, S.item.node, s);
  }

  // ---- Order ---------------------------------------------------------------

  ghost predicate StrictWeakOrder<K(!new)>(less: (K, K) -> bool) {
    && (forall a, b :: less(a, b) ==> !less(b, a))
    && (forall a, b, c :: less(a, c) ==> less(a, b) || less(b, c))
  }

  lemma {:induction false} Between<K(!new)>(less: (K, K) -> bool, a: K, b: K, c: K)
    requires StrictWeakOrder(less) && less(a, c)
    ensures less(a, b) || less(b, c)
  {}

  lemma {:induction false} NotLessTransitive<K(!new)>(less: (K, K) -> bool, a: K, b: K, c: K)
    requires StrictWeakOrder(less) && !less(a, b) && !less(b, c)
    ensures !less(a, c)
  {}

  ghost predicate Sorted<K(0)>(less: (K, K) -> bool, xs: seq<Cell<K>>) {
    forall i, j :: 0 <= i < j < |xs| ==> !less(KeyAt(xs, j), KeyAt(xs, i))
  }

  ghost function KeyAt<K(0)>(xs: seq<Cell<K>>, i: nat): K
    requires i < |xs|
  {
    xs[i].key
  }

  /** The reference: `c` goes in front of the first element it is less than, so behind its equivalents. */
  ghost function SortedInsert<K(0)>(less: (K, K) -> bool, xs: seq<Cell<K>>, c: Cell<K>): seq<Cell<K>> {
    if xs == [] || less(c.key, xs[0].key) then [c] + xs
    else [xs[0]] + SortedInsert(less, xs[1..], c)
  }

  /** The reference: the sequence without the element at node `n`. */
  ghost function RemoveNode<K(0)>(xs: seq<Cell<K>>, n: Node<K>): seq<Cell<K>> {
    if xs == [] then []
    else if xs[0].node == n then xs[1..]
    else [xs[0]] + RemoveNode(xs[1..], n)
  }

  lemma {:induction false} SortedInsertSplit<K(0)>(less: (K, K) -> bool, xs: seq<Cell<K>>, ys: seq<Cell<K>>, c: Cell<K>)
    requires forall x :: x in xs ==> !less(c.key, x.key)
    requires forall y :: y in ys ==> less(c.key, y.key)
    ensures SortedInsert(less, xs + ys, c) == xs + [c] + ys
  {
    if xs == [] {
      assert xs + ys == ys;
    } else {
      assert (xs + ys)[0] == xs[0] && (xs + ys)[1..] == xs[1..] + ys;
      SortedInsertSplit(less, xs[1..], ys, c);
      assert [xs[0]] + (xs[1..] + [c] + ys) == xs + [c] + ys;
    }
  }

  lemma {:induction false} SplitKeepsSorted<K(0)>(less: (K, K) -> bool, xs: seq<Cell<K>>, ys: seq<Cell<K>>, c: Cell<K>)
    requires Sorted(less, xs + ys)
    requires forall x :: x in xs ==> !less(c.key, x.key)
    requires forall y :: y in ys ==> !less(y.key, c.key)
    ensures Sorted(less, xs + [c] + ys)
  {
    var zs, ws := xs + [c] + ys, xs + ys;
    forall i, j | 0 <= i < j < |zs|
      ensures !less(KeyAt(zs, j), KeyAt(zs, i))
    {
      var i', j' := if i < |xs| then i else i - 1, if j < |xs| then j else j - 1;
      if i != |xs| { assert KeyAt(zs, i) == KeyAt(ws, i'); }
      if j != |xs| { assert KeyAt(zs, j) == KeyAt(ws, j'); }
    }
  }

  lemma {:induction false} RemoveNodeAt<K(0)>(xs: seq<Cell<K>>, i: nat)
    requires i < |xs| && Distinct(xs)
    ensures RemoveNode(xs, xs[i].node) == Without(xs, i)
  {
    if i == 0 {
      assert Without(xs, 0) == xs[1..];
    } else {
      assert NodeAt(xs, 0) != NodeAt(xs, i);
      assert forall j :: 0 <= j < |xs| - 1 ==> NodeAt(xs[1..], j) == NodeAt(xs, j + 1);
      RemoveNodeAt(xs[1..], i - 1);
      assert [xs[0]] + Without(xs[1..], i - 1) == Without(xs, i);
    }
  }

  lemma {:induction false} WithoutKeepsSorted<K(0)>(less: (K, K) -> bool, xs: seq<Cell<K>>, i: nat)
    requires i < |xs| && Sorted(less, xs)
    ensures Sorted(less, Without(xs, i))
  {
    var ys := Without(xs, i);
    assert forall j :: 0 <= j < |ys| ==> KeyAt(ys, j) == KeyAt(xs, if j < i then j else j + 1);
  }

  /** Every element before the hole is not above `k`, every element after it is above `k`. */
  ghost predicate Fenced<K(0)>(less: (K, K) -> bool, k: K, p: Path<Cell<K>>) {
    && (forall x :: x in Before(p) ==> !less(k, x.key))
    && (forall x :: x in After(p) ==> less(k, x.key))
  }

  lemma {:induction false} SortedParts<K(0)>(less: (K, K) -> bool, a: seq<Cell<K>>, b: seq<Cell<K>>, y: Cell<K>,
      c: seq<Cell<K>>, d: seq<Cell<K>>)
    requires Sorted(less, a + (b + [y] + c) + d)
    ensures forall x :: x in b ==> !less(y.key, x.key)
    ensures forall x :: x in c ==> !less(x.key, y.key)
  {
    var xs, i := a + (b + [y] + c) + d, |a| + |b|;
    assert KeyAt(xs, i) == y.key;
    forall x | x in b ensures !less(y.key, x.key) {
      var j :| 0 <= j < |b| && b[j] == x;
      assert KeyAt(xs, |a| + j) == x.key;
    }
    forall x | x in c ensures !less(x.key, y.key) {
      var j :| 0 <= j < |c| && c[j] == x;
      assert KeyAt(xs, i + 1 + j) == x.key;
    }
  }

  lemma {:induction false} SortedAround<K(0)>(less: (K, K) -> bool, p: Path<Cell<K>>, t: Tree<Cell<K>>)
    requires t.Bin? && Sorted(less, Inorder(Plug(p, t)))
    ensures forall x :: x in Inorder(t.left) ==> !less(t.item.key, x.key)
    ensures forall x :: x in Inorder(t.right) ==> !less(x.key, t.item.key)
  {
    InorderPlug(p, t);
    SortedParts(less, Before(p), Inorder(t.left), t.item, Inorder(t.right), After(p));
  }

  lemma {:induction false} FenceL<K(0, !new)>(less: (K, K) -> bool, k: K, p: Path<Cell<K>>, t: Tree<Cell<K>>)
    requires StrictWeakOrder(less) && t.Bin? && Sorted(less, Inorder(Plug(p, t)))
    requires Fenced(less, k, p) && less(k, t.item.key)
    ensures Fenced(less, k, InL(p, t.item, t.red, t.right))
  {
    SortedAround(less, p, t);
    forall x | x in Inorder(t.right) ensures less(k, x.key) {
      Between(less, k, x.key, t.item.key);
    }
  }

  lemma {:induction false} FenceR<K(0, !new)>(less: (K, K) -> bool, k: K, p: Path<Cell<K>>, t: Tree<Cell<K>>)
    requires StrictWeakOrder(less) && t.Bin? && Sorted(less, Inorder(Plug(p, t)))
    requires Fenced(less, k, p) && !less(k, t.item.key)
    ensures Fenced(less, k, InR(p, t.left, t.item, t.red))
  {
    SortedAround(less, p, t);
    forall x | x in Inorder(t.left) ensures !less(k, x.key) {
      NotLessTransitive(less, k, t.item.key, x.key);
    }
  }

  lemma {:induction false} InnermostFence<K(0)>(less: (K, K) -> bool, k: K, p: Path<Cell<K>>)
    requires Fenced(less, k, p) && !p.Top?
    ensures p.InL? <==> less(k, p.item.key)
  {
    if p.InL? { assert p.item in After(p); } else { assert p.item in Before(p); }
  }

  /** The node the sentinel caches as minimum. */
  ghost function First<K(0)>(xs: seq<Cell<K>>, s: Node<K>): Node<K> {
    if xs == [] then s else xs[0].node
  }

  /** The cached minimum is not part of the tree. */
  lemma {:induction false} MinHolds<K(0)>(m0: Memory<K>, m1: Memory<K>, t: Tree<Cell<K>>, s: Node<K>)
    requires Holds(m0, t, s) && Agree(m0, m1, {s}) && s in m1 && m1[s] == m0[s].(left := m1[s].left)
    ensures Holds(m1, t, s)
  {
    CountPresent(t, s);
    Frame(m0, m1, {s}, t, s, s);
  }

  /** When a new element becomes the first one. */
  lemma {:induction false} NewFirst<K(0)>(m: Memory<K>, p: Path<Cell<K>>, less: (K, K) -> bool, c: Cell<K>, s: Node<K>)
    requires Holds(m, Plug(p, Leaf), s) && Fenced(less, c.key, p)
    ensures var xs := Before(p) + After(p);
      && (xs == [] <==> First(xs, s) == s)
      && (xs != [] ==> xs[0].node in m && m[xs[0].node].key == xs[0].key)
      && First(Before(p) + [c] + After(p), s) == if xs == [] || less(c.key, xs[0].key) then c.node else xs[0].node
  {
    var xs := Before(p) + After(p);
    InorderLeaf(p, c, true);
    if xs != [] {
      assert xs[0] in xs;
      KeyOf(m, Plug(p, Leaf), s, s, xs[0]);
      if Before(p) == [] { assert xs[0] in After(p); } else { assert xs[0] in Before(p); }
    }
  }

  lemma {:induction false} KeyOf<K(0)>(m: Memory<K>, t: Tree<Cell<K>>, parent: Node<K>, s: Node<K>, x: Cell<K>)
    requires Spells(m, t, parent, s) && x in Inorder(t)
    ensures x.node in m && m[x.node].key == x.key && m[x.node].linked
  {
    if x != t.item {
      if x in Inorder(t.left) { KeyOf(m, t.left, t.item.node, s, x); } else { KeyOf(m, t.right, t.item.node, s, x); }
    }
  }

  lemma {:induction false} Inserted<K(0, !new)>(less: (K, K) -> bool, p: Path<Cell<K>>, c: Cell<K>)
    requires StrictWeakOrder(less) && Fenced(less, c.key, p) && Sorted(less, Before(p) + After(p))
    ensures SortedInsert(less, Before(p) + After(p), c) == Before(p) + [c] + After(p)
    ensures Sorted(less, Before(p) + [c] + After(p))
  {
    SortedInsertSplit(less, Before(p), After(p), c);
    SplitKeepsSorted(less, Before(p), After(p), c);
  }

  lemma {:induction false} InsertedElements<K(0, !new)>(less: (K, K) -> bool, t: Tree<Cell<K>>, p: Path<Cell<K>>,
      c: Cell<K>, r: set<Node<K>>, s: Node<K>)
    requires StrictWeakOrder(less) && Fenced(less, c.key, p) && Plug(p, Leaf) == t && Sorted(less, Inorder(t))
    requires r == Nodes(Inorder(t)) + {s} + {c.node} && Distinct(Inorder(t)) && c.node !in Nodes(Inorder(t))
    ensures var xs := Before(p) + [c] + After(p);
      && xs == SortedInsert(less, Inorder(t), c) && Sorted(less, xs) && |xs| == |Inorder(t)| + 1 && Nodes(xs) + {s} == r
  {
    InorderLeaf(p, c, true);
    Inserted(less, p, c);
    CleanWith(Before(p), After(p), c);
  }

  lemma {:induction false} RedLeaf<C>(p: Path<C>, c: C)
    requires IsRedBlack(Plug(p, Leaf))
    ensures RedSpot(p, Bin(Leaf, c, true, Leaf))
  {
    UnplugBalanced(p, Leaf);
  }

  lemma {:induction false} PlugIsReal<C>(p: Path<C>, t: Tree<C>)
    requires !p.Top?
    ensures Plug(p, t).Bin?
  {
    if !p.up.Top? { PlugIsReal(p.up, Lift(p, t)); }
  }

  /** What the memory says about the children of a node. */
  lemma {:induction false} Children<K(0)>(m: Memory<K>, whole: Tree<Cell<K>>, p: Path<Cell<K>>, t: Tree<Cell<K>>,
      s: Node<K>)
    requires Holds(m, whole, s) && Plug(p, t) == whole && t.Bin?
    ensures t.item.node in m && m[t.item.node] == TreeHook(t, ParentNode(p, s), s)
    ensures RootNode(t.left, s) == s <==> t.left.Leaf?
    ensures RootNode(t.right, s) == s <==> t.right.Leaf?
  {
    LookAt(m, whole, p, t, s);
    if t.left.Bin? { LookAt(m, whole, InL(p, t.item, t.red, t.right), t.left, s); }
    if t.right.Bin? { LookAt(m, whole, InR(p, t.left, t.item, t.red), t.right, s); }
  }

  /** The first element once the root of `t` is gone. */
  lemma {:induction false} FirstWithout<K(0)>(p: Path<Cell<K>>, t: Tree<Cell<K>>, s: Node<K>)
    requires t.Bin? && Clean(Plug(p, t), s)
    ensures var xs, i := Inorder(Plug(p, t)), |Before(p)| + |Inorder(t.left)|;
      && i < |xs| && xs[i] == t.item
      && First(Without(xs, i), s)
         == if First(xs, s) == t.item.node then First(Inorder(t.right) + After(p), s) else First(xs, s)
  {
    InorderPlug(p, t);
    var whole := Plug(p, t);
    var xs := Inorder(whole);
    FirstDropped(xs, Before(p), Inorder(t.left), t.item, Inorder(t.right), After(p), s);
  }

  lemma {:induction false} FirstDropped<K(0)>(xs: seq<Cell<K>>, a: seq<Cell<K>>, b: seq<Cell<K>>, x: Cell<K>,
      c: seq<Cell<K>>, d: seq<Cell<K>>, s: Node<K>)
    requires xs == a + (b + [x] + c) + d && Distinct(xs)
    ensures var i := |a| + |b|;
      && i < |xs| && xs[i] == x
      && First(Without(xs, i), s) == if First(xs, s) == x.node then First(c + d, s) else First(xs, s)
  {
    var i := |a| + |b|;
    SpliceAt(a, b, x, c, d, x);
    assert NodeAt(xs, 0) == xs[0].node && NodeAt(xs, i) == x.node;
    if i == 0 {
      assert xs[..0] + xs[1..] == c + d;
    } else {
      assert Without(xs, i)[0] == xs[0];
    }
  }

  lemma {:induction false} RemovedNode<K(0)>(t0: Tree<Cell<K>>, t1: Tree<Cell<K>>, i: nat, n: Node<K>)
    requires Distinct(Inorder(t0)) && i < |Inorder(t0)| && Inorder(t0)[i].node == n
      && Inorder(t1) == Without(Inorder(t0), i)
    ensures Inorder(t1) == RemoveNode(Inorder(t0), n) && n !in Nodes(Inorder(t1))
  {
    RemoveNodeAt(Inorder(t0), i);
    CleanWithout(Inorder(t0), i);
  }

  lemma {:induction false} KeyOfMember<K(0)>(m: Memory<K>, t: Tree<Cell<K>>, n: Node<K>, s: Node<K>)
    requires Holds(m, t, s) && n in Nodes(Inorder(t))
    ensures n in m && n != s
  {
    var x :| x in Inorder(t) && x.node == n;
    KeyOf(m, t, s, s, x);
  }

  lemma {:induction false} ErasedElements<K(0)>(less: (K, K) -> bool, t0: Tree<Cell<K>>, t1: Tree<Cell<K>>, n: Node<K>,
      s: Node<K>)
    requires Clean(t0, s) && Sorted(less, Inorder(t0)) && n in Nodes(Inorder(t0))
      && Inorder(t1) == RemoveNode(Inorder(t0), n)
    ensures Sorted(less, Inorder(t1)) && |Inorder(t1)| == |Inorder(t0)| - 1
    ensures Nodes(Inorder(t1)) + {s} == Nodes(Inorder(t0)) + {s} - {n}
  {
    var xs, ys := Inorder(t0), Inorder(t1);
    var i :| 0 <= i < |xs| && xs[i].node == n;
    RemoveNodeAt(xs, i);
    WithoutKeepsSorted(less, xs, i);
    CleanWithout(xs, i);
  }

  ghost function PrefixLength<K(0)>(pred: K -> bool, xs: seq<Cell<K>>): (k: nat)
    ensures k <= |xs|
  {
    if xs == [] || !pred(xs[0].key) then 0 else 1 + PrefixLength(pred, xs[1..])
  }

  ghost function NodesOf<K(0)>(xs: seq<Cell<K>>): seq<Node<K>> {
    if xs == [] then [] else NodesOf(xs[..|xs| - 1]) + [xs[|xs| - 1].node]
  }

  /** `popped` holds the nodes taken off `xs` so far and `rest` the elements still there. */
  ghost predicate Extracting<K(0)>(pred: K -> bool, xs: seq<Cell<K>>, rest: seq<Cell<K>>, popped: seq<Node<K>>) {
    && |rest| <= |xs|
    && var k := |xs| - |rest|;
       rest == xs[k..] && popped == NodesOf(xs[..k]) && PrefixLength(pred, xs) == k + PrefixLength(pred, rest)
  }

  lemma {:induction false} ExtractNext<K(0)>(pred: K -> bool, xs: seq<Cell<K>>, rest: seq<Cell<K>>,
      popped: seq<Node<K>>)
    requires Extracting(pred, xs, rest, popped) && rest != [] && pred(rest[0].key)
    ensures Extracting(pred, xs, rest[1..], popped + [rest[0].node])
  {
    var k := |xs| - |rest|;
    assert xs[..k + 1][..k] == xs[..k] && xs[k..][1..] == xs[k + 1..];
  }

  lemma {:induction false} ExtractDone<K(0)>(pred: K -> bool, xs: seq<Cell<K>>, rest: seq<Cell<K>>,
      popped: seq<Node<K>>)
    requires Extracting(pred, xs, rest, popped) && (rest == [] || !pred(rest[0].key))
    ensures var k := PrefixLength(pred, xs); rest == xs[k..] && popped == NodesOf(xs[..k])
  {
  }

  lemma {:induction false} TailNodes<K(0)>(xs: seq<Cell<K>>)
    requires xs != [] && Distinct(xs)
    ensures RemoveNode(xs, xs[0].node) == xs[1..] && Nodes(xs[1..]) == Nodes(xs) - {xs[0].node}
  {
    CleanWithout(xs, 0);
    assert Without(xs, 0) == xs[1..];
  }

  lemma {:induction false} DepthBound<C>(p: Path<C>, t: Tree<C>)
    ensures Depth(p) + |Inorder(t)| <= |Inorder(Plug(p, t))|
  {
    if !p.Top? { DepthBound(p.up, Lift(p, t)); }
  }

  /** A linked node is no child of itself. */
  lemma {:induction false} NoSelfLoop<K(0)>(m: Memory<K>, whole: Tree<Cell<K>>, p: Path<Cell<K>>, t: Tree<Cell<K>>,
      s: Node<K>)
    requires Holds(m, whole, s) && Plug(p, t) == whole && t.Bin?
    ensures RootNode(t.right, s) != t.item.node
  {
    CountAt(p, t, s, t.item.node);
    CountAt(p, t, s, s);
  }

  // ---- The self check ------------------------------------------------------

  datatype CheckResult<K(0)> = CheckResult(ok: bool, blackHeight: nat, count: nat, min: Node?<K>)

  /** Strictly sorted: no two keys are equivalent. */
  ghost predicate Increasing<K>(less: (K, K) -> bool, ks: seq<K>) {
    |ks| > 1 ==> less(ks[0], ks[1]) && Increasing(less, ks[1..])
  }

  ghost function Keys<K(0)>(t: Tree<Cell<K>>): (ks: seq<K>)
    ensures |ks| == |Inorder(t)|
  {
    if t.Leaf? then [] else Keys(t.left) + [t.item.key] + Keys(t.right)
  }

  ghost function Bound<K(0)>(n: Node?<K>): seq<K>
    reads n
  {
    if n == null then [] else [n.key]
  }

  lemma {:induction false} IncreasingJoin<K>(less: (K, K) -> bool, a: seq<K>, k: K, b: seq<K>)
    ensures Increasing(less, a + [k]) && Increasing(less, [k] + b) <==> Increasing(less, a + [k] + b)
  {
    if a == [] {
      assert a + [k] == [k] && a + [k] + b == [k] + b;
    } else {
      IncreasingJoin(less, a[1..], k, b);
      assert (a + [k])[1..] == a[1..] + [k] && (a + [k] + b)[1..] == a[1..] + [k] + b;
    }
  }

  lemma {:induction false} IncreasingEnds<K(!new)>(less: (K, K) -> bool, k: K, a: seq<K>, l: K)
    requires StrictWeakOrder(less) && Increasing(less, [k] + a + [l])
    ensures less(k, l)
  {
    var all := [k] + a + [l];
    if a == [] {
      assert all == [k, l];
    } else {
      assert all[1..] == [a[0]] + a[1..] + [l];
      IncreasingEnds(less, a[0], a[1..], l);
      assert less(k, a[0]);
    }
  }

  /** The keys of a subtree are strictly between the bounds when those of its halves are. */
  lemma {:induction false} KeysBetween<K(0)>(less: (K, K) -> bool, lo: seq<K>, t: Tree<Cell<K>>, hi: seq<K>)
    requires t.Bin?
    ensures Increasing(less, lo + Keys(t) + hi)
      <==> Increasing(less, lo + Keys(t.left) + [t.item.key]) && Increasing(less, [t.item.key] + Keys(t.right) + hi)
  {
    var a, k, b := lo + Keys(t.left), t.item.key, Keys(t.right) + hi;
    IncreasingJoin(less, a, k, b);
    assert lo + Keys(t) + hi == a + [k] + b;
    assert [k] + Keys(t.right) + hi == [k] + b;
  }

  /** The bounds of a subtree whose keys are strictly between them. */
  lemma {:induction false} KeysInside<K(0, !new)>(less: (K, K) -> bool, lo: seq<K>, t: Tree<Cell<K>>, hi: seq<K>)
    requires StrictWeakOrder(less) && t.Bin? && |lo| <= 1 && |hi| <= 1 && Increasing(less, lo + Keys(t) + hi)
    ensures lo != [] ==> less(lo[0], t.item.key)
    ensures hi != [] ==> less(t.item.key, hi[0])
  {
    KeysBetween(less, lo, t, hi);
    if lo != [] { assert lo == [lo[0]]; IncreasingEnds(less, lo[0], Keys(t.left), t.item.key); }
    if hi != [] { assert hi == [hi[0]]; IncreasingEnds(less, t.item.key, Keys(t.right), hi[0]); }
  }

  /** What CheckSubtree promises of a subtree: balanced, with keys strictly between the bounds. */
  ghost predicate Sound<K(0)>(less: (K, K) -> bool, lo: seq<K>, t: Tree<Cell<K>>, hi: seq<K>) {
    Balanced(t) && Increasing(less, lo + Keys(t) + hi)
  }

  ghost predicate SoundHere<K(0)>(less: (K, K) -> bool, lo: seq<K>, t: Tree<Cell<K>>, hi: seq<K>)
    requires t.Bin?
  {
    && (lo != [] ==> less(lo[0], t.item.key)) && (hi != [] ==> less(t.item.key, hi[0]))
    && !(t.red && (IsRed(t.left) || IsRed(t.right)))
  }

  lemma {:induction false} SoundSplit<K(0, !new)>(less: (K, K) -> bool, lo: seq<K>, t: Tree<Cell<K>>, hi: seq<K>)
    requires StrictWeakOrder(less) && t.Bin? && |lo| <= 1 && |hi| <= 1
    ensures var k := [t.item.key];
      Sound(less, lo, t, hi) <==>
        && SoundHere(less, lo, t, hi) && Sound(less, lo, t.left, k) && Sound(less, k, t.right, hi)
        && BlackHeight(t.left) == BlackHeight(t.right)
    ensures SoundHere(less, lo, t, hi) ==> Increasing(less, lo + [t.item.key]) && Increasing(less, [t.item.key] + hi)
  {
    KeysBetween(less, lo, t, hi);
    if Sound(less, lo, t, hi) { KeysInside(less, lo, t, hi); }
  }

  /** What CheckNode reads. */
  lemma {:induction false} CheckReads<K(0)>(m: Memory<K>, whole: Tree<Cell<K>>, p: Path<Cell<K>>, t: Tree<Cell<K>>,
      s: Node<K>)
    requires Holds(m, whole, s) && Plug(p, t) == whole && t.Bin?
    ensures t.item.node in m && t.item.node != s && m[t.item.node] == TreeHook(t, ParentNode(p, s), s)
    ensures RootNode(t.left, s) in m && RootNode(t.right, s) in m && RootNode(t.right, s) != t.item.node
    ensures m[RootNode(t.left, s)].red == IsRed(t.left) && m[RootNode(t.right, s)].red == IsRed(t.right)
  {
    NoSelfLoop(m, whole, p, t, s);
    LookAt(m, whole, p, t, s);
    LookAt(m, whole, InL(p, t.item, t.red, t.right), t.left, s);
    LookAt(m, whole, InR(p, t.left, t.item, t.red), t.right, s);
  }

  lemma {:induction false} IncreasingAt<K(!new)>(less: (K, K) -> bool, ks: seq<K>, i: nat, j: nat)
    requires StrictWeakOrder(less) && Increasing(less, ks) && i < j < |ks|
    ensures less(ks[i], ks[j])
  {
    if i > 0 {
      IncreasingAt(less, ks[1..], i - 1, j - 1);
    } else if j > 1 {
      IncreasingAt(less, ks[1..], 0, j - 1);
      assert less(ks[0], ks[1]) && less(ks[1], ks[j]);
    }
  }

  lemma {:induction false} IncreasingFrom<K>(less: (K, K) -> bool, ks: seq<K>)
    requires forall i :: 0 <= i < |ks| - 1 ==> less(ks[i], ks[i + 1])
    ensures Increasing(less, ks)
  {
    if |ks| > 1 {
      assert less(ks[0], ks[0 + 1]);
      forall i | 0 <= i < |ks[1..]| - 1 ensures less(ks[1..][i], ks[1..][i + 1]) {
        assert less(ks[i + 1], ks[i + 1 + 1]);
      }
      IncreasingFrom(less, ks[1..]);
    }
  }

  lemma {:induction false} KeysInorder<K(0)>(t: Tree<Cell<K>>, i: nat)
    requires i < |Inorder(t)|
    ensures Keys(t)[i] == KeyAt(Inorder(t), i)
  {
    var a := |Inorder(t.left)|;
    if i < a { KeysInorder(t.left, i); } else if i > a { KeysInorder(t.right, i - a - 1); }
  }

  ghost predicate Equivalent<K>(less: (K, K) -> bool, a: K, b: K) {
    !less(a, b) && !less(b, a)
  }

  ghost predicate NoneEquivalent<K(0)>(less: (K, K) -> bool, xs: seq<Cell<K>>) {
    forall i, j :: 0 <= i < j < |xs| ==> !Equivalent(less, KeyAt(xs, i), KeyAt(xs, j))
  }

  lemma {:induction false} IncreasingApart<K(0, !new)>(less: (K, K) -> bool, t: Tree<Cell<K>>)
    requires StrictWeakOrder(less) && Increasing(less, Keys(t))
    ensures NoneEquivalent(less, Inorder(t))
  {
    var xs := Inorder(t);
    forall i, j | 0 <= i < j < |xs| ensures !Equivalent(less, KeyAt(xs, i), KeyAt(xs, j)) {
      KeysInorder(t, i);
      KeysInorder(t, j);
      IncreasingAt(less, Keys(t), i, j);
    }
  }

  lemma {:induction false} ApartIncreasing<K(0)>(less: (K, K) -> bool, t: Tree<Cell<K>>)
    requires Sorted(less, Inorder(t)) && NoneEquivalent(less, Inorder(t))
    ensures Increasing(less, Keys(t))
  {
    var xs, ks := Inorder(t), Keys(t);
    forall i | 0 <= i < |ks| - 1 ensures less(ks[i], ks[i + 1]) {
      KeysInorder(t, i);
      KeysInorder(t, i + 1);
      assert !Equivalent(less, KeyAt(xs, i), KeyAt(xs, i + 1));
    }
    IncreasingFrom(less, ks);
  }

  /** Among sorted elements, the order the self check asks for means that no two elements are equivalent. */
  lemma {:induction false} NoEquivalents<K(0, !new)>(less: (K, K) -> bool, t: Tree<Cell<K>>)
    requires StrictWeakOrder(less) && Sorted(less, Inorder(t))
    ensures Increasing(less, Keys(t)) <==> NoneEquivalent(less, Inorder(t))
  {
    if Increasing(less, Keys(t)) { IncreasingApart(less, t); }
    if NoneEquivalent(less, Inorder(t)) { ApartIncreasing(less, t); }
  }

  ghost predicate EquivalentTo<K(0)>(less: (K, K) -> bool, k: K, xs: seq<Cell<K>>) {
    exists i :: 0 <= i < |xs| && Equivalent(less, k, KeyAt(xs, i))
  }

  /** Inserting an element equivalent to one that is there: sorted still, but no longer what the self check accepts. */
  lemma {:induction false} InsertEquivalent<K(0, !new)>(less: (K, K) -> bool, xs: seq<Cell<K>>, c: Cell<K>)
    requires EquivalentTo(less, c.key, xs)
    ensures !NoneEquivalent(less, SortedInsert(less, xs, c))
  {
    var ys := SortedInsert(less, xs, c);
    var k := SortedInsertAt(less, xs, c);
    var i :| 0 <= i < |xs| && Equivalent(less, c.key, KeyAt(xs, i));
    if i < k {
      assert Equivalent(less, KeyAt(ys, i), KeyAt(ys, k));
    } else {
      assert Equivalent(less, KeyAt(ys, k), KeyAt(ys, i + 1));
    }
  }

  /** Where the reference insertion puts its element. */
  lemma {:induction false} SortedInsertAt<K(0)>(less: (K, K) -> bool, xs: seq<Cell<K>>, c: Cell<K>) returns (k: nat)
    ensures k <= |xs| && SortedInsert(less, xs, c) == xs[..k] + [c] + xs[k..]
    ensures (forall i :: 0 <= i < k ==> !less(c.key, xs[i].key)) && (k < |xs| ==> less(c.key, xs[k].key))
  {
    if xs == [] || less(c.key, xs[0].key) {
      k := 0;
    } else {
      var k1 := SortedInsertAt(less, xs[1..], c);
      k := k1 + 1;
      assert xs[..k] + [c] + xs[k..] == [xs[0]] + (xs[1..][..k1] + [c] + xs[1..][k1..]);
      assert forall i :: 0 < i < k ==> xs[i] == xs[1..][i - 1];
    }
  }

  lemma {:induction false} LeafGone<K(0)>(m: Memory<K>, p: Path<Cell<K>>, t: Tree<Cell<K>>, s: Node<K>)
    requires Holds(m, Plug(p, t), s) && t.Bin? && t.left.Leaf? && t.right.Leaf?
    ensures t.item.node !in Nodes(Inorder(Plug(p, Leaf)))
    ensures Nodes(Inorder(Plug(p, t))) == Nodes(Inorder(Plug(p, Leaf))) + {t.item.node}
    ensures |Inorder(Plug(p, Leaf))| < |Inorder(Plug(p, t))|
  {
    CountAt(p, t, s, t.item.node);
    FocusCount(p, Leaf, t.item.node);
    CountPresent(Plug(p, Leaf), t.item.node);
    InorderPlug(p, t);
    InorderPlug(p, Leaf);
  }

  ghost predicate AllClear<K(0)>(ns: set<Node<K>>)
    reads ns
  {
    forall n :: n in ns ==> n.HookClear()
  }

  class IntrusiveTree<K(0, !new)> {
    const less: (K, K) -> bool
    const sentinel: Node<K>
    var size: nat
    ghost var tree: Tree<Cell<K>>

    /** The elements in order: what the tree stands for. */
    ghost function Elements(): seq<Cell<K>>
      reads this
    {
      Inorder(tree)
    }

    ghost function Region(): set<Node<K>>
      reads this
    {
      Nodes(Inorder(tree)) + {sentinel}
    }

    ghost predicate Valid()
      reads this, Region()
    {
      && StrictWeakOrder(less)
      && Holds(Snap(Region()), tree, sentinel) && IsRedBlack(tree)
      && Sorted(less, Elements()) && size == |Elements()|
      && sentinel.left == First(Elements(), sentinel)
    }

    constructor (less: (K, K) -> bool)
      requires StrictWeakOrder(less)
      ensures Valid() && Elements() == [] && fresh(Region()) && this.less == less
    {
      this.less := less;
      sentinel := new Node.Sentinel();
      size := 0;
      tree := Leaf;
    }

    /** The cached minimum, or null. */
    function Earliest(): (n: Node?<K>)
      requires Valid()
      reads this, Region()
      ensures n == if Elements() == [] then null else Elements()[0].node
    {
      HeadIsReal();
      if sentinel.left == sentinel then null else sentinel.left
    }

    lemma {:induction false} HeadIsReal()
      requires Valid()
      ensures sentinel.left == sentinel <==> Elements() == []
    {
      if Elements() != [] { assert Elements()[0] in Elements(); }
    }

    // ---- Hook access -------------------------------------------------------

    method SetParent(n: Node<K>, v: Node<K>, ghost r: set<Node<K>>)
      requires n in r
      modifies n`parent
      ensures Snap(r) == WithParent(old(Snap(r)), n, v)
    {
      n.parent := v;
    }

    method SetLeft(n: Node<K>, v: Node<K>, ghost r: set<Node<K>>)
      requires n in r
      modifies n`left
      ensures Snap(r) == WithLeft(old(Snap(r)), n, v)
    {
      n.left := v;
    }

    method SetRight(n: Node<K>, v: Node<K>, ghost r: set<Node<K>>)
      requires n in r
      modifies n`right
      ensures Snap(r) == WithRight(old(Snap(r)), n, v)
    {
      n.right := v;
    }

    method SetRed(n: Node<K>, red: bool, ghost r: set<Node<K>>)
      requires n in r
      modifies n`red
      ensures Snap(r) == WithRed(old(Snap(r)), n, red)
    {
      n.red := red;
    }

    /** Replaces the subtree rooted at `src` by the one rooted at `dst`. */
    method Transplant(src: Node<K>, dst: Node<K>, ghost r: set<Node<K>>)
      requires CanTransplant(Snap(r), src, dst, sentinel)
      modifies (r - {sentinel})`left, (r - {sentinel})`right, r`parent
      ensures Snap(r) == Transplanted(old(Snap(r)), src, dst, sentinel)
    {
      var parent := src.parent;
      if parent == sentinel {
        SetParent(sentinel, dst, r);
        SetParent(dst, sentinel, r);
      } else if src == parent.left {
        SetLeft(parent, dst, r);
      } else {
        SetRight(parent, dst, r);
      }
      if dst != sentinel {
        SetParent(dst, parent, r);
      }
    }

    // ---- Rotations ---------------------------------------------------------

    method LeftRotate(pivot: Node<K>, ghost p: Path<Cell<K>>, ghost t: Tree<Cell<K>>, ghost r: set<Node<K>>)
      requires CanRotateL(t) && t.item.node == pivot && Holds(Snap(r), Plug(p, t), sentinel)
      modifies (r - {sentinel})`left, (r - {sentinel})`right, r`parent
      ensures Holds(Snap(r), Plug(p, RotateL(t)), sentinel)
      ensures Inorder(Plug(p, RotateL(t))) == Inorder(Plug(p, t))
    {
      RotateLHolds(Snap(r), p, t, sentinel);
      var newTop := pivot.right;
      SetRight(pivot, newTop.left, r);
      if newTop.left != sentinel {
        SetParent(newTop.left, pivot, r);
      }
      Transplant(pivot, newTop, r);
      SetLeft(newTop, pivot, r);
      SetParent(pivot, newTop, r);
    }

    method RightRotate(pivot: Node<K>, ghost p: Path<Cell<K>>, ghost t: Tree<Cell<K>>, ghost r: set<Node<K>>)
      requires CanRotateR(t) && t.item.node == pivot && Holds(Snap(r), Plug(p, t), sentinel)
      modifies (r - {sentinel})`left, (r - {sentinel})`right, r`parent
      ensures Holds(Snap(r), Plug(p, RotateR(t)), sentinel)
      ensures Inorder(Plug(p, RotateR(t))) == Inorder(Plug(p, t))
    {
      RotateRHolds(Snap(r), p, t, sentinel);
      var newTop := pivot.left;
      SetLeft(pivot, newTop.right, r);
      if newTop.right != sentinel {
        SetParent(newTop.right, pivot, r);
      }
      Transplant(pivot, newTop, r);
      SetRight(newTop, pivot, r);
      SetParent(pivot, newTop, r);
    }

    method Recolor(n: Node<K>, red: bool, ghost p: Path<Cell<K>>, ghost t: Tree<Cell<K>>, ghost r: set<Node<K>>)
      requires t.Bin? && t.item.node == n && Holds(Snap(r), Plug(p, t), sentinel)
      modifies n`red
      ensures Holds(Snap(r), Plug(p, t.(red := red)), sentinel)
      ensures Inorder(Plug(p, t.(red := red))) == Inorder(Plug(p, t))
    {
      RecolorHolds(Snap(r), p, t, red, sentinel);
      SetRed(n, red, r);
    }

    // ---- Insertion ---------------------------------------------------------

    method PushRedLeft(node: Node<K>, ghost p: Path<Cell<K>>, ghost t: Tree<Cell<K>>, ghost r: set<Node<K>>)
      returns (next: Node<K>)
      requires RedAt(Snap(r), p, t, node, sentinel) && PathRed(p) && p.up.InL? && IsRed(Beside(p.up))
      modifies r`red
      ensures RedAt(Snap(r), p.up.up, PushRed(p, t), next, sentinel)
      ensures Inorder(Plug(p.up.up, PushRed(p, t))) == Inorder(Plug(p, t))
    {
      ghost var up, g, U, P := p.up.up, p.up.item, p.up.right, Lift(p, t);
      Family(Snap(r), p, t, sentinel);
      var parent := node.parent;
      var grandparent := parent.parent;
      var uncle := grandparent.right;
      Recolor(parent, false, p.up, P, r);
      Recolor(uncle, false, InR(up, Blacken(P), g, false), U, r);
      Recolor(grandparent, true, up, Bin(Blacken(P), g, false, Blacken(U)), r);
      PushRedFits(p, t);
      next := grandparent;
    }

    method RotateOutLeft(node: Node<K>, ghost p: Path<Cell<K>>, ghost t: Tree<Cell<K>>, ghost r: set<Node<K>>)
      returns (next: Node<K>, ghost p': Path<Cell<K>>, ghost t': Tree<Cell<K>>)
      requires RedAt(Snap(r), p, t, node, sentinel) && PathRed(p) && p.up.InL? && !IsRed(Beside(p.up))
      modifies (r - {sentinel})`left, (r - {sentinel})`right, r`parent, r`red
      ensures RedAt(Snap(r), p', t', next, sentinel) && Depth(p') < Depth(p)
      ensures Inorder(Plug(p', t')) == Inorder(Plug(p, t))
    {
      ghost var up, g, U, P := p.up.up, p.up.item, p.up.right, Lift(p, t);
      Family(Snap(r), p, t, sentinel);
      var parent := node.parent;
      var grandparent := parent.parent;
      next := node;
      if node == parent.right {
        next := parent;
        LeftRotate(next, p.up, P, r);
        Look(Snap(r), InL(p.up, t.item, true, t.right), RotateL(P).left, sentinel);
        parent := next.parent;
      }
      ghost var Q := Outward(p, t);
      Recolor(parent, false, p.up, Q, r);
      Recolor(grandparent, true, up, Bin(Blacken(Q), g, false, U), r);
      RightRotate(grandparent, up, Bin(Blacken(Q), g, true, U), r);
      OutwardFits(p, t);
      p', t' := InL(up, Q.item, false, Bin(Q.right, g, true, U)), Q.left;
    }

    method PushRedRight(node: Node<K>, ghost p: Path<Cell<K>>, ghost t: Tree<Cell<K>>, ghost r: set<Node<K>>)
      returns (next: Node<K>)
      requires RedAt(Snap(r), p, t, node, sentinel) && PathRed(p) && p.up.InR? && IsRed(Beside(p.up))
      modifies r`red
      ensures RedAt(Snap(r), p.up.up, PushRed(p, t), next, sentinel)
      ensures Inorder(Plug(p.up.up, PushRed(p, t))) == Inorder(Plug(p, t))
    {
      ghost var up, g, U, P := p.up.up, p.up.item, p.up.left, Lift(p, t);
      Family(Snap(r), p, t, sentinel);
      var parent := node.parent;
      var grandparent := parent.parent;
      var uncle := grandparent.left;
      Recolor(parent, false, p.up, P, r);
      Recolor(uncle, false, InL(up, g, false, Blacken(P)), U, r);
      Recolor(grandparent, true, up, Bin(Blacken(U), g, false, Blacken(P)), r);
      PushRedFits(p, t);
      next := grandparent;
    }

    method RotateOutRight(node: Node<K>, ghost p: Path<Cell<K>>, ghost t: Tree<Cell<K>>, ghost r: set<Node<K>>)
      returns (next: Node<K>, ghost p': Path<Cell<K>>, ghost t': Tree<Cell<K>>)
      requires RedAt(Snap(r), p, t, node, sentinel) && PathRed(p) && p.up.InR? && !IsRed(Beside(p.up))
      modifies (r - {sentinel})`right, (r - {sentinel})`left, r`parent, r`red
      ensures RedAt(Snap(r), p', t', next, sentinel) && Depth(p') < Depth(p)
      ensures Inorder(Plug(p', t')) == Inorder(Plug(p, t))
    {
      ghost var up, g, U, P := p.up.up, p.up.item, p.up.left, Lift(p, t);
      Family(Snap(r), p, t, sentinel);
      var parent := node.parent;
      var grandparent := parent.parent;
      next := node;
      if node == parent.left {
        next := parent;
        RightRotate(next, p.up, P, r);
        Look(Snap(r), InR(p.up, t.left, t.item, true), RotateR(P).right, sentinel);
        parent := next.parent;
      }
      ghost var Q := Outward(p, t);
      Recolor(parent, false, p.up, Q, r);
      Recolor(grandparent, true, up, Bin(U, g, false, Blacken(Q)), r);
      LeftRotate(grandparent, up, Bin(U, g, true, Blacken(Q)), r);
      OutwardFits(p, t);
      p', t' := InR(up, Bin(U, g, true, Q.left), Q.item, false), Q.right;
    }

    /** One turn of the insertion fix-up: the red spot has a red parent. */
    method InsertStep(node: Node<K>, ghost p: Path<Cell<K>>, ghost t: Tree<Cell<K>>, ghost r: set<Node<K>>)
      returns (next: Node<K>, ghost p': Path<Cell<K>>, ghost t': Tree<Cell<K>>)
      requires RedAt(Snap(r), p, t, node, sentinel) && PathRed(p)
      modifies (r - {sentinel})`left, (r - {sentinel})`right, r`parent, r`red
      ensures RedAt(Snap(r), p', t', next, sentinel) && Depth(p') < Depth(p)
      ensures Inorder(Plug(p', t')) == Inorder(Plug(p, t))
    {
      Family(Snap(r), p, t, sentinel);
      var parent := node.parent;
      var grandparent := parent.parent;
      if parent == grandparent.left {
        if grandparent.right.red {
          next := PushRedLeft(node, p, t, r);
          p', t' := p.up.up, PushRed(p, t);
        } else {
          next, p', t' := RotateOutLeft(node, p, t, r);
        }
      } else {
        if grandparent.left.red {
          next := PushRedRight(node, p, t, r);
          p', t' := p.up.up, PushRed(p, t);
        } else {
          next, p', t' := RotateOutRight(node, p, t, r);
        }
      }
    }

    /** Restores the red-black property after a red leaf was hung in. */
    method InsertFixup(leaf: Node<K>, ghost p0: Path<Cell<K>>, ghost t0: Tree<Cell<K>>, ghost r: set<Node<K>>)
      returns (ghost result: Tree<Cell<K>>)
      requires RedAt(Snap(r), p0, t0, leaf, sentinel)
      modifies (r - {sentinel})`left, (r - {sentinel})`right, r`parent, r`red
      ensures Holds(Snap(r), result, sentinel) && IsRedBlack(result) && Inorder(result) == Inorder(Plug(p0, t0))
    {
      var node := leaf;
      ghost var p, t := p0, t0;
      Look(Snap(r), p, t, sentinel);
      while node != sentinel.parent && node.parent.red
        invariant RedAt(Snap(r), p, t, node, sentinel) && Inorder(Plug(p, t)) == Inorder(Plug(p0, t0))
        invariant node.parent == ParentNode(p, sentinel) && (p.Top? <==> node == sentinel.parent)
        invariant !p.Top? ==> p.item.node.red == p.red
        decreases Depth(p)
      {
        node, p, t := InsertStep(node, p, t, r);
        Look(Snap(r), p, t, sentinel);
      }
      PlugBalanced(p, t);
      Recolor(sentinel.parent, false, Top, Plug(p, t), r);
      result := Blacken(Plug(p, t));
    }

    /** Finds the place for `key` below the root. */
    method Descend(key: K, ghost whole: Tree<Cell<K>>, ghost r: set<Node<K>>)
        returns (parent: Node<K>, ghost p: Path<Cell<K>>)
      requires StrictWeakOrder(less) && Holds(Snap(r), whole, sentinel) && Sorted(less, Inorder(whole))
      ensures Plug(p, Leaf) == whole && parent == ParentNode(p, sentinel) && Fenced(less, key, p)
      ensures Snap(r) == old(Snap(r))
    {
      parent := sentinel;
      var cursor := sentinel.parent;
      ghost var m, t := Snap(r), whole;
      p := Top;
      while cursor != sentinel
        invariant m == Snap(r)
        invariant Plug(p, t) == whole && Fenced(less, key, p)
        invariant cursor == RootNode(t, sentinel) && parent == ParentNode(p, sentinel)
        decreases t
      {
        LookAt(m, whole, p, t, sentinel);
        parent := cursor;
        if less(key, cursor.key) {
          FenceL(less, key, p, t);
          cursor := cursor.left;
          p, t := InL(p, t.item, t.red, t.right), t.left;
        } else {
          FenceR(less, key, p, t);
          cursor := cursor.right;
          p, t := InR(p, t.left, t.item, t.red), t.right;
        }
      }
      LookAt(m, whole, p, t, sentinel);
    }

    /** Hangs the prepared red node `n` below `parent`. */
    method LinkLeaf(n: Node<K>, parent: Node<K>, ghost p: Path<Cell<K>>, ghost r: set<Node<K>>)
      requires Holds(Snap(r), Plug(p, Leaf), sentinel) && parent == ParentNode(p, sentinel) && Fenced(less, n.key, p)
      requires n in r && n != sentinel && n !in Nodes(Inorder(Plug(p, Leaf)))
      requires n.linked && n.red && n.left == sentinel && n.right == sentinel
      modifies n`parent, sentinel`parent, (r - {sentinel})`left, (r - {sentinel})`right
      ensures Holds(Snap(r), Plug(p, Bin(Leaf, Cell(n, n.key), true, Leaf)), sentinel)
    {
      if !p.Top? { InnermostFence(less, n.key, p); }
      Look(Snap(r), p, Leaf, sentinel);
      LeafLinkedHolds(Snap(r), p, n, sentinel);
      SetParent(n, parent, r);
      if parent == sentinel {
        SetParent(sentinel, n, r);
        SetParent(n, sentinel, r);
      } else if less(n.key, parent.key) {
        SetLeft(parent, n, r);
      } else {
        SetRight(parent, n, r);
      }
    }

    /** Links the prepared node, renews the cached minimum and repairs the colours. */
    method CacheMin(n: Node<K>, ghost t: Tree<Cell<K>>, ghost r: set<Node<K>>)
      requires Holds(Snap(r), t, sentinel) && n in r && sentinel.left != null
      modifies sentinel`left
      ensures Holds(Snap(r), t, sentinel)
      ensures sentinel.left
        == if old(sentinel.left == sentinel || less(n.key, sentinel.left.key)) then n else old(sentinel.left)
    {
      ghost var m := Snap(r);
      if sentinel.left == sentinel || less(n.key, sentinel.left.key) {
        sentinel.left := n;
      }
      MinHolds(m, Snap(r), t, sentinel);
    }

    method AttachLeaf(n: Node<K>, parent: Node<K>, ghost whole: Tree<Cell<K>>, ghost p: Path<Cell<K>>,
        ghost r: set<Node<K>>)
      returns (ghost result: Tree<Cell<K>>)
      requires Holds(Snap(r), whole, sentinel) && IsRedBlack(whole) && sentinel.left == First(Inorder(whole), sentinel)
      requires Plug(p, Leaf) == whole && parent == ParentNode(p, sentinel) && Fenced(less, n.key, p)
      requires n in r && n != sentinel && n !in Nodes(Inorder(whole))
      requires n.linked && n.red && n.left == sentinel && n.right == sentinel
      modifies r`left, (r - {sentinel})`right, r`parent, r`red
      ensures Holds(Snap(r), result, sentinel) && IsRedBlack(result)
      ensures Inorder(result) == Before(p) + [Cell(n, n.key)] + After(p)
      ensures sentinel.left == First(Inorder(result), sentinel)
    {
      ghost var c := Cell(n, n.key);
      ghost var u := Bin(Leaf, c, true, Leaf);
      NewFirst(Snap(r), p, less, c, sentinel);
      InorderLeaf(p, c, true);
      RedLeaf(p, c);
      LinkLeaf(n, parent, p, r);
      CacheMin(n, Plug(p, u), r);
      result := InsertFixup(n, p, u, r);
    }

    /** The nodes are done; the tree object follows. */
    method Become(ghost t: Tree<Cell<K>>, newSize: nat, ghost r: set<Node<K>>)
      modifies this`tree, this`size
      ensures tree == t && size == newSize && Snap(r) == old(Snap(r))
    {
      tree, size := t, newSize;
    }

    method Prepare(n: Node<K>, ghost r: set<Node<K>>)
      requires Valid() && n.HookClear() && r == With(n)
      modifies n`left, n`right, n`parent, n`red, n`linked
      ensures n != sentinel && n !in Nodes(Elements()) && Holds(Snap(r), tree, sentinel)
      ensures n.linked && n.red && n.left == sentinel && n.right == sentinel
    {
      ghost var m0 := Snap(Region());
      NotLinked(m0, tree, n, sentinel, sentinel);
      n.linked, n.red := true, true;
      n.left, n.right, n.parent := sentinel, sentinel, sentinel;
      FrameHolds(m0, Snap(r), n, tree, sentinel);
    }

    method InsertUnlinked(n: Node<K>)
      requires Valid() && n.HookClear()
      modifies this`size, this`tree
      modifies With(n)`left, With(n)`right, With(n)`parent, With(n)`red, With(n)`linked
      ensures Valid() && Elements() == SortedInsert(less, old(Elements()), Cell(n, n.key))
    {
      ghost var r, t0 := With(n), tree;
      Prepare(n, r);
      var parent; ghost var p;
      parent, p := Descend(n.key, t0, r);
      InsertedElements(less, t0, p, Cell(n, n.key), r, sentinel);
      ghost var t1 := AttachLeaf(n, parent, t0, p, r);
      Become(t1, size + 1, r);
    }

    /** Inserts behind all elements that the new one is not less than. */
    method Insert(n: Node?<K>) returns (ok: bool)
      requires Valid()
      requires n != null && !n.linked ==> n.HookClear()
      modifies this`size, this`tree
      modifies With(n)`left, With(n)`right, With(n)`parent, With(n)`red, With(n)`linked
      ensures Valid()
      ensures ok <==> n != null && !old(n.linked)
      ensures ok ==> Elements() == SortedInsert(less, old(Elements()), Cell(n, n.key))
      ensures !ok ==> tree == old(tree) && Snap(With(n)) == old(Snap(With(n)))
    {
      if n == null {
        return false;
      }
      if n.linked {
        return false;
      }
      InsertUnlinked(n);
      return true;
    }

    ghost function With(n: Node?<K>): set<Node<K>>
      reads this
    {
      Region() + if n == null then {} else {n}
    }

    // ---- Deletion ----------------------------------------------------------

    /** Case 1: a red sibling. */
    method TurnSiblingLeft(parent: Node<K>, sibling: Node<K>, ghost p: Path<Cell<K>>, ghost t: Tree<Cell<K>>,
        ghost r: set<Node<K>>)
      requires Holds(Snap(r), Plug(p, t), sentinel) && p.InL? && IsRed(Beside(p)) && !p.red
      requires p.item.node == parent && Beside(p).item.node == sibling
      modifies (r - {sentinel})`left, (r - {sentinel})`right, r`parent, r`red
      ensures Holds(Snap(r), Plug(TurnSibling(p), t), sentinel)
      ensures Inorder(Plug(TurnSibling(p), t)) == Inorder(Plug(p, t))
    {
      ghost var S := p.right;
      Siblings(Snap(r), p, t, sentinel);
      Recolor(sibling, false, InR(p.up, t, p.item, false), S, r);
      Recolor(parent, true, p.up, Bin(t, p.item, false, Blacken(S)), r);
      LeftRotate(parent, p.up, Bin(t, p.item, true, Blacken(S)), r);
    }

    /** Case 3: a red near nephew. */
    method TurnNephewLeft(nephew: Node<K>, sibling: Node<K>, ghost p: Path<Cell<K>>, ghost t: Tree<Cell<K>>,
        ghost r: set<Node<K>>)
      requires Holds(Snap(r), Plug(p, t), sentinel) && p.InL? && Beside(p).Bin? && !IsRed(Beside(p)) && IsRed(Near(p))
      requires Near(p).item.node == nephew && Beside(p).item.node == sibling
      modifies (r - {sentinel})`left, (r - {sentinel})`right, r`parent, r`red
      ensures Holds(Snap(r), Plug(TurnNephew(p), t), sentinel)
      ensures Inorder(Plug(TurnNephew(p), t)) == Inorder(Plug(p, t))
    {
      ghost var S, q := p.right, InR(p.up, t, p.item, p.red);
      Siblings(Snap(r), p, t, sentinel);
      Recolor(nephew, false, InL(q, S.item, false, S.right), S.left, r);
      Recolor(sibling, true, q, Bin(Blacken(S.left), S.item, false, S.right), r);
      RightRotate(sibling, q, Bin(Blacken(S.left), S.item, true, S.right), r);
    }

    /** Case 4: a red far nephew. */
    method SettleLeft(parent: Node<K>, sibling: Node<K>, ghost p: Path<Cell<K>>, ghost t: Tree<Cell<K>>,
        ghost r: set<Node<K>>)
      requires Holds(Snap(r), Plug(p, t), sentinel) && p.InL? && Beside(p).Bin? && IsRed(Far(p))
      requires p.item.node == parent && Beside(p).item.node == sibling
      modifies (r - {sentinel})`left, (r - {sentinel})`right, r`parent, r`red
      ensures Holds(Snap(r), Plug(p.up, Settle(p, t)), sentinel)
      ensures Inorder(Plug(p.up, Settle(p, t))) == Inorder(Plug(p, t))
    {
      ghost var S := p.right;
      Siblings(Snap(r), p, t, sentinel);
      Recolor(sibling, parent.red, InR(p.up, t, p.item, p.red), S, r);
      ghost var S1 := S.(red := p.red);
      Recolor(parent, false, p.up, Bin(t, p.item, p.red, S1), r);
      Siblings(Snap(r), InL(p.up, p.item, false, S1), t, sentinel);
      Recolor(sibling.right, false, InR(InR(p.up, t, p.item, false), S1.left, S1.item, S1.red), S1.right, r);
      LeftRotate(parent, p.up, Bin(t, p.item, false, S1.(right := Blacken(S1.right))), r);
    }

    /** Case 1: a red sibling. */
    method TurnSiblingRight(parent: Node<K>, sibling: Node<K>, ghost p: Path<Cell<K>>, ghost t: Tree<Cell<K>>,
        ghost r: set<Node<K>>)
      requires Holds(Snap(r), Plug(p, t), sentinel) && p.InR? && IsRed(Beside(p)) && !p.red
      requires p.item.node == parent && Beside(p).item.node == sibling
      modifies (r - {sentinel})`right, (r - {sentinel})`left, r`parent, r`red
      ensures Holds(Snap(r), Plug(TurnSibling(p), t), sentinel)
      ensures Inorder(Plug(TurnSibling(p), t)) == Inorder(Plug(p, t))
    {
      ghost var S := p.left;
      Siblings(Snap(r), p, t, sentinel);
      Recolor(sibling, false, InL(p.up, p.item, false, t), S, r);
      Recolor(parent, true, p.up, Bin(Blacken(S), p.item, false, t), r);
      RightRotate(parent, p.up, Bin(Blacken(S), p.item, true, t), r);
    }

    /** Case 3: a red near nephew. */
    method TurnNephewRight(nephew: Node<K>, sibling: Node<K>, ghost p: Path<Cell<K>>, ghost t: Tree<Cell<K>>,
        ghost r: set<Node<K>>)
      requires Holds(Snap(r), Plug(p, t), sentinel) && p.InR? && Beside(p).Bin? && !IsRed(Beside(p)) && IsRed(Near(p))
      requires Near(p).item.node == nephew && Beside(p).item.node == sibling
      modifies (r - {sentinel})`right, (r - {sentinel})`left, r`parent, r`red
      ensures Holds(Snap(r), Plug(TurnNephew(p), t), sentinel)
      ensures Inorder(Plug(TurnNephew(p), t)) == Inorder(Plug(p, t))
    {
      ghost var S, q := p.left, InL(p.up, p.item, p.red, t);
      Siblings(Snap(r), p, t, sentinel);
      Recolor(nephew, false, InR(q, S.left, S.item, false), S.right, r);
      Recolor(sibling, true, q, Bin(S.left, S.item, false, Blacken(S.right)), r);
      LeftRotate(sibling, q, Bin(S.left, S.item, true, Blacken(S.right)), r);
    }

    /** Case 4: a red far nephew. */
    method SettleRight(parent: Node<K>, sibling: Node<K>, ghost p: Path<Cell<K>>, ghost t: Tree<Cell<K>>,
        ghost r: set<Node<K>>)
      requires Holds(Snap(r), Plug(p, t), sentinel) && p.InR? && Beside(p).Bin? && IsRed(Far(p))
      requires p.item.node == parent && Beside(p).item.node == sibling
      modifies (r - {sentinel})`right, (r - {sentinel})`left, r`parent, r`red
      ensures Holds(Snap(r), Plug(p.up, Settle(p, t)), sentinel)
      ensures Inorder(Plug(p.up, Settle(p, t))) == Inorder(Plug(p, t))
    {
      ghost var S := p.left;
      Siblings(Snap(r), p, t, sentinel);
      Recolor(sibling, parent.red, InL(p.up, p.item, p.red, t), S, r);
      ghost var S1 := S.(red := p.red);
      Recolor(parent, false, p.up, Bin(S1, p.item, p.red, t), r);
      Siblings(Snap(r), InR(p.up, S1, p.item, false), t, sentinel);
      Recolor(sibling.left, false, InL(InL(p.up, p.item, false, t), S1.item, S1.red, S1.right), S1.left, r);
      RightRotate(parent, p.up, Bin(S1.(left := Blacken(S1.left)), p.item, false, t), r);
    }

    /** Cases 2 to 4: the sibling is black. */
    method BlackSiblingLeft(parent: Node<K>, ghost p: Path<Cell<K>>, ghost t: Tree<Cell<K>>, ghost r: set<Node<K>>)
      returns (next: Node<K>, nextParent: Node<K>, ghost p': Path<Cell<K>>, ghost t': Tree<Cell<K>>)
      requires Holds(Snap(r), Plug(p, t), sentinel) && Short(p, t) && !IsRed(t) && p.InL? && p.item.node == parent
      requires Beside(p).Bin? && !IsRed(Beside(p))
      modifies (r - {sentinel})`left, (r - {sentinel})`right, r`parent, r`red
      ensures Holds(Snap(r), Plug(p', t'), sentinel) && Short(p', t')
      ensures next == RootNode(t', sentinel) && nextParent == ParentNode(p', sentinel)
      ensures Inorder(Plug(p', t')) == Inorder(Plug(p, t))
      ensures p'.Top? || (p' == p.up && IsRed(t') == p.red)
    {
      p' := p;
      Siblings(Snap(r), p', t, sentinel);
      var sibling := parent.right;
      if !sibling.left.red && !sibling.right.red {
        Recolor(sibling, true, InR(p'.up, t, p'.item, p'.red), Beside(p'), r);
        PaleShort(p', t);
        p', t' := p'.up, Pale(p', t);
        Look(Snap(r), p', t', sentinel);
        next, nextParent := parent, parent.parent;
      } else {
        if !sibling.right.red {
          TurnNephewLeft(sibling.left, sibling, p', t, r);
          TurnNephewShort(p', t);
          p' := TurnNephew(p');
          Siblings(Snap(r), p', t, sentinel);
          sibling := parent.right;
        }
        SettleLeft(parent, sibling, p', t, r);
        SettleBalanced(p', t);
        p', t' := Top, Plug(p'.up, Settle(p', t));
        next, nextParent := sentinel.parent, sentinel;
      }
    }

    method DeleteStepLeft(parent: Node<K>, ghost p: Path<Cell<K>>, ghost t: Tree<Cell<K>>, ghost r: set<Node<K>>)
      returns (next: Node<K>, nextParent: Node<K>, ghost p': Path<Cell<K>>, ghost t': Tree<Cell<K>>)
      requires Holds(Snap(r), Plug(p, t), sentinel) && Short(p, t) && !IsRed(t) && p.InL? && p.item.node == parent
      modifies (r - {sentinel})`left, (r - {sentinel})`right, r`parent, r`red
      ensures Holds(Snap(r), Plug(p', t'), sentinel) && Short(p', t')
      ensures next == RootNode(t', sentinel) && nextParent == ParentNode(p', sentinel)
      ensures Inorder(Plug(p', t')) == Inorder(Plug(p, t))
      ensures IsRed(t') || Depth(p') < Depth(p)
    {
      p' := p;
      SiblingIsReal(p', t);
      Siblings(Snap(r), p', t, sentinel);
      var sibling := parent.right;
      if sibling.red {
        TurnSiblingLeft(parent, sibling, p', t, r);
        TurnSiblingShort(p', t);
        p' := TurnSibling(p');
      }
      next, nextParent, p', t' := BlackSiblingLeft(parent, p', t, r);
    }

    /** Cases 2 to 4: the sibling is black. */
    method BlackSiblingRight(parent: Node<K>, ghost p: Path<Cell<K>>, ghost t: Tree<Cell<K>>, ghost r: set<Node<K>>)
      returns (next: Node<K>, nextParent: Node<K>, ghost p': Path<Cell<K>>, ghost t': Tree<Cell<K>>)
      requires Holds(Snap(r), Plug(p, t), sentinel) && Short(p, t) && !IsRed(t) && p.InR? && p.item.node == parent
      requires Beside(p).Bin? && !IsRed(Beside(p))
      modifies (r - {sentinel})`right, (r - {sentinel})`left, r`parent, r`red
      ensures Holds(Snap(r), Plug(p', t'), sentinel) && Short(p', t')
      ensures next == RootNode(t', sentinel) && nextParent == ParentNode(p', sentinel)
      ensures Inorder(Plug(p', t')) == Inorder(Plug(p, t))
      ensures p'.Top? || (p' == p.up && IsRed(t') == p.red)
    {
      p' := p;
      Siblings(Snap(r), p', t, sentinel);
      var sibling := parent.left;
      if !sibling.right.red && !sibling.left.red {
        Recolor(sibling, true, InL(p'.up, p'.item, p'.red, t), Beside(p'), r);
        PaleShort(p', t);
        p', t' := p'.up, Pale(p', t);
        Look(Snap(r), p', t', sentinel);
        next, nextParent := parent, parent.parent;
      } else {
        if !sibling.left.red {
          TurnNephewRight(sibling.right, sibling, p', t, r);
          TurnNephewShort(p', t);
          p' := TurnNephew(p');
          Siblings(Snap(r), p', t, sentinel);
          sibling := parent.left;
        }
        SettleRight(parent, sibling, p', t, r);
        SettleBalanced(p', t);
        p', t' := Top, Plug(p'.up, Settle(p', t));
        next, nextParent := sentinel.parent, sentinel;
      }
    }

    method DeleteStepRight(parent: Node<K>, ghost p: Path<Cell<K>>, ghost t: Tree<Cell<K>>, ghost r: set<Node<K>>)
      returns (next: Node<K>, nextParent: Node<K>, ghost p': Path<Cell<K>>, ghost t': Tree<Cell<K>>)
      requires Holds(Snap(r), Plug(p, t), sentinel) && Short(p, t) && !IsRed(t) && p.InR? && p.item.node == parent
      modifies (r - {sentinel})`right, (r - {sentinel})`left, r`parent, r`red
      ensures Holds(Snap(r), Plug(p', t'), sentinel) && Short(p', t')
      ensures next == RootNode(t', sentinel) && nextParent == ParentNode(p', sentinel)
      ensures Inorder(Plug(p', t')) == Inorder(Plug(p, t))
      ensures IsRed(t') || Depth(p') < Depth(p)
    {
      p' := p;
      SiblingIsReal(p', t);
      Siblings(Snap(r), p', t, sentinel);
      var sibling := parent.left;
      if sibling.red {
        TurnSiblingRight(parent, sibling, p', t, r);
        TurnSiblingShort(p', t);
        p' := TurnSibling(p');
      }
      next, nextParent, p', t' := BlackSiblingRight(parent, p', t, r);
    }

    /** Ends the shortage of black that a removal left at `orphan`, which may be the sentinel. */
    method DeleteFixup(orphan: Node<K>, orphanParent: Node<K>, ghost p0: Path<Cell<K>>, ghost t0: Tree<Cell<K>>,
        ghost r: set<Node<K>>)
      returns (ghost result: Tree<Cell<K>>)
      requires Holds(Snap(r), Plug(p0, t0), sentinel) && Short(p0, t0)
      requires orphan == RootNode(t0, sentinel) && orphanParent == ParentNode(p0, sentinel)
      modifies (r - {sentinel})`left, (r - {sentinel})`right, r`parent, r`red
      ensures Holds(Snap(r), result, sentinel) && IsRedBlack(result) && Inorder(result) == Inorder(Plug(p0, t0))
    {
      var node, parent := orphan, orphanParent;
      ghost var p, t := p0, t0;
      Look(Snap(r), p, t, sentinel);
      while node != sentinel.parent && !node.red
        invariant Holds(Snap(r), Plug(p, t), sentinel) && Short(p, t)
        invariant node == RootNode(t, sentinel) && parent == ParentNode(p, sentinel)
        invariant Inorder(Plug(p, t)) == Inorder(Plug(p0, t0))
        invariant node.red == IsRed(t) && (p.Top? <==> node == sentinel.parent)
        decreases if IsRed(t) then 0 else Depth(p)
      {
        SiblingIsReal(p, t);
        Siblings(Snap(r), p, t, sentinel);
        if node == parent.left {
          node, parent, p, t := DeleteStepLeft(parent, p, t, r);
        } else {
          node, parent, p, t := DeleteStepRight(parent, p, t, r);
        }
        Look(Snap(r), p, t, sentinel);
      }
      BlackenShort(p, t);
      if t.Bin? {
        RecolorHolds(Snap(r), p, t, false, sentinel);
      } else {
        assert WithRed(Snap(r), node, false) == Snap(r);
      }
      SetRed(node, false, r);
      result := Plug(p, Blacken(t));
    }

    // ---- Traversal ---------------------------------------------------------

    /** The leftmost node below `top`. */
    method Minimum(top: Node<K>, ghost whole: Tree<Cell<K>>, ghost p: Path<Cell<K>>, ghost t: Tree<Cell<K>>,
        ghost r: set<Node<K>>)
      returns (n: Node<K>, ghost inner: Path<Cell<K>>, ghost d: Tree<Cell<K>>)
      requires Holds(Snap(r), whole, sentinel) && Plug(p, t) == whole && t.Bin? && t.item.node == top
      ensures Plug(inner, d) == t && Before(inner) == [] && d.Bin? && d.left.Leaf? && d.item.node == n
      ensures Snap(r) == old(Snap(r))
    {
      n, inner, d := top, Top, t;
      ghost var m := Snap(r);
      LookAt(m, whole, p, t, sentinel);
      if t.left.Bin? { LookAt(m, whole, InL(p, t.item, t.red, t.right), t.left, sentinel); }
      while n.left != sentinel
        invariant m == Snap(r) && n in r
        invariant Plug(inner, d) == t && Before(inner) == [] && d.Bin? && d.item.node == n
        invariant n.left == RootNode(d.left, sentinel)
        invariant d.left.Bin? ==> n.left != sentinel
        decreases d
      {
        n, inner, d := n.left, InL(inner, d.item, d.red, d.right), d.left;
        PlugJoin(inner, p, d);
        LookAt(m, whole, Join(inner, p), d, sentinel);
        if d.left.Bin? {
          LookAt(m, whole, InL(Join(inner, p), d.item, d.red, d.right), d.left, sentinel);
        }
      }
    }

    /** The in-order successor, or the sentinel. */
    method Next(node: Node<K>, ghost whole: Tree<Cell<K>>, ghost p: Path<Cell<K>>, ghost t: Tree<Cell<K>>,
        ghost r: set<Node<K>>)
      returns (n: Node<K>)
      requires Holds(Snap(r), whole, sentinel) && Plug(p, t) == whole && t.Bin? && t.item.node == node
      ensures n == First(Inorder(t.right) + After(p), sentinel)
      ensures Snap(r) == old(Snap(r))
    {
      ghost var m := Snap(r);
      LookAt(m, whole, p, t, sentinel);
      if t.right.Bin? { LookAt(m, whole, InR(p, t.left, t.item, t.red), t.right, sentinel); }
      if node.right != sentinel {
        ghost var inner, d;
        n, inner, d := Minimum(node.right, whole, InR(p, t.left, t.item, t.red), t.right, r);
        LeftmostInorder(inner, d);
        return;
      }
      if node == sentinel.parent {
        Look(m, p, t, sentinel);
        return sentinel;
      }
      var cur := node;
      ghost var q, u := p, t;
      while true
        invariant m == Snap(r)
        invariant Plug(q, u) == whole && u.Bin? && u.item.node == cur && After(q) == After(p)
        decreases q
      {
        LookAt(m, whole, q, u, sentinel);
        var parent := cur.parent;
        if parent == sentinel {
          return sentinel;
        }
        if cur == parent.left {
          return parent;
        }
        cur, q, u := parent, q.up, Lift(q, u);
      }
    }

    // ---- Removal -----------------------------------------------------------

    /** Takes out a node with at most one child. */
    method SpliceOut(target: Node<K>, child: Node<K>, ghost p: Path<Cell<K>>, ghost t: Tree<Cell<K>>,
        ghost c: Tree<Cell<K>>, ghost r: set<Node<K>>)
      requires Holds(Snap(r), Plug(p, t), sentinel) && t.Bin? && t.item.node == target && RootNode(c, sentinel) == child
      requires (t.left.Leaf? && c == t.right) || (t.right.Leaf? && c == t.left)
      modifies (r - {sentinel})`left, (r - {sentinel})`right, r`parent
      ensures Holds(Snap(r), Plug(p, c), sentinel)
    {
      SpliceHolds(Snap(r), p, t, c, sentinel);
      Transplant(target, child, r);
    }

    /** `detach` takes the place, the left child and the colour of `target`. */
    method TakeOver(target: Node<K>, detach: Node<K>, ghost p: Path<Cell<K>>, ghost t: Tree<Cell<K>>, ghost c: Cell<K>,
        ghost r: set<Node<K>>)
      requires TakeOverReady(Snap(r), p, t, c, sentinel) && t.item.node == target && c.node == detach
      modifies (r - {sentinel})`left, (r - {sentinel})`right, r`parent, r`red
      ensures Holds(Snap(r), Plug(p, t.(item := c)), sentinel)
    {
      TakeOverHolds(Snap(r), p, t, c, sentinel);
      TakePlace(target, detach, r);
    }

    method TakePlace(target: Node<K>, detach: Node<K>, ghost r: set<Node<K>>)
      requires CanTakeOver(Snap(r), target, detach, sentinel) && detach != sentinel
      modifies (r - {sentinel})`left, (r - {sentinel})`right, r`parent, r`red
      ensures Snap(r) == TakenOver(old(Snap(r)), target, detach, sentinel)
    {
      Transplant(target, detach, r);
      SetLeft(detach, target.left, r);
      SetParent(detach.left, detach, r);
      SetRed(detach, target.red, r);
    }

    /** Splices out a successor that sits deeper in the right subtree and gives it that subtree. */
    method LiftDeep(target: Node<K>, detach: Node<K>, ghost p: Path<Cell<K>>, ghost t: Tree<Cell<K>>,
        ghost inner: Path<Cell<K>>, ghost d: Tree<Cell<K>>, ghost r: set<Node<K>>)
      requires Holds(Snap(r), Plug(p, t), sentinel) && t.Bin? && t.left.Bin? && t.item.node == target
      requires t.right == Plug(inner, d) && !inner.Top? && d.Bin? && d.left.Leaf? && d.item.node == detach
      modifies (r - {sentinel})`left, (r - {sentinel})`right, r`parent
      ensures TakeOverReady(Snap(r), p, t.(right := Plug(inner, d.right)), d.item, sentinel)
    {
      ghost var outer, u := InR(p, t.left, t.item, t.red), t.(right := Plug(inner, d.right));
      ghost var q := Join(inner, outer);
      PlugJoin(inner, outer, d);
      PlugJoin(inner, outer, d.right);
      LookAt(Snap(r), Plug(p, t), q, d, sentinel);
      SuccessorOutside(p, t, inner, d, sentinel);
      SpliceOut(detach, detach.right, q, d, d.right, r);
      PlugIsReal(inner, d.right);
      GiveRight(target, detach, p, u, d.item, r);
    }

    method GiveRight(target: Node<K>, detach: Node<K>, ghost p: Path<Cell<K>>, ghost u: Tree<Cell<K>>,
        ghost c: Cell<K>, ghost r: set<Node<K>>)
      requires Holds(Snap(r), Plug(p, u), sentinel) && u.Bin? && u.left.Bin? && u.right.Bin? && u.item.node == target
      requires c.node == detach && detach in r && c.key == detach.key && detach.linked && detach != sentinel
        && detach !in Nodes(Inorder(Plug(p, u)))
      modifies (r - {sentinel})`left, (r - {sentinel})`right, r`parent
      ensures TakeOverReady(Snap(r), p, u, c, sentinel)
    {
      LookAt(Snap(r), Plug(p, u), p, u, sentinel);
      ReadyDeep(Snap(r), p, u, c, sentinel);
      SetRight(detach, target.right, r);
      SetParent(detach.right, detach, r);
    }

    /** The successor is the right child: nothing but its place changes. */
    method LiftNear(target: Node<K>, detach: Node<K>, orphan: Node<K>, ghost p: Path<Cell<K>>, ghost t: Tree<Cell<K>>,
        ghost r: set<Node<K>>)
      requires Holds(Snap(r), Plug(p, t), sentinel) && t.Bin? && t.left.Bin? && t.right.Bin? && t.right.left.Leaf?
      requires t.right.item.node == detach && RootNode(t.right.right, sentinel) == orphan
      modifies r`parent
      ensures TakeOverReady(Snap(r), p, t.(right := t.right.right), t.right.item, sentinel)
    {
      ReadyNear(Snap(r), p, t, sentinel);
      if t.right.right.Bin? {
        LookAt(Snap(r), Plug(p, t), InR(InR(p, t.left, t.item, t.red), t.right.left, t.right.item, t.right.red),
          t.right.right, sentinel);
        assert WithParent(Snap(r), orphan, detach) == Snap(r);
      }
      if orphan != sentinel {
        SetParent(orphan, detach, r);
      }
    }

    /** Puts the successor `detach` in the place of `target`. */
    method MoveUp(target: Node<K>, detach: Node<K>, orphan: Node<K>, ghost p: Path<Cell<K>>, ghost t: Tree<Cell<K>>,
        ghost inner: Path<Cell<K>>, ghost d: Tree<Cell<K>>, ghost r: set<Node<K>>)
      returns (orphanParent: Node<K>)
      requires Holds(Snap(r), Plug(p, t), sentinel) && t.Bin? && t.left.Bin? && t.item.node == target
      requires t.right == Plug(inner, d) && d.Bin? && d.left.Leaf? && d.item.node == detach
      requires RootNode(d.right, sentinel) == orphan
      requires detach.parent == ParentNode(Join(inner, InR(p, t.left, t.item, t.red)), sentinel)
      modifies (r - {sentinel})`left, (r - {sentinel})`right, r`parent, r`red
      ensures Holds(Snap(r), Plug(p, Bin(t.left, d.item, t.red, Plug(inner, d.right))), sentinel)
      ensures orphanParent == ParentNode(Join(inner, InR(p, t.left, d.item, t.red)), sentinel)
    {
      ParentTells(p, t, inner, d, sentinel);
      if detach.parent == target {
        orphanParent := detach;
        LiftNear(target, detach, orphan, p, t, r);
      } else {
        orphanParent := detach.parent;
        LiftDeep(target, detach, p, t, inner, d, r);
      }
      TakeOver(target, detach, p, t.(right := Plug(inner, d.right)), d.item, r);
    }

    /** Removes a node with two children: its successor moves up. */
    method RemoveInner(target: Node<K>, ghost p: Path<Cell<K>>, ghost t: Tree<Cell<K>>, ghost r: set<Node<K>>)
      returns (detachRed: bool, orphan: Node<K>, orphanParent: Node<K>, ghost q: Path<Cell<K>>, ghost o: Tree<Cell<K>>)
      requires Holds(Snap(r), Plug(p, t), sentinel) && IsRedBlack(Plug(p, t))
      requires t.Bin? && t.left.Bin? && t.right.Bin? && t.item.node == target
      modifies (r - {sentinel})`left, (r - {sentinel})`right, r`parent, r`red
      ensures Holds(Snap(r), Plug(q, o), sentinel)
      ensures orphan == RootNode(o, sentinel) && orphanParent == ParentNode(q, sentinel)
      ensures if detachRed then IsRedBlack(Plug(q, o)) else Short(q, o)
      ensures var xs, i := Inorder(Plug(p, t)), |Before(p)| + |Inorder(t.left)|;
        i < |xs| && xs[i] == t.item && Inorder(Plug(q, o)) == Without(xs, i)
    {
      ghost var whole, outer := Plug(p, t), InR(p, t.left, t.item, t.red);
      LookAt(Snap(r), whole, outer, t.right, sentinel);
      var detach; ghost var inner, d;
      detach, inner, d := Minimum(target.right, whole, outer, t.right, r);
      PlugJoin(inner, outer, d);
      LookAt(Snap(r), whole, Join(inner, outer), d, sentinel);
      detachRed, orphan := detach.red, detach.right;
      orphanParent := MoveUp(target, detach, orphan, p, t, inner, d, r);
      q, o := Join(inner, InR(p, t.left, d.item, t.red)), d.right;
      SuccessorInorder(p, t, inner, d);
      SuccessorShort(p, t, inner, d);
    }

    /** Removes a node with at most one child. */
    method RemoveOuter(target: Node<K>, ghost p: Path<Cell<K>>, ghost t: Tree<Cell<K>>, ghost r: set<Node<K>>)
      returns (orphan: Node<K>, orphanParent: Node<K>, ghost o: Tree<Cell<K>>)
      requires Holds(Snap(r), Plug(p, t), sentinel) && IsRedBlack(Plug(p, t))
      requires t.Bin? && (t.left.Leaf? || t.right.Leaf?) && t.item.node == target
      requires target.left == RootNode(t.left, sentinel) && target.right == RootNode(t.right, sentinel)
      requires target.parent == ParentNode(p, sentinel) && (target.left == sentinel <==> t.left.Leaf?)
      modifies (r - {sentinel})`left, (r - {sentinel})`right, r`parent
      ensures Holds(Snap(r), Plug(p, o), sentinel)
      ensures orphan == RootNode(o, sentinel) && orphanParent == ParentNode(p, sentinel)
      ensures if t.red then IsRedBlack(Plug(p, o)) else Short(p, o)
      ensures var xs, i := Inorder(Plug(p, t)), |Before(p)| + |Inorder(t.left)|;
        i < |xs| && xs[i] == t.item && Inorder(Plug(p, o)) == Without(xs, i)
    {
      orphanParent := target.parent;
      if target.left == sentinel {
        orphan, o := target.right, t.right;
      } else {
        orphan, o := target.left, t.left;
      }
      RemovalShort(p, t, o);
      if t.red { PlugBalanced(p, o); }
      InorderSplice(p, t, o);
      SpliceOut(target, orphan, p, t, o, r);
    }

    /** Unlinks `target` from its neighbours and repairs the colours. */
    method Unlink(target: Node<K>, ghost p: Path<Cell<K>>, ghost t: Tree<Cell<K>>, ghost r: set<Node<K>>)
      returns (ghost result: Tree<Cell<K>>)
      requires Holds(Snap(r), Plug(p, t), sentinel) && IsRedBlack(Plug(p, t)) && t.Bin? && t.item.node == target
      modifies (r - {sentinel})`left, (r - {sentinel})`right, r`parent, r`red
      ensures Holds(Snap(r), result, sentinel) && IsRedBlack(result)
      ensures var xs, i := Inorder(Plug(p, t)), |Before(p)| + |Inorder(t.left)|;
        i < |xs| && xs[i] == t.item && Inorder(result) == Without(xs, i)
    {
      Children(Snap(r), Plug(p, t), p, t, sentinel);
      var detachRed := target.red;
      var orphan, orphanParent; ghost var q, o;
      if target.left == sentinel || target.right == sentinel {
        orphan, orphanParent, o := RemoveOuter(target, p, t, r);
        q := p;
      } else {
        detachRed, orphan, orphanParent, q, o := RemoveInner(target, p, t, r);
      }
      result := Plug(q, o);
      if !detachRed {
        result := DeleteFixup(orphan, orphanParent, q, o, r);
      }
    }

    /** Moves the cached minimum on when `n` is about to go. */
    method DropMin(n: Node<K>, ghost whole: Tree<Cell<K>>, ghost p: Path<Cell<K>>, ghost t: Tree<Cell<K>>,
        ghost r: set<Node<K>>)
      requires Holds(Snap(r), whole, sentinel) && Plug(p, t) == whole && t.Bin? && t.item.node == n
      requires sentinel.left == First(Inorder(whole), sentinel)
      modifies sentinel`left
      ensures Holds(Snap(r), whole, sentinel)
      ensures var xs, i := Inorder(whole), |Before(p)| + |Inorder(t.left)|;
        i < |xs| && xs[i] == t.item && sentinel.left == First(Without(xs, i), sentinel)
    {
      FirstWithout(p, t, sentinel);
      ghost var m := Snap(r);
      if n == sentinel.left {
        var next := Next(n, whole, p, t, r);
        sentinel.left := next;
      }
      MinHolds(m, Snap(r), whole, sentinel);
    }

    method ClearHook(n: Node<K>, ghost t: Tree<Cell<K>>, ghost r: set<Node<K>>)
      requires Holds(Snap(r), t, sentinel) && n !in Nodes(Inorder(t)) && n != sentinel
      modifies n`left, n`right, n`parent, n`red, n`linked
      ensures n.HookClear() && Holds(Snap(r - {n}), t, sentinel)
    {
      ghost var m := Snap(r);
      n.left, n.right := null, null;
      n.parent, n.red, n.linked := null, false, false;
      FrameHolds(m, Snap(r - {n}), n, t, sentinel);
    }

    /** Takes `n` out of the linked nodes. */
    method Withdraw(n: Node<K>, ghost t0: Tree<Cell<K>>, ghost r: set<Node<K>>) returns (ghost t1: Tree<Cell<K>>)
      requires Holds(Snap(r), t0, sentinel) && IsRedBlack(t0) && n in Nodes(Inorder(t0))
      requires sentinel.left == First(Inorder(t0), sentinel)
      modifies r`left, (r - {sentinel})`right, r`parent, r`red, n`linked
      ensures Holds(Snap(r - {n}), t1, sentinel) && IsRedBlack(t1) && n.HookClear()
      ensures Inorder(t1) == RemoveNode(Inorder(t0), n) && sentinel.left == First(Inorder(t1), sentinel)
    {
      CountPresent(t0, n);
      ghost var p, t := Locate(Top, t0, n);
      KeyOfMember(Snap(r), t0, n, sentinel);
      DropMin(n, t0, p, t, r);
      ghost var i := |Before(p)| + |Inorder(t.left)|;
      t1 := Unlink(n, p, t, r);
      RemovedNode(t0, t1, i, n);
      ClearHook(n, t1, r);
    }

    method EraseLinked(n: Node<K>)
      requires Valid() && n in Nodes(Elements())
      modifies this`size, this`tree
      modifies Region()`left, Region()`right, Region()`parent, Region()`red, n`linked
      ensures Valid() && n.HookClear() && Elements() == RemoveNode(old(Elements()), n)
    {
      ghost var r, t0 := Region(), tree;
      ghost var t1 := Withdraw(n, t0, r);
      ErasedElements(less, t0, t1, n, sentinel);
      Become(t1, size - 1, r - {n});
    }

    /** Removes exactly `n`; as in the source, a linked `n` must be linked in this tree. */
    method Erase(n: Node?<K>) returns (ok: bool)
      requires Valid()
      requires n != null && n.linked ==> n in Nodes(Elements())
      modifies this`size, this`tree
      modifies Region()`left, Region()`right, Region()`parent, Region()`red, (if n == null then {} else {n})`linked
      ensures Valid()
      ensures ok <==> n != null && old(n.linked)
      ensures ok ==> n.HookClear() && Elements() == RemoveNode(old(Elements()), n)
      ensures !ok ==> tree == old(tree) && Snap(With(n)) == old(Snap(With(n)))
    {
      if n == null {
        return false;
      }
      if !n.linked {
        return false;
      }
      EraseLinked(n);
      return true;
    }

    method PopFirst(n: Node<K>)
      requires Valid() && Elements() != [] && n == Elements()[0].node
      modifies this`size, this`tree
      modifies Region()`left, Region()`right, Region()`parent, Region()`red, Region()`linked
      ensures Valid() && Elements() == old(Elements())[1..] && Region() == old(Region()) - {n} && n.HookClear()
    {
      FirstKey();
      TailNodes(Elements());
      EraseLinked(n);
    }

    /** Pops the first element if it satisfies `pred`; `r` is any set of nodes that came from this tree. */
    method PopIf(pred: K -> bool, ghost r: set<Node<K>>) returns (n: Node?<K>)
      requires Valid() && size != 0 && Region() <= r && AllClear(r - Region())
      modifies this`size, this`tree
      modifies Region()`left, Region()`right, Region()`parent, Region()`red, Region()`linked
      ensures Valid() && Region() <= old(Region()) && AllClear(r - Region())
      ensures n == null ==> tree == old(tree) && !pred(old(Elements())[0].key)
      ensures n != null ==>
        n == old(Elements())[0].node && pred(old(Elements())[0].key)
        && Elements() == old(Elements())[1..]
    {
      FirstKey();
      n := Earliest();
      if pred(n.key) {
        PopFirst(n);
      } else {
        n := null;
      }
    }

    /** Removes the longest prefix of the elements that satisfies `pred`, in order. */
    method ExtractPrefix(pred: K -> bool) returns (popped: seq<Node<K>>)
      requires Valid()
      modifies this`size, this`tree
      modifies Region()`left, Region()`right, Region()`parent, Region()`red, Region()`linked
      ensures Valid() && AllClear(old(Region()) - Region())
      ensures var xs, k := old(Elements()), PrefixLength(pred, old(Elements()));
        Elements() == xs[k..] && popped == NodesOf(xs[..k])
    {
      ghost var xs, r := Elements(), Region();
      popped := [];
      while size != 0
        invariant Valid() && Region() <= r && AllClear(r - Region()) && Extracting(pred, xs, Elements(), popped)
        decreases size
      {
        ghost var rest := Elements();
        var n := PopIf(pred, r);
        if n == null {
          break;
        }
        ExtractNext(pred, xs, rest, popped);
        popped := popped + [n];
      }
      ExtractDone(pred, xs, Elements(), popped);
    }

    // ---- Clear -----------------------------------------------------------

    /** Unhooks the leaf `node` from its parent, as Clear does it. */
    method DetachLeaf(node: Node<K>, parent: Node<K>, ghost p: Path<Cell<K>>, ghost t: Tree<Cell<K>>,
        ghost r: set<Node<K>>)
      requires Holds(Snap(r), Plug(p, t), sentinel) && !p.Top? && t.Bin? && t.left.Leaf? && t.right.Leaf?
      requires t.item.node == node && node.parent == parent && node in r
      modifies (r - {sentinel})`left, (r - {sentinel})`right
      ensures Holds(Snap(r), Plug(p, Leaf), sentinel)
    {
      ghost var m := Snap(r);
      LookAt(m, Plug(p, t), p, t, sentinel);
      SpliceHolds(m, p, t, Leaf, sentinel);
      if parent.left == node {
        SetLeft(parent, sentinel, r);
      } else {
        SetRight(parent, sentinel, r);
      }
    }

    /** Removes the leaf `node` and clears its hook; the next position is its parent. */
    method DropLeaf(node: Node<K>, ghost p: Path<Cell<K>>, ghost t: Tree<Cell<K>>, ghost r: set<Node<K>>)
        returns (parent: Node<K>)
      requires Holds(Snap(r), Plug(p, t), sentinel) && !p.Top? && t.Bin? && t.left.Leaf? && t.right.Leaf?
      requires t.item.node == node
      modifies (r - {sentinel})`left, (r - {sentinel})`right, node`parent, node`red, node`linked
      ensures parent == p.item.node && node.HookClear() && Holds(Snap(r - {node}), Plug(p, Leaf), sentinel)
      ensures node !in Nodes(Inorder(Plug(p, Leaf)))
    {
      LookAt(Snap(r), Plug(p, t), p, t, sentinel);
      LeafGone(Snap(r), p, t, sentinel);
      parent := node.parent;
      DetachLeaf(node, parent, p, t, r);
      ClearHook(node, Plug(p, Leaf), r);
    }

    /** Clear stands at `node`, the root of `t`; exactly the nodes of `left` are still hooked. */
    ghost predicate Clearing(node: Node<K>, p: Path<Cell<K>>, t: Tree<Cell<K>>, left: set<Node<K>>)
      reads left
    {
      if node == sentinel then left == {sentinel} else
        && t.Bin? && t.item.node == node
        && left == Nodes(Inorder(Plug(p, t))) + {sentinel} && Holds(Snap(left), Plug(p, t), sentinel)
    }

    method ClearStep(node: Node<K>, ghost p: Path<Cell<K>>, ghost t: Tree<Cell<K>>, ghost left: set<Node<K>>)
      returns (next: Node<K>, ghost p1: Path<Cell<K>>, ghost t1: Tree<Cell<K>>, ghost left1: set<Node<K>>)
      requires Clearing(node, p, t, left) && node != sentinel
      modifies (left - {sentinel})`left, (left - {sentinel})`right, (left - {sentinel})`parent
      modifies (left - {sentinel})`red, (left - {sentinel})`linked
      ensures Clearing(next, p1, t1, left1) && left1 <= left && sentinel in left1 && AllClear(left - left1)
      ensures |Inorder(Plug(p1, t1))| < |Inorder(Plug(p, t))|
              || (Plug(p1, t1) == Plug(p, t) && left1 == left && |Inorder(t1)| < |Inorder(t)|)
    {
      Children(Snap(left), Plug(p, t), p, t, sentinel);
      p1, t1, left1 := p, t, left;
      if node.left != sentinel {
        next, p1, t1 := node.left, InL(p, t.item, t.red, t.right), t.left;
      } else if node.right != sentinel {
        next, p1, t1 := node.right, InR(p, t.left, t.item, t.red), t.right;
      } else {
        next, p1, t1, left1 := ClearLeaf(node, p, t, left);
      }
    }

    method ClearLeaf(node: Node<K>, ghost p: Path<Cell<K>>, ghost t: Tree<Cell<K>>, ghost left: set<Node<K>>)
      returns (next: Node<K>, ghost p1: Path<Cell<K>>, ghost t1: Tree<Cell<K>>, ghost left1: set<Node<K>>)
      requires Clearing(node, p, t, left) && node != sentinel && t.left.Leaf? && t.right.Leaf?
      modifies (left - {sentinel})`left, (left - {sentinel})`right, (left - {sentinel})`parent
      modifies (left - {sentinel})`red, (left - {sentinel})`linked
      ensures Clearing(next, p1, t1, left1) && left1 == left - {node} && sentinel in left1 && node.HookClear()
      ensures |Inorder(Plug(p1, t1))| < |Inorder(Plug(p, t))|
    {
      LookAt(Snap(left), Plug(p, t), p, t, sentinel);
      LeafGone(Snap(left), p, t, sentinel);
      next := node.parent;
      left1 := left - {node};
      if next != sentinel {
        next := DropLeaf(node, p, t, left);
        p1, t1 := p.up, Lift(p, Leaf);
      } else {
        node.left, node.right := null, null;
        node.parent, node.red, node.linked := null, false, false;
        p1, t1 := p, Leaf;
      }
    }

    method Unhook(root: Node<K>, ghost r: set<Node<K>>)
      requires Clearing(root, Top, tree, r) && sentinel in r
      modifies (r - {sentinel})`left, (r - {sentinel})`right, (r - {sentinel})`parent
      modifies (r - {sentinel})`red, (r - {sentinel})`linked
      ensures AllClear(r - {sentinel})
    {
      var node := root;
      ghost var p: Path<Cell<K>>, t, left := Top, tree, r;
      while node != sentinel
        invariant Clearing(node, p, t, left) && left <= r && sentinel in left && AllClear(r - left)
        decreases |Inorder(Plug(p, t))|, |Inorder(t)|
      {
        node, p, t, left := ClearStep(node, p, t, left);
      }
    }

    /** Unlinks every node, clearing all hooks, and leaves an empty tree. */
    method Clear()
      requires Valid()
      modifies this`size, this`tree
      modifies Region()`left, Region()`right, Region()`parent, Region()`red, Region()`linked
      ensures Valid() && Elements() == [] && AllClear(old(Region()) - {sentinel})
    {
      if size == 0 {
        return;
      }
      ghost var r := Region();
      Unhook(sentinel.parent, r);
      sentinel.parent, sentinel.left, sentinel.right, sentinel.red := sentinel, sentinel, sentinel, false;
      size, tree := 0, Leaf;
    }

    // ---- CheckInvariants ---------------------------------------------------

    predicate IsHeader(node: Node<K>)
      reads node
    {
      node.right == node
    }

    /** Walks parent links to the header, giving up after `size` steps. */
    method HeaderOf(start: Node<K>, ghost whole: Tree<Cell<K>>, ghost r: set<Node<K>>) returns (header: Node?<K>)
      requires Holds(Snap(r), whole, sentinel) && start in Nodes(Inorder(whole))
      ensures Snap(r) == old(Snap(r))
      ensures header == null || header == sentinel
      ensures |Inorder(whole)| <= size ==> header == sentinel
    {
      ghost var m := Snap(r);
      CountPresent(whole, start);
      ghost var p, t := Locate(Top, whole, start);
      LookAt(m, whole, p, t, sentinel);
      if !start.linked {
        return null;
      }
      DepthBound(p, t);
      var node := start;
      var steps := 0;
      while steps <= size
        invariant m == Snap(r) && node in r
        invariant node == sentinel || (Plug(p, t) == whole && t.Bin? && t.item.node == node)
        invariant steps + (if node == sentinel then 0 else Depth(p) + 1) <= |Inorder(whole)|
      {
        if node != sentinel { Children(m, whole, p, t, sentinel); NoSelfLoop(m, whole, p, t, sentinel); }
        if IsHeader(node) {
          return node;
        }
        LookAt(m, whole, p, t, sentinel);
        node := node.parent;
        if !p.Top? { p, t := p.up, Lift(p, t); }
        steps := steps + 1;
      }
      return null;
    }

    /** The checks at one node. */
    predicate CheckNode(node: Node<K>, parent: Node<K>, lower: Node?<K>, upper: Node?<K>,
                        ghost whole: Tree<Cell<K>>, ghost p: Path<Cell<K>>, ghost t: Tree<Cell<K>>,
                        ghost r: set<Node<K>>)
      requires Holds(Snap(r), whole, sentinel) && Plug(p, t) == whole && StrictWeakOrder(less)
      requires t.Bin? && node == t.item.node && parent == ParentNode(p, sentinel)
      reads r, lower, upper
      ensures node in r && node.key == t.item.key && node.red == t.red
      ensures node.left == RootNode(t.left, sentinel) && node.right == RootNode(t.right, sentinel)
      ensures CheckNode(node, parent, lower, upper, whole, p, t, r) <==> SoundHere(less, Bound(lower), t, Bound(upper))
    {
      CheckReads(Snap(r), whole, p, t, sentinel);
      && node.linked && !IsHeader(node) && node.parent == parent && node.left != null && node.right != null
      && !less(node.key, node.key)
      && (lower != null ==> less(lower.key, node.key))
      && (upper != null ==> less(node.key, upper.key))
      && !(node.red && (node.left.red || node.right.red))
    }

    /** Checks the subtree `t` at `node`, whose keys must lie strictly between those of `lower` and `upper`. */
    function CheckSubtree(node: Node<K>, parent: Node<K>, lower: Node?<K>, upper: Node?<K>,
                          ghost whole: Tree<Cell<K>>, ghost p: Path<Cell<K>>, ghost t: Tree<Cell<K>>,
                          ghost r: set<Node<K>>)
      : (result: CheckResult<K>)
      requires Holds(Snap(r), whole, sentinel) && Plug(p, t) == whole && StrictWeakOrder(less)
      requires node == RootNode(t, sentinel) && parent == ParentNode(p, sentinel)
      requires Increasing(less, Bound(lower) + Bound(upper))
      reads r, lower, upper
      ensures result.ok <==> Sound(less, Bound(lower), t, Bound(upper))
      ensures result.ok ==> result.blackHeight == BlackHeight(t) && result.count == |Inorder(t)|
      ensures result.ok && t.Bin? ==> result.min == First(Inorder(t), sentinel)
      decreases t
    {
      LookAt(Snap(r), whole, p, t, sentinel);
      var failed := CheckResult(false, 0, 0, null);
      if node == sentinel then
        assert Bound(lower) + [] + Bound(upper) == Bound(lower) + Bound(upper);
        CheckResult(true, 0, 0, null)
      else if SoundSplit(less, Bound(lower), t, Bound(upper));
        !CheckNode(node, parent, lower, upper, whole, p, t, r) then
        failed
      else
        var left := CheckSubtree(node.left, node, lower, node, whole, InL(p, t.item, t.red, t.right), t.left, r);
        if !left.ok then failed else
        var right := CheckSubtree(node.right, node, node, upper, whole, InR(p, t.left, t.item, t.red), t.right, r);
        if !right.ok || left.blackHeight != right.blackHeight then failed else
        CheckResult(true, left.blackHeight + (if node.red then 0 else 1), left.count + right.count + 1,
                    if left.count == 0 then node else left.min)
    }

    /**
     * The self check, on any hooks that spell out some tree below the sentinel, whatever its colours, its order,
     * the recorded size and the cached minimum.  It asks for strictly increasing keys.
     */
    method CheckInvariants() returns (ok: bool)
      requires StrictWeakOrder(less) && Holds(Snap(Region()), tree, sentinel)
      requires sentinel.left == null || sentinel.left in Region()
      ensures ok <==> IsRedBlack(tree) && Increasing(less, Keys(tree)) && size == |Elements()|
                      && sentinel.left == First(Elements(), sentinel)
    {
      ghost var r := Region();
      if sentinel.red || sentinel.linked || !IsHeader(sentinel) {
        return false;
      }
      LookAt(Snap(r), tree, Top, tree, sentinel);
      if sentinel.parent == null || sentinel.left == null {
        return false;
      }
      var root: Node<K>, min: Node<K> := sentinel.parent, sentinel.left;
      if root == sentinel {
        return size == 0 && min == sentinel;
      }
      if size == 0 || min == sentinel || root.parent != sentinel || root.red {
        return false;
      }
      var rootHeader := HeaderOf(root, tree, r);
      var minHeader := HeaderOf(min, tree, r);
      if rootHeader != sentinel || minHeader != sentinel {
        return false;
      }
      assert [] + Keys(tree) + [] == Keys(tree);
      var result := CheckSubtree(root, sentinel, null, null, tree, Top, tree, r);
      return result.ok && result.count == size && result.min == min;
    }

    lemma {:induction false} FirstKey()
      requires Valid() && Elements() != []
      ensures Elements()[0].node in Region() && Elements()[0].node.key == Elements()[0].key
      ensures Elements()[0].node in Nodes(Elements())
    {
      KeyOf(Snap(Region()), tree, sentinel, sentinel, Elements()[0]);
    }
  }

  /**
   * On a tree that meets its invariant, the self check answers whether no two elements are equivalent:
   * it is stricter than the order Insert keeps.
   */
  method SelfCheckOfValid<K(0, !new)>(t: IntrusiveTree<K>) returns (ok: bool)
    requires t.Valid()
    ensures ok <==> NoneEquivalent(t.less, t.Elements())
  {
    NoEquivalents(t.less, t.tree);
    FirstInRegion(t);
    ok := t.CheckInvariants();
  }

  lemma {:induction false} FirstInRegion<K(0, !new)>(t: IntrusiveTree<K>)
    requires t.Valid()
    ensures t.sentinel.left in t.Region()
  {
    if t.Elements() != [] { assert t.Elements()[0] in t.Elements(); }
  }
}
