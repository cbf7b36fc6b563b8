/**
  How a red-black tree is laid out in node hooks.  A `Memory` is a snapshot of
  hooks; `Holds` says that a memory spells out a given tree below its sentinel,
  and the lemmas say what the individual link writes of the tree operations do to
  the tree that is spelled out.
 */
module RedBlackLinks {
  import opened Options
  import opened RedBlackShape

  /** The hook every element inherits, together with the order key the element carries. */
  class Node<K(0)> {
    var key: K
    var parent: Node?<K>
    var left: Node?<K>
    var right: Node?<K>
    var red: bool
    var linked: bool

    constructor (key: K)
      ensures this.key == key && HookClear()
    {
      this.key := key;
      parent, left, right, red, linked := null, null, null, false, false;
    }

    constructor Sentinel()
      ensures parent == left == right == this && !red && !linked
    {
      red, linked := false, false;
      new;
      parent, left, right := this, this, this;
    }

    predicate HookClear()
      reads this
    {
      parent == null && left == null && right == null && !red && !linked
    }
  }

  /** A node and the key it was linked with. */
  datatype Cell<K(0)> = Cell(node: Node<K>, key: K)

  /** How often a node occurs in a tree, and on or beside a path. */
  ghost function Count<K(0)>(t: Tree<Cell<K>>, n: Node<K>): nat {
    if t.Leaf? then 0 else Count(t.left, n) + (if t.item.node == n then 1 else 0) + Count(t.right, n)
  }

  ghost function PathCount<K(0)>(p: Path<Cell<K>>, n: Node<K>): nat {
    match p
    case Top => 0
    case InL(up, x, _, r) => PathCount(up, n) + (if x.node == n then 1 else 0) + Count(r, n)
    case InR(up, l, x, _) => PathCount(up, n) + (if x.node == n then 1 else 0) + Count(l, n)
  }

  ghost function Nodes<K(0)>(xs: seq<Cell<K>>): set<Node<K>> {
    set x | x in xs :: x.node
  }

  ghost function NodeAt<K(0)>(xs: seq<Cell<K>>, i: nat): Node<K>
    requires i < |xs|
  {
    xs[i].node
  }

  ghost predicate Distinct<K(0)>(xs: seq<Cell<K>>) {
    forall i, j :: 0 <= i < j < |xs| ==> NodeAt(xs, i) != NodeAt(xs, j)
  }

  lemma {:induction false} CountPresent<K(0)>(t: Tree<Cell<K>>, n: Node<K>)
    ensures n in Nodes(Inorder(t)) <==> Count(t, n) > 0
  {
    if t.Bin? {
      CountPresent(t.left, n);
      CountPresent(t.right, n);
      assert t.item in Inorder(t);
    }
  }

  lemma {:induction false} PositionOf<K(0)>(t: Tree<Cell<K>>, n: Node<K>) returns (i: nat)
    requires Count(t, n) > 0
    ensures i < |Inorder(t)| && NodeAt(Inorder(t), i) == n
  {
    CountPresent(t, n);
    var x :| x in Inorder(t) && x.node == n;
    i :| i < |Inorder(t)| && Inorder(t)[i] == x;
  }

  lemma {:induction false} CountOnce<K(0)>(t: Tree<Cell<K>>, n: Node<K>)
    requires Distinct(Inorder(t))
    ensures Count(t, n) <= 1
  {
    if t.Bin? {
      var l, r, all := Inorder(t.left), Inorder(t.right), Inorder(t);
      assert forall i :: 0 <= i < |l| ==> NodeAt(l, i) == NodeAt(all, i);
      assert forall i :: 0 <= i < |r| ==> NodeAt(r, i) == NodeAt(all, |l| + 1 + i);
      assert NodeAt(all, |l|) == t.item.node;
      CountOnce(t.left, n);
      CountOnce(t.right, n);
      if Count(t.left, n) > 0 { var i := PositionOf(t.left, n); assert NodeAt(all, i) == n; }
      if Count(t.right, n) > 0 { var i := PositionOf(t.right, n); assert NodeAt(all, |l| + 1 + i) == n; }
    }
  }

  /** The node a subtree is reached by; the sentinel stands for every leaf. */
  ghost function RootNode<K(0)>(t: Tree<Cell<K>>, s: Node<K>): Node<K> {
    if t.Leaf? then s else t.item.node
  }

  ghost function ParentNode<K(0)>(p: Path<Cell<K>>, s: Node<K>): Node<K> {
    if p.Top? then s else p.item.node
  }

  /** The root of the whole tree when `hole` is what hangs at the end of `p`. */
  ghost function TopNode<K(0)>(p: Path<Cell<K>>, hole: Node<K>): Node<K> {
    if p.Top? then hole else TopNode(p.up, p.item.node)
  }

  /** The content of one hook. */
  datatype Hook<K(0)> = Hook(parent: Node?<K>, left: Node?<K>, right: Node?<K>, red: bool, linked: bool, key: K)

  type Memory<K(0)> = map<Node<K>, Hook<K>>

  ghost function AnyKey<K(0)>(): K {
    var k: K :| true;
    k
  }

  /** The hook of `n`; nodes outside `ns` get a fixed value, so that memories over `ns` never depend on them. */
  ghost function HookOf<K(0)>(n: Node<K>, ns: set<Node<K>>): Hook<K>
    reads ns
  {
    if n in ns then Hook(n.parent, n.left, n.right, n.red, n.linked, n.key)
    else Hook(null, null, null, false, false, AnyKey())
  }

  /** The hooks of `ns`. */
  ghost function Snap<K(0)>(ns: set<Node<K>>): Memory<K>
    reads ns
  {
    map n | n in ns :: HookOf(n, ns)
  }

  /** The hooks in `m` spell out exactly `t`, hanging below `parent`. */
  ghost predicate Spells<K(0)>(m: Memory<K>, t: Tree<Cell<K>>, parent: Node<K>, s: Node<K>) {
    t.Bin? ==>
      var n := t.item.node;
      && n in m
      && m[n] == Hook(parent, RootNode(t.left, s), RootNode(t.right, s), t.red, true, t.item.key)
      && Spells(m, t.left, n, s) && Spells(m, t.right, n, s)
  }

  /** The hook of the innermost node of the path when `hole` hangs below it. */
  ghost function PathHook<K(0)>(p: Path<Cell<K>>, hole: Node<K>, s: Node<K>): Hook<K>
    requires !p.Top?
  {
    match p
    case InL(up, x, c, r) => Hook(ParentNode(up, s), hole, RootNode(r, s), c, true, x.key)
    case InR(up, l, x, c) => Hook(ParentNode(up, s), RootNode(l, s), hole, c, true, x.key)
  }

  /** The hooks in `m` spell out the path `p` with `hole` at its end. */
  ghost predicate SpellsPath<K(0)>(m: Memory<K>, p: Path<Cell<K>>, hole: Node<K>, s: Node<K>) {
    !p.Top? ==>
      var n := p.item.node;
      && n in m && m[n] == PathHook(p, hole, s)
      && Spells(m, Beside(p), n, s) && SpellsPath(m, p.up, n, s)
  }

  ghost predicate SpellsAt<K(0)>(m: Memory<K>, p: Path<Cell<K>>, t: Tree<Cell<K>>, s: Node<K>) {
    Spells(m, t, ParentNode(p, s), s) && SpellsPath(m, p, RootNode(t, s), s)
  }

  lemma {:induction false} Focus<K(0)>(m: Memory<K>, p: Path<Cell<K>>, t: Tree<Cell<K>>, s: Node<K>)
    ensures Spells(m, Plug(p, t), s, s) <==> SpellsAt(m, p, t, s)
    ensures RootNode(Plug(p, t), s) == TopNode(p, RootNode(t, s))
    decreases p
  {
    match p
    case Top =>
    case InL(up, x, c, r) => Focus(m, up, Bin(t, x, c, r), s);
    case InR(up, l, x, c) => Focus(m, up, Bin(l, x, c, t), s);
  }

  lemma {:induction false} FocusCount<K(0)>(p: Path<Cell<K>>, t: Tree<Cell<K>>, n: Node<K>)
    ensures Count(Plug(p, t), n) == PathCount(p, n) + Count(t, n)
    decreases p
  {
    match p
    case Top =>
    case InL(up, x, c, r) => FocusCount(up, Bin(t, x, c, r), n);
    case InR(up, l, x, c) => FocusCount(up, Bin(l, x, c, t), n);
  }

  /** No node occurs twice, and the sentinel not at all. */
  ghost predicate Clean<K(0)>(t: Tree<Cell<K>>, s: Node<K>) {
    Distinct(Inorder(t)) && s !in Nodes(Inorder(t))
  }

  lemma {:induction false} CountAt<K(0)>(p: Path<Cell<K>>, t: Tree<Cell<K>>, s: Node<K>, n: Node<K>)
    requires Clean(Plug(p, t), s)
    ensures PathCount(p, n) + Count(t, n) <= if n == s then 0 else 1
  {
    FocusCount(p, t, n);
    CountOnce(Plug(p, t), n);
    CountPresent(Plug(p, t), n);
  }

  lemma {:induction false} RootCounts<K(0)>(t: Tree<Cell<K>>)
    ensures t.Bin? ==> Count(t, t.item.node) > 0
  {}

  // ---- Framing -----------------------------------------------------------

  /** `m1` differs from `m0` in the hooks of `w` at most. */
  ghost predicate Agree<K(0)>(m0: Memory<K>, m1: Memory<K>, w: set<Node<K>>) {
    forall n :: n in m0 && n !in w ==> n in m1 && m1[n] == m0[n]
  }

  ghost predicate Avoids<K(0)>(t: Tree<Cell<K>>, w: set<Node<K>>) {
    forall n :: n in w ==> Count(t, n) == 0
  }

  ghost predicate PathAvoids<K(0)>(p: Path<Cell<K>>, w: set<Node<K>>) {
    forall n :: n in w ==> PathCount(p, n) == 0
  }

  lemma {:induction false} Frame<K(0)>(m0: Memory<K>, m1: Memory<K>, w: set<Node<K>>, t: Tree<Cell<K>>,
      parent: Node<K>, s: Node<K>)
    requires Spells(m0, t, parent, s) && Agree(m0, m1, w) && Avoids(t, w)
    ensures Spells(m1, t, parent, s)
  {
    if t.Bin? {
      Frame(m0, m1, w, t.left, t.item.node, s);
      Frame(m0, m1, w, t.right, t.item.node, s);
    }
  }

  lemma {:induction false} FramePath<K(0)>(m0: Memory<K>, m1: Memory<K>, w: set<Node<K>>, p: Path<Cell<K>>,
      hole: Node<K>, s: Node<K>)
    requires SpellsPath(m0, p, hole, s) && Agree(m0, m1, w) && PathAvoids(p, w)
    ensures SpellsPath(m1, p, hole, s)
  {
    if !p.Top? {
      Frame(m0, m1, w, Beside(p), p.item.node, s);
      FramePath(m0, m1, w, p.up, p.item.node, s);
    }
  }

  /** The hook of the root of `t` when it hangs below `parent`. */
  ghost function TreeHook<K(0)>(t: Tree<Cell<K>>, parent: Node<K>, s: Node<K>): Hook<K>
    requires t.Bin?
  {
    Hook(parent, RootNode(t.left, s), RootNode(t.right, s), t.red, true, t.item.key)
  }

  /** Hanging a subtree below another parent only changes the hook of its root. */
  lemma {:induction false} Reparent<K(0)>(m0: Memory<K>, m1: Memory<K>, w: set<Node<K>>, t: Tree<Cell<K>>,
      was: Node<K>, parent: Node<K>, s: Node<K>)
    requires Spells(m0, t, was, s) && Agree(m0, m1, w)
    requires t.Bin? ==> Avoids(t.left, w) && Avoids(t.right, w)
    requires t.Bin? ==> t.item.node in m1 && m1[t.item.node] == TreeHook(t, parent, s)
    ensures Spells(m1, t, parent, s)
  {
    if t.Bin? {
      Frame(m0, m1, w, t.left, t.item.node, s);
      Frame(m0, m1, w, t.right, t.item.node, s);
    }
  }

  /** Hanging something else at the end of a path only changes the hook of its innermost node. */
  lemma {:induction false} Rehang<K(0)>(m0: Memory<K>, m1: Memory<K>, w: set<Node<K>>, p: Path<Cell<K>>, was: Node<K>,
      hole: Node<K>, s: Node<K>)
    requires SpellsPath(m0, p, was, s) && Agree(m0, m1, w)
    requires !p.Top? ==> Avoids(Beside(p), w) && PathAvoids(p.up, w)
    requires !p.Top? ==> p.item.node in m1 && m1[p.item.node] == PathHook(p, hole, s)
    ensures SpellsPath(m1, p, hole, s)
  {
    if !p.Top? {
      Frame(m0, m1, w, Beside(p), p.item.node, s);
      FramePath(m0, m1, w, p.up, p.item.node, s);
    }
  }

  /** A subtree was replaced by one with the same in-order sequence. */
  lemma {:induction false} Rebuilt<K(0)>(m: Memory<K>, p: Path<Cell<K>>, t: Tree<Cell<K>>, u: Tree<Cell<K>>, s: Node<K>)
    requires SpellsAt(m, p, u, s) && Inorder(u) == Inorder(t)
    ensures Inorder(Plug(p, u)) == Inorder(Plug(p, t)) && Spells(m, Plug(p, u), s, s)
    ensures RootNode(Plug(p, u), s) == if p.Top? then RootNode(u, s) else RootNode(Plug(p, t), s)
  {
    InorderPlug(p, t);
    InorderPlug(p, u);
    Focus(m, p, u, s);
    Focus(m, p, t, s);
  }

  ghost function Lookup<K(0)>(m: Memory<K>, n: Node<K>): Option<Hook<K>> {
    if n in m then Some(m[n]) else None
  }

  /** The memory below sentinel `s` is the tree `t`. */
  ghost predicate Holds<K(0)>(m: Memory<K>, t: Tree<Cell<K>>, s: Node<K>) {
    match Lookup(m, s)
    case None => false
    case Some(h) =>
      && h == Hook(RootNode(t, s), h.left, s, false, false, h.key)
      && Clean(t, s) && Spells(m, t, s, s)
  }

  /** What the memory says at and above the subtree `t`. */
  lemma {:induction false} Look<K(0)>(m: Memory<K>, p: Path<Cell<K>>, t: Tree<Cell<K>>, s: Node<K>)
    requires Holds(m, Plug(p, t), s)
    ensures SpellsAt(m, p, t, s)
    ensures t.Bin? ==> t.item.node in m && m[t.item.node] == TreeHook(t, ParentNode(p, s), s) && t.item.node != s
    ensures !p.Top? ==>
      ParentNode(p, s) in m && m[ParentNode(p, s)] == PathHook(p, RootNode(t, s), s)
      && ParentNode(p, s) != s
    ensures t.Bin? && !p.Top? ==> RootNode(Beside(p), s) != t.item.node
    ensures m[s].parent == TopNode(p, RootNode(t, s))
    ensures t.Bin? ==> (p.Top? <==> m[s].parent == t.item.node)
    ensures !p.Top? ==> m[s].parent != s
  {
    Focus(m, p, t, s);
    TopIsRoot(p, t, s);
    if t.Bin? {
      CountAt(p, t, s, t.item.node);
    }
    if !p.Top? {
      CountAt(p, t, s, ParentNode(p, s));
      RootCounts(Beside(p));
    }
  }

  lemma {:induction false} LookAt<K(0)>(m: Memory<K>, whole: Tree<Cell<K>>, p: Path<Cell<K>>, t: Tree<Cell<K>>,
      s: Node<K>)
    requires Holds(m, whole, s) && Plug(p, t) == whole
    ensures t.Bin? ==> t.item.node in m && m[t.item.node] == TreeHook(t, ParentNode(p, s), s) && t.item.node != s
    ensures !p.Top? ==>
      ParentNode(p, s) in m && m[ParentNode(p, s)] == PathHook(p, RootNode(t, s), s)
      && ParentNode(p, s) != s
    ensures t.Bin? && !p.Top? ==> RootNode(Beside(p), s) != t.item.node
  {
    Look(m, p, t, s);
  }

  lemma {:induction false} TopIsOnPath<K(0)>(p: Path<Cell<K>>, hole: Node<K>)
    requires !p.Top?
    ensures PathCount(p, TopNode(p, hole)) > 0
  {
    if !p.up.Top? { TopIsOnPath(p.up, p.item.node); }
  }

  lemma {:induction false} TopIsRoot<K(0)>(p: Path<Cell<K>>, t: Tree<Cell<K>>, s: Node<K>)
    requires Clean(Plug(p, t), s)
    ensures !p.Top? ==> TopNode(p, RootNode(t, s)) != s && TopNode(p, RootNode(t, s)) != RootNode(t, s)
  {
    if !p.Top? {
      TopIsOnPath(p, RootNode(t, s));
      CountAt(p, t, s, TopNode(p, RootNode(t, s)));
      CountAt(p, t, s, RootNode(t, s));
    }
  }

  /** A node that is not linked is in no tree. */
  lemma {:induction false} NotLinked<K(0)>(m: Memory<K>, t: Tree<Cell<K>>, n: Node<K>, parent: Node<K>, s: Node<K>)
    requires Spells(m, t, parent, s) && (n in m ==> !m[n].linked)
    ensures n !in Nodes(Inorder(t))
  {
    CountPresent(t, n);
    if t.Bin? {
      NotLinked(m, t.left, n, t.item.node, s);
      NotLinked(m, t.right, n, t.item.node, s);
      CountPresent(t.left, n);
      CountPresent(t.right, n);
    }
  }

  /** Hooks outside the tree do not matter. */
  lemma {:induction false} FrameHolds<K(0)>(m0: Memory<K>, m1: Memory<K>, n: Node<K>, t: Tree<Cell<K>>, s: Node<K>)
    requires Holds(m0, t, s) && Agree(m0, m1, {n}) && n != s && n !in Nodes(Inorder(t))
    ensures Holds(m1, t, s)
  {
    CountPresent(t, n);
    Frame(m0, m1, {n}, t, s, s);
  }

  // ---- Recolouring -------------------------------------------------------

  ghost function WithRed<K(0)>(m: Memory<K>, n: Node<K>, red: bool): Memory<K>
    requires n in m
  { m[n := m[n].(red := red)] }

  lemma {:induction false} RecolorHolds<K(0)>(m: Memory<K>, p: Path<Cell<K>>, t: Tree<Cell<K>>, red: bool, s: Node<K>)
    requires t.Bin? && Holds(m, Plug(p, t), s)
    ensures t.item.node in m && Holds(WithRed(m, t.item.node, red), Plug(p, t.(red := red)), s)
    ensures Inorder(Plug(p, t.(red := red))) == Inorder(Plug(p, t))
  {
    var n := t.item.node;
    Look(m, p, t, s);
    var m1 := WithRed(m, n, red);
    CountAt(p, t, s, n);
    Frame(m, m1, {n}, t.left, n, s);
    Frame(m, m1, {n}, t.right, n, s);
    FramePath(m, m1, {n}, p, n, s);
    Rebuilt(m1, p, t, t.(red := red), s);
  }

  // ---- The link writes ---------------------------------------------------

  ghost function WithParent<K(0)>(m: Memory<K>, n: Node<K>, v: Node<K>): Memory<K>
    requires n in m
  { m[n := m[n].(parent := v)] }

  ghost function WithLeft<K(0)>(m: Memory<K>, n: Node<K>, v: Node<K>): Memory<K>
    requires n in m
  { m[n := m[n].(left := v)] }

  ghost function WithRight<K(0)>(m: Memory<K>, n: Node<K>, v: Node<K>): Memory<K>
    requires n in m
  { m[n := m[n].(right := v)] }

  ghost predicate CanTransplant<K(0)>(m: Memory<K>, src: Node<K>, dst: Node<K>, s: Node<K>) {
    src in m && dst in m && s in m && m[src].parent != null && m[src].parent in m
  }

  /** `dst` hangs where `src` hung. */
  ghost function Transplanted<K(0)>(m: Memory<K>, src: Node<K>, dst: Node<K>, s: Node<K>): Memory<K>
    requires CanTransplant(m, src, dst, s)
  {
    var q := m[src].parent;
    var m1 :=
      if q == s then WithParent(WithParent(m, s, dst), dst, s)
      else if m[q].left == src then WithLeft(m, q, dst)
      else WithRight(m, q, dst);
    if dst != s then WithParent(m1, dst, q) else m1
  }

  // ---- Rotations ---------------------------------------------------------

  lemma {:induction false} RotateLApart<K(0)>(p: Path<Cell<K>>, t: Tree<Cell<K>>, s: Node<K>, n: Node<K>)
    requires CanRotateL(t) && Clean(Plug(p, t), s)
    requires n in {t.item.node, t.right.item.node, RootNode(t.right.left, s), ParentNode(p, s)}
    ensures Count(t.left, n) == 0 == Count(t.right.right, n)
    ensures t.right.left.Bin? ==> Count(t.right.left.left, n) == 0 == Count(t.right.left.right, n)
    ensures !p.Top? ==> Count(Beside(p), n) == 0 == PathCount(p.up, n)
  {
    var b, y := t.right.left, t.right;
    CountAt(p, t, s, n);
    assert Count(t, n) == Count(t.left, n) + (if t.item.node == n then 1 else 0) + Count(y, n);
    assert Count(y, n) == Count(b, n) + (if y.item.node == n then 1 else 0) + Count(y.right, n);
  }

  lemma {:induction false} RotateLDistinct<K(0)>(p: Path<Cell<K>>, t: Tree<Cell<K>>, s: Node<K>)
    requires CanRotateL(t) && Clean(Plug(p, t), s)
    ensures var x, y, m, q := t.item.node, t.right.item.node, RootNode(t.right.left, s), ParentNode(p, s);
      && x != s && y != s && x != y && x != m && y != m && x != q && y != q && (m == q ==> m == s)
      && (!p.Top? ==> RootNode(Beside(p), s) != x)
  {
    var x, y, m, q := t.item.node, t.right.item.node, RootNode(t.right.left, s), ParentNode(p, s);
    CountAt(p, t, s, x);
    CountAt(p, t, s, y);
    CountAt(p, t, s, m);
    CountAt(p, t, s, q);
    if !p.Top? { RootCounts(Beside(p)); }
    assert forall n :: n in {x, y, m, q} ==>
      Count(t, n) == Count(t.left, n) + (if x == n then 1 else 0) + Count(t.right, n);
    assert forall n :: n in {x, y, m, q} ==>
      Count(t.right, n) == Count(t.right.left, n) + (if y == n then 1 else 0) + Count(t.right.right, n);
  }

  /** What a left rotation finds in memory. */
  lemma {:induction false} RotateLLook<K(0)>(m: Memory<K>, p: Path<Cell<K>>, t: Tree<Cell<K>>, s: Node<K>)
    requires CanRotateL(t) && Spells(m, Plug(p, t), s, s)
    ensures SpellsAt(m, p, t, s)
    ensures var x, y, b, q := t.item.node, t.right.item.node, t.right.left, ParentNode(p, s);
      && x in m && m[x] == TreeHook(t, q, s)
      && y in m && m[y] == TreeHook(t.right, x, s)
      && (b.Bin? ==> b.item.node in m && m[b.item.node] == TreeHook(b, y, s))
      && (!p.Top? ==> q in m && m[q] == PathHook(p, x, s))
  {
    Focus(m, p, t, s);
    assert Spells(m, t.right, t.item.node, s);
    assert Spells(m, t.right.left, t.right.item.node, s);
  }

  /** The memory after the links of a left rotation have been written. */
  lemma {:induction false} RotateLSpells<K(0)>(m0: Memory<K>, m1: Memory<K>, p: Path<Cell<K>>, t: Tree<Cell<K>>,
      s: Node<K>)
    requires CanRotateL(t) && Clean(Plug(p, t), s) && SpellsAt(m0, p, t, s)
    requires var x, y, b, q := t.item.node, t.right.item.node, t.right.left, ParentNode(p, s);
      && Agree(m0, m1, {x, y, RootNode(b, s), q})
      && x in m1 && m1[x] == TreeHook(RotateL(t).left, y, s)
      && y in m1 && m1[y] == TreeHook(RotateL(t), q, s)
      && (b.Bin? ==> b.item.node in m1 && m1[b.item.node] == TreeHook(b, x, s))
      && (!p.Top? ==> q in m1 && m1[q] == PathHook(p, y, s))
    ensures Inorder(Plug(p, RotateL(t))) == Inorder(Plug(p, t))
    ensures Spells(m1, Plug(p, RotateL(t)), s, s)
    ensures RootNode(Plug(p, RotateL(t)), s) == if p.Top? then t.right.item.node else RootNode(Plug(p, t), s)
  {
    var x, y, b, q := t.item.node, t.right.item.node, t.right.left, ParentNode(p, s);
    var w := {x, y, RootNode(b, s), q};
    forall n | n in w { RotateLApart(p, t, s, n); }
    assert Spells(m0, t.right, x, s);
    Frame(m0, m1, w, t.left, x, s);
    Frame(m0, m1, w, t.right.right, y, s);
    Reparent(m0, m1, w, b, y, x, s);
    Rehang(m0, m1, w, p, x, y, s);
    assert Spells(m1, RotateL(t).left, y, s);
    RotateLInorder(t);
    Rebuilt(m1, p, t, RotateL(t), s);
  }

  ghost predicate CanRelinkL<K(0)>(m: Memory<K>, x: Node<K>, s: Node<K>) {
    && x in m && s in m && m[x].parent != null && m[x].parent in m
    && m[x].right != null && m[x].right in m && m[m[x].right].left != null && m[m[x].right].left in m
    && var y, q := m[x].right, m[x].parent;
       var b := m[y].left;
       x !in {y, b, q, s} && y !in {b, q, s} && (b == q ==> b == s)
  }

  /** The writes of a left rotation around `x`. */
  ghost function RelinkedL<K(0)>(m: Memory<K>, x: Node<K>, s: Node<K>): Memory<K>
    requires CanRelinkL(m, x, s)
  {
    var y, b := m[x].right, m[m[x].right].left;
    var m1 := WithRight(m, x, b);
    var m2 := if b != s then WithParent(m1, b, x) else m1;
    WithParent(WithLeft(Transplanted(m2, x, y, s), y, x), x, y)
  }

  lemma {:induction false} RotateLHolds<K(0)>(m: Memory<K>, p: Path<Cell<K>>, t: Tree<Cell<K>>, s: Node<K>)
    requires CanRotateL(t) && Holds(m, Plug(p, t), s)
    ensures CanRelinkL(m, t.item.node, s) && Holds(RelinkedL(m, t.item.node, s), Plug(p, RotateL(t)), s)
    ensures Inorder(Plug(p, RotateL(t))) == Inorder(Plug(p, t))
  {
    RotateLLook(m, p, t, s);
    RotateLDistinct(p, t, s);
    RotateLSpells(m, RelinkedL(m, t.item.node, s), p, t, s);
  }

  lemma {:induction false} RotateRApart<K(0)>(p: Path<Cell<K>>, t: Tree<Cell<K>>, s: Node<K>, n: Node<K>)
    requires CanRotateR(t) && Clean(Plug(p, t), s)
    requires n in {t.item.node, t.left.item.node, RootNode(t.left.right, s), ParentNode(p, s)}
    ensures Count(t.right, n) == 0 == Count(t.left.left, n)
    ensures t.left.right.Bin? ==> Count(t.left.right.right, n) == 0 == Count(t.left.right.left, n)
    ensures !p.Top? ==> Count(Beside(p), n) == 0 == PathCount(p.up, n)
  {
    var b, y := t.left.right, t.left;
    CountAt(p, t, s, n);
    assert Count(t, n) == Count(y, n) + (if t.item.node == n then 1 else 0) + Count(t.right, n);
    assert Count(y, n) == Count(b, n) + (if y.item.node == n then 1 else 0) + Count(y.left, n);
  }

  lemma {:induction false} RotateRDistinct<K(0)>(p: Path<Cell<K>>, t: Tree<Cell<K>>, s: Node<K>)
    requires CanRotateR(t) && Clean(Plug(p, t), s)
    ensures var x, y, m, q := t.item.node, t.left.item.node, RootNode(t.left.right, s), ParentNode(p, s);
      && x != s && y != s && x != y && x != m && y != m && x != q && y != q && (m == q ==> m == s)
      && (!p.Top? ==> RootNode(Beside(p), s) != x)
  {
    var x, y, m, q := t.item.node, t.left.item.node, RootNode(t.left.right, s), ParentNode(p, s);
    CountAt(p, t, s, x);
    CountAt(p, t, s, y);
    CountAt(p, t, s, m);
    CountAt(p, t, s, q);
    if !p.Top? { RootCounts(Beside(p)); }
    assert forall n :: n in {x, y, m, q} ==>
      Count(t, n) == Count(t.right, n) + (if x == n then 1 else 0) + Count(t.left, n);
    assert forall n :: n in {x, y, m, q} ==>
      Count(t.left, n) == Count(t.left.right, n) + (if y == n then 1 else 0) + Count(t.left.left, n);
  }

  /** What a right rotation finds in memory. */
  lemma {:induction false} RotateRLook<K(0)>(m: Memory<K>, p: Path<Cell<K>>, t: Tree<Cell<K>>, s: Node<K>)
    requires CanRotateR(t) && Spells(m, Plug(p, t), s, s)
    ensures SpellsAt(m, p, t, s)
    ensures var x, y, b, q := t.item.node, t.left.item.node, t.left.right, ParentNode(p, s);
      && x in m && m[x] == TreeHook(t, q, s)
      && y in m && m[y] == TreeHook(t.left, x, s)
      && (b.Bin? ==> b.item.node in m && m[b.item.node] == TreeHook(b, y, s))
      && (!p.Top? ==> q in m && m[q] == PathHook(p, x, s))
  {
    Focus(m, p, t, s);
    assert Spells(m, t.left, t.item.node, s);
    assert Spells(m, t.left.right, t.left.item.node, s);
  }

  /** The memory after the links of a right rotation have been written. */
  lemma {:induction false} RotateRSpells<K(0)>(m0: Memory<K>, m1: Memory<K>, p: Path<Cell<K>>, t: Tree<Cell<K>>,
      s: Node<K>)
    requires CanRotateR(t) && Clean(Plug(p, t), s) && SpellsAt(m0, p, t, s)
    requires var x, y, b, q := t.item.node, t.left.item.node, t.left.right, ParentNode(p, s);
      && Agree(m0, m1, {x, y, RootNode(b, s), q})
      && x in m1 && m1[x] == TreeHook(RotateR(t).right, y, s)
      && y in m1 && m1[y] == TreeHook(RotateR(t), q, s)
      && (b.Bin? ==> b.item.node in m1 && m1[b.item.node] == TreeHook(b, x, s))
      && (!p.Top? ==> q in m1 && m1[q] == PathHook(p, y, s))
    ensures Inorder(Plug(p, RotateR(t))) == Inorder(Plug(p, t))
    ensures Spells(m1, Plug(p, RotateR(t)), s, s)
    ensures RootNode(Plug(p, RotateR(t)), s) == if p.Top? then t.left.item.node else RootNode(Plug(p, t), s)
  {
    var x, y, b, q := t.item.node, t.left.item.node, t.left.right, ParentNode(p, s);
    var w := {x, y, RootNode(b, s), q};
    forall n | n in w { RotateRApart(p, t, s, n); }
    assert Spells(m0, t.left, x, s);
    Frame(m0, m1, w, t.right, x, s);
    Frame(m0, m1, w, t.left.left, y, s);
    Reparent(m0, m1, w, b, y, x, s);
    Rehang(m0, m1, w, p, x, y, s);
    assert Spells(m1, RotateR(t).right, y, s);
    RotateRInorder(t);
    Rebuilt(m1, p, t, RotateR(t), s);
  }

  ghost predicate CanRelinkR<K(0)>(m: Memory<K>, x: Node<K>, s: Node<K>) {
    && x in m && s in m && m[x].parent != null && m[x].parent in m
    && m[x].left != null && m[x].left in m && m[m[x].left].right != null && m[m[x].left].right in m
    && var y, q := m[x].left, m[x].parent;
       var b := m[y].right;
       x !in {y, b, q, s} && y !in {b, q, s} && (b == q ==> b == s)
  }

  /** The writes of a right rotation around `x`. */
  ghost function RelinkedR<K(0)>(m: Memory<K>, x: Node<K>, s: Node<K>): Memory<K>
    requires CanRelinkR(m, x, s)
  {
    var y, b := m[x].left, m[m[x].left].right;
    var m1 := WithLeft(m, x, b);
    var m2 := if b != s then WithParent(m1, b, x) else m1;
    WithParent(WithRight(Transplanted(m2, x, y, s), y, x), x, y)
  }

  lemma {:induction false} RotateRHolds<K(0)>(m: Memory<K>, p: Path<Cell<K>>, t: Tree<Cell<K>>, s: Node<K>)
    requires CanRotateR(t) && Holds(m, Plug(p, t), s)
    ensures CanRelinkR(m, t.item.node, s) && Holds(RelinkedR(m, t.item.node, s), Plug(p, RotateR(t)), s)
    ensures Inorder(Plug(p, RotateR(t))) == Inorder(Plug(p, t))
  {
    RotateRLook(m, p, t, s);
    RotateRDistinct(p, t, s);
    RotateRSpells(m, RelinkedR(m, t.item.node, s), p, t, s);
  }

  // ---- Adding and removing nodes -----------------------------------------

  lemma {:induction false} CleanWithout<K(0)>(xs: seq<Cell<K>>, i: nat)
    requires i < |xs| && Distinct(xs)
    ensures Distinct(Without(xs, i)) && Nodes(Without(xs, i)) == Nodes(xs) - {xs[i].node}
  {
    var ys := Without(xs, i);
    assert forall j :: 0 <= j < |ys| ==> NodeAt(ys, j) == NodeAt(xs, if j < i then j else j + 1);
    assert xs[i].node == NodeAt(xs, i);
    forall n | n in Nodes(xs) && n != xs[i].node
      ensures n in Nodes(ys)
    {
      var x :| x in xs && x.node == n;
      var j :| 0 <= j < |xs| && xs[j] == x;
      assert x == ys[if j < i then j else j - 1];
    }
    forall n | n in Nodes(ys)
      ensures n in Nodes(xs) && n != xs[i].node
    {
      var j :| 0 <= j < |ys| && ys[j].node == n;
      assert NodeAt(ys, j) == n;
      assert xs[if j < i then j else j + 1] in xs;
    }
  }

  lemma {:induction false} CleanWith<K(0)>(xs: seq<Cell<K>>, ys: seq<Cell<K>>, c: Cell<K>)
    requires Distinct(xs + ys) && c.node !in Nodes(xs + ys)
    ensures Distinct(xs + [c] + ys) && Nodes(xs + [c] + ys) == Nodes(xs + ys) + {c.node}
  {
    var zs, ws := xs + [c] + ys, xs + ys;
    assert forall j :: 0 <= j < |zs| && j != |xs| ==> zs[j] == ws[if j < |xs| then j else j - 1];
    forall i, j | 0 <= i < j < |zs|
      ensures NodeAt(zs, i) != NodeAt(zs, j)
    {
      var i', j' := if i < |xs| then i else i - 1, if j < |xs| then j else j - 1;
      if i != |xs| { assert NodeAt(zs, i) == NodeAt(ws, i') && ws[i'] in ws; }
      if j != |xs| { assert NodeAt(zs, j) == NodeAt(ws, j') && ws[j'] in ws; }
    }
    assert forall x :: x in zs <==> x in ws || x == c;
  }

  /** A red leaf hung into an empty place. */
  lemma {:induction false} LeafHolds<K(0)>(m0: Memory<K>, m1: Memory<K>, p: Path<Cell<K>>, c: Cell<K>, s: Node<K>)
    requires Holds(m0, Plug(p, Leaf), s) && c.node != s && c.node !in Nodes(Inorder(Plug(p, Leaf)))
    requires var n, q := c.node, ParentNode(p, s);
      && Agree(m0, m1, {n, q}) && n in m1 && m1[n] == Hook(q, s, s, true, true, c.key)
      && s in m1 && m1[s] == m0[s].(parent := if p.Top? then n else m0[s].parent)
      && (!p.Top? ==> q in m1 && m1[q] == PathHook(p, n, s))
    ensures Holds(m1, Plug(p, Bin(Leaf, c, true, Leaf)), s)
  {
    var n, q, u := c.node, ParentNode(p, s), Bin(Leaf, c, true, Leaf);
    Look(m0, p, Leaf, s);
    CountAt(p, Leaf, s, q);
    FocusCount(p, Leaf, n);
    CountPresent(Plug(p, Leaf), n);
    Rehang(m0, m1, {n, q}, p, s, n, s);
    assert m1[n] == TreeHook(u, q, s) && u.left == u.right == Leaf;
    assert Spells(m1, u, q, s);
    Focus(m1, p, u, s);
    LeafClean(p, c, s);
  }

  /** The writes that hang the leaf `n` below `q`. */
  ghost function LeafLinked<K(0)>(m: Memory<K>, n: Node<K>, q: Node<K>, asLeft: bool, s: Node<K>): Memory<K>
    requires n in m && q in m && s in m
  {
    var m1 := WithParent(m, n, q);
    if q == s then WithParent(WithParent(m1, s, n), n, s)
    else if asLeft then WithLeft(m1, q, n)
    else WithRight(m1, q, n)
  }

  lemma {:induction false} LeafLinkedHolds<K(0)>(m: Memory<K>, p: Path<Cell<K>>, n: Node<K>, s: Node<K>)
    requires Holds(m, Plug(p, Leaf), s) && n != s && n !in Nodes(Inorder(Plug(p, Leaf)))
    requires n in m && m[n] == Hook(m[n].parent, s, s, true, true, m[n].key)
    ensures ParentNode(p, s) in m
    ensures Holds(LeafLinked(m, n, ParentNode(p, s), p.InL?, s), Plug(p, Bin(Leaf, Cell(n, m[n].key), true, Leaf)), s)
  {
    Look(m, p, Leaf, s);
    FocusCount(p, Leaf, n);
    CountPresent(Plug(p, Leaf), n);
    LeafHolds(m, LeafLinked(m, n, ParentNode(p, s), p.InL?, s), p, Cell(n, m[n].key), s);
  }

  lemma {:induction false} LeafClean<K(0)>(p: Path<Cell<K>>, c: Cell<K>, s: Node<K>)
    requires Clean(Plug(p, Leaf), s) && c.node != s && c.node !in Nodes(Inorder(Plug(p, Leaf)))
    ensures Clean(Plug(p, Bin(Leaf, c, true, Leaf)), s)
  {
    InorderLeaf(p, c, true);
    CleanWith(Before(p), After(p), c);
  }

  /** A node with at most one child is replaced by that child. */
  lemma {:induction false} SpliceHolds<K(0)>(m: Memory<K>, p: Path<Cell<K>>, t: Tree<Cell<K>>, c: Tree<Cell<K>>,
      s: Node<K>)
    requires Holds(m, Plug(p, t), s) && t.Bin?
    requires (t.left.Leaf? && c == t.right) || (t.right.Leaf? && c == t.left)
    ensures CanTransplant(m, t.item.node, RootNode(c, s), s)
    ensures Holds(Transplanted(m, t.item.node, RootNode(c, s), s), Plug(p, c), s)
  {
    SpliceWrites(m, p, t, c, s);
    SpliceClean(p, t, c, s);
    Focus(m, p, t, s);
    SpliceSpells(m, Transplanted(m, t.item.node, RootNode(c, s), s), p, t, c, s);
  }

  lemma {:induction false} SpliceWrites<K(0)>(m: Memory<K>, p: Path<Cell<K>>, t: Tree<Cell<K>>, c: Tree<Cell<K>>,
      s: Node<K>)
    requires Holds(m, Plug(p, t), s) && t.Bin? && (c == t.left || c == t.right)
    ensures CanTransplant(m, t.item.node, RootNode(c, s), s)
    ensures var m1, d, q := Transplanted(m, t.item.node, RootNode(c, s), s), RootNode(c, s), ParentNode(p, s);
      && Agree(m, m1, {d, q})
      && s in m1 && m1[s] == m[s].(parent := if p.Top? then d else m[s].parent)
      && (c.Bin? ==> d in m1 && m1[d] == TreeHook(c, q, s))
      && (!p.Top? ==> q in m1 && m1[q] == PathHook(p, d, s))
  {
    Look(m, p, t, s);
    SpliceLook(m, p, t, c, s);
    TransplantAt(m, p, t.item.node, RootNode(c, s), s);
  }

  lemma {:induction false} SpliceLook<K(0)>(m: Memory<K>, p: Path<Cell<K>>, t: Tree<Cell<K>>, c: Tree<Cell<K>>,
      s: Node<K>)
    requires SpellsAt(m, p, t, s) && Clean(Plug(p, t), s) && s in m && t.Bin? && (c == t.left || c == t.right)
    ensures c.Bin? ==> c.item.node in m && m[c.item.node] == TreeHook(c, t.item.node, s)
    ensures CanTransplant(m, t.item.node, RootNode(c, s), s)
    ensures !p.Top? ==> p.item.node !in {s, RootNode(c, s)}
  {
    if c.Bin? { Look2(m, p, t, c, s); }
    SpliceApart(p, t, c, s, t.item.node);
    SpliceApart(p, t, c, s, RootNode(c, s));
    SpliceApart(p, t, c, s, ParentNode(p, s));
  }

  lemma {:induction false} Look2<K(0)>(m: Memory<K>, p: Path<Cell<K>>, t: Tree<Cell<K>>, c: Tree<Cell<K>>, s: Node<K>)
    requires SpellsAt(m, p, t, s) && t.Bin? && (c == t.left || c == t.right) && c.Bin?
    ensures c.item.node in m && m[c.item.node] == TreeHook(c, t.item.node, s)
  {
    assert Spells(m, c, t.item.node, s);
  }

  /** What Transplant writes, in terms of the path it works at. */
  lemma {:induction false} TransplantAt<K(0)>(m: Memory<K>, p: Path<Cell<K>>, src: Node<K>, dst: Node<K>, s: Node<K>)
    requires CanTransplant(m, src, dst, s) && m[src].parent == ParentNode(p, s) && src != s
    requires !p.Top? ==>
      p.item.node !in {s, dst} && m[p.item.node] == PathHook(p, src, s)
      && RootNode(Beside(p), s) != src
    ensures var m1, q := Transplanted(m, src, dst, s), ParentNode(p, s);
      && m1.Keys == m.Keys && Agree(m, m1, {dst, q})
      && (dst != s ==> m1[dst] == m[dst].(parent := q))
      && m1[s] == m[s].(parent := if p.Top? then dst else m[s].parent)
      && (!p.Top? ==> m1[q] == PathHook(p, dst, s))
  {}

  lemma {:induction false} SpliceSpells<K(0)>(m0: Memory<K>, m1: Memory<K>, p: Path<Cell<K>>, t: Tree<Cell<K>>,
      c: Tree<Cell<K>>, s: Node<K>)
    requires t.Bin? && (c == t.left || c == t.right) && Clean(Plug(p, t), s) && SpellsAt(m0, p, t, s)
    requires Agree(m0, m1, {RootNode(c, s), ParentNode(p, s)})
    requires c.Bin? ==> c.item.node in m1 && m1[c.item.node] == TreeHook(c, ParentNode(p, s), s)
    requires !p.Top? ==> p.item.node in m1 && m1[p.item.node] == PathHook(p, RootNode(c, s), s)
    ensures Spells(m1, Plug(p, c), s, s)
    ensures RootNode(Plug(p, c), s) == if p.Top? then RootNode(c, s) else RootNode(Plug(p, t), s)
  {
    var x, d, q := t.item.node, RootNode(c, s), ParentNode(p, s);
    SpliceApart(p, t, c, s, d);
    SpliceApart(p, t, c, s, q);
    Reparent(m0, m1, {d, q}, c, x, q, s);
    Rehang(m0, m1, {d, q}, p, x, d, s);
    Focus(m1, p, c, s);
    Focus(m0, p, t, s);
  }

  lemma {:induction false} SpliceClean<K(0)>(p: Path<Cell<K>>, t: Tree<Cell<K>>, c: Tree<Cell<K>>, s: Node<K>)
    requires t.Bin? && Clean(Plug(p, t), s)
    requires (t.left.Leaf? && c == t.right) || (t.right.Leaf? && c == t.left)
    ensures Clean(Plug(p, c), s)
  {
    InorderSplice(p, t, c);
    CleanWithout(Inorder(Plug(p, t)), |Before(p)| + |Inorder(t.left)|);
  }

  lemma {:induction false} SpliceApart<K(0)>(p: Path<Cell<K>>, t: Tree<Cell<K>>, c: Tree<Cell<K>>, s: Node<K>,
      n: Node<K>)
    requires Clean(Plug(p, t), s) && t.Bin? && (c == t.left || c == t.right)
    requires n in {t.item.node, RootNode(c, s), ParentNode(p, s)}
    ensures c.Bin? ==> Count(c.left, n) == 0 == Count(c.right, n)
    ensures n == t.item.node ==> n != s && n != RootNode(c, s) && n != ParentNode(p, s)
    ensures n == ParentNode(p, s) ==> (n == s <==> p.Top?) && (n == RootNode(c, s) ==> n == s)
    ensures !p.Top? ==> Count(Beside(p), n) == 0 == PathCount(p.up, n)
  {
    CountAt(p, t, s, n);
    RootCounts(c);
    assert Count(t, n) >= Count(c, n) + (if t.item.node == n then 1 else 0);
  }

  /** Another node takes the place, the children and the colour of the root of `t`. */
  lemma {:induction false} ReplaceSpells<K(0)>(m0: Memory<K>, m1: Memory<K>, p: Path<Cell<K>>, t: Tree<Cell<K>>,
      c: Cell<K>, s: Node<K>)
    requires t.Bin? && t.left.Bin? && Clean(Plug(p, t), s) && c.node !in Nodes(Inorder(Plug(p, t)))
    requires Spells(m0, t.left, t.item.node, s) && Spells(m0, t.right, c.node, s) && SpellsPath(m0, p, t.item.node, s)
    requires var y, l, q := c.node, t.left.item.node, ParentNode(p, s);
      && Agree(m0, m1, {y, l, q})
      && y in m1 && m1[y] == TreeHook(t.(item := c), q, s)
      && l in m1 && m1[l] == TreeHook(t.left, y, s)
      && (!p.Top? ==> q in m1 && m1[q] == PathHook(p, y, s))
    ensures Spells(m1, Plug(p, t.(item := c)), s, s)
    ensures RootNode(Plug(p, t.(item := c)), s) == if p.Top? then c.node else RootNode(Plug(p, t), s)
  {
    var u, y, l, q := t.(item := c), c.node, t.left.item.node, ParentNode(p, s);
    var w := {y, l, q};
    ReplaceApart(p, t, c, s, y);
    ReplaceApart(p, t, c, s, l);
    ReplaceApart(p, t, c, s, q);
    Reparent(m0, m1, w, t.left, t.item.node, y, s);
    Frame(m0, m1, w, t.right, y, s);
    Rehang(m0, m1, w, p, t.item.node, y, s);
    assert Spells(m1, u, q, s);
    Focus(m1, p, u, s);
    Focus(m0, p, t, s);
  }

  lemma {:induction false} ReplaceApart<K(0)>(p: Path<Cell<K>>, t: Tree<Cell<K>>, c: Cell<K>, s: Node<K>, n: Node<K>)
    requires t.Bin? && t.left.Bin? && Clean(Plug(p, t), s) && c.node !in Nodes(Inorder(Plug(p, t)))
    requires n in {c.node, t.left.item.node, ParentNode(p, s)}
    ensures Count(t.left.left, n) == 0 == Count(t.left.right, n) && Count(t.right, n) == 0
    ensures !p.Top? ==> Count(Beside(p), n) == 0 == PathCount(p.up, n)
  {
    CountAt(p, t, s, n);
    FocusCount(p, t, n);
    CountPresent(Plug(p, t), n);
    assert Count(t, n) == Count(t.left, n) + (if t.item.node == n then 1 else 0) + Count(t.right, n);
  }

  lemma {:induction false} ReplaceClean<K(0)>(p: Path<Cell<K>>, t: Tree<Cell<K>>, c: Cell<K>, s: Node<K>)
    requires t.Bin? && Clean(Plug(p, t), s) && c.node != s && c.node !in Nodes(Inorder(Plug(p, t)))
    ensures Clean(Plug(p, t.(item := c)), s)
  {
    var xs, i := Inorder(Plug(p, t)), |Before(p)| + |Inorder(t.left)|;
    InorderAt(p, t, c);
    CleanWithout(xs, i);
    CleanWith(xs[..i], xs[i + 1..], c);
    assert xs[i := c] == xs[..i] + [c] + xs[i + 1..];
  }

  // ---- The successor takes the place of the node to be removed ------------

  ghost predicate CanTakeOver<K(0)>(m: Memory<K>, x: Node<K>, y: Node<K>, s: Node<K>) {
    && CanTransplant(m, x, y, s) && m[x].left != null && m[x].left in m
  }

  /** The writes that give `y` the place, the left child and the colour of `x`. */
  ghost function TakenOver<K(0)>(m: Memory<K>, x: Node<K>, y: Node<K>, s: Node<K>): Memory<K>
    requires CanTakeOver(m, x, y, s)
  {
    var m1 := Transplanted(m, x, y, s);
    var m2 := WithLeft(m1, y, m1[x].left);
    var m3 := WithParent(m2, m2[y].left, y);
    WithRed(m3, y, m3[x].red)
  }

  /** `y` is outside the tree and already has the right subtree of `x` below it. */
  ghost predicate TakeOverReady<K(0)>(m: Memory<K>, p: Path<Cell<K>>, t: Tree<Cell<K>>, c: Cell<K>, s: Node<K>)
  {
    && t.Bin? && t.left.Bin? && Clean(Plug(p, t), s) && c.node != s && c.node !in Nodes(Inorder(Plug(p, t)))
    && Spells(m, t.left, t.item.node, s) && Spells(m, t.right, c.node, s) && SpellsPath(m, p, t.item.node, s)
    && t.item.node in m && m[t.item.node].parent == ParentNode(p, s) && m[t.item.node].red == t.red
    && m[t.item.node].left == RootNode(t.left, s)
    && c.node in m && m[c.node].linked && m[c.node].key == c.key && m[c.node].right == RootNode(t.right, s)
    && s in m && m[s] == Hook(RootNode(Plug(p, t), s), m[s].left, s, false, false, m[s].key)
  }

  lemma {:induction false} TakeOverApart<K(0)>(p: Path<Cell<K>>, t: Tree<Cell<K>>, c: Cell<K>, s: Node<K>)
    requires t.Bin? && t.left.Bin? && Clean(Plug(p, t), s) && c.node !in Nodes(Inorder(Plug(p, t)))
    ensures var x, y, l, q := t.item.node, c.node, t.left.item.node, ParentNode(p, s);
      && x != s && l != s && x != y && x != l && l != y && l != q && x != q && RootNode(t.right, s) != l
      && (!p.Top? ==> q != s && q != y && RootNode(Beside(p), s) != x)
      && (t.right.Bin? ==> t.right.item.node !in {y, q, x, s})
  {
    var x, y, l, q := t.item.node, c.node, t.left.item.node, ParentNode(p, s);
    RootCounts(t.left);
    RootCounts(t.right);
    CountAt(p, t, s, x);
    CountAt(p, t, s, l);
    CountAt(p, t, s, q);
    CountAt(p, t, s, RootNode(t.right, s));
    FocusCount(p, t, y);
    CountPresent(Plug(p, t), y);
    if !p.Top? { RootCounts(Beside(p)); }
    forall n ensures Count(t, n) == Count(t.left, n) + (if x == n then 1 else 0) + Count(t.right, n) {}
  }

  lemma {:induction false} TakeOverWrites<K(0)>(m: Memory<K>, p: Path<Cell<K>>, t: Tree<Cell<K>>, c: Cell<K>,
      s: Node<K>)
    requires TakeOverReady(m, p, t, c, s)
    ensures CanTakeOver(m, t.item.node, c.node, s)
    ensures var m1, u, y, l, q := TakenOver(m, t.item.node, c.node, s), t.(item := c), c.node, t.left.item.node,
      ParentNode(p, s);
      && Agree(m, m1, {y, l, q})
      && y in m1 && m1[y] == TreeHook(u, q, s)
      && l in m1 && m1[l] == TreeHook(t.left, y, s)
      && (!p.Top? ==> q in m1 && m1[q] == PathHook(p, y, s))
      && s in m1 && m1[s] == m[s].(parent := if p.Top? then y else m[s].parent)
  {
    TakeOverApart(p, t, c, s);
    assert !p.Top? ==> p.item.node in m && m[p.item.node] == PathHook(p, t.item.node, s);
    TransplantAt(m, p, t.item.node, c.node, s);
  }

  lemma {:induction false} TakeOverHolds<K(0)>(m: Memory<K>, p: Path<Cell<K>>, t: Tree<Cell<K>>, c: Cell<K>, s: Node<K>)
    requires TakeOverReady(m, p, t, c, s)
    ensures CanTakeOver(m, t.item.node, c.node, s)
    ensures Holds(TakenOver(m, t.item.node, c.node, s), Plug(p, t.(item := c)), s)
  {
    TakeOverWrites(m, p, t, c, s);
    TakeOverApart(p, t, c, s);
    ReplaceSpells(m, TakenOver(m, t.item.node, c.node, s), p, t, c, s);
    ReplaceClean(p, t, c, s);
  }

  /** Where a linked node is. */
  lemma {:induction false} Locate<K(0)>(p: Path<Cell<K>>, t: Tree<Cell<K>>, n: Node<K>)
      returns (q: Path<Cell<K>>, u: Tree<Cell<K>>)
    requires Count(t, n) > 0
    ensures Plug(q, u) == Plug(p, t) && u.Bin? && u.item.node == n
    decreases t
  {
    if t.item.node == n {
      q, u := p, t;
    } else if Count(t.left, n) > 0 {
      q, u := Locate(InL(p, t.item, t.red, t.right), t.left, n);
    } else {
      q, u := Locate(InR(p, t.left, t.item, t.red), t.right, n);
    }
  }

  /** The successor is the right child itself: it already has its right subtree below it. */
  lemma {:induction false} ReadyNear<K(0)>(m: Memory<K>, p: Path<Cell<K>>, t: Tree<Cell<K>>, s: Node<K>)
    requires Holds(m, Plug(p, t), s) && t.Bin? && t.left.Bin? && t.right.Bin? && t.right.left.Leaf?
    ensures TakeOverReady(m, p, t.(right := t.right.right), t.right.item, s)
  {
    var d := t.right;
    var q := InR(p, t.left, t.item, t.red);
    Look(m, p, t, s);
    Look(m, q, d, s);
    assert Spells(m, d, t.item.node, s);
    SuccessorOutside(p, t, Top, d, s);
  }

  lemma {:induction false} SuccessorOutside<K(0)>(p: Path<Cell<K>>, t: Tree<Cell<K>>, inner: Path<Cell<K>>,
      d: Tree<Cell<K>>, s: Node<K>)
    requires Clean(Plug(p, t), s) && t.Bin? && t.right == Plug(inner, d) && d.Bin? && d.left.Leaf?
    ensures var u := t.(right := Plug(inner, d.right));
      Clean(Plug(p, u), s) && d.item.node != s && d.item.node !in Nodes(Inorder(Plug(p, u)))
    ensures RootNode(Plug(p, t.(right := Plug(inner, d.right))), s) == RootNode(Plug(p, t), s)
  {
    var q := Join(inner, InR(p, t.left, t.item, t.red));
    PlugJoin(inner, InR(p, t.left, t.item, t.red), d);
    PlugJoin(inner, InR(p, t.left, t.item, t.red), d.right);
    InorderSplice(q, d, d.right);
    var xs, i := Inorder(Plug(q, d)), |Before(q)| + |Inorder(d.left)|;
    CleanWithout(xs, i);
    assert xs[i] in xs;
    Focus(map[], p, t, s);
    Focus(map[], p, t.(right := Plug(inner, d.right)), s);
  }

  /** The successor sat deeper and has been spliced out: it takes over the right subtree first. */
  lemma {:induction false} ReadyDeep<K(0)>(m: Memory<K>, p: Path<Cell<K>>, t: Tree<Cell<K>>, c: Cell<K>, s: Node<K>)
    requires Holds(m, Plug(p, t), s) && t.Bin? && t.left.Bin? && t.right.Bin?
    requires c.node != s && c.node !in Nodes(Inorder(Plug(p, t)))
    requires c.node in m && m[c.node].linked && m[c.node].key == c.key
    ensures t.right.item.node in m
    ensures TakeOverReady(WithParent(WithRight(m, c.node, t.right.item.node), t.right.item.node, c.node), p, t, c, s)
  {
    var y, d := c.node, t.right.item.node;
    Look(m, p, t, s);
    assert Spells(m, t.right, t.item.node, s) && Spells(m, t.left, t.item.node, s);
    var m1 := WithParent(WithRight(m, y, d), d, y);
    ReadyApart(p, t, c, s, y);
    ReadyApart(p, t, c, s, d);
    Frame(m, m1, {y, d}, t.left, t.item.node, s);
    Reparent(m, m1, {y, d}, t.right, t.item.node, y, s);
    FramePath(m, m1, {y, d}, p, t.item.node, s);
  }

  lemma {:induction false} ReadyApart<K(0)>(p: Path<Cell<K>>, t: Tree<Cell<K>>, c: Cell<K>, s: Node<K>, n: Node<K>)
    requires t.Bin? && t.right.Bin? && Clean(Plug(p, t), s) && c.node !in Nodes(Inorder(Plug(p, t)))
    requires n in {c.node, t.right.item.node}
    ensures Count(t.left, n) == 0 == Count(t.right.left, n) && Count(t.right.right, n) == 0 == PathCount(p, n)
    ensures n != t.item.node && c.node != t.right.item.node && (n == t.right.item.node ==> n != s)
  {
    CountAt(p, t, s, n);
    FocusCount(p, t, n);
    CountPresent(Plug(p, t), n);
    FocusCount(p, t, c.node);
    CountPresent(Plug(p, t), c.node);
    RootCounts(t.right);
    assert Count(t, n) == Count(t.left, n) + (if t.item.node == n then 1 else 0) + Count(t.right, n);
    assert Count(t, c.node) >= Count(t.right, c.node);
  }

  /** The successor hangs below the node to be removed exactly when it is its right child. */
  lemma {:induction false} ParentTells<K(0)>(p: Path<Cell<K>>, t: Tree<Cell<K>>, inner: Path<Cell<K>>,
      d: Tree<Cell<K>>, s: Node<K>)
    requires t.Bin? && t.right == Plug(inner, d) && Clean(Plug(p, t), s)
    ensures inner.Top? <==> ParentNode(Join(inner, InR(p, t.left, t.item, t.red)), s) == t.item.node
  {
    if !inner.Top? {
      CountAt(p, t, s, t.item.node);
      FocusCount(inner, d, t.item.node);
      assert Count(t, t.item.node) == Count(t.left, t.item.node) + 1 + Count(t.right, t.item.node);
    }
  }
}
