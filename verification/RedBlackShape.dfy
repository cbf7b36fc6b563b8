/**
  Pure theory of the red-black tree behind the intrusive tree: the shape a set of
  linked nodes forms, the zipper (a subtree together with the path above it) that
  the fix-up loops move along, and what a rotation or a recolouring does to order
  and balance.  `C` is whatever a node carries.
 */
module RedBlackShape {
  import opened Powers


  datatype Tree<C> = Leaf | Bin(left: Tree<C>, item: C, red: bool, right: Tree<C>)

  /** The path from a hole up to the root; the innermost frame comes first. */
  datatype Path<C> =
    | Top
    | InL(up: Path<C>, item: C, red: bool, right: Tree<C>)  // the hole is a left child
    | InR(up: Path<C>, left: Tree<C>, item: C, red: bool)   // the hole is a right child

  function Inorder<C>(t: Tree<C>): seq<C> {
    if t.Leaf? then [] else Inorder(t.left) + [t.item] + Inorder(t.right)
  }

  /** What comes before and after the hole in the in-order sequence. */
  function Before<C>(p: Path<C>): seq<C> {
    match p
    case Top => []
    case InL(up, _, _, _) => Before(up)
    case InR(up, l, x, _) => Before(up) + Inorder(l) + [x]
  }

  function After<C>(p: Path<C>): seq<C> {
    match p
    case Top => []
    case InL(up, x, _, r) => [x] + Inorder(r) + After(up)
    case InR(up, _, _, _) => After(up)
  }

  function Plug<C>(p: Path<C>, t: Tree<C>): Tree<C> {
    match p
    case Top => t
    case InL(up, x, c, r) => Plug(up, Bin(t, x, c, r))
    case InR(up, l, x, c) => Plug(up, Bin(l, x, c, t))
  }

  function Depth<C>(p: Path<C>): nat {
    if p.Top? then 0 else 1 + Depth(p.up)
  }

  /** `inner` continued by `outer`: the path of a hole inside a hole. */
  function Join<C>(inner: Path<C>, outer: Path<C>): Path<C> {
    match inner
    case Top => outer
    case InL(up, x, c, r) => InL(Join(up, outer), x, c, r)
    case InR(up, l, x, c) => InR(Join(up, outer), l, x, c)
  }

  lemma {:induction false} Regroup<C>(a: seq<C>, b: seq<C>, x: C, c: seq<C>, d: seq<C>)
    ensures a + (b + [x] + c) + d == a + b + ([x] + c + d)
    ensures a + (b + [x] + c) + d == (a + b + [x]) + c + d
  {}

  lemma {:induction false} InorderPlug<C>(p: Path<C>, t: Tree<C>)
    ensures Inorder(Plug(p, t)) == Before(p) + Inorder(t) + After(p)
  {
    match p
    case Top =>
    case InL(up, x, c, r) =>
      InorderPlug(up, Bin(t, x, c, r));
      Regroup(Before(up), Inorder(t), x, Inorder(r), After(up));
    case InR(up, l, x, c) =>
      InorderPlug(up, Bin(l, x, c, t));
      Regroup(Before(up), Inorder(l), x, Inorder(t), After(up));
  }

  lemma {:induction false} SpliceAt<C>(a: seq<C>, b: seq<C>, x: C, c: seq<C>, d: seq<C>, y: C)
    ensures var xs, i := a + (b + [x] + c) + d, |a| + |b|;
      && i < |xs| && xs[i] == x
      && xs[i := y] == a + (b + [y] + c) + d
      && xs[..i] == a + b && xs[i + 1..] == c + d
  {}

  /** Where the root of a subtree stands in the whole sequence, and what replacing it does. */
  lemma {:induction false} InorderAt<C>(p: Path<C>, t: Tree<C>, y: C)
    requires t.Bin?
    ensures var xs, i := Inorder(Plug(p, t)), |Before(p)| + |Inorder(t.left)|;
      i < |xs| && xs[i] == t.item && Inorder(Plug(p, t.(item := y))) == xs[i := y]
  {
    InorderPlug(p, t);
    InorderPlug(p, t.(item := y));
    SpliceAt(Before(p), Inorder(t.left), t.item, Inorder(t.right), After(p), y);
  }

  function Without<C>(xs: seq<C>, i: nat): seq<C>
    requires i < |xs|
  {
    xs[..i] + xs[i + 1..]
  }

  lemma {:induction false} WithoutAt<C>(xs: seq<C>, ys: seq<C>, a: seq<C>, b: seq<C>, x: C, c: seq<C>, d: seq<C>)
    requires xs == a + (b + [x] + c) + d && ys == a + (b + c) + d
    ensures |a| + |b| < |xs| && xs[|a| + |b|] == x && ys == Without(xs, |a| + |b|)
  {
    SpliceAt(a, b, x, c, d, x);
    assert (a + b) + (c + d) == a + (b + c) + d;
  }

  /** A subtree loses its root. */
  lemma {:induction false} InorderDrop<C>(p: Path<C>, t: Tree<C>, u: Tree<C>)
    requires t.Bin? && Inorder(u) == Inorder(t.left) + Inorder(t.right)
    ensures var xs, i := Inorder(Plug(p, t)), |Before(p)| + |Inorder(t.left)|;
      i < |xs| && xs[i] == t.item && Inorder(Plug(p, u)) == Without(xs, i)
  {
    InorderPlug(p, t);
    InorderPlug(p, u);
    InorderDropAt(Inorder(Plug(p, t)), Inorder(Plug(p, u)), p, t, u);
  }

  lemma {:induction false} InorderDropAt<C>(xs: seq<C>, ys: seq<C>, p: Path<C>, t: Tree<C>, u: Tree<C>)
    requires t.Bin? && Inorder(u) == Inorder(t.left) + Inorder(t.right)
    requires xs == Before(p) + Inorder(t) + After(p) && ys == Before(p) + Inorder(u) + After(p)
    ensures var i := |Before(p)| + |Inorder(t.left)|; i < |xs| && xs[i] == t.item && ys == Without(xs, i)
  {
    WithoutAt(xs, ys, Before(p), Inorder(t.left), t.item, Inorder(t.right), After(p));
  }

  /** What taking out a node with at most one child does. */
  lemma {:induction false} InorderSplice<C>(p: Path<C>, t: Tree<C>, c: Tree<C>)
    requires t.Bin?
    requires (t.left.Leaf? && c == t.right) || (t.right.Leaf? && c == t.left)
    ensures var xs, i := Inorder(Plug(p, t)), |Before(p)| + |Inorder(t.left)|;
      i < |xs| && xs[i] == t.item && Inorder(Plug(p, c)) == Without(xs, i)
  {
    if t.left.Leaf? { assert [] + Inorder(t.right) == Inorder(c); } else { assert Inorder(t.left) + [] == Inorder(c); }
    InorderDrop(p, t, c);
  }

  lemma {:induction false} InorderLeaf<C>(p: Path<C>, x: C, red: bool)
    ensures Inorder(Plug(p, Bin(Leaf, x, red, Leaf))) == Before(p) + [x] + After(p)
    ensures Inorder(Plug(p, Leaf)) == Before(p) + After(p)
  {
    InorderPlug(p, Bin(Leaf, x, red, Leaf));
    InorderPlug(p, Leaf);
    assert Inorder(Bin(Leaf, x, red, Leaf)) == [x];
  }

  lemma {:induction false} PlugJoin<C>(inner: Path<C>, outer: Path<C>, t: Tree<C>)
    ensures Plug(Join(inner, outer), t) == Plug(outer, Plug(inner, t))
  {
    match inner
    case Top =>
    case InL(up, x, c, r) => PlugJoin(up, outer, Bin(t, x, c, r));
    case InR(up, l, x, c) => PlugJoin(up, outer, Bin(l, x, c, t));
  }

  // ---- Balance -----------------------------------------------------------

  predicate IsRed<C>(t: Tree<C>) { t.Bin? && t.red }

  predicate PathRed<C>(p: Path<C>) { !p.Top? && p.red }

  function BlackHeight<C>(t: Tree<C>): nat {
    if t.Leaf? then 0 else BlackHeight(t.left) + if t.red then 0 else 1
  }

  /** No red node has a red child and every path to a leaf has the same number of black nodes. */
  predicate Balanced<C>(t: Tree<C>) {
    t.Bin? ==>
      && Balanced(t.left) && Balanced(t.right)
      && BlackHeight(t.left) == BlackHeight(t.right)
      && (t.red ==> !IsRed(t.left) && !IsRed(t.right))
  }

  /** A balanced subtree of black height `h` may be put into the hole (a red one only under a black parent). */
  predicate Fits<C>(p: Path<C>, h: nat) {
    match p
    case Top => true
    case InL(up, _, c, r) =>
      Balanced(r) && BlackHeight(r) == h && (c ==> !IsRed(r) && !up.Top? && !up.red)
      && Fits(up, h + if c then 0 else 1)
    case InR(up, l, _, c) =>
      Balanced(l) && BlackHeight(l) == h && (c ==> !IsRed(l) && !up.Top? && !up.red)
      && Fits(up, h + if c then 0 else 1)
  }

  predicate IsRedBlack<C>(t: Tree<C>) { Balanced(t) && !IsRed(t) }

  function Blacken<C>(t: Tree<C>): Tree<C> {
    if t.Leaf? then Leaf else t.(red := false)
  }

  lemma {:induction false} PlugBalanced<C>(p: Path<C>, t: Tree<C>)
    requires Balanced(t) && Fits(p, BlackHeight(t)) && !(IsRed(t) && PathRed(p))
    ensures Balanced(Plug(p, t))
    ensures IsRed(Plug(p, t)) ==> p.Top? && IsRed(t)
    decreases p
  {
    match p
    case Top =>
    case InL(up, x, c, r) => PlugBalanced(up, Bin(t, x, c, r));
    case InR(up, l, x, c) => PlugBalanced(up, Bin(l, x, c, t));
  }

  lemma {:induction false} UnplugBalanced<C>(p: Path<C>, t: Tree<C>)
    requires IsRedBlack(Plug(p, t))
    ensures Balanced(t) && Fits(p, BlackHeight(t))
    ensures IsRed(t) ==> !p.Top? && !p.red
    decreases p
  {
    match p
    case Top =>
    case InL(up, x, c, r) => UnplugBalanced(up, Bin(t, x, c, r));
    case InR(up, l, x, c) => UnplugBalanced(up, Bin(l, x, c, t));
  }

  // ---- Height ------------------------------------------------------------

  function Max(a: nat, b: nat): nat { if a < b then b else a }

  function Height<C>(t: Tree<C>): nat {
    if t.Leaf? then 0 else 1 + Max(Height(t.left), Height(t.right))
  }

  lemma {:induction false} HeightBound<C>(t: Tree<C>)
    requires Balanced(t)
    ensures Height(t) <= 2 * BlackHeight(t) + if IsRed(t) then 1 else 0
    ensures Pow2(BlackHeight(t)) <= |Inorder(t)| + 1
  {
    if t.Bin? {
      HeightBound(t.left);
      HeightBound(t.right);
    }
  }

  /** height <= 2 log2(n + 1), stated without logarithms. */
  lemma {:induction false} LogarithmicHeight<C>(t: Tree<C>)
    requires IsRedBlack(t)
    ensures Pow2((Height(t) + 1) / 2) <= |Inorder(t)| + 1
  {
    HeightBound(t);
    Pow2Monotone((Height(t) + 1) / 2, BlackHeight(t));
  }

  // ---- Rotations ---------------------------------------------------------

  predicate CanRotateL<C>(t: Tree<C>) { t.Bin? && t.right.Bin? }
  predicate CanRotateR<C>(t: Tree<C>) { t.Bin? && t.left.Bin? }

  function RotateL<C>(t: Tree<C>): Tree<C>
    requires CanRotateL(t)
  {
    var y := t.right;
    Bin(Bin(t.left, t.item, t.red, y.left), y.item, y.red, y.right)
  }

  function RotateR<C>(t: Tree<C>): Tree<C>
    requires CanRotateR(t)
  {
    var x := t.left;
    Bin(x.left, x.item, x.red, Bin(x.right, t.item, t.red, t.right))
  }

  lemma {:induction false} RotateInverse<C>(t: Tree<C>)
    ensures CanRotateL(t) ==> CanRotateR(RotateL(t)) && RotateR(RotateL(t)) == t
    ensures CanRotateR(t) ==> CanRotateL(RotateR(t)) && RotateL(RotateR(t)) == t
  {}

  lemma {:induction false} RotateLInorder<C>(t: Tree<C>)
    requires CanRotateL(t)
    ensures Inorder(RotateL(t)) == Inorder(t)
  {
    var y := t.right;
    assert Inorder(t.left) + [t.item] + (Inorder(y.left) + [y.item] + Inorder(y.right))
        == (Inorder(t.left) + [t.item] + Inorder(y.left)) + [y.item] + Inorder(y.right);
  }

  lemma {:induction false} RotateRInorder<C>(t: Tree<C>)
    requires CanRotateR(t)
    ensures Inorder(RotateR(t)) == Inorder(t)
  {
    RotateInverse(t);
    RotateLInorder(RotateR(t));
  }

  // ---- Insertion fix-up --------------------------------------------------

  /** The subtree one level up. */
  function Lift<C>(p: Path<C>, t: Tree<C>): Tree<C>
    requires !p.Top?
  {
    if p.InL? then Bin(t, p.item, p.red, p.right) else Bin(p.left, p.item, p.red, t)
  }

  function Beside<C>(p: Path<C>): Tree<C>
    requires !p.Top?
  {
    if p.InL? then p.right else p.left
  }

  /** A red subtree that is well below its root and may have a red parent. */
  predicate RedSpot<C>(p: Path<C>, t: Tree<C>) {
    t.Bin? && t.red && Balanced(t) && Fits(p, BlackHeight(t))
  }

  /** Red parent, red uncle: colours are pushed down and the grandparent is the next red spot. */
  function PushRed<C>(p: Path<C>, t: Tree<C>): Tree<C>
    requires !p.Top? && !p.up.Top?
  {
    var P, U := Blacken(Lift(p, t)), Blacken(Beside(p.up));
    if p.up.InL? then Bin(P, p.up.item, true, U) else Bin(U, p.up.item, true, P)
  }

  lemma {:induction false} PushRedFits<C>(p: Path<C>, t: Tree<C>)
    requires RedSpot(p, t) && PathRed(p) && IsRed(Beside(p.up))
    ensures RedSpot(p.up.up, PushRed(p, t))
  {
    var P, U, h := Lift(p, t), Beside(p.up), BlackHeight(t);
    assert Fits(p.up, h) && Fits(p.up.up, h + 1);
    assert Balanced(Blacken(P)) && BlackHeight(Blacken(P)) == h + 1;
    assert Balanced(Blacken(U)) && BlackHeight(Blacken(U)) == h + 1;
  }

  /** Red parent, black uncle: what the grandparent rotates over, with the red spot on the outside. */
  function Outward<C>(p: Path<C>, t: Tree<C>): Tree<C>
    requires !p.Top? && !p.up.Top? && t.Bin?
  {
    var P := Lift(p, t);
    if p.up.InL? && p.InR? then RotateL(P) else if p.up.InR? && p.InL? then RotateR(P) else P
  }

  lemma {:induction false} OutwardFits<C>(p: Path<C>, t: Tree<C>)
    requires RedSpot(p, t) && PathRed(p) && !IsRed(Beside(p.up))
    ensures var up, g, U, Q := p.up.up, p.up.item, Beside(p.up), Outward(p, t);
      && Q.Bin?
      && (p.up.InL? ==> RedSpot(InL(up, Q.item, false, Bin(Q.right, g, true, U)), Q.left))
      && (p.up.InR? ==> RedSpot(InR(up, Bin(U, g, true, Q.left), Q.item, false), Q.right))
  {
    var up, g, U, Q, h := p.up.up, p.up.item, Beside(p.up), Outward(p, t), BlackHeight(t);
    assert Fits(p.up, h) && Fits(up, h + 1);
    assert Balanced(Q.left) && Balanced(Q.right) && BlackHeight(Q.left) == BlackHeight(Q.right) == h;
    if p.up.InL? {
      assert Balanced(Bin(Q.right, g, true, U));
    } else {
      assert Balanced(Bin(U, g, true, Q.left));
    }
  }

  // ---- Deletion fix-up ---------------------------------------------------

  /** A subtree that is one black node short of its surroundings; a red root still has to turn black. */
  predicate Short<C>(p: Path<C>, t: Tree<C>) {
    Balanced(Blacken(t)) && Fits(p, BlackHeight(t) + 1)
  }

  lemma {:induction false} SiblingIsReal<C>(p: Path<C>, t: Tree<C>)
    requires Short(p, t) && !IsRed(t) && !p.Top?
    ensures Beside(p).Bin?
    ensures IsRed(Beside(p)) ==> Beside(p).left.Bin? && Beside(p).right.Bin? && !p.red
  {}

  /** Case 1: a red sibling is rotated over the parent. */
  function TurnSibling<C>(p: Path<C>): Path<C>
    requires !p.Top? && Beside(p).Bin?
  {
    var S := Beside(p);
    if p.InL? then InL(InL(p.up, S.item, false, S.right), p.item, true, S.left)
    else InR(InR(p.up, S.left, S.item, false), S.right, p.item, true)
  }

  lemma {:induction false} TurnSiblingShort<C>(p: Path<C>, t: Tree<C>)
    requires Short(p, t) && !IsRed(t) && !p.Top? && IsRed(Beside(p))
    ensures Short(TurnSibling(p), t) && Beside(TurnSibling(p)).Bin? && !IsRed(Beside(TurnSibling(p)))
  {
    var S, h := Beside(p), BlackHeight(t);
    assert Balanced(S.left) && Balanced(S.right) && BlackHeight(S.left) == BlackHeight(S.right) == h + 1;
    assert Fits(p.up, h + 2);
    assert Fits(TurnSibling(p).up, h + 1);
  }

  /** Case 2: the shortage moves to the parent. */
  function Pale<C>(p: Path<C>, t: Tree<C>): Tree<C>
    requires !p.Top? && Beside(p).Bin?
  {
    var S := Beside(p).(red := true);
    if p.InL? then Bin(t, p.item, p.red, S) else Bin(S, p.item, p.red, t)
  }

  lemma {:induction false} PaleShort<C>(p: Path<C>, t: Tree<C>)
    requires Short(p, t) && !IsRed(t) && !p.Top? && Beside(p).Bin? && !IsRed(Beside(p))
    requires !IsRed(Beside(p).left) && !IsRed(Beside(p).right)
    ensures Short(p.up, Pale(p, t))
  {
    assert Balanced(Beside(p).(red := true)) && BlackHeight(Beside(p).(red := true)) == BlackHeight(t);
  }

  function Far<C>(p: Path<C>): Tree<C>
    requires !p.Top? && Beside(p).Bin?
  {
    if p.InL? then Beside(p).right else Beside(p).left
  }

  function Near<C>(p: Path<C>): Tree<C>
    requires !p.Top? && Beside(p).Bin?
  {
    if p.InL? then Beside(p).left else Beside(p).right
  }

  /** Case 3: a red near nephew is rotated over the sibling. */
  function TurnNephew<C>(p: Path<C>): Path<C>
    requires !p.Top? && Beside(p).Bin? && Near(p).Bin?
  {
    var S, N := Beside(p), Near(p);
    if p.InL? then p.(right := Bin(N.left, N.item, false, Bin(N.right, S.item, true, S.right)))
    else p.(left := Bin(Bin(S.left, S.item, true, N.left), N.item, false, N.right))
  }

  lemma {:induction false} TurnNephewShort<C>(p: Path<C>, t: Tree<C>)
    requires Short(p, t) && !IsRed(t) && !p.Top? && Beside(p).Bin? && !IsRed(Beside(p)) && IsRed(Near(p))
      && !IsRed(Far(p))
    ensures var p' := TurnNephew(p);
      Short(p', t) && Beside(p').Bin? && !IsRed(Beside(p')) && IsRed(Far(p'))
  {
    var S, N := Beside(p), Near(p);
    assert Balanced(N) && Balanced(Far(p));
    if p.InL? {
      assert Balanced(Bin(N.right, S.item, true, S.right));
      assert Balanced(TurnNephew(p).right);
    } else {
      assert Balanced(Bin(S.left, S.item, true, N.left));
      assert Balanced(TurnNephew(p).left);
    }
  }

  /** Case 4: with a red far nephew one rotation over the parent ends the shortage. */
  function Settle<C>(p: Path<C>, t: Tree<C>): Tree<C>
    requires !p.Top? && Beside(p).Bin?
  {
    var S := Beside(p);
    if p.InL? then Bin(Bin(t, p.item, false, S.left), S.item, p.red, Blacken(S.right))
    else Bin(Blacken(S.left), S.item, p.red, Bin(S.right, p.item, false, t))
  }

  lemma {:induction false} SettleBalanced<C>(p: Path<C>, t: Tree<C>)
    requires Short(p, t) && !IsRed(t) && !p.Top? && Beside(p).Bin? && !IsRed(Beside(p)) && IsRed(Far(p))
    ensures Balanced(Plug(p.up, Settle(p, t)))
  {
    var S, h := Beside(p), BlackHeight(t);
    assert Balanced(Far(p)) && Balanced(Near(p)) && BlackHeight(Near(p)) == BlackHeight(Far(p)) == h;
    assert Balanced(Blacken(Far(p))) && BlackHeight(Blacken(Far(p))) == h + 1;
    if p.InL? {
      assert Balanced(Bin(t, p.item, false, S.left));
    } else {
      assert Balanced(Bin(S.right, p.item, false, t));
    }
    PlugBalanced(p.up, Settle(p, t));
  }

  lemma {:induction false} BlackenShort<C>(p: Path<C>, t: Tree<C>)
    requires Short(p, t) && (p.Top? || IsRed(t))
    ensures IsRedBlack(Plug(p, Blacken(t)))
  {
    assert Balanced(Blacken(t));
    PlugBalanced(p, Blacken(t));
  }

  // ---- Removal -------------------------------------------------------------

  /** `d`, the leftmost node of the right subtree, is moved to the root of `t`. */
  lemma {:induction false} SuccessorInorder<C>(p: Path<C>, t: Tree<C>, inner: Path<C>, d: Tree<C>)
    requires t.Bin? && t.right == Plug(inner, d) && d.Bin? && d.left.Leaf? && Before(inner) == []
    ensures var xs, i := Inorder(Plug(p, t)), |Before(p)| + |Inorder(t.left)|;
      && i < |xs| && xs[i] == t.item
      && Inorder(Plug(p, Bin(t.left, d.item, t.red, Plug(inner, d.right)))) == Without(xs, i)
  {
    SuccessorGlue(t, inner, d);
    InorderDrop(p, t, Bin(t.left, d.item, t.red, Plug(inner, d.right)));
  }

  lemma {:induction false} SuccessorGlue<C>(t: Tree<C>, inner: Path<C>, d: Tree<C>)
    requires t.Bin? && t.right == Plug(inner, d) && d.Bin? && d.left.Leaf? && Before(inner) == []
    ensures Inorder(Bin(t.left, d.item, t.red, Plug(inner, d.right))) == Inorder(t.left) + Inorder(t.right)
  {
    LeftmostInorder(inner, d);
    LeftmostGlue(Inorder(t.left), d.item, Inorder(Plug(inner, d.right)));
  }

  lemma {:induction false} LeftmostGlue<C>(a: seq<C>, y: C, b: seq<C>)
    ensures a + [y] + b == a + ([y] + b)
  {}

  lemma {:induction false} LeftmostInorder<C>(inner: Path<C>, d: Tree<C>)
    requires d.Bin? && d.left.Leaf? && Before(inner) == []
    ensures Inorder(Plug(inner, d)) == [d.item] + Inorder(Plug(inner, d.right))
  {
    InorderPlug(inner, d);
    InorderPlug(inner, d.right);
    assert Inorder(d) == [d.item] + Inorder(d.right);
  }

  lemma {:induction false} FitsIgnoresItems<C>(inner: Path<C>, outer: Path<C>, outer': Path<C>, h: nat)
    requires !outer.Top? && !outer'.Top? && outer.red == outer'.red
      && (forall k: nat :: Fits(outer, k) ==> Fits(outer', k))
    requires Fits(Join(inner, outer), h)
    ensures Fits(Join(inner, outer'), h)
  {
    if !inner.Top? {
      FitsIgnoresItems(inner.up, outer, outer', h + if inner.red then 0 else 1);
    }
  }

  /** Removing `d`, which has one child at most, from its place leaves a red-black tree or one that is short. */
  lemma {:induction false} RemovalShort<C>(p: Path<C>, d: Tree<C>, c: Tree<C>)
    requires IsRedBlack(Plug(p, d)) && d.Bin?
    requires (d.left.Leaf? && c == d.right) || (d.right.Leaf? && c == d.left)
    ensures Balanced(c) && (d.red ==> !IsRed(c) && Fits(p, BlackHeight(c))) && (!d.red ==> Short(p, c))
  {
    UnplugBalanced(p, d);
  }

  /** The same when the place lies below a node that is renamed. */
  lemma {:induction false} SuccessorShort<C>(p: Path<C>, t: Tree<C>, inner: Path<C>, d: Tree<C>)
    requires IsRedBlack(Plug(p, t)) && t.Bin? && t.right == Plug(inner, d) && d.Bin? && d.left.Leaf?
    ensures var q := Join(inner, InR(p, t.left, d.item, t.red));
      && Plug(q, d.right) == Plug(p, Bin(t.left, d.item, t.red, Plug(inner, d.right)))
      && (d.red ==> IsRedBlack(Plug(q, d.right))) && (!d.red ==> Short(q, d.right))
  {
    var q0, q := InR(p, t.left, t.item, t.red), InR(p, t.left, d.item, t.red);
    PlugJoin(inner, q0, d);
    PlugJoin(inner, q, d.right);
    RemovalShort(Join(inner, q0), d, d.right);
    var h := BlackHeight(d.right) + if d.red then 0 else 1;
    FitsIgnoresItems(inner, q0, q, h);
    if d.red { PlugBalanced(Join(inner, q), d.right); }
  }
}
