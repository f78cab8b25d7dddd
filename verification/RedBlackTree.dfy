/** The red-black tree with parent pointers and a sentinel. A ghost tree of nodes says what the
    pointers mean; a ghost context is the rest of the tree around the node at hand. */
module RedBlackTree {

  class Node {
    var val: int
    var red: bool
    var l: Node
    var r: Node
    var p: Node

    /** A node fresh from malloc, or the sentinel: black, and its own child and parent. */
    constructor (value: int)
      ensures val == value && !red && l == r == p == this
    {
      val := value;
      red := false;
      l := this;
      r := this;
      p := this;
    }
  }

  datatype Tree = Leaf | Fork(n: Node, val: int, red: bool, l: Tree, r: Tree)

  /** A node on the way up from a subtree: the subtree is its left child or its right one, and sib
      is the other. */
  datatype Frame = Frame(left: bool, n: Node, val: int, red: bool, sib: Tree)

  datatype Context = Top | Under(f: Frame, up: Context)

  function Join(f: Frame, t: Tree): Tree {
    if f.left then Fork(f.n, f.val, f.red, t, f.sib) else Fork(f.n, f.val, f.red, f.sib, t)
  }

  function Plug(c: Context, t: Tree): Tree {
    match c
    case Top => t
    case Under(f, up) => Plug(up, Join(f, t))
  }

  // ----- what the pointers say -----

  function Nodes(t: Tree): set<Node> {
    if t.Leaf? then {} else {t.n} + Nodes(t.l) + Nodes(t.r)
  }

  function Around(c: Context): set<Node> {
    if c.Top? then {} else {c.f.n} + Nodes(c.f.sib) + Around(c.up)
  }

  function Ptr(t: Tree, sent: Node): Node {
    if t.Leaf? then sent else t.n
  }

  /** The parent of the subtree the context surrounds. */
  function Hole(c: Context, sent: Node): Node {
    if c.Top? then sent else c.f.n
  }

  function RootPtr(c: Context, q: Node): Node {
    match c
    case Top => q
    case Under(f, up) => RootPtr(up, f.n)
  }

  /** All nodes of a tree, of a context, of both are different ones. */
  ghost predicate Apart(t: Tree) {
    t.Fork? ==> t.n !in Nodes(t.l) && t.n !in Nodes(t.r) && Nodes(t.l) !! Nodes(t.r) && Apart(t.l) && Apart(t.r)
  }

  ghost predicate ApartAround(c: Context) {
    c.Under? ==>
      && c.f.n !in Nodes(c.f.sib) && c.f.n !in Around(c.up) && Nodes(c.f.sib) !! Around(c.up)
      && Apart(c.f.sib) && ApartAround(c.up)
  }

  ghost predicate Separate(c: Context, t: Tree, sent: Node) {
    Apart(t) && ApartAround(c) && Nodes(t) !! Around(c) && sent !in Nodes(t) && sent !in Around(c)
  }

  /** The fields of the nodes say what the tree says. */
  ghost predicate Tied(t: Tree, parent: Node, sent: Node)
    reads Nodes(t)
    decreases t
  {
    t.Fork? ==>
      && t.n.val == t.val && t.n.red == t.red && t.n.p == parent
      && t.n.l == Ptr(t.l, sent) && t.n.r == Ptr(t.r, sent)
      && Tied(t.l, t.n, sent) && Tied(t.r, t.n, sent)
  }

  ghost predicate TiedFrame(f: Frame, q: Node, parent: Node, sent: Node)
    reads {f.n} + Nodes(f.sib)
  {
    && f.n.val == f.val && f.n.red == f.red && f.n.p == parent
    && f.n.l == (if f.left then q else Ptr(f.sib, sent)) && f.n.r == (if f.left then Ptr(f.sib, sent) else q)
    && Tied(f.sib, f.n, sent)
  }

  ghost predicate TiedAround(c: Context, q: Node, sent: Node)
    reads Around(c)
    decreases c
  {
    c.Under? ==> TiedFrame(c.f, q, Hole(c.up, sent), sent) && TiedAround(c.up, c.f.n, sent)
  }

  lemma MoveUp(c: Context, t: Tree, sent: Node)
    requires c.Under?
    ensures Separate(c, t, sent) <==> Separate(c.up, Join(c.f, t), sent)
    ensures Nodes(Join(c.f, t)) + Around(c.up) == Nodes(t) + Around(c)
    ensures RootPtr(c, Ptr(t, sent)) == RootPtr(c.up, Ptr(Join(c.f, t), sent))
    ensures Tied(t, Hole(c, sent), sent) && TiedAround(c, Ptr(t, sent), sent) <==>
            Tied(Join(c.f, t), Hole(c.up, sent), sent) && TiedAround(c.up, Ptr(Join(c.f, t), sent), sent)
  {
  }

  /** Where the nodes of a fork are. */
  lemma Unfold(t: Tree)
    requires t.Fork?
    ensures Nodes(t) == {t.n} + Nodes(t.l) + Nodes(t.r)
    ensures t.l.Fork? ==> t.l.n in Nodes(t.l)
    ensures t.r.Fork? ==> t.r.n in Nodes(t.r)
    ensures Apart(t) <==>
              t.n !in Nodes(t.l) && t.n !in Nodes(t.r) && Nodes(t.l) !! Nodes(t.r) && Apart(t.l) && Apart(t.r)
  {
  }

  lemma UnfoldTied(t: Tree, parent: Node, sent: Node)
    requires t.Fork?
    ensures Tied(t, parent, sent) <==>
            && t.n.val == t.val && t.n.red == t.red && t.n.p == parent
            && t.n.l == Ptr(t.l, sent) && t.n.r == Ptr(t.r, sent)
            && Tied(t.l, t.n, sent) && Tied(t.r, t.n, sent)
  {
  }

  lemma UnfoldAround(c: Context)
    requires c.Under?
    ensures Around(c) == {c.f.n} + Nodes(c.f.sib) + Around(c.up)
    ensures c.f.sib.Fork? ==> c.f.sib.n in Nodes(c.f.sib)
    ensures ApartAround(c) ==> c.f.n !in Nodes(c.f.sib) && c.f.n !in Around(c.up) && Nodes(c.f.sib) !! Around(c.up)
  {
  }

  /** Turning the edge between a node and its right child. */
  function TurnLeft(t: Tree): Tree
    requires t.Fork? && t.r.Fork?
  {
    Fork(t.r.n, t.r.val, t.r.red, Fork(t.n, t.val, t.red, t.l, t.r.l), t.r.r)
  }

  function TurnRight(t: Tree): Tree
    requires t.Fork? && t.l.Fork?
  {
    Fork(t.l.n, t.l.val, t.l.red, t.l.l, Fork(t.n, t.val, t.red, t.l.r, t.r))
  }

  lemma TurnLeftNodes(t: Tree)
    requires t.Fork? && t.r.Fork?
    ensures Nodes(TurnLeft(t)) == Nodes(t) && (Apart(t) ==> Apart(TurnLeft(t)))
  {
    hide Nodes, Apart;
    Unfold(t);
    Unfold(t.r);
    Unfold(TurnLeft(t));
    Unfold(TurnLeft(t).l);
  }

  lemma TurnRightNodes(t: Tree)
    requires t.Fork? && t.l.Fork?
    ensures Nodes(TurnRight(t)) == Nodes(t) && (Apart(t) ==> Apart(TurnRight(t)))
  {
    hide Nodes, Apart;
    Unfold(t);
    Unfold(t.l);
    Unfold(TurnRight(t));
    Unfold(TurnRight(t).r);
  }

  // ----- the red-black laws -----

  function IsRed(t: Tree): bool {
    t.Fork? && t.red
  }

  /** Black nodes on the way down to the left. */
  function BlackHeight(t: Tree): nat {
    if t.Leaf? then 0 else BlackHeight(t.l) + if t.red then 0 else 1
  }

  /** Every way down from a node meets the same number of black nodes. */
  ghost predicate Even(t: Tree) {
    t.Fork? ==> Even(t.l) && Even(t.r) && BlackHeight(t.l) == BlackHeight(t.r)
  }

  /** No red node has a red child. */
  ghost predicate Calm(t: Tree) {
    t.Fork? ==> Calm(t.l) && Calm(t.r) && (t.red ==> !IsRed(t.l) && !IsRed(t.r))
  }

  ghost predicate RedBlack(t: Tree) {
    !IsRed(t) && Calm(t) && Even(t)
  }

  /** The same around a subtree of black height b. */
  ghost predicate EvenAround(c: Context, b: nat) {
    c.Under? ==>
      Even(c.f.sib) && BlackHeight(c.f.sib) == b && EvenAround(c.up, b + if c.f.red then 0 else 1)
  }

  /** Red nodes above a subtree have black children, the subtree aside, and a black parent. */
  ghost predicate CalmAround(c: Context) {
    c.Under? ==>
      && Calm(c.f.sib) && CalmAround(c.up)
      && (c.f.red ==> !IsRed(c.f.sib) && c.up.Under? && !c.up.f.red)
  }

  /** All laws hold, except that a red node may have a red parent or be the root. */
  ghost predicate Fixing(c: Context, t: Tree) {
    IsRed(t) && Calm(t) && Even(t) && EvenAround(c, BlackHeight(t)) && CalmAround(c)
  }

  function InOrder(t: Tree): seq<int> {
    if t.Leaf? then [] else InOrder(t.l) + [t.val] + InOrder(t.r)
  }

  /** The values around a subtree: those before it and those after it. */
  function Before(c: Context): seq<int> {
    if c.Top? then [] else if c.f.left then Before(c.up) else Before(c.up) + InOrder(c.f.sib) + [c.f.val]
  }

  function Behind(c: Context): seq<int> {
    if c.Top? then [] else if c.f.left then [c.f.val] + InOrder(c.f.sib) + Behind(c.up) else Behind(c.up)
  }

  lemma {:induction false} PlugInOrder(c: Context, t: Tree)
    ensures InOrder(Plug(c, t)) == Before(c) + InOrder(t) + Behind(c)
  {
    if c.Top? {
      assert [] + InOrder(t) + [] == InOrder(t);
    } else {
      PlugInOrder(c.up, Join(c.f, t));
      if c.f.left {
        Regroup(Before(c.up), InOrder(t), c.f.val, InOrder(c.f.sib), Behind(c.up));
      } else {
        Regroup(Before(c.up), InOrder(c.f.sib), c.f.val, InOrder(t), Behind(c.up));
      }
    }
  }

  lemma SameInOrder(c: Context, s: Tree, t: Tree)
    requires InOrder(s) == InOrder(t)
    ensures InOrder(Plug(c, s)) == InOrder(Plug(c, t))
  {
    PlugInOrder(c, s);
    PlugInOrder(c, t);
  }

  lemma {:induction false} NotEmpty(c: Context, t: Tree)
    requires t.Fork?
    ensures Plug(c, t).Fork?
    decreases c
  {
    if c.Under? { NotEmpty(c.up, Join(c.f, t)); }
  }

  lemma PlugUp(c: Context, t: Tree)
    requires c.Under?
    ensures Plug(c, t) == Plug(c.up, Join(c.f, t))
  {
  }

  function Depth(c: Context): nat {
    if c.Top? then 0 else 1 + Depth(c.up)
  }

  lemma Grandparent(c: Context, t: Tree)
    requires RedParent(c) && CalmAround(c)
    ensures c.up.Under? && !c.up.f.red && Depth(c) == Depth(c.up.up) + 2
    ensures Plug(c, t) == Plug(c.up.up, Join(c.up.f, Join(c.f, t)))
  {
  }

  lemma Regroup(a: seq<int>, x: seq<int>, v: int, y: seq<int>, b: seq<int>)
    ensures a + (x + [v] + y) + b == a + x + ([v] + y + b) == (a + x + [v]) + y + b
  {
  }

  /** The laws hold for the whole tree once no red node is left below a red one. */
  lemma {:induction false} PlugLaws(c: Context, t: Tree)
    requires Calm(t) && Even(t) && EvenAround(c, BlackHeight(t)) && CalmAround(c)
    requires IsRed(t) && c.Under? ==> !c.f.red
    ensures Calm(Plug(c, t)) && Even(Plug(c, t)) && (c.Under? ==> !IsRed(Plug(c, t)))
  {
    if c.Under? { PlugLaws(c.up, Join(c.f, t)); }
  }

  /** Taking the whole tree apart at a subtree. */
  lemma {:induction false} UnplugLaws(c: Context, t: Tree)
    requires RedBlack(Plug(c, t))
    ensures Calm(t) && Even(t) && EvenAround(c, BlackHeight(t)) && CalmAround(c)
    ensures IsRed(t) ==> c.Under? && !c.f.red
    decreases c
  {
    if c.Under? { UnplugLaws(c.up, Join(c.f, t)); }
  }

  ghost predicate Sorted(s: seq<int>) {
    forall i, j :: 0 <= i < j < |s| ==> s[i] <= s[j]
  }

  ghost predicate AtMost(s: seq<int>, v: int) {
    forall i :: 0 <= i < |s| ==> s[i] <= v
  }

  ghost predicate Above(s: seq<int>, v: int) {
    forall i :: 0 <= i < |s| ==> v < s[i]
  }

  /** A value belongs between what comes before a subtree and what comes behind it. */
  ghost predicate Fits(c: Context, v: int) {
    && AtMost(Before(c), v) && Above(Behind(c), v)
    && (c.Under? ==> (c.f.left <==> v < c.f.val))
  }

  function Down(c: Context, t: Tree, left: bool): Context
    requires t.Fork?
  {
    Under(Frame(left, t.n, t.val, t.red, if left then t.r else t.l), c)
  }

  lemma {:induction false} FitsDown(c: Context, t: Tree, v: int)
    requires t.Fork? && Fits(c, v) && Sorted(InOrder(t))
    ensures Fits(Down(c, t, v < t.val), v)
    ensures Sorted(InOrder(t.l)) && Sorted(InOrder(t.r))
  {
    SortedAround(InOrder(t.l), t.val, InOrder(t.r));
    hide InOrder, Sorted;
    assert v < t.val ==> Above([t.val] + InOrder(t.r) + Behind(c), v);
    assert v >= t.val ==> AtMost(Before(c) + InOrder(t.l) + [t.val], v);
  }

  lemma SortedAround(l: seq<int>, v: int, r: seq<int>)
    requires Sorted(l + [v] + r)
    ensures Sorted(l) && Sorted(r) && AtMost(l, v) && Above(r, v - 1)
  {
    var s := l + [v] + r;
    assert s[|l|] == v;
    forall i | 0 <= i < |l| ensures l[i] == s[i] && l[i] <= v { assert s[i] <= s[|l|]; }
    forall i | 0 <= i < |r| ensures r[i] == s[|l| + 1 + i] && v <= r[i] { assert s[|l|] <= s[|l| + 1 + i]; }
  }

  /** Where the value goes, the order stays. */
  lemma {:induction false} SortedWith(c: Context, v: int)
    requires Fits(c, v) && Sorted(Before(c) + Behind(c))
    ensures Sorted(Before(c) + [v] + Behind(c))
  {
    var a, b := Before(c), Behind(c);
    assert forall i :: 0 <= i < |a| ==> (a + b)[i] == a[i];
    assert forall i :: 0 <= i < |b| ==> (a + b)[|a| + i] == b[i];
  }

  lemma PlugDown(c: Context, t: Tree, left: bool)
    requires t.Fork?
    ensures Plug(Down(c, t, left), if left then t.l else t.r) == Plug(c, t)
  {
  }

  /** A red leaf where the value belongs breaks no law but the one about red parents. */
  lemma {:induction false} NewLeaf(c: Context, n: Node, v: int, whole: Tree)
    requires RedBlack(whole) && Sorted(InOrder(whole)) && Plug(c, Leaf) == whole && Fits(c, v)
    ensures var t := Fork(n, v, true, Leaf, Leaf);
      && Fixing(c, t) && Sorted(InOrder(Plug(c, t)))
      && InOrder(whole) == Before(c) + Behind(c) && InOrder(Plug(c, t)) == Before(c) + [v] + Behind(c)
    ensures c.Under? ==> (c.f.left <==> v < c.f.val)
  {
    UnplugLaws(c, Leaf);
    var t := Fork(n, v, true, Leaf, Leaf);
    assert InOrder(t) == [v] && Calm(t) && Even(t);
    hide InOrder, Sorted, Before, Behind, Calm, Even, Plug;
    PlugInOrder(c, Leaf);
    assert Before(c) + InOrder(Leaf) + Behind(c) == Before(c) + Behind(c) by { EmptyInOrder(); }
    SortedWith(c, v);
    PlugInOrder(c, t);
  }

  lemma EmptyInOrder()
    ensures InOrder(Leaf) == []
  {
  }

  // ----- the height -----

  function Height(t: Tree): nat {
    if t.Leaf? then 0 else 1 + if Height(t.l) < Height(t.r) then Height(t.r) else Height(t.l)
  }

  function Pow2(k: nat): nat {
    if k == 0 then 1 else 2 * Pow2(k - 1)
  }

  lemma {:induction false} HeightByBlack(t: Tree)
    requires Calm(t) && Even(t)
    ensures Height(t) <= 2 * BlackHeight(t) + if IsRed(t) then 1 else 0
    ensures Pow2(BlackHeight(t)) <= |InOrder(t)| + 1
  {
    if t.Fork? {
      HeightByBlack(t.l);
      HeightByBlack(t.r);
    }
  }

  lemma {:induction false} Pow2Double(k: nat, h: nat)
    requires h <= 2 * k
    ensures Pow2(h) <= Pow2(k) * Pow2(k)
  {
    if k > 0 {
      Pow2Double(k - 1, if h < 2 then 0 else h - 2);
      assert Pow2(k) * Pow2(k) == 4 * (Pow2(k - 1) * Pow2(k - 1));
    }
  }

  /** The height is at most twice the logarithm of one more than the number of values. */
  lemma {:induction false} HeightBound(t: Tree)
    requires RedBlack(t)
    ensures Pow2(Height(t)) <= (|InOrder(t)| + 1) * (|InOrder(t)| + 1)
  {
    HeightByBlack(t);
    var k, n := BlackHeight(t), |InOrder(t)| + 1;
    Pow2Double(k, Height(t));
    SquareGrows(Pow2(k), n);
  }

  lemma SquareGrows(a: nat, b: nat)
    requires a <= b
    ensures a * a <= b * b
  {
    assert a * a <= a * b;
  }

  // ----- the cases of balance -----

  ghost predicate RedParent(c: Context) {
    c.Under? && c.f.red
  }

  /** Red uncle: both children of the grandparent turn black and the grandparent red. */
  function Recolored(c: Context, t: Tree): Tree
    requires c.Under? && c.up.Under? && c.up.f.sib.Fork?
  {
    Join(c.up.f.(red := true, sib := c.up.f.sib.(red := false)), Join(c.f.(red := false), t))
  }

  lemma {:induction false} RedUncleFixes(c: Context, t: Tree)
    requires Fixing(c, t) && RedParent(c)
    ensures c.up.Under?
    ensures IsRed(c.up.f.sib) ==>
              Fixing(c.up.up, Recolored(c, t)) && InOrder(Recolored(c, t)) == InOrder(Join(c.up.f, Join(c.f, t)))
  {
    assert CalmAround(c.up) && EvenAround(c.up, BlackHeight(t));
    assert Calm(c.up.f.sib) && Even(c.up.f.sib) && EvenAround(c.up.up, BlackHeight(t) + 1);
    if IsRed(c.up.f.sib) {
      var parent, uncle := Join(c.f.(red := false), t), c.up.f.sib.(red := false);
      assert Calm(parent) && Even(parent) && Calm(uncle) && Even(uncle);
      assert BlackHeight(parent) == BlackHeight(uncle) == BlackHeight(t) + 1;
      assert InOrder(parent) == InOrder(Join(c.f, t)) && InOrder(uncle) == InOrder(c.up.f.sib);
    }
  }

  /** Black uncle, on the inner side: the red child takes its parent's place. */
  function Inner(c: Context, t: Tree): (Context, Tree)
    requires c.Under? && t.Fork?
  {
    if c.f.left then
      (Under(Frame(false, t.n, t.val, t.red, t.l), c.up), Fork(c.f.n, c.f.val, c.f.red, t.r, c.f.sib))
    else
      (Under(Frame(true, t.n, t.val, t.red, t.r), c.up), Fork(c.f.n, c.f.val, c.f.red, c.f.sib, t.l))
  }

  lemma {:induction false} InnerFixes(c: Context, t: Tree)
    requires Fixing(c, t) && RedParent(c)
    ensures var (c', t') := Inner(c, t);
      && Fixing(c', t') && RedParent(c') && c'.f.left == !c.f.left && c'.up == c.up
      && Join(c'.f, t') == (if c.f.left then TurnRight(Join(c.f, t)) else TurnLeft(Join(c.f, t)))
      && InOrder(Join(c'.f, t')) == InOrder(Join(c.f, t))
  {
    if c.f.left {
      assert InOrder(t.l) + [t.val] + (InOrder(t.r) + [c.f.val] + InOrder(c.f.sib))
          == InOrder(t) + [c.f.val] + InOrder(c.f.sib);
    } else {
      assert InOrder(c.f.sib) + [c.f.val] + InOrder(t.l) + [t.val] + InOrder(t.r)
          == InOrder(c.f.sib) + [c.f.val] + InOrder(t);
    }
  }

  /** Black uncle, on the outer side: the parent turns black, the grandparent red and below it. */
  function Outer(c: Context): Context
    requires c.Under? && c.up.Under?
  {
    var f, g := c.f, c.up.f;
    Under(f.(red := false, sib := Join(g.(red := true), f.sib)), c.up.up)
  }

  lemma {:induction false} OuterFixes(c: Context, t: Tree)
    requires Fixing(c, t) && RedParent(c) && c.up.Under? && !IsRed(c.up.f.sib) && c.f.left == c.up.f.left
    ensures Fixing(Outer(c), t) && !RedParent(Outer(c))
    ensures var g := Join(c.up.f.(red := true), Join(c.f.(red := false), t));
      && Join(Outer(c).f, t) == (if c.f.left then TurnRight(g) else TurnLeft(g))
    ensures InOrder(Join(Outer(c).f, t)) == InOrder(Join(c.up.f, Join(c.f, t)))
  {
    assert CalmAround(c.up) && EvenAround(c.up, BlackHeight(t));
    assert Calm(c.up.f.sib) && Even(c.up.f.sib) && EvenAround(c.up.up, BlackHeight(t) + 1);
    var x, y, z := InOrder(t), InOrder(c.f.sib), InOrder(c.up.f.sib);
    if c.f.left {
      assert (x + [c.f.val] + y) + [c.up.f.val] + z == x + [c.f.val] + (y + [c.up.f.val] + z);
    } else {
      assert z + [c.up.f.val] + (y + [c.f.val] + x) == (z + [c.up.f.val] + y) + [c.f.val] + x;
    }
  }

  lemma TurnLeftKeeps(c: Context, t: Tree, sent: Node)
    requires t.Fork? && t.r.Fork? && Separate(c, t, sent)
    ensures Separate(c, TurnLeft(t), sent) && Nodes(TurnLeft(t)) == Nodes(t)
  {
    hide Nodes, Apart;
    TurnLeftNodes(t);
  }

  lemma TurnRightKeeps(c: Context, t: Tree, sent: Node)
    requires t.Fork? && t.l.Fork? && Separate(c, t, sent)
    ensures Separate(c, TurnRight(t), sent) && Nodes(TurnRight(t)) == Nodes(t)
  {
    hide Nodes, Apart;
    TurnRightNodes(t);
  }

  /** The nodes a turn of the edge between x and its child q writes, b the subtree that changes
      sides: none of them is in another part of the tree. */
  lemma Distinct(c: Context, x: Node, q: Node, a: Tree, b: Tree, d: Tree, s: set<Node>, sent: Node)
    requires ApartAround(c) && s == {x, q} + Nodes(a) + Nodes(b) + Nodes(d) && s !! Around(c)
    requires sent !in s && sent !in Around(c) && x != q
    requires {x, q} !! Nodes(a) && {x, q} !! Nodes(b) && {x, q} !! Nodes(d)
    requires Nodes(a) !! Nodes(b) && Nodes(a) !! Nodes(d) && Nodes(b) !! Nodes(d)
    ensures x !in Nodes(a) && x !in Nodes(b) && x !in Nodes(d) && x !in Around(c) && x != sent
    ensures q !in Nodes(a) && q !in Nodes(b) && q !in Nodes(d) && q !in Around(c) && q != sent
    ensures c.Under? ==>
              && c.f.n != x && c.f.n != q && c.f.n in Around(c)
              && c.f.n !in Nodes(a) && c.f.n !in Nodes(b) && c.f.n !in Nodes(d) && (b.Fork? ==> b.n != c.f.n)
    ensures b.Fork? ==> b.n != x && b.n != q && b.n in s && b.n !in Nodes(a) && b.n !in Nodes(d) && b.n !in Around(c)
    ensures sent !in Nodes(b)
  {
    if c.Under? { UnfoldAround(c); }
  }

  class RBTree {
    var root: Node
    const sent: Node
    ghost var tree: Tree
    ghost var nodes: set<Node>

    /** The heap holds t in its place in the context, and nothing else. */
    ghost predicate Shaped(c: Context, t: Tree)
      reads this, sent, nodes, Nodes(t), Around(c)
    {
      && !sent.red && Separate(c, t, sent) && nodes == Nodes(t) + Around(c) && root == RootPtr(c, Ptr(t, sent))
      && Tied(t, Hole(c, sent), sent) && TiedAround(c, Ptr(t, sent), sent)
    }

    constructor ()
      ensures Valid() && InOrder(tree) == [] && fresh(sent) && nodes == {}
    {
      var s := new Node(0);
      sent := s;
      root := s;
      tree := Leaf;
      nodes := {};
    }

    /** q takes x's place below x's parent, or as the root. */
    method Relink(x: Node, q: Node, ghost c: Context)
      requires ApartAround(c) && x !in Around(c) && q !in Around(c) && x != q
      requires sent !in Around(c) && x != sent && x.p == Hole(c, sent)
      requires TiedAround(c, x, sent) && root == RootPtr(c, x)
      modifies this`root, q`p, (if c.Under? then {c.f.n} else {})`l, (if c.Under? then {c.f.n} else {})`r
      ensures TiedAround(c, q, sent) && root == RootPtr(c, q) && q.p == Hole(c, sent)
    {
      if c.Under? { UnfoldAround(c); }
      q.p := x.p;
      if x.p == sent {
        root := q;
      } else if x == x.p.l {
        x.p.l := q;
      } else {
        x.p.r := q;
      }
    }

    /** The first steps of left_rot: q's left subtree t becomes x's right one. */
    method PassLeft(q: Node, x: Node, ghost t: Tree)
      requires Apart(t) && Tied(t, q, sent) && q.l == Ptr(t, sent) && sent !in Nodes(t)
      requires x != q && x !in Nodes(t) && q !in Nodes(t)
      modifies x`r, (if t.Fork? then {t.n} else {})`p
      ensures Tied(t, x, sent) && x.r == q.l
    {
      x.r := q.l;
      if q.l != sent {
        q.l.p := x;
      }
    }

    /** The first steps of right_rot: q's right subtree t becomes x's left one. */
    method PassRight(q: Node, x: Node, ghost t: Tree)
      requires Apart(t) && Tied(t, q, sent) && q.r == Ptr(t, sent) && sent !in Nodes(t)
      requires x != q && x !in Nodes(t) && q !in Nodes(t)
      modifies x`l, (if t.Fork? then {t.n} else {})`p
      ensures Tied(t, x, sent) && x.l == q.r
    {
      x.l := q.r;
      if q.r != sent {
        q.r.p := x;
      }
    }

    /** Turns the edge from x to its right child. */
    method LeftRot(x: Node, ghost c: Context, ghost t: Tree)
      requires t.Fork? && t.n == x && t.r.Fork? && Shaped(c, t)
      modifies this`root, nodes
      ensures Shaped(c, TurnLeft(t))
    {
      OpenLeft(c, t);
      hide Separate, Nodes, Around, Tied, TiedAround, RootPtr, Apart, ApartAround;
      var q := x.r;
      PassLeft(q, x, t.r.l);
      HangLeft(q, x, c, t);
    }

    /** The other steps of left_rot: q takes x's place, and x becomes its left child. */
    method HangLeft(q: Node, x: Node, ghost c: Context, ghost t: Tree)
      requires t.Fork? && t.r.Fork? && x == t.n && q == t.r.n && x != q && q in nodes && x in nodes && !sent.red
      requires x !in Nodes(t.l) && x !in Nodes(t.r.l) && x !in Nodes(t.r.r) && x !in Around(c) && x != sent
      requires q !in Nodes(t.l) && q !in Nodes(t.r.l) && q !in Nodes(t.r.r) && q !in Around(c) && q != sent
      requires c.Under? ==> c.f.n in nodes && c.f.n != x && c.f.n != q && c.f.n !in Nodes(t.l)
      requires c.Under? ==> c.f.n !in Nodes(t.r.l) && c.f.n !in Nodes(t.r.r)
      requires Separate(c, t, sent) && nodes == Nodes(t) + Around(c) && root == RootPtr(c, x) && TiedAround(c, x, sent)
      requires x.val == t.val && x.red == t.red && x.l == Ptr(t.l, sent) && x.r == Ptr(t.r.l, sent)
      requires q.val == t.r.val && q.red == t.r.red && q.r == Ptr(t.r.r, sent) && x.p == Hole(c, sent)
      requires Tied(t.l, x, sent) && Tied(t.r.l, x, sent) && Tied(t.r.r, q, sent)
      modifies this`root, nodes
      ensures Shaped(c, TurnLeft(t))
    {
      TurnLeftKeeps(c, t, sent);
      hide Nodes, Around, Tied, TiedAround, RootPtr, Apart, ApartAround;
      Relink(x, q, c);
      assert Tied(t.l, x, sent) && Tied(t.r.l, x, sent) && Tied(t.r.r, q, sent);
      q.l, x.p := x, q;
      assert Tied(t.l, x, sent) && Tied(t.r.l, x, sent) && Tied(t.r.r, q, sent) && TiedAround(c, q, sent);
      UnfoldTied(TurnLeft(t).l, q, sent);
      UnfoldTied(TurnLeft(t), Hole(c, sent), sent);
    }

    lemma OpenLeft(c: Context, t: Tree)
      requires t.Fork? && t.r.Fork? && Shaped(c, t)
      ensures var x, q, a, b, d := t.n, t.r.n, t.l, t.r.l, t.r.r;
        && x in nodes && q in nodes && x != sent && q != sent && x != q && sent !in Nodes(b)
        && x !in Nodes(a) && x !in Nodes(b) && x !in Nodes(d) && x !in Around(c)
        && q !in Nodes(a) && q !in Nodes(b) && q !in Nodes(d) && q !in Around(c)
        && (c.Under? ==>
              && c.f.n != x && c.f.n != q && c.f.n in nodes
              && c.f.n !in Nodes(a) && c.f.n !in Nodes(b) && c.f.n !in Nodes(d) && (b.Fork? ==> b.n != c.f.n))
        && (b.Fork? ==>
              b.n != x && b.n != q && b.n in nodes && b.n !in Nodes(a) && b.n !in Nodes(d) && b.n !in Around(c))
        && Apart(b) && ApartAround(c) && sent !in Around(c)
      ensures var x, q := t.n, t.r.n;
        && x.val == t.val && x.red == t.red && x.l == Ptr(t.l, sent) && x.r == q && x.p == Hole(c, sent)
        && q.val == t.r.val && q.red == t.r.red && q.l == Ptr(t.r.l, sent) && q.r == Ptr(t.r.r, sent) && q.p == x
        && Tied(t.l, x, sent) && Tied(t.r.l, q, sent) && Tied(t.r.r, q, sent)
    {
      Unfold(t);
      Unfold(t.r);
      UnfoldTied(t, Hole(c, sent), sent);
      UnfoldTied(t.r, t.n, sent);
      hide Nodes, Around, Tied, TiedAround, RootPtr, Apart, ApartAround;
      Distinct(c, t.n, t.r.n, t.l, t.r.l, t.r.r, Nodes(t), sent);
    }

    /** Turns the edge from x to its left child. */
    method RightRot(x: Node, ghost c: Context, ghost t: Tree)
      requires t.Fork? && t.n == x && t.l.Fork? && Shaped(c, t)
      modifies this`root, nodes
      ensures Shaped(c, TurnRight(t))
    {
      OpenRight(c, t);
      hide Separate, Nodes, Around, Tied, TiedAround, RootPtr, Apart, ApartAround;
      var q := x.l;
      PassRight(q, x, t.l.r);
      HangRight(q, x, c, t);
    }

    /** The other steps of right_rot: q takes x's place, and x becomes its right child. */
    method HangRight(q: Node, x: Node, ghost c: Context, ghost t: Tree)
      requires t.Fork? && t.l.Fork? && x == t.n && q == t.l.n && x != q && q in nodes && x in nodes && !sent.red
      requires x !in Nodes(t.r) && x !in Nodes(t.l.r) && x !in Nodes(t.l.l) && x !in Around(c) && x != sent
      requires q !in Nodes(t.r) && q !in Nodes(t.l.r) && q !in Nodes(t.l.l) && q !in Around(c) && q != sent
      requires c.Under? ==> c.f.n in nodes && c.f.n != x && c.f.n != q && c.f.n !in Nodes(t.r)
      requires c.Under? ==> c.f.n !in Nodes(t.l.r) && c.f.n !in Nodes(t.l.l)
      requires Separate(c, t, sent) && nodes == Nodes(t) + Around(c) && root == RootPtr(c, x) && TiedAround(c, x, sent)
      requires x.val == t.val && x.red == t.red && x.r == Ptr(t.r, sent) && x.l == Ptr(t.l.r, sent)
      requires q.val == t.l.val && q.red == t.l.red && q.l == Ptr(t.l.l, sent) && x.p == Hole(c, sent)
      requires Tied(t.r, x, sent) && Tied(t.l.r, x, sent) && Tied(t.l.l, q, sent)
      modifies this`root, nodes
      ensures Shaped(c, TurnRight(t))
    {
      TurnRightKeeps(c, t, sent);
      hide Nodes, Around, Tied, TiedAround, RootPtr, Apart, ApartAround;
      Relink(x, q, c);
      assert Tied(t.r, x, sent) && Tied(t.l.r, x, sent) && Tied(t.l.l, q, sent);
      q.r, x.p := x, q;
      assert Tied(t.r, x, sent) && Tied(t.l.r, x, sent) && Tied(t.l.l, q, sent) && TiedAround(c, q, sent);
      UnfoldTied(TurnRight(t).r, q, sent);
      UnfoldTied(TurnRight(t), Hole(c, sent), sent);
    }

    lemma OpenRight(c: Context, t: Tree)
      requires t.Fork? && t.l.Fork? && Shaped(c, t)
      ensures var x, q, a, b, d := t.n, t.l.n, t.r, t.l.r, t.l.l;
        && x in nodes && q in nodes && x != sent && q != sent && x != q && sent !in Nodes(b)
        && x !in Nodes(a) && x !in Nodes(b) && x !in Nodes(d) && x !in Around(c)
        && q !in Nodes(a) && q !in Nodes(b) && q !in Nodes(d) && q !in Around(c)
        && (c.Under? ==>
              && c.f.n != x && c.f.n != q && c.f.n in nodes
              && c.f.n !in Nodes(a) && c.f.n !in Nodes(b) && c.f.n !in Nodes(d) && (b.Fork? ==> b.n != c.f.n))
        && (b.Fork? ==>
              b.n != x && b.n != q && b.n in nodes && b.n !in Nodes(a) && b.n !in Nodes(d) && b.n !in Around(c))
        && Apart(b) && ApartAround(c) && sent !in Around(c)
      ensures var x, q := t.n, t.l.n;
        && x.val == t.val && x.red == t.red && x.r == Ptr(t.r, sent) && x.l == q && x.p == Hole(c, sent)
        && q.val == t.l.val && q.red == t.l.red && q.r == Ptr(t.l.r, sent) && q.l == Ptr(t.l.l, sent) && q.p == x
        && Tied(t.r, x, sent) && Tied(t.l.r, q, sent) && Tied(t.l.l, q, sent)
    {
      Unfold(t);
      Unfold(t.l);
      UnfoldTied(t, Hole(c, sent), sent);
      UnfoldTied(t.l, t.n, sent);
      hide Nodes, Around, Tied, TiedAround, RootPtr, Apart, ApartAround;
      Distinct(c, t.n, t.l.n, t.r, t.l.r, t.l.l, Nodes(t), sent);
    }

    lemma ShapedUp(c: Context, t: Tree)
      requires c.Under?
      ensures Shaped(c, t) <==> Shaped(c.up, Join(c.f, t))
    {
      MoveUp(c, t, sent);
    }

    lemma {:induction false} ShapedWhole(c: Context, t: Tree)
      requires Shaped(c, t)
      ensures Shaped(Top, Plug(c, t))
      decreases c
    {
      if c.Under? {
        ShapedUp(c, t);
        ShapedWhole(c.up, Join(c.f, t));
      }
    }

    /** Sets a node's colour. */
    method Paint(n: Node, red: bool, ghost c: Context, ghost t: Tree)
      requires t.Fork? && n == t.n && Shaped(c, t)
      modifies n`red
      ensures Shaped(c, t.(red := red))
    {
      n.red := red;
    }

    /** A child of the red parent's parent is the parent, or the uncle. */
    lemma Family(c: Context, t: Tree)
      requires Shaped(c, t) && RedParent(c) && c.up.Under? && t.Fork?
      ensures t.n.p == c.f.n && c.f.n.p == c.up.f.n
      ensures c.f.n == c.up.f.n.l <==> c.up.f.left
      ensures (if c.up.f.left then c.up.f.n.r else c.up.f.n.l) == Ptr(c.up.f.sib, sent)
      ensures Ptr(c.up.f.sib, sent).red == IsRed(c.up.f.sib)
      ensures t.n == c.f.n.l <==> c.f.left
      ensures t.n == c.f.n.r <==> !c.f.left
    {
      UnfoldAround(c);
      UnfoldAround(c.up);
      assert TiedAround(c.up, c.f.n, sent) && ApartAround(c.up);
      if c.up.f.sib.Fork? { UnfoldTied(c.up.f.sib, c.up.f.n, sent); }
    }

    /** Red uncle: three nodes change colour. */
    method Recolor(a: Node, e: Node, ghost c: Context, ghost t: Tree)
      requires t.Fork? && a == t.n && Shaped(c, t) && Fixing(c, t) && RedParent(c)
      requires e == Ptr(c.up.f.sib, sent) && IsRed(c.up.f.sib)
      modifies nodes`red
      ensures Shaped(c.up.up, Recolored(c, t))
    {
      ghost var f, g := c.f, c.up.f;
      ShapedUp(c, t);
      Family(c, t);
      hide Separate, Nodes, Around, Tied, TiedAround, Fixing;
      Paint(a.p, false, c.up, Join(f, t));
      ghost var p := Join(f.(red := false), t);
      ghost var other := Frame(!g.left, g.n, g.val, g.red, p);
      assert Join(other, g.sib) == Join(g, p);
      ShapedUp(c.up, p);
      ShapedUp(Under(other, c.up.up), g.sib);
      Paint(e, false, Under(other, c.up.up), g.sib);
      ShapedUp(Under(other, c.up.up), g.sib.(red := false));
      Paint(a.p.p, true, c.up.up, Join(other, g.sib.(red := false)));
    }

    lemma Parent(c: Context, t: Tree)
      requires Shaped(c, t) && c.Under? && t.Fork?
      ensures t.n.p == c.f.n && (t.n == c.f.n.l <==> c.f.left) && (t.n == c.f.n.r <==> !c.f.left)
    {
      UnfoldAround(c);
    }

    /** The parent is a left child and the uncle black. */
    method RaiseLeft(a0: Node, ghost c0: Context, ghost t0: Tree) returns (a: Node, ghost c: Context, ghost t: Tree)
      requires t0.Fork? && a0 == t0.n && Shaped(c0, t0) && Fixing(c0, t0) && RedParent(c0)
      requires c0.up.Under? && c0.up.f.left && !IsRed(c0.up.f.sib)
      modifies this`root, nodes
      ensures t.Fork? && a == t.n && Shaped(c, t) && Fixing(c, t) && !RedParent(c) && c.Under? && c.up == c0.up.up
      ensures InOrder(Join(c.f, t)) == InOrder(Join(c0.up.f, Join(c0.f, t0)))
    {
      a, c, t := a0, c0, t0;
      Parent(c, t);
      if a == a.p.r {
        InnerFixes(c, t);
        ShapedUp(c, t);
        a := a.p;
        LeftRot(a, c.up, Join(c.f, t));
        c, t := Inner(c, t).0, Inner(c, t).1;
        ShapedUp(c, t);
      }
      OuterFixes(c, t);
      ShapedUp(c, t);
      Family(c, t);
      ghost var p := Join(c.f.(red := false), t);
      Paint(a.p, false, c.up, Join(c.f, t));
      ShapedUp(c.up, p);
      Paint(a.p.p, true, c.up.up, Join(c.up.f, p));
      RightRot(a.p.p, c.up.up, Join(c.up.f.(red := true), p));
      c := Outer(c);
      ShapedUp(c, t);
    }

    /** The parent is a right child and the uncle black. */
    method RaiseRight(a0: Node, ghost c0: Context, ghost t0: Tree) returns (a: Node, ghost c: Context, ghost t: Tree)
      requires t0.Fork? && a0 == t0.n && Shaped(c0, t0) && Fixing(c0, t0) && RedParent(c0)
      requires c0.up.Under? && !c0.up.f.left && !IsRed(c0.up.f.sib)
      modifies this`root, nodes
      ensures t.Fork? && a == t.n && Shaped(c, t) && Fixing(c, t) && !RedParent(c) && c.Under? && c.up == c0.up.up
      ensures InOrder(Join(c.f, t)) == InOrder(Join(c0.up.f, Join(c0.f, t0)))
    {
      a, c, t := a0, c0, t0;
      Parent(c, t);
      if a == a.p.l {
        InnerFixes(c, t);
        ShapedUp(c, t);
        a := a.p;
        RightRot(a, c.up, Join(c.f, t));
        c, t := Inner(c, t).0, Inner(c, t).1;
        ShapedUp(c, t);
      }
      OuterFixes(c, t);
      ShapedUp(c, t);
      Family(c, t);
      ghost var p := Join(c.f.(red := false), t);
      Paint(a.p, false, c.up, Join(c.f, t));
      ShapedUp(c.up, p);
      Paint(a.p.p, true, c.up.up, Join(c.up.f, p));
      LeftRot(a.p.p, c.up.up, Join(c.up.f.(red := true), p));
      c := Outer(c);
      ShapedUp(c, t);
    }

    /** One turn of balance's loop. */
    method Climb(a0: Node, ghost c0: Context, ghost t0: Tree) returns (a: Node, ghost c: Context, ghost t: Tree)
      requires t0.Fork? && a0 == t0.n && Shaped(c0, t0) && Fixing(c0, t0) && RedParent(c0)
      modifies this`root, nodes
      ensures t.Fork? && a == t.n && Shaped(c, t) && Fixing(c, t)
      ensures InOrder(Plug(c, t)) == InOrder(Plug(c0, t0)) && Depth(c) < Depth(c0)
    {
      ghost var up, whole := c0.up.up, Join(c0.up.f, Join(c0.f, t0));
      a := a0;
      Family(c0, t0);
      RedUncleFixes(c0, t0);
      Grandparent(c0, t0);
      hide Separate, Nodes, Around, Tied, TiedAround, InOrder, Even, Calm, BlackHeight, EvenAround, Join, Plug, Fixing;
      var e := if a.p == a.p.p.l then a.p.p.r else a.p.p.l;
      if e.red {
        Recolor(a, e, c0, t0);
        t, c := Recolored(c0, t0), up;
        a := a.p.p;
        SameInOrder(up, t, whole);
      } else if a.p == a.p.p.l {
        a, c, t := RaiseLeft(a, c0, t0);
        PlugUp(c, t);
        SameInOrder(up, Join(c.f, t), whole);
      } else {
        a, c, t := RaiseRight(a, c0, t0);
        PlugUp(c, t);
        SameInOrder(up, Join(c.f, t), whole);
      }
    }

    /** Climbs until no red node has a red parent, then blackens the root. */
    method Balance(a0: Node, ghost c0: Context, ghost t0: Tree)
      requires t0.Fork? && a0 == t0.n && Shaped(c0, t0) && Fixing(c0, t0)
      modifies this`root, this`tree, nodes
      ensures Shaped(Top, tree) && RedBlack(tree) && InOrder(tree) == InOrder(Plug(c0, t0))
    {
      var a := a0;
      ghost var c, t := c0, t0;
      HoleColour(c, t);
      hide Separate, Nodes, Around, Tied, TiedAround, InOrder, EvenAround, CalmAround, BlackHeight, Join, RootPtr;
      while a.p.red
        invariant t.Fork? && a == t.n && Shaped(c, t) && Fixing(c, t) && a.p.red == RedParent(c)
        invariant InOrder(Plug(c, t)) == InOrder(Plug(c0, t0))
        decreases Depth(c)
      {
        a, c, t := Climb(a, c, t);
        HoleColour(c, t);
      }
      Blacken(c, t);
    }

    method Blacken(ghost c: Context, ghost t: Tree)
      requires Shaped(c, t) && Fixing(c, t) && !RedParent(c)
      modifies nodes`red, this`tree
      ensures Shaped(Top, tree) && RedBlack(tree) && InOrder(tree) == InOrder(Plug(c, t))
    {
      PlugLaws(c, t);
      ShapedWhole(c, t);
      NotEmpty(c, t);
      tree := Plug(c, t);
      Paint(root, false, Top, tree);
      tree := tree.(red := false);
    }

    /** The loop's guard asks about the frame above. */
    lemma HoleColour(c: Context, t: Tree)
      requires t.Fork? && Shaped(c, t)
      ensures t.n.p.red == RedParent(c)
    {
    }

    ghost predicate Valid()
      reads this, sent, nodes, Nodes(tree)
    {
      Shaped(Top, tree) && RedBlack(tree) && Sorted(InOrder(tree))
    }

    /** The new node takes the place of the sentinel below y. */
    method Attach(n: Node, y: Node, ghost c: Context)
      requires Shaped(c, Leaf) && n !in nodes && n != sent && y == Hole(c, sent)
      requires c.Under? ==> (c.f.left <==> n.val < c.f.val)
      modifies this`root, this`nodes, nodes, n
      ensures Shaped(c, Fork(n, n.val, true, Leaf, Leaf)) && nodes == old(nodes) + {n} && n.val == old(n.val)
    {
      if c.Under? { UnfoldAround(c); }
      n.p := y;
      if y == sent {
        root := n;
      } else if n.val < y.val {
        y.l := n;
      } else {
        y.r := n;
      }
      n.l := sent;
      n.r := sent;
      n.red := true;
      nodes := nodes + {n};
    }

    /** Adds one copy of the value, behind the equal ones. */
    method Insert(value: int) returns (n: Node)
      requires Valid()
      modifies this, nodes
      ensures Valid() && fresh(nodes - old(nodes))
      ensures exists a, b :: old(InOrder(tree)) == a + b && InOrder(tree) == a + [value] + b
    {
      n := new Node(value);
      hide Separate, Nodes, Around, Tied, TiedAround, InOrder, Sorted, Plug, RedBlack, Fits, RootPtr, Before, Behind;
      var x, y := root, sent;
      ghost var c, t := Top, tree;
      StartsAtRoot(value);
      while x != sent
        invariant Shaped(c, t) && Plug(c, t) == tree && x == Ptr(t, sent) && y == Hole(c, sent)
        invariant Fits(c, value) && Sorted(InOrder(t)) && n.val == value
        invariant tree == old(tree) && nodes == old(nodes) && n !in nodes && n != sent
        decreases t
      {
        y := x;
        FitsDown(c, t, value);
        PlugDown(c, t, value < t.val);
        ShapedDown(c, t, value < t.val);
        if n.val < x.val {
          x := x.l;
          c, t := Down(c, t, true), t.l;
        } else {
          x := x.r;
          c, t := Down(c, t, false), t.r;
        }
      }
      AtSentinel(c, t);
      NewLeaf(c, n, value, tree);
      Attach(n, y, c);
      Balance(n, c, Fork(n, value, true, Leaf, Leaf));
    }

    lemma AtSentinel(c: Context, t: Tree)
      requires Shaped(c, t) && Ptr(t, sent) == sent
      ensures t == Leaf
    {
    }

    lemma StartsAtRoot(v: int)
      requires Valid()
      ensures root == Ptr(tree, sent) && Plug(Top, tree) == tree && Fits(Top, v)
    {
    }

    lemma ShapedDown(c: Context, t: Tree, left: bool)
      requires t.Fork? && Shaped(c, t)
      ensures Shaped(Down(c, t, left), if left then t.l else t.r)
      ensures t.n.l == Ptr(t.l, sent) && t.n.r == Ptr(t.r, sent) && t.n.val == t.val
    {
      ShapedUp(Down(c, t, left), if left then t.l else t.r);
    }
  }
}
