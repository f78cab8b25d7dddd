/** The binomial heap: a list of heap-ordered binomial trees with strictly increasing degrees. */
module BinomialHeap {

  class Node {
    var val: int
    var deg: nat
    var lChild: Node?
    var rSib: Node?
    var par: Node?

    constructor (value: int)
      ensures val == value
    {
      val := value;
      deg := 0;
      lChild, rSib, par := null, null, null;
    }
  }

  /** A tree of nodes; its degree is the number of its children. */
  datatype Tree = Tree(n: Node, val: int, kids: seq<Tree>)

  function Deg(t: Tree): nat {
    |t.kids|
  }

  // ----- binomial trees and heaps -----

  /** The children of a tree of degree k have degrees k - 1 down to 0, and no smaller values. */
  ghost predicate Binomial(t: Tree)
    decreases t
  {
    forall i :: 0 <= i < |t.kids| ==>
      Binomial(t.kids[i]) && Deg(t.kids[i]) == |t.kids| - 1 - i && t.val <= t.kids[i].val
  }

  ghost predicate AllBinomial(l: seq<Tree>) {
    forall i :: 0 <= i < |l| ==> Binomial(l[i])
  }

  ghost predicate Increasing(l: seq<Tree>) {
    forall i, j :: 0 <= i < j < |l| ==> Deg(l[i]) < Deg(l[j])
  }

  ghost predicate Heap(l: seq<Tree>) {
    AllBinomial(l) && Increasing(l)
  }

  /** The values in a tree, and in a list of trees. */
  function Vals(t: Tree): multiset<int>
    decreases t
  {
    multiset{t.val} + AllVals(t.kids)
  }

  function AllVals(l: seq<Tree>): multiset<int>
    decreases l
  {
    if l == [] then multiset{} else Vals(l[0]) + AllVals(l[1..])
  }

  function Size(t: Tree): nat
    decreases t
  {
    1 + AllSizes(t.kids)
  }

  function AllSizes(l: seq<Tree>): nat
    decreases l
  {
    if l == [] then 0 else Size(l[0]) + AllSizes(l[1..])
  }

  lemma {:induction false} ValsConcat(a: seq<Tree>, b: seq<Tree>)
    ensures AllVals(a + b) == AllVals(a) + AllVals(b)
  {
    hide Vals;
    if a == [] {
      assert a + b == b;
    } else {
      var l := a + b;
      ValsConcat(a[1..], b);
      assert l[1..] == a[1..] + b && l[0] == a[0];
      assert AllVals(l) == Vals(l[0]) + AllVals(l[1..]);
    }
  }

  lemma ValsOne(t: Tree)
    ensures AllVals([t]) == Vals(t)
  {
    hide Vals;
    assert [t][1..] == [];
  }

  lemma ValsHead(l: seq<Tree>)
    requires l != []
    ensures AllVals(l) == Vals(l[0]) + AllVals(l[1..])
  {
    hide Vals;
  }

  function Pow2(k: nat): nat {
    if k == 0 then 1 else 2 * Pow2(k - 1)
  }

  /** A binomial tree of degree k has 2^k nodes. */
  lemma {:induction false} SizeIsPower(t: Tree)
    requires Binomial(t)
    ensures Size(t) == Pow2(Deg(t))
    decreases t
  {
    KidsSize(t.kids);
  }

  lemma {:induction false} KidsSize(l: seq<Tree>)
    requires forall i :: 0 <= i < |l| ==> Binomial(l[i]) && Deg(l[i]) == |l| - 1 - i
    ensures AllSizes(l) + 1 == Pow2(|l|)
    decreases l
  {
    if l != [] {
      SizeIsPower(l[0]);
      KidsSize(l[1..]);
    }
  }

  /** The root of a tree holds one of its smallest values. */
  lemma {:induction false} RootIsLeast(t: Tree, v: int)
    requires Binomial(t) && v in Vals(t)
    ensures t.val <= v
    decreases t
  {
    if v != t.val { KidsAreLarger(t.kids, v, t.val); }
  }

  lemma {:induction false} KidsAreLarger(l: seq<Tree>, v: int, low: int)
    requires AllBinomial(l) && v in AllVals(l) && forall i :: 0 <= i < |l| ==> low <= l[i].val
    ensures low <= v
    decreases l
  {
    if v in Vals(l[0]) { RootIsLeast(l[0], v); } else { KidsAreLarger(l[1..], v, low); }
  }

  // ----- the degrees are the binary digits of the size -----

  function Degrees(l: seq<Tree>): seq<nat> {
    if l == [] then [] else [Deg(l[0])] + Degrees(l[1..])
  }

  /** The places of the ones in the binary form of n, counted from k. */
  function Bits(n: nat, k: nat): seq<nat> {
    if n == 0 then [] else (if n % 2 == 1 then [k] else []) + Bits(n / 2, k + 1)
  }

  /** The size of a list of trees in units of 2^k. */
  function Units(l: seq<Tree>, k: nat): nat
    requires forall i :: 0 <= i < |l| ==> k <= Deg(l[i])
  {
    if l == [] then 0 else Pow2(Deg(l[0]) - k) + Units(l[1..], k)
  }

  lemma {:induction false} UnitsHalve(l: seq<Tree>, k: nat)
    requires forall i :: 0 <= i < |l| ==> k < Deg(l[i])
    ensures Units(l, k) == 2 * Units(l, k + 1)
  {
    if l != [] { UnitsHalve(l[1..], k); }
  }

  lemma {:induction false} UnitsAreSize(l: seq<Tree>)
    requires AllBinomial(l)
    ensures Units(l, 0) == AllSizes(l)
  {
    if l != [] {
      SizeIsPower(l[0]);
      UnitsAreSize(l[1..]);
    }
  }

  lemma {:induction false} DegreesFrom(l: seq<Tree>, k: nat, top: nat)
    requires Increasing(l) && k <= top && forall i :: 0 <= i < |l| ==> k <= Deg(l[i]) < top
    ensures Degrees(l) == Bits(Units(l, k), k)
    decreases top - k
  {
    if l != [] {
      if Deg(l[0]) == k {
        IncreasingRest(l, top);
        UnitsHalve(l[1..], k);
        DegreesFrom(l[1..], k + 1, top);
        hide Increasing, Bits;
        BitsOdd(Units(l[1..], k + 1), k);
      } else {
        UnitsHalve(l, k);
        DegreesFrom(l, k + 1, top);
        PowPositive(Deg(l[0]) - (k + 1));
        hide Increasing, Bits;
        BitsEven(Units(l, k + 1), k);
      }
    }
  }

  lemma IncreasingRest(l: seq<Tree>, top: nat)
    requires Increasing(l) && l != [] && forall i :: 0 <= i < |l| ==> Deg(l[i]) < top
    ensures Increasing(l[1..]) && forall i :: 0 <= i < |l[1..]| ==> Deg(l[0]) < Deg(l[1..][i]) < top
  {
  }

  lemma BitsOdd(n: nat, k: nat)
    ensures Bits(1 + 2 * n, k) == [k] + Bits(n, k + 1)
  {
    assert (1 + 2 * n) / 2 == n;
  }

  lemma BitsEven(n: nat, k: nat)
    requires n > 0
    ensures Bits(2 * n, k) == Bits(n, k + 1)
  {
    assert 2 * n / 2 == n;
  }

  lemma {:induction false} PowPositive(k: nat)
    ensures Pow2(k) > 0
  {
    if k > 0 { PowPositive(k - 1); }
  }

  /** A heap of n values has one tree for each one in the binary form of n, and no other. */
  lemma {:induction false} DegreesAreDigits(l: seq<Tree>)
    requires Heap(l)
    ensures Degrees(l) == Bits(AllSizes(l), 0)
  {
    UnitsAreSize(l);
    assert forall i :: 0 <= i < |l| ==> Deg(l[i]) <= Deg(l[|l| - 1]);
    DegreesFrom(l, 0, if l == [] then 0 else Deg(l[|l| - 1]) + 1);
  }

  // ----- linking and merging -----

  /** One tree becomes the first child of the other. */
  function Linked(c: Tree, p: Tree): Tree {
    p.(kids := [c] + p.kids)
  }

  lemma {:induction false} LinkedKeeps(c: Tree, p: Tree)
    requires Binomial(c) && Binomial(p) && Deg(c) == Deg(p) && p.val <= c.val
    ensures Binomial(Linked(c, p)) && Deg(Linked(c, p)) == Deg(p) + 1
    ensures Vals(Linked(c, p)) == Vals(c) + Vals(p)
  {
    assert ([c] + p.kids)[1..] == p.kids;
  }

  /** Trees in order of their degrees; of two equal ones the first list's comes first. */
  function Merged(a: seq<Tree>, b: seq<Tree>): seq<Tree> {
    if a == [] then b
    else if b == [] then a
    else if Deg(a[0]) <= Deg(b[0]) then [a[0]] + Merged(a[1..], b)
    else [b[0]] + Merged(a, b[1..])
  }

  /** Degrees never fall, and no three in a row are equal. */
  ghost predicate Pairs(l: seq<Tree>) {
    |l| > 1 ==> Pairs(l[1..]) && Deg(l[0]) <= Deg(l[1]) && (|l| > 2 ==> Deg(l[0]) < Deg(l[2]))
  }

  ghost predicate Above(l: seq<Tree>, d: int) {
    forall i :: 0 <= i < |l| ==> d < Deg(l[i])
  }

  lemma {:induction false} MergedAbove(a: seq<Tree>, b: seq<Tree>, d: int)
    requires Above(a, d) && Above(b, d)
    ensures Above(Merged(a, b), d)
    decreases |a| + |b|
  {
    if a != [] && b != [] {
      if Deg(a[0]) <= Deg(b[0]) { MergedAbove(a[1..], b, d); } else { MergedAbove(a, b[1..], d); }
    }
  }

  lemma {:induction false} MergedBinomial(a: seq<Tree>, b: seq<Tree>)
    requires AllBinomial(a) && AllBinomial(b)
    ensures AllBinomial(Merged(a, b)) && AllVals(Merged(a, b)) == AllVals(a) + AllVals(b)
    decreases |a| + |b|
  {
    if a != [] && b != [] {
      if Deg(a[0]) <= Deg(b[0]) {
        MergedBinomial(a[1..], b);
        assert Merged(a, b)[1..] == Merged(a[1..], b);
      } else {
        MergedBinomial(a, b[1..]);
        assert Merged(a, b)[1..] == Merged(a, b[1..]);
      }
    }
  }

  lemma IncreasingTail(l: seq<Tree>)
    requires Increasing(l) && l != []
    ensures Increasing(l[1..]) && Above(l[1..], Deg(l[0]))
  {
  }

  lemma {:induction false} IncreasingPairs(l: seq<Tree>)
    requires Increasing(l)
    ensures Pairs(l)
  {
    if |l| > 1 { IncreasingPairs(l[1..]); }
  }

  /** A tree in front of larger ones, or of one as large and then larger ones. */
  lemma PairsCons(t: Tree, l: seq<Tree>)
    requires Pairs(l) && Above(l, Deg(t) - 1) && (l != [] ==> Above(l[1..], Deg(t)))
    ensures Pairs([t] + l)
  {
    assert ([t] + l)[1..] == l;
    assert |l| > 1 ==> l[1] == l[1..][0];
  }

  lemma {:induction false} MergedPairs(a: seq<Tree>, b: seq<Tree>)
    requires Increasing(a) && Increasing(b)
    ensures Pairs(Merged(a, b))
    decreases |a| + |b|
  {
    if a == [] {
      IncreasingPairs(b);
    } else if b == [] {
      IncreasingPairs(a);
    } else {
      IncreasingTail(a);
      IncreasingTail(b);
      var d := if Deg(a[0]) <= Deg(b[0]) then Deg(a[0]) else Deg(b[0]);
      if Deg(a[0]) <= Deg(b[0]) {
        var m := Merged(a[1..], b);
        MergedPairs(a[1..], b);
        MergedAbove(a[1..], b, d - 1);
        if Deg(a[0]) == Deg(b[0]) {
          MergedAbove(a[1..], b[1..], d);
          if a[1..] != [] { assert a[1..][0] in a[1..]; }
          assert m == [b[0]] + Merged(a[1..], b[1..]);
          assert m[1..] == Merged(a[1..], b[1..]);
        } else {
          assert Above(b, d);
          MergedAbove(a[1..], b, d);
        }
        PairsCons(a[0], m);
      } else {
        var m := Merged(a, b[1..]);
        MergedPairs(a, b[1..]);
        assert Above(a, d);
        MergedAbove(a, b[1..], d);
        PairsCons(b[0], m);
      }
    }
  }

  // ----- union -----

  /** The loop of union: done is behind the current tree, rest in front of it. */
  function Consolidated(done: seq<Tree>, cur: Tree, rest: seq<Tree>): seq<Tree>
    decreases |rest|
  {
    if rest == [] then done + [cur]
    else
      var next := rest[0];
      if Deg(cur) != Deg(next) || (|rest| > 1 && Deg(rest[1]) == Deg(cur)) then
        Consolidated(done + [cur], next, rest[1..])
      else if cur.val <= next.val then Consolidated(done, Linked(next, cur), rest[1..])
      else Consolidated(done, Linked(cur, next), rest[1..])
  }

  lemma ConsolidatedLast(done: seq<Tree>, cur: Tree)
    ensures Consolidated(done, cur, []) == done + [cur]
  {
  }

  /** What is behind has strictly increasing degrees below the current one; only when two more of
      the current degree follow one another may the last one be as large. */
  ghost predicate Consolidating(done: seq<Tree>, cur: Tree, rest: seq<Tree>) {
    && Increasing(done) && AllBinomial(done) && Binomial(cur) && AllBinomial(rest) && Pairs(rest)
    && Above(rest, Deg(cur) - 1) && (|rest| > 2 ==> Deg(cur) < Deg(rest[2]))
    && (done != [] ==>
          || Deg(done[|done| - 1]) < Deg(cur)
          || (Deg(done[|done| - 1]) == Deg(cur) && rest != [] && Deg(rest[0]) == Deg(cur)
              && (|rest| > 1 ==> Deg(cur) < Deg(rest[1]))))
  }

  function Union(a: seq<Tree>, b: seq<Tree>): seq<Tree> {
    var m := Merged(a, b);
    if m == [] then [] else Consolidated([], m[0], m[1..])
  }

  lemma {:induction false} ConsolidatingOn(done: seq<Tree>, cur: Tree, rest: seq<Tree>)
    requires Consolidating(done, cur, rest) && rest != []
    requires Deg(cur) != Deg(rest[0]) || (|rest| > 1 && Deg(rest[1]) == Deg(cur))
    ensures Consolidating(done + [cur], rest[0], rest[1..])
  {
    hide Binomial;
    var d, r := done + [cur], rest[1..];
    assert done != [] ==> forall i :: 0 <= i < |done| ==> Deg(done[i]) <= Deg(done[|done| - 1]);
    assert Increasing(d) by {
      assert forall i :: 0 <= i < |done| ==> Deg(done[i]) < Deg(cur);
    }
    PairsAbove(rest);
  }

  lemma {:induction false} ConsolidatingLink(done: seq<Tree>, cur: Tree, rest: seq<Tree>, t: Tree)
    requires Consolidating(done, cur, rest) && rest != [] && Deg(cur) == Deg(rest[0])
    requires |rest| > 1 ==> Deg(rest[1]) != Deg(cur)
    requires Binomial(t) && Deg(t) == Deg(cur) + 1
    ensures Consolidating(done, t, rest[1..])
  {
    hide Binomial;
    PairsAbove(rest);
  }

  lemma {:induction false} PairsAbove(l: seq<Tree>)
    requires Pairs(l) && l != []
    ensures Above(l, Deg(l[0]) - 1) && Pairs(l[1..])
    ensures |l| > 1 ==> Above(l[1..], Deg(l[1]) - 1)
    ensures |l| > 3 ==> Deg(l[1]) < Deg(l[3])
  {
    if |l| > 1 { PairsAbove(l[1..]); }
    assert |l| > 3 ==> l[1..][2] == l[3];
  }

  lemma {:induction false} ConsolidatedKeeps(done: seq<Tree>, cur: Tree, rest: seq<Tree>)
    requires Consolidating(done, cur, rest)
    ensures Heap(Consolidated(done, cur, rest))
    ensures AllVals(Consolidated(done, cur, rest)) == AllVals(done) + Vals(cur) + AllVals(rest)
    decreases |rest|
  {
    hide AllVals, Vals;
    if rest == [] {
      ConsolidatedEnd(done, cur);
    } else {
      var next, r := rest[0], rest[1..];
      ValsHead(rest);
      if Deg(cur) != Deg(next) || (|rest| > 1 && Deg(rest[1]) == Deg(cur)) {
        ConsolidatingOn(done, cur, rest);
        ValsConcat(done, [cur]);
        ValsOne(cur);
        hide Consolidating;
        ConsolidatedKeeps(done + [cur], next, r);
      } else {
        var t := if cur.val <= next.val then Linked(next, cur) else Linked(cur, next);
        assert Deg(cur) == Deg(next) && Binomial(cur) && Binomial(next);
        if cur.val <= next.val { LinkedKeeps(next, cur); } else { LinkedKeeps(cur, next); }
        ConsolidatingLink(done, cur, rest, t);
        hide Consolidating, Binomial;
        ConsolidatedKeeps(done, t, r);
      }
    }
  }

  lemma ConsolidatedEnd(done: seq<Tree>, cur: Tree)
    requires Consolidating(done, cur, [])
    ensures Heap(done + [cur]) && AllVals(done + [cur]) == AllVals(done) + Vals(cur) + AllVals([])
  {
    ValsConcat(done, [cur]);
    ValsOne(cur);
    hide Binomial, Vals;
    assert done != [] ==> forall i :: 0 <= i < |done| ==> Deg(done[i]) <= Deg(done[|done| - 1]);
  }

  lemma {:induction false} UnionStart(m: seq<Tree>)
    requires m != [] && AllBinomial(m) && Pairs(m)
    ensures Consolidating([], m[0], m[1..])
  {
    hide Binomial;
    PairsAbove(m);
    assert forall i :: 0 <= i < |m| - 1 ==> m[1..][i] == m[i + 1];
  }

  /** The union of two heaps is a heap with the values of both. */
  lemma {:induction false} UnionKeeps(a: seq<Tree>, b: seq<Tree>)
    requires Heap(a) && Heap(b)
    ensures Heap(Union(a, b)) && AllVals(Union(a, b)) == AllVals(a) + AllVals(b)
  {
    var m := Merged(a, b);
    MergedBinomial(a, b);
    MergedPairs(a, b);
    if m != [] {
      UnionStart(m);
      ConsolidatedKeeps([], m[0], m[1..]);
      ValsHead(m);
    }
    hide Vals, Binomial, Consolidating;
  }

  // ----- extracting the minimum -----

  function Without(l: seq<Tree>, i: nat): seq<Tree>
    requires i < |l|
  {
    l[..i] + l[i + 1..]
  }

  function Reversed(l: seq<Tree>): seq<Tree> {
    seq(|l|, i requires 0 <= i < |l| => l[|l| - 1 - i])
  }

  /** The first of the roots with the least value. */
  ghost predicate FirstLeast(l: seq<Tree>, i: nat) {
    && i < |l|
    && (forall j :: 0 <= j < |l| ==> l[i].val <= l[j].val)
    && (forall j :: 0 <= j < i ==> l[i].val < l[j].val)
  }

  lemma {:induction false} ReversedVals(l: seq<Tree>)
    ensures AllVals(Reversed(l)) == AllVals(l)
  {
    hide Vals;
    if l != [] {
      var r := Reversed(l[1..]);
      ReversedVals(l[1..]);
      assert Reversed(l) == r + [l[0]];
      hide Reversed;
      ValsConcat(r, [l[0]]);
      ValsOne(l[0]);
      ValsHead(l);
    }
  }

  lemma {:induction false} WithoutVals(l: seq<Tree>, i: nat)
    requires i < |l|
    ensures AllVals(l) == AllVals(Without(l, i)) + Vals(l[i])
  {
    hide Vals, AllVals;
    assert l == l[..i] + [l[i]] + l[i + 1..];
    ValsConcat(l[..i] + [l[i]], l[i + 1..]);
    ValsConcat(l[..i], [l[i]]);
    ValsConcat(l[..i], l[i + 1..]);
    ValsOne(l[i]);
  }

  lemma ReversedHeap(t: Tree)
    requires Binomial(t)
    ensures Heap(Reversed(t.kids))
  {
  }

  lemma WithoutHeap(l: seq<Tree>, i: nat)
    requires Heap(l) && i < |l|
    ensures Heap(Without(l, i))
  {
    hide Binomial;
    var w := Without(l, i);
    assert forall j :: 0 <= j < |w| ==> w[j] == l[if j < i then j else j + 1];
  }

  lemma RootVals(t: Tree)
    ensures Vals(t) == multiset{t.val} + AllVals(t.kids) && (t.kids == [] ==> AllVals(t.kids) == multiset{})
  {
  }

  /** Taking out the least root leaves a heap without one least value. Such a root without children
      is the first one. */
  lemma {:induction false} ExtractKeeps(l: seq<Tree>, i: nat)
    requires Heap(l) && FirstLeast(l, i)
    ensures var r := Union(Without(l, i), Reversed(l[i].kids));
      Heap(r) && AllVals(r) + multiset{l[i].val} == AllVals(l)
    ensures forall v :: v in AllVals(l) ==> l[i].val <= v
    ensures l[i].kids == [] ==>
              i == 0 && Heap(Without(l, i)) && AllVals(Without(l, i)) + multiset{l[i].val} == AllVals(l)
  {
    assert Binomial(l[i]);
    RootVals(l[i]);
    hide Binomial, Vals, AllVals, Reversed, Without, Union;
    forall v | v in AllVals(l) ensures l[i].val <= v { KidsAreLarger(l, v, l[i].val); }
    WithoutVals(l, i);
    ReversedVals(l[i].kids);
    WithoutHeap(l, i);
    ReversedHeap(l[i]);
    assert i > 0 ==> Deg(l[0]) < Deg(l[i]);
    hide Heap, FirstLeast;
    UnionKeeps(Without(l, i), Reversed(l[i].kids));
  }

  /** Without one copy of v, which is a least value, l becomes r. */
  ghost predicate TakesLeast(l: seq<Tree>, v: int, r: seq<Tree>) {
    Heap(r) && AllVals(r) + multiset{v} == AllVals(l) && forall x :: x in AllVals(l) ==> v <= x
  }

  lemma ExtractTakes(l: seq<Tree>, i: nat)
    requires Heap(l) && FirstLeast(l, i)
    ensures TakesLeast(l, l[i].val,
                       if l[i].kids == [] then Without(l, i) else Union(Without(l, i), Reversed(l[i].kids)))
  {
    ExtractKeeps(l, i);
  }

  lemma SingleHeap(n: Node, v: int)
    ensures Heap([Tree(n, v, [])]) && AllVals([Tree(n, v, [])]) == multiset{v}
  {
    ValsOne(Tree(n, v, []));
  }

  lemma LeastOfAll(l: seq<Tree>, i: nat)
    requires Heap(l) && FirstLeast(l, i)
    ensures l[i].val in AllVals(l) && forall v :: v in AllVals(l) ==> l[i].val <= v
  {
    ExtractKeeps(l, i);
    WithoutVals(l, i);
    assert l[i].val in Vals(l[i]);
  }

  // ----- what the pointers say -----

  function Below(t: Tree): set<Node>
    decreases t
  {
    {t.n} + Inside(t.kids)
  }

  function Inside(l: seq<Tree>): set<Node>
    decreases l
  {
    if l == [] then {} else Below(l[0]) + Inside(l[1..])
  }

  /** All nodes are different ones. */
  ghost predicate Apart(l: seq<Tree>)
    decreases l
  {
    l != [] ==>
      && l[0].n !in Inside(l[0].kids) && Apart(l[0].kids)
      && Below(l[0]) !! Inside(l[1..]) && Apart(l[1..])
  }

  function First(l: seq<Tree>, after: Node?): Node? {
    if l == [] then after else l[0].n
  }

  /** A node's value, degree and children, and everything below it. */
  ghost predicate Core(t: Tree)
    reads t.n`val, t.n`deg, t.n`lChild, Inside(t.kids)
    decreases t, 0
  {
    t.n.val == t.val && t.n.deg == |t.kids| && Row(t.kids, t.n.lChild, null, t.n)
  }

  ghost predicate Own(t: Tree, par: Node?)
    reads t.n`val, t.n`deg, t.n`par, t.n`lChild, Inside(t.kids)
    decreases t, 1
  {
    t.n.par == par && Core(t)
  }

  /** Siblings from first on, up to after. */
  ghost predicate Row(l: seq<Tree>, first: Node?, after: Node?, par: Node?)
    reads Inside(l)
    decreases l
  {
    if l == [] then first == after
    else
      assert Below(l[0]) == {l[0].n} + Inside(l[0].kids);
      first == l[0].n && Own(l[0], par) && Row(l[1..], l[0].n.rSib, after, par)
  }

  lemma {:induction false} InsideConcat(a: seq<Tree>, b: seq<Tree>)
    ensures Inside(a + b) == Inside(a) + Inside(b)
    ensures Apart(a + b) <==> Apart(a) && Apart(b) && Inside(a) !! Inside(b)
  {
    hide Below;
    if a == [] {
      assert a + b == b;
    } else {
      assert (a + b)[0] == a[0] && (a + b)[1..] == a[1..] + b;
      InsideConcat(a[1..], b);
    }
  }

  lemma {:induction false} RowConcat(a: seq<Tree>, b: seq<Tree>, first: Node?, after: Node?, par: Node?)
    ensures Row(a + b, first, after, par) <==>
              Row(a, first, First(b, after), par) && Row(b, First(b, after), after, par)
    decreases a
  {
    if a == [] {
      assert a + b == b;
    } else {
      assert (a + b)[0] == a[0] && (a + b)[1..] == a[1..] + b;
      RowConcat(a[1..], b, a[0].n.rSib, after, par);
    }
  }

  lemma {:induction false} InsideAt(l: seq<Tree>, i: nat)
    requires i < |l|
    ensures Below(l[i]) <= Inside(l) && l[i].n in Inside(l)
  {
    if i > 0 { InsideAt(l[1..], i - 1); }
  }

  lemma UnfoldList(l: seq<Tree>)
    requires l != []
    ensures Inside(l) == Below(l[0]) + Inside(l[1..]) && l[0].n in Below(l[0])
    ensures Apart(l) ==> Below(l[0]) !! Inside(l[1..]) && Apart(l[1..])
  {
  }

  lemma MergedLeft(done: seq<Tree>, a: seq<Tree>, b: seq<Tree>)
    requires a != [] && (b == [] || Deg(a[0]) <= Deg(b[0]))
    ensures done + Merged(a, b) == (done + [a[0]]) + Merged(a[1..], b)
  {
    assert b == [] ==> Merged(a, b) == [a[0]] + Merged(a[1..], b);
  }

  lemma MergedRight(done: seq<Tree>, a: seq<Tree>, b: seq<Tree>)
    requires b != [] && (a == [] || Deg(a[0]) > Deg(b[0]))
    ensures done + Merged(a, b) == (done + [b[0]]) + Merged(a, b[1..])
  {
    assert a == [] ==> Merged(a, b) == [b[0]] + Merged(a, b[1..]);
  }

  lemma {:induction false} ApartAt(l: seq<Tree>, i: nat, j: nat)
    requires Apart(l) && i < |l| && j < |l|
    ensures l[i].n !in Inside(l[i].kids) && Apart(l[i].kids)
    ensures i != j ==> Below(l[i]) !! Below(l[j])
    decreases |l|
  {
    if i > 0 && j > 0 {
      ApartAt(l[1..], i - 1, j - 1);
    } else if i > 0 {
      ApartAt(l[1..], i - 1, i - 1);
      InsideAt(l[1..], i - 1);
    } else if j > 0 {
      InsideAt(l[1..], j - 1);
    }
  }

  lemma {:induction false} ReversedApart(l: seq<Tree>)
    requires Apart(l)
    ensures Apart(Reversed(l)) && Inside(Reversed(l)) == Inside(l)
  {
    if l != [] {
      UnfoldList(l);
      ReversedApart(l[1..]);
      assert Reversed(l) == Reversed(l[1..]) + [l[0]];
      assert [l[0]][1..] == [];
      InsideConcat(Reversed(l[1..]), [l[0]]);
    }
  }

  /** A row, tree by tree. */
  ghost predicate Stands(l: seq<Tree>, k: nat, after: Node?, par: Node?)
    requires k < |l|
    reads l[k].n, Below(l[k])
  {
    Own(l[k], par) && l[k].n.rSib == if k + 1 < |l| then l[k + 1].n else after
  }

  lemma {:induction false} RowOf(l: seq<Tree>, after: Node?, par: Node?)
    requires forall k :: 0 <= k < |l| ==> Stands(l, k, after, par)
    ensures Row(l, First(l, after), after, par)
  {
    if l != [] {
      var r := l[1..];
      assert Stands(l, 0, after, par);
      forall k | 0 <= k < |r| ensures Stands(r, k, after, par) { assert Stands(l, k + 1, after, par); }
      RowOf(r, after, par);
    }
  }

  lemma {:induction false} RowAt(l: seq<Tree>, first: Node?, after: Node?, par: Node?, k: nat)
    requires Row(l, first, after, par) && k < |l|
    ensures Stands(l, k, after, par) && first == l[0].n
    decreases k
  {
    var r := l[1..];
    assert Own(l[0], par) && Row(r, l[0].n.rSib, after, par);
    if k > 0 {
      RowAt(r, l[0].n.rSib, after, par, k - 1);
      assert r[k - 1] == l[k];
    } else {
      assert r != [] ==> r[0] == l[1];
    }
  }

  lemma StandsReversed(l: seq<Tree>)
    requires l != [] && forall i :: 0 <= i < |l| ==> Core(l[i]) && l[i].n.par == null
    requires l[0].n.rSib == null && forall i :: 1 <= i < |l| ==> l[i].n.rSib == l[i - 1].n
    ensures Row(Reversed(l), l[|l| - 1].n, null, null)
  {
    var r := Reversed(l);
    forall k | 0 <= k < |r| ensures Stands(r, k, null, null) {
      var i := |l| - 1 - k;
      assert r[k] == l[i];
      if k + 1 < |r| { assert r[k + 1] == l[i - 1]; }
    }
    hide Core;
    RowOf(r, null, null);
  }

  /** The roots of a list are different nodes, and none of them lies below one of them. */
  lemma ApartRoots(l: seq<Tree>)
    requires Apart(l)
    ensures forall i, j :: 0 <= i < j < |l| ==> l[i].n != l[j].n
    ensures forall i, j :: 0 <= i < |l| && 0 <= j < |l| ==> l[j].n !in Inside(l[i].kids)
  {
    forall i, j | 0 <= i < j < |l| ensures l[i].n != l[j].n { ApartAt(l, i, j); }
    forall i, j | 0 <= i < |l| && 0 <= j < |l| ensures l[j].n !in Inside(l[i].kids) { ApartAt(l, i, j); }
  }

  lemma {:induction false} WithoutApart(l: seq<Tree>, i: nat)
    requires Apart(l) && i < |l|
    ensures Apart(Without(l, i)) && Inside(Without(l, i)) == Inside(l) - Below(l[i]) && Below(l[i]) <= Inside(l)
  {
    hide Below;
    var a, t, b := l[..i], l[i..i + 1], l[i + 1..];
    assert l == a + (t + b) && t == [l[i]] && t[1..] == [];
    InsideConcat(a, t + b);
    InsideConcat(t, b);
    InsideConcat(a, b);
  }

  lemma LinkedInside(c: Tree, p: Tree)
    requires Apart([c]) && Apart([p]) && Below(c) !! Below(p)
    ensures Below(Linked(c, p)) == Below(c) + Below(p) && Apart([Linked(c, p)]) && Apart([c, p])
  {
    assert ([c] + p.kids)[1..] == p.kids && [c, p][1..] == [p] && [p][1..] == [] && [c][1..] == [];
    assert [Linked(c, p)][1..] == [];
  }

  lemma One(t: Tree)
    ensures Inside([t]) == Below(t) == {t.n} + Inside(t.kids)
    ensures Apart([t]) <==> t.n !in Inside(t.kids) && Apart(t.kids)
  {
    assert [t][1..] == [];
  }

  lemma RowOne(t: Tree, par: Node?)
    ensures Row([t], t.n, t.n.rSib, par) <==> Own(t, par)
  {
    assert [t][1..] == [];
  }

  lemma RowEmpty(l: seq<Tree>, first: Node?)
    requires Row(l, first, null, null)
    ensures first == null <==> l == []
  {
  }

  class BHeap {
    var head: Node?
    ghost var list: seq<Tree>
    ghost var nodes: set<Node>

    constructor ()
      ensures Valid() && list == [] && fresh(nodes)
    {
      head := null;
      list := [];
      nodes := {};
    }

    ghost predicate Valid()
      reads this, nodes, Inside(list)
    {
      nodes == Inside(list) && Apart(list) && Row(list, head, null, null)
    }

    /** Makes the root c the first child of the root p. */
    static method BTreeLink(c: Node, p: Node, ghost tc: Tree, ghost tp: Tree) returns (r: Node?)
      requires tc.n == c && tp.n == p && Own(tc, null) && Own(tp, null) && Apart([tc, tp])
      modifies c, p
      ensures r == if Deg(tc) == Deg(tp) then p else null
      ensures p.rSib == old(p.rSib)
      ensures if Deg(tc) == Deg(tp) then Own(Linked(tc, tp), null)
              else Own(tc, null) && Own(tp, null) && c.rSib == old(c.rSib)
    {
      assert [tc, tp][1..] == [tp] && [tp][1..] == [];
      if c.deg != p.deg {
        return null;
      }
      c.par := p;
      c.rSib := p.lChild;
      p.lChild := c;
      p.deg := p.deg + 1;
      assert ([tc] + tp.kids)[1..] == tp.kids;
      assert Own(tc, p);
      assert Core(Linked(tc, tp));
      return p;
    }

    /** The last of some siblings now points to d. */
    static method Point(q: Node, d: Node?, ghost l: seq<Tree>, ghost first: Node?, ghost after: Node?)
      requires l != [] && q == l[|l| - 1].n && Apart(l) && Row(l, first, after, null)
      modifies q`rSib
      ensures Row(l, first, d, null)
    {
      ghost var i, z := l[..|l| - 1], l[|l| - 1..];
      assert l == i + z && z[0] == l[|l| - 1] && z[1..] == [];
      InsideConcat(i, z);
      RowConcat(i, z, first, after, null);
      assert q in Inside(z);
      q.rSib := d;
      assert Row(i, first, q, null);
      assert Own(z[0], null);
      assert Row(z, q, d, null);
      RowConcat(i, z, first, d, null);
    }

    static lemma RowHead(l: seq<Tree>, k: nat, p: Node?)
      requires k <= |l| && Row(l[k..], p, null, null)
      ensures p == null <==> k == |l|
      ensures p != null ==> p == l[k].n && Row(l[k + 1..], p.rSib, null, null) && Own(l[k], null)
    {
      if k < |l| { assert l[k..][0] == l[k] && l[k..][1..] == l[k + 1..]; }
    }

    /** The walk to the last root. */
    method Last() returns (q: Node)
      requires Valid() && head != null
      ensures list != [] && q == list[|list| - 1].n && q in nodes
    {
      q := head;
      ghost var i := 0;
      assert list[0..] == list;
      while q.rSib != null
        invariant 0 <= i < |list| && q == list[i].n && Row(list[i..], q, null, null)
        decreases |list| - i
      {
        RowHead(list, i, q);
        RowHead(list, i + 1, q.rSib);
        q := q.rSib;
        i := i + 1;
      }
      RowHead(list, i, q);
      RowHead(list, i + 1, null);
      InsideAt(list, i);
    }

    /** Appends a tree at the end of the list. */
    method Add(d: Node, ghost t: Tree, ghost all: set<Node>)
      requires Valid() && t.n == d && Own(t, null) && Apart([t]) && all == Below(t) && all !! nodes
      modifies this, nodes`rSib, d`rSib
      ensures Valid() && list == old(list) + [t] && nodes == old(nodes) + Below(t)
    {
      One(t);
      InsideConcat(list, [t]);
      if head == null {
        RowEmpty(list, head);
        head := d;
        d.rSib := null;
        RowOne(t, null);
        assert list + [t] == [t];
      } else {
        var q := Last();
        AddLast(q, d, t, all);
      }
      list := list + [t];
      nodes := nodes + all;
    }

    method AddLast(q: Node, d: Node, ghost t: Tree, ghost all: set<Node>)
      requires list != [] && Row(list, head, null, null) && Apart(list) && q == list[|list| - 1].n
      requires t.n == d && Own(t, null) && all == Below(t) == {d} + Inside(t.kids) && d !in Inside(t.kids)
      requires nodes == Inside(list) && nodes !! all && q in nodes
      modifies q`rSib, d`rSib
      ensures Row(list + [t], head, null, null)
    {
      Point(q, d, list, head, null);
      assert Own(t, null);
      d.rSib := null;
      RowOne(t, null);
      RowConcat(list, [t], head, null, null);
    }

    /** One step of the merging loops: the first root of a list goes to the end of this one. */
    method TakeFirst(n: Node, ghost l: seq<Tree>, ghost all: set<Node>) returns (next: Node?)
      requires Valid() && l != [] && Row(l, n, null, null) && Apart(l) && Inside(l) <= all && Inside(l) !! nodes
      modifies this, nodes`rSib, n`rSib
      ensures Valid() && list == old(list) + [l[0]] && nodes == old(nodes) + Below(l[0])
      ensures Row(l[1..], next, null, null)
    {
      next := n.rSib;
      assert Below(l[0]) == {n} + Inside(l[0].kids);
      ghost var own := set x | x in all && x in Below(l[0]);
      assert own == Below(l[0]);
      assert [l[0]][1..] == [];
      Add(n, l[0], own);
    }

    /** h holds what has been taken, a and b are still to come. */
    static ghost predicate Merging(h: BHeap, bh1: BHeap, bh2: BHeap, n1: Node?, n2: Node?, a: seq<Tree>, b: seq<Tree>)
      reads h, bh1, bh2, h.nodes, Inside(h.list), Inside(a), Inside(b)
    {
      && h.Valid() && h != bh1 && h != bh2 && bh1.nodes !! bh2.nodes
      && Row(a, n1, null, null) && Row(b, n2, null, null) && Apart(a) && Apart(b)
      && Inside(a) <= bh1.nodes && Inside(b) <= bh2.nodes && h.nodes !! Inside(a) && h.nodes !! Inside(b)
      && h.nodes + Inside(a) + Inside(b) == bh1.nodes + bh2.nodes
      && h.list + Merged(a, b) == Merged(bh1.list, bh2.list)
    }

    /** The next root comes from the first heap. */
    static method TakeLeft(h: BHeap, bh1: BHeap, bh2: BHeap, n1: Node, ghost n2: Node?, ghost a: seq<Tree>,
        ghost b: seq<Tree>)
      returns (next: Node?)
      requires Merging(h, bh1, bh2, n1, n2, a, b) && a != [] && (b == [] || Deg(a[0]) <= Deg(b[0]))
      modifies h, h.nodes`rSib, n1`rSib
      ensures Merging(h, bh1, bh2, next, n2, a[1..], b)
    {
      MergedLeft(h.list, a, b);
      UnfoldList(a);
      next := h.TakeFirst(n1, a, bh1.nodes);
    }

    static method TakeRight(h: BHeap, bh1: BHeap, bh2: BHeap, ghost n1: Node?, n2: Node, ghost a: seq<Tree>,
        ghost b: seq<Tree>)
      returns (next: Node?)
      requires Merging(h, bh1, bh2, n1, n2, a, b) && b != [] && (a == [] || Deg(a[0]) > Deg(b[0]))
      modifies h, h.nodes`rSib, n2`rSib
      ensures Merging(h, bh1, bh2, n1, next, a, b[1..])
    {
      MergedRight(h.list, a, b);
      UnfoldList(b);
      next := h.TakeFirst(n2, b, bh2.nodes);
    }

    /** All roots of both heaps in one list, in order of their degrees. */
    static method Merge(bh1: BHeap, bh2: BHeap) returns (h: BHeap)
      requires bh1.Valid() && bh2.Valid() && bh1.nodes !! bh2.nodes
      modifies bh1.nodes`rSib, bh2.nodes`rSib
      ensures fresh(h) && h.Valid() && h.list == Merged(bh1.list, bh2.list) && h.nodes == bh1.nodes + bh2.nodes
    {
      h := new BHeap();
      var n1, n2 := bh1.head, bh2.head;
      ghost var a, b := bh1.list, bh2.list;
      while n1 != null && n2 != null
        invariant fresh(h) && Merging(h, bh1, bh2, n1, n2, a, b)
        decreases |a| + |b|
      {
        Heads(h, bh1, bh2, n1, n2, a, b);
        if n1.deg <= n2.deg {
          n1 := TakeLeft(h, bh1, bh2, n1, n2, a, b);
          a := a[1..];
        } else {
          n2 := TakeRight(h, bh1, bh2, n1, n2, a, b);
          b := b[1..];
        }
      }
      while n1 != null
        invariant fresh(h) && Merging(h, bh1, bh2, n1, n2, a, b) && (n1 == null || n2 == null)
        decreases |a|
      {
        Heads(h, bh1, bh2, n1, n2, a, b);
        n1 := TakeLeft(h, bh1, bh2, n1, n2, a, b);
        a := a[1..];
      }
      while n2 != null
        invariant fresh(h) && Merging(h, bh1, bh2, n1, n2, a, b) && n1 == null
        decreases |b|
      {
        Heads(h, bh1, bh2, n1, n2, a, b);
        n2 := TakeRight(h, bh1, bh2, n1, n2, a, b);
        b := b[1..];
      }
      Heads(h, bh1, bh2, n1, n2, a, b);
    }

    static lemma Heads(h: BHeap, bh1: BHeap, bh2: BHeap, n1: Node?, n2: Node?, a: seq<Tree>, b: seq<Tree>)
      requires Merging(h, bh1, bh2, n1, n2, a, b)
      ensures n1 == null <==> a == []
      ensures n2 == null <==> b == []
      ensures n1 != null ==> n1.deg == Deg(a[0]) && n1 in bh1.nodes
      ensures n2 != null ==> n2.deg == Deg(b[0]) && n2 in bh2.nodes
      ensures a == b == [] ==> h.Valid() && h.list == Merged(bh1.list, bh2.list) && h.nodes == bh1.nodes + bh2.nodes
    {
      assert a != [] ==> Own(a[0], null) && Core(a[0]);
      assert b != [] ==> Own(b[0], null) && Core(b[0]);
    }

    /** The loop of union: done lies behind cur, whose tree is c, and rest from next on. */
    ghost predicate Uniting(prev: Node?, cur: Node, next: Node?, done: seq<Tree>, c: Tree, rest: seq<Tree>)
      reads this, cur, nodes, c.n, Below(c), Inside(done), Inside(rest)
    {
      && nodes == Inside(done) + Below(c) + Inside(rest)
      && Apart(done) && Apart([c]) && Apart(rest)
      && Inside(done) !! Below(c) && Inside(done) !! Inside(rest) && Below(c) !! Inside(rest)
      && c.n == cur && cur.rSib == next && prev == (if done == [] then null else done[|done| - 1].n)
      && Row(done, head, cur, null) && Own(c, null) && Row(rest, next, null, null)
    }

    /** The current tree is linked below the next one, or the next one below it. */
    method LinkNext(prev: Node?, cur: Node, next: Node, ghost done: seq<Tree>, ghost c: Tree, ghost rest: seq<Tree>)
      requires Uniting(prev, cur, next, done, c, rest) && rest != [] && Deg(c) == Deg(rest[0])
      modifies nodes
      ensures Uniting(prev, cur, cur.rSib, done, Linked(rest[0], c), rest[1..])
    {
      cur.rSib := next.rSib;
      var _ := BTreeLink(next, cur, rest[0], c);
    }

    /** The pointer to the current root, in the previous one or in head, now goes to the next one. */
    method Bypass(prev: Node?, cur: Node, next: Node, ghost done: seq<Tree>)
      requires Apart(done) && Row(done, head, cur, null) && prev == if done == [] then null else done[|done| - 1].n
      modifies this`head, (if prev == null then {} else {prev})`rSib
      ensures Row(done, head, next, null)
    {
      if prev == null {
        head := next;
      } else {
        Point(prev, next, done, head, cur);
      }
    }

    method LinkCurrent(prev: Node?, cur: Node, next: Node, ghost done: seq<Tree>, ghost c: Tree, ghost rest: seq<Tree>)
      requires Uniting(prev, cur, next, done, c, rest) && rest != [] && Deg(c) == Deg(rest[0])
      modifies this`head, nodes
      ensures Uniting(prev, next, next.rSib, done, Linked(c, rest[0]), rest[1..])
    {
      UnfoldList(rest);
      if done != [] { InsideAt(done, |done| - 1); }
      LinkedInside(c, rest[0]);
      One(c);
      One(rest[0]);
      assert Own(rest[0], null) && Row(rest[1..], next.rSib, null, null);
      Bypass(prev, cur, next, done);
      assert Own(c, null) && Own(rest[0], null) && Row(rest[1..], next.rSib, null, null);
      var _ := BTreeLink(cur, next, c, rest[0]);
    }

    lemma Advance(prev: Node?, cur: Node, next: Node, done: seq<Tree>, c: Tree, rest: seq<Tree>)
      requires Uniting(prev, cur, next, done, c, rest) && rest != []
      ensures Uniting(cur, next, next.rSib, done + [c], rest[0], rest[1..])
    {
      UnfoldList(rest);
      assert [c][1..] == [] && rest == [rest[0]] + rest[1..];
      InsideConcat(done, [c]);
      InsideConcat([rest[0]], rest[1..]);
      assert Row([c], cur, next, null);
      RowConcat(done, [c], head, next, null);
    }

    lemma NextDegrees(prev: Node?, cur: Node, next: Node?, done: seq<Tree>, c: Tree, rest: seq<Tree>)
      requires Uniting(prev, cur, next, done, c, rest)
      ensures cur in nodes && cur.deg == Deg(c) && cur.val == c.val && (next == null <==> rest == [])
      ensures next != null ==>
                && next in nodes && next.deg == Deg(rest[0]) && next.val == rest[0].val
                && (next.rSib == null <==> |rest| == 1)
                && (next.rSib != null ==> next.rSib.deg == Deg(rest[1]))
    {
      assert Core(c);
      if rest != [] {
        assert Own(rest[0], null);
        var r := rest[1..];
        assert Row(r, next.rSib, null, null) && Core(rest[0]);
        if r != [] { assert r[0] == rest[1] && Own(r[0], null) && Core(r[0]); }
      }
    }

    /** One turn of union's loop. */
    method UniteStep(prev0: Node?, cur0: Node, next0: Node, ghost done0: seq<Tree>, ghost c0: Tree,
        ghost rest0: seq<Tree>)
      returns (prev: Node?, cur: Node, next: Node?, ghost done: seq<Tree>, ghost c: Tree, ghost rest: seq<Tree>)
      requires Uniting(prev0, cur0, next0, done0, c0, rest0)
      modifies this`head, nodes
      ensures Uniting(prev, cur, next, done, c, rest) && |rest| < |rest0|
      ensures Consolidated(done, c, rest) == Consolidated(done0, c0, rest0)
    {
      NextDegrees(prev0, cur0, next0, done0, c0, rest0);
      prev, cur, done, rest := prev0, cur0, done0, rest0[1..];
      if cur0.deg != next0.deg || (next0.rSib != null && next0.rSib.deg == cur0.deg) {
        Advance(prev0, cur0, next0, done0, c0, rest0);
        done, c := done0 + [c0], rest0[0];
        prev := cur0;
        cur := next0;
      } else if cur0.val <= next0.val {
        LinkNext(prev0, cur0, next0, done0, c0, rest0);
        c := Linked(rest0[0], c0);
      } else {
        LinkCurrent(prev0, cur0, next0, done0, c0, rest0);
        c := Linked(c0, rest0[0]);
        cur := next0;
      }
      next := cur.rSib;
    }

    /** Links roots of equal degree until all degrees differ. */
    method Consolidate()
      requires Valid() && head != null
      modifies this`head, this`list, nodes
      ensures Valid() && old(list) != [] && list == Consolidated([], old(list)[0], old(list)[1..])
    {
      ghost var done, c, rest := [], list[0], list[1..];
      var prev: Node?, cur: Node, next: Node? := null, head, head.rSib;
      StartUniting();
      while next != null
        invariant Uniting(prev, cur, next, done, c, rest)
        invariant Consolidated(done, c, rest) == Consolidated([], old(list)[0], old(list)[1..])
        decreases |rest|
      {
        prev, cur, next, done, c, rest := UniteStep(prev, cur, next, done, c, rest);
      }
      NextDegrees(prev, cur, next, done, c, rest);
      ConsolidatedLast(done, c);
      Finish(prev, cur, done, c);
    }

    /** Joins two heaps, which are used up. */
    static method UnionOf(bh1: BHeap, bh2: BHeap) returns (h: BHeap)
      requires bh1.Valid() && bh2.Valid() && bh1.nodes !! bh2.nodes
      modifies bh1.nodes, bh2.nodes
      ensures fresh(h) && h.Valid() && h.list == Union(bh1.list, bh2.list) && h.nodes == bh1.nodes + bh2.nodes
    {
      h := Merge(bh1, bh2);
      if h.head == null {
        return h;
      }
      h.Consolidate();
    }

    ghost method Finish(prev: Node?, cur: Node, done: seq<Tree>, c: Tree)
      requires Uniting(prev, cur, null, done, c, [])
      modifies this`list
      ensures Valid() && list == done + [c]
    {
      EndUniting(prev, cur, done, c);
      list := done + [c];
    }

    lemma StartUniting()
      requires Valid() && head != null
      ensures list != [] && Uniting(null, head, head.rSib, [], list[0], list[1..])
    {
      UnfoldList(list);
      assert [list[0]][1..] == [];
    }

    lemma EndUniting(prev: Node?, cur: Node, done: seq<Tree>, c: Tree)
      requires Uniting(prev, cur, null, done, c, [])
      ensures nodes == Inside(done + [c]) && Apart(done + [c]) && Row(done + [c], head, null, null)
    {
      assert [c][1..] == [];
      InsideConcat(done, [c]);
      assert Row([c], cur, null, null);
      RowConcat(done, [c], head, null, null);
    }

    /** Adds the node's value; the heap it was called on is used up. */
    static method Insert(h: BHeap, d: Node) returns (r: BHeap)
      requires h.Valid() && d !in h.nodes
      modifies h.nodes, d
      ensures fresh(r) && r.Valid() && r.nodes == h.nodes + {d}
      ensures r.list == Union(h.list, [Tree(d, old(d.val), [])])
      ensures Heap(h.list) ==> Heap(r.list) && AllVals(r.list) == AllVals(h.list) + multiset{old(d.val)}
    {
      var temp := Single(d);
      SingleHeap(d, d.val);
      if Heap(h.list) { UnionKeeps(h.list, temp.list); }
      r := UnionOf(h, temp);
    }

    /** A heap of one node. */
    static method Single(d: Node) returns (temp: BHeap)
      modifies d
      ensures fresh(temp) && temp.Valid() && temp.list == [Tree(d, d.val, [])] && temp.nodes == {d}
      ensures d.val == old(d.val)
    {
      temp := new BHeap();
      d.par := null;
      d.rSib := null;
      d.deg := 0;
      d.lChild := null;
      temp.head := d;
      temp.list, temp.nodes := [Tree(d, d.val, [])], {d};
      One(temp.list[0]);
      assert Core(temp.list[0]);
      RowOne(temp.list[0], null);
    }

    /** The least value, or -1 for an empty heap. */
    method FindMin() returns (min: int)
      requires Valid()
      ensures list == [] ==> min == -1
      ensures list != [] ==> exists i: nat :: FirstLeast(list, i) && min == list[i].val
      ensures Heap(list) && list != [] ==> min in AllVals(list) && forall v :: v in AllVals(list) ==> min <= v
    {
      var q := head;
      if q == null {
        return -1;
      }
      min := q.val;
      ghost var i: nat, k: nat := 0, 0;
      assert Own(list[0], null) && Core(list[0]);
      while q != null
        invariant 0 <= i < |list| && i <= k <= |list| && min == list[i].val && Row(list[k..], q, null, null)
        invariant forall j :: 0 <= j < k ==> min <= list[j].val
        invariant forall j :: 0 <= j < i ==> min < list[j].val
        decreases |list| - k
      {
        assert list[k..][0] == list[k] && list[k..][1..] == list[k + 1..];
        assert Own(list[k], null) && Core(list[k]);
        if q.val < min {
          min := q.val;
          i := k;
        }
        q := q.rSib;
        k := k + 1;
      }
      assert FirstLeast(list, i);
      if Heap(list) { LeastOfAll(list, i); }
    }

    /** The first j links between children have been turned around. */
    static ghost predicate Turning(k: seq<Tree>, j: nat, roots: set<Node>)
      requires j < |k|
      reads roots, set t | t in k :: t.n, Inside(k)
    {
      && (forall i :: 0 <= i < |k| ==> k[i].n in roots)
      && (forall i :: 0 <= i < |k| ==> Inside(k[i].kids) <= Inside(k))
      && (forall i :: 0 <= i < |k| ==> Core(k[i]))
      && (forall i :: 0 <= i < j ==> k[i].n.par == null)
      && (forall i :: 1 <= i <= j ==> k[i].n.rSib == k[i - 1].n)
      && (forall i :: j < i < |k| ==> k[i].n.rSib == if i + 1 < |k| then k[i + 1].n else null)
    }

    /** One turn of the reversing loop: the next child points back. */
    static method TurnNext(t1: Node, t2: Node, ghost k: seq<Tree>, ghost j: nat, ghost roots: set<Node>)
      returns (t3: Node?)
      requires j + 1 < |k| && t1 == k[j].n && t2 == k[j + 1].n && Turning(k, j, roots)
      requires forall a, b :: 0 <= a < b < |k| ==> k[a].n != k[b].n
      requires forall i :: 0 <= i < |k| ==> Inside(k[i].kids) !! roots
      modifies t1`par, t2`rSib
      ensures Turning(k, j + 1, roots) && t3 == if j + 2 < |k| then k[j + 2].n else null
    {
      t1.par := null;
      t3 := t2.rSib;
      t2.rSib := t1;
      forall i | 0 <= i < |k| ensures Core(k[i]) {}
    }

    /** After the loop the old first child becomes the last of the list. */
    static method TurnLast(t0: Node, t1: Node, ghost k: seq<Tree>, ghost roots: set<Node>)
      requires k != [] && t0 == k[0].n && t1 == k[|k| - 1].n && Turning(k, |k| - 1, roots)
      requires forall a, b :: 0 <= a < b < |k| ==> k[a].n != k[b].n
      requires forall i :: 0 <= i < |k| ==> Inside(k[i].kids) !! roots
      modifies t0`par, t0`rSib, t1`par
      ensures Row(Reversed(k), t1, null, null)
    {
      t0.par := null;
      t0.rSib := null;
      t1.par := null;
      forall i | 0 <= i < |k| ensures Core(k[i]) {}
      StandsReversed(k);
    }

    static lemma BackLink(k: seq<Tree>, j: nat, roots: set<Node>)
      requires 0 < j < |k| && Turning(k, j, roots)
      ensures k[j].n.rSib == k[j - 1].n
    {
    }

    static lemma StartTurning(m: Node, k: seq<Tree>, roots: set<Node>)
      requires k != [] && Apart(k) && Row(k, m.lChild, null, m)
      requires roots == set n | n in Inside(k) && exists i :: 0 <= i < |k| && k[i].n == n
      ensures Turning(k, 0, roots) && roots <= Inside(k) && m.lChild == k[0].n
      ensures forall a, b :: 0 <= a < b < |k| ==> k[a].n != k[b].n
      ensures forall i :: 0 <= i < |k| ==> Inside(k[i].kids) !! roots && k[i].n in Inside(k)
      ensures k[0].n.rSib == if |k| > 1 then k[1].n else null
    {
      ApartRoots(k);
      forall i | 0 <= i < |k|
        ensures Core(k[i]) && k[i].n in Inside(k) && Inside(k[i].kids) <= Inside(k)
        ensures k[i].n.rSib == if i + 1 < |k| then k[i + 1].n else null
      {
        RowAt(k, m.lChild, null, m, i);
        InsideAt(k, i);
      }
    }

    /** The list of children, turned around: it becomes a list of roots. */
    static method ReverseKids(m: Node, ghost k: seq<Tree>, ghost all: set<Node>) returns (first: Node)
      requires k != [] && Apart(k) && Row(k, m.lChild, null, m) && all == Inside(k) && m !in all
      modifies all
      ensures Row(Reversed(k), first, null, null)
    {
      ghost var roots := set n | n in all && exists i :: 0 <= i < |k| && k[i].n == n;
      StartTurning(m, k, roots);
      var t1 := TurnAll(m, k, roots);
      TurnLast(m.lChild, t1, k, roots);
      first := t1;
    }

    /** The reversing loop. */
    static method TurnAll(m: Node, ghost k: seq<Tree>, ghost roots: set<Node>) returns (t1: Node)
      requires k != [] && Turning(k, 0, roots) && m.lChild == k[0].n && m !in roots
      requires k[0].n.rSib == if |k| > 1 then k[1].n else null
      requires forall a, b :: 0 <= a < b < |k| ==> k[a].n != k[b].n
      requires forall i :: 0 <= i < |k| ==> Inside(k[i].kids) !! roots
      modifies roots`par, roots`rSib
      ensures t1 == k[|k| - 1].n && Turning(k, |k| - 1, roots)
    {
      t1 := m.lChild;
      var t2 := t1.rSib;
      ghost var j := 0;
      while t1.rSib != null && t2 != null
        invariant 0 <= j < |k| && t1 == k[j].n && t2 == (if j + 1 < |k| then k[j + 1].n else null)
        invariant (t2 != null ==> t1.rSib != null) && Turning(k, j, roots)
        decreases |k| - j
      {
        var t3 := TurnNext(t1, t2, k, j, roots);
        BackLink(k, j + 1, roots);
        t1 := t2;
        t2 := t3;
        j := j + 1;
      }
    }

    /** The pointer to a root now goes to the root behind it. */
    method Skip(q: Node, p: Node, ghost i: nat)
      requires Valid() && 0 < i < |list| && q == list[i - 1].n && p == list[i].n
      modifies q`rSib
      ensures Row(Without(list, i), head, null, null) && Row(list[i + 1..], p.rSib, null, null)
      ensures Core(list[i]) && p.par == null && p.rSib == old(p.rSib)
    {
      ghost var a, b := list[..i], list[i + 1..];
      Beside(i);
      Point(q, p.rSib, a, head, p);
      RowConcat(a, b, head, null, null);
    }

    /** What stands before a root, and what behind it. */
    lemma Beside(i: nat)
      requires Valid() && 0 < i < |list|
      ensures var a, p, b := list[..i], list[i].n, list[i + 1..];
        && Without(list, i) == a + b && Apart(a) && Row(a, head, p, null) && a[|a| - 1] == list[i - 1]
        && Row(b, p.rSib, null, null) && First(b, null) == p.rSib && Own(list[i], null) && Core(list[i])
        && a[|a| - 1].n in Inside(a) && Inside(a) !! Inside(b) && Inside(a) !! Below(list[i])
        && Inside(a) <= nodes && Inside(b) <= nodes && Below(list[i]) <= nodes && p in Below(list[i])
    {
      var a, t, b := list[..i], [list[i]], list[i + 1..];
      assert list == a + (t + b);
      InsideConcat(a, t + b);
      InsideConcat(t, b);
      One(list[i]);
      RowConcat(a, t + b, head, null, null);
      RowConcat(t, b, list[i].n, null, null);
      RowAt(list, head, null, null, i);
      InsideAt(a, |a| - 1);
    }

    lemma SameRoot(i: nat, k: nat)
      requires Apart(list) && i < |list| && k < |list| && list[i].n == list[k].n
      ensures i == k
    {
      ApartRoots(list);
    }

    /** The loop that unlinks a root behind the first one. */
    method UnlinkLater(mNode: Node, ghost i: nat)
      requires Valid() && 0 < i < |list| && mNode == list[i].n
      modifies nodes`rSib
      ensures Row(Without(list, i), head, null, null)
      ensures Own(list[i], null) && mNode.rSib == old(mNode.rSib)
    {
      RowAt(list, head, null, null, i);
      InsideAt(list, 0);
      assert list[0..] == list;
      RowHead(list, 0, head);
      var q, p := head, head.rSib;
      ghost var k := 1;
      while p != null
        invariant 1 <= k <= |list| && q == list[k - 1].n && q in nodes && Row(list[k..], p, null, null)
        invariant if k <= i then Valid() else Row(Without(list, i), head, null, null)
        invariant Own(list[i], null) && mNode.rSib == old(mNode.rSib)
        decreases |list| - k
      {
        RowHead(list, k, p);
        InsideAt(list, k);
        if mNode == p {
          SameRoot(i, k);
          Skip(q, p, i);
        }
        q := p;
        p := p.rSib;
        k := k + 1;
      }
      RowHead(list, k, p);
    }

    /** Takes a root out of the list. */
    method Unlink(mNode: Node, ghost i: nat)
      requires Valid() && i < |list| && mNode == list[i].n
      modifies this, nodes`rSib
      ensures Valid() && list == Without(old(list), i) && nodes == old(nodes) - Below(old(list[i]))
      ensures Own(old(list[i]), null) && mNode.rSib == old(mNode.rSib)
    {
      WithoutApart(list, i);
      if mNode == head {
        AtHead(i);
        head := head.rSib;
      } else {
        NotAtHead(i);
        UnlinkLater(mNode, i);
      }
      nodes := nodes - Below(list[i]);
      list := Without(list, i);
    }

    lemma AtHead(i: nat)
      requires Valid() && i < |list| && list[i].n == head
      ensures Row(Without(list, i), head.rSib, null, null) && Own(list[i], null)
    {
      assert list[0..] == list;
      RowHead(list, 0, head);
      SameRoot(i, 0);
      assert Without(list, 0) == list[1..];
    }

    lemma NotAtHead(i: nat)
      requires Valid() && i < |list| && list[i].n != head
      ensures i > 0
    {
    }

    /** The first root with the least value. */
    method LeastRoot() returns (mNode: Node, ghost i: nat)
      requires Valid() && list != []
      ensures FirstLeast(list, i) && mNode == list[i].n && mNode in nodes
    {
      RowAt(list, head, null, null, 0);
      InsideAt(list, 0);
      assert list[0..] == list && Core(list[0]);
      mNode, i := head, 0;
      var minVal, ctr: Node? := head.val, head;
      ghost var k := 0;
      while ctr != null
        invariant 0 <= i < |list| && i <= k <= |list| && minVal == list[i].val && mNode == list[i].n && mNode in nodes
        invariant Row(list[k..], ctr, null, null)
        invariant forall j :: 0 <= j < k ==> minVal <= list[j].val
        invariant forall j :: 0 <= j < i ==> minVal < list[j].val
        decreases |list| - k
      {
        RowHead(list, k, ctr);
        InsideAt(list, k);
        assert Core(list[k]);
        if ctr.val < minVal {
          minVal := ctr.val;
          mNode := ctr;
          i := k;
        }
        ctr := ctr.rSib;
        k := k + 1;
      }
      RowHead(list, k, ctr);
    }

    /** The children of an unlinked root become a heap of their own, which is joined to the rest. */
    static method JoinKids(h: BHeap, m: Node, ghost k: seq<Tree>, ghost all: set<Node>) returns (r: BHeap)
      requires h.Valid() && k != [] && Apart(k) && Row(k, m.lChild, null, m) && all == Inside(k)
      requires m !in all && h.nodes !! all
      modifies h.nodes, all
      ensures fresh(r) && r.Valid() && r.nodes == h.nodes + all && r.list == Union(h.list, Reversed(k))
    {
      ReversedApart(k);
      var first := ReverseKids(m, k, all);
      var temp := new BHeap();
      temp.head := first;
      temp.list, temp.nodes := Reversed(k), all;
      r := UnionOf(h, temp);
    }

    /** What extracting root i needs to know before it changes anything. */
    lemma BeforeExtract(i: nat, kids: set<Node>)
      requires Valid() && Heap(list) && FirstLeast(list, i)
      requires kids == set n | n in nodes && n in Inside(list[i].kids)
      ensures var t := list[i];
        && kids == Inside(t.kids) && Below(t) == {t.n} + kids && Below(t) <= nodes && t.n !in kids && Apart(t.kids)
      ensures list[i].kids == [] ==> i == 0 && list[i].n.rSib == First(Without(list, i), null)
    {
      ExtractKeeps(list, i);
      WithoutApart(list, i);
      ApartAt(list, i, i);
      RowAt(list, head, null, null, i);
      assert i == 0 ==> Without(list, i) == list[1..];
    }

    lemma HeadIsFirst()
      requires Valid()
      ensures head == First(list, null)
    {
    }

    static lemma OwnFields(t: Tree)
      requires Own(t, null)
      ensures t.n.val == t.val && Row(t.kids, t.n.lChild, null, t.n) && (t.n.lChild == null <==> t.kids == [])
    {
    }

    /** Takes a least value out. The pointer to the heap is replaced by r. */
    static method ExtractMin(h: BHeap) returns (m: Node, r: BHeap, ghost i: nat)
      requires h.Valid() && h.list != [] && Heap(h.list)
      modifies h, h.nodes
      ensures FirstLeast(old(h.list), i) && m == old(h.list)[i].n && m.val == old(h.list)[i].val
      ensures r.Valid() && r.nodes == old(h.nodes) - {m} && (r == h || fresh(r))
      ensures var l := old(h.list);
        r.list == if l[i].kids == [] then Without(l, i) else Union(Without(l, i), Reversed(l[i].kids))
      ensures TakesLeast(old(h.list), m.val, r.list)
    {
      m, i := h.LeastRoot();
      ghost var t := h.list[i];
      ghost var kids := set n | n in h.nodes && n in Inside(t.kids);
      h.BeforeExtract(i, kids);
      ExtractTakes(h.list, i);
      h.Unlink(m, i);
      OwnFields(t);
      var t1 := m.lChild;
      if t1 == null {
        h.HeadIsFirst();
        h.head := m.rSib;
        r := h;
      } else {
        r := JoinKids(h, m, t.kids, kids);
      }
    }
  }
}
