/** The trees a B-tree's memory stands for, and what its operations make of them. */
module BTreeSpec {

  const N: nat := 6
  const MIN_CHILD: nat := 3

  datatype Tree = Tree(leaf: bool, keys: seq<int>, kids: seq<Tree>)

  // ----- sequences of keys -----

  ghost predicate Sorted(s: seq<int>) {
    forall i, j :: 0 <= i < j < |s| ==> s[i] <= s[j]
  }

  ghost predicate AllAtMost(a: seq<int>, b: seq<int>) {
    forall i, j :: 0 <= i < |a| && 0 <= j < |b| ==> a[i] <= b[j]
  }

  lemma {:induction false} SortedConcat(a: seq<int>, b: seq<int>)
    ensures Sorted(a + b) <==> Sorted(a) && Sorted(b) && AllAtMost(a, b)
  {
    var s := a + b;
    assert forall i :: 0 <= i < |a| ==> a[i] == s[i];
    assert forall i :: 0 <= i < |b| ==> b[i] == s[|a| + i];
  }

  lemma {:induction false} SortedParts(a: seq<int>, b: seq<int>, c: seq<int>)
    requires Sorted(a + b + c)
    ensures Sorted(a) && Sorted(b) && Sorted(c) && AllAtMost(a, b) && AllAtMost(b, c) && AllAtMost(a, c)
  {
    SortedConcat(a + b, c);
    SortedConcat(a, b);
    assert forall i :: 0 <= i < |a| ==> a[i] == (a + b)[i];
    assert forall i :: 0 <= i < |b| ==> b[i] == (a + b)[|a| + i];
  }

  lemma {:induction false} SortedJoin(a: seq<int>, b: seq<int>, c: seq<int>)
    requires Sorted(a) && Sorted(b) && Sorted(c) && AllAtMost(a, b) && AllAtMost(b, c) && AllAtMost(a, c)
    ensures Sorted(a + b + c)
  {
    SortedConcat(a, b);
    SortedConcat(a + b, c);
  }

  /** Sorted sequences stay sorted when the part between two others gains a key that lies between
      them. */
  lemma {:induction false} SortedGain(a: seq<int>, s: seq<int>, b: seq<int>, v: int, t: seq<int>)
    requires Sorted(a + s + b) && Sorted(t) && Adds(s, v, t) && AllAtMost(a, [v]) && AllAtMost([v], b)
    ensures Sorted(a + t + b)
  {
    SortedParts(a, s, b);
    var x, y :| Between(x, y, s, v, t);
    forall j | 0 <= j < |t|
      ensures (forall i :: 0 <= i < |a| ==> a[i] <= t[j]) && (forall i :: 0 <= i < |b| ==> t[j] <= b[i])
    {
      if j == |x| {
        assert t[j] == [v][0];
      } else {
        assert t[j] == s[if j < |x| then j else j - 1];
      }
    }
    SortedJoin(a, t, b);
  }

  lemma {:induction false} AddsSorted(s: seq<int>, v: int, t: seq<int>)
    requires Adds(s, v, t) && Sorted(t)
    ensures Sorted(s)
  {
    var a, b :| Between(a, b, s, v, t);
    SortedParts(a, [v], b);
    SortedConcat(a, b);
  }

  /** Taking any copy of the last key out of a sorted sequence takes out the last one. */
  lemma {:induction false} LastRemoved(s: seq<int>, v: int, t: seq<int>)
    requires Adds(s, v, t) && Sorted(t) && t[|t| - 1] == v
    ensures t == s + [v]
  {
    var a, b :| Between(a, b, s, v, t);
    SortedParts(a, [v], b);
    forall i | 0 <= i < |b| ensures b[i] == v {
      assert b[i] == t[|a| + 1 + i] && b[i] >= [v][0];
      if i < |b| - 1 { assert t[|a| + 1 + i] <= t[|t| - 1]; }
    }
    hide AllAtMost, Sorted;
    assert [v] + b == b + [v];
    assert a + [v] + b == a + ([v] + b) && a + b + [v] == a + (b + [v]);
  }

  lemma {:induction false} FirstRemoved(s: seq<int>, v: int, t: seq<int>)
    requires Adds(s, v, t) && Sorted(t) && t[0] == v
    ensures t == [v] + s
  {
    var a, b :| Between(a, b, s, v, t);
    SortedParts(a, [v], b);
    assert forall i :: 0 <= i < |a| ==> a[i] == t[i];
    assert forall i :: 0 <= i < |a| ==> a[i] <= [v][0] && a[i] >= t[0];
  }

  ghost predicate Between(a: seq<int>, b: seq<int>, s: seq<int>, v: int, t: seq<int>) {
    s == a + b && t == a + [v] + b
  }

  /** t is s with one v more. */
  ghost predicate Adds(s: seq<int>, v: int, t: seq<int>) {
    exists a, b :: Between(a, b, s, v, t)
  }

  lemma {:induction false} AddsInContext(x: seq<int>, s: seq<int>, y: seq<int>, v: int, t: seq<int>)
    requires Adds(s, v, t)
    ensures Adds(x + s + y, v, x + t + y)
  {
    var a, b :| Between(a, b, s, v, t);
    assert (x + a) + (b + y) == x + (a + b) + y;
    assert (x + a) + [v] + (b + y) == x + (a + [v] + b) + y;
    assert Between(x + a, b + y, x + s + y, v, x + t + y);
  }

  lemma {:induction false} AddsOnce(s: seq<int>, v: int, t: seq<int>)
    requires Adds(s, v, t)
    ensures multiset(t) == multiset(s) + multiset{v} && |t| == |s| + 1
  {
  }

  // ----- the keys of a tree in order -----

  ghost function InOrder(t: Tree): seq<int>
    decreases t
  {
    if t.leaf then t.keys else Flat(t.keys, t.kids)
  }

  /** The keys of the children with the node's keys between them. */
  ghost function Flat(keys: seq<int>, kids: seq<Tree>): seq<int>
    decreases kids
  {
    if kids == [] then []
    else if keys == [] || |kids| == 1 then InOrder(kids[0])
    else InOrder(kids[0]) + [keys[0]] + Flat(keys[1..], kids[1..])
  }

  lemma {:induction false} FlatConcat(k1: seq<int>, c1: seq<Tree>, x: int, k2: seq<int>, c2: seq<Tree>)
    requires |c1| == |k1| + 1 && |c2| == |k2| + 1
    ensures Flat(k1 + [x] + k2, c1 + c2) == Flat(k1, c1) + [x] + Flat(k2, c2)
  {
    var k, c := k1 + [x] + k2, c1 + c2;
    assert c[0] == c1[0] && c[1..] == c1[1..] + c2;
    if k1 == [] {
      assert k[1..] == k2 && c[1..] == c2;
    } else {
      assert k[1..] == k1[1..] + [x] + k2;
      FlatConcat(k1[1..], c1[1..], x, k2, c2);
    }
  }

  /** What comes before child i, and what comes after it. */
  ghost function Before(keys: seq<int>, kids: seq<Tree>, i: nat): seq<int>
    requires i <= |keys| && i <= |kids|
  {
    if i == 0 then [] else Flat(keys[..i - 1], kids[..i]) + [keys[i - 1]]
  }

  ghost function Behind(keys: seq<int>, kids: seq<Tree>, i: nat): seq<int>
    requires i <= |keys| && i < |kids|
  {
    if i == |keys| then [] else [keys[i]] + Flat(keys[i + 1..], kids[i + 1..])
  }

  lemma SuffixFlat(keys: seq<int>, kids: seq<Tree>, i: nat)
    requires |kids| == |keys| + 1 && i <= |keys|
    ensures Flat(keys[i..], kids[i..]) == InOrder(kids[i]) + Behind(keys, kids, i)
  {
    var k, c := keys[i..], kids[i..];
    assert c[0] == kids[i];
    if i < |keys| { assert k[0] == keys[i] && k[1..] == keys[i + 1..] && c[1..] == kids[i + 1..]; }
  }

  lemma {:induction false} Around(keys: seq<int>, kids: seq<Tree>, i: nat)
    requires |kids| == |keys| + 1 && i <= |keys|
    ensures Flat(keys, kids) == Before(keys, kids, i) + InOrder(kids[i]) + Behind(keys, kids, i)
  {
    hide Flat, InOrder, Behind;
    SuffixFlat(keys, kids, i);
    if i > 0 {
      FlatConcat(keys[..i - 1], kids[..i], keys[i - 1], keys[i..], kids[i..]);
      assert keys == keys[..i - 1] + [keys[i - 1]] + keys[i..] && kids == kids[..i] + kids[i..];
      var a, b, c := Flat(keys[..i - 1], kids[..i]), InOrder(kids[i]), Behind(keys, kids, i);
      assert a + [keys[i - 1]] + (b + c) == a + [keys[i - 1]] + b + c;
    } else {
      assert keys[i..] == keys && kids[i..] == kids;
      assert [] + InOrder(kids[0]) == InOrder(kids[0]);
    }
  }

  lemma BeforePrefix(k: seq<int>, c: seq<Tree>, k': seq<int>, c': seq<Tree>, i: nat)
    requires i <= |k| && i <= |c| && i <= |k'| && i <= |c'| && k[..i] == k'[..i] && c[..i] == c'[..i]
    ensures Before(k, c, i) == Before(k', c', i)
  {
    if i > 0 {
      assert k[..i][..i - 1] == k[..i - 1] && k'[..i][..i - 1] == k'[..i - 1];
      assert k[..i][i - 1] == k'[..i][i - 1];
    }
  }

  lemma BehindSuffix(k: seq<int>, c: seq<Tree>, i: nat, k': seq<int>, c': seq<Tree>, j: nat)
    requires i <= |k| && i < |c| && j <= |k'| && j < |c'| && k[i..] == k'[j..] && c[i + 1..] == c'[j + 1..]
    ensures Behind(k, c, i) == Behind(k', c', j)
  {
    if i < |k| {
      assert |k[i..]| == |k'[j..]| && k[i..][0] == k'[j..][0];
      assert k[i..][1..] == k[i + 1..] && k'[j..][1..] == k'[j + 1..];
    } else {
      assert |k'[j..]| == 0;
    }
  }

  // ----- the shape of a tree -----

  /** All leaves at depth h; every node has one child more than keys and at most five keys, and
      below the root at least two. */
  ghost predicate Shape(t: Tree, h: nat)
    decreases h, 0
  {
    && |t.keys| < N
    && (t.leaf <==> h == 0)
    && (t.leaf ==> t.kids == [])
    && (!t.leaf ==> |t.kids| == |t.keys| + 1)
    && forall i :: 0 <= i < |t.kids| ==> h > 0 && Inner(t.kids[i], h - 1)
  }

  ghost predicate Inner(t: Tree, h: nat)
    decreases h, 1
  {
    Shape(t, h) && |t.keys| >= MIN_CHILD - 1
  }

  /** A root needs a key only when it has children. */
  ghost predicate Root(t: Tree, h: nat) {
    Shape(t, h) && (h > 0 ==> |t.keys| >= 1)
  }

  // ----- searching -----

  /** The first index whose key is not below v. */
  function FirstNotBelow(keys: seq<int>, v: int): (i: nat)
    ensures i <= |keys|
    ensures forall j :: 0 <= j < i ==> keys[j] < v
    ensures i < |keys| ==> v <= keys[i]
  {
    if keys == [] || v <= keys[0] then 0 else 1 + FirstNotBelow(keys[1..], v)
  }

  ghost predicate Finds(t: Tree, v: int)
    decreases t
  {
    var i := FirstNotBelow(t.keys, v);
    if i < |t.keys| && t.keys[i] == v then true
    else !t.leaf && i < |t.kids| && Finds(t.kids[i], v)
  }

  /** In a sorted tree the search finds exactly the keys that are there. */
  lemma {:induction false} FindsExactly(t: Tree, v: int, h: nat)
    requires Shape(t, h) && Sorted(InOrder(t))
    ensures Finds(t, v) <==> v in InOrder(t)
    decreases h
  {
    var i := FirstNotBelow(t.keys, v);
    if !t.leaf {
      Around(t.keys, t.kids, i);
      var a, b, c := Before(t.keys, t.kids, i), InOrder(t.kids[i]), Behind(t.keys, t.kids, i);
      SortedParts(a, b, c);
      assert Inner(t.kids[i], h - 1);
      FindsExactly(t.kids[i], v, h - 1);
      assert InOrder(t) == a + b + c;
      if i < |t.keys| && t.keys[i] == v {
        assert c[0] == v;
      } else {
        BeforeBound(t.keys, t.kids, i);
        BehindBound(t.keys, t.kids, i);
      }
    }
  }

  /** What comes before child i is at most the key to its left, and what comes behind it at least
      the key to its right. */
  lemma {:induction false} BeforeBound(keys: seq<int>, kids: seq<Tree>, i: nat)
    requires i <= |keys| && i <= |kids| && Sorted(Before(keys, kids, i))
    ensures forall j :: 0 <= j < |Before(keys, kids, i)| ==> i > 0 && Before(keys, kids, i)[j] <= keys[i - 1]
  {
    if i > 0 {
      var a := Before(keys, kids, i);
      assert a[|a| - 1] == keys[i - 1];
    }
  }

  lemma {:induction false} BehindBound(keys: seq<int>, kids: seq<Tree>, i: nat)
    requires i <= |keys| && i < |kids| && Sorted(Behind(keys, kids, i))
    ensures forall j :: 0 <= j < |Behind(keys, kids, i)| ==> i < |keys| && Behind(keys, kids, i)[j] >= keys[i]
  {
    if i < |keys| {
      var c := Behind(keys, kids, i);
      assert c[0] == keys[i];
    }
  }

  lemma NodeInOrder(t: Tree)
    requires !t.leaf
    ensures InOrder(t) == Flat(t.keys, t.kids)
  {
  }

  lemma BehindKey(k: seq<int>, c: seq<Tree>, i: nat)
    requires i < |k| && i < |c|
    ensures Behind(k, c, i) == [k[i]] + Flat(k[i + 1..], c[i + 1..])
  {
  }

  /** The keys around two neighbouring children. */
  lemma {:induction false} AroundTwo(keys: seq<int>, kids: seq<Tree>, i: nat)
    requires |kids| == |keys| + 1 && i < |keys|
    ensures Flat(keys, kids) ==
            Before(keys, kids, i) + (InOrder(kids[i]) + [keys[i]] + InOrder(kids[i + 1])) + Behind(keys, kids, i + 1)
  {
    hide InOrder, Flat, Before, Behind;
    Around(keys, kids, i);
    BehindKey(keys, kids, i);
    SuffixFlat(keys, kids, i + 1);
    var a, l, x, r, b := Before(keys, kids, i), InOrder(kids[i]), keys[i], InOrder(kids[i + 1]),
        Behind(keys, kids, i + 1);
    assert a + l + ([x] + (r + b)) == a + (l + [x] + r) + b;
  }

  /** One child in place of two neighbours, with their keys and the key between them, or without
      that key. */
  lemma {:induction false} MergeInOrder(t: Tree, i: nat, m: Tree)
    requires !t.leaf && |t.kids| == |t.keys| + 1 && i < |t.keys|
    ensures var k, c := t.keys[..i] + t.keys[i + 1..], t.kids[..i] + [m] + t.kids[i + 2..];
      && Flat(k, c) == Before(t.keys, t.kids, i) + InOrder(m) + Behind(t.keys, t.kids, i + 1)
      && InOrder(t) == Before(t.keys, t.kids, i) + (InOrder(t.kids[i]) + [t.keys[i]] + InOrder(t.kids[i + 1]))
                       + Behind(t.keys, t.kids, i + 1)
  {
    hide InOrder, Flat, Before, Behind;
    var k, c := t.keys[..i] + t.keys[i + 1..], t.kids[..i] + [m] + t.kids[i + 2..];
    AroundTwo(t.keys, t.kids, i);
    NodeInOrder(t);
    Around(k, c, i);
    assert c[i] == m;
    assert Before(k, c, i) == Before(t.keys, t.kids, i) by {
      assert k[..i] == t.keys[..i] && c[..i] == t.kids[..i];
      BeforePrefix(k, c, t.keys, t.kids, i);
    }
    assert Behind(k, c, i) == Behind(t.keys, t.kids, i + 1) by {
      assert k[i..] == t.keys[i + 1..] && c[i + 1..] == t.kids[i + 2..];
      BehindSuffix(k, c, i, t.keys, t.kids, i + 1);
    }
  }

  /** Two children and a key in place of a child with the same keys. */
  lemma {:induction false} SplitInOrder(t: Tree, i: nat, l: Tree, x: int, r: Tree)
    requires !t.leaf && |t.kids| == |t.keys| + 1 && i <= |t.keys|
    requires InOrder(t.kids[i]) == InOrder(l) + [x] + InOrder(r)
    ensures Flat(t.keys[..i] + [x] + t.keys[i..], t.kids[..i] + [l, r] + t.kids[i + 1..]) == InOrder(t)
  {
    hide InOrder, Flat, Before, Behind;
    var s := Tree(false, t.keys[..i] + [x] + t.keys[i..], t.kids[..i] + [l, r] + t.kids[i + 1..]);
    MergeInOrder(s, i, t.kids[i]);
    assert s.keys[..i] + s.keys[i + 1..] == t.keys && s.kids[..i] + [t.kids[i]] + s.kids[i + 2..] == t.kids;
    NodeInOrder(s);
    NodeInOrder(t);
  }

  // ----- splitting a full child -----

  function Take<T>(s: seq<T>, n: nat): seq<T> {
    if n < |s| then s[..n] else s
  }

  function Drop<T>(s: seq<T>, n: nat): seq<T> {
    if n < |s| then s[n..] else []
  }

  /** The two halves of a full node. */
  function LeftHalf(c: Tree): Tree
    requires |c.keys| == N - 1
  {
    Tree(c.leaf, c.keys[..MIN_CHILD - 1], Take(c.kids, MIN_CHILD))
  }

  function RightHalf(c: Tree): Tree
    requires |c.keys| == N - 1
  {
    Tree(c.leaf, c.keys[MIN_CHILD..], Drop(c.kids, MIN_CHILD))
  }

  function SplitChild(t: Tree, i: nat): Tree
    requires i <= |t.keys| && i < |t.kids| && |t.kids[i].keys| == N - 1
  {
    var c := t.kids[i];
    Tree(t.leaf, t.keys[..i] + [c.keys[MIN_CHILD - 1]] + t.keys[i..],
         t.kids[..i] + [LeftHalf(c), RightHalf(c)] + t.kids[i + 1..])
  }

  lemma {:induction false} HalvesKeep(c: Tree, h: nat)
    requires Shape(c, h) && |c.keys| == N - 1
    ensures Inner(LeftHalf(c), h) && Inner(RightHalf(c), h)
    ensures InOrder(LeftHalf(c)) + [c.keys[MIN_CHILD - 1]] + InOrder(RightHalf(c)) == InOrder(c)
  {
    var m := MIN_CHILD - 1;
    assert c.keys == c.keys[..m] + [c.keys[m]] + c.keys[MIN_CHILD..];
    if !c.leaf {
      assert c.kids == c.kids[..MIN_CHILD] + c.kids[MIN_CHILD..];
      FlatConcat(c.keys[..m], c.kids[..MIN_CHILD], c.keys[m], c.keys[MIN_CHILD..], c.kids[MIN_CHILD..]);
    }
  }

  lemma SplitParts(t: Tree, i: nat)
    requires i <= |t.keys| && i < |t.kids| && |t.kids[i].keys| == N - 1
    ensures var r := SplitChild(t, i);
      && |r.keys| == |t.keys| + 1 && |r.kids| == |t.kids| + 1
      && r.kids[i] == LeftHalf(t.kids[i]) && r.kids[i + 1] == RightHalf(t.kids[i])
      && (forall j :: 0 <= j < i ==> r.kids[j] == t.kids[j] && r.keys[j] == t.keys[j])
      && (forall j :: i + 1 < j < |r.kids| ==> r.kids[j] == t.kids[j - 1])
      && (forall j :: i < j < |r.keys| ==> r.keys[j] == t.keys[j - 1])
  {
  }

  /** Splitting keeps the keys in order and the shape. */
  lemma {:induction false} SplitKeeps(t: Tree, i: nat, h: nat)
    requires !t.leaf && h > 0 && |t.keys| < N - 1 && |t.kids| == |t.keys| + 1 && i <= |t.keys|
    requires forall j :: 0 <= j < |t.kids| ==> if j == i then Shape(t.kids[j], h - 1) else Inner(t.kids[j], h - 1)
    requires |t.kids[i].keys| == N - 1
    ensures Shape(SplitChild(t, i), h) && InOrder(SplitChild(t, i)) == InOrder(t)
  {
    HalvesKeep(t.kids[i], h - 1);
    SplitInOrder(t, i, LeftHalf(t.kids[i]), t.kids[i].keys[MIN_CHILD - 1], RightHalf(t.kids[i]));
    assert InOrder(SplitChild(t, i)) == InOrder(t);
    SplitParts(t, i);
    hide InOrder, Flat, LeftHalf, RightHalf, SplitChild;
    var r := SplitChild(t, i);
    assert r.leaf == t.leaf by { SplitLeaf(t, i); }
    forall j | 0 <= j < |r.kids| ensures Inner(r.kids[j], h - 1) {
      assert j < i ==> r.kids[j] == t.kids[j];
      assert i + 1 < j ==> r.kids[j] == t.kids[j - 1];
    }
  }

  lemma SplitLeaf(t: Tree, i: nat)
    requires i <= |t.keys| && i < |t.kids| && |t.kids[i].keys| == N - 1
    ensures SplitChild(t, i).leaf == t.leaf
  {
  }

  // ----- insertion -----

  /** One past the last key not above v. */
  function FirstAbove(keys: seq<int>, v: int): (i: nat)
    ensures i <= |keys|
    ensures forall j :: i <= j < |keys| ==> v < keys[j]
    ensures i > 0 ==> keys[i - 1] <= v
  {
    if keys == [] || v >= keys[|keys| - 1] then |keys| else FirstAbove(keys[..|keys| - 1], v)
  }

  function WithKid(t: Tree, i: nat, c: Tree): Tree
    requires i < |t.kids|
  {
    t.(kids := t.kids[i := c])
  }

  /** The child to descend into, after splitting it when it is full. */
  function Room(t: Tree, v: int): (Tree, nat)
    requires |t.kids| == |t.keys| + 1
  {
    var i := FirstAbove(t.keys, v);
    if |t.kids[i].keys| != N - 1 then (t, i)
    else
      var s := SplitChild(t, i);
      (s, if v > s.keys[i] then i + 1 else i)
  }

  lemma {:induction false} RoomKeeps(t: Tree, v: int, h: nat)
    requires Shape(t, h) && !t.leaf && |t.keys| < N - 1
    ensures var (s, i) := Room(t, v);
      && Shape(s, h) && InOrder(s) == InOrder(t) && !s.leaf && i <= |s.keys| && |s.keys| >= |t.keys|
      && Inner(s.kids[i], h - 1) && |s.kids[i].keys| < N - 1
      && (i > 0 ==> s.keys[i - 1] <= v) && (i < |s.keys| ==> v <= s.keys[i])
  {
    assert forall i :: 0 <= i < |t.kids| ==> Inner(t.kids[i], h - 1);
    var i := FirstAbove(t.keys, v);
    hide InOrder, LeftHalf, RightHalf, SplitChild, Shape, FirstAbove;
    if |t.kids[i].keys| == N - 1 {
      SplitKeeps(t, i, h) by { hide InOrder, SplitChild; }
      HalvesKeep(t.kids[i], h - 1);
      SplitParts(t, i);
      SplitLeaf(t, i);
      assert |LeftHalf(t.kids[i]).keys| == |RightHalf(t.kids[i]).keys| == MIN_CHILD - 1 by { HalfKeys(t.kids[i]); }
      hide Inner;
    }
  }

  lemma HalfKeys(c: Tree)
    requires |c.keys| == N - 1
    ensures |LeftHalf(c).keys| == |RightHalf(c).keys| == MIN_CHILD - 1
  {
  }

  function Insert(t: Tree, v: int, h: nat): Tree
    requires Shape(t, h) && |t.keys| < N - 1
    decreases h
  {
    if t.leaf then
      var i := FirstAbove(t.keys, v);
      Tree(true, t.keys[..i] + [v] + t.keys[i..], [])
    else
      RoomKeeps(t, v, h);
      var (s, i) := Room(t, v);
      WithKid(s, i, Insert(s.kids[i], v, h - 1))
  }

  /** Replacing a child by one that holds other keys. */
  lemma {:induction false} WithKidInOrder(t: Tree, i: nat, c: Tree)
    requires !t.leaf && |t.kids| == |t.keys| + 1 && i <= |t.keys|
    ensures InOrder(t) == Before(t.keys, t.kids, i) + InOrder(t.kids[i]) + Behind(t.keys, t.kids, i)
    ensures InOrder(WithKid(t, i, c)) == Before(t.keys, t.kids, i) + InOrder(c) + Behind(t.keys, t.kids, i)
  {
    var kids := t.kids[i := c];
    Around(t.keys, t.kids, i);
    Around(t.keys, kids, i);
    assert kids[..i] == t.kids[..i] && kids[i + 1..] == t.kids[i + 1..];
  }

  lemma {:induction false} WithKidShape(t: Tree, i: nat, c: Tree, h: nat)
    requires Shape(t, h) && i < |t.kids| && h > 0 && Inner(c, h - 1)
    ensures Shape(WithKid(t, i, c), h)
  {
  }

  /** Insertion below a node that is not full adds one v where it belongs. */
  lemma {:induction false} InsertKeeps(t: Tree, v: int, h: nat)
    requires Shape(t, h) && |t.keys| < N - 1
    ensures Shape(Insert(t, v, h), h) && |Insert(t, v, h).keys| >= |t.keys|
    ensures t.leaf ==> |Insert(t, v, h).keys| > 0
    ensures Adds(InOrder(t), v, InOrder(Insert(t, v, h)))
    ensures Sorted(InOrder(t)) ==> Sorted(InOrder(Insert(t, v, h)))
    decreases h
  {
    if t.leaf {
      var i := FirstAbove(t.keys, v);
      LeafInsert(t.keys, v, i);
    } else {
      RoomKeeps(t, v, h);
      var (s, i) := Room(t, v);
      var c := Insert(s.kids[i], v, h - 1);
      InsertKeeps(s.kids[i], v, h - 1);
      WithKidShape(s, i, c, h);
      KidInsert(s, i, c, v);
    }
  }

  lemma {:induction false} LeafInsert(keys: seq<int>, v: int, i: nat)
    requires i == FirstAbove(keys, v)
    ensures Adds(keys, v, keys[..i] + [v] + keys[i..])
    ensures Sorted(keys) ==> Sorted(keys[..i] + [v] + keys[i..])
  {
    hide FirstAbove, Sorted, AllAtMost;
    var a, b := keys[..i], keys[i..];
    assert keys == a + b && Between(a, b, keys, v, a + [v] + b);
    if Sorted(keys) {
      SortedConcat(a, b);
      EndsAt(a, v);
      assert b != [] ==> b[0] == keys[i];
      StartsAt(b, v);
      SortedJoin(a, [v], b);
    }
  }

  lemma EndsAt(a: seq<int>, v: int)
    requires Sorted(a) && (a != [] ==> a[|a| - 1] <= v)
    ensures AllAtMost(a, [v]) && Sorted([v])
  {
  }

  lemma StartsAt(b: seq<int>, v: int)
    requires Sorted(b) && (b != [] ==> v <= b[0])
    ensures AllAtMost([v], b)
  {
  }

  /** A child that gains v between its neighbouring keys. */
  lemma {:induction false} KidInsert(s: Tree, i: nat, c: Tree, v: int)
    requires !s.leaf && |s.kids| == |s.keys| + 1 && i <= |s.keys|
    requires (i > 0 ==> s.keys[i - 1] <= v) && (i < |s.keys| ==> v <= s.keys[i])
    requires Adds(InOrder(s.kids[i]), v, InOrder(c))
    requires Sorted(InOrder(s.kids[i])) ==> Sorted(InOrder(c))
    ensures Adds(InOrder(s), v, InOrder(WithKid(s, i, c)))
    ensures Sorted(InOrder(s)) ==> Sorted(InOrder(WithKid(s, i, c)))
  {
    hide InOrder, Flat, Before, Behind;
    WithKidInOrder(s, i, c);
    var a, b := Before(s.keys, s.kids, i), Behind(s.keys, s.kids, i);
    AddsInContext(a, InOrder(s.kids[i]), b, v, InOrder(c));
    if Sorted(InOrder(s)) {
      SortedParts(a, InOrder(s.kids[i]), b);
      BeforeBound(s.keys, s.kids, i);
      BehindBound(s.keys, s.kids, i);
      assert AllAtMost(a, [v]) && AllAtMost([v], b);
      SortedGain(a, InOrder(s.kids[i]), b, v, InOrder(c));
    }
  }

  /** insert: a full root first becomes the only child of a new one. */
  function InsertRoot(t: Tree, v: int, h: nat): Tree
    requires Root(t, h)
  {
    if |t.keys| == N - 1 then
      NewRoot(t, h);
      Insert(SplitChild(Tree(false, [], [t]), 0), v, h + 1)
    else Insert(t, v, h)
  }

  lemma {:induction false} NewRoot(t: Tree, h: nat)
    requires Shape(t, h) && |t.keys| == N - 1
    ensures var r := SplitChild(Tree(false, [], [t]), 0);
      Shape(r, h + 1) && |r.keys| == 1 && InOrder(r) == InOrder(t)
  {
    SplitKeeps(Tree(false, [], [t]), 0, h + 1);
  }

  lemma {:induction false} InsertRootKeeps(t: Tree, v: int, h: nat)
    requires Root(t, h) && Sorted(InOrder(t))
    ensures var r := InsertRoot(t, v, h);
      Root(r, if |t.keys| == N - 1 then h + 1 else h) && Sorted(InOrder(r)) && Adds(InOrder(t), v, InOrder(r))
  {
    if |t.keys| == N - 1 {
      NewRoot(t, h);
      InsertKeeps(SplitChild(Tree(false, [], [t]), 0), v, h + 1);
    } else {
      InsertKeeps(t, v, h);
    }
  }

  // ----- moving keys between siblings -----

  function DropLast<T>(s: seq<T>): seq<T> {
    if s == [] then [] else s[..|s| - 1]
  }

  function LastPart<T>(s: seq<T>): seq<T> {
    s[|DropLast(s)|..]
  }

  /** Other keys, and two neighbouring children replaced. */
  function WithPair(t: Tree, i: nat, keys: seq<int>, l: Tree, r: Tree): Tree
    requires i + 1 < |t.kids|
  {
    Tree(t.leaf, keys, t.kids[i := l][i + 1 := r])
  }

  /** Child i takes the key to its left, and that place the last key of its left sibling. */
  function BorrowLeft(t: Tree, i: nat): Tree
    requires 0 < i <= |t.keys| && i < |t.kids| && t.kids[i - 1].keys != []
  {
    var from, to := t.kids[i - 1], t.kids[i];
    WithPair(t, i - 1, t.keys[i - 1 := from.keys[|from.keys| - 1]],
             Tree(from.leaf, DropLast(from.keys), DropLast(from.kids)),
             Tree(to.leaf, [t.keys[i - 1]] + to.keys, LastPart(from.kids) + to.kids))
  }

  /** Child i takes the key to its right, and that place the first key of its right sibling. */
  function BorrowRight(t: Tree, i: nat): Tree
    requires i < |t.keys| && i + 1 < |t.kids| && t.kids[i + 1].keys != []
  {
    var from, to := t.kids[i + 1], t.kids[i];
    WithPair(t, i, t.keys[i := from.keys[0]],
             Tree(to.leaf, to.keys + [t.keys[i]], to.kids + Take(from.kids, 1)),
             Tree(from.leaf, from.keys[1..], Drop(from.kids, 1)))
  }

  function Joined(l: Tree, x: int, r: Tree): Tree {
    Tree(l.leaf, l.keys + [x] + r.keys, l.kids + r.kids)
  }

  /** Child i takes the key to its right and all of its right sibling. */
  function Merge(t: Tree, i: nat): Tree
    requires i < |t.keys| && i + 1 < |t.kids|
  {
    Tree(t.leaf, t.keys[..i] + t.keys[i + 1..],
         t.kids[..i] + [Joined(t.kids[i], t.keys[i], t.kids[i + 1])] + t.kids[i + 2..])
  }

  /** Two neighbours and the key between them replaced. */
  lemma {:induction false} PairReplaced(t: Tree, i: nat, l: Tree, x: int, r: Tree)
    requires !t.leaf && |t.kids| == |t.keys| + 1 && i < |t.keys|
    ensures InOrder(t) == Before(t.keys, t.kids, i) + (InOrder(t.kids[i]) + [t.keys[i]] + InOrder(t.kids[i + 1]))
                          + Behind(t.keys, t.kids, i + 1)
    ensures Flat(t.keys[i := x], t.kids[i := l][i + 1 := r]) ==
            Before(t.keys, t.kids, i) + (InOrder(l) + [x] + InOrder(r)) + Behind(t.keys, t.kids, i + 1)
  {
    hide InOrder, Flat, Before, Behind;
    var k, c := t.keys[i := x], t.kids[i := l][i + 1 := r];
    AroundTwo(t.keys, t.kids, i);
    NodeInOrder(t);
    AroundTwo(k, c, i);
    assert Before(k, c, i) == Before(t.keys, t.kids, i) by {
      assert k[..i] == t.keys[..i] && c[..i] == t.kids[..i];
      BeforePrefix(k, c, t.keys, t.kids, i);
    }
    assert Behind(k, c, i + 1) == Behind(t.keys, t.kids, i + 1) by {
      assert k[i + 1..] == t.keys[i + 1..] && c[i + 2..] == t.kids[i + 2..];
      BehindSuffix(k, c, i + 1, t.keys, t.kids, i + 1);
    }
  }

  lemma {:induction false} JoinedKeeps(l: Tree, x: int, r: Tree, h: nat)
    requires Shape(l, h) && Shape(r, h) && |l.keys| == |r.keys| == MIN_CHILD - 1
    ensures Shape(Joined(l, x, r), h) && |Joined(l, x, r).keys| == N - 1
    ensures InOrder(Joined(l, x, r)) == InOrder(l) + [x] + InOrder(r)
  {
    if !l.leaf { FlatConcat(l.keys, l.kids, x, r.keys, r.kids); }
  }

  /** The last key of the left node goes up, x comes down. */
  lemma {:induction false} RotateRight(l: Tree, x: int, r: Tree, h: nat)
    requires Inner(l, h) && Inner(r, h) && |l.keys| >= MIN_CHILD && |r.keys| == MIN_CHILD - 1
    ensures var l' := Tree(l.leaf, DropLast(l.keys), DropLast(l.kids));
      var r' := Tree(r.leaf, [x] + r.keys, LastPart(l.kids) + r.kids);
      && Inner(l', h) && Inner(r', h) && |r'.keys| == MIN_CHILD
      && InOrder(l') + [l.keys[|l.keys| - 1]] + InOrder(r') == InOrder(l) + [x] + InOrder(r)
      && forall v :: v in InOrder(r) ==> v in InOrder(r')
  {
    var l' := Tree(l.leaf, DropLast(l.keys), DropLast(l.kids));
    var r' := Tree(r.leaf, [x] + r.keys, LastPart(l.kids) + r.kids);
    RotateRightShape(l, x, r, h);
    if l.leaf {
      LeafInOrder(l);
      LeafInOrder(r);
      LeafInOrder(l');
      LeafInOrder(r');
      hide InOrder, Shape, Inner;
      assert l.keys == l'.keys + [l.keys[|l.keys| - 1]] + [];
      Regroup(l'.keys, l.keys[|l.keys| - 1], [], x, r.keys);
      assert [] + [x] + r.keys == [x] + r.keys;
    } else {
      NodeRotateRight(l, x, r);
    }
  }

  lemma RotateRightShape(l: Tree, x: int, r: Tree, h: nat)
    requires Inner(l, h) && Inner(r, h) && |l.keys| >= MIN_CHILD && |r.keys| == MIN_CHILD - 1
    ensures Inner(Tree(l.leaf, DropLast(l.keys), DropLast(l.kids)), h)
    ensures Inner(Tree(r.leaf, [x] + r.keys, LastPart(l.kids) + r.kids), h)
  {
  }

  lemma {:induction false} NodeRotateRight(l: Tree, x: int, r: Tree)
    requires !l.leaf && !r.leaf && l.keys != [] && |l.kids| == |l.keys| + 1 && r.kids != []
    ensures var l' := Tree(false, DropLast(l.keys), DropLast(l.kids));
      var r' := Tree(false, [x] + r.keys, LastPart(l.kids) + r.kids);
      && InOrder(l') + [l.keys[|l.keys| - 1]] + InOrder(r') == InOrder(l) + [x] + InOrder(r)
      && forall v :: v in InOrder(r) ==> v in InOrder(r')
  {
    var m := |l.keys| - 1;
    var d := l.kids[m + 1];
    assert l.kids[m + 1..] == [d] && DropLast(l.kids) == l.kids[..m + 1];
    LastOff(l.keys, l.kids);
    FrontOn(d, x, r);
    hide InOrder, Flat;
    NodeInOrder(l);
    NodeInOrder(Tree(false, DropLast(l.keys), DropLast(l.kids)));
    Regroup(Flat(l.keys[..m], l.kids[..m + 1]), l.keys[m], InOrder(d), x, InOrder(r));
  }

  lemma Regroup(a: seq<int>, y: int, b: seq<int>, x: int, c: seq<int>)
    ensures a + [y] + (b + [x] + c) == (a + [y] + b) + [x] + c
  {
  }

  lemma {:induction false} LastOff(keys: seq<int>, kids: seq<Tree>)
    requires |kids| == |keys| + 1 && keys != []
    ensures var m := |keys| - 1;
      Flat(keys, kids) == Flat(keys[..m], kids[..m + 1]) + [keys[m]] + InOrder(kids[m + 1])
  {
    var m := |keys| - 1;
    assert kids == kids[..m + 1] + [kids[m + 1]] && keys == keys[..m] + [keys[m]] + [];
    FlatConcat(keys[..m], kids[..m + 1], keys[m], [], [kids[m + 1]]);
  }

  lemma FrontOn(d: Tree, x: int, r: Tree)
    requires !r.leaf && r.kids != []
    ensures InOrder(Tree(r.leaf, [x] + r.keys, [d] + r.kids)) == InOrder(d) + [x] + InOrder(r)
  {
    assert ([d] + r.kids)[1..] == r.kids && ([x] + r.keys)[1..] == r.keys;
  }

  /** The first key of the right node goes up, x comes down. */
  lemma {:induction false} RotateLeft(l: Tree, x: int, r: Tree, h: nat)
    requires Inner(l, h) && Inner(r, h) && |r.keys| >= MIN_CHILD && |l.keys| == MIN_CHILD - 1
    ensures var l' := Tree(l.leaf, l.keys + [x], l.kids + Take(r.kids, 1));
      var r' := Tree(r.leaf, r.keys[1..], Drop(r.kids, 1));
      && Inner(l', h) && Inner(r', h) && |l'.keys| == MIN_CHILD
      && InOrder(l') + [r.keys[0]] + InOrder(r') == InOrder(l) + [x] + InOrder(r)
      && forall v :: v in InOrder(l) ==> v in InOrder(l')
  {
    var y := r.keys[0];
    if r.leaf {
      assert r.keys == [y] + r.keys[1..];
      assert l.keys + [x] + [y] + r.keys[1..] == l.keys + [x] + r.keys;
    } else {
      var d := r.kids[0];
      assert r.kids[..1] == [d];
      FlatConcat(l.keys, l.kids, x, [], [d]);
      assert l.keys + [x] + [] == l.keys + [x];
      var a, b, c := InOrder(l), InOrder(d), Flat(r.keys[1..], r.kids[1..]);
      assert (a + [x] + b) + [y] + c == a + [x] + (b + [y] + c);
    }
  }

  // ----- deletion -----

  /** The last key below a node, and the first. */
  function MaxOf(t: Tree): int
    requires t.keys != []
    decreases t
  {
    if t.leaf || t.kids == [] || t.kids[|t.kids| - 1].keys == [] then t.keys[|t.keys| - 1]
    else MaxOf(t.kids[|t.kids| - 1])
  }

  function MinOf(t: Tree): int
    requires t.keys != []
    decreases t
  {
    if t.leaf || t.kids == [] || t.kids[0].keys == [] then t.keys[0] else MinOf(t.kids[0])
  }

  lemma {:induction false} Extremes(t: Tree, h: nat)
    requires Inner(t, h)
    ensures var s := InOrder(t); s != [] && s[|s| - 1] == MaxOf(t) && s[0] == MinOf(t)
    decreases h
  {
    if !t.leaf {
      var n := |t.keys|;
      assert Inner(t.kids[0], h - 1) && Inner(t.kids[n], h - 1);
      Extremes(t.kids[0], h - 1);
      Extremes(t.kids[n], h - 1);
      Around(t.keys, t.kids, 0);
      Around(t.keys, t.kids, n);
    }
  }

  /** ensureKeys: the tree in which the child to descend into has a key to spare, and the index of
      that child. */
  function Steer(t: Tree, i: nat): (Tree, nat)
    requires 0 < |t.keys| == |t.kids| - 1 && i <= |t.keys|
  {
    if |t.kids[i].keys| >= MIN_CHILD then (t, i)
    else if i > 0 && |t.kids[i - 1].keys| >= MIN_CHILD then (BorrowLeft(t, i), i)
    else if i < |t.keys| && |t.kids[i + 1].keys| >= MIN_CHILD then (BorrowRight(t, i), i)
    else if i < |t.keys| then (Merge(t, i), i)
    else (Merge(t, i - 1), i - 1)
  }

  lemma {:induction false} SteerKeeps(t: Tree, i: nat, h: nat)
    requires Shape(t, h) && !t.leaf && |t.keys| > 0 && i <= |t.keys|
    ensures var (s, j) := Steer(t, i);
      && Shape(s, h) && !s.leaf && InOrder(s) == InOrder(t) && |t.keys| - 1 <= |s.keys| && j <= |s.keys|
      && Inner(s.kids[j], h - 1) && |s.kids[j].keys| >= MIN_CHILD
      && forall v :: v in InOrder(t.kids[i]) ==> v in InOrder(s.kids[j])
  {
    if |t.kids[i].keys| >= MIN_CHILD {
    } else if i > 0 && |t.kids[i - 1].keys| >= MIN_CHILD {
      BorrowLeftKeeps(t, i, h);
    } else if i < |t.keys| && |t.kids[i + 1].keys| >= MIN_CHILD {
      BorrowRightKeeps(t, i, h);
    } else if i < |t.keys| {
      MergeKeeps(t, i, h);
    } else {
      MergeKeeps(t, i - 1, h);
    }
  }

  lemma {:induction false} BorrowLeftKeeps(t: Tree, i: nat, h: nat)
    requires Shape(t, h) && !t.leaf && 0 < i <= |t.keys|
    requires |t.kids[i].keys| < MIN_CHILD <= |t.kids[i - 1].keys|
    ensures var s := BorrowLeft(t, i);
      && Shape(s, h) && !s.leaf && InOrder(s) == InOrder(t) && |s.keys| == |t.keys|
      && Inner(s.kids[i], h - 1) && |s.kids[i].keys| >= MIN_CHILD
      && forall v :: v in InOrder(t.kids[i]) ==> v in InOrder(s.kids[i])
  {
    KidsAreInner(t, h);
    var s := BorrowLeft(t, i);
    hide InOrder, Flat, Before, Behind;
    RotateRight(t.kids[i - 1], t.keys[i - 1], t.kids[i], h - 1);
    PairReplaced(t, i - 1, s.kids[i - 1], s.keys[i - 1], s.kids[i]);
    assert t.kids[i - 1 := s.kids[i - 1]][i := s.kids[i]] == s.kids;
    NodeInOrder(s);
    assert forall j :: 0 <= j < |s.kids| && j != i - 1 && j != i ==> s.kids[j] == t.kids[j];
  }

  lemma {:induction false} BorrowRightKeeps(t: Tree, i: nat, h: nat)
    requires Shape(t, h) && !t.leaf && i < |t.keys|
    requires |t.kids[i].keys| < MIN_CHILD <= |t.kids[i + 1].keys|
    ensures var s := BorrowRight(t, i);
      && Shape(s, h) && !s.leaf && InOrder(s) == InOrder(t) && |s.keys| == |t.keys|
      && Inner(s.kids[i], h - 1) && |s.kids[i].keys| >= MIN_CHILD
      && forall v :: v in InOrder(t.kids[i]) ==> v in InOrder(s.kids[i])
  {
    KidsAreInner(t, h);
    var s := BorrowRight(t, i);
    hide InOrder, Flat, Before, Behind;
    RotateLeft(t.kids[i], t.keys[i], t.kids[i + 1], h - 1);
    PairReplaced(t, i, s.kids[i], s.keys[i], s.kids[i + 1]);
    assert t.kids[i := s.kids[i]][i + 1 := s.kids[i + 1]] == s.kids;
    NodeInOrder(s);
    assert forall j :: 0 <= j < |s.kids| && j != i + 1 && j != i ==> s.kids[j] == t.kids[j];
  }

  lemma {:induction false} MergeKeeps(t: Tree, i: nat, h: nat)
    requires Shape(t, h) && !t.leaf && i < |t.keys|
    requires |t.kids[i].keys| < MIN_CHILD && |t.kids[i + 1].keys| < MIN_CHILD
    ensures var s := Merge(t, i);
      && Shape(s, h) && !s.leaf && InOrder(s) == InOrder(t) && |s.keys| == |t.keys| - 1
      && Inner(s.kids[i], h - 1) && |s.kids[i].keys| >= MIN_CHILD
      && InOrder(s.kids[i]) == InOrder(t.kids[i]) + [t.keys[i]] + InOrder(t.kids[i + 1])
  {
    KidsAreInner(t, h);
    var s := Merge(t, i);
    hide InOrder, Flat, Before, Behind;
    JoinedKeeps(t.kids[i], t.keys[i], t.kids[i + 1], h - 1);
    MergeInOrder(t, i, Joined(t.kids[i], t.keys[i], t.kids[i + 1]));
    NodeInOrder(s);
    assert s.kids[i] == Joined(t.kids[i], t.keys[i], t.kids[i + 1]);
    assert forall j :: 0 <= j < i ==> s.kids[j] == t.kids[j];
    assert forall j :: i < j < |s.kids| ==> s.kids[j] == t.kids[j + 1];
  }

  /** What deletion needs of the node it starts from: a key to spare, unless it is the root. */
  ghost predicate Fit(t: Tree, root: bool, h: nat) {
    if root then Root(t, h) else Shape(t, h) && |t.keys| >= MIN_CHILD
  }

  /** A root without keys gives way to its only child, and the deletion starts again there. */
  ghost function Delete(t: Tree, v: int, root: bool, h: nat): Tree
    requires Fit(t, root, h)
    decreases h
  {
    var i := FirstNotBelow(t.keys, v);
    if !Finds(t, v) then t
    else if t.leaf then
      if i < |t.keys| then Tree(true, t.keys[..i] + t.keys[i + 1..], []) else t
    else
      KidsAreInner(t, h);
      if i < |t.keys| && t.keys[i] == v then
        if |t.kids[i].keys| >= MIN_CHILD then
          var p := MaxOf(t.kids[i]);
          WithKid(t.(keys := t.keys[i := p]), i, Delete(t.kids[i], p, false, h - 1))
        else if |t.kids[i + 1].keys| >= MIN_CHILD then
          var p := MinOf(t.kids[i + 1]);
          WithKid(t.(keys := t.keys[i := p]), i + 1, Delete(t.kids[i + 1], p, false, h - 1))
        else
          MergeKeeps(t, i, h);
          DeleteBelow(Merge(t, i), i, v, root, h)
      else
        SteerKeeps(t, i, h);
        var (s, j) := Steer(t, i);
        DeleteBelow(s, j, v, root, h)
  }

  ghost function DeleteBelow(s: Tree, j: nat, v: int, root: bool, h: nat): Tree
    requires Shape(s, h) && !s.leaf && j <= |s.keys| && Inner(s.kids[j], h - 1) && |s.kids[j].keys| >= MIN_CHILD
    decreases h, 0
  {
    if root && |s.keys| == 0 then Delete(s.kids[0], v, true, h - 1)
    else WithKid(s, j, Delete(s.kids[j], v, false, h - 1))
  }

  lemma KidsAreInner(t: Tree, h: nat)
    requires Shape(t, h)
    ensures !t.leaf ==> h > 0 && |t.kids| == |t.keys| + 1
    ensures forall i :: 0 <= i < |t.kids| ==> h > 0 && Inner(t.kids[i], h - 1)
  {
  }

  /** What is left of a node after a deletion: no more than one key short, and a root that lost its
      last key is one level lower. */
  ghost predicate Left(t: Tree, r: Tree, root: bool, h: nat) {
    || (Shape(r, h) && |r.keys| >= |t.keys| - 1 && (root && h > 0 ==> |r.keys| >= 1))
    || (root && h > 0 && |t.keys| == 1 && Root(r, h - 1))
  }

  /** Deletion takes out exactly one v. */
  lemma {:induction false} DeleteKeeps(t: Tree, v: int, root: bool, h: nat)
    requires Fit(t, root, h) && Sorted(InOrder(t))
    ensures v !in InOrder(t) ==> Delete(t, v, root, h) == t
    ensures v in InOrder(t) ==> Adds(InOrder(Delete(t, v, root, h)), v, InOrder(t))
    ensures v in InOrder(t) ==> Left(t, Delete(t, v, root, h), root, h)
    decreases h, 1
  {
    hide InOrder, Flat, Sorted, Adds, Shape, Steer, Merge, BorrowLeft, BorrowRight, WithKid, MaxOf, MinOf,
        DeleteBelow, Finds;
    FindsExactly(t, v, h);
    if v in InOrder(t) {
      var i := FirstNotBelow(t.keys, v);
      if t.leaf {
        LeafInOrder(t);
        LeafDelete(t.keys, v, i);
        LeafInOrder(Tree(true, t.keys[..i] + t.keys[i + 1..], []));
        LeafLeft(t, i, root, h);
      } else {
        hide FirstNotBelow;
        KidsAreInner(t, h);
        if i < |t.keys| && t.keys[i] == v {
          if |t.kids[i].keys| >= MIN_CHILD {
            KidSorted(t, i);
            Extremes(t.kids[i], h - 1);
            DeleteKeeps(t.kids[i], MaxOf(t.kids[i]), false, h - 1);
            PredecessorTaken(t, i, Delete(t.kids[i], MaxOf(t.kids[i]), false, h - 1), h);
          } else if |t.kids[i + 1].keys| >= MIN_CHILD {
            KidSorted(t, i + 1);
            Extremes(t.kids[i + 1], h - 1);
            DeleteKeeps(t.kids[i + 1], MinOf(t.kids[i + 1]), false, h - 1);
            SuccessorTaken(t, i, Delete(t.kids[i + 1], MinOf(t.kids[i + 1]), false, h - 1), h);
          } else {
            MergeKeeps(t, i, h);
            DeleteBelowKeeps(t, Merge(t, i), i, v, root, h);
          }
        } else {
          SteerKeeps(t, i, h);
          KidSorted(t, i);
          FindsInKid(t, v);
          FindsExactly(t.kids[i], v, h - 1);
          var (s, j) := Steer(t, i);
          DeleteBelowKeeps(t, s, j, v, root, h);
        }
      }
    }
  }

  lemma FindsInKid(t: Tree, v: int)
    requires !t.leaf && Finds(t, v)
    ensures var i := FirstNotBelow(t.keys, v);
      (i < |t.keys| && t.keys[i] == v) || (i < |t.kids| && Finds(t.kids[i], v))
  {
  }

  lemma LeafInOrder(t: Tree)
    requires t.leaf
    ensures InOrder(t) == t.keys
  {
  }

  lemma LeafLeft(t: Tree, i: nat, root: bool, h: nat)
    requires t.leaf && Fit(t, root, h) && i < |t.keys|
    ensures Left(t, Tree(true, t.keys[..i] + t.keys[i + 1..], []), root, h)
  {
  }

  lemma {:induction false} LeafDelete(keys: seq<int>, v: int, i: nat)
    requires i == FirstNotBelow(keys, v) && v in keys && Sorted(keys)
    ensures i < |keys| && keys[i] == v && Adds(keys[..i] + keys[i + 1..], v, keys)
  {
    FoundFirst(keys, v, i);
    hide FirstNotBelow, Sorted;
    var a, b := keys[..i], keys[i + 1..];
    assert keys == a + [v] + b;
    assert Between(a, b, a + b, v, keys);
  }

  lemma FoundFirst(keys: seq<int>, v: int, i: nat)
    requires i == FirstNotBelow(keys, v) && v in keys && Sorted(keys)
    ensures i < |keys| && keys[i] == v
  {
    var j :| 0 <= j < |keys| && keys[j] == v;
    assert i < j ==> keys[i] <= keys[j];
  }

  lemma {:induction false} KidSorted(t: Tree, i: nat)
    requires !t.leaf && |t.kids| == |t.keys| + 1 && i <= |t.keys| && Sorted(InOrder(t))
    ensures Sorted(InOrder(t.kids[i]))
  {
    NodeInOrder(t);
    Around(t.keys, t.kids, i);
    hide InOrder, Flat, Before, Behind;
    SortedParts(Before(t.keys, t.kids, i), InOrder(t.kids[i]), Behind(t.keys, t.kids, i));
  }

  lemma {:induction false} WithKeyAndKid(t: Tree, i: nat, p: int, j: nat, c: Tree, h: nat)
    requires Shape(t, h) && h > 0 && i < |t.keys| && j < |t.kids| && Inner(c, h - 1)
    ensures Shape(WithKid(t.(keys := t.keys[i := p]), j, c), h)
  {
  }

  lemma {:induction false} OneLess(a: seq<int>, l: seq<int>, x: int, r: seq<int>, b: seq<int>)
    ensures Adds(a + (l + r) + b, x, a + (l + [x] + r) + b)
  {
    assert a + (l + r) + b == (a + l) + (r + b);
    assert a + (l + [x] + r) + b == (a + l) + [x] + (r + b);
    assert Between(a + l, r + b, a + (l + r) + b, x, a + (l + [x] + r) + b);
  }

  /** The key gives way to its predecessor. */
  lemma {:induction false} PredecessorTaken(t: Tree, i: nat, l: Tree, h: nat)
    requires Shape(t, h) && !t.leaf && h > 0 && i < |t.keys| && Sorted(InOrder(t))
    requires Inner(t.kids[i], h - 1) && Inner(l, h - 1) && Adds(InOrder(l), MaxOf(t.kids[i]), InOrder(t.kids[i]))
    ensures var r := WithKid(t.(keys := t.keys[i := MaxOf(t.kids[i])]), i, l);
      Shape(r, h) && |r.keys| == |t.keys| && Adds(InOrder(r), t.keys[i], InOrder(t))
  {
    var p := MaxOf(t.kids[i]);
    WithKeyAndKid(t, i, p, i, l, h);
    KidSorted(t, i);
    Extremes(t.kids[i], h - 1);
    LastRemoved(InOrder(l), p, InOrder(t.kids[i]));
    PairReplaced(t, i, l, p, t.kids[i + 1]);
    assert t.kids[i := l][i + 1 := t.kids[i + 1]] == t.kids[i := l];
    NodeInOrder(WithKid(t.(keys := t.keys[i := p]), i, l));
    hide InOrder, Flat, Before, Behind;
    OneLess(Before(t.keys, t.kids, i), InOrder(t.kids[i]), t.keys[i], InOrder(t.kids[i + 1]),
            Behind(t.keys, t.kids, i + 1));
  }

  /** The key gives way to its successor. */
  lemma {:induction false} SuccessorTaken(t: Tree, i: nat, r: Tree, h: nat)
    requires Shape(t, h) && !t.leaf && h > 0 && i < |t.keys| && Sorted(InOrder(t))
    requires Inner(t.kids[i + 1], h - 1) && Inner(r, h - 1)
    requires Adds(InOrder(r), MinOf(t.kids[i + 1]), InOrder(t.kids[i + 1]))
    ensures var q := WithKid(t.(keys := t.keys[i := MinOf(t.kids[i + 1])]), i + 1, r);
      Shape(q, h) && |q.keys| == |t.keys| && Adds(InOrder(q), t.keys[i], InOrder(t))
  {
    var p := MinOf(t.kids[i + 1]);
    WithKeyAndKid(t, i, p, i + 1, r, h);
    KidSorted(t, i + 1);
    Extremes(t.kids[i + 1], h - 1);
    FirstRemoved(InOrder(r), p, InOrder(t.kids[i + 1]));
    PairReplaced(t, i, t.kids[i], p, r);
    assert t.kids[i := t.kids[i]][i + 1 := r] == t.kids[i + 1 := r];
    NodeInOrder(WithKid(t.(keys := t.keys[i := p]), i + 1, r));
    hide InOrder, Flat, Before, Behind;
    OneLess(Before(t.keys, t.kids, i), InOrder(t.kids[i]), t.keys[i], InOrder(t.kids[i + 1]),
            Behind(t.keys, t.kids, i + 1));
    assert InOrder(t.kids[i]) + [p] + InOrder(r) == InOrder(t.kids[i]) + ([p] + InOrder(r));
  }

  lemma {:induction false} DeleteBelowKeeps(t: Tree, s: Tree, j: nat, v: int, root: bool, h: nat)
    requires Fit(t, root, h) && h > 0 && Shape(s, h) && !s.leaf && |t.keys| - 1 <= |s.keys| && j <= |s.keys|
    requires Inner(s.kids[j], h - 1) && |s.kids[j].keys| >= MIN_CHILD
    requires InOrder(s) == InOrder(t) && Sorted(InOrder(t)) && v in InOrder(s.kids[j])
    ensures var r := DeleteBelow(s, j, v, root, h);
      Adds(InOrder(r), v, InOrder(t)) && Left(t, r, root, h)
    decreases h, 0
  {
    KidSorted(s, j);
    if root && |s.keys| == 0 {
      DeleteKeeps(s.kids[0], v, true, h - 1);
      assert InOrder(s) == InOrder(s.kids[0]);
    } else {
      DeleteKeeps(s.kids[j], v, false, h - 1);
      var c := Delete(s.kids[j], v, false, h - 1);
      WithKidShape(s, j, c, h);
      WithKidInOrder(s, j, c);
      AddsInContext(Before(s.keys, s.kids, j), InOrder(c), Behind(s.keys, s.kids, j), v, InOrder(s.kids[j]));
    }
  }

  // ----- the height -----

  function Pow3(k: nat): nat {
    if k == 0 then 1 else 3 * Pow3(k - 1)
  }

  lemma {:induction false} FlatSize(keys: seq<int>, kids: seq<Tree>, m: nat)
    requires |kids| == |keys| + 1 && forall i :: 0 <= i < |kids| ==> |InOrder(kids[i])| + 1 >= m
    ensures |Flat(keys, kids)| + 1 >= m * |kids|
    decreases |kids|
  {
    if keys != [] {
      FlatSize(keys[1..], kids[1..], m);
      assert m * |kids| == m + m * (|kids| - 1);
    }
  }

  lemma AtLeastTimes(a: nat, b: nat, c: nat)
    requires b >= c
    ensures a * b >= a * c
  {
  }

  /** A node below the root with height h holds at least 3^(h+1) - 1 keys. */
  lemma {:induction false} InnerSize(t: Tree, h: nat)
    requires Inner(t, h)
    ensures |InOrder(t)| + 1 >= Pow3(h + 1)
    decreases h
  {
    if !t.leaf {
      KidsAreInner(t, h);
      forall i | 0 <= i < |t.kids| ensures |InOrder(t.kids[i])| + 1 >= Pow3(h) { InnerSize(t.kids[i], h - 1); }
      FlatSize(t.keys, t.kids, Pow3(h));
      AtLeastTimes(Pow3(h), |t.kids|, 3);
    }
  }

  /** The height is at most the logarithm to base 3 of half of one more than the number of keys. */
  lemma {:induction false} HeightBound(t: Tree, h: nat)
    requires Root(t, h) && |InOrder(t)| > 0
    ensures 2 * Pow3(h) <= |InOrder(t)| + 1
  {
    if !t.leaf {
      KidsAreInner(t, h);
      forall i | 0 <= i < |t.kids| ensures |InOrder(t.kids[i])| + 1 >= Pow3(h) { InnerSize(t.kids[i], h - 1); }
      FlatSize(t.keys, t.kids, Pow3(h));
      AtLeastTimes(Pow3(h), |t.kids|, 2);
    }
  }

  // ----- whole histories -----

  datatype Op = Put(v: int) | Remove(v: int)

  /** What a bag holds after the operations: a removal takes one copy, if there is one. */
  ghost function Bag(ops: seq<Op>): multiset<int> {
    if ops == [] then multiset{}
    else
      var b := Bag(ops[..|ops| - 1]);
      match ops[|ops| - 1]
      case Put(v) => b + multiset{v}
      case Remove(v) => b - multiset{v}
  }

  /** A tree and its height. */
  ghost predicate Good(r: (Tree, nat)) {
    Root(r.0, r.1) && Sorted(InOrder(r.0))
  }

  lemma {:induction false} RootDelete(t: Tree, v: int, h: nat)
    requires Good((t, h))
    ensures var r := Delete(t, v, true, h);
      && Good((r, if Shape(r, h) then h else h - 1))
      && multiset(InOrder(r)) == multiset(InOrder(t)) - multiset{v}
  {
    DeleteKeeps(t, v, true, h);
    if v in InOrder(t) {
      AddsSorted(InOrder(Delete(t, v, true, h)), v, InOrder(t));
      AddsOnce(InOrder(Delete(t, v, true, h)), v, InOrder(t));
    }
  }

  ghost function Grown(ops: seq<Op>): (r: (Tree, nat))
    ensures Good(r) && multiset(InOrder(r.0)) == Bag(ops)
  {
    if ops == [] then (Tree(true, [], []), 0)
    else
      var (t, h) := Grown(ops[..|ops| - 1]);
      match ops[|ops| - 1]
      case Put(v) =>
        InsertRootKeeps(t, v, h);
        AddsOnce(InOrder(t), v, InOrder(InsertRoot(t, v, h)));
        (InsertRoot(t, v, h), if |t.keys| == N - 1 then h + 1 else h)
      case Remove(v) =>
        RootDelete(t, v, h);
        var r := Delete(t, v, true, h);
        (r, if Shape(r, h) then h else h - 1)
  }
}
