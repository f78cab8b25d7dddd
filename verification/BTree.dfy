/** The B-tree in memory: nodes with arrays of keys and children, shifted in place. A ghost image
    says which nodes hold which part of the tree. The arrays are part of the node, so they are
    fields of a fixed length, and like the program they leave out index 0. */
module BTree {
  import opened BTreeSpec

  // ----- arrays shifted and copied -----

  ghost predicate MovedUp<T>(a: seq<T>, was: seq<T>, lo: int, hi: int) {
    && |a| == |was|
    && forall x {:trigger a[x]} :: 0 <= x < |a| ==> a[x] == if 0 <= lo < x <= hi then was[x - 1] else was[x]
  }

  ghost predicate MovedDown<T>(a: seq<T>, was: seq<T>, lo: int, hi: int) {
    && |a| == |was|
    && forall x {:trigger a[x]} :: 0 <= x < |a| ==>
         a[x] == if lo <= x < hi && x + 1 < |a| then was[x + 1] else was[x]
  }

  ghost predicate Copied<T>(a: seq<T>, was: seq<T>, src: seq<T>, d: nat, o: nat, m: nat) {
    && |a| == |was| == |src|
    && forall x {:trigger a[x]} :: 0 <= x < |a| ==>
         a[x] == if d < x <= d + m && x - d + o < |a| then src[x - d + o] else was[x]
  }

  function PutAt<T>(s: seq<T>, i: nat, x: T): (r: seq<T>)
    requires i <= |s|
    ensures |r| == |s| + 1 && r[i] == x
  {
    s[..i] + [x] + s[i..]
  }

  function CutAt<T>(s: seq<T>, i: nat): (r: seq<T>)
    requires i < |s|
    ensures |r| == |s| - 1
  {
    s[..i] + s[i + 1..]
  }

  function Glued<T>(a: seq<T>, x: T, b: seq<T>): (r: seq<T>)
    ensures |r| == |a| + 1 + |b|
  {
    a + [x] + b
  }

  lemma PutAtIndex<T>(s: seq<T>, i: nat, x: T, k: nat)
    requires i <= |s| && k <= |s|
    ensures PutAt(s, i, x)[k] == if k < i then s[k] else if k == i then x else s[k - 1]
  {
  }

  lemma Opened<T>(a: seq<T>, was: seq<T>, i: nat, m: nat, x: T)
    requires MovedUp(a, was, i, m + 1) && 1 <= i <= m + 1 < |a|
    ensures a[i := x][1..m + 2] == PutAt(was[1..m + 1], i - 1, x)
  {
    var w := was[1..m + 1];
    var b, c := a[i := x][1..m + 2], PutAt(w, i - 1, x);
    hide PutAt;
    forall k | 0 <= k < |b| ensures b[k] == c[k] {
      PutAtIndex(w, i - 1, x, k);
      assert b[k] == a[i := x][k + 1];
      assert k < |w| ==> w[k] == was[k + 1];
      assert k > 0 ==> w[k - 1] == was[k];
    }
  }

  /** The place of a new key is the only one with larger keys behind it and none in front. */
  lemma AboveAt(keys: seq<int>, v: int, i: nat)
    requires i <= |keys| && (forall x :: i <= x < |keys| ==> v < keys[x]) && (i > 0 ==> keys[i - 1] <= v)
    ensures i == FirstAbove(keys, v)
  {
    var f := FirstAbove(keys, v);
    assert !(i < f) && !(f < i);
  }

  lemma NotBelowAt(keys: seq<int>, v: int, i: nat)
    requires i <= |keys| && (forall x :: 0 <= x < i ==> keys[x] < v) && (i < |keys| ==> v <= keys[i])
    ensures i == FirstNotBelow(keys, v)
  {
    var f := FirstNotBelow(keys, v);
    assert !(i < f) && !(f < i);
  }

  lemma Closed<T>(a: seq<T>, was: seq<T>, i: nat, m: nat)
    requires MovedDown(a, was, i, m) && 1 <= i <= m < |a|
    ensures a[1..m] == was[1..m + 1][..i - 1] + was[1..m + 1][i..]
  {
    var b, c := a[1..m], was[1..m + 1][..i - 1] + was[1..m + 1][i..];
    forall k | 0 <= k < |b| ensures b[k] == c[k] {
      assert b[k] == a[k + 1];
      assert c[k] == if k < i - 1 then was[k + 1] else was[k + 2];
    }
  }

  lemma CopiedPart<T>(a: seq<T>, was: seq<T>, src: seq<T>, d: nat, o: nat, m: nat)
    requires Copied(a, was, src, d, o, m) && d + m < |a| && o + m < |a|
    ensures a[d + 1..d + m + 1] == src[o + 1..o + m + 1] && a[..d + 1] == was[..d + 1]
  {
    var b, c := a[d + 1..d + m + 1], src[o + 1..o + m + 1];
    forall k | 0 <= k < |b| ensures b[k] == c[k] { assert b[k] == a[d + 1 + k]; }
    forall k | 0 <= k <= d ensures a[k] == was[k] {}
  }

  class Node {
    var isLeaf: bool
    var n: nat
    var key: seq<int>
    var ptr: seq<Node?>

    constructor ()
      ensures |key| == N && |ptr| == N + 1
    {
      isLeaf := true;
      n := 0;
      key := seq(N, _ => 0);
      ptr := seq(N + 1, _ => null);
    }

    /** The node holds these keys, and points to these children. */
    ghost predicate Holds(leaf: bool, keys: seq<int>, kids: seq<Node>)
      reads this
    {
      && |key| == N && |ptr| == N + 1 && isLeaf == leaf && n == |keys| < N && key[1..n + 1] == keys
      && if leaf then kids == [] else |kids| == n + 1 && ptr[1..n + 2] == kids
    }

    // ----- the loops over the arrays -----

    /** The keys from index i on move up by one. */
    method KeysUp(i: nat)
      requires |key| == N && 1 <= i <= n + 1 < N
      modifies `key
      ensures MovedUp(key, old(key), i, n + 1)
    {
      ghost var k := key;
      var j := n;
      while j >= i
        invariant i - 1 <= j <= n && MovedUp(key, k, j + 1, n + 1)
      {
        key := key[j + 1 := key[j]];
        j := j - 1;
      }
    }

    /** The keys behind index i move down by one. */
    method KeysDown(i: nat)
      requires |key| == N && 1 <= i <= n < N
      modifies `key
      ensures MovedDown(key, old(key), i, n)
    {
      ghost var k := key;
      var j := i + 1;
      while j <= n
        invariant i < j <= n + 1 && MovedDown(key, k, i, j - 1)
      {
        key := key[j - 1 := key[j]];
        j := j + 1;
      }
    }

    method PtrsUp(i: nat)
      requires |ptr| == N + 1 && 1 <= i <= n + 2 <= N
      modifies `ptr
      ensures MovedUp(ptr, old(ptr), i, n + 2)
    {
      ghost var k := ptr;
      var j := n + 1;
      while j >= i
        invariant i - 1 <= j <= n + 1 && MovedUp(ptr, k, j + 1, n + 2)
      {
        ptr := ptr[j + 1 := ptr[j]];
        j := j - 1;
      }
    }

    method PtrsDown(i: nat)
      requires |ptr| == N + 1 && 1 <= i <= n + 1 <= N
      modifies `ptr
      ensures MovedDown(ptr, old(ptr), i, n + 1)
    {
      ghost var k := ptr;
      var j := i + 1;
      while j <= n + 1
        invariant i < j <= n + 2 && MovedDown(ptr, k, i, j - 1)
      {
        ptr := ptr[j - 1 := ptr[j]];
        j := j + 1;
      }
    }

    /** Room is made for a key at index i, which is written there. */
    method PutKey(i: nat, k: int)
      requires |key| == N && 1 <= i <= n + 1 < N
      modifies `key
      ensures |key| == N && key[1..n + 2] == PutAt(old(key[1..n + 1]), i - 1, k)
    {
      ghost var was := key;
      KeysUp(i);
      Opened(key, was, i, n, k);
      key := key[i := k];
    }

    /** Room is made for a child at index i, which is written there. */
    method PutPtr(i: nat, t: Node)
      requires |ptr| == N + 1 && 1 <= i <= n + 2 <= N
      modifies `ptr
      ensures |ptr| == N + 1 && ptr[1..n + 3] == PutAt(old(ptr[1..n + 2]), i - 1, t)
    {
      ghost var was := ptr;
      PtrsUp(i);
      Opened(ptr, was, i, n + 1, t);
      ptr := ptr[i := t];
    }

    /** The larger keys of a leaf are shifted up until the place of a new one is met. */
    method ShiftAbove(v: int, ghost keys: seq<int>) returns (i: nat)
      requires Holds(true, keys, []) && |keys| < N - 1
      modifies `key
      ensures i == FirstAbove(keys, v) && MovedUp(key, old(key), i + 1, n + 1)
    {
      ghost var was := key;
      i := n;
      while i >= 1 && v < key[i]
        invariant 0 <= i <= n && MovedUp(key, was, i + 1, n + 1)
        invariant forall x :: i <= x < n ==> v < keys[x]
      {
        assert keys[i - 1] == was[i];
        key := key[i + 1 := key[i]];
        i := i - 1;
      }
      assert i > 0 ==> keys[i - 1] == was[i];
      AboveAt(keys, v, i);
    }

    /** The part of ins_nFull for a leaf. */
    method InsertKey(v: int, ghost keys: seq<int>)
      requires Holds(true, keys, []) && |keys| < N - 1
      modifies `key, `n
      ensures Holds(true, PutAt(keys, FirstAbove(keys, v), v), [])
    {
      hide FirstAbove, PutAt;
      ghost var was := key;
      var i := ShiftAbove(v, keys);
      ghost var over := key;
      key := key[i + 1 := v];
      assert key[1..n + 2] == PutAt(keys, i, v) by { Opened(over, was, i + 1, n, v); }
      hide MovedUp;
      n := n + 1;
    }

    /** The loop that looks for the place of a new key among the children. */
    method ChildAbove(v: int, ghost keys: seq<int>, ghost kids: seq<Node>) returns (i: nat)
      requires Holds(false, keys, kids)
      ensures i == FirstAbove(keys, v) + 1
    {
      i := n;
      while i >= 1 && v < key[i]
        invariant 0 <= i <= n && forall x :: i <= x < n ==> v < keys[x]
      {
        assert keys[i - 1] == key[i];
        i := i - 1;
      }
      AboveAt(keys, v, i);
      i := i + 1;
    }

    /** The key at index i is taken out. */
    method TakeKey(i: nat, ghost keys: seq<int>)
      requires |key| == N && n == |keys| < N && key[1..n + 1] == keys && 1 <= i <= n
      modifies `key
      ensures |key| == N && key[1..n] == keys[..i - 1] + keys[i..]
    {
      ghost var was := key;
      KeysDown(i);
      Closed(key, was, i, n);
    }

    /** The child at index i is taken out. */
    method TakePtr(i: nat, ghost kids: seq<Node>)
      requires |ptr| == N + 1 && n + 1 == |kids| <= N && ptr[1..n + 2] == kids && 1 <= i <= n + 1
      modifies `ptr
      ensures |ptr| == N + 1 && ptr[1..n + 1] == kids[..i - 1] + kids[i..]
    {
      ghost var was := ptr;
      PtrsDown(i);
      Closed(ptr, was, i, n + 1);
    }

    /** The key at index i is overwritten. */
    method SetKey(i: nat, k: int, ghost leaf: bool, ghost keys: seq<int>, ghost kids: seq<Node>)
      requires Holds(leaf, keys, kids) && 1 <= i <= |keys|
      modifies `key
      ensures Holds(leaf, keys[i - 1 := k], kids)
    {
      key := key[i := k];
    }

    /** A key is put in front, and the last child of another node. */
    method PushFront(k: int, from: Node, ghost leaf: bool, ghost keys: seq<int>, ghost kids: seq<Node>,
                     ghost fk: seq<int>, ghost fc: seq<Node>)
      requires Holds(leaf, keys, kids) && |keys| < N - 1 && from != this && from.Holds(leaf, fk, fc)
      modifies this
      ensures Holds(leaf, [k] + keys, LastPart(fc) + kids)
    {
      PutKey(1, k);
      if !isLeaf {
        var last: Node := from.ptr[from.n + 1];
        PutPtr(1, last);
        assert PutAt(kids, 0, last) == [last] + kids && LastPart(fc) == [last];
      } else {
        assert LastPart(fc) + kids == [];
      }
      n := n + 1;
      assert PutAt(keys, 0, k) == [k] + keys;
    }

    /** The last key and the last child are given up. */
    method DropBack(ghost leaf: bool, ghost keys: seq<int>, ghost kids: seq<Node>)
      requires Holds(leaf, keys, kids) && |keys| >= 1
      modifies `n
      ensures Holds(leaf, DropLast(keys), DropLast(kids))
    {
      n := n - 1;
    }

    /** A key is put behind the others, and the first child of another node. */
    method PushBack(k: int, from: Node, ghost leaf: bool, ghost keys: seq<int>, ghost kids: seq<Node>,
                    ghost fk: seq<int>, ghost fc: seq<Node>)
      requires Holds(leaf, keys, kids) && |keys| < N - 1 && from != this && from.Holds(leaf, fk, fc)
      modifies this
      ensures Holds(leaf, keys + [k], kids + Take(fc, 1))
    {
      key := key[n + 1 := k];
      if !isLeaf {
        var first: Node := from.ptr[1];
        ptr := ptr[n + 2 := first];
        assert Take(fc, 1) == [first] && ptr[1..n + 3] == kids + [first];
      }
      n := n + 1;
      assert key[1..n + 1] == keys + [k];
    }

    /** The first key and the first child are taken out. */
    method DropFront(ghost leaf: bool, ghost keys: seq<int>, ghost kids: seq<Node>)
      requires Holds(leaf, keys, kids) && |keys| >= 1
      modifies this
      ensures Holds(leaf, keys[1..], Drop(kids, 1))
    {
      TakeKey(1, keys);
      assert keys[..0] + keys[1..] == keys[1..];
      if !isLeaf {
        TakePtr(1, kids);
        assert kids[..0] + kids[1..] == Drop(kids, 1);
      }
      n := n - 1;
    }

    /** A key is put behind the others, and all keys and children of another node behind it. */
    method Append(k: int, r: Node, ghost leaf: bool, ghost lk: seq<int>, ghost lc: seq<Node>,
                  ghost rk: seq<int>, ghost rc: seq<Node>)
      requires Holds(leaf, lk, lc) && r != this && r.Holds(leaf, rk, rc) && |lk| == |rk| == MIN_CHILD - 1
      modifies this
      ensures Holds(leaf, Glued(lk, k, rk), lc + rc)
    {
      key := key[MIN_CHILD := k];
      ghost var wk, wp := key, ptr;
      assert wk[1..MIN_CHILD + 1] == lk + [k];
      CopyKeys(r, r.n, MIN_CHILD, 0);
      CopiedPart(key, wk, r.key, MIN_CHILD, 0, MIN_CHILD - 1);
      assert key[1..N] == key[..MIN_CHILD + 1][1..] + key[MIN_CHILD + 1..N];
      if !isLeaf {
        CopyPtrs(r, r.n + 1, MIN_CHILD, 0);
        CopiedPart(ptr, wp, r.ptr, MIN_CHILD, 0, MIN_CHILD);
        assert ptr[1..N + 1] == ptr[..MIN_CHILD + 1][1..] + ptr[MIN_CHILD + 1..N + 1];
      }
      n := n + r.n;
      n := n + 1;
    }

    /** The key at index i and the child behind it are taken out. */
    method TakeKid(i: nat, ghost keys: seq<int>, ghost kids: seq<Node>)
      requires Holds(false, keys, kids) && 1 <= i <= |keys|
      modifies this
      ensures Holds(false, CutAt(keys, i - 1), CutAt(kids, i))
    {
      TakeKey(i, keys);
      TakePtr(i + 1, kids);
      n := n - 1;
    }

    /** delLeaf */
    method DelLeaf(i: nat, ghost keys: seq<int>)
      requires Holds(true, keys, []) && 1 <= i <= |keys|
      modifies `key, `n
      ensures Holds(true, CutAt(keys, i - 1), [])
    {
      TakeKey(i, keys);
      n := n - 1;
    }

    /** The loop that looks for the first key not below v. */
    method FirstAt(v: int, ghost keys: seq<int>) returns (i: nat)
      requires |key| == N && n == |keys| < N && key[1..n + 1] == keys
      ensures i == FirstNotBelow(keys, v) + 1
    {
      i := 1;
      while i <= n && v > key[i]
        invariant 1 <= i <= n + 1 && forall x :: 0 <= x < i - 1 ==> keys[x] < v
      {
        assert keys[i - 1] == key[i];
        i := i + 1;
      }
      assert i <= n ==> keys[i - 1] == key[i];
      NotBelowAt(keys, v, i - 1);
    }

    /** m keys of another node, those behind index o, are written behind index d. */
    method CopyKeys(src: Node, m: nat, d: nat, o: nat)
      requires src != this && |key| == N && |src.key| == N && d + m < N && o + m < N
      modifies `key
      ensures Copied(key, old(key), src.key, d, o, m)
    {
      ghost var k := key;
      var b := 1;
      while b <= m
        invariant 1 <= b <= m + 1 && Copied(key, k, src.key, d, o, b - 1)
      {
        key := key[d + b := src.key[o + b]];
        b := b + 1;
      }
    }

    method CopyPtrs(src: Node, m: nat, d: nat, o: nat)
      requires src != this && |ptr| == N + 1 && |src.ptr| == N + 1 && d + m <= N && o + m <= N
      modifies `ptr
      ensures Copied(ptr, old(ptr), src.ptr, d, o, m)
    {
      ghost var k := ptr;
      var b := 1;
      while b <= m
        invariant 1 <= b <= m + 1 && Copied(ptr, k, src.ptr, d, o, b - 1)
      {
        ptr := ptr[d + b := src.ptr[o + b]];
        b := b + 1;
      }
    }
  }

  // ----- images -----

  datatype Image = Image(node: Node, leaf: bool, keys: seq<int>, kids: seq<Image>)

  ghost function Nodes(s: Image): set<Node>
    decreases s
  {
    {s.node} + Kin(s.kids)
  }

  ghost function Kin(kids: seq<Image>): set<Node>
    decreases kids
  {
    set i, x | 0 <= i < |kids| && x in Nodes(kids[i]) :: x
  }

  function Heads(kids: seq<Image>): seq<Node> {
    seq(|kids|, i requires 0 <= i < |kids| => kids[i].node)
  }

  /** The tree without its nodes. */
  ghost function Plain(s: Image): Tree
    decreases s
  {
    Tree(s.leaf, s.keys, Plains(s.kids))
  }

  ghost function Plains(kids: seq<Image>): seq<Tree>
    decreases kids
  {
    seq(|kids|, i requires 0 <= i < |kids| => Plain(kids[i]))
  }

  /** No node occurs twice. */
  ghost predicate Distinct(s: Image)
    decreases s
  {
    s.node !in Kin(s.kids) && Apart(s.kids)
  }

  ghost predicate Apart(kids: seq<Image>)
    decreases kids
  {
    && (forall i :: 0 <= i < |kids| ==> Distinct(kids[i]))
    && forall i, j :: 0 <= i < j < |kids| ==> Nodes(kids[i]) !! Nodes(kids[j])
  }

  /** The memory is as in the image. */
  ghost predicate Matches(s: Image)
    reads Nodes(s)
    decreases s
  {
    s.node.Holds(s.leaf, s.keys, Heads(s.kids)) && MatchAll(s.kids)
  }

  ghost predicate MatchAll(kids: seq<Image>)
    reads Kin(kids)
    decreases kids
  {
    forall i :: 0 <= i < |kids| ==> Matches(kids[i])
  }

  /** Children side by side. */
  lemma Concat(a: seq<Image>, b: seq<Image>)
    ensures Kin(a + b) == Kin(a) + Kin(b)
    ensures Apart(a + b) <==> Apart(a) && Apart(b) && Kin(a) !! Kin(b)
    ensures MatchAll(a + b) <==> MatchAll(a) && MatchAll(b)
  {
    ConcatKin(a, b);
    ConcatApart(a, b);
    ConcatMatch(a, b);
  }

  lemma ConcatKin(a: seq<Image>, b: seq<Image>)
    ensures Kin(a + b) == Kin(a) + Kin(b)
  {
    hide Nodes;
    var c := a + b;
    assert (forall i :: 0 <= i < |a| ==> a[i] == c[i]) && (forall i :: 0 <= i < |b| ==> b[i] == c[|a| + i]);
    forall x | x in Kin(c) ensures x in Kin(a) + Kin(b) {
      var i :| 0 <= i < |c| && x in Nodes(c[i]);
      assert if i < |a| then x in Nodes(a[i]) else x in Nodes(b[i - |a|]);
    }
  }

  lemma KinOf(a: seq<Image>, i: nat)
    requires i < |a|
    ensures Nodes(a[i]) <= Kin(a)
  {
  }

  lemma ConcatApart(a: seq<Image>, b: seq<Image>)
    ensures Apart(a + b) <==> Apart(a) && Apart(b) && Kin(a) !! Kin(b)
  {
    if Apart(a + b) { ApartParts(a, b); }
    if Apart(a) && Apart(b) && Kin(a) !! Kin(b) { ApartJoin(a, b); }
  }

  lemma ApartParts(a: seq<Image>, b: seq<Image>)
    requires Apart(a + b)
    ensures Apart(a) && Apart(b) && Kin(a) !! Kin(b)
  {
    hide Nodes, Distinct;
    var c := a + b;
    assert (forall i :: 0 <= i < |a| ==> a[i] == c[i]) && (forall i :: 0 <= i < |b| ==> b[i] == c[|a| + i]);
    forall i, j | 0 <= i < |a| && 0 <= j < |b| ensures Nodes(a[i]) !! Nodes(b[j]) { assert b[j] == c[|a| + j]; }
  }

  lemma ApartJoin(a: seq<Image>, b: seq<Image>)
    requires Apart(a) && Apart(b) && Kin(a) !! Kin(b)
    ensures Apart(a + b)
  {
    hide Nodes, Distinct;
    var c := a + b;
    forall i, j | 0 <= i < j < |c| ensures Nodes(c[i]) !! Nodes(c[j]) {
      if i < |a| <= j {
        KinOf(a, i);
        KinOf(b, j - |a|);
      }
    }
  }

  lemma ConcatMatch(a: seq<Image>, b: seq<Image>)
    ensures MatchAll(a + b) <==> MatchAll(a) && MatchAll(b)
  {
    var c := a + b;
    assert (forall i :: 0 <= i < |a| ==> a[i] == c[i]) && (forall i :: 0 <= i < |b| ==> b[i] == c[|a| + i]);
  }

  /** One child. */
  lemma Single(k: Image)
    ensures Kin([k]) == Nodes(k)
    ensures (Apart([k]) <==> Distinct(k)) && (MatchAll([k]) <==> Matches(k))
  {
    forall x | x in Nodes(k) ensures x in Kin([k]) { assert x in Nodes([k][0]); }
    assert [k][0] == k;
  }

  lemma Three(a: seq<Image>, m: seq<Image>, b: seq<Image>)
    ensures Kin(a + m + b) == Kin(a) + Kin(m) + Kin(b)
    ensures Apart(a + m + b) <==> Apart(a) && Apart(m) && Apart(b) && Kin(a) !! Kin(m) !! Kin(b)
    ensures MatchAll(a + m + b) <==> MatchAll(a) && MatchAll(m) && MatchAll(b)
  {
    Concat(a, m);
    Concat(a + m, b);
    hide Kin, Apart, MatchAll;
  }

  /** The children around one of them. */
  lemma About(kids: seq<Image>, i: nat)
    requires i < |kids|
    ensures var a, k, b := kids[..i], kids[i], kids[i + 1..];
      && Kin(kids) == Kin(a) + Nodes(k) + Kin(b)
      && (Apart(kids) <==> Apart(a) && Distinct(k) && Apart(b) && Kin(a) !! Nodes(k) !! Kin(b))
      && (MatchAll(kids) <==> MatchAll(a) && Matches(k) && MatchAll(b))
  {
    assert kids == kids[..i] + [kids[i]] + kids[i + 1..];
    Three(kids[..i], [kids[i]], kids[i + 1..]);
    Single(kids[i]);
    hide Kin, Apart, MatchAll, Nodes, Matches, Distinct;
  }

  lemma Pair(l: Image, r: Image)
    ensures Kin([l, r]) == Nodes(l) + Nodes(r)
    ensures Apart([l, r]) <==> Distinct(l) && Distinct(r) && Nodes(l) !! Nodes(r)
    ensures MatchAll([l, r]) <==> Matches(l) && Matches(r)
  {
    assert [l, r] == [l] + [r];
    Single(l);
    Single(r);
    Concat([l], [r]);
    hide Kin, Apart, MatchAll, Nodes, Matches, Distinct;
  }

  /** An image taken apart. */
  lemma Unfold(s: Image)
    ensures Nodes(s) == {s.node} + Kin(s.kids)
    ensures Distinct(s) <==> s.node !in Kin(s.kids) && Apart(s.kids)
    ensures Plain(s) == Tree(s.leaf, s.keys, Plains(s.kids))
    ensures Matches(s) <==> s.node.Holds(s.leaf, s.keys, Heads(s.kids)) && MatchAll(s.kids)
  {
  }

  /** Children i up to j replaced by others, which have only nodes of theirs or new ones. */
  lemma Replaced(s: Image, i: nat, j: nat, m: seq<Image>, r: Image)
    requires i <= j <= |s.kids| && Distinct(s) && Apart(m)
    requires r.node == s.node && r.kids == s.kids[..i] + m + s.kids[j..]
    requires Kin(m) * Nodes(s) <= Kin(s.kids[i..j])
    ensures Distinct(r) && Nodes(r) == Nodes(s) - Kin(s.kids[i..j]) + Kin(m)
  {
    var a, o, b := s.kids[..i], s.kids[i..j], s.kids[j..];
    assert s.kids == a + o + b;
    Three(a, o, b);
    Three(a, m, b);
    Unfold(s);
    Unfold(r);
    hide Kin, Apart, Nodes, Distinct, MatchAll, Matches, Plain;
    SetsReplaced(s.node, Kin(a), Kin(o), Kin(b), Kin(m));
  }

  lemma SetsReplaced(x: Node, a: set<Node>, o: set<Node>, b: set<Node>, m: set<Node>)
    requires x !in a + o + b && a !! o !! b && m * ({x} + (a + o + b)) <= o
    ensures x !in a + m + b && a !! m !! b && {x} + (a + m + b) == {x} + (a + o + b) - o + m
  {
  }

  // ----- splitting -----

  /** The half of a full node behind its middle key moves to a new node. */
  method HalfOff(c: Node, ghost leaf: bool, ghost ck: seq<int>, ghost cc: seq<Node>) returns (t: Node)
    requires c.Holds(leaf, ck, cc) && |ck| == N - 1
    modifies c
    ensures fresh(t) && c.key == old(c.key)
    ensures c.Holds(leaf, Take(ck, MIN_CHILD - 1), Take(cc, MIN_CHILD))
    ensures t.Holds(leaf, Drop(ck, MIN_CHILD), Drop(cc, MIN_CHILD))
  {
    t := new Node();
    t.isLeaf := c.isLeaf;
    t.n := MIN_CHILD - 1;
    ghost var k, p := t.key, t.ptr;
    t.CopyKeys(c, t.n, 0, MIN_CHILD);
    CopiedPart(t.key, k, c.key, 0, MIN_CHILD, MIN_CHILD - 1);
    if !c.isLeaf {
      t.CopyPtrs(c, MIN_CHILD, 0, MIN_CHILD);
      CopiedPart(t.ptr, p, c.ptr, 0, MIN_CHILD, MIN_CHILD);
    }
    c.n := MIN_CHILD - 1;
  }

  /** A key at index i, and the child behind it. */
  method PutKid(q: Node, i: nat, k: int, t: Node, ghost qk: seq<int>, ghost qc: seq<Node>)
    requires q.Holds(false, qk, qc) && 1 <= i <= |qc| && |qk| < N - 1
    modifies q
    ensures q.Holds(false, PutAt(qk, i - 1, k), PutAt(qc, i, t))
  {
    q.PutPtr(i + 1, t);
    q.PutKey(i, k);
    q.n := q.n + 1;
  }

  ghost function LeftImage(c: Image): Image
    requires |c.keys| == N - 1
  {
    Image(c.node, c.leaf, c.keys[..MIN_CHILD - 1], Take(c.kids, MIN_CHILD))
  }

  ghost function RightImage(c: Image, t: Node): Image
    requires |c.keys| == N - 1
  {
    Image(t, c.leaf, c.keys[MIN_CHILD..], Drop(c.kids, MIN_CHILD))
  }

  ghost function SplitImage(s: Image, i: nat, t: Node): Image
    requires i <= |s.keys| && i < |s.kids| && |s.kids[i].keys| == N - 1
  {
    var c := s.kids[i];
    Image(s.node, s.leaf, s.keys[..i] + [c.keys[MIN_CHILD - 1]] + s.keys[i..],
          s.kids[..i] + [LeftImage(c), RightImage(c, t)] + s.kids[i + 1..])
  }

  lemma HalvesNodes(c: Image, t: Node)
    requires |c.keys| == N - 1 && Distinct(c) && t !in Nodes(c)
    ensures Distinct(LeftImage(c)) && Distinct(RightImage(c, t)) && Nodes(LeftImage(c)) !! Nodes(RightImage(c, t))
    ensures Nodes(LeftImage(c)) + Nodes(RightImage(c, t)) == Nodes(c) + {t}
  {
    var l, r := LeftImage(c), RightImage(c, t);
    assert c.kids == l.kids + r.kids;
    Concat(l.kids, r.kids);
    hide Kin, Apart;
  }

  lemma HalvesPlain(c: Image, t: Node)
    requires |c.keys| == N - 1
    ensures Plain(LeftImage(c)) == LeftHalf(Plain(c)) && Plain(RightImage(c, t)) == RightHalf(Plain(c))
    ensures Heads(LeftImage(c).kids) == Take(Heads(c.kids), MIN_CHILD)
    ensures Heads(RightImage(c, t).kids) == Drop(Heads(c.kids), MIN_CHILD)
  {
    var l, r := LeftImage(c), RightImage(c, t);
    assert Plain(l).kids == LeftHalf(Plain(c)).kids;
    assert Plain(r).kids == RightHalf(Plain(c)).kids;
  }

  lemma HalvesPair(c: Image, t: Node)
    requires |c.keys| == N - 1 && Distinct(c) && t !in Nodes(c)
    ensures Apart([LeftImage(c), RightImage(c, t)]) && Kin([LeftImage(c), RightImage(c, t)]) == Nodes(c) + {t}
  {
    HalvesNodes(c, t);
    Pair(LeftImage(c), RightImage(c, t));
    hide *;
  }

  lemma KinAt(kids: seq<Image>, i: nat)
    requires i < |kids|
    ensures Kin(kids[i..i + 1]) == Nodes(kids[i]) <= Kin(kids) && (Apart(kids) ==> Distinct(kids[i]))
  {
    assert kids[i..i + 1] == [kids[i]];
    Single(kids[i]);
  }

  lemma SplitNodes(s: Image, i: nat, t: Node)
    requires i <= |s.keys| && i < |s.kids| && |s.kids[i].keys| == N - 1 && Distinct(s) && t !in Nodes(s)
    ensures var r := SplitImage(s, i, t);
      Distinct(r) && Nodes(r) == Nodes(s) + {t}
  {
    var c, r := s.kids[i], SplitImage(s, i, t);
    Unfold(s);
    KinAt(s.kids, i);
    HalvesPair(c, t);
    hide Kin, Apart, Nodes, Distinct, MatchAll, Matches, LeftImage, RightImage;
    Replaced(s, i, i + 1, [LeftImage(c), RightImage(c, t)], r);
  }

  lemma SplitPlain(s: Image, i: nat, t: Node)
    requires i <= |s.keys| && i < |s.kids| && |s.kids[i].keys| == N - 1
    ensures |Heads(s.kids)| == |s.kids| && Heads(SplitImage(s, i, t).kids) == PutAt(Heads(s.kids), i + 1, t)
    ensures i < |Plain(s).kids| && Plain(s).kids[i] == Plain(s.kids[i])
    ensures Plain(SplitImage(s, i, t)) == SplitChild(Plain(s), i)
  {
    var c := s.kids[i];
    HalvesPlain(c, t);
  }

  lemma SplitMatches(s: Image, i: nat, t: Node)
    requires i <= |s.keys| && i < |s.kids| && |s.kids[i].keys| == N - 1
    requires MatchAll(s.kids[..i]) && MatchAll(s.kids[i + 1..])
    requires Matches(LeftImage(s.kids[i])) && Matches(RightImage(s.kids[i], t))
    ensures MatchAll(SplitImage(s, i, t).kids)
  {
    var c := s.kids[i];
    Three(s.kids[..i], [LeftImage(c), RightImage(c, t)], s.kids[i + 1..]);
    Pair(LeftImage(c), RightImage(c, t));
    hide Kin, Apart, Nodes, Distinct, MatchAll, Matches, LeftImage, RightImage;
  }

  lemma HalvesMatch(c: Image, t: Node)
    requires |c.keys| == N - 1 && MatchAll(c.kids)
    ensures MatchAll(LeftImage(c).kids) && MatchAll(RightImage(c, t).kids)
  {
    assert c.kids == LeftImage(c).kids + RightImage(c, t).kids;
    Concat(LeftImage(c).kids, RightImage(c, t).kids);
  }

  /** The nodes of a full child, of its parent and of the new node after the split. */
  method SplitNode(q: Node, i: nat, ghost qk: seq<int>, ghost qc: seq<Node>, ghost leaf: bool, ghost ck: seq<int>,
                   ghost cc: seq<Node>) returns (t: Node)
    requires q.Holds(false, qk, qc) && 1 <= i <= |qc| && |qk| < N - 1
    requires qc[i - 1] != q && qc[i - 1].Holds(leaf, ck, cc) && |ck| == N - 1
    modifies q, qc[i - 1]
    ensures fresh(t)
    ensures q.Holds(false, PutAt(qk, i - 1, ck[MIN_CHILD - 1]), PutAt(qc, i, t))
    ensures qc[i - 1].Holds(leaf, Take(ck, MIN_CHILD - 1), Take(cc, MIN_CHILD))
    ensures t.Holds(leaf, Drop(ck, MIN_CHILD), Drop(cc, MIN_CHILD))
  {
    var c: Node := q.ptr[i];
    t := HalfOff(c, leaf, ck, cc);
    PutKid(q, i, c.key[MIN_CHILD], t, qk, qc);
  }

  /** splitIChild: a full child is split, and its middle key goes up. */
  method SplitIChild(q: Node, i: nat, ghost s: Image, ghost all: set<Node>) returns (ghost r: Image)
    requires Nodes(s) <= all && Matches(s) && Distinct(s) && q == s.node
    requires !s.leaf && 1 <= i <= |s.kids| && |s.keys| < N - 1
    requires |s.kids| == |s.keys| + 1 && |s.kids[i - 1].keys| == N - 1
    modifies q, s.kids[i - 1].node
    ensures (forall z :: z in Nodes(r) ==> z in Nodes(s) || fresh(z)) && Nodes(s) <= Nodes(r)
    ensures Matches(r) && Distinct(r) && r.node == q
    ensures i - 1 < |Plain(s).kids| && |Plain(s).kids[i - 1].keys| == N - 1
    ensures Plain(r) == SplitChild(Plain(s), i - 1)
  {
    hide *;
    var t := SplitMemory(q, i, s, all);
    SplitDone(s, i - 1, t);
    r := SplitImage(s, i - 1, t);
  }

  /** The nodes of a full child and its parent are rewritten; all others stay as they are. */
  method SplitMemory(q: Node, i: nat, ghost s: Image, ghost all: set<Node>) returns (t: Node)
    requires Nodes(s) <= all && Matches(s) && Distinct(s) && q == s.node && !s.leaf && 1 <= i <= |s.kids|
    requires |s.keys| < N - 1 && |s.kids| == |s.keys| + 1 && |s.kids[i - 1].keys| == N - 1
    modifies q, s.kids[i - 1].node
    ensures fresh(t) && t !in Nodes(s) && |Heads(s.kids)| == |s.kids|
    ensures MatchAll(Beside(s, i - 1))
    ensures var k := s.kids[i - 1];
      && s.node.Holds(s.leaf, PutAt(s.keys, i - 1, k.keys[MIN_CHILD - 1]), PutAt(Heads(s.kids), i, t))
      && k.node.Holds(k.leaf, Take(k.keys, MIN_CHILD - 1), Take(Heads(k.kids), MIN_CHILD))
      && t.Holds(k.leaf, Drop(k.keys, MIN_CHILD), Drop(Heads(k.kids), MIN_CHILD))
  {
    ghost var k := s.kids[i - 1];
    KidReady(s, i - 1, all);
    hide *;
    t := SplitNode(q, i, s.keys, Heads(s.kids), k.leaf, k.keys, Heads(k.kids));
  }

  /** The children but one, and the children of that one. */
  ghost function Beside(s: Image, i: nat): seq<Image>
    requires i < |s.kids|
  {
    s.kids[..i] + s.kids[i].kids + s.kids[i + 1..]
  }

  lemma BesideParts(s: Image, i: nat)
    requires i < |s.kids|
    ensures Kin(Beside(s, i)) == Kin(s.kids[..i]) + Kin(s.kids[i].kids) + Kin(s.kids[i + 1..])
    ensures MatchAll(Beside(s, i)) <==> MatchAll(s.kids[..i]) && MatchAll(s.kids[i].kids) && MatchAll(s.kids[i + 1..])
  {
    Three(s.kids[..i], s.kids[i].kids, s.kids[i + 1..]);
    hide Kin, Apart, MatchAll;
  }

  /** What may be done to a node and one of its children, and what it leaves alone. */
  lemma KidReady(s: Image, i: nat, all: set<Node>)
    requires Matches(s) && Distinct(s) && i < |s.kids| && Nodes(s) <= all
    ensures var k, o := s.kids[i], Kin(Beside(s, i));
      && s.node.Holds(s.leaf, s.keys, Heads(s.kids)) && k.node.Holds(k.leaf, k.keys, Heads(k.kids))
      && |Heads(s.kids)| == |s.kids| && Heads(s.kids)[i] == k.node && s.node != k.node
      && MatchAll(Beside(s, i)) && s.node !in o && k.node !in o && o <= all && s.node in Nodes(s) && k.node in Nodes(s)
  {
    hide *;
    Unfold(s);
    Unfold(s.kids[i]);
    About(s.kids, i);
    HeadsAt(s.kids);
    BesideParts(s, i);
  }

  /** Once the three nodes hold their parts, the memory is as in the image with the child split. */
  lemma SplitDone(s: Image, i: nat, t: Node)
    requires i <= |s.keys| && i < |s.kids| == |Heads(s.kids)|
    requires |s.kids[i].keys| == N - 1 && Distinct(s) && t !in Nodes(s)
    requires MatchAll(Beside(s, i))
    requires var k := s.kids[i];
      && s.node.Holds(s.leaf, PutAt(s.keys, i, k.keys[MIN_CHILD - 1]), PutAt(Heads(s.kids), i + 1, t))
      && k.node.Holds(k.leaf, Take(k.keys, MIN_CHILD - 1), Take(Heads(k.kids), MIN_CHILD))
      && t.Holds(k.leaf, Drop(k.keys, MIN_CHILD), Drop(Heads(k.kids), MIN_CHILD))
    ensures var r := SplitImage(s, i, t);
      && Matches(r) && Distinct(r) && r.node == s.node && Nodes(r) == Nodes(s) + {t}
      && i < |Plain(s).kids| && |Plain(s).kids[i].keys| == N - 1 && Plain(r) == SplitChild(Plain(s), i)
  {
    var k := s.kids[i];
    BesideParts(s, i);
    HalvesMatch(k, t);
    HalvesPlain(k, t);
    Unfold(LeftImage(k));
    Unfold(RightImage(k, t));
    SplitMatches(s, i, t);
    SplitNodes(s, i, t);
    SplitPlain(s, i, t);
    Unfold(SplitImage(s, i, t));
    hide Kin, Apart, Nodes, Distinct, MatchAll, Matches, Plain, Heads, Node.Holds;
  }

  lemma HeadsAt(kids: seq<Image>)
    ensures |Heads(kids)| == |kids| && forall i :: 0 <= i < |kids| ==> Heads(kids)[i] == kids[i].node
  {
  }

  // ----- insertion -----

  function WithKidImage(s: Image, i: nat, k: Image): Image
    requires i < |s.kids|
  {
    s.(kids := s.kids[i := k])
  }

  ghost function Rest(kids: seq<Image>, i: nat): seq<Image>
    requires i < |kids|
  {
    kids[..i] + kids[i + 1..]
  }

  /** A child changed in memory, and with it the image. */
  lemma KidDone(s: Image, i: nat, k: Image)
    requires Distinct(s) && i < |s.kids| && Distinct(k) && k.node == s.kids[i].node
    requires Nodes(k) * Nodes(s) <= Nodes(s.kids[i])
    ensures var r := WithKidImage(s, i, k);
      && Distinct(r) && Nodes(r) == Nodes(s) - Nodes(s.kids[i]) + Nodes(k)
      && r.node == s.node && Heads(r.kids) == Heads(s.kids)
      && i < |Plain(s).kids| && Plain(r) == WithKid(Plain(s), i, Plain(k))
      && (s.node.Holds(s.leaf, s.keys, Heads(s.kids)) && MatchAll(Rest(s.kids, i)) && Matches(k) ==> Matches(r))
  {
    var r := WithKidImage(s, i, k);
    KidPlain(s, i, k);
    Unfold(s);
    Unfold(r);
    KinAt(s.kids, i);
    Single(k);
    KidThree(s.kids, i, k);
    Concat(s.kids[..i], s.kids[i + 1..]);
    hide Kin, Apart, Nodes, Distinct, MatchAll, Matches, Plain, Heads, Node.Holds;
    Replaced(s, i, i + 1, [k], r);
  }

  lemma KidPlain(s: Image, i: nat, k: Image)
    requires i < |s.kids| && k.node == s.kids[i].node
    ensures Heads(WithKidImage(s, i, k).kids) == Heads(s.kids)
    ensures i < |Plain(s).kids| && Plain(WithKidImage(s, i, k)) == WithKid(Plain(s), i, Plain(k))
  {
    assert |Plain(s).kids| == |s.kids|;
    assert Plain(WithKidImage(s, i, k)).kids == WithKid(Plain(s), i, Plain(k)).kids;
  }

  lemma KidThree(kids: seq<Image>, i: nat, k: Image)
    requires i < |kids|
    ensures kids[i := k] == kids[..i] + [k] + kids[i + 1..]
    ensures MatchAll(kids[i := k]) <==> MatchAll(kids[..i]) && Matches(k) && MatchAll(kids[i + 1..])
  {
    assert kids[i := k] == kids[..i] + [k] + kids[i + 1..];
    Three(kids[..i], [k], kids[i + 1..]);
    Single(k);
  }

  /** The key goes into a leaf below x, which is not full. */
  method InsNFull(x: Node, v: int, ghost s: Image, ghost h: nat, ghost all: set<Node>) returns (ghost r: Image)
    requires Nodes(s) <= all && Matches(s) && Distinct(s) && x == s.node
    requires Shape(Plain(s), h) && |s.keys| < N - 1
    modifies Nodes(s)
    ensures Matches(r) && Distinct(r) && r.node == x && (forall z :: z in Nodes(r) ==> z in Nodes(s) || fresh(z))
    ensures Plain(r) == Insert(Plain(s), v, h)
    decreases h
  {
    LeafHolds(s, h);
    hide *;
    if x.isLeaf {
      x.InsertKey(v, s.keys);
      r := LeafGrown(s, v, h);
    } else {
      r := InsInner(x, v, s, h, all);
    }
  }

  /** The part of ins_nFull for a node with children. */
  method InsInner(x: Node, v: int, ghost s: Image, ghost h: nat, ghost all: set<Node>) returns (ghost r: Image)
    requires Nodes(s) <= all && Matches(s) && Distinct(s) && x == s.node
    requires Shape(Plain(s), h) && |s.keys| < N - 1 && !s.leaf
    modifies Nodes(s)
    ensures Matches(r) && Distinct(r) && r.node == x && (forall z :: z in Nodes(r) ==> z in Nodes(s) || fresh(z))
    ensures Plain(r) == Insert(Plain(s), v, h)
    decreases h, 1
  {
    hide *;
    var i; ghost var u;
    i, u := MakeRoom(x, v, s, h, all);
    RoomBelow(s, v, h, u, i - 1);
    r := InsBelow(x, i, v, u, h, Nodes(u));
  }

  /** The child the key belongs below is split when it is full. */
  method MakeRoom(x: Node, v: int, ghost s: Image, ghost h: nat, ghost all: set<Node>) returns (i: nat, ghost u: Image)
    requires Nodes(s) <= all && Matches(s) && Distinct(s) && x == s.node && !s.leaf
    requires Shape(Plain(s), h) && |s.keys| < N - 1
    modifies Nodes(s)
    ensures Matches(u) && Distinct(u) && u.node == x && (forall z :: z in Nodes(u) ==> z in Nodes(s) || fresh(z))
    ensures i >= 1 && |Plain(s).kids| == |s.keys| + 1 && (Plain(u), i - 1) == Room(Plain(s), v)
  {
    RoomReady(s, v, h, all);
    hide *;
    i := x.ChildAbove(v, s.keys, Heads(s.kids));
    u := s;
    var c: Node := x.ptr[i];
    if c.n == N - 1 {
      u := SplitIChild(x, i, s, all);
      KeyField(u, i - 1);
      if v > x.key[i] {
        i := i + 1;
      }
    }
  }

  lemma RoomReady(s: Image, v: int, h: nat, all: set<Node>)
    requires Nodes(s) <= all && Matches(s) && Distinct(s) && Shape(Plain(s), h) && |s.keys| < N - 1 && !s.leaf
    ensures |s.kids| == |s.keys| + 1 == |Plain(s).kids| && s.node.Holds(false, s.keys, Heads(s.kids))
    ensures var f, t := FirstAbove(s.keys, v), Plain(s);
      && f < |s.kids| && f + 1 < |s.node.ptr| && s.node.ptr[f + 1] == s.kids[f].node
      && s.kids[f].node.n == |s.kids[f].keys| && s.kids[f].node in Nodes(s) && s.node in Nodes(s)
      && |t.kids[f].keys| == |s.kids[f].keys|
      && (|s.kids[f].keys| != N - 1 ==> Room(t, v) == (t, f))
      && (|s.kids[f].keys| == N - 1 ==>
            var r := SplitChild(t, f);
            f < |r.keys| && Room(t, v) == (r, if v > r.keys[f] then f + 1 else f))
  {
    Unfold(s);
    RoomShape(s, v, h);
    hide SplitChild, Room;
    KidReady(s, FirstAbove(s.keys, v), all);
    KidFields(s, FirstAbove(s.keys, v));
    hide *;
  }

  lemma RoomBelow(s: Image, v: int, h: nat, u: Image, i: nat)
    requires Shape(Plain(s), h) && |s.keys| < N - 1 && !s.leaf && |Plain(s).kids| == |s.keys| + 1
    requires (Plain(u), i) == Room(Plain(s), v)
    ensures !u.leaf && h > 0 && i < |u.kids| && Shape(Plain(u.kids[i]), h - 1) && |u.kids[i].keys| < N - 1
    ensures i < |Plain(u).kids| && Plain(u).kids[i] == Plain(u.kids[i])
    ensures !Plain(s).leaf && Insert(Plain(s), v, h) == WithKid(Plain(u), i, Insert(Plain(u.kids[i]), v, h - 1))
  {
    RoomKeeps(Plain(s), v, h);
    assert |Plain(u).kids| == |u.kids|;
    assert Plain(u).kids[i] == Plain(u.kids[i]);
  }

  lemma KidFields(s: Image, i: nat)
    requires Matches(s) && !s.leaf && i < |s.kids|
    ensures i + 1 < |s.node.ptr| && s.node.ptr[i + 1] == s.kids[i].node && s.kids[i].node.n == |s.kids[i].keys|
  {
    Unfold(s);
    HeadsAt(s.kids);
    assert s.node.ptr[i + 1] == s.node.ptr[1..s.node.n + 2][i];
    assert Matches(s.kids[i]);
  }

  lemma KeyField(s: Image, i: nat)
    requires Matches(s) && i < |Plain(s).keys|
    ensures i + 1 < |s.node.key| && s.node.key[i + 1] == Plain(s).keys[i]
  {
    assert s.node.key[i + 1] == s.node.key[1..s.node.n + 1][i];
  }

  lemma RoomShape(s: Image, v: int, h: nat)
    requires Shape(Plain(s), h) && |s.keys| < N - 1 && !s.leaf
    ensures h > 0 && |s.kids| == |s.keys| + 1 == |Plain(s).kids| && |Plain(s).keys| == |s.keys|
    ensures var i, t := FirstAbove(s.keys, v), Plain(s);
      && i < |s.kids| && i <= |s.keys| && t.kids[i] == Plain(s.kids[i])
      && |t.kids[i].keys| == |s.kids[i].keys|
      && (|s.kids[i].keys| != N - 1 ==> Room(t, v) == (t, i))
      && (|s.kids[i].keys| == N - 1 ==>
            var r := SplitChild(t, i);
            i < |r.keys| && Room(t, v) == (r, if v > r.keys[i] then i + 1 else i))
  {
    assert |Plain(s).kids| == |s.kids|;
    var i := FirstAbove(s.keys, v);
    assert Plain(s).kids[i] == Plain(s.kids[i]);
  }

  ghost function LeafImage(s: Image, keys: seq<int>): Image {
    Image(s.node, s.leaf, keys, s.kids)
  }

  lemma LeafHolds(s: Image, h: nat)
    requires Matches(s) && Shape(Plain(s), h)
    ensures s.node.isLeaf == s.leaf && s.node in Nodes(s) && (s.leaf ==> s.node.Holds(true, s.keys, []))
  {
  }

  lemma LeafGrown(s: Image, v: int, h: nat) returns (r: Image)
    requires s.leaf && Shape(Plain(s), h) && |s.keys| < N - 1 && Distinct(s)
    requires s.node.Holds(true, PutAt(s.keys, FirstAbove(s.keys, v), v), [])
    ensures Matches(r) && Distinct(r) && r.node == s.node && Nodes(r) == Nodes(s) && Plain(r) == Insert(Plain(s), v, h)
  {
    var i := FirstAbove(s.keys, v);
    r := LeafImage(s, PutAt(s.keys, i, v));
    assert Plain(s).kids == [];
    assert s.kids == [];
  }

  /** The key goes on into child i, which has room. */
  method InsBelow(x: Node, i: nat, v: int, ghost u: Image, ghost h: nat, ghost all: set<Node>) returns (ghost r: Image)
    requires Nodes(u) <= all && Matches(u) && Distinct(u) && x == u.node && !u.leaf && h > 0 && 1 <= i <= |u.kids|
    requires Shape(Plain(u.kids[i - 1]), h - 1) && |u.kids[i - 1].keys| < N - 1
    modifies Nodes(u)
    ensures Matches(r) && Distinct(r) && r.node == x && (forall z :: z in Nodes(r) ==> z in Nodes(u) || fresh(z))
    ensures i - 1 < |Plain(u).kids| && Plain(r) == WithKid(Plain(u), i - 1, Insert(Plain(u.kids[i - 1]), v, h - 1))
    decreases h, 0
  {
    ghost var k := u.kids[i - 1];
    BelowReady(u, i - 1);
    hide *;
    ghost var k' := InsNFull(x.ptr[i], v, k, h - 1, Nodes(k));
    r := WithKidImage(u, i - 1, k');
    KidDone(u, i - 1, k');
  }

  /** What a call on a child may do, and what it leaves alone. */
  lemma BelowReady(s: Image, i: nat)
    requires Matches(s) && Distinct(s) && i < |s.kids|
    ensures var k, o := s.kids[i], Kin(Rest(s.kids, i));
      && Matches(k) && Distinct(k) && Nodes(k) <= Nodes(s) && s.node !in Nodes(k)
      && s.node in Nodes(s) && s.node.Holds(s.leaf, s.keys, Heads(s.kids))
      && MatchAll(Rest(s.kids, i)) && Nodes(k) !! o && o <= Nodes(s)
      && i < N && |s.node.ptr| == N + 1 && s.node.ptr[i + 1] == k.node
  {
    hide *;
    Unfold(s);
    About(s.kids, i);
    RestParts(s.kids, i);
    KidPtr(s, i);
  }

  lemma RestParts(kids: seq<Image>, i: nat)
    requires i < |kids|
    ensures Kin(Rest(kids, i)) == Kin(kids[..i]) + Kin(kids[i + 1..])
    ensures MatchAll(Rest(kids, i)) <==> MatchAll(kids[..i]) && MatchAll(kids[i + 1..])
  {
    Concat(kids[..i], kids[i + 1..]);
    hide Kin, Apart, MatchAll;
  }

  // ----- moving keys between siblings -----

  /** The last key and child of a node move over the key of q between them to its right sibling. */
  method BorrowLeftNodes(q: Node, i: nat, ghost leaf: bool, ghost qk: seq<int>, ghost qc: seq<Node>,
                         ghost fk: seq<int>, ghost fc: seq<Node>, ghost tk: seq<int>, ghost tc: seq<Node>)
    requires q.Holds(false, qk, qc) && 2 <= i <= |qc| && q != qc[i - 2] && q != qc[i - 1] && qc[i - 2] != qc[i - 1]
    requires qc[i - 2].Holds(leaf, fk, fc) && qc[i - 1].Holds(leaf, tk, tc) && |fk| >= 1 && |tk| < N - 1
    modifies q, qc[i - 2], qc[i - 1]
    ensures q.Holds(false, qk[i - 2 := fk[|fk| - 1]], qc)
    ensures qc[i - 2].Holds(leaf, DropLast(fk), DropLast(fc))
    ensures qc[i - 1].Holds(leaf, [qk[i - 2]] + tk, LastPart(fc) + tc)
  {
    var from: Node, to: Node := q.ptr[i - 1], q.ptr[i];
    assert q.key[i - 1] == qk[i - 2] && from.key[from.n] == fk[|fk| - 1] && from.n <= |from.key| - 1;
    hide Node.Holds;
    to.PushFront(q.key[i - 1], from, leaf, tk, tc, fk, fc);
    q.SetKey(i - 1, from.key[from.n], false, qk, qc);
    from.DropBack(leaf, fk, fc);
  }

  /** The first key and child of a node move over the key of q between them to its left sibling. */
  method BorrowRightNodes(q: Node, i: nat, ghost leaf: bool, ghost qk: seq<int>, ghost qc: seq<Node>,
                          ghost fk: seq<int>, ghost fc: seq<Node>, ghost tk: seq<int>, ghost tc: seq<Node>)
    requires q.Holds(false, qk, qc) && 1 <= i < |qc| && q != qc[i] && q != qc[i - 1] && qc[i] != qc[i - 1]
    requires qc[i].Holds(leaf, fk, fc) && qc[i - 1].Holds(leaf, tk, tc) && |fk| >= 1 && |tk| < N - 1
    modifies q, qc[i - 1], qc[i]
    ensures q.Holds(false, qk[i - 1 := fk[0]], qc)
    ensures qc[i - 1].Holds(leaf, tk + [qk[i - 1]], tc + Take(fc, 1))
    ensures qc[i].Holds(leaf, fk[1..], Drop(fc, 1))
  {
    var from: Node, to: Node := q.ptr[i + 1], q.ptr[i];
    assert q.key[i] == qk[i - 1] && from.key[1] == fk[0];
    hide Node.Holds;
    to.PushBack(q.key[i], from, leaf, tk, tc, fk, fc);
    q.SetKey(i, from.key[1], false, qk, qc);
    from.DropFront(leaf, fk, fc);
  }

  /** A child of q with its right sibling and the key between them appended; the sibling leaves q. */
  method MergeNodes(q: Node, i: nat, ghost leaf: bool, ghost qk: seq<int>, ghost qc: seq<Node>,
                    ghost lk: seq<int>, ghost lc: seq<Node>, ghost rk: seq<int>, ghost rc: seq<Node>)
    requires q.Holds(false, qk, qc) && 1 <= i < |qc| && q != qc[i] && q != qc[i - 1] && qc[i] != qc[i - 1]
    requires qc[i - 1].Holds(leaf, lk, lc) && qc[i].Holds(leaf, rk, rc) && |lk| == |rk| == MIN_CHILD - 1
    modifies q, qc[i - 1]
    ensures q.Holds(false, CutAt(qk, i - 1), CutAt(qc, i))
    ensures qc[i - 1].Holds(leaf, Glued(lk, qk[i - 1], rk), lc + rc)
  {
    var l: Node, r: Node := q.ptr[i], q.ptr[i + 1];
    assert q.key[i] == qk[i - 1];
    hide Node.Holds;
    l.Append(q.key[i], r, leaf, lk, lc, rk, rc);
    q.TakeKid(i, qk, qc);
  }

  /** Two neighbouring children taken apart from the rest. */
  lemma AboutTwo(kids: seq<Image>, i: nat)
    requires i + 1 < |kids|
    ensures var a, l, r, b := kids[..i], kids[i], kids[i + 1], kids[i + 2..];
      && Kin(kids[i..i + 2]) == Nodes(l) + Nodes(r)
      && Kin(kids) == Kin(a) + (Nodes(l) + Nodes(r)) + Kin(b)
      && (Apart(kids) ==> Apart(a) && Apart(b) && Distinct(l) && Distinct(r) && Nodes(l) !! Nodes(r)
                          && Kin(a) !! (Nodes(l) + Nodes(r)) !! Kin(b))
      && (MatchAll(kids) <==> MatchAll(a) && Matches(l) && Matches(r) && MatchAll(b))
  {
    var m := kids[i..i + 2];
    assert m == [kids[i], kids[i + 1]];
    assert kids == kids[..i] + m + kids[i + 2..];
    Three(kids[..i], m, kids[i + 2..]);
    Pair(kids[i], kids[i + 1]);
    hide *;
  }

  /** The children but two neighbours, and the children of those. */
  ghost function BesideTwo(s: Image, i: nat): seq<Image>
    requires i + 1 < |s.kids|
  {
    s.kids[..i] + (s.kids[i].kids + s.kids[i + 1].kids) + s.kids[i + 2..]
  }

  lemma BesideTwoParts(s: Image, i: nat)
    requires i + 1 < |s.kids|
    ensures Kin(BesideTwo(s, i))
        == Kin(s.kids[..i]) + (Kin(s.kids[i].kids) + Kin(s.kids[i + 1].kids)) + Kin(s.kids[i + 2..])
    ensures MatchAll(BesideTwo(s, i)) <==>
              && MatchAll(s.kids[..i]) && MatchAll(s.kids[i + 2..])
              && MatchAll(s.kids[i].kids) && MatchAll(s.kids[i + 1].kids)
  {
    Three(s.kids[..i], s.kids[i].kids + s.kids[i + 1].kids, s.kids[i + 2..]);
    Concat(s.kids[i].kids, s.kids[i + 1].kids);
    hide Kin, Apart, MatchAll;
  }

  /** What may be done to a node and two neighbouring children, and what it leaves alone. */
  lemma TwoReady(s: Image, i: nat, j: nat, all: set<Node>)
    requires Matches(s) && Distinct(s) && i + 1 == j < |s.kids| && Nodes(s) <= all
    ensures var l, r, o := s.kids[i], s.kids[j], Kin(BesideTwo(s, i));
      && s.node.Holds(s.leaf, s.keys, Heads(s.kids))
      && l.node.Holds(l.leaf, l.keys, Heads(l.kids)) && r.node.Holds(r.leaf, r.keys, Heads(r.kids))
      && |Heads(s.kids)| == |s.kids| && Heads(s.kids)[i] == l.node && Heads(s.kids)[j] == r.node
      && s.node != l.node && s.node != r.node && l.node != r.node
      && s.node in Nodes(s) && l.node in Nodes(s) && r.node in Nodes(s)
      && MatchAll(BesideTwo(s, i)) && o <= all && s.node !in o && l.node !in o && r.node !in o
  {
    hide *;
    Unfold(s);
    Unfold(s.kids[i]);
    Unfold(s.kids[i + 1]);
    AboutTwo(s.kids, i);
    HeadsAt(s.kids);
    BesideTwoParts(s, i);
  }

  ghost function PairImage(s: Image, i: nat, keys: seq<int>, l: Image, r: Image): Image
    requires i + 1 < |s.kids|
  {
    s.(keys := keys, kids := s.kids[i := l][i + 1 := r])
  }

  /** Children moved between two siblings. */
  lemma PairNodes(l: Image, r: Image, l': Image, r': Image)
    requires Distinct(l) && Distinct(r) && Nodes(l) !! Nodes(r)
    requires l'.node == l.node && r'.node == r.node && l'.kids + r'.kids == l.kids + r.kids
    ensures Apart([l', r']) && Kin([l', r']) == Nodes(l) + Nodes(r)
    ensures MatchAll(l.kids) && MatchAll(r.kids) ==> MatchAll(l'.kids) && MatchAll(r'.kids)
  {
    Concat(l.kids, r.kids);
    Concat(l'.kids, r'.kids);
    Unfold(l);
    Unfold(r);
    Unfold(l');
    Unfold(r');
    Pair(l', r');
    hide *;
  }

  lemma PairDone(s: Image, i: nat, keys: seq<int>, l: Image, r: Image)
    requires Distinct(s) && i + 1 < |s.kids|
    requires l.node == s.kids[i].node && r.node == s.kids[i + 1].node
    requires l.kids + r.kids == s.kids[i].kids + s.kids[i + 1].kids
    requires s.node.Holds(s.leaf, keys, Heads(s.kids))
    requires l.node.Holds(l.leaf, l.keys, Heads(l.kids)) && r.node.Holds(r.leaf, r.keys, Heads(r.kids))
    requires MatchAll(BesideTwo(s, i))
    ensures var u := PairImage(s, i, keys, l, r);
      Matches(u) && Distinct(u) && u.node == s.node && Nodes(u) == Nodes(s)
  {
    var u := PairImage(s, i, keys, l, r);
    BesideTwoParts(s, i);
    Unfold(s);
    AboutTwo(s.kids, i);
    PairNodes(s.kids[i], s.kids[i + 1], l, r);
    PairParts(s, i, keys, l, r);
    Three(s.kids[..i], [l, r], s.kids[i + 2..]);
    Pair(l, r);
    Unfold(l);
    Unfold(r);
    Unfold(u);
    hide *;
    Replaced(s, i, i + 2, [l, r], u);
  }

  lemma PairParts(s: Image, i: nat, keys: seq<int>, l: Image, r: Image)
    requires i + 1 < |s.kids| && l.node == s.kids[i].node && r.node == s.kids[i + 1].node
    ensures var u := PairImage(s, i, keys, l, r);
      && u.kids == s.kids[..i] + [l, r] + s.kids[i + 2..] && Heads(u.kids) == Heads(s.kids)
      && u.node == s.node && u.leaf == s.leaf && u.keys == keys
  {
    var u := PairImage(s, i, keys, l, r);
    assert u.kids == s.kids[..i] + [l, r] + s.kids[i + 2..];
    assert Heads(u.kids) == Heads(s.kids);
  }

  ghost function JoinImage(s: Image, i: nat): Image
    requires i < |s.keys| && i + 1 < |s.kids|
  {
    var l, r := s.kids[i], s.kids[i + 1];
    s.(keys := s.keys[..i] + s.keys[i + 1..],
       kids := s.kids[..i] + [Image(l.node, l.leaf, l.keys + [s.keys[i]] + r.keys, l.kids + r.kids)] + s.kids[i + 2..])
  }

  lemma JoinParts(s: Image, i: nat)
    requires i < |s.keys| && i + 1 < |s.kids|
    ensures var u, l, r := JoinImage(s, i), s.kids[i], s.kids[i + 1];
      && i < |u.kids| && u.kids == s.kids[..i] + [u.kids[i]] + s.kids[i + 2..]
      && |Heads(s.kids)| == |s.kids| && Heads(u.kids) == CutAt(Heads(s.kids), i + 1)
      && u.node == s.node && u.leaf == s.leaf && u.keys == CutAt(s.keys, i)
      && u.kids[i].node == l.node && u.kids[i].leaf == l.leaf && u.kids[i].keys == Glued(l.keys, s.keys[i], r.keys)
      && u.kids[i].kids == l.kids + r.kids && Heads(u.kids[i].kids) == Heads(l.kids) + Heads(r.kids)
  {
    var u := JoinImage(s, i);
    assert Heads(u.kids) == CutAt(Heads(s.kids), i + 1);
    assert Heads(u.kids[i].kids) == Heads(s.kids[i].kids) + Heads(s.kids[i + 1].kids);
  }

  lemma PlainsParts(a: seq<Image>, b: seq<Image>)
    ensures Plains(a + b) == Plains(a) + Plains(b)
  {
    var x, y := Plains(a + b), Plains(a) + Plains(b);
    assert |x| == |y| && forall i :: 0 <= i < |x| ==> x[i] == y[i];
  }

  lemma PlainsAt(a: seq<Image>, i: nat)
    requires i < |a|
    ensures |Plains(a)| == |a| && Plains(a)[i] == Plain(a[i])
  {
  }

  lemma PlainsAround(a: seq<Image>, i: nat, m: Image, k: nat)
    requires i <= k <= |a|
    ensures |Plains(a)| == |a| && Plains(a[..i] + [m] + a[k..]) == Plains(a)[..i] + [Plain(m)] + Plains(a)[k..]
  {
    var x, y := Plains(a[..i] + [m] + a[k..]), Plains(a)[..i] + [Plain(m)] + Plains(a)[k..];
    assert |x| == |y| && forall i :: 0 <= i < |x| ==> x[i] == y[i];
  }

  lemma JoinPlain(s: Image, i: nat)
    requires i < |s.keys| && i + 1 < |s.kids|
    ensures |Plain(s).kids| == |s.kids| && Plain(JoinImage(s, i)) == Merge(Plain(s), i)
  {
    var u, l, r := JoinImage(s, i), s.kids[i], s.kids[i + 1];
    PlainsAround(s.kids, i, u.kids[i], i + 2);
    PlainsAt(s.kids, i);
    PlainsAt(s.kids, i + 1);
    PlainsParts(l.kids, r.kids);
    assert u.kids[i] == Image(l.node, l.leaf, l.keys + [s.keys[i]] + r.keys, l.kids + r.kids);
    hide Plains;
    assert Plain(u.kids[i]) == Joined(Plain(l), s.keys[i], Plain(r));
  }

  lemma JoinNodes(l: Image, r: Image, j: Image)
    requires Distinct(l) && Distinct(r) && Nodes(l) !! Nodes(r) && j.node == l.node && j.kids == l.kids + r.kids
    ensures Apart([j]) && Kin([j]) == Nodes(l) + Nodes(r) - {r.node}
    ensures MatchAll(l.kids) && MatchAll(r.kids) ==> MatchAll(j.kids)
  {
    Concat(l.kids, r.kids);
    Unfold(l);
    Unfold(r);
    Unfold(j);
    Single(j);
    hide *;
  }

  lemma JoinDone(s: Image, i: nat)
    requires Distinct(s) && i < |s.keys| && i + 1 < |s.kids| == |Heads(s.kids)|
    requires s.node.Holds(s.leaf, CutAt(s.keys, i), CutAt(Heads(s.kids), i + 1))
    requires var l, r := s.kids[i], s.kids[i + 1];
      l.node.Holds(l.leaf, Glued(l.keys, s.keys[i], r.keys), Heads(l.kids) + Heads(r.kids))
    requires MatchAll(BesideTwo(s, i))
    ensures var u := JoinImage(s, i);
      Matches(u) && Distinct(u) && u.node == s.node && Nodes(u) <= Nodes(s)
  {
    var u := JoinImage(s, i);
    BesideTwoParts(s, i);
    JoinParts(s, i);
    var j := u.kids[i];
    Unfold(s);
    AboutTwo(s.kids, i);
    JoinNodes(s.kids[i], s.kids[i + 1], j);
    Three(s.kids[..i], [j], s.kids[i + 2..]);
    Single(j);
    Unfold(j);
    Unfold(u);
    hide *;
    Replaced(s, i, i + 2, [j], u);
  }

  /** The nodes of two neighbouring children and their parent are rewritten; all others stay. */
  method MergeMemory(q: Node, i: nat, ghost s: Image, ghost all: set<Node>)
    requires Nodes(s) <= all && Matches(s) && Distinct(s) && q == s.node && !s.leaf && 1 <= i < |s.kids| == |s.keys| + 1
    requires |s.kids[i - 1].keys| == |s.kids[i].keys| == MIN_CHILD - 1 && s.kids[i - 1].leaf == s.kids[i].leaf
    modifies q, s.kids[i - 1].node
    ensures |Heads(s.kids)| == |s.kids|
    ensures s.node.Holds(s.leaf, CutAt(s.keys, i - 1), CutAt(Heads(s.kids), i))
    ensures var l, r := s.kids[i - 1], s.kids[i];
      l.node.Holds(l.leaf, Glued(l.keys, s.keys[i - 1], r.keys), Heads(l.kids) + Heads(r.kids))
    ensures MatchAll(BesideTwo(s, i - 1))
  {
    ghost var l, r := s.kids[i - 1], s.kids[i];
    hide *;
    TwoReady(s, i - 1, i, all);
    MergeNodes(q, i, l.leaf, s.keys, Heads(s.kids), l.keys, Heads(l.kids), r.keys, Heads(r.kids));
  }

  /** A child and its right sibling become one, as in delNLeaf and twice in ensureKeys. */
  method MergeKids(q: Node, i: nat, ghost s: Image, ghost all: set<Node>) returns (ghost u: Image)
    requires Nodes(s) <= all && Matches(s) && Distinct(s) && q == s.node && !s.leaf && 1 <= i < |s.kids| == |s.keys| + 1
    requires |s.kids[i - 1].keys| == |s.kids[i].keys| == MIN_CHILD - 1 && s.kids[i - 1].leaf == s.kids[i].leaf
    modifies q, s.kids[i - 1].node
    ensures Matches(u) && Distinct(u) && u.node == q && Nodes(u) <= Nodes(s)
    ensures |Plain(s).kids| == |s.kids| && Plain(s).keys == s.keys && Plain(u) == Merge(Plain(s), i - 1)
  {
    hide *;
    MergeMemory(q, i, s, all);
    u := JoinImage(s, i - 1);
    JoinDone(s, i - 1);
    JoinPlain(s, i - 1);
    Unfold(s);
  }

  ghost function BorrowLeftImage(s: Image, i: nat): Image
    requires 0 < i <= |s.keys| && i < |s.kids| && s.kids[i - 1].keys != []
  {
    var from, to := s.kids[i - 1], s.kids[i];
    PairImage(s, i - 1, s.keys[i - 1 := from.keys[|from.keys| - 1]],
              Image(from.node, from.leaf, DropLast(from.keys), DropLast(from.kids)),
              Image(to.node, to.leaf, [s.keys[i - 1]] + to.keys, LastPart(from.kids) + to.kids))
  }

  ghost function BorrowRightImage(s: Image, i: nat): Image
    requires i < |s.keys| && i + 1 < |s.kids| && s.kids[i + 1].keys != []
  {
    var from, to := s.kids[i + 1], s.kids[i];
    PairImage(s, i, s.keys[i := from.keys[0]],
              Image(to.node, to.leaf, to.keys + [s.keys[i]], to.kids + Take(from.kids, 1)),
              Image(from.node, from.leaf, from.keys[1..], Drop(from.kids, 1)))
  }

  lemma PlainsPair(a: seq<Image>, i: nat, l: Image, r: Image)
    requires i + 1 < |a|
    ensures |Plains(a)| == |a| && Plains(a[i := l][i + 1 := r]) == Plains(a)[i := Plain(l)][i + 1 := Plain(r)]
  {
    var x, y := Plains(a[i := l][i + 1 := r]), Plains(a)[i := Plain(l)][i + 1 := Plain(r)];
    assert |x| == |y| && forall i :: 0 <= i < |x| ==> x[i] == y[i];
  }

  lemma HeadsSlice(a: seq<Image>, i: nat, j: nat)
    requires i <= j <= |a|
    ensures |Heads(a)| == |a| && Heads(a[i..j]) == Heads(a)[i..j]
  {
  }

  lemma PlainsSlice(a: seq<Image>, i: nat, j: nat)
    requires i <= j <= |a|
    ensures |Plains(a)| == |a| && Plains(a[i..j]) == Plains(a)[i..j]
  {
  }

  lemma LastHeads(a: seq<Image>)
    ensures Heads(DropLast(a)) == DropLast(Heads(a)) && Heads(LastPart(a)) == LastPart(Heads(a))
  {
    var d := |DropLast(a)|;
    HeadsSlice(a, 0, d);
    HeadsSlice(a, d, |a|);
    assert a[0..d] == DropLast(a) && a[d..|a|] == LastPart(a);
    hide Heads;
  }

  lemma LastPlains(a: seq<Image>)
    ensures Plains(DropLast(a)) == DropLast(Plains(a)) && Plains(LastPart(a)) == LastPart(Plains(a))
  {
    var d := |DropLast(a)|;
    PlainsSlice(a, 0, d);
    PlainsSlice(a, d, |a|);
    assert a[0..d] == DropLast(a) && a[d..|a|] == LastPart(a);
    hide Plains;
  }

  lemma FirstHeads(a: seq<Image>)
    ensures |Heads(a)| == |a| && Heads(Take(a, 1)) == Take(Heads(a), 1) && Heads(Drop(a, 1)) == Drop(Heads(a), 1)
  {
    var d := if |a| > 0 then 1 else 0;
    HeadsSlice(a, 0, d);
    HeadsSlice(a, d, |a|);
    assert a[0..d] == Take(a, 1) && a[d..|a|] == Drop(a, 1);
    hide Heads;
  }

  lemma FirstPlains(a: seq<Image>)
    ensures |Plains(a)| == |a| && Plains(Take(a, 1)) == Take(Plains(a), 1) && Plains(Drop(a, 1)) == Drop(Plains(a), 1)
  {
    var d := if |a| > 0 then 1 else 0;
    PlainsSlice(a, 0, d);
    PlainsSlice(a, d, |a|);
    assert a[0..d] == Take(a, 1) && a[d..|a|] == Drop(a, 1);
    hide Plains;
  }

  lemma HeadsSum(a: seq<Image>, b: seq<Image>)
    ensures Heads(a + b) == Heads(a) + Heads(b)
  {
  }

  lemma LastMoved(from: Image, to: Image, x: int)
    ensures Plain(Lent(from)) == Tree(from.leaf, DropLast(from.keys), DropLast(Plain(from).kids))
    ensures Plain(Borrowed(from, to, x)) == Tree(to.leaf, [x] + to.keys, LastPart(Plain(from).kids) + Plain(to).kids)
  {
    LastPlains(from.kids);
    PlainsParts(LastPart(from.kids), to.kids);
    hide Plains, DropLast, LastPart;
  }

  lemma PairPlain(s: Image, i: nat, j: nat, keys: seq<int>, l: Image, r: Image)
    requires i + 1 == j < |s.kids|
    ensures |Plain(s).kids| == |s.kids| && Plain(s).leaf == s.leaf && Plain(s).keys == s.keys
    ensures Plain(s).kids[i] == Plain(s.kids[i]) && Plain(s).kids[j] == Plain(s.kids[j])
    ensures Plain(s.kids[i]).keys == s.kids[i].keys && Plain(s.kids[j]).keys == s.kids[j].keys
    ensures Plain(s.kids[i]).leaf == s.kids[i].leaf && Plain(s.kids[j]).leaf == s.kids[j].leaf
    ensures Plain(PairImage(s, i, keys, l, r)) == WithPair(Plain(s), i, keys, Plain(l), Plain(r))
  {
    PlainsPair(s.kids, i, l, r);
    PlainsAt(s.kids, i);
    PlainsAt(s.kids, j);
    hide Plains;
  }

  lemma BorrowLeftIs(t: Tree, j: nat, i: nat, l: Tree, r: Tree)
    requires j + 1 == i <= |t.keys| && i < |t.kids| && t.kids[j].keys != []
    requires l == Tree(t.kids[j].leaf, DropLast(t.kids[j].keys), DropLast(t.kids[j].kids))
    requires r == Tree(t.kids[i].leaf, [t.keys[j]] + t.kids[i].keys, LastPart(t.kids[j].kids) + t.kids[i].kids)
    ensures BorrowLeft(t, i) == WithPair(t, j, t.keys[j := t.kids[j].keys[|t.kids[j].keys| - 1]], l, r)
  {
  }

  ghost function Lent(from: Image): Image {
    Image(from.node, from.leaf, DropLast(from.keys), DropLast(from.kids))
  }

  ghost function Borrowed(from: Image, to: Image, x: int): Image {
    Image(to.node, to.leaf, [x] + to.keys, LastPart(from.kids) + to.kids)
  }

  lemma BorrowLeftImageIs(s: Image, j: nat, i: nat)
    requires j + 1 == i <= |s.keys| && i < |s.kids| && s.kids[j].keys != []
    ensures BorrowLeftImage(s, i)
            == PairImage(s, j, s.keys[j := s.kids[j].keys[|s.kids[j].keys| - 1]],
                         Lent(s.kids[j]), Borrowed(s.kids[j], s.kids[i], s.keys[j]))
  {
  }

  lemma BorrowLeftPlain(s: Image, j: nat, i: nat)
    requires j + 1 == i <= |s.keys| && i < |s.kids| && s.kids[j].keys != []
    ensures |Plain(s).kids| == |s.kids| && Plain(s).keys == s.keys && Plain(s).kids[j].keys == s.kids[j].keys
    ensures Plain(BorrowLeftImage(s, i)) == BorrowLeft(Plain(s), i)
  {
    var from, to := s.kids[j], s.kids[i];
    var l, r := Lent(from), Borrowed(from, to, s.keys[j]);
    hide *;
    BorrowLeftImageIs(s, j, i);
    PairPlain(s, j, i, s.keys[j := from.keys[|from.keys| - 1]], l, r);
    LastMoved(from, to, s.keys[j]);
    BorrowLeftIs(Plain(s), j, i, Plain(l), Plain(r));
  }

  ghost function LentFirst(from: Image): Image
    requires from.keys != []
  {
    Image(from.node, from.leaf, from.keys[1..], Drop(from.kids, 1))
  }

  ghost function BorrowedFirst(from: Image, to: Image, x: int): Image {
    Image(to.node, to.leaf, to.keys + [x], to.kids + Take(from.kids, 1))
  }

  lemma FirstMoved(from: Image, to: Image, x: int)
    requires from.keys != []
    ensures Plain(BorrowedFirst(from, to, x))
        == Tree(to.leaf, to.keys + [x], Plain(to).kids + Take(Plain(from).kids, 1))
    ensures Plain(LentFirst(from)) == Tree(from.leaf, from.keys[1..], Drop(Plain(from).kids, 1))
  {
    FirstPlains(from.kids);
    PlainsParts(to.kids, Take(from.kids, 1));
    hide Plains, Take, Drop;
  }

  lemma BorrowRightIs(t: Tree, i: nat, j: nat, l: Tree, r: Tree)
    requires i + 1 == j <= |t.keys| && j < |t.kids| && t.kids[j].keys != []
    requires l == Tree(t.kids[i].leaf, t.kids[i].keys + [t.keys[i]], t.kids[i].kids + Take(t.kids[j].kids, 1))
    requires r == Tree(t.kids[j].leaf, t.kids[j].keys[1..], Drop(t.kids[j].kids, 1))
    ensures BorrowRight(t, i) == WithPair(t, i, t.keys[i := t.kids[j].keys[0]], l, r)
  {
  }

  lemma BorrowRightImageIs(s: Image, i: nat, j: nat)
    requires i + 1 == j <= |s.keys| && j < |s.kids| && s.kids[j].keys != []
    ensures BorrowRightImage(s, i)
            == PairImage(s, i, s.keys[i := s.kids[j].keys[0]],
                         BorrowedFirst(s.kids[j], s.kids[i], s.keys[i]), LentFirst(s.kids[j]))
  {
  }

  lemma BorrowRightPlain(s: Image, i: nat, j: nat)
    requires i + 1 == j <= |s.keys| && j < |s.kids| && s.kids[j].keys != []
    ensures |Plain(s).kids| == |s.kids| && Plain(s).keys == s.keys && Plain(s).kids[j].keys == s.kids[j].keys
    ensures Plain(BorrowRightImage(s, i)) == BorrowRight(Plain(s), i)
  {
    var from, to := s.kids[j], s.kids[i];
    var l, r := BorrowedFirst(from, to, s.keys[i]), LentFirst(from);
    hide *;
    BorrowRightImageIs(s, i, j);
    PairPlain(s, i, j, s.keys[i := from.keys[0]], l, r);
    FirstMoved(from, to, s.keys[i]);
    BorrowRightIs(Plain(s), i, j, Plain(l), Plain(r));
  }

  /** The nodes of two siblings and their parent are rewritten; all others stay as they are. */
  method BorrowLeftMemory(q: Node, i: nat, ghost s: Image, ghost all: set<Node>)
    requires Nodes(s) <= all && Matches(s) && Distinct(s) && q == s.node
    requires !s.leaf && 2 <= i <= |s.kids| == |s.keys| + 1
    requires |s.kids[i - 2].keys| >= 1 && |s.kids[i - 1].keys| < N - 1 && s.kids[i - 2].leaf == s.kids[i - 1].leaf
    modifies q, s.kids[i - 2].node, s.kids[i - 1].node
    ensures MatchAll(BesideTwo(s, i - 2))
    ensures var from, to := s.kids[i - 2], s.kids[i - 1];
      && s.node.Holds(s.leaf, s.keys[i - 2 := from.keys[|from.keys| - 1]], Heads(s.kids))
      && from.node.Holds(from.leaf, DropLast(from.keys), DropLast(Heads(from.kids)))
      && to.node.Holds(to.leaf, [s.keys[i - 2]] + to.keys, LastPart(Heads(from.kids)) + Heads(to.kids))
  {
    ghost var from, to := s.kids[i - 2], s.kids[i - 1];
    hide *;
    TwoReady(s, i - 2, i - 1, all);
    BorrowLeftNodes(q, i, from.leaf, s.keys, Heads(s.kids), from.keys, Heads(from.kids), to.keys, Heads(to.kids));
  }

  /** A child gets a key from its left sibling. */
  method BorrowLeftKids(q: Node, i: nat, ghost s: Image, ghost all: set<Node>) returns (ghost u: Image)
    requires Nodes(s) <= all && Matches(s) && Distinct(s) && q == s.node
    requires !s.leaf && 2 <= i <= |s.kids| == |s.keys| + 1
    requires |s.kids[i - 2].keys| >= 1 && |s.kids[i - 1].keys| < N - 1 && s.kids[i - 2].leaf == s.kids[i - 1].leaf
    modifies q, s.kids[i - 2].node, s.kids[i - 1].node
    ensures Matches(u) && Distinct(u) && u.node == q && Nodes(u) == Nodes(s)
    ensures |Plain(s).kids| == |s.kids| && Plain(s).keys == s.keys && Plain(s).kids[i - 2].keys == s.kids[i - 2].keys
    ensures Plain(u) == BorrowLeft(Plain(s), i - 1)
  {
    hide *;
    BorrowLeftMemory(q, i, s, all);
    BorrowLeftDone(s, i - 1);
    BorrowLeftPlain(s, i - 2, i - 1);
    u := BorrowLeftImage(s, i - 1);
  }

  lemma BorrowLeftParts(a: seq<Image>, b: seq<Image>)
    ensures DropLast(a) + (LastPart(a) + b) == a + b && Heads(DropLast(a)) == DropLast(Heads(a))
    ensures Heads(LastPart(a) + b) == LastPart(Heads(a)) + Heads(b)
  {
    LastHeads(a);
    HeadsSum(LastPart(a), b);
    hide Heads;
    assert DropLast(a) + LastPart(a) == a;
  }

  lemma BorrowRightParts(a: seq<Image>, b: seq<Image>)
    ensures (a + Take(b, 1)) + Drop(b, 1) == a + b
    ensures Heads(a + Take(b, 1)) == Heads(a) + Take(Heads(b), 1) && Heads(Drop(b, 1)) == Drop(Heads(b), 1)
  {
    FirstHeads(b);
    HeadsSum(a, Take(b, 1));
    hide Heads;
    assert Take(b, 1) + Drop(b, 1) == b;
  }

  lemma BorrowLeftDone(s: Image, i: nat)
    requires Distinct(s) && 0 < i <= |s.keys| && i < |s.kids| && s.kids[i - 1].keys != []
    requires var from, to := s.kids[i - 1], s.kids[i];
      && s.node.Holds(s.leaf, s.keys[i - 1 := from.keys[|from.keys| - 1]], Heads(s.kids))
      && from.node.Holds(from.leaf, DropLast(from.keys), DropLast(Heads(from.kids)))
      && to.node.Holds(to.leaf, [s.keys[i - 1]] + to.keys, LastPart(Heads(from.kids)) + Heads(to.kids))
    requires MatchAll(BesideTwo(s, i - 1))
    ensures var u := BorrowLeftImage(s, i);
      Matches(u) && Distinct(u) && u.node == s.node && Nodes(u) == Nodes(s)
  {
    var from, to := s.kids[i - 1], s.kids[i];
    var l := Image(from.node, from.leaf, DropLast(from.keys), DropLast(from.kids));
    var r := Image(to.node, to.leaf, [s.keys[i - 1]] + to.keys, LastPart(from.kids) + to.kids);
    BorrowLeftParts(from.kids, to.kids);
    hide Kin, Apart, Nodes, Distinct, MatchAll, Matches, Plain, Heads, Node.Holds, PairImage, DropLast, LastPart;
    PairDone(s, i - 1, s.keys[i - 1 := from.keys[|from.keys| - 1]], l, r);
  }

  /** The nodes of two siblings and their parent are rewritten; all others stay as they are. */
  method BorrowRightMemory(q: Node, i: nat, ghost s: Image, ghost all: set<Node>)
    requires Nodes(s) <= all && Matches(s) && Distinct(s) && q == s.node && !s.leaf && 1 <= i < |s.kids| == |s.keys| + 1
    requires |s.kids[i].keys| >= 1 && |s.kids[i - 1].keys| < N - 1 && s.kids[i].leaf == s.kids[i - 1].leaf
    modifies q, s.kids[i - 1].node, s.kids[i].node
    ensures MatchAll(BesideTwo(s, i - 1))
    ensures var from, to := s.kids[i], s.kids[i - 1];
      && s.node.Holds(s.leaf, s.keys[i - 1 := from.keys[0]], Heads(s.kids))
      && to.node.Holds(to.leaf, to.keys + [s.keys[i - 1]], Heads(to.kids) + Take(Heads(from.kids), 1))
      && from.node.Holds(from.leaf, from.keys[1..], Drop(Heads(from.kids), 1))
  {
    ghost var from, to := s.kids[i], s.kids[i - 1];
    hide *;
    TwoReady(s, i - 1, i, all);
    BorrowRightNodes(q, i, from.leaf, s.keys, Heads(s.kids), from.keys, Heads(from.kids), to.keys, Heads(to.kids));
  }

  /** A child gets a key from its right sibling. */
  method BorrowRightKids(q: Node, i: nat, ghost s: Image, ghost all: set<Node>) returns (ghost u: Image)
    requires Nodes(s) <= all && Matches(s) && Distinct(s) && q == s.node && !s.leaf && 1 <= i < |s.kids| == |s.keys| + 1
    requires |s.kids[i].keys| >= 1 && |s.kids[i - 1].keys| < N - 1 && s.kids[i].leaf == s.kids[i - 1].leaf
    modifies q, s.kids[i - 1].node, s.kids[i].node
    ensures Matches(u) && Distinct(u) && u.node == q && Nodes(u) == Nodes(s)
    ensures |Plain(s).kids| == |s.kids| && Plain(s).keys == s.keys && Plain(s).kids[i].keys == s.kids[i].keys
    ensures Plain(u) == BorrowRight(Plain(s), i - 1)
  {
    hide *;
    BorrowRightMemory(q, i, s, all);
    BorrowRightDone(s, i - 1);
    BorrowRightPlain(s, i - 1, i);
    u := BorrowRightImage(s, i - 1);
  }

  lemma BorrowRightDone(s: Image, i: nat)
    requires Distinct(s) && i < |s.keys| && i + 1 < |s.kids| && s.kids[i + 1].keys != []
    requires var from, to := s.kids[i + 1], s.kids[i];
      && s.node.Holds(s.leaf, s.keys[i := from.keys[0]], Heads(s.kids))
      && to.node.Holds(to.leaf, to.keys + [s.keys[i]], Heads(to.kids) + Take(Heads(from.kids), 1))
      && from.node.Holds(from.leaf, from.keys[1..], Drop(Heads(from.kids), 1))
    requires MatchAll(BesideTwo(s, i))
    ensures var u := BorrowRightImage(s, i);
      Matches(u) && Distinct(u) && u.node == s.node && Nodes(u) == Nodes(s)
  {
    var from, to := s.kids[i + 1], s.kids[i];
    var l := Image(to.node, to.leaf, to.keys + [s.keys[i]], to.kids + Take(from.kids, 1));
    var r := Image(from.node, from.leaf, from.keys[1..], Drop(from.kids, 1));
    BorrowRightParts(to.kids, from.kids);
    hide Kin, Apart, Nodes, Distinct, MatchAll, Matches, Plain, Heads, Node.Holds, PairImage, Take, Drop;
    PairDone(s, i, s.keys[i := from.keys[0]], l, r);
  }

  // ----- searching -----

  /** What a node in memory tells about the image. */
  lemma Look(s: Image, h: nat)
    requires Matches(s) && Shape(Plain(s), h)
    ensures var t, x := Plain(s), s.node;
      && t.leaf == s.leaf == x.isLeaf && t.keys == s.keys && x.n == |s.keys| && |t.kids| == |s.kids|
      && (s.leaf <==> h == 0) && |x.key| == N && x.n < N && x.key[1..x.n + 1] == s.keys && |x.ptr| == N + 1
      && if s.leaf then |s.kids| == 0 else |s.kids| == |s.keys| + 1
    ensures s.node in Nodes(s)
  {
    Unfold(s);
    HeadsAt(s.kids);
    PlainsSlice(s.kids, 0, 0);
    hide Nodes, Kin, MatchAll, Plain, Plains, Heads, Matches, Inner;
  }

  /** What it tells about a child. */
  lemma Kid(s: Image, i: nat, h: nat)
    requires Matches(s) && Shape(Plain(s), h) && i < |s.kids|
    ensures |Plain(s).kids| == |s.kids| && h > 0 && |s.node.ptr| == N + 1 && i < N
    ensures s.node.ptr[i + 1] == s.kids[i].node
    ensures Plain(s).kids[i] == Plain(s.kids[i]) && Inner(Plain(s.kids[i]), h - 1)
    ensures s.kids[i].node in Nodes(s) && s.kids[i].node.n == |s.kids[i].keys|
    ensures Plain(s.kids[i]).keys == s.kids[i].keys
    ensures |s.kids[i].keys| >= MIN_CHILD - 1 && Nodes(s.kids[i]) <= Nodes(s)
    ensures Matches(s.kids[i]) && (s.kids[i].leaf <==> h == 1)
  {
    hide *;
    KidInner(s, i, h);
    KidNodes(s, i);
    KidPtr(s, i);
    Look(s.kids[i], h - 1);
  }

  lemma KidInner(s: Image, i: nat, h: nat)
    requires Shape(Plain(s), h) && i < |s.kids|
    ensures |Plain(s).kids| == |s.kids| && h > 0 && Plain(s).kids[i] == Plain(s.kids[i])
    ensures Inner(Plain(s.kids[i]), h - 1) && Shape(Plain(s.kids[i]), h - 1)
    ensures Plain(s.kids[i]).keys == s.kids[i].keys && |s.kids[i].keys| >= MIN_CHILD - 1
  {
    PlainsAt(s.kids, i);
    KidsAreInner(Plain(s), h);
    InnerOpen(Plain(s.kids[i]), h - 1);
    hide Shape, Inner, Plains;
  }

  lemma KidNodes(s: Image, i: nat)
    requires Matches(s) && i < |s.kids|
    ensures Nodes(s.kids[i]) <= Nodes(s) && s.kids[i].node in Nodes(s.kids[i]) && Matches(s.kids[i])
  {
    Unfold(s);
    Unfold(s.kids[i]);
    About(s.kids, i);
    hide *;
  }

  lemma KidPtr(s: Image, i: nat)
    requires Matches(s) && i < |s.kids|
    ensures i < N && |s.node.ptr| == N + 1 && s.node.ptr[i + 1] == s.kids[i].node
  {
    HeadsAt(s.kids);
    assert s.node.ptr[i + 1] == s.node.ptr[1..s.node.n + 2][i];
  }

  lemma InnerOpen(t: Tree, h: nat)
    requires Inner(t, h)
    ensures Shape(t, h) && |t.keys| >= MIN_CHILD - 1
  {
  }

  lemma FindsBelow(t: Tree, v: int)
    ensures var i := FirstNotBelow(t.keys, v);
      Finds(t, v) <==> (i < |t.keys| && t.keys[i] == v) || (!t.leaf && i < |t.kids| && Finds(t.kids[i], v))
  {
  }

  /** The node and index where a value is, if it is anywhere in the tree. */
  method Find(q: Node, v: int, ghost s: Image, ghost h: nat, ghost all: set<Node>) returns (a: Node?, b: nat)
    requires Nodes(s) <= all && Matches(s) && Shape(Plain(s), h) && q == s.node
    ensures a != null <==> Finds(Plain(s), v)
    ensures a != null ==> a in Nodes(s) && 1 <= b <= a.n && b < |a.key| && a.key[b] == v
    decreases h
  {
    FindReady(s, v, h);
    hide *;
    var i := q.FirstAt(v, s.keys);
    if i <= q.n && q.key[i] == v {
      return q, i;
    } else if q.isLeaf {
      return null, 0;
    } else {
      a, b := Find(q.ptr[i], v, s.kids[i - 1], h - 1, all);
    }
  }

  lemma FindReady(s: Image, v: int, h: nat)
    requires Matches(s) && Shape(Plain(s), h)
    ensures var i, x := FirstNotBelow(s.keys, v), s.node;
      && x in Nodes(s) && |x.key| == N && x.n == |s.keys| < N && x.key[1..x.n + 1] == s.keys && i <= |s.keys|
      && (i < |s.keys| ==> x.key[i + 1] == s.keys[i])
      && (i < |s.keys| && s.keys[i] == v ==> Finds(Plain(s), v))
      && (!(i < |s.keys| && s.keys[i] == v) && x.isLeaf ==> !Finds(Plain(s), v))
      && (!x.isLeaf ==> i < |s.kids| && h > 0 && |x.ptr| == N + 1 && x.ptr[i + 1] == s.kids[i].node
                        && Matches(s.kids[i]) && Shape(Plain(s.kids[i]), h - 1) && Nodes(s.kids[i]) <= Nodes(s))
      && (!(i < |s.keys| && s.keys[i] == v) && !x.isLeaf ==> (Finds(Plain(s), v) <==> Finds(Plain(s.kids[i]), v)))
  {
    hide *;
    var i := FirstNotBelow(s.keys, v);
    Look(s, h);
    FindsBelow(Plain(s), v);
    if !s.leaf {
      Kid(s, i, h);
      InnerOpen(Plain(s.kids[i]), h - 1);
    }
    assert i < |s.keys| ==> s.node.key[1..s.node.n + 1][i] == s.node.key[i + 1];
  }

  /** The largest and the smallest key are in the last child and the first, or here. */
  lemma MaxDown(s: Image, h: nat)
    requires Matches(s) && Inner(Plain(s), h)
    ensures var t, x := Plain(s), s.node;
      && x.isLeaf == s.leaf && |x.key| == N && x.n < N && |x.ptr| == N + 1 && t.keys != []
      && (s.leaf ==> 1 <= x.n && x.key[x.n] == MaxOf(t) && x.key[1] == MinOf(t))
      && (!s.leaf ==> |s.kids| == |s.keys| + 1 == x.n + 1)
  {
    Look(s, h);
    assert s.keys[|s.keys| - 1] == s.node.key[s.node.n] && s.keys[0] == s.node.key[1];
  }

  lemma MaxKid(s: Image, h: nat)
    requires Matches(s) && Inner(Plain(s), h) && |s.kids| > 0
    ensures var t, z := Plain(s), |s.kids| - 1;
      && |t.kids| == |s.kids| && Plain(s).keys != [] && Plain(s.kids[z]).keys != [] && Plain(s.kids[0]).keys != []
      && MaxOf(t) == MaxOf(Plain(s.kids[z])) && MinOf(t) == MinOf(Plain(s.kids[0]))
  {
    Look(s, h);
    Kid(s, |s.kids| - 1, h);
    Kid(s, 0, h);
    hide Matches, Nodes, Plain, Shape;
  }

  lemma DownMax(s: Image, h: nat)
    requires Matches(s) && Inner(Plain(s), h)
    ensures var t, x := Plain(s), s.node;
      && x.isLeaf == s.leaf && |t.keys| > 0 && x.n < |x.key| && (s.leaf ==> x.key[x.n] == MaxOf(t))
      && (!s.leaf ==> h > 0 && |s.kids| > 0 && x.n + 1 < |x.ptr|
                      && var k := s.kids[|s.kids| - 1];
                      && x.ptr[x.n + 1] == k.node && Matches(k) && Inner(Plain(k), h - 1)
                      && |Plain(k).keys| > 0 && MaxOf(t) == MaxOf(Plain(k)))
  {
    hide *;
    InnerOpen(Plain(s), h);
    Look(s, h);
    MaxDown(s, h);
    if !s.leaf {
      MaxKid(s, h);
      Kid(s, |s.kids| - 1, h);
    }
  }

  lemma DownMin(s: Image, h: nat)
    requires Matches(s) && Inner(Plain(s), h)
    ensures var t, x := Plain(s), s.node;
      && x.isLeaf == s.leaf && |t.keys| > 0 && 1 < |x.key| && (s.leaf ==> x.key[1] == MinOf(t))
      && (!s.leaf ==> h > 0 && |s.kids| > 0 && 1 < |x.ptr|
                      && x.ptr[1] == s.kids[0].node && Matches(s.kids[0]) && Inner(Plain(s.kids[0]), h - 1)
                      && |Plain(s.kids[0]).keys| > 0 && MinOf(t) == MinOf(Plain(s.kids[0])))
  {
    hide *;
    InnerOpen(Plain(s), h);
    Look(s, h);
    MaxDown(s, h);
    if !s.leaf {
      MaxKid(s, h);
      Kid(s, 0, h);
    }
  }

  /** The largest key below a child. */
  method GPred(q: Node, index: nat, ghost s: Image, ghost h: nat) returns (p: int)
    requires Matches(s) && Shape(Plain(s), h) && q == s.node && 1 <= index <= |s.kids|
    ensures |Plain(s.kids[index - 1]).keys| > 0 && p == MaxOf(Plain(s.kids[index - 1]))
  {
    hide *;
    Kid(s, index - 1, h);
    var temp: Node := q.ptr[index];
    ghost var k, d: nat := s.kids[index - 1], h - 1;
    DownMax(k, d);
    while !temp.isLeaf
      invariant temp == k.node && Matches(k) && Inner(Plain(k), d) && |Plain(k).keys| > 0
      invariant MaxOf(Plain(k)) == MaxOf(Plain(s.kids[index - 1]))
      decreases d
    {
      DownMax(k, d);
      temp := temp.ptr[temp.n + 1];
      k, d := k.kids[|k.kids| - 1], d - 1;
    }
    DownMax(k, d);
    return temp.key[temp.n];
  }

  /** The smallest key below the next child. */
  method GSucc(q: Node, index: nat, ghost s: Image, ghost h: nat) returns (p: int)
    requires Matches(s) && Shape(Plain(s), h) && q == s.node && 1 <= index < |s.kids|
    ensures |Plain(s.kids[index]).keys| > 0 && p == MinOf(Plain(s.kids[index]))
  {
    hide *;
    Kid(s, index, h);
    var temp: Node := q.ptr[index + 1];
    ghost var k, d: nat := s.kids[index], h - 1;
    DownMin(k, d);
    while !temp.isLeaf
      invariant temp == k.node && Matches(k) && Inner(Plain(k), d) && |Plain(k).keys| > 0
      invariant MinOf(Plain(k)) == MinOf(Plain(s.kids[index]))
      decreases d
    {
      DownMin(k, d);
      temp := temp.ptr[1];
      k, d := k.kids[0], d - 1;
    }
    DownMin(k, d);
    return temp.key[1];
  }

  // ----- the tree object -----

  class BTree {
    var root: Node
    ghost var image: Image
    ghost var h: nat

    ghost predicate Valid()
      reads this, Nodes(image)
    {
      root == image.node && Matches(image) && Distinct(image) && Good((Plain(image), h))
    }

    /** initTree */
    constructor ()
      ensures Valid() && Plain(image) == Tree(true, [], []) && h == 0 && fresh(Nodes(image))
    {
      var t := new Node();
      root := t;
      image := Image(t, true, [], []);
      h := 0;
      new;
      t.isLeaf := true;
      t.n := 0;
      assert Plain(image) == Tree(true, [], []);
    }

    /** The root becomes the only child of a new one, and is split. */
    method GrowRoot(r: Node, ghost s: Image, ghost all: set<Node>) returns (ghost u: Image)
      requires Nodes(s) <= all && Matches(s) && Distinct(s) && r == s.node && |s.keys| == N - 1
      modifies `root, r
      ensures Matches(u) && Distinct(u) && root == u.node && (forall z :: z in Nodes(u) ==> z in Nodes(s) || fresh(z))
      ensures |Plain(s).keys| == N - 1 && Plain(u) == SplitChild(Tree(false, [], [Plain(s)]), 0)
    {
      hide *;
      var x := new Node();
      root := x;
      x.isLeaf := false;
      x.n := 0;
      x.ptr := x.ptr[1 := r];
      assert x.Holds(false, [], [s.node]) by { OneChild(x, s.node); }
      ghost var t := Image(x, false, [], [s]);
      OverRoot(x, s);
      u := SplitIChild(x, 1, t, all + {x});
    }

    /** insert, when the root is full. */
    method InsertFull(r: Node, v: int, ghost s: Image, ghost d: nat, ghost all: set<Node>) returns (ghost u: Image)
      requires Nodes(s) <= all && Matches(s) && Distinct(s) && r == s.node && |s.keys| == N - 1 && Root(Plain(s), d)
      modifies `root, Nodes(s)
      ensures Matches(u) && Distinct(u) && root == u.node && (forall z :: z in Nodes(u) ==> z in Nodes(s) || fresh(z))
      ensures Plain(u) == InsertRoot(Plain(s), v, d)
    {
      FullRoot(s, v, d);
      hide *;
      u := GrowRoot(r, s, all);
      KeysOf(u);
      u := InsNFull(root, v, u, d + 1, Nodes(u));
    }

    /** insert, when the root is not full. */
    method InsertSmall(r: Node, v: int, ghost s: Image, ghost d: nat, ghost all: set<Node>) returns (ghost u: Image)
      requires Nodes(s) <= all && Matches(s) && Distinct(s) && r == s.node && |s.keys| != N - 1 && Root(Plain(s), d)
      modifies Nodes(s)
      ensures Matches(u) && Distinct(u) && r == u.node && (forall z :: z in Nodes(u) ==> z in Nodes(s) || fresh(z))
      ensures Plain(u) == InsertRoot(Plain(s), v, d)
    {
      SmallRoot(s, v, d);
      hide *;
      u := InsNFull(r, v, s, d, all);
    }

    /** insert, on the memory alone. */
    method InsertAt(r: Node, v: int, ghost s: Image, ghost d: nat, ghost all: set<Node>) returns (ghost u: Image)
      requires Nodes(s) <= all && Matches(s) && Distinct(s) && r == s.node == root && Root(Plain(s), d)
      modifies `root, Nodes(s)
      ensures Matches(u) && Distinct(u) && root == u.node && (forall z :: z in Nodes(u) ==> z in Nodes(s) || fresh(z))
      ensures Plain(u) == InsertRoot(Plain(s), v, d)
    {
      Look(s, d);
      hide Nodes, Matches, Distinct, Plain, InsertRoot, Root;
      if r.n == N - 1 {
        u := InsertFull(r, v, s, d, all);
      } else {
        u := InsertSmall(r, v, s, d, all);
      }
    }

    /** A full root is split before the value goes in. */
    method Insert(v: int)
      requires Valid()
      modifies this, Nodes(image)
      ensures Valid() && Plain(image) == InsertRoot(old(Plain(image)), v, old(h))
      ensures Adds(old(InOrder(Plain(image))), v, InOrder(Plain(image)))
      ensures forall z :: z in Nodes(image) ==> z in old(Nodes(image)) || fresh(z)
    {
      ghost var t := Plain(image);
      InsertRootKeeps(t, v, h);
      ghost var d := if |t.keys| == N - 1 then h + 1 else h;
      assert Good((InsertRoot(t, v, h), d));
      hide Nodes, Matches, Distinct, Plain, InsertRoot, InOrder, Adds, Good, Shape, Sorted;
      image := InsertAt(root, v, image, h, Nodes(image));
      h := d;
    }

    // ----- deletion -----

    /** A root without keys gives way to its only child. */
    method Shrink(q: Node, ghost u: Image, ghost d: nat) returns (fl: bool)
      requires Matches(u) && q == u.node && Shape(Plain(u), d) && !u.leaf
      modifies `root
      ensures |u.kids| == |u.keys| + 1 && (fl <==> q == old(root) && |u.keys| == 0)
      ensures root == if fl then u.kids[0].node else old(root)
    {
      hide *;
      Look(u, d);
      Kid(u, 0, d);
      fl := false;
      if q == root && q.n == 0 && !q.isLeaf {
        root := root.ptr[1];
        fl := true;
      }
    }

    /** ensureKeys: a child gets a key to spare, from a sibling or by a merge; the root may go. */
    method EnsureKeys(q: Node, index: nat, ghost s: Image, ghost d: nat, ghost all: set<Node>)
      returns (fl: bool, ghost u: Image)
      requires Nodes(s) <= all && Matches(s) && Distinct(s) && q == s.node && Shape(Plain(s), d) && !s.leaf
      requires |s.keys| > 0 && 1 <= index <= |s.kids| && |s.kids[index - 1].keys| < MIN_CHILD
      modifies Nodes(s), `root
      ensures Matches(u) && Distinct(u) && u.node == q && Nodes(u) <= Nodes(s) && !u.leaf && |u.kids| == |u.keys| + 1
      ensures 0 < |Plain(s).keys| == |Plain(s).kids| - 1 && index - 1 <= |Plain(s).keys|
      ensures Plain(u) == Steer(Plain(s), index - 1).0
      ensures fl <==> q == old(root) && |u.keys| == 0
      ensures root == if fl then u.kids[0].node else old(root)
    {
      hide *;
      SteerReady(s, index - 1, d);
      SteerIs(Plain(s), index - 1);
      if index != 1 {
        SteerLeft(s, index - 2, index - 1, d);
      }
      if index != q.n + 1 {
        SteerRight(s, index - 1, index, d);
      }
      fl := false;
      if index != 1 && q.ptr[index - 1].n >= MIN_CHILD {
        u := BorrowLeftKids(q, index, s, all);
        SteerShape(s, index - 1, d, u);
      } else if index != q.n + 1 && q.ptr[index + 1].n >= MIN_CHILD {
        u := BorrowRightKids(q, index, s, all);
        SteerShape(s, index - 1, d, u);
      } else if index != q.n + 1 {
        u := MergeKids(q, index, s, all);
        SteerShape(s, index - 1, d, u);
        fl := Shrink(q, u, d);
      } else {
        u := MergeKids(q, index - 1, s, all);
        SteerShape(s, index - 1, d, u);
        fl := Shrink(q, u, d);
      }
    }


    /** The deletion goes on in child j, which has a key to spare. */
    method DelKid(q: Node, j: nat, v: int, ghost u: Image, ghost d: nat, ghost all: set<Node>) returns (ghost r: Image)
      requires Nodes(u) <= all && Matches(u) && Distinct(u) && q == u.node && 1 <= j <= |u.kids| && d > 0
      requires Shape(Plain(u.kids[j - 1]), d - 1) && |Plain(u.kids[j - 1]).keys| >= MIN_CHILD
      requires root == q || root !in Nodes(u)
      modifies Nodes(u), `root
      ensures Matches(r) && Distinct(r) && Nodes(r) <= Nodes(u) && r.node == q && root == old(root)
      ensures Fit(Plain(u.kids[j - 1]), false, d - 1) && j - 1 < |Plain(u).kids|
      ensures Plain(r) == WithKid(Plain(u), j - 1, BTreeSpec.Delete(Plain(u.kids[j - 1]), v, false, d - 1))
      decreases d, 0
    {
      ghost var k := u.kids[j - 1];
      BelowReady(u, j - 1);
      FitBelow(Plain(k), d - 1);
      hide *;
      var _, k' := DeleteAt(q.ptr[j], v, k, d - 1, Nodes(k));
      r := WithKidImage(u, j - 1, k');
      KidDone(u, j - 1, k');
    }

    /** The deletion goes on below a node that may have been the root before it lost its last key. */
    method DelDown(q: Node, fl: bool, j: nat, v: int, ghost u: Image, ghost d: nat, ghost top: bool,
                   ghost all: set<Node>)
      returns (ghost r: Image)
      requires Nodes(u) <= all && Matches(u) && Distinct(u) && q == u.node && Shape(Plain(u), d) && !Plain(u).leaf
      requires 1 <= j && j - 1 <= |Plain(u).keys| && |Plain(u).kids| == |Plain(u).keys| + 1 == |u.kids| && d > 0
      requires Inner(Plain(u).kids[j - 1], d - 1) && |Plain(u).kids[j - 1].keys| >= MIN_CHILD
      requires (fl <==> top && |u.keys| == 0) && |u.keys| == |Plain(u).keys|
      requires root == (if fl then u.kids[0].node else root)
      requires (top && !fl ==> root == q) && (!top ==> root !in Nodes(u))
      modifies Nodes(u), `root
      ensures Matches(r) && Distinct(r) && Nodes(r) <= Nodes(u)
      ensures Plain(r) == DeleteBelow(Plain(u), j - 1, v, top, d)
      ensures if top then root == r.node else root == old(root) && r.node == q
      decreases d, 1
    {
      hide *;
      DownIs(Plain(u), j - 1, v, top, d);
      DownKid(u, j - 1, d);
      if fl {
        BelowReady(u, 0);
        var _, r' := DeleteAt(root, v, u.kids[0], d - 1, Nodes(u.kids[0]));
        r := r';
      } else {
        r := DelKid(q, j, v, u, d, all);
      }
    }

    /** A key of an inner node gives way to p, which is deleted from a child. */
    method ReplaceKey(q: Node, index: nat, j: nat, p: int, ghost s: Image, ghost d: nat, ghost all: set<Node>)
      returns (ghost r: Image)
      requires Nodes(s) <= all && Matches(s) && Distinct(s) && q == s.node && 1 <= index <= |s.keys| && d > 0
      requires 1 <= j <= |s.kids| && Shape(Plain(s.kids[j - 1]), d - 1) && |Plain(s.kids[j - 1]).keys| >= MIN_CHILD
      requires root == q || root !in Nodes(s)
      modifies Nodes(s), `root
      ensures Matches(r) && Distinct(r) && Nodes(r) <= Nodes(s) && r.node == q && root == old(root)
      ensures Fit(Plain(s.kids[j - 1]), false, d - 1) && j - 1 < |Plain(s).kids| && index <= |Plain(s).keys|
      ensures Plain(r) == WithKid(Plain(s).(keys := Plain(s).keys[index - 1 := p]), j - 1,
                                  BTreeSpec.Delete(Plain(s.kids[j - 1]), p, false, d - 1))
      decreases d, 1
    {
      NodeIn(s);
      hide *;
      ghost var u := SetKeyAt(q, index, p, s, d, all);
      r := DelKid(q, j, p, u, d, all);
    }

    /** The key gives way to its predecessor, which is deleted from the child. */
    method DelPred(q: Node, index: nat, ghost s: Image, ghost d: nat, ghost all: set<Node>) returns (ghost r: Image)
      requires Nodes(s) <= all && Matches(s) && Distinct(s) && q == s.node && !s.leaf && Fit(Plain(s), q == root, d)
      requires q == root || root !in Nodes(s)
      requires 1 <= index <= |Plain(s).keys| && FirstNotBelow(Plain(s).keys, Plain(s).keys[index - 1]) == index - 1
      requires index < |s.kids| && |s.kids[index - 1].keys| >= MIN_CHILD
      modifies Nodes(s), `root
      ensures Matches(r) && Distinct(r) && Nodes(r) <= Nodes(s)
      ensures Plain(r) == BTreeSpec.Delete(Plain(s), Plain(s).keys[index - 1], old(q == root), d)
      ensures if old(q == root) then root == r.node else root == old(root) && r.node == q
      decreases d, 2
    {
      KeyTaken(s, index - 1, index, d, q == root);
      hide *;
      TakenPred(s, index - 1, d, q == root);
      var p := GPred(q, index, s, d);
      r := ReplaceKey(q, index, index, p, s, d, all);
    }

    /** The key gives way to its successor, which is deleted from the next child. */
    method DelSucc(q: Node, index: nat, ghost s: Image, ghost d: nat, ghost all: set<Node>) returns (ghost r: Image)
      requires Nodes(s) <= all && Matches(s) && Distinct(s) && q == s.node && !s.leaf && Fit(Plain(s), q == root, d)
      requires q == root || root !in Nodes(s)
      requires 1 <= index <= |Plain(s).keys| && FirstNotBelow(Plain(s).keys, Plain(s).keys[index - 1]) == index - 1
      requires index < |s.kids| && |s.kids[index - 1].keys| < MIN_CHILD <= |s.kids[index].keys|
      modifies Nodes(s), `root
      ensures Matches(r) && Distinct(r) && Nodes(r) <= Nodes(s)
      ensures Plain(r) == BTreeSpec.Delete(Plain(s), Plain(s).keys[index - 1], old(q == root), d)
      ensures if old(q == root) then root == r.node else root == old(root) && r.node == q
      decreases d, 2
    {
      KeyTaken(s, index - 1, index, d, q == root);
      hide *;
      TakenSucc(s, index - 1, index, d, q == root);
      var p := GSucc(q, index, s, d);
      r := ReplaceKey(q, index, index + 1, p, s, d, all);
    }

    /** The key moves down into the two children around it, which become one. */
    method DelMerge(q: Node, index: nat, val: int, ghost s: Image, ghost d: nat, ghost all: set<Node>)
      returns (ghost r: Image)
      requires Nodes(s) <= all && Matches(s) && Distinct(s) && q == s.node && !s.leaf && Fit(Plain(s), q == root, d)
      requires q == root || root !in Nodes(s)
      requires 1 <= index <= |Plain(s).keys| && FirstNotBelow(Plain(s).keys, Plain(s).keys[index - 1]) == index - 1
      requires index < |s.kids| && |s.kids[index - 1].keys| < MIN_CHILD && |s.kids[index].keys| < MIN_CHILD
      requires val == Plain(s).keys[index - 1]
      modifies Nodes(s), `root
      ensures Matches(r) && Distinct(r) && Nodes(r) <= Nodes(s)
      ensures Plain(r) == BTreeSpec.Delete(Plain(s), Plain(s).keys[index - 1], old(q == root), d)
      ensures if old(q == root) then root == r.node else root == old(root) && r.node == q
      decreases d, 3
    {
      ghost var top := q == root;
      KeyTaken(s, index - 1, index, d, top);
      hide *;
      TakenMerge(s, index - 1, index, d, top);
      ghost var u := MergeKids(q, index, s, all);
      MergeShape(s, index - 1, d, u);
      r := ShrinkAndGo(q, index, val, u, d, all);
    }

    /** The root may have lost its last key. */
    method ShrinkAndGo(q: Node, j: nat, v: int, ghost u: Image, ghost d: nat, ghost all: set<Node>)
      returns (ghost r: Image)
      requires Nodes(u) <= all && Matches(u) && Distinct(u) && q == u.node
      requires Shape(Plain(u), d) && !Plain(u).leaf && !u.leaf
      requires 1 <= j && j - 1 <= |Plain(u).keys| && |Plain(u).kids| == |Plain(u).keys| + 1 == |u.kids| && d > 0
      requires Inner(Plain(u).kids[j - 1], d - 1) && |Plain(u).kids[j - 1].keys| >= MIN_CHILD
      requires |u.keys| == |Plain(u).keys| && (root == q || root !in Nodes(u))
      modifies Nodes(u), `root
      ensures Matches(r) && Distinct(r) && Nodes(r) <= Nodes(u)
      ensures Plain(r) == DeleteBelow(Plain(u), j - 1, v, old(root == q), d)
      ensures if old(root == q) then root == r.node else root == old(root) && r.node == q
      decreases d, 2
    {
      ghost var top := root == q;
      hide *;
      var fl := Shrink(q, u, d);
      r := DelDown(q, fl, j, v, u, d, top, all);
    }

    /** delNLeaf: a key of an inner node gives way to its predecessor or successor, or moves down. */
    method DelNLeaf(q: Node, index: nat, ghost s: Image, ghost d: nat, ghost all: set<Node>) returns (ghost r: Image)
      requires Nodes(s) <= all && Matches(s) && Distinct(s) && q == s.node && !s.leaf && Fit(Plain(s), q == root, d)
      requires q == root || root !in Nodes(s)
      requires 1 <= index <= |Plain(s).keys| && FirstNotBelow(Plain(s).keys, Plain(s).keys[index - 1]) == index - 1
      modifies Nodes(s), `root
      ensures Matches(r) && Distinct(r) && Nodes(r) <= Nodes(s)
      ensures Plain(r) == BTreeSpec.Delete(Plain(s), Plain(s).keys[index - 1], old(q == root), d)
      ensures if old(q == root) then root == r.node else root == old(root) && r.node == q
      decreases d, 4
    {
      KeyTaken(s, index - 1, index, d, q == root);
      hide *;
      var val := q.key[index];
      if q.ptr[index].n >= MIN_CHILD {
        r := DelPred(q, index, s, d, all);
      } else if q.ptr[index + 1].n >= MIN_CHILD {
        r := DelSucc(q, index, s, d, all);
      } else {
        r := DelMerge(q, index, val, s, d, all);
      }
    }

    /** A key of a node is overwritten. */
    method SetKeyAt(q: Node, i: nat, p: int, ghost s: Image, ghost d: nat, ghost all: set<Node>)
      returns (ghost u: Image)
      requires Nodes(s) <= all && Matches(s) && Distinct(s) && q == s.node && 1 <= i <= |s.keys|
      modifies q
      ensures u == s.(keys := s.keys[i - 1 := p]) && Matches(u) && Distinct(u) && Nodes(u) == Nodes(s)
      ensures |Plain(s).keys| == |s.keys| && Plain(u) == Plain(s).(keys := Plain(s).keys[i - 1 := p])
    {
      Unfold(s);
      u := s.(keys := s.keys[i - 1 := p]);
      Unfold(u);
      hide *;
      q.SetKey(i, p, s.leaf, s.keys, Heads(s.kids));
    }

    /** delete, for a value that is further down: the child it is below gets a key to spare. */
    method DelSteer(q: Node, fIdx: nat, v: int, ghost s: Image, ghost d: nat, ghost all: set<Node>)
      returns (ghost r: Image)
      requires Nodes(s) <= all && Matches(s) && Distinct(s) && q == s.node && !s.leaf && Fit(Plain(s), q == root, d)
      requires q == root || root !in Nodes(s)
      requires 1 <= fIdx && fIdx - 1 == FirstNotBelow(Plain(s).keys, v) && Finds(Plain(s), v)
      requires fIdx - 1 < |Plain(s).keys| ==> Plain(s).keys[fIdx - 1] != v
      modifies Nodes(s), `root
      ensures Matches(r) && Distinct(r) && Nodes(r) <= Nodes(s)
      ensures Plain(r) == BTreeSpec.Delete(Plain(s), v, old(q == root), d)
      ensures if old(q == root) then root == r.node else root == old(root) && r.node == q
      decreases d, 3
    {
      ghost var top := q == root;
      hide *;
      SteeredIs(s, fIdx - 1, v, d, top);
      var ls := fIdx == q.n + 1;
      var dd := false;
      ghost var u := s;
      if q.ptr[fIdx].n < MIN_CHILD {
        dd, u := EnsureKeys(q, fIdx, s, d, all);
      }
      SteeredTo(s, fIdx - 1, d, u);
      if !dd {
        if fIdx > q.n + 1 && ls {
          r := DelDown(q, false, fIdx - 1, v, u, d, top, all);
        } else {
          r := DelDown(q, false, fIdx, v, u, d, top, all);
        }
      } else {
        r := DelDown(q, true, 1, v, u, d, top, all);
      }
    }

    /** delete: takes out one v below q, if there is one. */
    method DeleteAt(q: Node, v: int, ghost s: Image, ghost d: nat, ghost all: set<Node>)
      returns (code: int, ghost r: Image)
      requires Nodes(s) <= all && Matches(s) && Distinct(s) && q == s.node && Fit(Plain(s), q == root, d)
      requires q == root || root !in Nodes(s)
      modifies Nodes(s), `root
      ensures Matches(r) && Distinct(r) && Nodes(r) <= Nodes(s)
      ensures Plain(r) == BTreeSpec.Delete(Plain(s), v, old(q == root), d)
      ensures if old(q == root) then root == r.node else root == old(root) && r.node == q
      ensures code == if Finds(Plain(s), v) then 0 else -1
      decreases d, 5
    {
      ghost var top := q == root;
      hide *;
      DeleteReady(s, v, d, top);
      r := s;
      var a, _ := Find(q, v, s, d, all);
      if a == null {
        return -1, s;
      }
      var fIdx := q.FirstAt(v, s.keys);
      if fIdx <= q.n && q.key[fIdx] == v {
        if q.isLeaf {
          q.DelLeaf(fIdx, s.keys);
          r := LeafImage(s, CutAt(s.keys, fIdx - 1));
          LeafCut(s, fIdx - 1, v, d, top);
        } else {
          r := DelNLeaf(q, fIdx, s, d, all);
        }
      } else {
        r := DelSteer(q, fIdx, v, s, d, all);
      }
      return 0, r;
    }

    /** delete on the whole tree. */
    method Delete(v: int) returns (code: int)
      requires Valid()
      modifies this, Nodes(image)
      ensures Valid() && Plain(image) == BTreeSpec.Delete(old(Plain(image)), v, true, old(h))
      ensures code == if v in old(InOrder(Plain(image))) then 0 else -1
      ensures v !in old(InOrder(Plain(image))) ==> Plain(image) == old(Plain(image))
      ensures v in old(InOrder(Plain(image))) ==> Adds(InOrder(Plain(image)), v, old(InOrder(Plain(image))))
      ensures Nodes(image) <= old(Nodes(image))
    {
      ghost var t := Plain(image);
      ghost var d := DeleteGood(t, v, h);
      hide Nodes, Matches, Distinct, Plain, BTreeSpec.Delete, InOrder, Adds, Good, Fit, Finds;
      ghost var r;
      code, r := DeleteAt(root, v, image, h, Nodes(image));
      image := r;
      h := d;
    }

    /** find on the whole tree: the node and the index of a value. */
    method Search(v: int) returns (a: Node?, b: nat)
      requires Valid()
      ensures a != null <==> v in InOrder(Plain(image))
      ensures a != null ==> a in Nodes(image) && 1 <= b <= a.n && b < |a.key| && a.key[b] == v
    {
      FindsExactly(Plain(image), v, h);
      hide Nodes, Matches, Distinct, Plain, InOrder, Sorted, Finds;
      a, b := Find(root, v, image, h, Nodes(image));
    }
  }

  /** What is known before a deletion goes on in a child. */
  lemma SteeredIs(s: Image, i: nat, v: int, d: nat, top: bool)
    requires Matches(s) && !s.leaf && Fit(Plain(s), top, d)
    requires i == FirstNotBelow(Plain(s).keys, v) && Finds(Plain(s), v)
    requires i < |Plain(s).keys| ==> Plain(s).keys[i] != v
    ensures Shape(Plain(s), d) && d > 0 && s.node in Nodes(s) && s.node.n == |s.keys| > 0 && |s.kids| == |s.keys| + 1
    ensures i < |s.kids| && i + 1 < |s.node.ptr| && s.node.ptr[i + 1] == s.kids[i].node
    ensures s.kids[i].node.n == |s.kids[i].keys|
    ensures s.kids[i].node in Nodes(s) && |s.keys| == |Plain(s).keys| && !Plain(s).leaf
    ensures 0 < |Plain(s).keys| == |Plain(s).kids| - 1 && i <= |Plain(s).keys|
    ensures |Plain(s).kids[i].keys| == |s.kids[i].keys|
    ensures var (t, j) := Steer(Plain(s), i);
      && Shape(t, d) && !t.leaf && j <= |t.keys| && |t.kids| == |t.keys| + 1
      && Inner(t.kids[j], d - 1) && |t.kids[j].keys| >= MIN_CHILD
      && Delete(Plain(s), v, top, d) == DeleteBelow(t, j, v, top, d)
  {
    FitShape(Plain(s), top, d);
    Look(s, d);
    Kid(s, i, d);
    SteerKeeps(Plain(s), i, d);
    KidsAreInner(Steer(Plain(s), i).0, d);
    FindsBelow(Plain(s), v);
    hide Matches, Nodes, Plain, Steer, Finds, InOrder, DeleteBelow, WithKid, MaxOf, MinOf;
  }

  lemma SteeredTo(s: Image, i: nat, d: nat, u: Image)
    requires 0 < |Plain(s).keys| == |Plain(s).kids| - 1 && i <= |Plain(s).keys| && |s.keys| == |Plain(s).keys|
    requires Shape(Plain(s), d) && !Plain(s).leaf && Matches(u)
    requires if |Plain(s).kids[i].keys| < MIN_CHILD then Plain(u) == Steer(Plain(s), i).0 else u == s
    ensures Plain(u) == Steer(Plain(s), i).0 && u.node.n == |u.keys| == |Plain(u).keys| && |u.kids| == |Plain(u).kids|
    ensures Steer(Plain(s), i).1 == if i == |s.keys| && i > |u.keys| then i - 1 else i
  {
    SteerKeeps(Plain(s), i, d);
    assert |Plain(u).kids| == |u.kids|;
  }

  /** What is known before a deletion. */
  lemma DeleteReady(s: Image, v: int, d: nat, top: bool)
    requires Matches(s) && Fit(Plain(s), top, d)
    ensures Shape(Plain(s), d) && s.node in Nodes(s) && s.node.isLeaf == s.leaf
    ensures (s.leaf ==> s.node.Holds(true, s.keys, []))
    ensures var i, x := FirstNotBelow(s.keys, v), s.node;
      && |x.key| == N && x.n == |s.keys| < N && x.key[1..x.n + 1] == s.keys && i <= |s.keys| && Plain(s).keys == s.keys
      && (i < |s.keys| ==> x.key[i + 1] == s.keys[i])
      && (!Finds(Plain(s), v) ==> Delete(Plain(s), v, top, d) == Plain(s))
      && (Finds(Plain(s), v) && s.leaf ==> i < |s.keys| && s.keys[i] == v)
  {
    FitShape(Plain(s), top, d);
    Look(s, d);
    LeafHolds(s, d);
    FindsBelow(Plain(s), v);
    var i := FirstNotBelow(s.keys, v);
    assert i < |s.keys| ==> s.node.key[1..s.node.n + 1][i] == s.node.key[i + 1];
    hide Matches, Nodes, Plain, Finds, Node.Holds;
  }

  lemma LeafCut(s: Image, i: nat, v: int, d: nat, top: bool)
    requires s.leaf && Fit(Plain(s), top, d) && Distinct(s)
    requires i == FirstNotBelow(s.keys, v) < |s.keys| && Finds(Plain(s), v)
    requires s.node.Holds(true, CutAt(s.keys, i), [])
    ensures var r := LeafImage(s, CutAt(s.keys, i));
      Matches(r) && Distinct(r) && r.node == s.node && Nodes(r) == Nodes(s) && Plain(r) == Delete(Plain(s), v, top, d)
  {
    var r := LeafImage(s, CutAt(s.keys, i));
    FitShape(Plain(s), top, d);
    assert Plain(s).kids == [] && s.kids == [];
    assert Heads(r.kids) == [];
    hide Finds;
  }

  lemma DeleteGood(t: Tree, v: int, h: nat) returns (d: nat)
    requires Good((t, h))
    ensures Fit(t, true, h) && Good((Delete(t, v, true, h), d)) && (Finds(t, v) <==> v in InOrder(t))
    ensures v !in InOrder(t) ==> Delete(t, v, true, h) == t
    ensures v in InOrder(t) ==> Adds(InOrder(Delete(t, v, true, h)), v, InOrder(t))
  {
    RootDelete(t, v, h);
    DeleteKeeps(t, v, true, h);
    FindsExactly(t, v, h);
    d := if Shape(Delete(t, v, true, h), h) then h else h - 1;
  }

  lemma FitBelow(t: Tree, d: nat)
    requires Shape(t, d) && |t.keys| >= MIN_CHILD
    ensures Fit(t, false, d)
  {
  }

  lemma DownIs(t: Tree, j: nat, v: int, top: bool, d: nat)
    requires Shape(t, d) && !t.leaf && j <= |t.keys| && |t.kids| == |t.keys| + 1 && d > 0
    requires Inner(t.kids[j], d - 1) && |t.kids[j].keys| >= MIN_CHILD
    ensures Fit(t.kids[j], false, d - 1) && (top && |t.keys| == 0 ==> Fit(t.kids[0], true, d - 1))
    ensures DeleteBelow(t, j, v, top, d)
            == if top && |t.keys| == 0 then Delete(t.kids[0], v, true, d - 1)
               else WithKid(t, j, Delete(t.kids[j], v, false, d - 1))
  {
  }

  lemma DownKid(u: Image, j: nat, d: nat)
    requires Shape(Plain(u), d) && j < |Plain(u).kids| == |u.kids| && d > 0 && Inner(Plain(u).kids[j], d - 1)
    ensures Plain(u).kids[j] == Plain(u.kids[j]) && Plain(u).kids[0] == Plain(u.kids[0])
    ensures Shape(Plain(u.kids[j]), d - 1) && |u.kids| > 0
  {
    PlainsAt(u.kids, j);
    PlainsAt(u.kids, 0);
  }

  /** What memory tells about a key of an inner node and the children around it. */
  lemma KeyTaken(s: Image, i: nat, j: nat, d: nat, top: bool)
    requires Matches(s) && !s.leaf && Fit(Plain(s), top, d) && i + 1 == j <= |Plain(s).keys|
    ensures Shape(Plain(s), d) && d > 0 && s.node in Nodes(s) && Plain(s).keys == s.keys && |s.kids| == |s.keys| + 1
    ensures |s.node.ptr| == N + 1 && j < N && j < |s.node.key| && s.node.key[j] == Plain(s).keys[i]
    ensures s.node.ptr[j] == s.kids[i].node && s.node.ptr[j + 1] == s.kids[j].node
    ensures s.kids[i].node in Nodes(s) && s.kids[i].node.n == |s.kids[i].keys| && s.kids[i].leaf == s.kids[j].leaf
    ensures s.kids[j].node in Nodes(s) && s.kids[j].node.n == |s.kids[j].keys|
    ensures |s.kids[i].keys| >= MIN_CHILD - 1 && |s.kids[j].keys| >= MIN_CHILD - 1
  {
    FitShape(Plain(s), top, d);
    Look(s, d);
    Kid(s, i, d);
    Kid(s, j, d);
    assert s.node.key[1..s.node.n + 1][i] == s.node.key[j];
    hide Matches, Nodes, Plain, Shape, Inner, Fit;
  }

  lemma FitShape(t: Tree, top: bool, d: nat)
    requires Fit(t, top, d)
    ensures Shape(t, d)
  {
  }

  lemma TakenPred(s: Image, i: nat, d: nat, top: bool)
    requires !s.leaf && Fit(Plain(s), top, d) && i < |Plain(s).keys| && i < |s.kids|
    requires FirstNotBelow(Plain(s).keys, Plain(s).keys[i]) == i && |s.kids[i].keys| >= MIN_CHILD
    ensures var t, k := Plain(s), Plain(s.kids[i]);
      && i < |t.kids| && d > 0 && Fit(k, false, d - 1) && Shape(k, d - 1) && |k.keys| == |s.kids[i].keys|
      && Delete(t, t.keys[i], top, d)
          == WithKid(t.(keys := t.keys[i := MaxOf(k)]), i, Delete(k, MaxOf(k), false, d - 1))
  {
    FitShape(Plain(s), top, d);
    KidInner(s, i, d);
    KidsAreInner(Plain(s), d);
    FindsBelow(Plain(s), Plain(s).keys[i]);
    hide Finds, MaxOf, MinOf, WithKid, DeleteBelow, InOrder, Plains;
  }

  lemma TakenSucc(s: Image, i: nat, j: nat, d: nat, top: bool)
    requires !s.leaf && Fit(Plain(s), top, d) && i + 1 == j <= |Plain(s).keys| && j < |s.kids|
    requires FirstNotBelow(Plain(s).keys, Plain(s).keys[i]) == i && |s.kids[i].keys| < MIN_CHILD <= |s.kids[j].keys|
    ensures var t, k := Plain(s), Plain(s.kids[j]);
      && j < |t.kids| && d > 0 && Fit(k, false, d - 1) && Shape(k, d - 1) && |k.keys| == |s.kids[j].keys|
      && Delete(t, t.keys[i], top, d)
          == WithKid(t.(keys := t.keys[i := MinOf(k)]), j, Delete(k, MinOf(k), false, d - 1))
  {
    FitShape(Plain(s), top, d);
    KidInner(s, i, d);
    KidInner(s, j, d);
    KidsAreInner(Plain(s), d);
    FindsBelow(Plain(s), Plain(s).keys[i]);
    hide Finds, MaxOf, MinOf, WithKid, DeleteBelow, InOrder, Plains;
  }

  lemma TakenMerge(s: Image, i: nat, j: nat, d: nat, top: bool)
    requires !s.leaf && Fit(Plain(s), top, d) && i + 1 == j <= |Plain(s).keys| && j < |s.kids|
    requires FirstNotBelow(Plain(s).keys, Plain(s).keys[i]) == i
    requires |s.kids[i].keys| < MIN_CHILD && |s.kids[j].keys| < MIN_CHILD
    ensures j < |Plain(s).kids|
    ensures var t, m := Plain(s), Merge(Plain(s), i);
      && Shape(t, d) && d > 0 && Shape(m, d) && !m.leaf && i <= |m.keys| && |m.kids| == |m.keys| + 1
      && Inner(m.kids[i], d - 1) && |m.kids[i].keys| >= MIN_CHILD
      && Delete(t, t.keys[i], top, d) == DeleteBelow(m, i, t.keys[i], top, d)
  {
    FitShape(Plain(s), top, d);
    KidInner(s, i, d);
    KidInner(s, j, d);
    KidsAreInner(Plain(s), d);
    FindsBelow(Plain(s), Plain(s).keys[i]);
    MergeKeeps(Plain(s), i, d);
    KidsAreInner(Merge(Plain(s), i), d);
    hide Finds, MaxOf, MinOf, WithKid, DeleteBelow, InOrder, Plains, Merge;
  }

  lemma MergeShape(s: Image, i: nat, d: nat, u: Image)
    requires Shape(Plain(s), d) && i < |Plain(s).keys| && i + 1 < |Plain(s).kids| && Plain(u) == Merge(Plain(s), i)
    requires Shape(Merge(Plain(s), i), d) && !Merge(Plain(s), i).leaf
    ensures Shape(Plain(u), d) && !u.leaf && !Plain(u).leaf
    ensures |u.keys| == |Plain(u).keys| && |u.kids| == |Plain(u).kids|
  {
    hide Merge, Shape;
  }

  /** What is known before a child gets a key to spare. */
  lemma SteerReady(s: Image, i: nat, d: nat)
    requires Matches(s) && Shape(Plain(s), d) && !s.leaf && |s.keys| > 0 && i < |s.kids| && |s.kids[i].keys| < MIN_CHILD
    ensures s.node in Nodes(s) && s.node.n == |s.keys| && |s.kids| == |s.keys| + 1 && |s.node.ptr| == N + 1 && d > 0
    ensures 0 < |Plain(s).keys| == |Plain(s).kids| - 1 && i <= |Plain(s).keys| && Plain(s).keys == s.keys
    ensures |Plain(s).kids[i].keys| == |s.kids[i].keys| == MIN_CHILD - 1 && MIN_CHILD < N - 1
    ensures s.kids[i].node in Nodes(s)
  {
    Look(s, d);
    Kid(s, i, d);
    hide Matches, Nodes, Plain, Shape, Inner;
  }

  lemma SteerLeft(s: Image, j: nat, i: nat, d: nat)
    requires Matches(s) && Shape(Plain(s), d) && j + 1 == i < |s.kids|
    ensures i < |s.node.ptr| && s.node.ptr[i] == s.kids[j].node && s.kids[j].node.n == |s.kids[j].keys|
    ensures s.kids[j].node in Nodes(s) && s.kids[j].leaf == s.kids[i].leaf && |s.kids[j].keys| >= MIN_CHILD - 1 >= 1
    ensures |Plain(s).kids| == |s.kids| && |Plain(s).kids[j].keys| == |s.kids[j].keys|
  {
    Kid(s, j, d);
    Kid(s, i, d);
    hide Matches, Nodes, Plain, Shape, Inner;
  }

  lemma SteerRight(s: Image, i: nat, j: nat, d: nat)
    requires Matches(s) && Shape(Plain(s), d) && i + 1 == j < |s.kids|
    ensures j + 1 < |s.node.ptr| && s.node.ptr[j + 1] == s.kids[j].node && s.kids[j].node.n == |s.kids[j].keys|
    ensures s.kids[j].node in Nodes(s) && s.kids[i].leaf == s.kids[j].leaf && |s.kids[j].keys| >= MIN_CHILD - 1 >= 1
    ensures |Plain(s).kids| == |s.kids| && |Plain(s).kids[j].keys| == |s.kids[j].keys|
  {
    Kid(s, i, d);
    Kid(s, j, d);
    hide Matches, Nodes, Plain, Shape, Inner;
  }

  lemma SteerIs(t: Tree, i: nat)
    requires 0 < |t.keys| == |t.kids| - 1 && i <= |t.keys| && |t.kids[i].keys| < MIN_CHILD
    ensures i > 0 && |t.kids[i - 1].keys| >= MIN_CHILD ==>
              Steer(t, i).0 == BorrowLeft(t, i) && |BorrowLeft(t, i).keys| > 0
    ensures !(i > 0 && |t.kids[i - 1].keys| >= MIN_CHILD) && i < |t.keys| ==>
              if |t.kids[i + 1].keys| >= MIN_CHILD
              then Steer(t, i).0 == BorrowRight(t, i) && |BorrowRight(t, i).keys| > 0
              else Steer(t, i).0 == Merge(t, i)
    ensures !(i > 0 && |t.kids[i - 1].keys| >= MIN_CHILD) && i == |t.keys| ==> Steer(t, i).0 == Merge(t, i - 1)
  {
  }

  /** The image that holds the steered tree has its shape. */
  lemma SteerShape(s: Image, i: nat, d: nat, u: Image)
    requires Shape(Plain(s), d) && !s.leaf && 0 < |Plain(s).keys| == |Plain(s).kids| - 1 && i <= |Plain(s).keys|
    requires Plain(u) == Steer(Plain(s), i).0
    ensures Shape(Plain(u), d) && !u.leaf && |u.kids| == |u.keys| + 1 && |u.keys| == |Plain(u).keys|
  {
    SteerKeeps(Plain(s), i, d);
    hide Steer;
  }

  lemma FullRoot(s: Image, v: int, d: nat)
    requires Root(Plain(s), d) && |s.keys| == N - 1
    ensures s.node in Nodes(s) && |Plain(s).keys| == N - 1
    ensures var t := SplitChild(Tree(false, [], [Plain(s)]), 0);
      Shape(t, d + 1) && |t.keys| == 1 < N - 1 && InsertRoot(Plain(s), v, d) == Insert(t, v, d + 1)
  {
    NewRoot(Plain(s), d);
  }

  lemma SmallRoot(s: Image, v: int, d: nat)
    requires Root(Plain(s), d) && |s.keys| != N - 1
    ensures Shape(Plain(s), d) && |Plain(s).keys| < N - 1 && |s.keys| < N - 1
    ensures InsertRoot(Plain(s), v, d) == Insert(Plain(s), v, d)
  {
  }

  lemma NodeIn(s: Image)
    ensures s.node in Nodes(s)
  {
  }

  lemma KeysOf(s: Image)
    ensures s.keys == Plain(s).keys && 1 < N - 1
  {
  }

  lemma OneChild(x: Node, c: Node)
    requires |x.key| == N && |x.ptr| == N + 1 && !x.isLeaf && x.n == 0 && x.ptr[1] == c
    ensures x.Holds(false, [], [c])
  {
    assert x.ptr[1..2] == [c];
  }

  lemma OverRoot(x: Node, s: Image)
    requires Matches(s) && Distinct(s) && x !in Nodes(s) && x.Holds(false, [], [s.node])
    ensures var t := Image(x, false, [], [s]);
      && Matches(t) && Distinct(t) && Nodes(t) == Nodes(s) + {x} && s.node in Nodes(s)
      && Plain(t) == Tree(false, [], [Plain(s)]) && Plain(s).keys == s.keys && N > 1
  {
    var t := Image(x, false, [], [s]);
    Single(s);
    Unfold(t);
    Unfold(s);
    assert Heads([s]) == [s.node] && Plains([s]) == [Plain(s)];
    hide Nodes, Kin, Matches, MatchAll, Distinct, Apart, Plain, Plains, Heads;
  }
}
