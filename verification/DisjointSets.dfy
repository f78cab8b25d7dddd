/** The disjoint-set forest of kruskal.c: path halving in `find`, union by size. */
module DisjointSets {

  function Pow2(n: nat): nat {
    if n == 0 then 1 else 2 * Pow2(n - 1)
  }

  lemma {:induction false} Pow2Monotone(a: nat, b: nat)
    requires a <= b
    ensures 1 <= Pow2(a) <= Pow2(b)
  {
    if b == 0 {
    } else if a < b {
      Pow2Monotone(a, b - 1);
    } else {
      Pow2Monotone(a - 1, b - 1);
    }
  }

  /** The elements whose root is r. */
  function Class(rep: seq<int>, r: int): set<int> {
    set i | 0 <= i < |rep| && rep[i] == r
  }

  function Roots(rep: seq<int>): set<int> {
    set i | 0 <= i < |rep| && rep[i] == i
  }

  function Joined(rep: seq<int>, a: int, b: int): seq<int> {
    seq(|rep|, i requires 0 <= i < |rep| => if rep[i] == a then b else rep[i])
  }

  /** The number of parent links from i to its root; lev rises along every link. */
  ghost function Depth(p: seq<int>, rep: seq<int>, lev: seq<nat>, i: int): (d: nat)
    requires Shape(p, rep, lev) && 0 <= i < |p|
    ensures 0 <= rep[i] < |p| && d + lev[i] <= lev[rep[i]]
    decreases Height(lev, i)
  {
    assert Node(p, rep, lev, i);
    if p[i] == i then 0 else
      LevBound(p, rep, lev, p[i]);
      Climb(lev, i, p[i]);
      1 + Depth(p, rep, lev, p[i])
  }

  /** Node i links towards its root rep[i], and lev rises along the link. */
  ghost predicate Node(p: seq<int>, rep: seq<int>, lev: seq<nat>, i: int)
    requires |p| == |rep| == |lev| && 0 <= i < |p|
  {
    && 0 <= p[i] < |p| && 0 <= rep[i] < |p|
    && rep[p[i]] == rep[i]
    && (p[i] == i <==> rep[i] == i)
    && rep[rep[i]] == rep[i]
    && (p[i] != i ==> lev[i] < lev[p[i]])
  }

  /** p is a forest over 0..|p| in which rep names the root of each element. */
  ghost predicate Shape(p: seq<int>, rep: seq<int>, lev: seq<nat>) {
    |p| == |rep| == |lev| && forall i :: 0 <= i < |p| ==> Node(p, rep, lev, i)
  }

  lemma {:induction false} LevBound(p: seq<int>, rep: seq<int>, lev: seq<nat>, i: int)
    requires Shape(p, rep, lev) && 0 <= i < |p|
    ensures 0 <= rep[i] < |p| && lev[i] <= lev[rep[i]]
    decreases Height(lev, i)
  {
    assert Node(p, rep, lev, i);
    if p[i] != i {
      assert Node(p, rep, lev, p[i]);
      Climb(lev, i, p[i]);
      LevBound(p, rep, lev, p[i]);
    }
  }

  /** How far lev can still rise above lev[i]. */
  function Height(lev: seq<nat>, i: int): nat
    requires 0 <= i < |lev|
  {
    SumBounds(lev, i);
    Sum(lev) - lev[i]
  }

  lemma Climb(lev: seq<nat>, i: int, j: int)
    requires 0 <= i < |lev| && 0 <= j < |lev| && lev[i] < lev[j]
    ensures Height(lev, j) < Height(lev, i)
  {
  }

  /** Pointing i at its grandparent leaves every element under the same root. */
  lemma HalvingKeepsShape(p: seq<int>, rep: seq<int>, lev: seq<nat>, i: int)
    requires Shape(p, rep, lev) && 0 <= i < |p| && p[i] != i
    ensures Node(p, rep, lev, i) && Node(p, rep, lev, p[i])
    ensures Shape(p[i := p[p[i]]], rep, lev) && lev[i] < lev[p[p[i]]]
  {
    assert Node(p, rep, lev, i) && Node(p, rep, lev, p[i]);
    var p' := p[i := p[p[i]]];
    forall j | 0 <= j < |p| ensures Node(p', rep, lev, j) {
      assert Node(p, rep, lev, j);
    }
  }

  /** Hanging the root a below the root b puts exactly the elements of a's class under b. */
  lemma LinkKeepsShape(p: seq<int>, rep: seq<int>, lev: seq<nat>, a: int, b: int)
    requires Shape(p, rep, lev) && 0 <= a < |p| && 0 <= b < |p| && rep[a] == a && rep[b] == b && a != b
    ensures Shape(p[a := b], Joined(rep, a, b), lev[b := Max(lev[b], lev[a] + 1)])
  {
    var p', rep', lev' := p[a := b], Joined(rep, a, b), lev[b := Max(lev[b], lev[a] + 1)];
    assert Node(p, rep, lev, b);
    forall i | 0 <= i < |p| ensures Node(p', rep', lev', i) {
      assert Node(p, rep, lev, i);
    }
  }

  lemma RootsAreFixed(p: seq<int>, rep: seq<int>, lev: seq<nat>)
    requires Shape(p, rep, lev)
    ensures |p| == |rep| && forall i :: 0 <= i < |rep| ==> 0 <= rep[i] < |rep| && rep[rep[i]] == rep[i]
  {
    forall i | 0 <= i < |rep| ensures 0 <= rep[i] < |rep| && rep[rep[i]] == rep[i] {
      assert Node(p, rep, lev, i);
    }
  }

  function Sum(s: seq<nat>): nat {
    if s == [] then 0 else s[0] + Sum(s[1..])
  }

  lemma {:induction false} SumBounds(s: seq<nat>, i: int)
    requires 0 <= i < |s|
    ensures s[i] <= Sum(s)
  {
    if i > 0 { SumBounds(s[1..], i - 1); }
  }

  lemma JoinedClass(rep: seq<int>, a: int, b: int)
    requires 0 <= a < |rep| && 0 <= b < |rep| && a != b && rep[a] == a && rep[b] == b
    ensures |Class(Joined(rep, a, b), b)| == |Class(rep, a)| + |Class(rep, b)|
    ensures forall r :: r != a && r != b ==> Class(Joined(rep, a, b), r) == Class(rep, r)
    ensures Roots(Joined(rep, a, b)) == Roots(rep) - {a}
  {
    assert Class(Joined(rep, a, b), b) == Class(rep, a) + Class(rep, b);
    forall r | r != a && r != b ensures Class(Joined(rep, a, b), r) == Class(rep, r) {}
  }

  /** `size` is exact at every root, and every class is big enough for its height. */
  ghost predicate Sized(size: seq<int>, rep: seq<int>, lev: seq<nat>) {
    |size| == |rep| == |lev| &&
    forall r :: 0 <= r < |rep| && rep[r] == r ==> size[r] == |Class(rep, r)| && Pow2(lev[r]) <= size[r]
  }

  /** No element is deeper than the logarithm of its class size. */
  lemma DepthIsLogarithmic(p: seq<int>, size: seq<int>, rep: seq<int>, lev: seq<nat>, i: int)
    requires Shape(p, rep, lev) && Sized(size, rep, lev) && 0 <= i < |p|
    ensures Pow2(Depth(p, rep, lev, i)) <= |Class(rep, rep[i])|
  {
    assert Node(p, rep, lev, i);
    Pow2Monotone(Depth(p, rep, lev, i), lev[rep[i]]);
  }

  lemma LinkKeepsSizes(size: seq<int>, rep: seq<int>, lev: seq<nat>, a: int, b: int)
    requires Sized(size, rep, lev) && 0 <= a < |rep| && 0 <= b < |rep|
    requires rep[a] == a && rep[b] == b && a != b && size[a] <= size[b]
    ensures Sized(size[b := size[b] + size[a]], Joined(rep, a, b), lev[b := Max(lev[b], lev[a] + 1)])
  {
    JoinedClass(rep, a, b);
    var rep' := Joined(rep, a, b);
    forall r | 0 <= r < |rep| && rep'[r] == r && r != b
      ensures rep[r] == r && Class(rep', r) == Class(rep, r)
    {
    }
  }

  /** Uniting a class with itself would count it twice. */
  lemma SelfUnionBreaksSizes(size: seq<int>, rep: seq<int>, lev: seq<nat>, a: int)
    requires Sized(size, rep, lev) && 0 <= a < |rep| && rep[a] == a
    ensures Joined(rep, a, a) == rep && !Sized(size[a := size[a] + size[a]], rep, lev)
  {
    assert a in Class(rep, a);
  }

  class Dsu {
    var p: array<int>
    var size: array<int>
    const num: nat
    ghost var rep: seq<int>
    ghost var lev: seq<nat>

    /** The partition and its links; true however unions are made. */
    ghost predicate Linked()
      reads this, p
    {
      p.Length == |rep| == num && Shape(p[..], rep, lev)
    }

    ghost predicate Balanced()
      reads this, p, size
    {
      Linked() && size.Length == num && p != size && Sized(size[..], rep, lev)
    }

    constructor (n: nat)
      ensures fresh(p) && fresh(size) && num == n && Balanced()
      ensures rep == seq(n, i => i)
    {
      p := new int[n];
      size := new int[n];
      num := n;
      rep := seq(n, i => i);
      lev := seq(n, i => 0);
      new;
      for i := 0 to n
        invariant fresh(p) && fresh(size) && p.Length == size.Length == n && p != size
        invariant rep == seq(n, i => i) && lev == seq(n, i => 0)
        invariant forall k :: 0 <= k < i ==> p[k] == k && size[k] == 1
      {
        p[i] := i;
        size[i] := 1;
      }
      forall i | 0 <= i < n ensures Node(p[..], rep, lev, i) {}
      forall r | 0 <= r < n ensures |Class(rep, r)| == 1 {
        assert Class(rep, r) == {r};
      }
    }

    /** Path halving moves no element to another class. `steps` counts the turns of the loop. */
    method Find(x: int) returns (r: int, ghost steps: nat)
      requires Linked() && 0 <= x
      modifies p
      ensures Linked() && rep == old(rep) && lev == old(lev)
      ensures x >= num ==> r == -1 && p[..] == old(p[..])
      ensures x < num ==> 0 <= r < num && r == rep[x] == rep[r] && steps + lev[x] <= lev[r]
      ensures Sized(size[..], rep, lev) && x < num ==> Pow2(steps) <= |Class(rep, r)|
    {
      steps := 0;
      if x >= num {
        return -1, steps;
      }
      var i := x;
      while p[i] != i
        invariant 0 <= i < num && Linked() && rep[i] == rep[x]
        invariant steps + lev[x] <= lev[i]
        decreases Height(lev, i)
      {
        ghost var q := p[..];
        HalvingKeepsShape(q, rep, lev, i);
        p[i] := p[p[i]];
        assert p[..] == q[i := q[q[i]]];
        assert Node(p[..], rep, lev, i);
        Climb(lev, i, p[i]);
        i := p[i];
        steps := steps + 1;
      }
      assert Node(p[..], rep, lev, i);
      Pow2Monotone(steps, lev[i]);
      r := i;
    }

    /** Hangs the root a below the root b; both branches of `Union` do this. */
    method Attach(a: int, b: int)
      requires Linked() && size.Length == num && p != size
      requires 0 <= a < num && 0 <= b < num && rep[a] == a && rep[b] == b && size[a] <= size[b]
      modifies this`rep, this`lev, p, size
      ensures Linked() && rep == Joined(old(rep), a, b)
      ensures old(Sized(size[..], rep, lev)) ==> (Sized(size[..], rep, lev) <==> a != b)
    {
      ghost var q, z := p[..], size[..];
      assert Node(q, rep, lev, a) && Node(q, rep, lev, b);
      p[a] := p[b];
      size[b] := size[b] + size[a];
      assert p[..] == q[a := b] && size[..] == z[b := z[b] + z[a]];
      if a == b {
        assert p[..] == q && rep == Joined(rep, a, a);
        if Sized(z, rep, lev) { SelfUnionBreaksSizes(z, rep, lev, a); }
      } else {
        LinkKeepsShape(q, rep, lev, a, b);
        if Sized(z, rep, lev) { LinkKeepsSizes(z, rep, lev, a, b); }
        rep, lev := Joined(rep, a, b), lev[b := Max(lev[b], lev[a] + 1)];
      }
    }

    /** Merges two classes. The sizes stay exact just when the classes were different. */
    method Union(x: int, y: int)
      requires Linked() && size.Length == num && p != size && 0 <= x < num && 0 <= y < num
      modifies this`rep, this`lev, p, size
      ensures Linked() && 0 <= old(rep[x]) < num && 0 <= old(rep[y]) < num
      ensures var a, b := old(rep[x]), old(rep[y]);
        rep == if old(size[rep[x]] < size[rep[y]]) then Joined(old(rep), a, b) else Joined(old(rep), b, a)
      ensures old(Balanced()) ==> (Balanced() <==> old(rep[x]) != old(rep[y]))
    {
      assert Node(p[..], rep, lev, x) && Node(p[..], rep, lev, y);
      var px, _ := Find(x);
      var py, _ := Find(y);
      if size[px] < size[py] {
        Attach(px, py);
      } else {
        Attach(py, px);
      }
    }
  }

  function Max(a: nat, b: nat): nat {
    if a < b then b else a
  }
}
