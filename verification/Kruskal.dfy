/** kruskal.c: sort the edges, then keep every edge whose ends are not yet together. */
module Kruskal {
  import opened Counting
  import opened Graph
  import opened DisjointSets

  // ----- sorting the edges by weight -----

  ghost predicate SortedBetween(a: seq<Edge>, lo: int, hi: int) {
    forall i, j :: 0 <= lo <= i < j <= hi < |a| ==> a[i].wt <= a[j].wt
  }

  /** b is a with the elements between lo and hi permuted. */
  ghost predicate Permuted(a: seq<Edge>, b: seq<Edge>, lo: int, hi: int)
    requires 0 <= lo <= hi + 1 <= |a|
  {
    |a| == |b| && multiset(a) == multiset(b) &&
    forall k :: 0 <= k < lo || hi < k < |a| ==> a[k] == b[k]
  }

  lemma PermutedRange(a: seq<Edge>, b: seq<Edge>, lo: int, hi: int)
    requires 0 <= lo <= hi + 1 <= |a| && Permuted(a, b, lo, hi)
    ensures forall k :: lo <= k <= hi ==> b[k] in a[lo..hi + 1]
  {
    var p, am, bm, r := a[..lo], a[lo..hi + 1], b[lo..hi + 1], a[hi + 1..];
    assert a == p + am + r && b == p + bm + r;
    assert multiset(a) == multiset(p) + multiset(am) + multiset(r);
    assert multiset(b) == multiset(p) + multiset(bm) + multiset(r);
    forall k | lo <= k <= hi ensures b[k] in am {
      assert bm[k - lo] == b[k] && b[k] in multiset(bm);
      assert multiset(a)[b[k]] == multiset(b)[b[k]];
      assert b[k] in multiset(am);
    }
  }

  lemma PermutedBelow(a: seq<Edge>, b: seq<Edge>, lo: int, hi: int, w: int)
    requires 0 <= lo <= hi + 1 <= |a| && Permuted(a, b, lo, hi)
    requires forall k :: lo <= k <= hi ==> a[k].wt < w
    ensures forall k :: lo <= k <= hi ==> b[k].wt < w
  {
    PermutedRange(a, b, lo, hi);
  }

  lemma PermutedAbove(a: seq<Edge>, b: seq<Edge>, lo: int, hi: int, w: int)
    requires 0 <= lo <= hi + 1 <= |a| && Permuted(a, b, lo, hi)
    requires forall k :: lo <= k <= hi ==> w <= a[k].wt
    ensures forall k :: lo <= k <= hi ==> w <= b[k].wt
  {
    PermutedRange(a, b, lo, hi);
  }

  method SwapAt(arr: array<Edge>, i: int, j: int)
    requires 0 <= i < arr.Length && 0 <= j < arr.Length
    modifies arr
    ensures arr[i] == old(arr[j]) && arr[j] == old(arr[i])
    ensures forall k :: 0 <= k < arr.Length && k != i && k != j ==> arr[k] == old(arr[k])
    ensures multiset(arr[..]) == old(multiset(arr[..]))
  {
    var temp := arr[i];
    arr[i] := arr[j];
    arr[j] := temp;
  }

  method Partition(arr: array<Edge>, lo: int, hi: int, pivot: int) returns (m: int)
    requires 0 <= lo <= pivot <= hi < arr.Length
    modifies arr
    ensures lo <= m <= hi && Permuted(old(arr[..]), arr[..], lo, hi)
    ensures arr[m] == old(arr[pivot])
    ensures forall k :: lo <= k < m ==> arr[k].wt < arr[m].wt
    ensures forall k :: m < k <= hi ==> arr[m].wt <= arr[k].wt
  {
    var i := lo - 1;
    SwapAt(arr, pivot, hi);
    var pElem := arr[hi].wt;
    for j := lo to hi
      invariant lo - 1 <= i < j && multiset(arr[..]) == old(multiset(arr[..]))
      invariant forall k :: 0 <= k < lo || hi < k < arr.Length ==> arr[k] == old(arr[k])
      invariant arr[hi] == old(arr[pivot])
      invariant forall k :: lo <= k <= i ==> arr[k].wt < pElem
      invariant forall k :: i < k < j ==> pElem <= arr[k].wt
    {
      if arr[j].wt < pElem {
        i := i + 1;
        SwapAt(arr, i, j);
      }
    }
    SwapAt(arr, i + 1, hi);
    m := i + 1;
  }

  method Qsort(arr: array<Edge>, lo: int, hi: int)
    requires 0 <= lo <= hi + 1 <= arr.Length
    modifies arr
    ensures Permuted(old(arr[..]), arr[..], lo, hi) && SortedBetween(arr[..], lo, hi)
    decreases hi - lo + 1
  {
    if lo < hi {
      var j := Partition(arr, lo, hi, hi);
      ghost var a := arr[..];
      Qsort(arr, lo, j - 1);
      ghost var b := arr[..];
      Qsort(arr, j + 1, hi);
      AroundPivot(a, b, arr[..], lo, hi, j);
    }
  }

  lemma AroundPivot(a: seq<Edge>, b: seq<Edge>, c: seq<Edge>, lo: int, hi: int, j: int)
    requires 0 <= lo <= j <= hi < |a| && Permuted(a, b, lo, j - 1) && Permuted(b, c, j + 1, hi)
    requires forall k :: lo <= k < j ==> a[k].wt < a[j].wt
    requires forall k :: j < k <= hi ==> a[j].wt <= a[k].wt
    requires SortedBetween(b, lo, j - 1) && SortedBetween(c, j + 1, hi)
    ensures SortedBetween(c, lo, hi) && Permuted(a, c, lo, hi)
  {
    var w := a[j].wt;
    PermutedBelow(a, b, lo, j - 1, w);
    forall k | j < k <= hi ensures w <= b[k].wt { assert b[k] == a[k]; }
    PermutedAbove(b, c, j + 1, hi, w);
  }

  // ----- choosing the edges -----

  /** rep tells apart exactly the components that the chosen edges make. */
  ghost predicate Labels(rep: seq<int>, F: seq<Edge>) {
    forall x, y :: 0 <= x < |rep| && 0 <= y < |rep| ==> (rep[x] == rep[y] <==> Connected(F, x, y))
  }

  /** T can be turned into a spanning forest around F without becoming heavier. */
  ghost predicate Absorbs(E: seq<Edge>, F: seq<Edge>, T: seq<Edge>) {
    exists T' :: SpanningForest(E, T') && multiset(F) <= multiset(T') && Weight(T') <= Weight(T)
  }

  ghost predicate Extendable(E: seq<Edge>, F: seq<Edge>) {
    forall T {:trigger Absorbs(E, F, T)} :: SpanningForest(E, T) ==> Absorbs(E, F, T)
  }

  lemma AddEdgeKeepsForest(F: seq<Edge>, e: Edge)
    requires Forest(F) && !Connected(F, e.u, e.v)
    ensures Forest(F + [e])
  {
    var F' := F + [e];
    var D :| Closed(D, F) && (e.u in D) != (e.v in D);
    forall i | 0 <= i < |F| ensures !Crosses(D, F[i]) { assert F[i] in F; }
    forall j | 0 <= j < |F'| ensures !Connected(Without(F', j), F'[j].u, F'[j].v) {
      if j == |F| {
        BridgeBy(F', j, D);
      } else {
        var S := Bridge(F, j);
        BridgeBy(F', j, if Crosses(S, e) then Xor(S, D) else S);
      }
    }
  }

  lemma AddEdgeConnects(F: seq<Edge>, e: Edge, x: int, y: int)
    ensures Connected(F + [e], x, y) <==>
      Connected(F, x, y) || (Connected(F, x, e.u) && Connected(F, e.v, y))
                         || (Connected(F, x, e.v) && Connected(F, e.u, y))
  {
    var F' := F + [e];
    forall S: iset<int> ensures Closed(S, F') <==> Closed(S, F) && !Crosses(S, e) {
      assert e == F'[|F|];
      forall f | f in F ensures f in F' {}
    }
    if Connected(F', x, y) && !Connected(F, x, y) {
      var S :| Closed(S, F) && (x in S) != (y in S);
      if !Connected(F, x, e.u) && !Connected(F, x, e.v) {
        Separate3(F, e, x, y);
      } else if !Connected(F, e.v, y) && !Connected(F, e.u, y) {
        Separate3(F, e, y, x);
      }
    }
  }

  /** When neither end of e can be reached from x, the new edge brings nothing to x. */
  lemma Separate3(F: seq<Edge>, e: Edge, x: int, y: int)
    requires !Connected(F, x, y) && !Connected(F, x, e.u) && !Connected(F, x, e.v)
    ensures exists S: iset<int> :: Closed(S, F) && !Crosses(S, e) && (x in S) != (y in S)
  {
    var R := iset z | Connected(F, x, z);
    assert Closed(R, F) by {
      forall f | f in F ensures !Crosses(R, f) {
        forall S: iset<int> | Closed(S, F) ensures (f.u in S) == (f.v in S) {}
      }
    }
  }

  lemma LabelsStep(rep: seq<int>, F: seq<Edge>, e: Edge, a: int, b: int)
    requires Labels(rep, F) && 0 <= e.u < |rep| && 0 <= e.v < |rep|
    requires {a, b} == {rep[e.u], rep[e.v]}
    ensures Labels(Joined(rep, a, b), F + [e])
  {
    forall x, y | 0 <= x < |rep| && 0 <= y < |rep|
      ensures Joined(rep, a, b)[x] == Joined(rep, a, b)[y] <==> Connected(F + [e], x, y)
    {
      AddEdgeConnects(F, e, x, y);
    }
  }

  lemma SafeExchange(E: seq<Edge>, F: seq<Edge>, e: Edge, T: seq<Edge>) returns (T': seq<Edge>)
    requires SpanningForest(E, T) && multiset(F) <= multiset(T) && e in E && !Connected(F, e.u, e.v)
    requires forall f :: f in E && f.wt < e.wt ==> Connected(F, f.u, f.v)
    ensures SpanningForest(E, T') && multiset(F + [e]) <= multiset(T') && Weight(T') <= Weight(T)
  {
    var D :| Closed(D, F) && (e.u in D) != (e.v in D);
    assert e !in F;
    if e in T {
      T' := T;
      assert multiset(F + [e]) == multiset(F) + multiset{e};
    } else {
      var k := Exchange(E, T, e, D);
      T' := T[k := e];
      WeightUpdate(T, k, e);
      var f := T[k];
      assert f in multiset(T) && f in multiset(E) && f !in F;
      assert multiset(T') == multiset(T) - multiset{f} + multiset{e};
    }
  }

  /** The heart of Kruskal's algorithm: the lightest edge between two components is safe. */
  lemma SafeEdge(E: seq<Edge>, F: seq<Edge>, e: Edge)
    requires Extendable(E, F) && e in E && !Connected(F, e.u, e.v)
    requires forall f :: f in E && f.wt < e.wt ==> Connected(F, f.u, f.v)
    ensures Extendable(E, F + [e])
  {
    forall T | SpanningForest(E, T) ensures Absorbs(E, F + [e], T) {
      assert Absorbs(E, F, T);
      var T1 :| SpanningForest(E, T1) && multiset(F) <= multiset(T1) && Weight(T1) <= Weight(T);
      var T2 := SafeExchange(E, F, e, T1);
    }
  }

  lemma Optimal(E: seq<Edge>, F: seq<Edge>)
    requires SpanningForest(E, F) && Extendable(E, F)
    ensures MinimumSpanningForest(E, F)
  {
    forall T | SpanningForest(E, T) ensures Weight(F) <= Weight(T) {
      assert Absorbs(E, F, T);
      var T' :| SpanningForest(E, T') && multiset(F) <= multiset(T') && Weight(T') <= Weight(T);
      ForestInsideForest(E, F, T');
      WeightPermutation(F, T');
    }
  }

  /** What holds of the chosen edges F after the first i edges of the sorted input E. */
  ghost predicate Progress(E: seq<Edge>, i: nat, F: seq<Edge>, rep: seq<int>)
    requires i <= |E|
  {
    && Labels(rep, F) && |F| + |Roots(rep)| == |rep|
    && Forest(F) && multiset(F) <= multiset(E[..i])
    && (forall k :: 0 <= k < i ==> Connected(F, E[k].u, E[k].v))
    && Extendable(E, F)
  }

  lemma Begin(E: seq<Edge>, n: nat)
    ensures Progress(E, 0, [], seq(n, i => i))
  {
    var rep := seq(n, i => i);
    forall x, y | 0 <= x < n && 0 <= y < n && x != y ensures !Connected([], x, y) {
      assert Closed(iset{x}, []);
    }
    assert Roots(rep) == Below(n);
    forall T | SpanningForest(E, T) ensures Absorbs(E, [], T) {
      assert multiset([]) <= multiset(T);
    }
  }

  /** Edge i joins two classes, so it is taken; at least one more class remains. */
  lemma Take(E: seq<Edge>, i: nat, F: seq<Edge>, rep: seq<int>, a: int, b: int)
    requires i < |E| && Progress(E, i, F, rep) && SortedBetween(E, 0, |E| - 1)
    requires 0 <= E[i].u < |rep| && 0 <= E[i].v < |rep| && a != b && {a, b} == {rep[E[i].u], rep[E[i].v]}
    requires 0 <= a < |rep| && 0 <= b < |rep| && rep[a] == a && rep[b] == b
    ensures Progress(E, i + 1, F + [E[i]], Joined(rep, a, b)) && |F| + 2 <= |rep|
  {
    var e := E[i];
    SubsetSize({a, b}, Roots(rep));
    JoinedClass(rep, a, b);
    LabelsStep(rep, F, e, a, b);
    AddEdgeKeepsForest(F, e);
    forall f | f in E && f.wt < e.wt ensures Connected(F, f.u, f.v) {
      var k :| 0 <= k < |E| && E[k] == f;
    }
    SafeEdge(E, F, e);
    assert E[..i + 1] == E[..i] + [e];
    forall k | 0 <= k <= i ensures Connected(F + [e], E[k].u, E[k].v) {
      AddEdgeConnects(F, e, E[k].u, E[k].v);
    }
  }

  lemma Skip(E: seq<Edge>, i: nat, F: seq<Edge>, rep: seq<int>)
    requires i < |E| && Progress(E, i, F, rep)
    requires 0 <= E[i].u < |rep| && 0 <= E[i].v < |rep| && rep[E[i].u] == rep[E[i].v]
    ensures Progress(E, i + 1, F, rep)
  {
    assert E[..i + 1] == E[..i] + [E[i]];
  }

  lemma SameClasses(F: seq<Edge>, E: seq<Edge>, x: int, y: int)
    requires Spans(F, E) && multiset(F) <= multiset(E)
    ensures Connected(F, x, y) <==> Connected(E, x, y)
  {
    forall S: iset<int> ensures Closed(S, F) <==> Closed(S, E) {
      if Closed(S, F) { ClosedUnderSpan(S, F, E); }
      if Closed(S, E) {
        forall f | f in F ensures !Crosses(S, f) { assert f in multiset(F) && f in multiset(E); }
      }
    }
  }

  lemma Finish(E: seq<Edge>, A: seq<Edge>, F: seq<Edge>, rep: seq<int>)
    requires Progress(E, |E|, F, rep) && multiset(A) == multiset(E) && |rep| >= 1
    requires forall x :: 0 <= x < |rep| ==> 0 <= rep[x] < |rep| && rep[rep[x]] == rep[x]
    ensures MinimumSpanningForest(A, F)
    ensures |F| == |rep| - 1 <==>
      forall x, y :: 0 <= x < |rep| && 0 <= y < |rep| ==> Connected(A, x, y)
  {
    assert E[..|E|] == E;
    Optimal(E, F);
    SameEdges(A, E);
    forall x, y ensures Connected(F, x, y) <==> Connected(A, x, y) { SameClasses(F, A, x, y); }
    var R := Roots(rep);
    assert rep[0] in R;
    if |F| == |rep| - 1 {
      SubsetSize({rep[0]}, R);
      forall x | 0 <= x < |rep| ensures rep[x] == rep[0] { assert rep[x] in R; }
    }
    if forall x, y :: 0 <= x < |rep| && 0 <= y < |rep| ==> Connected(A, x, y) {
      forall x | x in R ensures x == rep[0] { assert Connected(A, 0, x); }
      assert R == {rep[0]};
    }
  }

  /** Sorting does not change what the spanning forests of the graph are. */
  lemma SameEdges(A: seq<Edge>, E: seq<Edge>)
    requires multiset(A) == multiset(E)
    ensures forall T :: SpanningForest(A, T) <==> SpanningForest(E, T)
  {
    forall e ensures e in A <==> e in E { assert e in A <==> e in multiset(A); }
  }

  ghost predicate Ascending(F: seq<Edge>) {
    forall x, y :: 0 <= x < y < |F| ==> F[x].wt <= F[y].wt
  }

  /** The chosen edges are in order, and none of them is heavier than an edge still to come. */
  ghost predicate Rising(E: seq<Edge>, i: nat, F: seq<Edge>) {
    Ascending(F) && forall x, k :: 0 <= x < |F| && i <= k < |E| ==> F[x].wt <= E[k].wt
  }

  lemma NothingRises(E: seq<Edge>)
    ensures Rising(E, 0, [])
  {
  }

  lemma RisingAll(E: seq<Edge>, F: seq<Edge>)
    requires Rising(E, |E|, F)
    ensures Ascending(F)
  {
  }

  lemma RisingStep(E: seq<Edge>, i: nat, F: seq<Edge>)
    requires i < |E| && SortedBetween(E, 0, |E| - 1) && Rising(E, i, F)
    ensures Rising(E, i + 1, F) && Rising(E, i + 1, F + [E[i]])
  {
  }

  /** The body of the selection loop: edge i is kept when it joins two classes. */
  method Consider(dsu: Dsu, e: Edge, mst: array<Edge>, count: nat, ghost E: seq<Edge>, ghost i: nat)
    returns (count': nat)
    requires i < |E| && e == E[i] && SortedBetween(E, 0, |E| - 1) && 0 <= e.u < dsu.num && 0 <= e.v < dsu.num
    requires dsu.Balanced() && count <= mst.Length == dsu.num - 1
    requires Progress(E, i, mst[..count], dsu.rep) && Rising(E, i, mst[..count])
    modifies dsu`rep, dsu`lev, dsu.p, dsu.size, mst
    ensures dsu.Balanced() && count' <= mst.Length
    ensures Progress(E, i + 1, mst[..count'], dsu.rep) && Rising(E, i + 1, mst[..count'])
  {
    hide Progress, Shape, Sized, Joined, SortedBetween, Pow2, Class, Rising, Connected, Forest, Weight, Extendable,
      Roots;
    count' := count;
    ghost var F, rep0 := mst[..count], dsu.rep;
    RisingStep(E, i, F);
    var a, _ := dsu.Find(e.u);
    var b, _ := dsu.Find(e.v);
    if a != b {
      Take(E, i, F, rep0, a, b);
      Take(E, i, F, rep0, b, a);
      mst[count] := e;
      count' := count + 1;
      assert mst[..count'] == F + [e];
      dsu.Union(a, b);
    } else {
      Skip(E, i, F, rep0);
    }
  }

  /** The selection loop of main over the sorted edges. */
  method Select(n: nat, arr: array<Edge>) returns (mst: array<Edge>, count: nat, ghost rep: seq<int>)
    requires n >= 1 && SortedBetween(arr[..], 0, arr.Length - 1)
    requires forall i :: 0 <= i < arr.Length ==> 0 <= arr[i].u < n && 0 <= arr[i].v < n
    ensures fresh(mst) && mst.Length == n - 1 && count <= n - 1
    ensures |rep| == n && Progress(arr[..], arr.Length, mst[..count], rep) && Ascending(mst[..count])
    ensures forall x :: 0 <= x < n ==> 0 <= rep[x] < n && rep[rep[x]] == rep[x]
  {
    hide Progress, Shape, Sized, Joined, SortedBetween, Pow2, Class, Connected, Forest, Weight, Rising;
    ghost var E := arr[..];
    var dsu := new Dsu(n);
    mst := new Edge[n - 1](_ => Edge(0, 0, 0));
    count := 0;
    Begin(E, n);
    NothingRises(E);
    for i := 0 to arr.Length
      invariant fresh(dsu.p) && fresh(dsu.size) && dsu.num == n && dsu.Balanced()
      invariant count <= n - 1 && Progress(E, i, mst[..count], dsu.rep)
      invariant Rising(E, i, mst[..count])
    {
      count := Consider(dsu, arr[i], mst, count, E, i);
    }
    rep := dsu.rep;
    RisingAll(E, mst[..count]);
    RootsAreFixed(dsu.p[..], rep, dsu.lev);
  }

  /** The edges that main keeps, in mst[..count]: a minimum spanning forest of the input, from the
      lightest edge to the heaviest. They fill mst, which main then prints entirely, exactly when the
      graph is connected. */
  method Kruskal(n: nat, arr: array<Edge>) returns (mst: array<Edge>, count: nat)
    requires n >= 1
    requires forall e :: e in arr[..] ==> 0 <= e.u < n && 0 <= e.v < n
    modifies arr
    ensures fresh(mst) && mst.Length == n - 1 && count <= n - 1
    ensures multiset(arr[..]) == multiset(old(arr[..]))
    ensures MinimumSpanningForest(old(arr[..]), mst[..count]) && Ascending(mst[..count])
    ensures count == n - 1 <==>
      forall x, y :: 0 <= x < n && 0 <= y < n ==> Connected(old(arr[..]), x, y)
  {
    ghost var A := arr[..];
    Qsort(arr, 0, arr.Length - 1);
    forall i | 0 <= i < arr.Length ensures arr[i] in A {
      assert arr[i] in multiset(arr[..]);
    }
    ghost var rep;
    mst, count, rep := Select(n, arr);
    Finish(arr[..], A, mst[..count], rep);
  }
}
