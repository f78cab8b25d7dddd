/** Weighted undirected multigraphs, seen through their cuts.

    A set of vertices is closed under some edges when none of them leaves it. Two vertices are
    connected when no closed set separates them; `ConnectedIffWalk` ties this to walks along
    edges. Cuts are closed under symmetric difference, which keeps the exchange proof short. */
module Graph {

  datatype Edge = Edge(u: int, v: int, wt: int)

  ghost predicate Crosses(S: iset<int>, e: Edge) {
    (e.u in S) != (e.v in S)
  }

  ghost predicate Closed(S: iset<int>, T: seq<Edge>) {
    forall e :: e in T ==> !Crosses(S, e)
  }

  ghost predicate Connected(T: seq<Edge>, x: int, y: int) {
    forall S: iset<int> :: Closed(S, T) ==> ((x in S) == (y in S))
  }

  function Without(T: seq<Edge>, j: nat): seq<Edge>
    requires j < |T|
  {
    T[..j] + T[j + 1..]
  }

  /** No edge joins two vertices that the other edges already connect. */
  ghost predicate Forest(T: seq<Edge>) {
    forall j :: 0 <= j < |T| ==> !Connected(Without(T, j), T[j].u, T[j].v)
  }

  ghost predicate Spans(T: seq<Edge>, E: seq<Edge>) {
    forall e :: e in E ==> Connected(T, e.u, e.v)
  }

  /** A maximal forest of the graph: a spanning tree of each of its components. */
  ghost predicate SpanningForest(E: seq<Edge>, T: seq<Edge>) {
    multiset(T) <= multiset(E) && Forest(T) && Spans(T, E)
  }

  function Weight(T: seq<Edge>): int {
    if T == [] then 0 else T[0].wt + Weight(T[1..])
  }

  ghost predicate MinimumSpanningForest(E: seq<Edge>, F: seq<Edge>) {
    SpanningForest(E, F) && forall T :: SpanningForest(E, T) ==> Weight(F) <= Weight(T)
  }

  // ----- connectivity by walks -----

  ghost predicate Adjacent(T: seq<Edge>, x: int, y: int) {
    exists e :: e in T && ((e.u == x && e.v == y) || (e.u == y && e.v == x))
  }

  ghost predicate Walk(T: seq<Edge>, w: seq<int>, x: int, y: int) {
    |w| > 0 && w[0] == x && w[|w| - 1] == y &&
    forall i :: 0 <= i < |w| - 1 ==> Adjacent(T, w[i], w[i + 1])
  }

  lemma {:induction false} WalkStaysInside(T: seq<Edge>, w: seq<int>, x: int, y: int, S: iset<int>)
    requires Walk(T, w, x, y) && Closed(S, T)
    ensures (x in S) == (y in S)
    decreases |w|
  {
    if |w| > 1 {
      var z := w[|w| - 2];
      assert Walk(T, w[..|w| - 1], x, z);
      WalkStaysInside(T, w[..|w| - 1], x, z, S);
      assert Adjacent(T, w[|w| - 2], w[|w| - 2 + 1]);
      var e :| e in T && ((e.u == z && e.v == y) || (e.u == y && e.v == z));
      assert !Crosses(S, e);
    }
  }

  ghost predicate Reaches(T: seq<Edge>, x: int, y: int) {
    exists w :: Walk(T, w, x, y)
  }

  lemma ConnectedIffWalk(T: seq<Edge>, x: int, y: int)
    ensures Connected(T, x, y) <==> Reaches(T, x, y)
  {
    forall w, S: iset<int> | Walk(T, w, x, y) && Closed(S, T) ensures (x in S) == (y in S) {
      WalkStaysInside(T, w, x, y, S);
    }
    if Connected(T, x, y) {
      var R := iset z | Reaches(T, x, z);
      assert Walk(T, [x], x, x);
      forall e | e in T ensures !Crosses(R, e) {
        if e.u in R { ExtendWalk(T, e, x, e.u, e.v); }
        if e.v in R { ExtendWalk(T, e, x, e.v, e.u); }
      }
      assert Closed(R, T);
    }
  }

  lemma ExtendWalk(T: seq<Edge>, e: Edge, x: int, y: int, z: int)
    requires e in T && ((e.u == y && e.v == z) || (e.u == z && e.v == y))
    requires Reaches(T, x, y)
    ensures Reaches(T, x, z)
  {
    var w :| Walk(T, w, x, y);
    var w' := w + [z];
    forall i | 0 <= i < |w'| - 1 ensures Adjacent(T, w'[i], w'[i + 1]) {
      if i < |w| - 1 { assert Adjacent(T, w[i], w[i + 1]); }
    }
    assert Walk(T, w', x, z);
  }

  // ----- cuts -----

  function Xor(S: iset<int>, D: iset<int>): iset<int> {
    (S - D) + (D - S)
  }

  /** The cut that shows an edge of a forest to be a bridge. */
  lemma Bridge(T: seq<Edge>, j: nat) returns (S: iset<int>)
    requires j < |T| && !Connected(Without(T, j), T[j].u, T[j].v)
    ensures Closed(S, Without(T, j)) && Crosses(S, T[j])
    ensures forall i :: 0 <= i < |T| && i != j ==> !Crosses(S, T[i])
  {
    S :| Closed(S, Without(T, j)) && (T[j].u in S) != (T[j].v in S);
    forall i | 0 <= i < |T| && i != j ensures !Crosses(S, T[i]) {
      assert T[i] == Without(T, j)[if i < j then i else i - 1];
    }
  }

  lemma BridgeBy(T: seq<Edge>, j: nat, S: iset<int>)
    requires j < |T| && Crosses(S, T[j])
    requires forall i :: 0 <= i < |T| && i != j ==> !Crosses(S, T[i])
    ensures !Connected(Without(T, j), T[j].u, T[j].v)
  {
    forall e | e in Without(T, j) ensures !Crosses(S, e) {
      var i :| 0 <= i < |Without(T, j)| && Without(T, j)[i] == e;
      assert e == T[if i < j then i else i + 1];
    }
    assert Closed(S, Without(T, j));
  }

  lemma ClosedUnderSpan(S: iset<int>, T: seq<Edge>, E: seq<Edge>)
    requires Spans(T, E) && Closed(S, T)
    ensures Closed(S, E)
  {
    forall e | e in E ensures !Crosses(S, e) { assert Connected(T, e.u, e.v); }
  }

  // ----- the exchange step -----

  /** S leaves alone the first k edges of T, and every edge that does not cross S0. */
  ghost predicate ClosedPart(S: iset<int>, T: seq<Edge>, S0: iset<int>, k: nat) {
    forall i :: 0 <= i < |T| && (i < k || !Crosses(S0, T[i])) ==> !Crosses(S, T[i])
  }

  /** Among the edges of T that cross S0, the one whose return reconnects the ends of e. */
  lemma CriticalEdge(T: seq<Edge>, e: Edge, S0: iset<int>) returns (k: nat, D: iset<int>)
    requires Crosses(S0, e) && Connected(T, e.u, e.v)
    ensures k < |T| && Crosses(S0, T[k])
    ensures ClosedPart(D, T, S0, k) && Crosses(D, e) && Crosses(D, T[k])
    ensures forall S: iset<int> :: ClosedPart(S, T, S0, k + 1) ==> !Crosses(S, e)
  {
    k, D := 0, S0;
    while exists S :: ClosedPart(S, T, S0, k + 1) && Crosses(S, e)
      invariant k <= |T| && ClosedPart(D, T, S0, k) && Crosses(D, e)
      decreases |T| - k
    {
      D :| ClosedPart(D, T, S0, k + 1) && Crosses(D, e);
      k := k + 1;
    }
    if !Crosses(D, T[k]) { assert ClosedPart(D, T, S0, k + 1); }
  }

  lemma ExchangeSpans(T: seq<Edge>, e: Edge, S0: iset<int>, k: nat, D: iset<int>, S: iset<int>)
    requires k < |T| && Crosses(S0, T[k])
    requires ClosedPart(D, T, S0, k) && Crosses(D, e) && Crosses(D, T[k])
    requires forall S: iset<int> :: ClosedPart(S, T, S0, k + 1) ==> !Crosses(S, e)
    requires Closed(S, T[k := e])
    ensures Closed(S, T)
  {
    var T' := T[k := e];
    assert T'[k] == e && !Crosses(S, e);
    forall i | 0 <= i < |T| && i != k ensures !Crosses(S, T[i]) { assert T'[i] == T[i]; }
    if Crosses(S, T[k]) {
      assert ClosedPart(Xor(D, S), T, S0, k + 1);
      assert Crosses(Xor(D, S), e);
      assert false;
    }
  }

  lemma ExchangeForest(T: seq<Edge>, e: Edge, k: nat)
    requires k < |T| && Forest(T)
    requires forall S: iset<int> :: Closed(S, T[k := e]) ==> Closed(S, T)
    ensures Forest(T[k := e])
  {
    var T' := T[k := e];
    var Sk := Bridge(T, k);
    assert Crosses(Sk, e) by {
      assert T[k] in T && !Closed(Sk, T);
      assert !Closed(Sk, T');
    }
    forall j | 0 <= j < |T'| ensures !Connected(Without(T', j), T'[j].u, T'[j].v) {
      if j == k {
        BridgeBy(T', k, Sk);
      } else {
        var Sj := Bridge(T, j);
        BridgeBy(T', j, if Crosses(Sj, e) then Xor(Sj, Sk) else Sj);
      }
    }
  }

  /** Any spanning forest takes an edge e that crosses S0 in exchange for one of its own. */
  lemma Exchange(E: seq<Edge>, T: seq<Edge>, e: Edge, S0: iset<int>) returns (k: nat)
    requires SpanningForest(E, T) && e in E && e !in T && Crosses(S0, e)
    ensures k < |T| && Crosses(S0, T[k]) && SpanningForest(E, T[k := e])
  {
    var D;
    k, D := CriticalEdge(T, e, S0);
    var T' := T[k := e];
    forall S: iset<int> | Closed(S, T') ensures Closed(S, T) {
      ExchangeSpans(T, e, S0, k, D, S);
    }
    ExchangeForest(T, e, k);
    forall x | x in E ensures Connected(T', x.u, x.v) {
      forall S: iset<int> | Closed(S, T') ensures !Crosses(S, x) { ClosedUnderSpan(S, T, E); }
    }
    assert multiset(T') == multiset(T) - multiset{T[k]} + multiset{e};
    assert multiset(E)[e] > 0;
  }

  // ----- weights -----

  lemma {:induction false} WeightSplit(T: seq<Edge>, j: nat)
    requires j < |T|
    ensures Weight(T) == T[j].wt + Weight(Without(T, j))
  {
    if j == 0 {
      assert Without(T, 0) == T[1..];
    } else {
      WeightSplit(T[1..], j - 1);
      assert Without(T, j)[1..] == Without(T[1..], j - 1);
    }
  }

  lemma WeightUpdate(T: seq<Edge>, k: nat, e: Edge)
    requires k < |T|
    ensures Weight(T[k := e]) == Weight(T) - T[k].wt + e.wt
  {
    WeightSplit(T, k);
    WeightSplit(T[k := e], k);
    assert Without(T[k := e], k) == Without(T, k);
  }

  lemma {:induction false} WeightPermutation(A: seq<Edge>, B: seq<Edge>)
    requires multiset(A) == multiset(B)
    ensures Weight(A) == Weight(B)
    decreases |A|
  {
    if A == [] {
      assert |multiset(A)| == |A| && |multiset(B)| == |B|;
    } else {
      assert A[0] in multiset(B);
      var j :| 0 <= j < |B| && B[j] == A[0];
      assert A == [A[0]] + A[1..];
      MultisetWithout(B, j);
      WeightPermutation(A[1..], Without(B, j));
      WeightSplit(B, j);
    }
  }

  lemma NoRoom(E: seq<Edge>, F: seq<Edge>, T: seq<Edge>, j: nat)
    requires Spans(F, E) && Forest(T) && j < |T| && T[j] in E
    ensures exists e :: e in F && e !in Without(T, j)
  {
    var S := Bridge(T, j);
    if Closed(S, F) { ClosedUnderSpan(S, F, E); }
    var e :| e in F && Crosses(S, e);
    assert e !in Without(T, j);
  }

  /** A spanning forest has no room for another forest around it. */
  lemma ForestInsideForest(E: seq<Edge>, F: seq<Edge>, T: seq<Edge>)
    requires SpanningForest(E, F) && SpanningForest(E, T) && multiset(F) <= multiset(T)
    ensures multiset(F) == multiset(T)
  {
    var f, t := multiset(F), multiset(T);
    if x :| f[x] < t[x] {
      assert x in t && x in multiset(E);
      var j :| 0 <= j < |T| && T[j] == x;
      NoRoom(E, F, T, j);
      var e :| e in F && e !in Without(T, j);
      MultisetWithout(T, j);
      assert f[e] > 0 && multiset(Without(T, j))[e] == 0;
    }
  }

  lemma MultisetWithout(T: seq<Edge>, j: nat)
    requires j < |T|
    ensures multiset(Without(T, j)) == multiset(T) - multiset{T[j]}
  {
    assert T == T[..j] + ([T[j]] + T[j + 1..]);
  }
}
