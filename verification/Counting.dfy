/** Sizes of finite sets of numbers, and sums that measure progress. */
module Counting {

  /** The numbers below n: the threads, vertices or jobs of the models. */
  function Below(n: nat): (s: set<nat>)
    ensures forall i: nat :: i in s <==> i < n
    ensures |s| == n
  {
    if n == 0 then {} else Below(n - 1) + {n - 1}
  }

  lemma {:induction false} SubsetSize<T>(a: set<T>, b: set<T>)
    requires a <= b
    ensures |a| <= |b|
    ensures |a| == |b| ==> a == b
  {
    if a != {} {
      var x :| x in a;
      SubsetSize(a - {x}, b - {x});
    }
  }

  ghost predicate Distinct<T>(a: seq<T>) {
    forall i, j :: 0 <= i < j < |a| ==> a[i] != a[j]
  }

  function Elements<T>(a: seq<T>): set<T> {
    set x | x in a
  }

  lemma {:induction false} DistinctSize<T>(a: seq<T>)
    requires Distinct(a)
    ensures |Elements(a)| == |a|
  {
    if a != [] {
      DistinctSize(a[1..]);
      assert Elements(a) == Elements(a[1..]) + {a[0]};
    }
  }

  lemma DistinctBelow(n: nat, a: seq<nat>)
    requires Distinct(a) && forall j :: j in a ==> j < n
    ensures |a| <= n
  {
    DistinctSize(a);
    SubsetSize(Elements(a), Below(n));
  }

  // ----- measures -----

  /** A product that the solver does not look into. */
  function Times(a: int, b: int): int {
    a * b
  }

  lemma TimesLess(a: int, b: int)
    ensures Times(a - 1, b) == Times(a, b) - b
    ensures a >= 0 && b >= 0 ==> Times(a, b) >= 0
  {
  }

  lemma TimesGrows(a: int, b: int, d: int)
    requires a <= b && d >= 0
    ensures Times(a, d) <= Times(b, d)
  {
  }

  function Total(w: seq<int>): int {
    if w == [] then 0 else Total(w[..|w| - 1]) + w[|w| - 1]
  }

  lemma {:induction false} TotalOrdered(w: seq<int>, w': seq<int>)
    requires |w| == |w'| && forall i :: 0 <= i < |w| ==> 0 <= w'[i] <= w[i]
    ensures 0 <= Total(w') <= Total(w)
  {
    if w != [] { TotalOrdered(w[..|w| - 1], w'[..|w| - 1]); }
  }

  lemma {:induction false} TotalFalls(w: seq<int>, w': seq<int>, t: nat)
    requires |w| == |w'| && t < |w| && forall i :: 0 <= i < |w| ==> 0 <= w'[i] <= w[i]
    requires w'[t] < w[t]
    ensures 0 <= Total(w') < Total(w)
  {
    var k := |w| - 1;
    if t == k { TotalOrdered(w[..k], w'[..k]); } else { TotalFalls(w[..k], w'[..k], t); }
  }
}
