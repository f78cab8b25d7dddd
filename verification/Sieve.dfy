/** The segmented odd-only sieve: every thread sieves its own slices of the numbers below a bound,
    and all threads together list every prime below the bound once. */
module Sieve {

  const SLICE: nat := 131072

  // ----- primes and the numbers that cross others out -----

  ghost predicate Divides(d: nat, n: nat)
    requires d > 0
  {
    n % d == 0
  }

  ghost predicate Prime(n: int) {
    n >= 2 && forall d: nat :: 2 <= d < n ==> !Divides(d, n)
  }

  predicate Odd(n: int) {
    n % 2 == 1
  }

  /** The divisors left out because a smaller one already crosses out their multiples. */
  predicate Skipped(i: nat) {
    || (i > 3 * 3 && i % 3 == 0)
    || (i >= 5 * 5 && i % 5 == 0)
    || (i >= 7 * 7 && i % 7 == 0)
    || (i >= 11 * 11 && i % 11 == 0)
  }

  ghost predicate Crosses(d: nat, n: nat) {
    d >= 3 && Odd(d) && !Skipped(d) && d * d <= n && Divides(d, n)
  }

  /** Crossed out by a divisor below i. */
  ghost predicate CrossedBelow(i: nat, n: nat) {
    exists d: nat :: d < i && Crosses(d, n)
  }

  /** A divisor other than 1 and n. */
  ghost predicate Proper(d: nat, n: nat) {
    2 <= d < n && Divides(d, n)
  }

  function Min(a: nat, b: nat): nat {
    if a < b then a else b
  }

  function Max(a: nat, b: nat): nat {
    if a < b then b else a
  }

  lemma Grows(a: nat, b: nat, c: nat)
    requires b <= c
    ensures a * b <= a * c
  {
  }

  lemma {:induction false} Multiple(a: nat, q: nat)
    requires a > 0
    ensures Divides(a, a * q)
  {
    Remainder(a * q, a, q, 0);
  }

  lemma {:induction false} DividesTrans(a: nat, b: nat, c: nat)
    requires a > 0 && b > 0 && Divides(a, b) && Divides(b, c)
    ensures Divides(a, c)
  {
    var p, q := b / a, c / b;
    assert b == a * p && c == b * q;
    assert (a * p) * q == a * (p * q);
    Multiple(a, p * q);
  }

  /** Every composite number has a prime divisor at most its square root. */
  lemma {:induction false} SmallPrimeDivisor(n: nat, d: nat) returns (p: nat)
    requires Proper(d, n)
    ensures Prime(p) && p * p <= n && Divides(p, n)
    decreases d
  {
    if c: nat :| Proper(c, n) && c < d {
      p := SmallPrimeDivisor(n, c);
    } else {
      p := d;
      forall c: nat | 2 <= c < p ensures !Divides(c, p) {
        if Divides(c, p) {
          DividesTrans(c, p, n);
          assert Proper(c, n);
        }
      }
      LeastDivisorIsSmall(n, p);
    }
  }

  lemma {:induction false} LeastDivisorIsSmall(n: nat, p: nat)
    requires Proper(p, n) && forall c: nat :: c < p ==> !Proper(c, n)
    ensures p * p <= n
  {
    var q := n / p;
    assert n == p * q;
    if q < p {
      assert q >= 2 by { Grows(p, Min(q, 1), 1); }
      Multiple(q, p);
      assert Proper(q, n);
      assert false;
    }
    Grows(p, p, q);
  }

  lemma {:induction false} OddPrimeDivisor(p: nat, n: nat)
    requires Prime(p) && Divides(p, n) && Odd(n)
    ensures p >= 3 && Odd(p)
  {
    assert p > 2 ==> !Divides(2, p);
  }

  /** What is left uncrossed after the divisors up to the square root of the slice's end are the
      odd primes: leaving out multiples of 3, 5, 7 and 11 and starting at the square lose
      nothing. */
  lemma {:induction false} UncrossedIsPrime(n: nat, i: nat)
    requires n >= 3 && Odd(n) && i * i > n
    ensures !CrossedBelow(i, n) <==> Prime(n)
  {
    hide Skipped, Divides, Odd;
    if CrossedBelow(i, n) {
      var d: nat :| d < i && Crosses(d, n);
      assert d < n by {
        Grows(d, 3, d);
      }
      assert Divides(d, n);
    }
    if !Prime(n) {
      var d: nat :| 2 <= d < n && Divides(d, n);
      var p := SmallPrimeDivisor(n, d);
      PrimeIsNotSkipped(p);
      OddPrimeDivisor(p, n);
      assert p >= i ==> p * p >= i * i by {
        if p >= i {
          Grows(p, i, p);
          Grows(i, i, p);
        }
      }
      assert Crosses(p, n);
    }
  }

  lemma PrimeIsNotSkipped(p: nat)
    requires Prime(p)
    ensures !Skipped(p)
  {
    assert p > 3 ==> !Divides(3, p);
    assert p > 5 ==> !Divides(5, p);
    assert p > 7 ==> !Divides(7, p);
    assert p > 11 ==> !Divides(11, p);
  }

  // ----- multiples of one divisor in a slice -----

  lemma Ordered(i: nat, q: int, p: int)
    ensures q <= p ==> i * q <= i * p
  {
  }

  /** Consecutive odd multiples are two divisors apart. */
  lemma {:induction false} NoneBetween(i: nat, j: nat, n: nat)
    requires i > 0 && Odd(i) && Odd(j) && Odd(n) && Divides(i, j) && Divides(i, n) && j < n
    ensures n >= j + 2 * i
  {
    var p, q := j / i, n / i;
    assert j == i * p && n == i * q;
    MultiplesApart(i, p, q, j, n);
  }

  lemma MultiplesApart(i: nat, p: nat, q: nat, j: int, n: int)
    requires j == i * p && n == i * q && Odd(i) && Odd(j) && Odd(n) && j < n
    ensures n >= j + 2 * i
  {
    Ordered(i, q, p);
    Ordered(i, p + 2, q);
    OneMore(i, p);
    OneMore(i, p + 1);
    assert q == p + 1 ==> n == j + i;
  }

  lemma OneMore(i: nat, p: nat)
    ensures i * (p + 1) == i * p + i
  {
  }

  /** The first multiple of i not below from. */
  function RoundUp(from: nat, i: nat): nat
    requires i > 0
  {
    (from + i - 1) / i * i
  }

  /** The first odd multiple of i in the slice from which crossing out starts. */
  function FirstMultiple(from: nat, i: nat): nat
    requires i > 0
  {
    var m := Max(RoundUp(from, i), i * i);
    if m % 2 == 0 then m + i else m
  }

  lemma {:induction false} RoundUpIsFirst(from: nat, i: nat, n: nat)
    requires i > 0
    ensures Divides(i, RoundUp(from, i)) && from <= RoundUp(from, i)
    ensures Divides(i, n) && n >= from ==> n >= RoundUp(from, i)
  {
    var c := (from + i - 1) / i;
    assert from + i - 1 == i * c + (from + i - 1) % i;
    Multiple(i, c);
    assert c * i == i * c;
    if Divides(i, n) && n >= from {
      var q := n / i;
      assert n == i * q;
      assert i * (q + 1) == n + i;
      if q < c { Grows(i, q + 1, c); } else { Grows(i, c, q); }
    }
  }

  lemma OddSquare(i: nat)
    requires Odd(i)
    ensures Odd(i * i)
  {
    var h := i / 2;
    assert i == 2 * h + 1;
    assert i * i == 2 * (2 * h * h + 2 * h) + 1;
  }

  /** A step of i goes from one multiple to the next. */
  lemma {:induction false} StepsAreMultiples(i: nat, m: nat, n: nat)
    requires i > 0 && Divides(i, m)
    ensures Divides(i, m + i)
    ensures Divides(i, n) && n > m ==> n >= m + i
  {
    var p := m / i;
    assert m == i * p;
    assert i * (p + 1) == m + i;
    Multiple(i, p + 1);
    if Divides(i, n) && n > m {
      var q := n / i;
      assert n == i * q;
      assert q > p by {
        if q <= p { Grows(i, q, p); }
      }
      Grows(i, p + 1, q);
    }
  }

  lemma {:induction false} FirstIsFirst(from: nat, i: nat, n: nat)
    requires Odd(i)
    ensures Odd(FirstMultiple(from, i)) && Divides(i, FirstMultiple(from, i))
    ensures FirstMultiple(from, i) >= from && FirstMultiple(from, i) >= i * i
    ensures Odd(n) && Divides(i, n) && n >= from && n >= i * i ==> n >= FirstMultiple(from, i)
  {
    RoundUpIsFirst(from, i, n);
    Multiple(i, i);
    OddSquare(i);
    FirstOddFrom(i, Max(RoundUp(from, i), i * i), n);
    hide RoundUp, Divides, Odd;
  }

  lemma {:induction false} FirstOddFrom(i: nat, m: nat, n: nat)
    requires Odd(i) && Divides(i, m)
    ensures var f := if m % 2 == 0 then m + i else m;
      Odd(f) && Divides(i, f) && (Odd(n) && Divides(i, n) && n >= m ==> n >= f)
  {
    StepsAreMultiples(i, m, n);
    hide Divides;
    assert (m + i) % 2 == (m % 2 + 1) % 2;
  }

  // ----- sieving one slice -----

  function Number(from: nat, k: nat): nat {
    2 * k + from + 1
  }

  /** Entry k stands for the odd number 2 * k + from + 1. */
  ghost predicate Sieved(a: seq<bool>, from: nat, i: nat) {
    forall k :: 0 <= k < |a| ==> (a[k] <==> !CrossedBelow(i, Number(from, k)))
  }

  /** Crossed out as a multiple of i on the way to j. */
  ghost predicate Cut(i: nat, n: nat, j: nat)
    requires i > 0
  {
    Divides(i, n) && i * i <= n < j
  }

  ghost predicate PartlyCrossed(a: seq<bool>, b: seq<bool>, from: nat, i: nat, j: nat)
    requires i > 0
  {
    && |a| == |b|
    && forall k :: 0 <= k < |a| ==> (b[k] <==> a[k] && !Cut(i, Number(from, k), j))
  }

  lemma {:induction false} StartCrossing(a: seq<bool>, from: nat, i: nat)
    requires i > 0 && Odd(i) && from % 2 == 0
    ensures PartlyCrossed(a, a, from, i, FirstMultiple(from, i))
  {
    hide Divides, FirstMultiple;
    forall k | 0 <= k < |a| ensures !Cut(i, Number(from, k), FirstMultiple(from, i)) {
      FirstIsFirst(from, i, Number(from, k));
    }
  }

  lemma {:induction false} NextCrossing(a: seq<bool>, b: seq<bool>, from: nat, i: nat, j: nat)
    requires i > 0 && Odd(i) && Odd(j) && Divides(i, j) && from % 2 == 0 && from <= j && i * i <= j
    requires (j - from) / 2 < |b| && PartlyCrossed(a, b, from, i, j)
    ensures PartlyCrossed(a, b[(j - from) / 2 := false], from, i, j + 2 * i)
    ensures Odd(j + 2 * i) && Divides(i, j + 2 * i)
  {
    NextCut(i, j, j);
    var at := (j - from) / 2;
    Index(from, j, at);
    hide Divides, Cut, Odd, Number;
    forall k | 0 <= k < |b| ensures b[at := false][k] <==> a[k] && !Cut(i, Number(from, k), j + 2 * i) {
      Index(from, j, k);
      NextCut(i, j, Number(from, k));
    }
  }

  lemma Index(from: nat, j: nat, k: nat)
    requires from % 2 == 0 && from <= j && Odd(j)
    ensures Odd(Number(from, k)) && (Number(from, k) == j <==> k == (j - from) / 2)
  {
  }

  lemma InSlice(from: nat, j: nat, to: nat)
    requires from % 2 == 0 && from <= j < to && Odd(j)
    ensures (j - from) / 2 < (to - from) / 2
  {
  }

  lemma {:induction false} NextCut(i: nat, j: nat, n: nat)
    requires i > 0 && Odd(i) && Odd(j) && Odd(n) && Divides(i, j) && i * i <= j
    ensures Cut(i, n, j + 2 * i) <==> Cut(i, n, j) || n == j
    ensures Odd(j + 2 * i) && Divides(i, j + 2 * i)
  {
    StepsAreMultiples(i, j, 0);
    StepsAreMultiples(i, j + i, 0);
    hide Divides;
    if Divides(i, n) && j < n { NoneBetween(i, j, n); }
  }

  method FirstOddMultiple(from: nat, i: nat) returns (firstMultiple: nat)
    requires i > 0
    ensures firstMultiple == FirstMultiple(from, i)
  {
    firstMultiple := (from + i - 1) / i * i;
    if firstMultiple < i * i {
      firstMultiple := i * i;
    }
    if firstMultiple % 2 == 0 {
      firstMultiple := firstMultiple + i;
    }
  }

  /** Crosses out the multiples of i from its square on. */
  method CrossOut(isNumPrime: array<bool>, from: nat, to: nat, i: nat)
    requires from % 2 == 0 && from <= to && isNumPrime.Length == (to - from) / 2 && i >= 3 && Odd(i)
    modifies isNumPrime
    ensures PartlyCrossed(old(isNumPrime[..]), isNumPrime[..], from, i, to)
  {
    var firstMultiple := FirstOddMultiple(from, i);
    hide FirstMultiple, RoundUp, Divides, PartlyCrossed;
    FirstIsFirst(from, i, 0);
    StartCrossing(isNumPrime[..], from, i);
    var j := firstMultiple;
    while j < to
      invariant Odd(j) && Divides(i, j) && j >= from && j >= i * i
      invariant PartlyCrossed(old(isNumPrime[..]), isNumPrime[..], from, i, j)
    {
      var at := (j - from) / 2;
      InSlice(from, j, to);
      ghost var before := isNumPrime[..];
      NextCrossing(old(isNumPrime[..]), before, from, i, j);
      isNumPrime[at] := false;
      assert isNumPrime[..] == before[at := false];
      j := j + 2 * i;
    }
    EndCrossing(old(isNumPrime[..]), isNumPrime[..], from, to, i, j);
  }

  lemma EndCrossing(a: seq<bool>, b: seq<bool>, from: nat, to: nat, i: nat, j: nat)
    requires i > 0 && from % 2 == 0 && from <= to <= j && |b| == (to - from) / 2 && PartlyCrossed(a, b, from, i, j)
    ensures PartlyCrossed(a, b, from, i, to)
  {
    hide Divides;
    assert forall k :: 0 <= k < |b| ==> (Cut(i, Number(from, k), to) <==> Cut(i, Number(from, k), j));
  }

  /** Sieves one slice: afterwards an entry is set exactly when its number is prime. */
  method SieveSlice(from: nat, to: nat) returns (isNumPrime: array<bool>)
    requires 2 <= from < to && from % 2 == 0
    ensures fresh(isNumPrime) && isNumPrime.Length == (to - from) / 2
    ensures forall k :: 0 <= k < isNumPrime.Length ==> (isNumPrime[k] <==> Prime(Number(from, k)))
  {
    var memory := (to - from) / 2;
    isNumPrime := new bool[memory](_ => true);
    var i := 3;
    hide Divides, PartlyCrossed, Skipped;
    assert Sieved(isNumPrime[..], from, 3);
    hide Sieved;
    while i * i < to
      invariant i >= 3 && Odd(i) && Sieved(isNumPrime[..], from, i)
      invariant fresh(isNumPrime) && isNumPrime.Length == memory
    {
      ghost var before := isNumPrime[..];
      if !Skipped(i) {
        CrossOut(isNumPrime, from, to, i);
      }
      NextSieved(before, isNumPrime[..], from, to, i);
      i := i + 2;
    }
    SievedIsPrime(isNumPrime[..], from, to, i);
    assert forall k :: 0 <= k < memory ==> isNumPrime[k] == isNumPrime[..][k];
  }

  lemma SievedIsPrime(a: seq<bool>, from: nat, to: nat, i: nat)
    requires 2 <= from < to <= i * i && from % 2 == 0 && |a| == (to - from) / 2 && Sieved(a, from, i)
    ensures forall k :: 0 <= k < |a| ==> (a[k] <==> Prime(Number(from, k)))
  {
    hide Divides, Prime, CrossedBelow;
    forall k | 0 <= k < |a| ensures a[k] <==> Prime(Number(from, k)) {
      UncrossedIsPrime(Number(from, k), i);
    }
  }

  lemma {:induction false} NextDivisor(n: nat, i: nat)
    requires i >= 3 && Odd(i)
    ensures CrossedBelow(i + 2, n) <==> CrossedBelow(i, n) || (!Skipped(i) && Divides(i, n) && i * i <= n)
  {
    hide Divides, Skipped;
    if CrossedBelow(i + 2, n) {
      var d: nat :| d < i + 2 && Crosses(d, n);
      assert d != i + 1;
    }
    if Crosses(i, n) { assert CrossedBelow(i + 2, n); }
  }

  /** One more divisor has been dealt with, or left out. */
  lemma {:induction false} NextSieved(a: seq<bool>, b: seq<bool>, from: nat, to: nat, i: nat)
    requires i >= 3 && Odd(i) && from % 2 == 0 && from <= to && |a| == |b| == (to - from) / 2
    requires Sieved(a, from, i)
    requires if Skipped(i) then a == b else PartlyCrossed(a, b, from, i, to)
    ensures Sieved(b, from, i + 2)
  {
    hide Divides, Skipped, CrossedBelow;
    forall k | 0 <= k < |b| ensures b[k] <==> !CrossedBelow(i + 2, Number(from, k)) {
      NextDivisor(Number(from, k), i);
    }
  }

  // ----- the threads -----

  /** What the loop over a sieved slice appends. */
  function Collected(a: seq<bool>, from: nat, i: nat): seq<int>
    requires i <= |a|
  {
    if i == 0 then []
    else if a[i - 1] then Collected(a, from, i - 1) + [Number(from, i - 1)]
    else Collected(a, from, i - 1)
  }

  ghost function Once(b: bool): nat {
    if b then 1 else 0
  }

  lemma {:induction false} CollectedOnce(a: seq<bool>, from: nat, i: nat, n: int)
    requires i <= |a| && from % 2 == 0 && forall k :: 0 <= k < |a| ==> (a[k] <==> Prime(Number(from, k)))
    ensures multiset(Collected(a, from, i))[n] == Once(Prime(n) && Odd(n) && from <= n < Number(from, i) - 1)
  {
    hide Prime;
    if i > 0 { CollectedOnce(a, from, i - 1, n); }
  }

  /** What one slice adds to the output: its primes, once each. */
  lemma {:induction false} SliceOnce(a: seq<bool>, from: nat, to: nat, n: int)
    requires from % 2 == 0 && 2 <= from < to && |a| == (to - from) / 2
    requires forall k :: 0 <= k < |a| ==> (a[k] <==> Prime(Number(from, k)))
    ensures multiset(Collected(a, from, |a|) + if from <= 2 then [2] else [])[n] == Once(Prime(n) && from <= n < to)
  {
    CollectedOnce(a, from, |a|, n);
    assert Prime(n) && n > 2 ==> !Divides(2, n);
    assert Prime(2);
    hide Prime;
  }

  /** The thread whose slices hold n. */
  function Owner(n: nat, threads: nat): nat
    requires n >= 2 && threads > 0
  {
    (n - 2) / SLICE % threads
  }

  /** Thread which holds n, and n lies below the bound. */
  ghost predicate Holds(which: nat, n: int, bound: int, threads: nat)
    requires threads > 0
  {
    Prime(n) && n < bound && Owner(n, threads) == which
  }

  /** The output lists once each prime of the thread below the bound, and nothing else. */
  ghost predicate Lists(primes: seq<int>, which: nat, bound: int, threads: nat)
    requires threads > 0
  {
    forall n: int :: multiset(primes)[n] == Once(Holds(which, n, bound, threads))
  }

  function SliceStart(which: nat, round: nat, threads: nat): nat {
    2 + (which + round * threads) * SLICE
  }

  /** A thread moves on by the slices of all threads. */
  lemma NextStart(which: nat, round: nat, threads: nat)
    requires which < threads
    ensures SliceStart(which, round + 1, threads) == SliceStart(which, round, threads) + threads * SLICE
    ensures SliceStart(which, round, threads) >= 2 && SliceStart(which, round, threads) % 2 == 0
    ensures which % threads == which && SliceStart(which, 0, threads) == 2 + which * SLICE && threads * SLICE > 0
  {
    assert (round + 1) * threads == round * threads + threads && 0 * threads == 0;
    Remainder(which, threads, 0, which);
  }

  /** From the start of one of its slices to the start of its next one, a thread holds exactly the
      first SLICE numbers; before its first slice it holds none. */
  lemma {:induction false} HoldsOneSlice(which: nat, round: nat, threads: nat, n: nat)
    requires which < threads
    ensures SliceStart(which, round, threads) <= n < SliceStart(which, round + 1, threads) ==>
              (Owner(n, threads) == which <==> n < SliceStart(which, round, threads) + SLICE)
    ensures 2 <= n < SliceStart(which, 0, threads) ==> Owner(n, threads) != which
    ensures SliceStart(which, round + 1, threads) == SliceStart(which, round, threads) + threads * SLICE
    ensures SliceStart(which, round, threads) >= 2 && SliceStart(which, round, threads) % 2 == 0
  {
    NextStart(which, round, threads);
    if 2 <= n < SliceStart(which, 0, threads) { EarlierOwner(which, threads, n); }
    if SliceStart(which, round, threads) <= n < SliceStart(which, round + 1, threads) {
      LaterOwner(which, round, threads, n, which + round * threads);
    }
    hide SliceStart, Owner;
  }

  lemma EarlierOwner(which: nat, threads: nat, n: nat)
    requires which < threads && 2 <= n < 2 + which * SLICE
    ensures Owner(n, threads) != which
  {
    SliceOf(n, 0);
    Remainder((n - 2) / SLICE, threads, 0, (n - 2) / SLICE);
  }

  lemma LaterOwner(which: nat, round: nat, threads: nat, n: nat, m: nat)
    requires which < threads && m == which + round * threads && 2 + m * SLICE <= n < 2 + m * SLICE + threads * SLICE
    ensures Owner(n, threads) == which <==> n < 2 + m * SLICE + SLICE
  {
    var e := (n - 2 - m * SLICE) / SLICE;
    SliceOf(n, m);
    SlicesAhead(n - 2 - m * SLICE, threads);
    Residue(threads, round, which, e);
  }

  lemma SlicesAhead(d: nat, threads: nat)
    requires d < threads * SLICE
    ensures d / SLICE < threads && (d / SLICE == 0 <==> d < SLICE)
  {
  }

  lemma SliceOf(n: nat, m: nat)
    requires n >= 2 + m * SLICE
    ensures (n - 2) / SLICE == m + (n - 2 - m * SLICE) / SLICE
  {
  }

  lemma {:induction false} Residue(m: nat, k: nat, w: nat, e: nat)
    requires w < m && e < m
    ensures (w + k * m + e) % m == (if w + e < m then w + e else w + e - m)
  {
    var x := w + k * m + e;
    if w + e < m {
      Remainder(x, m, k, w + e);
    } else {
      assert m * (k + 1) == m * k + m;
      Remainder(x, m, k + 1, w + e - m);
    }
  }

  lemma {:induction false} Remainder(x: nat, m: nat, q: nat, r: nat)
    requires x == m * q + r && r < m
    ensures x % m == r
  {
    var p := x / m;
    assert x == m * p + x % m;
    assert m * (p + 1) == m * p + m && m * (q + 1) == m * q + m;
    if p < q { Grows(m, p + 1, q); } else if q < p { Grows(m, q + 1, p); }
  }

  lemma StartLists(which: nat, max: nat, threads: nat)
    requires which < threads
    ensures Lists([], which, Min(SliceStart(which, 0, threads), max), threads)
  {
    hide SliceStart, Owner;
    forall n: nat | Holds(which, n, Min(SliceStart(which, 0, threads), max), threads) ensures false {
      HoldsOneSlice(which, 0, threads, n);
    }
  }

  lemma {:induction false} NextLists(before: seq<int>, a: seq<bool>, which: nat, round: nat, max: nat, threads: nat)
    requires which < threads
    requires var from := SliceStart(which, round, threads);
      && Lists(before, which, from, threads) && from < max
      && |a| == (Min(from + SLICE, max) - from) / 2
      && forall k :: 0 <= k < |a| ==> (a[k] <==> Prime(Number(from, k)))
    ensures var from := SliceStart(which, round, threads);
      Lists(before + (Collected(a, from, |a|) + if from <= 2 then [2] else []), which,
            Min(SliceStart(which, round + 1, threads), max), threads)
  {
    hide Prime, Owner, SliceStart, Collected, Number;
    var from, after := SliceStart(which, round, threads), SliceStart(which, round + 1, threads);
    var slice := Collected(a, from, |a|) + if from <= 2 then [2] else [];
    forall n: int
      ensures multiset(before + slice)[n] == Once(Holds(which, n, Min(after, max), threads))
    {
      assert multiset(before + slice) == multiset(before) + multiset(slice);
      HoldsOneSlice(which, round, threads, 2);
      SliceOnce(a, from, Min(from + SLICE, max), n);
      PrimeIsPositive(n);
      if n >= 2 { HoldsOneSlice(which, round, threads, n); }
    }
  }

  lemma PrimeIsPositive(n: int)
    ensures Prime(n) ==> n >= 2
  {
  }

  /** The work of one thread: its list holds once each prime below the bound from its slices, and
      nothing else. */
  method ThreadFunc(which: nat, max: nat, threads: nat) returns (primes: seq<int>)
    requires which < threads
    ensures Lists(primes, which, max, threads)
  {
    primes := [];
    var start := which % threads;
    var from := 2 + start * SLICE;
    ghost var round := 0;
    StartLists(which, max, threads);
    hide Lists, Holds, Once, Owner, SliceStart, Prime, Divides;
    NextStart(which, 0, threads);
    while from < max
      invariant from >= 2 && from == SliceStart(which, round, threads)
      invariant Lists(primes, which, Min(from, max), threads)
      decreases max - from
    {
      NextStart(which, round, threads);
      var to := from + SLICE;
      if to > max {
        to := max;
      }
      ghost var before := primes;
      var isNumPrime := SieveSlice(from, to);
      var memory := (to - from) / 2;
      ghost var a := isNumPrime[..];
      for i := 0 to memory
        invariant isNumPrime[..] == a && primes == before + Collected(a, from, i)
      {
        if isNumPrime[i] {
          primes := primes + [2 * i + from + 1];
        }
      }
      if from <= 2 {
        primes := primes + [2];
      }
      NextLists(before, a, which, round, max, threads);
      assert primes == before + (Collected(a, from, |a|) + if from <= 2 then [2] else []);
      from := from + threads * SLICE;
      round := round + 1;
    }
  }

  /** All threads together list every prime below the bound, once, and nothing else. */
  method Sieve(max: nat, threads: nat) returns (merged: seq<int>)
    ensures threads == 0 ==> merged == []
    ensures threads > 0 ==> forall n: int :: multiset(merged)[n] == if Prime(n) && n < max then 1 else 0
  {
    merged := [];
    for which := 0 to threads
      invariant which == 0 ==> merged == []
      invariant threads > 0 ==> forall n: int ::
        multiset(merged)[n] == Once(Prime(n) && n < max && Owner(n, threads) < which)
    {
      var primes := ThreadFunc(which, max, threads);
      assert multiset(merged + primes) == multiset(merged) + multiset(primes);
      merged := merged + primes;
    }
    hide Prime;
  }

  /** Whatever way the merged list is sorted, it then holds the primes in strictly ascending order. */
  lemma {:induction false} SortedPrimes(merged: seq<int>, sorted: seq<int>, max: nat)
    requires forall n: int :: multiset(merged)[n] == if Prime(n) && n < max then 1 else 0
    requires multiset(sorted) == multiset(merged) && forall i, j :: 0 <= i < j < |sorted| ==> sorted[i] <= sorted[j]
    ensures forall i, j :: 0 <= i < j < |sorted| ==> sorted[i] < sorted[j]
    ensures forall n: int :: n in sorted <==> Prime(n) && n < max
  {
    hide Prime;
    forall n: int ensures n in sorted <==> Prime(n) && n < max { assert n in sorted <==> multiset(sorted)[n] > 0; }
    forall i, j | 0 <= i < j < |sorted| ensures sorted[i] != sorted[j] {
      if sorted[i] == sorted[j] { TwiceIn(sorted, i, j); }
    }
  }

  lemma TwiceIn(s: seq<int>, i: nat, j: nat)
    requires i < j < |s| && s[i] == s[j]
    ensures multiset(s)[s[i]] >= 2
  {
    assert s == s[..j] + s[j..] && s[..j][i] == s[i] && s[j..][0] == s[j];
    assert s[i] in s[..j] && s[j] in s[j..];
    assert multiset(s) == multiset(s[..j]) + multiset(s[j..]);
  }
}
