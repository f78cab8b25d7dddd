/** Decimal strings and the numbers they stand for. */
module Decimal {

  // ----- powers of ten -----

  function Pow10(k: nat): nat {
    if k == 0 then 1 else 10 * Pow10(k - 1)
  }

  lemma {:induction false} Pow10Positive(k: nat)
    ensures Pow10(k) > 0
  {
    if k > 0 { Pow10Positive(k - 1); }
  }

  lemma {:induction false} Pow10Add(a: nat, b: nat)
    ensures Pow10(a + b) == Pow10(a) * Pow10(b)
  {
    if b > 0 {
      Pow10Add(a, b - 1);
      assert Pow10(a) * (10 * Pow10(b - 1)) == 10 * (Pow10(a) * Pow10(b - 1));
    }
  }

  lemma {:induction false} Pow10Grows(a: nat, b: nat)
    requires a <= b
    ensures Pow10(a) <= Pow10(b)
  {
    if a < b { Pow10Grows(a, b - 1); }
  }

  // ----- values -----

  predicate Digits(s: string) {
    forall i :: 0 <= i < |s| ==> '0' <= s[i] <= '9'
  }

  function Digit(c: char): int {
    c as int - '0' as int
  }

  /** The value of a digit string, most significant digit first. */
  function Val(s: string): int {
    if s == [] then 0 else 10 * Val(s[..|s| - 1]) + Digit(s[|s| - 1])
  }

  /** The value of a reversed digit string, least significant digit first. */
  function LowVal(s: string): int {
    if s == [] then 0 else LowVal(s[..|s| - 1]) + Digit(s[|s| - 1]) * Pow10(|s| - 1)
  }

  /** A number as the program writes it: digits, perhaps after a minus sign. */
  predicate Number(s: string) {
    s != [] && if s[0] == '-' then Digits(s[1..]) else Digits(s)
  }

  function SVal(s: string): int {
    if s != [] && s[0] == '-' then -Val(s[1..]) else Val(s)
  }

  function Abs(v: int): nat {
    if v < 0 then -v else v
  }

  function DigitCount(v: nat): nat {
    if v < 10 then 1 else 1 + DigitCount(v / 10)
  }

  lemma {:induction false} ValConcat(a: string, b: string)
    ensures Val(a + b) == Val(a) * Pow10(|b|) + Val(b)
  {
    if b == [] {
      assert a + b == a;
    } else {
      var k := |b| - 1;
      ValConcat(a, b[..k]);
      assert (a + b)[..|a + b| - 1] == a + b[..k];
      assert 10 * (Val(a) * Pow10(k)) == Val(a) * (10 * Pow10(k));
    }
  }

  lemma {:induction false} ValBounds(s: string)
    requires Digits(s)
    ensures 0 <= Val(s) < Pow10(|s|)
  {
    if s != [] { ValBounds(s[..|s| - 1]); }
  }

  /** One more digit of a reversed string. */
  lemma LowAppend(s: string, c: char)
    ensures LowVal(s + [c]) == LowVal(s) + Digit(c) * Pow10(|s|)
    ensures Pow10(|s| + 1) == 10 * Pow10(|s|)
  {
    assert (s + [c])[..|s|] == s;
  }

  lemma LowSnoc(s: string, i: nat)
    requires i < |s|
    ensures LowVal(s[..i + 1]) == LowVal(s[..i]) + Digit(s[i]) * Pow10(i)
    ensures Pow10(i + 1) == 10 * Pow10(i)
  {
    LowAppend(s[..i], s[i]);
    assert s[..i + 1] == s[..i] + [s[i]];
  }

  function Zeros(k: nat): string {
    seq(k, _ => '0')
  }

  lemma {:induction false} ZerosVal(k: nat)
    ensures Val(Zeros(k)) == 0
  {
    if k > 0 {
      ZerosVal(k - 1);
      assert Zeros(k)[..k - 1] == Zeros(k - 1);
    }
  }

  function Reverse(s: string): string {
    seq(|s|, i requires 0 <= i < |s| => s[|s| - 1 - i])
  }

  lemma ReverseTwice(s: string)
    ensures Reverse(Reverse(s)) == s
    ensures Digits(s) ==> Digits(Reverse(s))
  {
  }

  lemma {:induction false} ReverseVal(s: string)
    ensures LowVal(Reverse(s)) == Val(s)
  {
    if s != [] {
      var t := s[1..];
      ReverseVal(t);
      assert Reverse(s)[..|s| - 1] == Reverse(t);
      assert s == [s[0]] + t;
      ValConcat([s[0]], t);
      assert [s[0]][..0] == [];
      assert Val([s[0]]) == Digit(s[0]);
      hide Reverse, Pow10;
    }
  }

  /** Of two strings of one length the one with the larger first differing digit is larger. */
  lemma {:induction false} FirstDifference(a: string, b: string, k: nat)
    requires Digits(a) && Digits(b) && |a| == |b| && k < |a| && a[..k] == b[..k] && a[k] < b[k]
    ensures Val(a) < Val(b)
  {
    var high, low := a[..k + 1], b[..k + 1];
    assert a == high + a[k + 1..] && b == low + b[k + 1..];
    ValConcat(high, a[k + 1..]);
    ValConcat(low, b[k + 1..]);
    ValBounds(a[k + 1..]);
    ValBounds(b[k + 1..]);
    assert high[..k] == a[..k] == low[..k];
    assert Val(high) < Val(low);
    hide Val, Pow10;
    HighPartDecides(Val(high), Val(low), Pow10(|a| - k - 1), Val(a[k + 1..]), Val(b[k + 1..]));
  }

  lemma HighPartDecides(x: int, y: int, p: int, u: int, v: int)
    requires x < y && 0 <= u < p && 0 <= v
    ensures x * p + u < y * p + v
  {
    assert (x + 1) * p <= y * p;
    assert (x + 1) * p == x * p + p;
  }

  // ----- numbers of digits -----

  /** A string without leading zeros has as many digits as its value. */
  lemma {:induction false} TrimmedLength(s: string)
    requires Digits(s) && s != [] && (|s| == 1 || s[0] != '0')
    ensures Val(s) >= 0 && |s| == DigitCount(Val(s))
    ensures |s| > 1 ==> Val(s) >= Pow10(|s| - 1)
  {
    if |s| > 1 {
      var t := s[..|s| - 1];
      TrimmedLength(t);
      if |t| == 1 { assert t[..0] == []; }
      assert Val(s) / 10 == Val(t) >= 1;
    } else {
      assert s[..0] == [];
    }
  }

  lemma {:induction false} DigitCountBound(s: string)
    requires Digits(s) && s != []
    ensures Val(s) >= 0 && DigitCount(Val(s)) <= |s|
  {
    if |s| > 1 {
      DigitCountBound(s[..|s| - 1]);
      assert Val(s) / 10 == Val(s[..|s| - 1]);
    } else {
      assert s[..0] == [];
    }
  }

  lemma {:induction false} DigitCountGrows(a: nat, b: nat)
    requires a <= b
    ensures DigitCount(a) <= DigitCount(b)
  {
    if a >= 10 { DigitCountGrows(a / 10, b / 10); }
  }

  lemma DigitCountSum(a: nat, b: nat, k: nat)
    requires DigitCount(a) <= k && DigitCount(b) <= k
    ensures DigitCount(a + b) <= k + 1
  {
    var m := if a < b then b else a;
    if m > 0 {
      assert DigitCount(10 * m) == 1 + DigitCount(m) by { assert 10 * m / 10 == m; }
      DigitCountGrows(a + b, 10 * m);
    }
  }
}
