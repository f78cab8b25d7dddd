/** Parallel Karatsuba multiplication of signed decimal strings, and the evaluation of polynomials
    with it. A goroutine and the channel its result comes back on are a call. */
module Karatsuba {

  import opened Decimal

  /** What is left of a byte computation. */
  function U8(x: int): (r: int)
    ensures 0 <= r < 256
    ensures -256 <= x < 0 ==> r == x + 256
    ensures 0 <= x < 256 ==> r == x
    ensures 256 <= x < 512 ==> r == x - 256
  {
    x % 256
  }

  // ----- the library's formatting -----

  /** fmt.Sprintf("%0*s", d, s) */
  function PadLeft(s: string, d: nat): string {
    if d > |s| then Zeros(d - |s|) + s else s
  }

  lemma PadLeftVal(s: string, d: nat)
    requires Digits(s)
    ensures Digits(PadLeft(s, d)) && Val(PadLeft(s, d)) == Val(s)
    ensures |PadLeft(s, d)| == if d > |s| then d else |s|
  {
    if d > |s| {
      ValConcat(Zeros(d - |s|), s);
      ZerosVal(d - |s|);
    }
  }

  /** Pads to a power of two, as far as 1024. */
  function Pad(s: string): string {
    var x := |s|;
    if x == 1 || x == 2 then s
    else if x <= 4 then PadLeft(s, 4)
    else if x <= 8 then PadLeft(s, 8)
    else if x <= 16 then PadLeft(s, 16)
    else if x <= 32 then PadLeft(s, 32)
    else if x <= 64 then PadLeft(s, 64)
    else if x <= 128 then PadLeft(s, 128)
    else if x <= 256 then PadLeft(s, 256)
    else if x <= 512 then PadLeft(s, 512)
    else if x <= 1024 then PadLeft(s, 1024)
    else s
  }

  /** Padding keeps the value, makes lengths up to 1024 even or 1, and leaves the first digit in the
      first half. */
  lemma PadSpec(s: string)
    requires Digits(s) && s != []
    ensures Digits(Pad(s)) && Val(Pad(s)) == Val(s)
    ensures |s| == 1 ==> |Pad(s)| == 1
    ensures 1 < |s| <= 1024 ==> |Pad(s)| % 2 == 0 && |s| <= |Pad(s)| <= 1024 && |Pad(s)| / 2 < |s|
    ensures |s| > 1024 ==> Pad(s) == s
  {
    hide Val, PadLeft, Digits;
    PadLeftVal(s, 4);
    PadLeftVal(s, 8);
    PadLeftVal(s, 16);
    PadLeftVal(s, 32);
    PadLeftVal(s, 64);
    PadLeftVal(s, 128);
    PadLeftVal(s, 256);
    PadLeftVal(s, 512);
    PadLeftVal(s, 1024);
  }

  method StrRev(s: string) returns (r: string)
    ensures r == Reverse(s)
  {
    var runes := new char[|s|](k requires 0 <= k < |s| => s[k]);
    var i, j := 0, |s| - 1;
    while i < j
      invariant 0 <= i && j == |s| - 1 - i && i <= j + 1
      invariant forall k :: 0 <= k < i || j < k < |s| ==> runes[k] == s[|s| - 1 - k]
      invariant forall k :: i <= k <= j ==> runes[k] == s[k]
    {
      runes[i], runes[j] := runes[j], runes[i];
      i, j := i + 1, j - 1;
    }
    r := runes[..];
  }

  function Shifted(v: int, n: nat): int {
    v * Pow10(n)
  }

  method BitShift(s: string, n: nat) returns (r: string)
    requires Digits(s)
    ensures Digits(r) && Val(r) == Shifted(Val(s), n)
  {
    var t := StrRev(s);
    r := StrRev(PadLeft(t, n + |s|));
    assert r == s + Zeros(n);
    ValConcat(s, Zeros(n));
    ZerosVal(n);
  }

  method LeadingZeroes(s: string) returns (j: nat)
    ensures j <= |s| && (j < |s| ==> s[j] != '0') && s[..j] == Zeros(j) && Val(s[j..]) == Val(s)
  {
    j := 0;
    while j < |s| && s[j] == '0'
      invariant j <= |s| && s[..j] == Zeros(j)
    {
      j := j + 1;
    }
    assert s == s[..j] + s[j..];
    ValConcat(s[..j], s[j..]);
    ZerosVal(j);
  }

  /** Without leading zeros; "0" when nothing is left. */
  method Trim(s: string) returns (r: string)
    requires Digits(s)
    ensures Digits(r) && r != [] && Val(r) == Val(s) && (|r| == 1 || r[0] != '0')
  {
    var j := LeadingZeroes(s);
    if j < |s| {
      r := s[j..];
    } else {
      r := "0";
      ZerosVal(1);
      assert Zeros(1) == "0";
    }
  }

  // ----- addition -----

  lemma AddStep(a: int, b: int, r: int, carry: int, x: int, y: int, d: int, carry': int, p: int)
    requires a + b == r + carry * p && x + y + carry == d + 10 * carry'
    ensures (a + x * p) + (b + y * p) == (r + d * p) + carry' * (10 * p)
  {
    assert (x + y + carry) * p == x * p + y * p + carry * p;
    assert (d + 10 * carry') * p == d * p + carry' * (10 * p);
  }

  /** One column: the digit written and the carry kept. */
  method AddDigits(x: char, y: char, carry: int) returns (d: char, carry': int)
    requires '0' <= x <= '9' && '0' <= y <= '9' && 0 <= carry <= 1
    ensures '0' <= d <= '9' && 0 <= carry' <= 1 && Digit(x) + Digit(y) + carry == Digit(d) + 10 * carry'
  {
    var t := U8(x as int + y as int + carry - '0' as int - '0' as int);
    d := U8(t % 10 + '0' as int) as char;
    carry' := t / 10;
  }

  /** Both numbers are reversed and of one length. */
  method AddDriver(n1: string, n2: string) returns (r: string)
    requires Digits(n1) && Digits(n2) && |n1| == |n2|
    ensures Digits(r) && LowVal(r) == LowVal(n1) + LowVal(n2)
    ensures |r| == |n1| || (|r| == |n1| + 1 && r[|n1|] == '1')
  {
    hide LowVal, Pow10;
    var result := new char[|n1|];
    var carry := 0;
    LowNil();
    for i := 0 to |n1|
      invariant 0 <= carry <= 1 && Digits(result[..i])
      invariant LowVal(n1[..i]) + LowVal(n2[..i]) == LowVal(result[..i]) + carry * Pow10(i)
    {
      ghost var before, carry0 := result[..i], carry;
      result[i], carry := AddDigits(n1[i], n2[i], carry);
      assert result[..i] == before && result[..i + 1] == before + [result[i]];
      LowSnoc(n1, i);
      LowSnoc(n2, i);
      LowSnoc(result[..], i);
      assert result[..][..i] == before && result[..][..i + 1] == result[..i + 1];
      AddStep(LowVal(n1[..i]), LowVal(n2[..i]), LowVal(before), carry0,
              Digit(n1[i]), Digit(n2[i]), Digit(result[i]), carry, Pow10(i));
    }
    assert n1[..|n1|] == n1 && n2[..|n2|] == n2 && result[..|n1|] == result[..];
    r := result[..];
    if carry != 0 {
      r := r + [U8(carry + '0' as int) as char];
      LowAppend(result[..], '1');
      assert Digit('1') == 1 && r == result[..] + ['1'];
    }
  }

  lemma LowNil()
    ensures LowVal([]) == 0 && Pow10(0) == 1
  {
  }

  /** Both numbers without leading zeros, the shorter one padded to the length of the longer one. */
  method Align(n1: string, n2: string) returns (a: string, b: string)
    requires Digits(n1) && Digits(n2)
    ensures Digits(a) && Digits(b) && |a| == |b| > 0 && Val(a) == Val(n1) && Val(b) == Val(n2)
    ensures |a| == 1 || Val(a) >= Pow10(|a| - 1) || Val(b) >= Pow10(|a| - 1)
  {
    a := Trim(n1);
    b := Trim(n2);
    hide Val, Pow10, PadLeft;
    PadLeftVal(a, |b|);
    PadLeftVal(b, |a|);
    if |a| > |b| {
      TrimmedLength(a);
      b := PadLeft(b, |a|);
    } else {
      TrimmedLength(b);
      a := PadLeft(a, |b|);
    }
  }

  method Add(n1: string, n2: string) returns (r: string)
    requires Digits(n1) && Digits(n2)
    ensures Digits(r) && r != [] && Val(r) == Val(n1) + Val(n2) && (|r| == 1 || r[0] != '0')
  {
    hide Val, LowVal, Pow10, Digits, Reverse;
    var a, b := Align(n1, n2);
    Reversed(a);
    Reversed(b);
    var ra := StrRev(a);
    var rb := StrRev(b);
    var sum := AddDriver(ra, rb);
    Reversed(sum);
    r := StrRev(sum);
    SumLeads(a, b, r);
  }

  /** Reversing turns one reading of a number into the other. */
  lemma Reversed(s: string)
    ensures |Reverse(s)| == |s| && LowVal(Reverse(s)) == Val(s) && Val(Reverse(s)) == LowVal(s)
    ensures Digits(s) ==> Digits(Reverse(s))
    ensures s != [] ==> Reverse(s)[0] == s[|s| - 1]
  {
    ReverseTwice(s);
    ReverseVal(s);
    ReverseVal(Reverse(s));
  }

  // ----- subtraction -----

  lemma SubStep(a: int, b: int, r: int, borrow: int, x: int, y: int, d: int, borrow': int, p: int)
    requires a - b == r - borrow * p && x - y - borrow == d - 10 * borrow'
    ensures (a + x * p) - (b + y * p) == (r + d * p) - borrow' * (10 * p)
  {
    assert (x - y - borrow) * p == x * p - y * p - borrow * p;
    assert (d - 10 * borrow') * p == d * p - borrow' * (10 * p);
  }

  /** One column: the digit written and the carry kept, as bytes that wrap around. */
  method SubDigits(a: char, b: char, carry: int) returns (d: char, carry': int)
    requires '0' <= a <= '9' && '0' <= b <= '9' && -1 <= carry <= 0
    ensures '0' <= d <= '9' && -1 <= carry' <= 0 && Digit(a) - Digit(b) + carry == Digit(d) + 10 * carry'
  {
    hide U8;
    var x, y := a as int, b as int;
    if (carry == 0 && x >= y) || (carry == -1 && x >= U8(y + 1)) {
      var t := U8(U8(x - y) + '0' as int);
      if carry == -1 {
        t := U8(t - 1);
      }
      d := t as char;
      carry' := 0;
    } else {
      var t := U8(U8(U8(x - y) + 10) + '0' as int);
      if carry == -1 {
        t := U8(t - 1);
      }
      d := t as char;
      carry' := -1;
    }
  }

  /** Both numbers are reversed and of one length, and the first is not the smaller one. */
  method SubDriver(n1: string, n2: string) returns (r: string)
    requires Digits(n1) && Digits(n2) && |n1| == |n2| && LowVal(n1) >= LowVal(n2)
    ensures Digits(r) && |r| == |n1| && LowVal(r) == LowVal(n1) - LowVal(n2)
  {
    hide LowVal, Pow10, Digit;
    var carry := 0;
    var result := new char[|n1|];
    LowNil();
    for i := 0 to |n1|
      invariant -1 <= carry <= 0 && Digits(result[..i])
      invariant LowVal(n1[..i]) - LowVal(n2[..i]) == LowVal(result[..i]) - -carry * Pow10(i)
    {
      ghost var before, carry0 := result[..i], carry;
      result[i], carry := SubDigits(n1[i], n2[i], carry);
      assert result[..i] == before && result[..i + 1] == before + [result[i]];
      LowSnoc(n1, i);
      LowSnoc(n2, i);
      LowSnoc(result[..], i);
      assert result[..][..i] == before && result[..][..i + 1] == result[..i + 1];
      SubStep(LowVal(n1[..i]), LowVal(n2[..i]), LowVal(before), -carry0,
              Digit(n1[i]), Digit(n2[i]), Digit(result[i]), -carry, Pow10(i));
    }
    assert n1[..|n1|] == n1 && n2[..|n2|] == n2 && result[..|n1|] == result[..];
    r := result[..];
    LowBound(r);
  }

  lemma LowBound(s: string)
    requires Digits(s)
    ensures 0 <= LowVal(s) < Pow10(|s|)
  {
    ReverseTwice(s);
    ReverseVal(Reverse(s));
    ValBounds(Reverse(s));
  }

  lemma FirstDigit(s: string)
    requires Digits(s) && s != []
    ensures Val(s) == Digit(s[0]) * Pow10(|s| - 1) + Val(s[1..]) && 0 <= Val(s[1..]) < Pow10(|s| - 1)
  {
    var front := s[..1];
    assert Val(front) == Digit(s[0]) by { assert front[..0] == []; }
    hide Val, Pow10;
    ValConcat(front, s[1..]);
    assert s == front + s[1..];
    ValBounds(s[1..]);
  }

  /** A number that needs all its digits does not start with a zero. */
  lemma LeadingDigit(s: string)
    requires Digits(s) && s != [] && Val(s) >= Pow10(|s| - 1)
    ensures s[0] != '0'
  {
    hide Val, Pow10;
    FirstDigit(s);
  }

  lemma SumLeads(a: string, b: string, r: string)
    requires Digits(a) && Digits(b) && Digits(r) && |a| > 0 && Val(r) == Val(a) + Val(b)
    requires |a| == 1 || Val(a) >= Pow10(|a| - 1) || Val(b) >= Pow10(|a| - 1)
    requires |r| == |a| || (|r| == |a| + 1 && r[0] == '1')
    ensures |r| == 1 || r[0] != '0'
  {
    hide Val, Pow10;
    ValBounds(a);
    ValBounds(b);
    if |r| == |a| > 1 { LeadingDigit(r); }
  }

  /** The distance of the two numbers, and 1 when the first is the smaller one. The result has as many
      digits as the larger one, so it may start with zeros. */
  method Sub(n1: string, n2: string) returns (r: string, neg: int)
    requires Digits(n1) && Digits(n2)
    ensures Digits(r) && r != [] && Val(r) == Abs(Val(n1) - Val(n2))
    ensures neg == if Val(n1) < Val(n2) then 1 else 0
    ensures |r| == if Val(n1) == Val(n2) then 1 else DigitCount(Abs(if Val(n1) < Val(n2) then Val(n2) else Val(n1)))
  {
    hide Val;
    var a := Trim(n1);
    var b := Trim(n2);
    TrimmedLength(a);
    TrimmedLength(b);
    if |a| > |b| {
      LongerIsLarger(a, b);
      PadLeftVal(b, |a|);
      b := PadLeft(b, |a|);
      r := Difference(a, b);
      neg := 0;
    } else if |a| < |b| {
      LongerIsLarger(b, a);
      PadLeftVal(a, |b|);
      a := PadLeft(a, |b|);
      r := Difference(b, a);
      neg := 1;
    } else {
      var ra := StrRev(a);
      var rb := StrRev(b);
      var i := |ra| - 1;
      while i >= 0
        invariant 0 <= i < |ra| && a[..|a| - 1 - i] == b[..|b| - 1 - i]
      {
        var k := |a| - 1 - i;
        assert ra[i] == a[k] && rb[i] == b[k];
        if ra[i] < rb[i] {
          FirstDifference(a, b, k);
          r := Difference(b, a);
          return r, 1;
        } else if ra[i] > rb[i] {
          FirstDifference(b, a, k);
          r := Difference(a, b);
          return r, 0;
        } else if i == 0 {
          assert a == b;
          ZerosVal(1);
          assert Zeros(1) == "0";
          return "0", 0;
        }
        assert a[..k + 1] == a[..k] + [a[k]] && b[..k + 1] == b[..k] + [b[k]];
        i := i - 1;
      }
      assert false;
    }
  }

  lemma LongerIsLarger(a: string, b: string)
    requires Digits(a) && Digits(b) && |a| > |b| > 0 && a[0] != '0'
    ensures Val(a) > Val(b)
  {
    TrimmedLength(a);
    ValBounds(b);
    Pow10Grows(|b|, |a| - 1);
  }

  /** Both are reversed, subtracted and reversed back. */
  method Difference(a: string, b: string) returns (r: string)
    requires Digits(a) && Digits(b) && |a| == |b| > 0 && Val(a) >= Val(b)
    ensures Digits(r) && |r| == |a| && Val(r) == Val(a) - Val(b)
  {
    ReverseVal(a);
    ReverseVal(b);
    ReverseTwice(a);
    ReverseTwice(b);
    var ra := StrRev(a);
    var rb := StrRev(b);
    var d := SubDriver(ra, rb);
    r := StrRev(d);
    ReverseTwice(d);
    ReverseVal(r);
  }

  // ----- written forms -----

  predicate MinusZero(s: string) {
    s != [] && s[0] == '-' && SVal(s) == 0
  }

  /** No zeros in front, and no minus in front of a zero. */
  predicate Canonical(s: string) {
    s != [] && if s[0] == '-' then |s| > 1 && s[1] != '0' else s == "0" || s[0] != '0'
  }

  /** The digits the signed adder writes behind a minus: those of the larger operand when the operands
      have different signs, and those of the sum otherwise. */
  function Written(u: int, v: int): nat {
    DigitCount(if u <= 0 && v <= 0 then Abs(u + v) else if Abs(u) < Abs(v) then Abs(v) else Abs(u))
  }

  /** A number is canonical when it has as many digits as its value. */
  lemma {:induction false} CanonicalByLength(s: string)
    requires Number(s) && SVal(s) < 0
    ensures Canonical(s) <==> |s| == 1 + DigitCount(Abs(SVal(s)))
  {
    var t := s[1..];
    assert s[0] == '-' && Digits(t) && Val(t) == -SVal(s) > 0 && t != [] by { if s[0] != '-' { ValBounds(s); } }
    hide Val, SVal, Number, DigitCount, Pow10;
    if t[0] == '0' { ZeroInFront(t); } else { TrimmedLength(t); }
  }

  lemma ZeroInFront(t: string)
    requires Digits(t) && t != [] && t[0] == '0' && Val(t) > 0
    ensures DigitCount(Val(t)) < |t|
  {
    FirstDigit(t);
    assert t[1..] != [] by { assert Val([]) == 0; }
    hide Val, DigitCount, Pow10;
    DigitCountBound(t[1..]);
  }

  /** The digits behind a minus may start with zeros, as many as the difference is shorter. */
  method SignedAdder(n1: string, n2: string) returns (r: string)
    requires Number(n1) && Number(n2)
    ensures Number(r) && SVal(r) == SVal(n1) + SVal(n2)
    ensures SVal(r) < 0 ==> |r| == 1 + Written(SVal(n1), SVal(n2))
    ensures MinusZero(r) ==> MinusZero(n1) && MinusZero(n2)
  {
    hide Val, DigitCount, Pow10;
    var nf1, nf2 := 0, 0;
    var a, b := n1, n2;
    if a[0] == '-' {
      nf1 := 1;
      a := a[1..];
    }
    if b[0] == '-' {
      nf2 := 1;
      b := b[1..];
    }
    ValBounds(a);
    ValBounds(b);
    if nf1 == nf2 && nf2 == 0 {
      r := Add(a, b);
    } else if nf1 == nf2 && nf1 == 1 {
      r := Add(a, b);
      TrimmedLength(r);
      r := "-" + r;
    } else if nf1 == 1 {
      var res, neg := Sub(b, a);
      r := if neg != 0 then "-" + res else res;
    } else {
      var res, neg := Sub(a, b);
      r := if neg != 0 then "-" + res else res;
    }
  }

  // ----- multiplication -----

  /** The digits of the longer operand. */
  function Width(u: nat, v: nat): nat {
    var a, b := DigitCount(u), DigitCount(v);
    if a < b then b else a
  }

  /** When the product comes out right, for operands of at most 2046 digits. */
  ghost predicate Exact(width: nat, product: int) {
    width <= 1024 || width % 2 == 0 || product == 0
  }

  function Times(x: int, y: int): int {
    x * y
  }

  /** Splitting at l digits from the front. */
  lemma {:induction false} Split(n: string, l: nat)
    requires Digits(n) && l < |n|
    ensures Digits(n[..l]) && Digits(n[l..])
    ensures Val(n[..l]) >= 0 && 0 <= Val(n[l..]) < Pow10(|n| - l)
    ensures Val(n) == Times(Val(n[..l]), Pow10(|n| - l)) + Val(n[l..])
    ensures Pow10(|n| - l) >= 10
  {
    assert n == n[..l] + n[l..];
    ValConcat(n[..l], n[l..]);
    ValBounds(n[..l]);
    ValBounds(n[l..]);
    Pow10Grows(1, |n| - l);
    assert Pow10(1) == 10 * Pow10(0);
  }

  lemma ZeroProduct(x: int, y: int)
    ensures x == 0 ==> x * y == 0
  {
  }

  /** The first half of a padded number is not zero. */
  lemma {:induction false} HeadIsPositive(n: string, l: nat, k: nat)
    requires Digits(n) && l < |n| && |n| - l <= k && Val(n) >= Pow10(k)
    ensures Val(n[..l]) > 0
  {
    Split(n, l);
    Pow10Grows(|n| - l, k);
    ZeroProduct(Val(n[..l]), Pow10(|n| - l));
  }

  /** The halves are smaller than the number, and so is their sum unless the first one is zero. */
  lemma HalvesFall(n: int, h: int, t: int, p: int)
    requires h >= 0 && 0 <= t < p && p >= 10 && n == Times(h, p) + t
    ensures h + t <= n && h <= n && t <= n
    ensures h > 0 ==> h + t < n && h < n && t < n
  {
    if h > 0 { assert h * p >= h * 10; }
    assert h * p >= p || h == 0;
  }

  /** What is left of the middle product after the two subtractions are the cross products, so
      neither subtraction goes below zero. */
  lemma {:induction false} MiddleTerm(al: int, ar: int, bl: int, br: int)
    requires al >= 0 && ar >= 0 && bl >= 0 && br >= 0
    ensures Times(al + ar, bl + br) - Times(al, bl) - Times(ar, br) == al * br + ar * bl >= 0
    ensures Times(al, bl) >= 0 && Times(ar, br) >= 0
  {
    assert (al + ar) * (bl + br) == al * bl + al * br + ar * bl + ar * br;
  }

  /** Three products make the whole one. */
  lemma Karatsuba(al: int, ar: int, bl: int, br: int, p: int)
    ensures ar * br + (al * br + ar * bl) * p + al * bl * (p * p) == (al * p + ar) * (bl * p + br)
  {
    assert (al * p + ar) * (bl * p + br) == al * p * (bl * p) + al * p * br + ar * (bl * p) + ar * br;
  }

  /** Shifting by one digit too few is only right when nothing is shifted. */
  lemma ShortShift(low: int, mid: int, high: int, p: int)
    requires mid >= 0 && high >= 0 && p > 0
    ensures low + mid * p + high * (p * p) == low + mid * (10 * p) + high * ((10 * p) * (10 * p)) <==>
              mid == 0 && high == 0
  {
    assert high * ((10 * p) * (10 * p)) == 100 * (high * (p * p));
    assert mid * (10 * p) == 10 * (mid * p);
    assert mid > 0 ==> mid * p > 0;
    assert high > 0 ==> high * (p * p) > 0;
  }

  lemma NoProduct(al: int, ar: int, bl: int, br: int, p: int)
    requires al >= 0 && ar >= 0 && bl >= 0 && br >= 0 && p > 0 && (al > 0 || bl > 0)
    ensures al * br + ar * bl == 0 && al * bl == 0 <==> (al * p + ar) * (bl * p + br) == 0
  {
  }

  /** What the shifted terms add up to: the product when the digits split in equal halves, and
      otherwise only when the product is zero. */
  lemma {:induction false} Combined(n: nat, l: nat, al: int, ar: int, bl: int, br: int, u: int, v: int, r: int)
    requires al >= 0 && ar >= 0 && bl >= 0 && br >= 0 && (al > 0 || bl > 0) && n > 1 && l == n / 2
    requires u == Times(al, Pow10(n - l)) + ar && v == Times(bl, Pow10(n - l)) + br
    requires r == Times(ar, br) + Shifted(Times(al + ar, bl + br) - Times(al, bl) - Times(ar, br), l)
                  + Shifted(Times(al, bl), 2 * l)
    ensures r == Times(u, v) <==> n % 2 == 0 || Times(u, v) == 0
  {
    ShiftsByHalves(n, l);
    MiddleTerm(al, ar, bl, br);
    var P, p, mid, high, low := Pow10(l), Pow10(n - l), al * br + ar * bl, al * bl, ar * br;
    assert r == low + mid * P + high * (P * P) by { hide Pow10; }
    assert Times(u, v) == (al * p + ar) * (bl * p + br) by { hide Pow10; }
    hide Pow10, Shifted, Times;
    Karatsuba(al, ar, bl, br, p);
    ShortShift(low, mid, high, P);
    NoProduct(al, ar, bl, br, p);
    Decide(n % 2 == 0, r, low, mid, high, P, p, (al * p + ar) * (bl * p + br));
  }

  lemma Decide(even: bool, r: int, low: int, mid: int, high: int, P: int, p: int, product: int)
    requires P > 0 && p == (if even then P else 10 * P)
    requires r == low + mid * P + high * (P * P) && low + mid * p + high * (p * p) == product
    requires r == low + mid * (10 * P) + high * ((10 * P) * (10 * P)) <==> mid == 0 && high == 0
    requires mid == 0 && high == 0 <==> product == 0
    ensures r == product <==> even || product == 0
  {
  }

  lemma ShiftsByHalves(n: nat, l: nat)
    requires n > 1 && l == n / 2
    ensures Pow10(l) > 0 && Pow10(2 * l) == Pow10(l) * Pow10(l)
    ensures Pow10(n - l) == if n % 2 == 0 then Pow10(l) else 10 * Pow10(l)
  {
    Pow10Positive(l);
    Pow10Add(l, l);
  }

  /** One digit times one digit. */
  method MultDigits(n1: string, n2: string) returns (r: string)
    requires Digits(n1) && Digits(n2) && |n1| == |n2| == 1
    ensures Digits(r) && r != [] && Val(r) == Times(Val(n1), Val(n2))
  {
    assert n1[..0] == [] && n2[..0] == [];
    var x, y := U8(n1[0] as int - '0' as int), U8(n2[0] as int - '0' as int);
    assert 0 <= x * y <= 81 by { DigitProduct(x, y); }
    var a := U8(x * y);
    var result := [U8(a / 10 + '0' as int) as char, U8(a % 10 + '0' as int) as char];
    TwoDigits(result);
    r := Trim(result);
  }

  lemma DigitProduct(x: int, y: int)
    requires 0 <= x <= 9 && 0 <= y <= 9
    ensures 0 <= x * y <= 81
  {
    assert x * y <= 9 * y;
  }

  lemma TwoDigits(s: string)
    requires |s| == 2
    ensures Val(s) == 10 * Digit(s[0]) + Digit(s[1])
  {
    assert s[..1][..0] == [];
    assert Val(s[..1]) == Digit(s[0]);
  }

  /** The operands of the three products have at most 1024 digits. */
  lemma {:induction false} PartsAreNarrow(n: string, l: nat)
    requires Digits(n) && 1 < |n| <= 2046 && l == |n| / 2 && Val(n[..l]) >= 0 && Val(n[l..]) >= 0
    ensures DigitCount(Val(n[..l])) <= 1023 && DigitCount(Val(n[l..])) <= 1023
    ensures DigitCount(Val(n[..l]) + Val(n[l..])) <= 1024
  {
    DigitCountBound(n[..l]);
    DigitCountBound(n[l..]);
    DigitCountSum(Val(n[..l]), Val(n[l..]), 1023);
  }

  lemma DigitsAreNumbers(s: string)
    requires Digits(s) && s != []
    ensures Number(s) && SVal(s) == Val(s) >= 0
  {
    ValBounds(s);
  }

  /** Mult for operands without a sign. */
  method Product(n1: string, n2: string) returns (r: string)
    requires Digits(n1) && Digits(n2) && n1 != [] && n2 != [] && Val(n1) >= 0 && Val(n2) >= 0
    ensures Digits(r) && r != [] && Val(r) >= 0
    ensures Width(Val(n1), Val(n2)) <= 1024 ==> Val(r) == Times(Val(n1), Val(n2))
    decreases Val(n1) + Val(n2), 2
  {
    DigitsAreNumbers(n1);
    DigitsAreNumbers(n2);
    r := Mult(n1, n2);
    DigitsAreNumbers(r);
  }

  /** The second half of multDriver: the middle term, the shifts and the sum. When the middle product
      is at least the other two, neither subtraction goes below zero. */
  method Recombine(albl: string, arbr: string, mid: string, l: nat) returns (r: string)
    requires Digits(albl) && Digits(arbr) && Digits(mid) && Val(albl) >= 0 && Val(arbr) >= 0
    ensures Digits(r) && r != []
    ensures Val(mid) >= Val(albl) + Val(arbr) ==>
              Val(r) == Val(arbr) + Shifted(Val(mid) - Val(albl) - Val(arbr), l) + Shifted(Val(albl), 2 * l)
  {
    hide Val, Digits, Shifted;
    var midMult, neg := Sub(mid, albl);
    assert Val(mid) >= Val(albl) + Val(arbr) ==> neg == 0;
    midMult, neg := Sub(midMult, arbr);
    assert Val(mid) >= Val(albl) + Val(arbr) ==> neg == 0;
    var bs1 := BitShift(midMult, l);
    var bs2 := BitShift(albl, 2 * l);
    r := Add(arbr, bs1);
    r := Add(r, bs2);
    var j := LeadingZeroes(r);
    if j < |r| {
      DropDigits(r, j);
      r := r[j..];
    }
  }

  /** The operands of the three products: their values fall, and they have at most 1024 digits. */
  lemma {:induction false} Parts(n1: string, n2: string, l: nat)
    requires Digits(n1) && Digits(n2) && |n1| == |n2| > 1 && l == |n1| / 2
    requires Val(n1[..l]) > 0 || Val(n2[..l]) > 0
    ensures Digits(n1[..l]) && Digits(n1[l..]) && Digits(n2[..l]) && Digits(n2[l..])
    ensures var al, ar, bl, br := Val(n1[..l]), Val(n1[l..]), Val(n2[..l]), Val(n2[l..]);
      && al >= 0 && ar >= 0 && bl >= 0 && br >= 0
      && al + bl < Val(n1) + Val(n2) && ar + br < Val(n1) + Val(n2)
      && (al + ar) + (bl + br) < Val(n1) + Val(n2)
      && (|n1| <= 2046 ==>
            && Width(al, bl) <= 1024 && Width(ar, br) <= 1024 && Width(al + ar, bl + br) <= 1024
            && Times(al + ar, bl + br) >= Times(al, bl) + Times(ar, br))
  {
    hide Val, Pow10, DigitCount, Digits, Times;
    Split(n1, l);
    Split(n2, l);
    HalvesFall(Val(n1), Val(n1[..l]), Val(n1[l..]), Pow10(|n1| - l));
    HalvesFall(Val(n2), Val(n2[..l]), Val(n2[l..]), Pow10(|n1| - l));
    MiddleTerm(Val(n1[..l]), Val(n1[l..]), Val(n2[..l]), Val(n2[l..]));
    if |n1| <= 2046 {
      PartsAreNarrow(n1, l);
      PartsAreNarrow(n2, l);
    }
  }

  lemma {:induction false} WholeProduct(n1: string, n2: string, l: nat, r: int)
    requires Digits(n1) && Digits(n2) && |n1| == |n2| > 1 && l == |n1| / 2
    requires Val(n1[..l]) > 0 || Val(n2[..l]) > 0
    requires var al, ar, bl, br := Val(n1[..l]), Val(n1[l..]), Val(n2[..l]), Val(n2[l..]);
      r == Times(ar, br) + Shifted(Times(al + ar, bl + br) - Times(al, bl) - Times(ar, br), l)
          + Shifted(Times(al, bl), 2 * l)
    ensures r == Times(Val(n1), Val(n2)) <==> |n1| % 2 == 0 || Times(Val(n1), Val(n2)) == 0
  {
    hide Val, Pow10, Digits, Times, Shifted;
    Split(n1, l);
    Split(n2, l);
    Combined(|n1|, l, Val(n1[..l]), Val(n1[l..]), Val(n2[..l]), Val(n2[l..]), Val(n1), Val(n2), r);
  }

  /** Both numbers have one length, and the longer one had no leading zero before it was padded. */
  method MultDriver(n1: string, n2: string) returns (r: string)
    requires Digits(n1) && Digits(n2) && |n1| == |n2| >= 1 && Val(n1) >= 0 && Val(n2) >= 0
    requires |n1| > 1 ==> Val(n1[..|n1| / 2]) > 0 || Val(n2[..|n1| / 2]) > 0
    ensures Digits(r) && r != []
    ensures |n1| <= 2046 ==>
              (Val(r) == Times(Val(n1), Val(n2)) <==> |n1| == 1 || |n1| % 2 == 0 || Times(Val(n1), Val(n2)) == 0)
    decreases Val(n1) + Val(n2), 0
  {
    hide Val, Digits, Times, Shifted, Width;
    if |n1| == 1 {
      r := MultDigits(n1, n2);
      return;
    }
    var l := |n1| / 2;
    var al, ar, bl, br := n1[..l], n1[l..], n2[..l], n2[l..];
    Parts(n1, n2, l);
    var albl := Product(al, bl);
    var arbr := Product(ar, br);
    var a_ := Add(al, ar);
    var b_ := Add(bl, br);
    var midMult := Product(a_, b_);
    r := Recombine(albl, arbr, midMult, l);
    if |n1| <= 2046 {
      WholeProduct(n1, n2, l, Val(r));
    }
  }

  lemma DropDigits(s: string, j: nat)
    requires Digits(s) && j <= |s|
    ensures Digits(s[j..])
  {
  }

  /** The number without its sign. */
  lemma Magnitude(n: string)
    requires Number(n)
    ensures var m := if n[0] == '-' then n[1..] else n;
      Digits(m) && Val(m) == Abs(SVal(n)) && SVal(n) == if n[0] == '-' then -Val(m) else Val(m)
  {
    ValBounds(if n[0] == '-' then n[1..] else n);
  }

  /** What the result says about the product of u and v. */
  ghost predicate Correct(r: int, u: nat, v: nat) {
    Width(u, v) <= 2046 ==> (r == Times(u, v) <==> Exact(Width(u, v), Times(u, v)))
  }

  /** The padded operands have one length, even or 1 up to 1024 digits, and the longer one starts in
      its first half. */
  lemma {:induction false} Padded(u: string, v: string)
    requires Digits(u) && Digits(v) && |u| >= |v| > 0 && (|u| == 1 || u[0] != '0')
    ensures var a := Pad(u); var b := PadLeft(v, |a|);
      && Digits(a) && Digits(b) && Val(a) == Val(u) >= 0 && Val(b) == Val(v) >= 0 && |a| == |b| >= 1
      && (|a| > 1 ==> Val(a[..|a| / 2]) > 0)
      && (|u| <= 1024 ==> |a| == 1 || (|a| <= 1024 && |a| % 2 == 0))
      && (|u| > 1024 ==> |a| == |u|)
  {
    PadSpec(u);
    ValBounds(v);
    PadLeftVal(v, |Pad(u)|);
    TrimmedLength(u);
    if |u| > 1 { HeadIsPositive(Pad(u), |Pad(u)| / 2, |u| - 1); }
  }

  /** What multDriver promises about the padded numbers, said of the numbers. */
  lemma {:induction false} Unpadded(u: string, v: string, n: nat, r: int)
    requires Digits(u) && Digits(v) && |u| >= |v| > 0 && (|u| == 1 || u[0] != '0') && (|v| == 1 || v[0] != '0')
    requires if |u| <= 1024 then n == 1 || (n <= 1024 && n % 2 == 0) else n == |u|
    requires n <= 2046 ==>
               (r == Times(Val(u), Val(v)) <==> n == 1 || n % 2 == 0 || Times(Val(u), Val(v)) == 0)
    ensures Val(u) >= 0 && Val(v) >= 0 && Correct(r, Val(u), Val(v)) && Correct(r, Val(v), Val(u))
  {
    TrimmedLength(u);
    TrimmedLength(v);
    hide Val, DigitCount, Pow10;
  }

  /** The sign of the result. */
  lemma {:induction false} Signed(n1: string, n2: string, m: string, r: string)
    requires Number(n1) && Number(n2) && Digits(m) && m != []
    requires r == if (n1[0] == '-') == (n2[0] == '-') then m else "-" + m
    requires Correct(Val(m), Abs(SVal(n1)), Abs(SVal(n2)))
    ensures Number(r) && (Digits(n1) && Digits(n2) ==> Digits(r))
    ensures var u, v := Abs(SVal(n1)), Abs(SVal(n2));
      Width(u, v) <= 2046 ==> (SVal(r) == SVal(n1) * SVal(n2) <==> Exact(Width(u, v), SVal(n1) * SVal(n2)))
  {
    Magnitude(n1);
    Magnitude(n2);
    DigitsAreNumbers(m);
    assert |r| > |m| ==> r[1..] == m;
    assert Digits(n1) && Digits(n2) ==> r == m;
    ProductSign(n1, n2);
    hide Val, Digits, Width, Times;
  }

  lemma ProductSign(n1: string, n2: string)
    requires Number(n1) && Number(n2)
    ensures var t := Times(Abs(SVal(n1)), Abs(SVal(n2)));
      SVal(n1) * SVal(n2) == if (n1[0] == '-') == (n2[0] == '-') then t else -t
  {
    Magnitude(n1);
    Magnitude(n2);
    SignRule(Abs(SVal(n1)), Abs(SVal(n2)));
    hide Val, Digits, SVal, Abs;
  }

  lemma SignRule(u: int, v: int)
    ensures -u * v == -(u * v) && u * -v == -(u * v) && -u * -v == u * v
  {
  }

  /** The product of two signed decimal strings. Up to 1024 digits it is exact; above that, up to
      2046 digits, exactly when the longer operand has an even number of digits or the product is
      zero. */
  method Mult(n1: string, n2: string) returns (r: string)
    requires Number(n1) && Number(n2)
    ensures Number(r) && (Digits(n1) && Digits(n2) ==> Digits(r))
    ensures Width(Abs(SVal(n1)), Abs(SVal(n2))) <= 2046 ==>
              (SVal(r) == SVal(n1) * SVal(n2) <==>
               Exact(Width(Abs(SVal(n1)), Abs(SVal(n2))), SVal(n1) * SVal(n2)))
    decreases Abs(SVal(n1)) + Abs(SVal(n2)), 1
  {
    var nf1, nf2 := 0, 0;
    var a, b := n1, n2;
    if a[0] == '-' {
      nf1 := 1;
      a := a[1..];
    }
    if b[0] == '-' {
      nf2 := 1;
      b := b[1..];
    }
    Magnitude(n1);
    Magnitude(n2);
    hide Val, SVal, Pad, PadLeft, Times, Digits, Correct, Width;
    a := Trim(a);
    b := Trim(b);
    ghost var u, v := a, b;
    if |a| >= |b| {
      Padded(a, b);
      a := Pad(a);
      b := PadLeft(b, |a|);
    } else {
      Padded(b, a);
      b := Pad(b);
      a := PadLeft(a, |b|);
    }
    r := MultDriver(a, b);
    TimesCommutes(Val(u), Val(v));
    if |u| >= |v| { Unpadded(u, v, |a|, Val(r)); } else { Unpadded(v, u, |a|, Val(r)); }
    ghost var m := r;
    if nf1 != nf2 {
      r := "-" + r;
    }
    Signed(n1, n2, m, r);
  }

  lemma TimesCommutes(x: int, y: int)
    ensures Times(x, y) == Times(y, x)
  {
  }

  // ----- powers and polynomials -----

  function Power(b: int, k: nat): int {
    if k == 0 then 1 else b * Power(b, k - 1)
  }

  predicate Fits(v: int) {
    DigitCount(Abs(v)) <= 1024
  }

  lemma {:induction false} PowerAdd(b: int, j: nat, k: nat)
    ensures Power(b, j + k) == Times(Power(b, j), Power(b, k))
  {
    if j > 0 {
      PowerAdd(b, j - 1, k);
      assert b * (Power(b, j - 1) * Power(b, k)) == (b * Power(b, j - 1)) * Power(b, k);
    }
  }

  lemma {:induction false} PowerSquare(b: int, k: nat)
    ensures Power(b * b, k) == Power(b, 2 * k)
  {
    if k > 0 {
      PowerSquare(b, k - 1);
      assert Power(b, 2 * k) == b * (b * Power(b, 2 * k - 2));
      assert b * (b * Power(b, 2 * k - 2)) == (b * b) * Power(b, 2 * k - 2);
    }
  }

  /** Smaller powers are not larger in magnitude. */
  lemma {:induction false} PowerGrows(b: int, k: nat)
    requires b != 0
    ensures Power(b, k) != 0 && Abs(Power(b, k)) <= Abs(Power(b, k + 1))
  {
    var q := Power(b, k);
    if k > 0 { PowerGrows(b, k - 1); }
    assert Power(b, k + 1) == b * q;
    Magnifies(b, q);
  }

  lemma Magnifies(b: int, q: int)
    requires b != 0
    ensures Abs(q) <= Abs(b * q)
  {
    var m, n := Abs(b), Abs(q);
    AtLeast(m, n);
    SignRule(m, n);
    assert b * q == m * n || b * q + m * n == 0;
  }

  lemma AtLeast(m: nat, n: nat)
    requires m > 0
    ensures m * n >= n
  {
    assert m * n == (m - 1) * n + n;
  }

  lemma {:induction false} SmallerPowerFits(b: int, k: nat, n: nat)
    requires k <= n && Fits(Power(b, n))
    ensures Fits(Power(b, k))
    decreases n - k
  {
    if b == 0 {
      assert k > 0 ==> Power(b, k) == 0;
    } else if k < n {
      SmallerPowerFits(b, k + 1, n);
      PowerGrows(b, k);
      DigitCountGrows(Abs(Power(b, k)), Abs(Power(b, k + 1)));
    }
  }

  /** Mult on operands that fit. */
  method Exactly(n1: string, n2: string) returns (r: string)
    requires Number(n1) && Number(n2)
    ensures Number(r) && (Fits(SVal(n1)) && Fits(SVal(n2)) ==> SVal(r) == Times(SVal(n1), SVal(n2)))
  {
    r := Mult(n1, n2);
  }

  /** Fast exponentiation: exact whenever the result has at most 1024 digits. */
  method Pow(x: string, n: nat) returns (r: string)
    requires Number(x)
    ensures Number(r) && (Fits(Power(SVal(x), n)) ==> SVal(r) == Power(SVal(x), n))
    decreases n
  {
    ghost var b := SVal(x);
    if n == 0 {
      assert "1"[..0] == [] && Val("1") == 1;
      return "1";
    }
    if Fits(Power(b, n)) {
      SmallerPowerFits(b, 1, n);
      SmallerPowerFits(b, n - 1, n);
      assert Power(b, 1) == b * Power(b, 0);
    }
    PowerSquare(b, n / 2);
    hide Power, Fits, SVal;
    var p := Exactly(x, x);
    r := Pow(p, n / 2);
    if n % 2 != 0 {
      r := Exactly(x, r);
    }
  }

  /** The terms up to the k-th power; the last coefficient is the constant one. */
  ghost function Sum(coeffs: seq<string>, x: int, k: nat): int
    requires k < |coeffs|
  {
    var c := SVal(coeffs[|coeffs| - 1 - k]);
    if k == 0 then c else Sum(coeffs, x, k - 1) + Times(c, Power(x, k))
  }

  ghost function Horner(coeffs: seq<string>, x: int): int
    requires coeffs != []
  {
    var n := |coeffs| - 1;
    if n == 0 then SVal(coeffs[0]) else Horner(coeffs[..n], x) * x + SVal(coeffs[n])
  }

  /** The sum of the terms is the polynomial read from its leading coefficient. */
  lemma {:induction false} SumIsHorner(coeffs: seq<string>, x: int)
    requires coeffs != []
    ensures Sum(coeffs, x, |coeffs| - 1) == Horner(coeffs, x)
  {
    var n := |coeffs| - 1;
    if n > 0 {
      SumIsHorner(coeffs[..n], x);
      SumStep(coeffs, x, n);
    }
  }

  lemma {:induction false} SumStep(coeffs: seq<string>, x: int, k: nat)
    requires 0 < k < |coeffs|
    ensures Sum(coeffs, x, k) == Sum(coeffs[..|coeffs| - 1], x, k - 1) * x + SVal(coeffs[|coeffs| - 1])
  {
    hide SVal;
    var front := coeffs[..|coeffs| - 1];
    var c := SVal(coeffs[|coeffs| - 1 - k]);
    assert SVal(front[|front| - 1 - (k - 1)]) == c;
    TermStep(c, x, k - 1);
    if k == 1 {
      assert Sum(front, x, 0) == c && Sum(coeffs, x, 0) == SVal(coeffs[|coeffs| - 1]);
      assert Times(c, Power(x, 0)) == c;
    } else {
      SumStep(coeffs, x, k - 1);
      Distributes(Sum(front, x, k - 2), Times(c, Power(x, k - 1)), x);
    }
    hide Times, Power;
  }

  lemma TermStep(c: int, x: int, k: nat)
    ensures Times(c, Power(x, k + 1)) == Times(c, Power(x, k)) * x
  {
    var p := Power(x, k);
    assert c * (x * p) == (c * p) * x;
  }

  lemma Distributes(s: int, t: int, x: int)
    ensures (s + t) * x == s * x + t * x
  {
  }

  ghost predicate InRange(coeffs: seq<string>, x: int)
    requires coeffs != []
  {
    && Fits(Power(x, |coeffs| - 1))
    && forall j :: 0 <= j < |coeffs| - 1 ==> Fits(SVal(coeffs[j]))
  }

  method AddTerm(ans: string, c: string, power: string) returns (r: string)
    requires Number(ans) && Number(c) && Number(power)
    ensures Number(r) && (MinusZero(r) ==> MinusZero(ans))
    ensures Fits(SVal(c)) && Fits(SVal(power)) ==> SVal(r) == SVal(ans) + Times(SVal(c), SVal(power))
    ensures Fits(SVal(c)) && Fits(SVal(power)) && SVal(r) < 0 ==>
              |r| == 1 + Written(SVal(ans), Times(SVal(c), SVal(power)))
  {
    hide Fits, SVal, Number, Times;
    var term := Exactly(c, power);
    r := SignedAdder(ans, term);
  }

  /** The k-th power of x, as long as the evaluation needs it. */
  ghost predicate IsPower(p: string, x: int, k: nat, coeffs: seq<string>)
    requires coeffs != []
  {
    Number(p) && (InRange(coeffs, x) && k < |coeffs| ==> SVal(p) == Power(x, k))
  }

  /** Multiplying two powers gives a power; powers no term needs may be wrong. */
  method NextPower(p: string, q: string, ghost x: int, ghost j: nat, ghost k: nat, ghost coeffs: seq<string>)
    returns (r: string)
    requires coeffs != [] && IsPower(p, x, j, coeffs) && IsPower(q, x, k, coeffs)
    ensures IsPower(r, x, j + k, coeffs)
  {
    r := Exactly(p, q);
    if InRange(coeffs, x) && j + k < |coeffs| {
      SmallerPowerFits(x, j, |coeffs| - 1);
      SmallerPowerFits(x, k, |coeffs| - 1);
      PowerAdd(x, j, k);
    }
  }

  lemma FirstPower(x: string, coeffs: seq<string>)
    requires coeffs != [] && Number(x)
    ensures IsPower(x, SVal(x), 1, coeffs)
  {
    assert Power(SVal(x), 1) == SVal(x) * Power(SVal(x), 0);
  }

  lemma {:induction false} NextTerm(coeffs: seq<string>, x: int, k: nat, p: string)
    requires 0 < k < |coeffs| && InRange(coeffs, x) && IsPower(p, x, k, coeffs)
    ensures Fits(SVal(p)) && Fits(SVal(coeffs[|coeffs| - 1 - k]))
    ensures SVal(p) == Power(x, k)
    ensures Sum(coeffs, x, k) == Sum(coeffs, x, k - 1) + Times(SVal(coeffs[|coeffs| - 1 - k]), SVal(p))
  {
    SmallerPowerFits(x, k, |coeffs| - 1);
    hide Fits;
  }

  /** The digits written behind a minus once the term of the k-th power has been added. */
  ghost function SumWritten(coeffs: seq<string>, x: int, k: nat): nat
    requires 0 < k < |coeffs|
  {
    Written(Sum(coeffs, x, k - 1), Times(SVal(coeffs[|coeffs| - 1 - k]), Power(x, k)))
  }

  /** All terms up to the k-th power, or all there are, and how they are written. */
  ghost predicate Summed(ans: string, coeffs: seq<string>, x: int, k: nat)
    requires coeffs != []
  {
    var m := Min(k, |coeffs| - 1);
    && Number(ans) && (MinusZero(ans) ==> MinusZero(coeffs[|coeffs| - 1])) && (m == 0 ==> ans == coeffs[|coeffs| - 1])
    && (InRange(coeffs, x) ==>
          SVal(ans) == Sum(coeffs, x, m) && (m > 0 && SVal(ans) < 0 ==> |ans| == 1 + SumWritten(coeffs, x, m)))
  }

  /** One turn of the loop over channels. */
  method NextAnswer(coeffs: seq<string>, ans: string, power: string, ghost v: int, k: nat) returns (r: string)
    requires 0 < k < |coeffs| && Number(coeffs[|coeffs| - 1 - k])
    requires Summed(ans, coeffs, v, k - 1) && IsPower(power, v, k, coeffs)
    ensures Summed(r, coeffs, v, k)
  {
    if InRange(coeffs, v) { NextTerm(coeffs, v, k, power); }
    hide SVal, InRange, Power, Fits, Times, Sum, Written, MinusZero;
    r := AddTerm(ans, coeffs[|coeffs| - 1 - k], power);
  }

  lemma SummedAll(ans: string, coeffs: seq<string>, x: int, j: nat, k: nat)
    requires coeffs != [] && Summed(ans, coeffs, x, j) && |coeffs| - 1 <= j && |coeffs| - 1 <= k
    ensures Summed(ans, coeffs, x, k)
  {
  }

  /** The four terms of one turn: those with powers done + 1 to done + 4, as far as there are any. */
  method AddBlock(coeffs: seq<string>, ans: string, powers: seq<string>, j: int, ghost v: int, ghost done: nat)
    returns (r: string)
    requires coeffs != [] && (forall c :: c in coeffs ==> Number(c)) && 0 <= j == |coeffs| - 2 - done
    requires Summed(ans, coeffs, v, done) && |powers| == 4
    requires forall i :: 0 <= i < 4 ==> IsPower(powers[i], v, done + 1 + i, coeffs)
    ensures Summed(r, coeffs, v, done + 4)
  {
    hide Number, Summed, IsPower;
    r := ans;
    for i := 0 to 4
      invariant Summed(r, coeffs, v, done + i)
    {
      if j - i >= 0 {
        r := NextAnswer(coeffs, r, powers[i], v, |coeffs| - 1 - (j - i));
      } else {
        SummedAll(r, coeffs, v, done + i, done + i + 1);
      }
    }
  }

  /** The value is not below zero, or has as many digits as are written behind the minus. */
  ghost predicate Tidy(coeffs: seq<string>, x: int)
    requires |coeffs| > 1
  {
    var n := |coeffs| - 1;
    var v := Sum(coeffs, x, n);
    v >= 0 || DigitCount(Abs(v)) == SumWritten(coeffs, x, n)
  }

  /** One evaluation, four terms at a time. The result is the plain sum of the terms as long as the
      coefficients and the powers of x have at most 1024 digits. Zeros in front are cut off, but never
      behind a minus: the printed number is canonical exactly when the value is not negative or has as
      many digits as the last addition wrote. */
  method Evaluate(coeffs: seq<string>, x: string) returns (ans: string)
    requires coeffs != [] && Number(x) && forall c :: c in coeffs ==> Number(c)
    ensures Number(ans)
    ensures InRange(coeffs, SVal(x)) ==> SVal(ans) == Sum(coeffs, SVal(x), |coeffs| - 1)
    ensures ans[0] != '0' || ans == "0"
    ensures SVal(ans) >= 0 && !MinusZero(coeffs[|coeffs| - 1]) ==> Canonical(ans)
    ensures ans[0] == '-' && |coeffs| == 1 ==> ans == coeffs[0]
    ensures |coeffs| > 1 && InRange(coeffs, SVal(x)) && SVal(ans) < 0 ==>
              |ans| == 1 + SumWritten(coeffs, SVal(x), |coeffs| - 1)
    ensures |coeffs| > 1 && InRange(coeffs, SVal(x)) && !MinusZero(coeffs[|coeffs| - 1]) ==>
              (Canonical(ans) <==> Tidy(coeffs, SVal(x)))
  {
    var n := |coeffs| - 1;
    ghost var v := SVal(x);
    ans := coeffs[n];
    FirstPower(x, coeffs);
    assert Summed(ans, coeffs, v, 0);
    hide Number, SVal, InRange, Power, IsPower, Sum, Summed, SumWritten, Canonical, Tidy, MinusZero;
    var x1 := x;
    var x2 := NextPower(x, x, v, 1, 1, coeffs);
    var x3 := NextPower(x2, x, v, 2, 1, coeffs);
    var x4 := NextPower(x3, x, v, 3, 1, coeffs);
    var x4orig := x4;
    var j := n - 1;
    ghost var done: nat := 0;
    while j >= 0
      invariant j == n - 1 - done && Summed(ans, coeffs, v, done) && IsPower(x4orig, v, 4, coeffs)
      invariant j >= 0 ==> IsPower(x1, v, done + 1, coeffs) && IsPower(x2, v, done + 2, coeffs)
      invariant j >= 0 ==> IsPower(x3, v, done + 3, coeffs) && IsPower(x4, v, done + 4, coeffs)
      decreases j
    {
      ans := AddBlock(coeffs, ans, [x1, x2, x3, x4], j, v, done);
      if j - 4 >= 0 {
        x1 := NextPower(x4orig, x1, v, 4, done + 1, coeffs);
        x2 := NextPower(x4orig, x2, v, 4, done + 2, coeffs);
        x3 := NextPower(x4orig, x3, v, 4, done + 3, coeffs);
        x4 := NextPower(x4orig, x4, v, 4, done + 4, coeffs);
      }
      j := j - 4;
      done := done + 4;
    }
    SummedAll(ans, coeffs, v, done, n);
    NumberOf(ans, coeffs, v, n);
    ghost var sum := ans;
    ans := TrimSigned(ans);
    Answer(sum, ans, coeffs, v);
  }

  lemma NumberOf(ans: string, coeffs: seq<string>, x: int, k: nat)
    requires coeffs != [] && Summed(ans, coeffs, x, k)
    ensures Number(ans)
  {
  }

  lemma Answer(sum: string, ans: string, coeffs: seq<string>, x: int)
    requires coeffs != [] && Summed(sum, coeffs, x, |coeffs| - 1) && Number(ans) && SVal(ans) == SVal(sum)
    requires (ans[0] != '0' || ans == "0") && (sum[0] == '-' || ans[0] == '-' ==> ans == sum)
    ensures InRange(coeffs, x) ==> SVal(ans) == Sum(coeffs, x, |coeffs| - 1)
    ensures SVal(ans) >= 0 && !MinusZero(coeffs[|coeffs| - 1]) ==> Canonical(ans)
    ensures ans[0] == '-' && |coeffs| == 1 ==> ans == coeffs[0]
    ensures |coeffs| > 1 && InRange(coeffs, x) && SVal(ans) < 0 ==> |ans| == 1 + SumWritten(coeffs, x, |coeffs| - 1)
    ensures |coeffs| > 1 && InRange(coeffs, x) && !MinusZero(coeffs[|coeffs| - 1]) ==>
              (Canonical(ans) <==> Tidy(coeffs, x))
  {
    hide Sum, InRange, Written, Power, Val;
    if ans[0] == '-' { ValBounds(ans[1..]); } else { ValBounds(ans); }
    if SVal(ans) < 0 { CanonicalByLength(ans); }
  }

  /** Five plus one times minus twelve is printed as -07. */
  lemma PaddedAnswer()
    ensures var coeffs := ["1", "5"];
      InRange(coeffs, -12) && Sum(coeffs, -12, 1) == -7 && SumWritten(coeffs, -12, 1) == 2 && !Tidy(coeffs, -12)
  {
    var coeffs := ["1", "5"];
    assert "1"[..0] == [] && SVal("1") == 1 && "5"[..0] == [] && SVal("5") == 5;
    assert Power(-12, 1) == -12 * Power(-12, 0) == -12;
    assert Times(1, -12) == -12;
    assert Sum(coeffs, -12, 0) == 5;
    assert Sum(coeffs, -12, 1) == -7;
  }

  function Min(a: nat, b: nat): nat {
    if a < b then a else b
  }

  /** The printed form: no leading zeros, and "0" for zero. */
  method TrimSigned(s: string) returns (r: string)
    requires Number(s)
    ensures Number(r) && SVal(r) == SVal(s) && (r[0] != '0' || r == "0")
    ensures s[0] == '-' || r[0] == '-' ==> r == s
  {
    var rr := LeadingZeroes(s);
    assert rr > 0 ==> s[..rr][0] == '0';
    ZerosVal(1);
    assert Zeros(1) == "0";
    if rr < |s| {
      r := s[rr..];
    } else {
      r := "0";
    }
  }
}
