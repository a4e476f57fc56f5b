/** Number conversion (`ntoa` in ext/uspi/lib/string.c). */
module Digits {
  import opened Arithmetic

  const MAX_NUMBER_LEN := 11
  const WORD := 0x1_0000_0000

  function Pow(b: nat, k: nat): (r: nat)
    ensures b > 0 ==> r > 0
  {
    if k == 0 then 1
    else
      assert b > 0 ==> b * Pow(b, k - 1) > 0;
      b * Pow(b, k - 1)
  }

  /** The number a string of digits stands for. */
  function Value(ds: seq<nat>, base: nat): nat {
    if ds == [] then 0 else base * Value(ds[..|ds|-1], base) + ds[|ds|-1]
  }

  /** Digits of the base, without a leading zero. */
  predicate Numeral(ds: seq<nat>, base: nat) {
    ds != [] && (|ds| > 1 ==> ds[0] != 0) && forall i :: 0 <= i < |ds| ==> ds[i] < base
  }

  lemma Smaller(n: nat, base: nat)
    requires base >= 2 && n >= base
    ensures 0 < n / base < n
  {
    var q := n / base;
    assert n == base * q + n % base;
    assert base * q == 2 * q + (base - 2) * q;
    assert (base - 2) * q >= 0;
  }

  /** The numeral of a number. */
  function NumeralOf(n: nat, base: nat): seq<nat>
    requires base >= 2
    decreases n
  {
    if n < base then [n] else (Smaller(n, base); NumeralOf(n / base, base)) + [n % base]
  }

  lemma AppendDigit(ds: seq<nat>, d: nat, base: nat)
    requires Numeral(ds, base) && ds[0] != 0 && d < base
    ensures Numeral(ds + [d], base) && Value(ds + [d], base) == base * Value(ds, base) + d
  {
    assert (ds + [d])[..|ds|] == ds;
  }

  /** The numeral of `n` stands for `n` and has no leading zero. */
  lemma {:induction false} NumeralIsRight(n: nat, base: nat)
    requires base >= 2
    ensures Numeral(NumeralOf(n, base), base) && Value(NumeralOf(n, base), base) == n
    ensures n > 0 ==> NumeralOf(n, base)[0] != 0
    decreases n
  {
    if n < base {
      assert [n][..0] == [];
      assert base * Value([], base) == 0;
    } else {
      var q, r := n / base, n % base;
      assert n == base * q + r;
      Smaller(n, base);
      NumeralIsRight(q, base);
      AppendDigit(NumeralOf(q, base), r, base);
      assert NumeralOf(n, base) == NumeralOf(q, base) + [r];
    }
  }

  lemma {:induction false} LeadingDigit(ds: seq<nat>, base: nat)
    requires base >= 2 && ds != [] && ds[0] != 0
    ensures Value(ds, base) > 0 && (|ds| > 1 ==> Value(ds, base) >= base)
    decreases |ds|
  {
    if |ds| > 1 {
      LeadingDigit(ds[..|ds|-1], base);
      AtLeast(base, Value(ds[..|ds|-1], base));
    } else {
      assert ds[..0] == [];
    }
  }

  /** A numeral that stands for `n` is the numeral of `n`: digits parse back to one number only. */
  lemma {:induction false} NumeralUnique(ds: seq<nat>, base: nat, n: nat)
    requires base >= 2 && Numeral(ds, base) && Value(ds, base) == n
    ensures ds == NumeralOf(n, base)
    decreases |ds|
  {
    var k := |ds| - 1;
    var front := ds[..k];
    DivMod(n, base, Value(front, base), ds[k]);
    if k == 0 {
      assert front == [] && ds == [ds[0]];
    } else {
      LeadingDigit(ds, base);
      NumeralUnique(front, base, Value(front, base));
      assert ds == front + [ds[k]];
    }
  }

  // ----- The algorithm ------------------------------------------------------------------------------------

  /** Digits found from the most significant end: `k` is the exponent of the divisor. */
  function FromTop(n: nat, base: nat, k: nat): seq<nat>
    requires base >= 2
  {
    if k == 0 then [n] else [n / Pow(base, k)] + FromTop(n % Pow(base, k), base, k - 1)
  }

  lemma {:induction false} ValuePrepend(d: nat, ds: seq<nat>, base: nat)
    ensures Value([d] + ds, base) == d * Pow(base, |ds|) + Value(ds, base)
    decreases |ds|
  {
    if ds == [] {
      assert [d] + ds == [d] && [d][..0] == [];
      assert base * 0 == 0;
    } else {
      var k := |ds| - 1;
      ValuePrepend(d, ds[..k], base);
      assert ([d] + ds)[..k+1] == [d] + ds[..k];
      Distribute(base, d, Pow(base, k), Value(ds[..k], base));
    }
  }

  lemma Distribute(b: nat, d: nat, p: nat, v: nat)
    ensures b * (d * p + v) == d * (b * p) + b * v
  {}

  lemma {:induction false} FromTopValue(n: nat, base: nat, k: nat)
    requires base >= 2 && n < base * Pow(base, k)
    ensures |FromTop(n, base, k)| == k + 1 && Value(FromTop(n, base, k), base) == n
    ensures forall i :: 0 <= i <= k ==> FromTop(n, base, k)[i] < base
    ensures FromTop(n, base, k)[0] == n / Pow(base, k)
    decreases k
  {
    if k == 0 {
      assert [n][..0] == [];
      assert base * 0 == 0;
    } else {
      var p := Pow(base, k);
      QuotientBelow(n, p, base);
      FromTopStep(n / p, n % p, base, k);
    }
  }

  lemma {:induction false} FromTopStep(d: nat, r: nat, base: nat, k: nat)
    requires base >= 2 && k > 0 && d < base && r < Pow(base, k)
    ensures var ds := [d] + FromTop(r, base, k - 1);
            && |ds| == k + 1 && Value(ds, base) == d * Pow(base, k) + r && forall i :: 0 <= i <= k ==> ds[i] < base
    decreases k, 0
  {
    FromTopValue(r, base, k - 1);
    ValuePrepend(d, FromTop(r, base, k - 1), base);
  }

  lemma QuotientBelow(n: nat, p: nat, base: nat)
    requires p > 0 && n < base * p
    ensures n / p < base && n / p * p + n % p == n
  {
    DivBelow(n, p, base);
  }

  lemma QuotientPositive(n: nat, p: nat)
    requires 0 < p <= n
    ensures n / p > 0
  {
    DivBelow(n, p, 1);
  }

  /** What `ntoa` finds is the numeral, when the divisor is the largest power that does not exceed the number. */
  lemma FromTopIsNumeral(n: nat, base: nat, k: nat)
    requires base >= 2 && n < base * Pow(base, k) && (k > 0 ==> Pow(base, k) <= n)
    ensures FromTop(n, base, k) == NumeralOf(n, base)
  {
    FromTopValue(n, base, k);
    if k > 0 {
      QuotientPositive(n, Pow(base, k));
    }
    NumeralUnique(FromTop(n, base, k), base, n);
  }

  function DigitChar(d: nat, upcase: bool): char
    requires d < 36
  {
    if d < 10 then (48 + d) as char else (48 + d + 7 + (if upcase then 0 else 32)) as char
  }

  function Text(ds: seq<nat>, upcase: bool): (t: seq<char>)
    requires forall i :: 0 <= i < |ds| ==> ds[i] < 36
    ensures |t| == |ds| && forall i :: 0 <= i < |ds| ==> t[i] == DigitChar(ds[i], upcase) && t[i] != '\0'
  {
    seq(|ds|, i requires 0 <= i < |ds| => DigitChar(ds[i], upcase))
  }

  /** The text of a number. */
  function NumberText(n: nat, base: nat, upcase: bool): (t: seq<char>)
    requires 2 <= base <= 36
    ensures t != [] && forall i :: 0 <= i < |t| ==> t[i] != '\0'
  {
    NumeralIsRight(n, base);
    Text(NumeralOf(n, base), upcase)
  }

  // ----- Reading the text of a number ---------------------------------------------------------------------

  function ReadDigit(c: char): nat {
    if '0' <= c <= '9' then c as int - '0' as int
    else if 'a' <= c <= 'z' then c as int - 'a' as int + 10
    else if 'A' <= c <= 'Z' then c as int - 'A' as int + 10
    else 36
  }

  /** The number that a text in some base stands for, from left to right. */
  function ReadNumber(t: seq<char>, base: nat): nat {
    if t == [] then 0 else base * ReadNumber(t[..|t|-1], base) + ReadDigit(t[|t|-1])
  }

  lemma {:induction false} TextReads(ds: seq<nat>, base: nat, upcase: bool)
    requires forall i :: 0 <= i < |ds| ==> ds[i] < 36
    ensures ReadNumber(Text(ds, upcase), base) == Value(ds, base)
    decreases |ds|
  {
    if ds != [] {
      var n := |ds| - 1;
      TextReads(ds[..n], base, upcase);
      assert Text(ds, upcase)[..n] == Text(ds[..n], upcase);
    }
  }

  /** The text of a number reads back as the number, has no leading zero, and its letters have the case asked for. */
  lemma NumberReads(n: nat, base: nat, upcase: bool)
    requires 2 <= base <= 36
    ensures var t := NumberText(n, base, upcase);
            && t != [] && ReadNumber(t, base) == n && (|t| > 1 ==> t[0] != '0')
            && (forall i :: 0 <= i < |t| ==> ReadDigit(t[i]) < base && ('0' <= t[i] <= '9' || (if upcase then 'A' <= t[i] <= 'Z' else 'a' <= t[i] <= 'z')))
  {
    NumeralIsRight(n, base);
    TextReads(NumeralOf(n, base), base, upcase);
  }

  /** Numbers of 32 bits need at most 11 digits in base 8 or more; in general the buffer suffices exactly below
      the 11th power of the base. */
  lemma {:induction false} LengthExactly(n: nat, base: nat, k: nat)
    requires base >= 2 && k > 0
    ensures |NumeralOf(n, base)| <= k <==> n < Pow(base, k)
    decreases k
  {
    if k == 1 {
      assert Pow(base, 1) == base * Pow(base, 0) == base;
      if n >= base {
        Smaller(n, base);
        NumeralIsRight(n / base, base);
      }
    } else if n >= base {
      LengthExactly(n / base, base, k - 1);
      DivBelow(n, base, Pow(base, k - 1));
    } else {
      PowGrows(base, k);
    }
  }

  lemma {:induction false} PowGrows(base: nat, k: nat)
    requires base >= 2 && k > 0
    ensures Pow(base, k) >= base
    decreases k
  {
    if k > 1 {
      PowGrows(base, k - 1);
      AtLeast(base, Pow(base, k - 1));
    } else {
      assert Pow(base, 1) == base * Pow(base, 0);
    }
  }

  lemma DivBelow(n: nat, base: nat, p: nat)
    requires base > 0
    ensures n / base < p <==> n < base * p
  {
    var q, r := n / base, n % base;
    assert n == base * q + r;
    if q < p {
      assert base * p == base * q + base * (p - q);
      AtLeast(base, p - q);
    } else {
      assert base * q == base * p + base * (q - p);
      assert base * (q - p) >= 0;
    }
  }

  lemma FitsNumBuf(n: nat, base: nat)
    requires n < WORD && 8 <= base
    ensures |NumeralOf(n, base)| <= MAX_NUMBER_LEN
  {
    LengthExactly(n, base, MAX_NUMBER_LEN);
    PowMonotone(base, MAX_NUMBER_LEN);
    assert Pow(8, 11) == 0x2_0000_0000 by { assert Pow(8, 4) == 4096; assert Pow(8, 8) == 16777216; }
  }

  lemma {:induction false} PowMonotone(base: nat, k: nat)
    requires 8 <= base
    ensures Pow(8, k) <= Pow(base, k)
    decreases k
  {
    if k > 0 {
      PowMonotone(base, k - 1);
      Product(8, base, Pow(8, k - 1), Pow(base, k - 1));
    }
  }

  lemma Product(a: nat, b: nat, x: nat, y: nat)
    requires a <= b && x <= y
    ensures a * x <= b * y
  {
    assert b * y == a * x + a * (y - x) + (b - a) * y;
    assert a * (y - x) >= 0 && (b - a) * y >= 0;
  }
}
