/** Machine words as natural numbers, with their bits. */
module Words {
  /** Unsigned 32 bit arithmetic wraps around. */
  function U32(x: int): (r: nat)
    ensures r < 0x1_0000_0000
    ensures 0 <= x < 0x1_0000_0000 ==> r == x
  {
    x % 0x1_0000_0000
  }

  predicate Bit(w: nat, i: nat) {
    if i == 0 then w % 2 == 1 else Bit(w / 2, i - 1)
  }

  /** `w | (1 << i)` */
  function SetBit(w: nat, i: nat): nat {
    if i == 0 then w - w % 2 + 1 else w % 2 + 2 * SetBit(w / 2, i - 1)
  }

  /** `w & ~(1 << i)` */
  function ClearBit(w: nat, i: nat): nat {
    if i == 0 then w - w % 2 else w % 2 + 2 * ClearBit(w / 2, i - 1)
  }

  lemma {:induction false} BitOfSet(w: nat, i: nat, j: nat)
    ensures Bit(SetBit(w, i), j) <==> i == j || Bit(w, j)
  {
    if i > 0 {
      assert SetBit(w, i) / 2 == SetBit(w / 2, i - 1);
      if j > 0 {
        BitOfSet(w / 2, i - 1, j - 1);
      }
    }
  }

  lemma {:induction false} BitOfClear(w: nat, i: nat, j: nat)
    ensures Bit(ClearBit(w, i), j) <==> i != j && Bit(w, j)
  {
    if i > 0 {
      assert ClearBit(w, i) / 2 == ClearBit(w / 2, i - 1);
      if j > 0 {
        BitOfClear(w / 2, i - 1, j - 1);
      }
    }
  }

  function Pow2(n: nat): (r: nat)
    ensures r > 0
  {
    if n == 0 then 1 else 2 * Pow2(n - 1)
  }

  /** The bits of `hi << n | lo`. */
  lemma {:induction false} BitsOfPair(lo: nat, hi: nat, n: nat, i: nat)
    requires lo < Pow2(n)
    ensures Bit(lo + Pow2(n) * hi, i) <==> if i < n then Bit(lo, i) else Bit(hi, i - n)
  {
    if n > 0 {
      var w := lo + Pow2(n) * hi;
      assert Pow2(n) * hi == 2 * (Pow2(n - 1) * hi);
      assert w % 2 == lo % 2 && w / 2 == lo / 2 + Pow2(n - 1) * hi;
      if i > 0 {
        BitsOfPair(lo / 2, hi, n - 1, i - 1);
      }
    }
  }
}
