/** Shift-subtract division (ext/uspi/env/lib/libhelper.c). */
module Division {
  import opened Words

  const U64 := 0x1_0000_0000_0000_0000

  /** 64 bit left shift by one. */
  function Shl64(x: nat): nat { 2 * x % U64 }

  /** One turn of the second loop: with the divisor shifted to `d`, one more digit of the quotient. */
  lemma Digit(dividend: nat, q: nat, n: nat, d: nat)
    requires dividend < 0x1_0000_0000 && d > 0 && q * (2 * d) + n == dividend && n < 2 * d
    ensures U32(2 * q) == 2 * q
    ensures n >= d ==> (2 * q + 1) * d + (n - d) == dividend
    ensures n < d ==> 2 * q * d + n == dividend
  {
    assert q * (2 * d) == 2 * q * d;
    assert (2 * q + 1) * d == 2 * q * d + d;
    assert 2 * q * d == 2 * q + 2 * q * (d - 1);
    assert 2 * q * (d - 1) >= 0;
  }

  function Shifted(divisor: nat, k: nat): (r: nat)
    ensures r >= divisor
  {
    if k == 0 then divisor else 2 * Shifted(divisor, k - 1)
  }

  /** The quotient and the rest are those of integer division, although the divisor is shifted until it is not
      less than the dividend, so that one digit more than necessary may be produced. Neither the 64 bit shift
      nor the 32 bit quotient overflows. Division by zero is an error of the caller. */
  method Divide(dividend: nat, divisor: nat) returns (quotient: nat, rest: nat)
    requires dividend < 0x1_0000_0000 && 0 < divisor < 0x1_0000_0000
    ensures quotient * divisor + rest == dividend && rest < divisor
  {
    var n: nat, d: nat, count: nat := dividend, divisor, 1;
    while n > d
      invariant count >= 1 && d == Shifted(divisor, count - 1) && d < 0x2_0000_0000 && d > 0
      decreases n - d
    {
      d := Shl64(d);
      count := count + 1;
    }
    quotient := 0;
    ghost var top: nat := 2 * d;      // what the quotient found so far counts for
    while count > 0
      invariant quotient * top + n == dividend && n < top && top > 0
      invariant if count > 0 then top == 2 * d && d == Shifted(divisor, count - 1) && d > 0 else top == divisor
    {
      count := count - 1;
      Digit(dividend, quotient, n, d);
      quotient := U32(2 * quotient);
      if n >= d {
        quotient := quotient + 1;
        n := n - d;
      }
      top := d;
      d := d / 2;
    }
    rest := n;
  }
}
