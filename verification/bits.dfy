/** Java's bitwise `|` on non-negative values and on 32-bit ints, for the
    places where the two operands' bit fields may overlap. */
module Bits {
  import opened Bytes

  function Pow2(n: nat): (r: nat)
    ensures r >= 1
    ensures n >= 1 ==> r % 2 == 0
  {
    if n == 0 then 1 else 2 * Pow2(n - 1)
  }

  /** Bitwise or of two naturals, one bit at a time from the least
      significant end. */
  function BitOr(a: nat, b: nat): (r: nat)
    ensures a <= r <= a + b && b <= r
    decreases a + b
  {
    if a == 0 then b
    else if b == 0 then a
    else 2 * BitOr(a / 2, b / 2) + (if a % 2 == 1 || b % 2 == 1 then 1 else 0)
  }

  /** Or-ing two values of `n` bits gives a value of `n` bits. */
  lemma {:induction false} OrBelow(a: nat, b: nat, n: nat)
    requires a < Pow2(n) && b < Pow2(n)
    ensures BitOr(a, b) < Pow2(n)
    decreases n
  {
    if a != 0 && b != 0 {
      assert n >= 1;
      OrBelow(a / 2, b / 2, n - 1);
    }
  }

  /** When the low operand fits below bit `n` and the high operand has its
      lowest `n` bits clear, or-ing them is adding them. */
  lemma {:induction false} OrDisjoint(h: nat, l: nat, n: nat)
    requires l < Pow2(n)
    ensures BitOr(h * Pow2(n), l) == h * Pow2(n) + l
    decreases n
  {
    if n > 0 && h != 0 && l != 0 {
      var a := h * Pow2(n);
      assert a == 2 * (h * Pow2(n - 1));
      assert a / 2 == h * Pow2(n - 1) && a % 2 == 0;
      OrDisjoint(h, l / 2, n - 1);
    }
  }

  /** The `|` of two Java ints: the or of their 32-bit patterns. */
  function JavaOr(a: int32, b: int32): (r: int32)
    ensures 0 <= a && 0 <= b ==> 0 <= r
  {
    var ua := Unsigned(a, 0x1_0000_0000);
    var ub := Unsigned(b, 0x1_0000_0000);
    Pow2Value();
    OrBelow(ua, ub, 32);
    assert 0 <= a && 0 <= b ==> BitOr(ua, ub) < 0x8000_0000 by {
      if 0 <= a && 0 <= b {
        OrBelow(ua, ub, 31);
      }
    }
    Signed(BitOr(ua, ub), 0x1_0000_0000)
  }

  lemma Pow2Value()
    ensures Pow2(8) == 0x100
    ensures Pow2(31) == 0x8000_0000
    ensures Pow2(32) == 0x1_0000_0000
  {
    assert Pow2(7) == 0x80;
    Pow2Add(8, 8);
    Pow2Add(16, 8);
    Pow2Add(24, 7);
    Pow2Add(24, 8);
  }

  lemma {:induction false} Pow2Add(a: nat, b: nat)
    ensures Pow2(a + b) == Pow2(a) * Pow2(b)
    decreases b
  {
    if b > 0 {
      Pow2Add(a, b - 1);
      Double(Pow2(a), Pow2(b - 1));
    }
  }

  /** Doubling one factor doubles the product. */
  lemma Double(p: int, q: int)
    ensures p * (2 * q) == 2 * (p * q)
  {
  }
}
