/**
 * The parts of ECMAScript number semantics the player's integer code relies
 * on: ToInt32 (the operand and result conversion of `<<` and `|`), ToUint32
 * (the result of `>>> 0`) and the left shift, whose count is taken modulo
 * 32. Values are unbounded integers; the wrap-around is written out.
 */
module JsInt {
  const TWO_31: int := 0x8000_0000
  const TWO_32: int := 0x1_0000_0000

  function Pow2(n: nat): (r: nat)
    ensures r >= 1
  {
    if n == 0 then 1 else 2 * Pow2(n - 1)
  }

  lemma {:induction false} Pow2Monotone(m: nat, n: nat)
    requires m <= n
    ensures Pow2(m) <= Pow2(n)
    decreases n
  {
    if m < n {
      Pow2Monotone(m, n - 1);
    }
  }

  lemma {:induction false} Pow2Add(m: nat, n: nat)
    ensures Pow2(m + n) == Pow2(m) * Pow2(n)
    decreases n
  {
    if n > 0 {
      Pow2Add(m, n - 1);
    }
  }

  lemma Pow2Values()
    ensures Pow2(8) == 0x100 && Pow2(16) == 0x1_0000 && Pow2(24) == 0x100_0000
    ensures Pow2(27) == 0x800_0000 && Pow2(28) == 0x1000_0000 && Pow2(31) == 0x8000_0000
  {
    assert Pow2(8) == 0x100;
    Pow2Add(8, 8);
    Pow2Add(16, 8);
    Pow2Add(24, 3);
    Pow2Add(24, 4);
    Pow2Add(24, 7);
  }

  /** ECMAScript ToInt32: the integer congruent modulo 2^32 in [-2^31, 2^31). */
  function ToInt32(x: int): (r: int)
    ensures -TWO_31 <= r < TWO_31
    ensures -TWO_31 <= x < TWO_31 ==> r == x
  {
    var m := x % TWO_32;
    if m >= TWO_31 then m - TWO_32 else m
  }

  /** ECMAScript ToUint32, the result of `x >>> 0`: the integer congruent modulo 2^32 in [0, 2^32). */
  function ToUint32(x: int): (r: int)
    ensures 0 <= r < TWO_32
    ensures 0 <= x < TWO_32 ==> r == x
  {
    x % TWO_32
  }

  /** JavaScript `a << b` for a non-negative `b`: the count is taken modulo 32. */
  function JsShiftLeft(a: int, b: nat): (r: int)
    ensures -TWO_31 <= r < TWO_31
  {
    ToInt32(ToInt32(a) * Pow2(b % 32))
  }

  /** Both conversions keep the value modulo 2^32, and agree modulo 2^32 with each other. */
  lemma WrapIsCongruent(x: int)
    ensures (x - ToInt32(x)) % TWO_32 == 0
    ensures (x - ToUint32(x)) % TWO_32 == 0
    ensures ToUint32(ToInt32(x)) == ToUint32(x)
  {
    var m := x % TWO_32;
    assert x == (x / TWO_32) * TWO_32 + m;
    if m >= TWO_31 {
      assert (m - TWO_32) % TWO_32 == m;
    }
  }
}
