/** Python's bitwise operators on (unbounded) integers, defined bit by bit.
    Python integers behave as infinite two's-complement bit strings, so for an
    integer `x` and a non-negative mask `m`, `x & m` is obtained by peeling off
    the lowest bit of both (`x % 2`, with `x / 2` rounding towards minus
    infinity, which is what Dafny's `/` and `%` do for a positive divisor).
    `>>` on a non-negative value is division by a power of two. */
module Bits {

  function Pow2(n: nat): (r: nat)
    ensures r >= 1
  {
    if n == 0 then 1 else 2 * Pow2(n - 1)
  }

  /** `x & m` for any integer `x` and a non-negative mask `m`. The recursion is
      on `m` alone; `x` is listed in the decreases clause as well so that a
      literal mask applied to an unknown value is unfolded only as far as a proof
      asks, not bit by bit to its full width. */
  function And(x: int, m: nat): (r: nat)
    decreases m, x
  {
    if m == 0 then 0 else 2 * And(x / 2, m / 2) + (if x % 2 == 1 && m % 2 == 1 then 1 else 0)
  }

  /** `x | y` for non-negative integers. */
  function Or(x: nat, y: nat): (r: nat)
    decreases x + y
  {
    if x == 0 then y
    else if y == 0 then x
    else 2 * Or(x / 2, y / 2) + (if x % 2 == 1 || y % 2 == 1 then 1 else 0)
  }

  /** `x ^ y` for non-negative integers. */
  function Xor(x: nat, y: nat): (r: nat)
    decreases x + y
  {
    if x == 0 then y
    else if y == 0 then x
    else 2 * Xor(x / 2, y / 2) + (if x % 2 != y % 2 then 1 else 0)
  }

  /** Bit `i` of `x` in two's complement: 0 or 1. */
  function Bit(x: int, i: nat): (b: int)
    ensures b == 0 || b == 1
  {
    (x / Pow2(i)) % 2
  }

  // ---------------------------------------------------------------------------
  // Euclidean division facts

  lemma DivModUnique(y: int, d: int, q: int, r: int)
    requires 0 < d && 0 <= r < d && y == d * q + r
    ensures y / d == q && y % d == r
  {
    var q0, r0 := y / d, y % d;
    assert y == d * q0 + r0;
    if q0 > q {
      MulAtLeast(d, q0 - q);
    } else if q0 < q {
      MulAtLeast(d, q - q0);
    }
  }

  lemma MulAtLeast(d: int, k: int)
    requires d > 0 && k >= 1
    ensures d * k >= d
  {
  }

  /** Dividing by `2 * p` is halving and then dividing by `p`. */
  lemma DivModTwice(y: int, p: int)
    requires p > 0
    ensures y / (2 * p) == (y / 2) / p
    ensures y % (2 * p) == 2 * ((y / 2) % p) + y % 2
  {
    var h, r1 := y / 2, y % 2;
    var q, r2 := h / p, h % p;
    assert y == 2 * h + r1;
    assert h == p * q + r2;
    assert y == (2 * p) * q + (2 * r2 + r1);
    DivModUnique(y, 2 * p, q, 2 * r2 + r1);
  }

  /** Bit `i + 1` of `y` is bit `i` of `y / 2`. */
  lemma BitHalf(y: int, i: nat)
    ensures Bit(y, i + 1) == Bit(y / 2, i)
  {
    DivModTwice(y, Pow2(i));
  }

  lemma BitZero(i: nat)
    ensures Bit(0, i) == 0
  {
  }

  // ---------------------------------------------------------------------------
  // Masks: what `x & (2^w - 1)` and `(x & mask) >> s` compute

  /** Masking with `w` low one-bits reduces modulo `2^w`, for negative `x` too. */
  lemma {:induction false} AndLowMask(x: int, w: nat)
    ensures And(x, Pow2(w) - 1) == x % Pow2(w)
    decreases w
  {
    if w > 0 {
      var p := Pow2(w - 1);
      assert (Pow2(w) - 1) / 2 == p - 1 && (Pow2(w) - 1) % 2 == 1;
      AndLowMask(x / 2, w - 1);
      DivModTwice(x, p);
    }
  }

  /** `k << s`. */
  function Shl(k: int, s: nat): (r: int)
    decreases s
  {
    if s == 0 then k else 2 * Shl(k, s - 1)
  }

  /** `x >> s`: floor division by `2^s`, one bit at a time (`x` is in the
      decreases clause for the same reason as in `And`). */
  function Shr(x: int, s: nat): (r: int)
    decreases s, x
  {
    if s == 0 then x else Shr(x / 2, s - 1)
  }

  lemma {:induction false} ShrIsDiv(x: int, s: nat)
    ensures Shr(x, s) == x / Pow2(s)
    decreases s
  {
    if s > 0 {
      ShrIsDiv(x / 2, s - 1);
      DivModTwice(x, Pow2(s - 1));
    }
  }

  lemma {:induction false} ShrShl(y: int, s: nat)
    ensures Shr(Shl(y, s), s) == y
    decreases s
  {
    if s > 0 {
      ShrShl(y, s - 1);
      ShrOfDouble(Shl(y, s - 1), s - 1);
    }
  }

  lemma ShrOfDouble(y: int, s: nat)
    ensures Shr(2 * y, s + 1) == Shr(y, s)
  {
    assert (2 * y) / 2 == y;
  }

  lemma AndEven(x: int, j: nat)
    ensures And(x, 2 * j) == 2 * And(x / 2, j)
  {
    if j > 0 {
      assert (2 * j) / 2 == j && (2 * j) % 2 == 0;
    }
  }

  /** A mask shifted left by `s` selects the same bits of `x >> s`, shifted back. */
  lemma {:induction false} AndShiftedMask(x: int, k: nat, s: nat)
    ensures Shl(k, s) >= 0
    ensures And(x, Shl(k, s)) == Shl(And(Shr(x, s), k), s)
    decreases s
  {
    if s > 0 {
      AndShiftedMask(x / 2, k, s - 1);
      AndEven(x, Shl(k, s - 1));
    }
  }

  /** `(x & ((2^w - 1) << s)) >> s` is the `w`-bit field of `x` that starts at bit `s`. */
  lemma MaskedField(x: int, w: nat, s: nat)
    ensures Shl(Pow2(w) - 1, s) >= 0
    ensures Shr(And(x, Shl(Pow2(w) - 1, s)), s) == (x / Pow2(s)) % Pow2(w)
  {
    AndShiftedMask(x, Pow2(w) - 1, s);
    ShrShl(And(Shr(x, s), Pow2(w) - 1), s);
    AndLowMask(Shr(x, s), w);
    ShrIsDiv(x, s);
  }

  /** Or-ing a value into bits that are all zero is addition. */
  lemma {:induction false} OrDisjoint(a: nat, b: nat, w: nat)
    ensures b < Pow2(w) ==> Or(a * Pow2(w), b) == a * Pow2(w) + b
    decreases w
  {
    if w > 0 && b < Pow2(w) && a > 0 && b > 0 {
      var p := Pow2(w - 1);
      var ap := a * p;
      assert a * Pow2(w) == 2 * ap;
      assert (2 * ap) / 2 == ap && (2 * ap) % 2 == 0;
      assert Or(2 * ap, b) == 2 * Or(ap, b / 2) + b % 2;
      OrDisjoint(a, b / 2, w - 1);
    }
  }

  /** Xor with `w` one-bits complements a `w`-bit value. */
  lemma {:induction false} XorAllOnes(x: nat, w: nat)
    ensures x < Pow2(w) ==> Xor(x, Pow2(w) - 1) == Pow2(w) - 1 - x
    decreases w
  {
    if w > 0 && x < Pow2(w) && x > 0 {
      var p := Pow2(w - 1);
      assert (Pow2(w) - 1) / 2 == p - 1 && (Pow2(w) - 1) % 2 == 1;
      assert Pow2(w) - 1 != 0;
      XorAllOnes(x / 2, w - 1);
    }
  }

  // ---------------------------------------------------------------------------
  // The operators bit by bit: the reference meaning of &, | and ^

  lemma {:induction false} AndBit(x: int, m: nat, i: nat)
    ensures Bit(And(x, m), i) == if Bit(x, i) == 1 && Bit(m, i) == 1 then 1 else 0
    decreases i
  {
    if m == 0 {
      BitZero(i);
    } else if i == 0 {
      assert Bit(And(x, m), 0) == And(x, m) % 2;
    } else {
      BitHalf(And(x, m), i - 1);
      BitHalf(x, i - 1);
      BitHalf(m, i - 1);
      assert And(x, m) / 2 == And(x / 2, m / 2);
      AndBit(x / 2, m / 2, i - 1);
    }
  }

  lemma {:induction false} OrBit(x: nat, y: nat, i: nat)
    ensures Bit(Or(x, y), i) == if Bit(x, i) == 1 || Bit(y, i) == 1 then 1 else 0
    decreases i
  {
    if x == 0 || y == 0 {
      BitZero(i);
    } else if i == 0 {
      assert Bit(Or(x, y), 0) == Or(x, y) % 2;
    } else {
      BitHalf(Or(x, y), i - 1);
      BitHalf(x, i - 1);
      BitHalf(y, i - 1);
      assert Or(x, y) / 2 == Or(x / 2, y / 2);
      OrBit(x / 2, y / 2, i - 1);
    }
  }

  lemma {:induction false} XorBit(x: nat, y: nat, i: nat)
    ensures Bit(Xor(x, y), i) == if Bit(x, i) != Bit(y, i) then 1 else 0
    decreases i
  {
    if x == 0 || y == 0 {
      BitZero(i);
    } else if i == 0 {
      assert Bit(Xor(x, y), 0) == Xor(x, y) % 2;
    } else {
      BitHalf(Xor(x, y), i - 1);
      BitHalf(x, i - 1);
      BitHalf(y, i - 1);
      assert Xor(x, y) / 2 == Xor(x / 2, y / 2);
      XorBit(x / 2, y / 2, i - 1);
    }
  }
}
