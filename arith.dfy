/** C# 32-bit `int` arithmetic, as the compiled arithmetic nodes and the
    visitor's own negation perform it: unchecked operations wrap modulo 2^32,
    division and remainder truncate toward zero. */
module Arith {

  const MinInt32: int := -0x8000_0000
  const MaxInt32: int := 0x7fff_ffff
  const Modulus: int := 0x1_0000_0000

  /** The values of a C# `int`. */
  type int32 = x: int | -0x8000_0000 <= x <= 0x7fff_ffff

  predicate InRange(x: int) {
    MinInt32 <= x <= MaxInt32
  }

  /** Two's-complement wrap-around of an unchecked C# operation. */
  function Wrap(x: int): (r: int32)
    ensures InRange(x) ==> r == x
    ensures (r - x) % Modulus == 0
  {
    ((x - MinInt32) % Modulus) + MinInt32
  }

  function Abs(x: int): nat {
    if x < 0 then -x else x
  }

  /** C#'s `/` on integers: the quotient rounded toward zero. */
  function TruncDiv(a: int, b: int): (q: int)
    requires b != 0
    ensures Abs(q) <= Abs(a)
    ensures (a < 0) == (b < 0) ==> q >= 0
    ensures (a < 0) != (b < 0) ==> q <= 0
    ensures Abs(a) < Abs(b) ==> q == 0
  {
    DivBound(Abs(a), Abs(b));
    var q := Abs(a) / Abs(b);
    if (a < 0) == (b < 0) then q else -q
  }

  /** C#'s `%` on integers: the remainder takes the sign of the dividend. */
  function TruncMod(a: int, b: int): (r: int)
    requires b != 0
    ensures Abs(r) < Abs(b) && Abs(r) <= Abs(a)
    ensures a >= 0 ==> r >= 0
    ensures a < 0 ==> r <= 0
    ensures Abs(a) < Abs(b) ==> r == a
  {
    ModBound(Abs(a), Abs(b));
    var r := Abs(a) % Abs(b);
    if a < 0 then -r else r
  }

  /** The truncating quotient and remainder recompose the dividend, the
      remainder is smaller than the divisor in magnitude and has the sign of
      the dividend, and the quotient is the Euclidean one on magnitudes. */
  lemma TruncDivMod(a: int, b: int)
    requires b != 0
    ensures a == b * TruncDiv(a, b) + TruncMod(a, b)
    ensures Abs(TruncMod(a, b)) < Abs(b)
    ensures a >= 0 ==> TruncMod(a, b) >= 0
    ensures a < 0 ==> TruncMod(a, b) <= 0
    ensures Abs(TruncDiv(a, b)) == Abs(a) / Abs(b)
  {
    var A: int, B: int := Abs(a), Abs(b);
    var q: int, r: int := A / B, A % B;
    var p := B * q;
    assert A == p + r && 0 <= r < B;
    DivBound(A, B);
    ProductOfSigns(a, b, q, p);
  }

  /** Truncating division of two `int`s stays an `int`, except for the one
      quotient 2^31 of MinInt32 by -1. */
  lemma TruncDivInRange(a: int32, b: int32)
    requires b != 0 && !(a == MinInt32 && b == -1)
    ensures InRange(TruncDiv(a, b))
  {
    DivBound(Abs(a), Abs(b));
  }

  /** The truncating remainder of two `int`s is an `int`. */
  lemma TruncModInRange(a: int32, b: int32)
    requires b != 0
    ensures InRange(TruncMod(a, b))
  {
  }

  lemma ProductOfSigns(a: int, b: int, q: int, p: int)
    requires b != 0 && p == Abs(b) * q
    ensures b * (if (a < 0) == (b < 0) then q else -q) == (if a < 0 then -p else p)
  {
    var B: int := Abs(b);
    SignedProducts(B, q);
    if b < 0 {
      assert b == -B;
    } else {
      assert b == B;
    }
  }

  lemma DivBound(a: int, b: int)
    requires a >= 0 && b >= 1
    ensures 0 <= a / b <= a
    ensures b >= 2 ==> 2 * (a / b) <= a
  {
    var q, r := a / b, a % b;
    assert a == b * q + r && 0 <= r < b;
    assert q >= 0 by {
      if q < 0 { MulNegative(b, q); }
    }
    MulAtLeast(b, q, 1);
    if b >= 2 { MulAtLeast(b, q, 2); }
  }

  lemma ModBound(a: int, b: int)
    requires a >= 0 && b >= 1
    ensures 0 <= a % b < b && a % b <= a
    ensures a < b ==> a % b == a
  {
    var q, r := a / b, a % b;
    assert a == b * q + r;
    DivBound(a, b);
    MulAtLeast(b, q, 0);
    if a < b {
      assert q == 0 by {
        if q >= 1 { MulAtLeast(b, q, 1); MulAtLeast(q, b, 1); }
      }
    }
  }

  lemma SignedProducts(x: int, y: int)
    ensures (-x) * y == -(x * y) && x * (-y) == -(x * y) && (-x) * (-y) == x * y
  {
  }

  lemma MulNegative(b: int, q: int)
    requires b >= 1 && q <= -1
    ensures b * q <= -b
  {
  }

  lemma MulAtLeast(b: int, q: int, k: int)
    requires q >= 0 && b >= k
    ensures b * q >= k * q
  {
  }
}
