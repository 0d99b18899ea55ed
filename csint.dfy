/**
 * C# `int` and `uint` arithmetic on Dafny's unbounded integers: unchecked
 * two's-complement wrap-around and division truncating toward zero.
 */
module CsInt {

  const MinInt: int := -0x8000_0000
  const MaxInt: int := 0x7fff_ffff
  const MaxUInt: int := 0xffff_ffff
  const Modulus: int := 0x1_0000_0000

  predicate IsInt(x: int) { MinInt <= x <= MaxInt }

  predicate IsUInt(x: int) { 0 <= x <= MaxUInt }

  function Abs(x: int): nat { if x < 0 then -x else x }

  /** The 32-bit two's-complement value an unchecked C# operation leaves. */
  function Wrap(x: int): (r: int)
    ensures IsInt(r)
    ensures IsInt(x) ==> r == x
  {
    (x - MinInt) % Modulus + MinInt
  }

  /** Wrapping changes a value by a multiple of 2^32. */
  lemma WrapMod(x: int)
    ensures (Wrap(x) - x) % Modulus == 0
  {
  }

  /** `a / b` on C# integers: the quotient is truncated toward zero. */
  function TruncDiv(a: int, b: int): int
    requires b != 0
  {
    var m := Abs(a) / Abs(b);
    if (a < 0) == (b < 0) then m else -m
  }

  /** The remainder of a truncated division is smaller than the divisor and has the dividend's sign. */
  lemma TruncDivRemainder(a: int, b: int)
    requires b != 0
    ensures var q := TruncDiv(a, b); Abs(a - q * b) < Abs(b)
    ensures var q := TruncDiv(a, b); a - q * b == 0 || (a - q * b < 0 <==> a < 0)
  {
    var m := Abs(a) / Abs(b);
    TruncRemainder(a, b, m, TruncDiv(a, b));
  }

  /** The remainder of the truncated quotient is that of the magnitudes, with the dividend's sign. */
  lemma TruncRemainder(a: int, b: int, m: int, q: int)
    requires b != 0 && m == Abs(a) / Abs(b) && q == (if (a < 0) == (b < 0) then m else -m)
    ensures a - q * b == (if a < 0 then -(Abs(a) - m * Abs(b)) else Abs(a) - m * Abs(b))
    ensures 0 <= Abs(a) - m * Abs(b) < Abs(b)
  {
    QuotientFacts(Abs(a), Abs(b));
    if b < 0 {
      assert q * b == -q * Abs(b);
    } else {
      assert q * b == q * Abs(b);
    }
  }

  lemma QuotientFacts(x: nat, y: nat)
    requires y > 0
    ensures 0 <= x - (x / y) * y < y
  {
  }
}
