/** Go's `int64`: two's-complement integers whose `+` and `*` wrap around. */
module GoInt {

  const Modulus: int := 0x1_0000_0000_0000_0000
  const MinInt64: int := -0x8000_0000_0000_0000
  const MaxInt64: int := 0x7fff_ffff_ffff_ffff

  /** The values an `int64` can hold. */
  type Int64 = x: int | MinInt64 <= x <= MaxInt64

  /** The int64 that the mathematical integer `x` wraps to: `x` shifted by
      a multiple of 2^64 into the int64 range. */
  function Wrap(x: int): (r: Int64)
    ensures MinInt64 <= x <= MaxInt64 ==> r == x
    decreases (if x < MinInt64 then MinInt64 - x else 0) + (if x > MaxInt64 then x - MaxInt64 else 0)
  {
    if x < MinInt64 then Wrap(x + Modulus)
    else if x > MaxInt64 then Wrap(x - Modulus)
    else x
  }

  /** Go's `a + b` on two int64 values. */
  function Add(a: Int64, b: Int64): (r: Int64)
    ensures MinInt64 <= a + b <= MaxInt64 ==> r == a + b
  {
    Wrap(a + b)
  }

  /** Go's `a * b` on two int64 values. */
  function Mul(a: Int64, b: Int64): (r: Int64)
    ensures MinInt64 <= a * b <= MaxInt64 ==> r == a * b
  {
    Wrap(a * b)
  }

  /** Wrapping ignores one turn of 2^64. */
  lemma WrapTurn(x: int)
    ensures Wrap(x + Modulus) == Wrap(x)
  {
  }

  /** Wrapping ignores any number of turns of 2^64. */
  lemma {:induction false} WrapTurns(x: int, k: int)
    ensures Wrap(x + k * Modulus) == Wrap(x)
    decreases if k < 0 then -k else k
  {
    if k > 0 {
      WrapTurns(x, k - 1);
      WrapTurn(x + (k - 1) * Modulus);
    } else if k < 0 {
      WrapTurns(x, k + 1);
      WrapTurn(x + k * Modulus);
    }
  }

  /** `Wrap(x)` is `x` shifted by some number of turns of 2^64. */
  lemma {:induction false} WrapOffset(x: int) returns (k: int)
    ensures Wrap(x) == x + k * Modulus
    decreases (if x < MinInt64 then MinInt64 - x else 0) + (if x > MaxInt64 then x - MaxInt64 else 0)
  {
    if x < MinInt64 {
      k := WrapOffset(x + Modulus);
      k := k + 1;
    } else if x > MaxInt64 {
      k := WrapOffset(x - Modulus);
      k := k - 1;
    } else {
      k := 0;
    }
  }

  /** Wrapping after each addition equals wrapping once at the end: int64 `+`
      is addition modulo 2^64. */
  lemma WrapAddAbsorb(a: int, b: int)
    ensures Wrap(Wrap(a) + b) == Wrap(a + b)
  {
    var k := WrapOffset(a);
    assert Wrap(a) + b == (a + b) + k * Modulus;
    WrapTurns(a + b, k);
  }
}
