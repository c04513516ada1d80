/** Bounds and arithmetic shared by the codecs. */
module Numbers {
  /** The field prime 2^251 + 17 * 2^192 + 1. */
  const PRIME: nat := 0x800000000000011000000000000000000000000000000000000000000000001
  /** One more than the largest `usize` and `u64` (64-bit targets). */
  const USIZE_BOUND: nat := 0x1_0000_0000_0000_0000
  /** One more than the largest number of elements a Rust slice can hold (`isize::MAX`). */
  const SLICE_BOUND: nat := 0x8000_0000_0000_0000
  const TWO_128: nat := 0x1_0000_0000_0000_0000_0000_0000_0000_0000

  function Min(a: nat, b: nat): nat { if a <= b then a else b }
  function Max(a: nat, b: nat): nat { if a >= b then a else b }

  function Pow(base: nat, exponent: nat): nat {
    if exponent == 0 then 1 else base * Pow(base, exponent - 1)
  }

  lemma {:induction false} PowPositive(base: nat, exponent: nat)
    requires base > 0
    ensures Pow(base, exponent) > 0
  {
    if exponent > 0 { PowPositive(base, exponent - 1); }
  }

  lemma {:induction false} PowMonotone(base: nat, low: nat, high: nat)
    requires base > 0 && low <= high
    ensures Pow(base, low) <= Pow(base, high)
    decreases high - low
  {
    if low < high {
      PowPositive(base, low);
      assert Pow(base, low) <= base * Pow(base, low) by { ScaleGrows(base, Pow(base, low)); }
      PowMonotone(base, low + 1, high);
    }
  }

  lemma ScaleGrows(base: nat, x: nat)
    requires base > 0
    ensures x <= base * x
  {
  }

  lemma Distribute(a: int, x: int, y: int)
    ensures a * (x + y) == a * x + a * y
  {
  }

  lemma Associate(a: int, b: int, c: int)
    ensures a * (b * c) == (a * b) * c
  {
  }

  lemma ScaleMonotone(base: nat, x: nat, y: nat)
    requires x <= y
    ensures base * x <= base * y
  {
  }

  /** `d + base * q` has last digit `d` and remaining digits `q`. */
  lemma DigitSplit(d: nat, base: nat, q: nat)
    requires d < base
    ensures (d + base * q) / base == q && (d + base * q) % base == d
  {
    var x := d + base * q;
    assert x == base * (x / base) + x % base;
    var delta := q - x / base;
    assert base * delta == x % base - d;
    assert base * (-delta) == d - x % base;
    if delta >= 1 { ScaleMonotone(base, 1, delta); }
    if delta <= -1 { ScaleMonotone(base, 1, -delta); }
  }

  lemma DivMod(x: nat, a: nat)
    requires a > 0
    ensures x == a * (x / a) + x % a && 0 <= x % a < a
  {
  }

  /** A number with quotient `q` and remainder `r`. */
  lemma Quotient(x: nat, c: nat, q: nat, r: nat)
    requires x == c * q + r && r < c
    ensures x / c == q
  {
    DigitSplit(r, c, q);
  }

  lemma Recompose(a: nat, b: nat, q: nat, s: nat, t: nat)
    ensures a * (b * q + s) + t == (a * b) * q + (a * s + t)
  {
    Distribute(a, b * q, s);
    Associate(a, b, q);
  }

  lemma RemainderBelow(a: nat, b: nat, s: nat, t: nat)
    requires s < b && t < a
    ensures a * s + t < a * b
  {
    Distribute(a, s, 1);
    ScaleMonotone(a, s + 1, b);
  }

  lemma DivideTwice(x: nat, a: nat, b: nat)
    requires a > 0 && b > 0
    ensures a * b > 0 && x / a / b == x / (a * b)
  {
    var y, t := x / a, x % a;
    DivMod(x, a);
    DivideAgain(x, a, b, y, t);
  }

  lemma DivideAgain(x: nat, a: nat, b: nat, y: nat, t: nat)
    requires x == a * y + t && t < a && b > 0
    ensures a * b > 0 && y / b == x / (a * b)
  {
    var q, s := y / b, y % b;
    DivMod(y, b);
    Recompose(a, b, q, s, t);
    RemainderBelow(a, b, s, t);
    Quotient(x, a * b, q, a * s + t);
  }

  /** Shifting an index by one whole chunk moves the quotient by one and keeps the offset. */
  lemma ChunkShift(i: nat, width: nat)
    requires width > 0 && i >= width
    ensures (i - width) / width == i / width - 1
    ensures (i - width) % width == i % width
  {
    var q, r := (i - width) / width, (i - width) % width;
    assert i == r + width * (q + 1);
    DigitSplit(r, width, q + 1);
  }
}
