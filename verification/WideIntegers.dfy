/** The limbs of `u256` and `u512`, joined with shifts and a bitwise or, and split again. */
module WideIntegers {
  import opened Numbers

  function BitOr(a: nat, b: nat): nat
    decreases a + b
  {
    if a == 0 then b
    else if b == 0 then a
    else (if a % 2 == 1 || b % 2 == 1 then 1 else 0) + 2 * BitOr(a / 2, b / 2)
  }

  function Shift(n: nat, bits: nat): nat { n * Pow(2, bits) }

  function JoinTwo(low: nat, high: nat): nat { BitOr(Shift(high, 128), low) }

  function JoinFour(limb0: nat, limb1: nat, limb2: nat, limb3: nat): nat {
    BitOr(BitOr(BitOr(Shift(limb3, 384), Shift(limb2, 256)), Shift(limb1, 128)), limb0)
  }

  function SplitTwo(n: nat): seq<nat> { [n % TWO_128, n / TWO_128] }

  function SplitFour(n: nat): seq<nat> {
    [n % TWO_128, n / TWO_128 % TWO_128, n / TWO_128 / TWO_128 % TWO_128, n / TWO_128 / TWO_128 / TWO_128]
  }

  // ---------------------------------------------------------------- or with a shifted number

  lemma BitOrDoubled(a: nat, l: nat, digit: nat)
    requires digit < 2
    ensures BitOr(2 * a, 2 * l + digit) == 2 * BitOr(a, l) + digit
  {
  }

  /** The low `bits` bits of the other number show through, the rest is or-ed. */
  lemma {:induction false} BitOrShifted(h: nat, low: nat, high: nat, bits: nat)
    requires low < Pow(2, bits)
    ensures BitOr(h * Pow(2, bits), low + Pow(2, bits) * high) == low + Pow(2, bits) * BitOr(h, high)
    decreases bits
  {
    if bits > 0 {
      BitOrShifted(h, low / 2, high, bits - 1);
      ShiftedStep(h, low, high, Pow(2, bits - 1));
    }
  }

  lemma ShiftedStep(h: nat, low: nat, high: nat, p: nat)
    requires BitOr(h * p, low / 2 + p * high) == low / 2 + p * BitOr(h, high)
    ensures BitOr(h * (2 * p), low + 2 * p * high) == low + 2 * p * BitOr(h, high)
  {
    hide BitOr;
    DoubledProduct(h, p);
    DoubledProduct(high, p);
    DoubledProduct(BitOr(h, high), p);
    HalvesJoin(h * p, low, p * high, p * BitOr(h, high));
  }

  lemma HalvesJoin(a: nat, low: nat, l: nat, or: nat)
    requires BitOr(a, low / 2 + l) == low / 2 + or
    ensures BitOr(2 * a, low + 2 * l) == low + 2 * or
  {
    hide BitOr;
    BitOrDoubled(a, low / 2 + l, low % 2);
    assert low + 2 * l == 2 * (low / 2 + l) + low % 2;
  }

  lemma DoubledProduct(x: nat, p: nat)
    ensures x * (2 * p) == 2 * (x * p) && 2 * p * x == 2 * (p * x)
  {
  }

  lemma BitOrOfShifted(a: nat, b: nat, bits: nat)
    ensures BitOr(Shift(a, bits), Shift(b, bits)) == Shift(BitOr(a, b), bits)
  {
    PowPositive(2, bits);
    BitOrShifted(a, 0, b, bits);
    hide BitOr, Pow;
    assert Shift(b, bits) == 0 + Pow(2, bits) * b;
    assert Shift(BitOr(a, b), bits) == Pow(2, bits) * BitOr(a, b);
  }

  lemma Shift128()
    ensures Pow(2, 128) == TWO_128
  {
    assert Pow(2, 4) == 16;
    hide Pow;
    TwiceTheBits(4, 16);
    TwiceTheBits(8, 0x100);
    TwiceTheBits(16, 0x1_0000);
    TwiceTheBits(32, 0x1_0000_0000);
    TwiceTheBits(64, 0x1_0000_0000_0000_0000);
  }

  lemma TwiceTheBits(bits: nat, value: nat)
    requires Pow(2, bits) == value
    ensures Pow(2, 2 * bits) == value * value
  {
    hide Pow;
    PowAdds(2, bits, bits);
    assert bits + bits == 2 * bits;
  }

  lemma {:induction false} PowAdds(base: nat, a: nat, b: nat)
    ensures Pow(base, a + b) == Pow(base, a) * Pow(base, b)
    decreases a
  {
    if a > 0 {
      PowAdds(base, a - 1, b);
      Associate(base, Pow(base, a - 1), Pow(base, b));
    }
  }

  lemma ShiftTwice(n: nat, a: nat, b: nat)
    ensures Shift(n, a + b) == Shift(Shift(n, a), b)
  {
    PowAdds(2, a, b);
    Associate(n, Pow(2, a), Pow(2, b));
  }

  // ---------------------------------------------------------------- limbs

  /** The low limb comes back exactly if it has at most 128 bits, and then so does everything above it. */
  lemma JoinTwoSplits(low: nat, high: nat)
    ensures JoinTwo(low, high) % TWO_128 == low <==> low < TWO_128
    ensures low < TWO_128 ==> JoinTwo(low, high) / TWO_128 == high
  {
    hide BitOr, Pow, JoinTwo;
    var top := BitOr(high, low / TWO_128);
    JoinTwoIsSum(low, high);
    OrZero(high);
    DigitSplit(low % TWO_128, TWO_128, top);
  }

  lemma OrZero(n: nat)
    ensures BitOr(n, 0) == n
  {
  }

  lemma JoinTwoIsSum(low: nat, high: nat)
    ensures JoinTwo(low, high) == low % TWO_128 + TWO_128 * BitOr(high, low / TWO_128)
  {
    hide BitOr, Pow;
    Shift128();
    BitOrShifted(high, low % TWO_128, low / TWO_128, 128);
    assert low == low % TWO_128 + TWO_128 * (low / TWO_128);
  }

  lemma SplitTwoInvertsJoinTwo(low: nat, high: nat)
    ensures SplitTwo(JoinTwo(low, high)) == [low, high] <==> low < TWO_128
  {
    JoinTwoSplits(low, high);
    hide JoinTwo;
    if SplitTwo(JoinTwo(low, high)) == [low, high] {
      assert SplitTwo(JoinTwo(low, high))[0] == low;
    }
  }

  /** Joining four limbs is joining two, three times: shifts distribute over the or. */
  lemma JoinFourNests(limb0: nat, limb1: nat, limb2: nat, limb3: nat)
    ensures JoinFour(limb0, limb1, limb2, limb3) == JoinTwo(limb0, JoinTwo(limb1, JoinTwo(limb2, limb3)))
  {
    hide BitOr, Shift;
    ShiftTwice(limb3, 128, 256);
    BitOrOfShifted(Shift(limb3, 128), limb2, 256);
    var top := JoinTwo(limb2, limb3);
    ShiftTwice(top, 128, 128);
    BitOrOfShifted(Shift(top, 128), limb1, 128);
  }

  lemma SplitFourInvertsJoinFour(limb0: nat, limb1: nat, limb2: nat, limb3: nat)
    ensures SplitFour(JoinFour(limb0, limb1, limb2, limb3)) == [limb0, limb1, limb2, limb3]
            <==> limb0 < TWO_128 && limb1 < TWO_128 && limb2 < TWO_128
  {
    JoinFourNests(limb0, limb1, limb2, limb3);
    var top := JoinTwo(limb2, limb3);
    var upper := JoinTwo(limb1, top);
    var all := JoinTwo(limb0, upper);
    JoinTwoSplits(limb0, upper);
    JoinTwoSplits(limb1, top);
    JoinTwoSplits(limb2, limb3);
    hide JoinTwo, JoinFour;
    var split := SplitFour(all);
    assert split[0] == all % TWO_128;
    assert split[1] == all / TWO_128 % TWO_128;
    assert split[2] == all / TWO_128 / TWO_128 % TWO_128;
  }
}
