/**
 Only clean calldata comes back, whatever stands in fixed arrays. Suppose the encoding equals the felts decoded. Then
 what is encoded never falls behind what is decoded: a fixed array puts it ahead, by a length that is not zero, and
 wide integers, which are shorter under an unknown type, cannot make up for that, as they would have to equal one of
 their own limbs.
 */
module CalldataAlignment {
  import opened CalldataDecoder
  import opened CalldataEncoder
  import opened CalldataRoundTrip
  import opened Numbers
  import opened WideIntegers
  import opened Wrappers

  /** No two variants of an enum have the same name. */
  ghost predicate HasDistinctVariants(abi: Abi) {
    forall e, i, j :: e in abi.enums && 0 <= i < j < |e.variants| ==> e.variants[i].name != e.variants[j].name
  }

  // ---------------------------------------------------------------- decoded and encoded so far

  predicate At(whole: seq<felt>, data: seq<felt>) {
    |data| <= |whole| && whole[|whole| - |data|..] == data
  }

  /** How many felts have been decoded. */
  function FeltsRead(whole: seq<felt>, data: seq<felt>): nat
    requires |data| <= |whole|
  {
    |whole| - |data|
  }

  /** Among the felts that are encoded but not decoded yet, some is not zero. */
  ghost predicate Pending(whole: seq<felt>, decoded: nat, encoded: nat) {
    encoded <= |whole| && exists i :: decoded <= i < encoded && whole[i] != 0
  }

  /** The next strings encoded are those of the whole. */
  ghost predicate Emits(whole: seq<felt>, encoded: nat, enc: Encoding) {
    enc.Ok? && encoded + |enc.value| <= |whole| && forall i :: 0 <= i < |enc.value| ==>
      enc.value[i] == Hex(whole[encoded + i])
  }

  /** The encoder does not fall behind, stays ahead where it is ahead, and keeps something pending. */
  ghost predicate Advances(whole: seq<felt>, decoded: nat, encoded: nat, decodedAfter: nat, encodedAfter: nat) {
    && decodedAfter <= encodedAfter && (decoded < encoded ==> decodedAfter < encodedAfter)
    && (Pending(whole, decoded, encoded) ==> Pending(whole, decodedAfter, encodedAfter))
  }

  /** What is proved of a value of known type: and it is clean if the two are level before and after it. */
  ghost predicate Settles(
    whole: seq<felt>, encoded: nat, enc: Encoding, data: seq<felt>, rest: seq<felt>, clean: bool) {
    At(whole, data) && Emits(whole, encoded, enc) && FeltsRead(whole, data) <= encoded ==>
      && At(whole, rest)
      && Advances(whole, FeltsRead(whole, data), encoded, FeltsRead(whole, rest), encoded + |enc.value|)
      && (FeltsRead(whole, data) == encoded && FeltsRead(whole, rest) == encoded + |enc.value| ==> clean)
  }

  /** And of one of unknown type, which may be shorter than its felts. */
  ghost predicate StaysPending(whole: seq<felt>, encoded: nat, enc: Encoding, data: seq<felt>, rest: seq<felt>) {
    At(whole, data) && Emits(whole, encoded, enc) && Pending(whole, FeltsRead(whole, data), encoded) ==>
      At(whole, rest) && Pending(whole, FeltsRead(whole, rest), encoded + |enc.value|)
  }

  function After(encoded: nat, enc: Encoding): nat {
    if enc.Ok? then encoded + |enc.value| else encoded
  }

  lemma JoinEmits(whole: seq<felt>, encoded: nat, a: Encoding, b: Encoding)
    requires Emits(whole, encoded, Join(a, b))
    ensures Emits(whole, encoded, a) && Emits(whole, After(encoded, a), b)
    ensures After(After(encoded, a), b) == encoded + |Join(a, b).value|
  {
    forall i | 0 <= i < |b.value| ensures b.value[i] == Hex(whole[encoded + |a.value| + i]) {
      assert Join(a, b).value[|a.value| + i] == b.value[i];
    }
    forall i | 0 <= i < |a.value| ensures a.value[i] == Hex(whole[encoded + i]) {
      assert Join(a, b).value[i] == a.value[i];
    }
  }

  lemma JoinSettles(
    whole: seq<felt>, encoded: nat, a: Encoding, b: Encoding, data: seq<felt>, mid: seq<felt>, rest: seq<felt>,
    cleanA: bool, cleanB: bool)
    requires Settles(whole, encoded, a, data, mid, cleanA) && Settles(whole, After(encoded, a), b, mid, rest, cleanB)
    ensures Settles(whole, encoded, Join(a, b), data, rest, cleanA && cleanB)
  {
    if Emits(whole, encoded, Join(a, b)) {
      JoinEmits(whole, encoded, a, b);
      hide Emits, Pending, At;
    }
  }

  lemma JoinStaysPending(
    whole: seq<felt>, encoded: nat, a: Encoding, b: Encoding, data: seq<felt>, mid: seq<felt>, rest: seq<felt>)
    requires StaysPending(whole, encoded, a, data, mid) && StaysPending(whole, After(encoded, a), b, mid, rest)
    ensures StaysPending(whole, encoded, Join(a, b), data, rest)
  {
    if Emits(whole, encoded, Join(a, b)) {
      JoinEmits(whole, encoded, a, b);
      hide Emits, Pending, At;
    }
  }

  lemma SettlesStaysPending(
    whole: seq<felt>, encoded: nat, enc: Encoding, data: seq<felt>, rest: seq<felt>, clean: bool)
    requires Settles(whole, encoded, enc, data, rest, clean)
    ensures StaysPending(whole, encoded, enc, data, rest)
  {
  }

  lemma NothingSettles(whole: seq<felt>, encoded: nat, data: seq<felt>)
    ensures Settles(whole, encoded, Ok([]), data, data, true)
    ensures StaysPending(whole, encoded, Ok([]), data, data)
  {
  }

  lemma NextAt(whole: seq<felt>, data: seq<felt>)
    requires At(whole, data) && data != []
    ensures At(whole, data[1..]) && whole[FeltsRead(whole, data)] == data[0]
            && FeltsRead(whole, data[1..]) == FeltsRead(whole, data) + 1
  {
  }

  /** One felt read and one written, which are zero together. */
  lemma OneSettles(whole: seq<felt>, encoded: nat, data: seq<felt>, n: nat)
    requires data != [] && (n == 0 ==> data[0] == 0)
    ensures Settles(whole, encoded, Ok([Hex(n)]), data, data[1..], n == data[0])
  {
    var enc: Encoding := Ok([Hex(n)]);
    if At(whole, data) && Emits(whole, encoded, enc) && FeltsRead(whole, data) <= encoded {
      NextAt(whole, data);
      assert enc.value[0] == Hex(whole[encoded + 0]);
      var decoded := FeltsRead(whole, data);
      if Pending(whole, decoded, encoded) {
        var i :| decoded <= i < encoded && whole[i] != 0;
        var k := if i == decoded then encoded else i;
        assert decoded + 1 <= k < encoded + 1 && whole[k] != 0;
      }
    }
  }

  /** A string written for no felt read puts the encoder ahead; if it is not zero, something is pending. */
  lemma LengthSettles(whole: seq<felt>, encoded: nat, data: seq<felt>, len: nat)
    ensures var enc: Encoding := Ok([Hex(len)]);
            At(whole, data) && Emits(whole, encoded, enc) && FeltsRead(whole, data) <= encoded ==>
              && Advances(whole, FeltsRead(whole, data), encoded, FeltsRead(whole, data), encoded + 1)
              && (len > 0 ==> Pending(whole, FeltsRead(whole, data), encoded + 1))
    ensures StaysPending(whole, encoded, Ok([Hex(len)]), data, data)
  {
    var enc: Encoding := Ok([Hex(len)]);
    if Emits(whole, encoded, enc) { assert enc.value[0] == Hex(whole[encoded + 0]); }
  }

  // ---------------------------------------------------------------- wide integers

  lemma {:induction false} BitOrBounds(a: nat, b: nat)
    ensures BitOr(a, b) >= a && BitOr(a, b) >= b
    decreases a + b
  {
    if a > 0 && b > 0 { BitOrBounds(a / 2, b / 2); }
  }

  lemma JoinTwoBounds(low: nat, high: nat)
    ensures JoinTwo(low, high) >= low && JoinTwo(low, high) >= TWO_128 * high
  {
    Shift128();
    BitOrBounds(Shift(high, 128), low);
    hide BitOr;
  }

  lemma JoinFourBounds(limb0: nat, limb1: nat, limb2: nat, limb3: nat)
    ensures var n := JoinFour(limb0, limb1, limb2, limb3);
            && n >= limb0 && n >= TWO_128 * limb1 && n >= TWO_128 * (TWO_128 * limb2)
            && n >= TWO_128 * (TWO_128 * (TWO_128 * limb3))
  {
    JoinFourNests(limb0, limb1, limb2, limb3);
    var top := JoinTwo(limb2, limb3);
    var upper := JoinTwo(limb1, top);
    JoinTwoBounds(limb2, limb3);
    JoinTwoBounds(limb1, top);
    JoinTwoBounds(limb0, upper);
    hide JoinTwo, JoinFour;
  }

  /** A wide integer that equals one of its upper limbs is zero. */
  lemma TwoIsNoLimb(limb0: nat, limb1: nat)
    requires JoinTwo(limb0, limb1) == limb1
    ensures limb0 == limb1 == 0
  {
    JoinTwoBounds(limb0, limb1);
  }

  lemma FourIsNoLimb(limb0: nat, limb1: nat, limb2: nat, limb3: nat)
    requires JoinFour(limb0, limb1, limb2, limb3) in {limb1, limb2, limb3}
    ensures limb0 == limb1 == limb2 == limb3 == 0
  {
    JoinFourBounds(limb0, limb1, limb2, limb3);
  }

  /** The same of its digits: shifted against the limbs by some places, with zeros at the end. */
  lemma TwoAreNoShiftedLimbs(limb0: nat, limb1: nat, n: nat)
    requires n == JoinTwo(limb0, limb1)
    requires n % TWO_128 == limb1 && n / TWO_128 == 0
    ensures limb0 == limb1 == 0
  {
    JoinTwoBounds(limb0, limb1);
  }

  lemma FourAreNoShiftedLimbs(limb0: nat, limb1: nat, limb2: nat, limb3: nat, n: nat, shift: nat)
    requires 0 < shift < 4 && n == JoinFour(limb0, limb1, limb2, limb3)
    requires n / TWO_128 / TWO_128 / TWO_128 == 0
    requires shift == 1 ==>
               n % TWO_128 == limb1 && n / TWO_128 % TWO_128 == limb2 && n / TWO_128 / TWO_128 % TWO_128 == limb3
    requires shift == 2 ==>
               n % TWO_128 == limb2 && n / TWO_128 % TWO_128 == limb3 && n / TWO_128 / TWO_128 % TWO_128 == 0
    requires shift == 3 ==>
               n % TWO_128 == limb3 && n / TWO_128 % TWO_128 == 0 && n / TWO_128 / TWO_128 % TWO_128 == 0
    ensures limb0 == limb1 == limb2 == limb3 == 0
  {
    JoinFourBounds(limb0, limb1, limb2, limb3);
    hide JoinFour;
    var first, second := n / TWO_128, n / TWO_128 / TWO_128;
    assert n == n % TWO_128 + TWO_128 * first && first == first % TWO_128 + TWO_128 * second;
    assert limb3 == 0;
    assert second == 0;
    assert limb2 == 0;
    assert first == 0;
  }

  /** Where the limbs stand, and what is still pending before them. */
  ghost predicate Limbs(whole: seq<felt>, decoded: nat, encoded: nat, count: nat) {
    decoded + count <= |whole| && decoded < encoded && Pending(whole, decoded, encoded)
  }

  /** A wide integer of unknown type is one string for all its limbs. */
  lemma TwoStaysPending(whole: seq<felt>, decoded: nat, encoded: nat)
    requires Limbs(whole, decoded, encoded, 2) && encoded < |whole|
    requires whole[encoded] == JoinTwo(whole[decoded], whole[decoded + 1])
    ensures Pending(whole, decoded + 2, encoded + 1)
  {
    JoinTwoBounds(whole[decoded], whole[decoded + 1]);
    if encoded == decoded + 1 { TwoIsNoLimb(whole[decoded], whole[decoded + 1]); }
    hide JoinTwo;
    var i :| decoded <= i < encoded && whole[i] != 0;
    var k := if i < decoded + 2 then encoded else i;
    assert decoded + 2 <= k < encoded + 1 && whole[k] != 0;
  }

  lemma FourStaysPending(whole: seq<felt>, decoded: nat, encoded: nat)
    requires Limbs(whole, decoded, encoded, 4) && encoded < |whole|
    requires whole[encoded] == JoinFour(whole[decoded], whole[decoded + 1], whole[decoded + 2], whole[decoded + 3])
    ensures Pending(whole, decoded + 4, encoded + 1)
  {
    hide JoinFour;
    var l0, l1, l2, l3 := whole[decoded], whole[decoded + 1], whole[decoded + 2], whole[decoded + 3];
    JoinFourBounds(l0, l1, l2, l3);
    if encoded < decoded + 4 { FourIsNoLimb(l0, l1, l2, l3); }
    var i :| decoded <= i < encoded && whole[i] != 0;
    var k := if i < decoded + 4 then encoded else i;
    assert decoded + 4 <= k < encoded + 1 && whole[k] != 0;
  }

  /** One of known type is as many strings as limbs. */
  lemma TwoDigitsStayPending(whole: seq<felt>, decoded: nat, encoded: nat, n: nat)
    requires Limbs(whole, decoded, encoded, 2) && encoded + 2 <= |whole|
    requires n == JoinTwo(whole[decoded], whole[decoded + 1])
    requires whole[encoded] == n % TWO_128 && whole[encoded + 1] == n / TWO_128
    ensures Pending(whole, decoded + 2, encoded + 2)
  {
    JoinTwoBounds(whole[decoded], whole[decoded + 1]);
    if encoded == decoded + 1 && whole[encoded + 1] == 0 {
      TwoAreNoShiftedLimbs(whole[decoded], whole[decoded + 1], n);
    }
    hide JoinTwo;
    var i :| decoded <= i < encoded && whole[i] != 0;
    var k := if i >= decoded + 2 then i else if whole[encoded + 1] != 0 then encoded + 1 else encoded;
    assert decoded + 2 <= k < encoded + 2 && whole[k] != 0;
  }

  lemma FourDigitsStayPending(whole: seq<felt>, decoded: nat, encoded: nat, n: nat)
    requires Limbs(whole, decoded, encoded, 4) && encoded + 4 <= |whole|
    requires n == JoinFour(whole[decoded], whole[decoded + 1], whole[decoded + 2], whole[decoded + 3])
    requires whole[encoded] == n % TWO_128 && whole[encoded + 1] == n / TWO_128 % TWO_128
    requires whole[encoded + 2] == n / TWO_128 / TWO_128 % TWO_128
             && whole[encoded + 3] == n / TWO_128 / TWO_128 / TWO_128
    ensures Pending(whole, decoded + 4, encoded + 4)
  {
    if forall k :: decoded + 4 <= k < encoded + 4 ==> whole[k] == 0 { FourDigitsVanish(whole, decoded, encoded, n); }
  }

  lemma FourDigitsVanish(whole: seq<felt>, decoded: nat, encoded: nat, n: nat)
    requires decoded + 4 <= |whole| && decoded < encoded && encoded + 4 <= |whole|
    requires n == JoinFour(whole[decoded], whole[decoded + 1], whole[decoded + 2], whole[decoded + 3])
    requires whole[encoded] == n % TWO_128 && whole[encoded + 1] == n / TWO_128 % TWO_128
    requires whole[encoded + 2] == n / TWO_128 / TWO_128 % TWO_128
             && whole[encoded + 3] == n / TWO_128 / TWO_128 / TWO_128
    requires forall k :: decoded + 4 <= k < encoded + 4 ==> whole[k] == 0
    ensures forall i :: decoded <= i < encoded ==> whole[i] == 0
  {
    var l0, l1, l2, l3 := whole[decoded], whole[decoded + 1], whole[decoded + 2], whole[decoded + 3];
    JoinFourBounds(l0, l1, l2, l3);
    hide JoinFour;
    if encoded < decoded + 4 {
      FourAreNoShiftedLimbs(l0, l1, l2, l3, n, encoded - decoded);
    } else {
      NoDigits(n);
    }
  }

  lemma NoDigits(n: nat)
    requires n % TWO_128 == n / TWO_128 % TWO_128 == n / TWO_128 / TWO_128 % TWO_128
             == n / TWO_128 / TWO_128 / TWO_128 == 0
    ensures n == 0
  {
    var first, second := n / TWO_128, n / TWO_128 / TWO_128;
    assert n == TWO_128 * first && first == TWO_128 * second;
  }

  // ---------------------------------------------------------------- named types

  lemma PrimitiveSettles(abi: Abi, name: string, whole: seq<felt>, encoded: nat, data: seq<felt>)
    requires name in PRIMITIVES && data != []
    ensures Settles(whole, encoded, Encode(abi, Known(Named(name)), PrimitiveValue(name, data[0])), data, data[1..],
                    name !in SIGNED && (name == "bool" ==> data[0] < 2))
  {
    var enc := Encode(abi, Known(Named(name)), PrimitiveValue(name, data[0]));
    if name in SIGNED {
      assert enc == Ok([NegativeHex(PRIME - data[0])]);
      OtherTextIsNotEmitted(whole, encoded, NegativeHex(PRIME - data[0]));
    } else {
      var n := if name == "bool" then (if data[0] != 0 then 1 else 0) else data[0];
      assert enc == Ok([Hex(n)]);
      hide Encode, Settles;
      OneSettles(whole, encoded, data, n);
      SettlesIf(whole, encoded, enc, data, data[1..], n == data[0],
                name !in SIGNED && (name == "bool" ==> data[0] < 2));
    }
  }

  lemma OtherTextIsNotEmitted(whole: seq<felt>, encoded: nat, token: Token)
    requires !token.Hex?
    ensures !Emits(whole, encoded, Ok([token]))
  {
    if encoded < |whole| { assert [token][0] != Hex(whole[encoded + 0]); }
  }

  lemma SettlesIf(
    whole: seq<felt>, encoded: nat, enc: Encoding, data: seq<felt>, rest: seq<felt>, clean: bool, cleaner: bool)
    requires Settles(whole, encoded, enc, data, rest, clean) && (clean ==> cleaner)
    ensures Settles(whole, encoded, enc, data, rest, cleaner)
  {
  }

  /** The joined limbs of a wide integer, and how they are split again. */
  function Joined(name: string, data: seq<felt>): nat
    requires IsWide(name) && |data| >= if name == "u256" then 2 else 4
  {
    if name == "u256" then JoinTwo(data[0], data[1]) else JoinFour(data[0], data[1], data[2], data[3])
  }

  function LimbsOf(name: string): nat {
    if name == "u256" then 2 else 4
  }

  lemma WideIsJoined(abi: Abi, name: string, data: seq<felt>, fields: seq<Decoded>)
    requires IsWide(name) && |fields| == LimbsOf(name) <= |data|
    requires forall i :: 0 <= i < LimbsOf(name) ==> fields[i].value == BigUint(data[i])
    ensures StructValue(name, fields) == BigUint(Joined(name, data))
    ensures Encode(abi, Unknown, StructValue(name, fields)) == Ok([Hex(Joined(name, data))])
    ensures Encode(abi, Known(Named(name)), StructValue(name, fields))
            == Ok(SplitIntoLimbs(Joined(name, data), Known(Named(name))))
  {
    hide JoinTwo, JoinFour;
  }

  lemma LimbsAt(whole: seq<felt>, data: seq<felt>, count: nat)
    requires At(whole, data) && count <= |data|
    ensures At(whole, data[count..]) && FeltsRead(whole, data[count..]) == FeltsRead(whole, data) + count
    ensures forall i :: 0 <= i < count ==> whole[FeltsRead(whole, data) + i] == data[i]
  {
  }

  lemma UnknownWideStaysPending(name: string, whole: seq<felt>, encoded: nat, data: seq<felt>)
    requires IsWide(name) && LimbsOf(name) <= |data|
    ensures StaysPending(whole, encoded, Ok([Hex(Joined(name, data))]), data, data[LimbsOf(name)..])
  {
    var enc: Encoding := Ok([Hex(Joined(name, data))]);
    if At(whole, data) && Emits(whole, encoded, enc) && Pending(whole, FeltsRead(whole, data), encoded) {
      LimbsAt(whole, data, LimbsOf(name));
      assert enc.value[0] == Hex(whole[encoded + 0]);
      hide JoinTwo, JoinFour, At;
      var decoded := FeltsRead(whole, data);
      assert whole[decoded + 0] == data[0];
      if name == "u256" {
        TwoStaysPending(whole, decoded, encoded);
      } else {
        FourStaysPending(whole, decoded, encoded);
      }
    }
  }

  /** Limbs and digits, when the encoder is level with the decoder or ahead. */
  lemma TwoDigitsAdvance(whole: seq<felt>, decoded: nat, encoded: nat, limb0: felt, limb1: felt)
    requires decoded + 2 <= |whole| && decoded <= encoded && encoded + 2 <= |whole|
    requires whole[decoded] == limb0 && whole[decoded + 1] == limb1
    requires var n := JoinTwo(limb0, limb1); whole[encoded] == n % TWO_128 && whole[encoded + 1] == n / TWO_128
    ensures Advances(whole, decoded, encoded, decoded + 2, encoded + 2)
    ensures decoded == encoded ==> limb0 < TWO_128
  {
    if decoded == encoded { SplitTwoInvertsJoinTwo(limb0, limb1); }
    hide JoinTwo;
    if Pending(whole, decoded, encoded) { TwoDigitsStayPending(whole, decoded, encoded, JoinTwo(limb0, limb1)); }
  }

  lemma FourDigitsAdvance(
    whole: seq<felt>, decoded: nat, encoded: nat, limb0: felt, limb1: felt, limb2: felt, limb3: felt)
    requires decoded + 4 <= |whole| && decoded <= encoded && encoded + 4 <= |whole|
    requires whole[decoded] == limb0 && whole[decoded + 1] == limb1 && whole[decoded + 2] == limb2
             && whole[decoded + 3] == limb3
    requires var n := JoinFour(limb0, limb1, limb2, limb3);
             && whole[encoded] == n % TWO_128 && whole[encoded + 1] == n / TWO_128 % TWO_128
             && whole[encoded + 2] == n / TWO_128 / TWO_128 % TWO_128
             && whole[encoded + 3] == n / TWO_128 / TWO_128 / TWO_128
    ensures Advances(whole, decoded, encoded, decoded + 4, encoded + 4)
    ensures decoded == encoded ==> limb0 < TWO_128 && limb1 < TWO_128 && limb2 < TWO_128
  {
    if decoded == encoded { SplitFourInvertsJoinFour(limb0, limb1, limb2, limb3); }
    hide JoinFour;
    if Pending(whole, decoded, encoded) {
      FourDigitsStayPending(whole, decoded, encoded, JoinFour(limb0, limb1, limb2, limb3));
    }
  }

  lemma KnownWideSettles(name: string, whole: seq<felt>, encoded: nat, data: seq<felt>)
    requires IsWide(name) && LimbsOf(name) <= |data|
    ensures Settles(whole, encoded, Ok(SplitIntoLimbs(Joined(name, data), Known(Named(name)))), data,
                    data[LimbsOf(name)..],
                    HasSmallLimbs(name, data))
  {
    hide JoinTwo, JoinFour, Pending, Advances;
    var enc: Encoding := Ok(SplitIntoLimbs(Joined(name, data), Known(Named(name))));
    if At(whole, data) && Emits(whole, encoded, enc) && FeltsRead(whole, data) <= encoded {
      LimbsAt(whole, data, LimbsOf(name));
      DigitsAdvance(name, whole, encoded, data);
    }
  }

  lemma DigitsAdvance(name: string, whole: seq<felt>, encoded: nat, data: seq<felt>)
    requires IsWide(name) && LimbsOf(name) <= |data| && At(whole, data) && FeltsRead(whole, data) <= encoded
    requires forall i :: 0 <= i < LimbsOf(name) ==> whole[FeltsRead(whole, data) + i] == data[i]
    requires Emits(whole, encoded, Ok(SplitIntoLimbs(Joined(name, data), Known(Named(name)))))
    ensures Advances(whole, FeltsRead(whole, data), encoded, FeltsRead(whole, data) + LimbsOf(name),
                     encoded + LimbsOf(name))
    ensures FeltsRead(whole, data) == encoded ==> HasSmallLimbs(name, data)
  {
    hide JoinTwo, JoinFour, Pending, Advances;
    var decoded, tokens := FeltsRead(whole, data), SplitIntoLimbs(Joined(name, data), Known(Named(name)));
    assert tokens[0] == Hex(whole[encoded + 0]) && tokens[1] == Hex(whole[encoded + 1]);
    assert whole[decoded + 0] == data[0];
    if name == "u256" {
      TwoDigitsAdvance(whole, decoded, encoded, data[0], data[1]);
    } else {
      assert tokens[2] == Hex(whole[encoded + 2]) && tokens[3] == Hex(whole[encoded + 3]);
      FourDigitsAdvance(whole, decoded, encoded, data[0], data[1], data[2], data[3]);
    }
  }

  // ---------------------------------------------------------------- every decoded value

  /**
   Whatever is decoded under a type and encoded under the same one: the encoder does not fall behind the decoder, and
   if it is level with it before and after, the felts are clean.
   */
  lemma {:induction false} DecodedSettles(
    abi: Abi, rank: string -> nat, whole: seq<felt>, encoded: nat, data: seq<felt>, ty: Type, read: Read<Value>)
    requires Ranked(abi, rank) && HasCoreStructs(abi) && HasDistinctVariants(abi)
    requires Decode(abi, rank, data, ty) == Some(read)
    ensures Settles(whole, encoded, Encode(abi, Known(ty), read.value), data, read.rest, Clean(abi, rank, data, ty))
    decreases |data|, ByValueRank(abi, rank, ty), ty, 1, 0
  {
    hide Settles, Encode, Decode, Clean, HasCoreStructs, HasDistinctVariants, Ranked;
    match ty {
      case Array(element) => ArraySettles(abi, rank, whole, encoded, data, element, read);
      case FixedArray(element, len) => FixedArraySettles(abi, rank, whole, encoded, data, element, len, read);
      case Tuple(elements) => TupleTypeSettles(abi, rank, whole, encoded, data, elements, read);
      case Named(name) => NamedSettles(abi, rank, whole, encoded, data, name, read);
    }
  }

  /** Under an unknown type, what is pending stays pending. */
  lemma {:induction false} UnknownStaysPending(
    abi: Abi, rank: string -> nat, whole: seq<felt>, encoded: nat, data: seq<felt>, ty: Type, read: Read<Value>)
    requires Ranked(abi, rank) && HasCoreStructs(abi) && HasDistinctVariants(abi)
    requires Decode(abi, rank, data, ty) == Some(read)
    ensures StaysPending(whole, encoded, Encode(abi, Unknown, read.value), data, read.rest)
    decreases |data|, ByValueRank(abi, rank, ty), ty, 1, 1
  {
    hide Settles, StaysPending, Encode, Decode, Clean, HasCoreStructs, HasDistinctVariants, Ranked;
    match ty {
      case Array(element) => UnknownArrayStaysPending(abi, rank, whole, encoded, data, element, read);
      case FixedArray(element, len) =>
        UnknownFixedArrayStaysPending(abi, rank, whole, encoded, data, element, len, read);
      case Tuple(elements) => UnknownPairStaysPending(abi, rank, whole, encoded, data, elements, read);
      case Named(name) => UnknownNamedStaysPending(abi, rank, whole, encoded, data, name, read);
    }
  }

  lemma {:induction false} ArraySettles(
    abi: Abi, rank: string -> nat, whole: seq<felt>, encoded: nat, data: seq<felt>, element: Type, read: Read<Value>)
    requires Ranked(abi, rank) && HasCoreStructs(abi) && HasDistinctVariants(abi)
    requires Decode(abi, rank, data, Array(element)) == Some(read)
    ensures Settles(whole, encoded, Encode(abi, Known(Array(element)), read.value), data, read.rest,
                    Clean(abi, rank, data, Array(element)))
    decreases |data|, ByValueRank(abi, rank, Array(element)), Array(element), 0, 0
  {
    hide Settles, Encode, EncodeItems, Decode, DecodeElements, Clean, CleanElements, HasCoreStructs;
    hide HasDistinctVariants;
    hide Ranked, ByValueRank;
    var items := ArrayUnfolds(abi, rank, data, element, read);
    OneSettles(whole, encoded, data, data[0]);
    ElementsSettle(abi, rank, whole, After(encoded, Ok([Hex(data[0])])), data[1..], element, data[0], items);
    JoinSettles(whole, encoded, Ok([Hex(data[0])]), EncodeItems(abi, Known(element), items.value), data, data[1..],
                read.rest,
                true, CleanElements(abi, rank, data[1..], element, data[0]));
  }

  lemma {:induction false} UnknownArrayStaysPending(
    abi: Abi, rank: string -> nat, whole: seq<felt>, encoded: nat, data: seq<felt>, element: Type, read: Read<Value>)
    requires Ranked(abi, rank) && HasCoreStructs(abi) && HasDistinctVariants(abi)
    requires Decode(abi, rank, data, Array(element)) == Some(read)
    ensures StaysPending(whole, encoded, Encode(abi, Unknown, read.value), data, read.rest)
    decreases |data|, ByValueRank(abi, rank, Array(element)), Array(element), 0, 0
  {
    hide Settles, StaysPending, Encode, EncodeItems, Decode, DecodeElements, Clean, CleanElements, HasCoreStructs;
    hide HasDistinctVariants, Ranked, ByValueRank;
    var items := ArrayUnfolds(abi, rank, data, element, read);
    OneSettles(whole, encoded, data, data[0]);
    SettlesStaysPending(whole, encoded, Ok([Hex(data[0])]), data, data[1..], true);
    UnknownElementsStayPending(abi, rank, whole, After(encoded, Ok([Hex(data[0])])), data[1..], element, data[0],
                               items);
    JoinStaysPending(whole, encoded, Ok([Hex(data[0])]), EncodeItems(abi, Unknown, items.value), data, data[1..],
                     read.rest);
  }

  lemma FixedArrayUnfolds(
    abi: Abi, rank: string -> nat, data: seq<felt>, element: Type, len: nat, read: Read<Value>)
    returns (items: Read<seq<Value>>)
    requires Ranked(abi, rank) && Decode(abi, rank, data, FixedArray(element, len)) == Some(read)
    ensures DecodeElements(abi, rank, data, element, len) == Some(items) && items.rest == read.rest
            && |items.value| == len
    ensures Encode(abi, Known(FixedArray(element, len)), read.value)
            == Join(Ok([Hex(len)]), EncodeItems(abi, Unknown, items.value))
    ensures Encode(abi, Unknown, read.value) == Join(Ok([Hex(len)]), EncodeItems(abi, Unknown, items.value))
  {
    hide DecodeElements, EncodeItems, Ranked, ByValueRank;
    items := DecodeElements(abi, rank, data, element, len).value;
  }

  /** A fixed array puts the encoder ahead, so the two are not level after it. */
  lemma {:induction false} FixedArraySettles(
    abi: Abi, rank: string -> nat, whole: seq<felt>, encoded: nat, data: seq<felt>, element: Type, len: nat,
    read: Read<Value>)
    requires Ranked(abi, rank) && HasCoreStructs(abi) && HasDistinctVariants(abi)
    requires Decode(abi, rank, data, FixedArray(element, len)) == Some(read)
    ensures Settles(whole, encoded, Encode(abi, Known(FixedArray(element, len)), read.value), data, read.rest,
                    Clean(abi, rank, data, FixedArray(element, len)))
    decreases |data|, ByValueRank(abi, rank, FixedArray(element, len)), FixedArray(element, len), 0, 0
  {
    hide Settles, StaysPending, Encode, EncodeItems, Decode, DecodeElements, Clean, HasCoreStructs, HasDistinctVariants;
    hide Ranked;
    var items := FixedArrayUnfolds(abi, rank, data, element, len, read);
    var length, others: Encoding := Ok([Hex(len)]), EncodeItems(abi, Unknown, items.value);
    LengthSettles(whole, encoded, data, len);
    if len == 0 {
      NoElements(abi, rank, data, element, Unknown);
      assert items.value == [];
    } else {
      UnknownElementsStayPending(abi, rank, whole, After(encoded, length), data, element, len, items);
    }
    LengthFirstSettles(whole, encoded, len, others, data, read.rest, Clean(abi, rank, data, FixedArray(element, len)));
  }

  /** The length, and then elements of unknown type, if there are any. */
  lemma LengthFirstSettles(
    whole: seq<felt>, encoded: nat, len: nat, others: Encoding, data: seq<felt>, rest: seq<felt>, clean: bool)
    requires len == 0 ==> others == Ok([]) && rest == data
    requires len > 0 ==> StaysPending(whole, After(encoded, Ok([Hex(len)])), others, data, rest)
    requires var enc: Encoding := Ok([Hex(len)]);
             At(whole, data) && Emits(whole, encoded, enc) && FeltsRead(whole, data) <= encoded ==>
               && Advances(whole, FeltsRead(whole, data), encoded, FeltsRead(whole, data), encoded + 1)
               && (len > 0 ==> Pending(whole, FeltsRead(whole, data), encoded + 1))
    ensures Settles(whole, encoded, Join(Ok([Hex(len)]), others), data, rest, clean)
  {
    if Emits(whole, encoded, Join(Ok([Hex(len)]), others)) {
      JoinEmits(whole, encoded, Ok([Hex(len)]), others);
      hide Emits, At;
    }
  }

  lemma {:induction false} UnknownFixedArrayStaysPending(
    abi: Abi, rank: string -> nat, whole: seq<felt>, encoded: nat, data: seq<felt>, element: Type, len: nat,
    read: Read<Value>)
    requires Ranked(abi, rank) && HasCoreStructs(abi) && HasDistinctVariants(abi)
    requires Decode(abi, rank, data, FixedArray(element, len)) == Some(read)
    ensures StaysPending(whole, encoded, Encode(abi, Unknown, read.value), data, read.rest)
    decreases |data|, ByValueRank(abi, rank, FixedArray(element, len)), FixedArray(element, len), 0, 0
  {
    hide Settles, StaysPending, Encode, EncodeItems, Decode, DecodeElements, HasCoreStructs, HasDistinctVariants;
    hide Ranked;
    var items := FixedArrayUnfolds(abi, rank, data, element, len, read);
    LengthSettles(whole, encoded, data, len);
    UnknownElementsStayPending(abi, rank, whole, After(encoded, Ok([Hex(len)])), data, element, len, items);
    JoinStaysPending(whole, encoded, Ok([Hex(len)]), EncodeItems(abi, Unknown, items.value), data, data, read.rest);
  }

  lemma TupleUnfolds(abi: Abi, rank: string -> nat, data: seq<felt>, elements: seq<Type>, read: Read<Value>)
    returns (items: Read<seq<Value>>)
    requires Ranked(abi, rank) && Decode(abi, rank, data, Tuple(elements)) == Some(read)
    ensures DecodeTuple(abi, rank, data, elements) == Some(items) && items.rest == read.rest
    ensures Encode(abi, Known(Tuple(elements)), read.value) == EncodeTuple(abi, elements, items.value)
    ensures Encode(abi, Unknown, read.value) == Join(Ok([Hex(|items.value|)]), EncodeItems(abi, Unknown, items.value))
    ensures Clean(abi, rank, data, Tuple(elements)) == CleanTuple(abi, rank, data, elements)
  {
    hide DecodeTuple, EncodeTuple, EncodeItems, CleanTuple, Ranked, ByValueRank;
    items := DecodeTuple(abi, rank, data, elements).value;
  }

  lemma {:induction false} TupleTypeSettles(
    abi: Abi, rank: string -> nat, whole: seq<felt>, encoded: nat, data: seq<felt>, elements: seq<Type>,
    read: Read<Value>)
    requires Ranked(abi, rank) && HasCoreStructs(abi) && HasDistinctVariants(abi)
    requires Decode(abi, rank, data, Tuple(elements)) == Some(read)
    ensures Settles(whole, encoded, Encode(abi, Known(Tuple(elements)), read.value), data, read.rest,
                    Clean(abi, rank, data, Tuple(elements)))
    decreases |data|, ByValueRank(abi, rank, Tuple(elements)), Tuple(elements), 0, 0
  {
    hide Settles, Encode, EncodeTuple, Decode, DecodeTuple, Clean, CleanTuple, HasCoreStructs;
    hide HasDistinctVariants, Ranked;
    var items := TupleUnfolds(abi, rank, data, elements, read);
    TupleSettles(abi, rank, whole, encoded, data, elements, items);
  }

  lemma {:induction false} UnknownPairStaysPending(
    abi: Abi, rank: string -> nat, whole: seq<felt>, encoded: nat, data: seq<felt>, elements: seq<Type>,
    read: Read<Value>)
    requires Ranked(abi, rank) && HasCoreStructs(abi) && HasDistinctVariants(abi)
    requires Decode(abi, rank, data, Tuple(elements)) == Some(read)
    ensures StaysPending(whole, encoded, Encode(abi, Unknown, read.value), data, read.rest)
    decreases |data|, ByValueRank(abi, rank, Tuple(elements)), Tuple(elements), 0, 0
  {
    hide StaysPending, Encode, EncodeItems, Decode, DecodeTuple, HasCoreStructs, HasDistinctVariants, Ranked;
    var items := TupleUnfolds(abi, rank, data, elements, read);
    LengthSettles(whole, encoded, data, |items.value|);
    UnknownTupleStaysPending(abi, rank, whole, After(encoded, Ok([Hex(|items.value|)])), data, elements, items);
    JoinStaysPending(whole, encoded, Ok([Hex(|items.value|)]), EncodeItems(abi, Unknown, items.value), data, data,
                     read.rest);
  }

  lemma {:induction false} NamedSettles(
    abi: Abi, rank: string -> nat, whole: seq<felt>, encoded: nat, data: seq<felt>, name: string, read: Read<Value>)
    requires Ranked(abi, rank) && HasCoreStructs(abi) && HasDistinctVariants(abi)
    requires Decode(abi, rank, data, Named(name)) == Some(read)
    ensures Settles(whole, encoded, Encode(abi, Known(Named(name)), read.value), data, read.rest,
                    Clean(abi, rank, data, Named(name)))
    decreases |data|, ByValueRank(abi, rank, Named(name)), Named(name), 0, 1
  {
    hide Settles, Encode, HasCoreStructs, HasDistinctVariants;
    match KindOf(abi, name) {
      case Primitive => PrimitiveSettles(abi, name, whole, encoded, data);
      case UserStruct(s) => StructSettles(abi, rank, whole, encoded, data, name, s);
      case UserEnum(e) => EnumSettles(abi, rank, whole, encoded, data, name, e, read);
    }
  }

  /** A wide integer's value and encodings. */
  lemma WideUnfolds(abi: Abi, rank: string -> nat, data: seq<felt>, name: string, s: Struct)
    requires Ranked(abi, rank) && HasCoreStructs(abi) && KindOf(abi, name) == UserStruct(s) && IsWide(name)
    requires forall i :: 0 <= i < |s.members| ==> ByValueRank(abi, rank, s.members[i].ty) <= rank(name)
    requires DecodeMembers(abi, rank, data, s.members, rank(name)).Some?
    ensures var fields := DecodeMembers(abi, rank, data, s.members, rank(name)).value;
            && LimbsOf(name) <= |data| && fields.rest == data[LimbsOf(name)..]
            && Encode(abi, Unknown, StructValue(name, fields.value)) == Ok([Hex(Joined(name, data))])
            && Encode(abi, Known(Named(name)), StructValue(name, fields.value))
               == Ok(SplitIntoLimbs(Joined(name, data), Known(Named(name))))
  {
    var fields := DecodeMembers(abi, rank, data, s.members, rank(name)).value;
    StructUnfolds(abi, rank, data, name, s);
    hide Ranked, ByValueRank, DecodeMembers, Encode, StructValue, Clean, CleanMembers, Joined;
    LimbCount(s.members, LimbsOf(name));
    LimbsDecode(abi, rank, data, s.members, rank(name), LimbsOf(name));
    WideIsJoined(abi, name, data, fields.value);
  }

  lemma {:induction false} StructSettles(
    abi: Abi, rank: string -> nat, whole: seq<felt>, encoded: nat, data: seq<felt>, name: string, s: Struct)
    requires Ranked(abi, rank) && HasCoreStructs(abi) && HasDistinctVariants(abi) && KindOf(abi, name) == UserStruct(s)
    requires DecodeMembers(abi, rank, data, s.members, rank(name)).Some?
    ensures var fields := DecodeMembers(abi, rank, data, s.members, rank(name)).value;
            Settles(whole, encoded, Encode(abi, Known(Named(name)), StructValue(name, fields.value)), data, fields.rest,
                    Clean(abi, rank, data, Named(name)))
    decreases |data|, rank(name) + 1, Named(""), 1, 0
  {
    MembersAreRanked(abi, rank, name, s);
    StructUnfolds(abi, rank, data, name, s);
    hide Settles, Encode, EncodeFields, Clean, CleanMembers, DecodeMembers, StructValue, HasCoreStructs;
    hide HasDistinctVariants;
    hide AreLimbs, HasSmallLimbs, Ranked, ByValueRank, Joined, SplitIntoLimbs;
    var fields := DecodeMembers(abi, rank, data, s.members, rank(name)).value;
    if IsWide(name) {
      WideUnfolds(abi, rank, data, name, s);
      KnownWideSettles(name, whole, encoded, data);
    } else {
      MembersSettle(abi, rank, whole, encoded, data, s.members, rank(name), fields);
    }
  }

  /** Only wide integers are encoded differently under an unknown type; enums are not encoded at all. */
  lemma {:induction false} UnknownNamedStaysPending(
    abi: Abi, rank: string -> nat, whole: seq<felt>, encoded: nat, data: seq<felt>, name: string, read: Read<Value>)
    requires Ranked(abi, rank) && HasCoreStructs(abi) && HasDistinctVariants(abi)
    requires Decode(abi, rank, data, Named(name)) == Some(read)
    ensures StaysPending(whole, encoded, Encode(abi, Unknown, read.value), data, read.rest)
    decreases |data|, ByValueRank(abi, rank, Named(name)), Named(name), 0, 2
  {
    NamedNoShorter(abi, rank, data, name, read);
    var isWideStruct := IsWide(name) && KindOf(abi, name).UserStruct?;
    if isWideStruct {
      var s := KindOf(abi, name).struct_;
      WideReads(abi, rank, data, name, s, read);
      UnknownWideStaysPending(name, whole, encoded, data);
    }
    WideIsStruct(abi, rank, data, name, read);
    hide Settles, StaysPending, Encode, Decode, Clean, HasCoreStructs, HasDistinctVariants, Ranked, KindOf;
    if !isWideStruct {
      NamedSettles(abi, rank, whole, encoded, data, name, read);
      SettlesStaysPending(whole, encoded, Encode(abi, Known(Named(name)), read.value), data, read.rest,
                          Clean(abi, rank, data, Named(name)));
      FailedStaysPending(whole, encoded, Encode(abi, Unknown, read.value), Encode(abi, Known(Named(name)), read.value),
                         data, read.rest);
    }
  }

  lemma FailedStaysPending(
    whole: seq<felt>, encoded: nat, enc: Encoding, other: Encoding, data: seq<felt>, rest: seq<felt>)
    requires enc.Ok? ==> enc == other
    requires StaysPending(whole, encoded, other, data, rest)
    ensures StaysPending(whole, encoded, enc, data, rest)
  {
  }

  lemma WideReads(abi: Abi, rank: string -> nat, data: seq<felt>, name: string, s: Struct, read: Read<Value>)
    requires Ranked(abi, rank) && HasCoreStructs(abi) && KindOf(abi, name) == UserStruct(s) && IsWide(name)
    requires Decode(abi, rank, data, Named(name)) == Some(read)
    ensures LimbsOf(name) <= |data| && read.rest == data[LimbsOf(name)..]
    ensures Encode(abi, Unknown, read.value) == Ok([Hex(Joined(name, data))])
  {
    MembersAreRanked(abi, rank, name, s);
    hide Ranked, ByValueRank, DecodeMembers, Encode, StructValue, Joined, HasCoreStructs, KindOf;
    WideUnfolds(abi, rank, data, name, s);
  }

  lemma WideIsNotPrimitive(abi: Abi, name: string)
    ensures KindOf(abi, name).Primitive? ==> !IsWide(name)
  {
  }

  /** A name of a wide integer that is no struct is an enum, which is not encoded under an unknown type. */
  lemma WideIsStruct(abi: Abi, rank: string -> nat, data: seq<felt>, name: string, read: Read<Value>)
    requires Ranked(abi, rank) && Decode(abi, rank, data, Named(name)) == Some(read)
    ensures IsWide(name) && !KindOf(abi, name).UserStruct? ==> Encode(abi, Unknown, read.value).Err?
  {
    hide Ranked, ByValueRank, Decode, Encode, KindOf;
    match KindOf(abi, name) {
      case Primitive => WideIsNotPrimitive(abi, name);
      case UserEnum(e) => EnumIsNotEncoded(abi, rank, data, name, e, read);
      case Missing => MissingFails(abi, rank, data, name);
      case UserStruct(_) =>
    }
  }

  lemma {:induction false} EnumSettles(
    abi: Abi, rank: string -> nat, whole: seq<felt>, encoded: nat, data: seq<felt>, name: string, e: Enum,
    read: Read<Value>)
    requires Ranked(abi, rank) && HasCoreStructs(abi) && HasDistinctVariants(abi) && KindOf(abi, name) == UserEnum(e)
    requires Decode(abi, rank, data, Named(name)) == Some(read)
    ensures Settles(whole, encoded, Encode(abi, Known(Named(name)), read.value), data, read.rest,
                    Clean(abi, rank, data, Named(name)))
    decreases |data|, ByValueRank(abi, rank, Named(name)), Named(name), 0, 0
  {
    EnumUnfolds(abi, rank, data, name, e, read);
    FirstOfItsName(abi, name, e, data[0]);
    hide Settles, Encode, EncodeField, Decode, Clean, HasCoreStructs, HasDistinctVariants, KindOf, Ranked;
    hide ByValueRank, Position;
    var v, inner := e.variants[data[0]], read.value.inner;
    OneSettles(whole, encoded, data, data[0]);
    var cleanInner := v.ty.Some? && Clean(abi, rank, data[1..], v.ty.value);
    var after := After(encoded, Ok([Hex(data[0])]));
    if v.ty.Some? {
      DecodedSettles(abi, rank, whole, after, data[1..], v.ty.value, Read(inner.value, read.rest));
    } else {
      UnitSettles(abi, whole, after, inner, data[1..]);
    }
    JoinSettles(whole, encoded, Ok([Hex(data[0])]), EncodeField(abi, inner), data, data[1..], read.rest, true,
                cleanInner);
  }

  lemma EnumIsListed(abi: Abi, name: string, e: Enum)
    requires KindOf(abi, name) == UserEnum(e)
    ensures e in abi.enums
  {
  }

  lemma FirstOfItsName(abi: Abi, name: string, e: Enum, i: nat)
    requires HasDistinctVariants(abi) && KindOf(abi, name) == UserEnum(e) && i < |e.variants|
    ensures Position(e.variants, e.variants[i].name) == Some(i)
  {
    hide Position, KindOf;
    EnumIsListed(abi, name, e);
  }

  /** The encoder writes a unit variant's name, which is no felt. */
  lemma UnitSettles(abi: Abi, whole: seq<felt>, encoded: nat, inner: Decoded, data: seq<felt>)
    requires inner.typeName == StringName && inner.value.Text?
    ensures Settles(whole, encoded, EncodeField(abi, inner), data, data, false)
  {
    hide FindEnum;
    if LooksHex(inner.value.text) || EnumNamed(abi, StringName).None? {
      OtherTextIsNotEmitted(whole, encoded, Raw(inner.value.text));
    }
  }

  // ---------------------------------------------------------------- lists

  lemma {:induction false} ElementsSettle(
    abi: Abi, rank: string -> nat, whole: seq<felt>, encoded: nat, data: seq<felt>, element: Type, count: nat,
    read: Read<seq<Value>>)
    requires Ranked(abi, rank) && HasCoreStructs(abi) && HasDistinctVariants(abi)
    requires DecodeElements(abi, rank, data, element, count) == Some(read)
    ensures Settles(whole, encoded, EncodeItems(abi, Known(element), read.value), data, read.rest,
                    CleanElements(abi, rank, data, element, count))
    decreases |data|, ByValueRank(abi, rank, element), element, 2, count
  {
    hide Settles, Encode, EncodeItems, Decode, DecodeElements, Clean, CleanElements, HasCoreStructs;
    hide HasDistinctVariants;
    hide Ranked, ByValueRank;
    if count == 0 {
      NoElements(abi, rank, data, element, Known(element));
      NothingSettles(whole, encoded, data);
    } else {
      var first, others := ElementsUnfold(abi, rank, data, element, count, read, Known(element));
      var enc := Encode(abi, Known(element), first.value);
      DecodedSettles(abi, rank, whole, encoded, data, element, first);
      ElementsSettle(abi, rank, whole, After(encoded, enc), first.rest, element, count - 1, others);
      JoinSettles(whole, encoded, enc, EncodeItems(abi, Known(element), others.value), data, first.rest, read.rest,
                  Clean(abi, rank, data, element), CleanElements(abi, rank, first.rest, element, count - 1));
    }
  }

  lemma {:induction false} UnknownElementsStayPending(
    abi: Abi, rank: string -> nat, whole: seq<felt>, encoded: nat, data: seq<felt>, element: Type, count: nat,
    read: Read<seq<Value>>)
    requires Ranked(abi, rank) && HasCoreStructs(abi) && HasDistinctVariants(abi)
    requires DecodeElements(abi, rank, data, element, count) == Some(read)
    ensures StaysPending(whole, encoded, EncodeItems(abi, Unknown, read.value), data, read.rest)
    decreases |data|, ByValueRank(abi, rank, element), element, 2, count
  {
    hide StaysPending, Settles, Encode, EncodeItems, Decode, DecodeElements, Clean, CleanElements, HasCoreStructs;
    hide HasDistinctVariants, Ranked, ByValueRank;
    if count == 0 {
      NoElements(abi, rank, data, element, Unknown);
      NothingSettles(whole, encoded, data);
    } else {
      var first, others := ElementsUnfold(abi, rank, data, element, count, read, Unknown);
      var enc := Encode(abi, Unknown, first.value);
      UnknownStaysPending(abi, rank, whole, encoded, data, element, first);
      UnknownElementsStayPending(abi, rank, whole, After(encoded, enc), first.rest, element, count - 1, others);
      JoinStaysPending(whole, encoded, enc, EncodeItems(abi, Unknown, others.value), data, first.rest, read.rest);
    }
  }

  lemma {:induction false} TupleSettles(
    abi: Abi, rank: string -> nat, whole: seq<felt>, encoded: nat, data: seq<felt>, elements: seq<Type>,
    read: Read<seq<Value>>)
    requires Ranked(abi, rank) && HasCoreStructs(abi) && HasDistinctVariants(abi)
    requires DecodeTuple(abi, rank, data, elements) == Some(read)
    ensures Settles(whole, encoded, EncodeTuple(abi, elements, read.value), data, read.rest,
                    CleanTuple(abi, rank, data, elements))
    decreases |data|, ElementsRank(abi, rank, elements), elements, 0, 0
  {
    hide Settles, Encode, Decode, Clean, HasCoreStructs, HasDistinctVariants, Ranked;
    if elements == [] {
      NothingSettles(whole, encoded, data);
    } else {
      var first := Decode(abi, rank, data, elements[0]).value;
      var others := DecodeTuple(abi, rank, first.rest, elements[1..]).value;
      var enc := Encode(abi, Known(elements[0]), first.value);
      assert read.value[1..] == others.value;
      DecodedSettles(abi, rank, whole, encoded, data, elements[0], first);
      TupleSettles(abi, rank, whole, After(encoded, enc), first.rest, elements[1..], others);
      JoinSettles(whole, encoded, enc, EncodeTuple(abi, elements[1..], others.value), data, first.rest, read.rest,
                  Clean(abi, rank, data, elements[0]), CleanTuple(abi, rank, first.rest, elements[1..]));
    }
  }

  lemma {:induction false} UnknownTupleStaysPending(
    abi: Abi, rank: string -> nat, whole: seq<felt>, encoded: nat, data: seq<felt>, elements: seq<Type>,
    read: Read<seq<Value>>)
    requires Ranked(abi, rank) && HasCoreStructs(abi) && HasDistinctVariants(abi)
    requires DecodeTuple(abi, rank, data, elements) == Some(read)
    ensures StaysPending(whole, encoded, EncodeItems(abi, Unknown, read.value), data, read.rest)
    decreases |data|, ElementsRank(abi, rank, elements), elements, 0, 0
  {
    hide StaysPending, Settles, Encode, Decode, HasCoreStructs, HasDistinctVariants, Ranked;
    if elements == [] {
      NothingSettles(whole, encoded, data);
    } else {
      var first := Decode(abi, rank, data, elements[0]).value;
      var others := DecodeTuple(abi, rank, first.rest, elements[1..]).value;
      var enc := Encode(abi, Unknown, first.value);
      assert read.value[1..] == others.value;
      UnknownStaysPending(abi, rank, whole, encoded, data, elements[0], first);
      UnknownTupleStaysPending(abi, rank, whole, After(encoded, enc), first.rest, elements[1..], others);
      JoinStaysPending(whole, encoded, enc, EncodeItems(abi, Unknown, others.value), data, first.rest, read.rest);
    }
  }

  lemma {:induction false} MembersSettle(
    abi: Abi, rank: string -> nat, whole: seq<felt>, encoded: nat, data: seq<felt>, members: seq<Member>, bound: nat,
    read: Read<seq<Decoded>>)
    requires Ranked(abi, rank) && HasCoreStructs(abi) && HasDistinctVariants(abi)
    requires forall i :: 0 <= i < |members| ==> ByValueRank(abi, rank, members[i].ty) <= bound
    requires DecodeMembers(abi, rank, data, members, bound) == Some(read)
    ensures Settles(whole, encoded, EncodeFields(abi, read.value), data, read.rest,
                    CleanMembers(abi, rank, data, members, bound))
    decreases |data|, bound + 1, Named(""), 0, |members|
  {
    hide Settles, Encode, Decode, Clean, HasCoreStructs, HasDistinctVariants, Ranked;
    if members == [] {
      NothingSettles(whole, encoded, data);
    } else {
      var first := Decode(abi, rank, data, members[0].ty).value;
      var others := DecodeMembers(abi, rank, first.rest, members[1..], bound).value;
      var enc := Encode(abi, Known(members[0].ty), first.value);
      assert read.value[1..] == others.value;
      DecodedSettles(abi, rank, whole, encoded, data, members[0].ty, first);
      MembersSettle(abi, rank, whole, After(encoded, enc), first.rest, members[1..], bound, others);
      JoinSettles(whole, encoded, enc, EncodeFields(abi, others.value), data, first.rest, read.rest,
                  Clean(abi, rank, data, members[0].ty), CleanMembers(abi, rank, first.rest, members[1..], bound));
    }
  }

  lemma {:induction false} ParametersSettle(
    abi: Abi, rank: string -> nat, whole: seq<felt>, encoded: nat, data: seq<felt>, types: seq<Type>,
    names: seq<string>, read: Read<seq<Decoded>>)
    requires Ranked(abi, rank) && HasCoreStructs(abi) && HasDistinctVariants(abi)
    requires DecodeParameters(abi, rank, data, types, names) == Some(read)
    ensures Settles(whole, encoded, EncodeParameters(abi, types, read.value), data, read.rest,
                    CleanParameters(abi, rank, data, types))
    decreases |types|
  {
    hide Settles, Encode, Decode, Clean, HasCoreStructs, HasDistinctVariants, Ranked, ByValueRank;
    if types == [] {
      NothingSettles(whole, encoded, data);
    } else {
      var first := Decode(abi, rank, data, types[0]).value;
      var otherNames := if names == [] then [] else names[1..];
      var others := DecodeParameters(abi, rank, first.rest, types[1..], otherNames).value;
      var enc := Encode(abi, Known(types[0]), first.value);
      assert read.value[1..] == others.value;
      DecodedSettles(abi, rank, whole, encoded, data, types[0], first);
      ParametersSettle(abi, rank, whole, After(encoded, enc), first.rest, types[1..], otherNames, others);
      JoinSettles(whole, encoded, enc, EncodeParameters(abi, types[1..], others.value), data, first.rest, read.rest,
                  Clean(abi, rank, data, types[0]), CleanParameters(abi, rank, first.rest, types[1..]));
    }
  }

  /** No fixed array in the types or in the ABI holds wide integers. */
  ghost predicate AreNarrow(abi: Abi, types: seq<Type>) {
    IsNarrowAbi(abi) && forall i :: 0 <= i < |types| ==> IsNarrow(types[i])
  }

  /** Calldata that decodes comes back from the encoder, felt by felt, if and only if it is clean. */
  lemma CalldataComesBackIffClean(abi: Abi, rank: string -> nat, data: seq<felt>, types: seq<Type>, names: seq<string>)
    requires Ranked(abi, rank) && HasCoreStructs(abi)
    requires HasDistinctVariants(abi) || AreNarrow(abi, types)
    requires DecodeCalldata(abi, rank, data, types, names).Some?
    ensures EncodeParameters(abi, types, DecodeCalldata(abi, rank, data, types, names).value) == Ok(Hexes(data))
            <==> CleanParameters(abi, rank, data, types)
  {
    if HasDistinctVariants(abi) {
      DistinctComesBackIffClean(abi, rank, data, types, names);
    } else {
      OnlyCleanCalldataComesBack(abi, rank, data, types, names);
    }
    hide DecodeCalldata, EncodeParameters, CleanParameters, Ranked, HasCoreStructs, HasDistinctVariants;
  }

  lemma DistinctComesBackIffClean(abi: Abi, rank: string -> nat, data: seq<felt>, types: seq<Type>, names: seq<string>)
    requires Ranked(abi, rank) && HasCoreStructs(abi) && HasDistinctVariants(abi)
    requires DecodeCalldata(abi, rank, data, types, names).Some?
    ensures EncodeParameters(abi, types, DecodeCalldata(abi, rank, data, types, names).value) == Ok(Hexes(data))
            <==> CleanParameters(abi, rank, data, types)
  {
    var read := DecodeParameters(abi, rank, data, types, names).value;
    var enc := EncodeParameters(abi, types, read.value);
    ParametersSettle(abi, rank, data, 0, data, types, names, read);
    hide DecodeParameters, EncodeParameters, CleanParameters, Ranked, HasCoreStructs, HasDistinctVariants;
    assert enc == Ok(Hexes(data)) ==> Emits(data, 0, enc);
    if CleanParameters(abi, rank, data, types) { CleanCalldataComesBack(abi, rank, data, types, names); }
  }
}
