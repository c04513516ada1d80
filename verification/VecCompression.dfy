/**
 The dictionary compressor of Sierra programs: the distinct words become a code book, and the words'
 code indexes are packed, as many as fit, into field elements written in base `padded code size`.
 */
module VecCompression {
  import opened Wrappers
  import opened Numbers

  /** The number of encodings never drops below this. */
  const MIN_CODE_SIZE: nat := 256

  // ---------------------------------------------------------------- the code book

  /** The distinct values, in order of first occurrence. */
  function Distinct(values: seq<nat>): seq<nat> {
    if values == [] then []
    else
      var code := Distinct(values[..|values| - 1]);
      var last := values[|values| - 1];
      if last in code then code else code + [last]
  }

  function IndexOf(code: seq<nat>, value: nat): (i: nat)
    requires value in code
    ensures i < |code| && code[i] == value
    ensures forall j :: 0 <= j < i ==> code[j] != value
  {
    if code[0] == value then 0 else 1 + IndexOf(code[1..], value)
  }

  ghost predicate AllIn(values: seq<nat>, code: seq<nat>) {
    forall v :: v in values ==> v in code
  }

  lemma AllInParts(values: seq<nat>, n: nat, code: seq<nat>)
    requires n <= |values| && AllIn(values, code)
    ensures AllIn(values[..n], code) && AllIn(values[n..], code)
  {
  }

  lemma AllInSlice(values: seq<nat>, from: nat, to: nat, code: seq<nat>)
    requires from <= to <= |values| && AllIn(values, code)
    ensures AllIn(values[from..to], code)
  {
  }

  function Indexes(values: seq<nat>, code: seq<nat>): (indexes: seq<nat>)
    requires AllIn(values, code)
    ensures |indexes| == |values|
  {
    seq(|values|, i requires 0 <= i < |values| => IndexOf(code, values[i]))
  }

  lemma {:induction false} DistinctIsTheValueSet(values: seq<nat>)
    ensures forall v :: v in Distinct(values) <==> v in values
    ensures forall i, j :: 0 <= i < j < |Distinct(values)| ==> Distinct(values)[i] != Distinct(values)[j]
    ensures |Distinct(values)| <= |values|
  {
    if values != [] {
      var front, last := values[..|values| - 1], values[|values| - 1];
      DistinctIsTheValueSet(front);
      assert values == front + [last];
    }
  }

  /** `n.next_power_of_two()`, searched upwards from the power of two `p`. */
  function PowerOfTwoFrom(n: nat, p: nat): (r: nat)
    requires p > 0
    ensures n <= r && p <= r
    ensures r == p || r < 2 * n
    decreases n - p
  {
    if n <= p then p else PowerOfTwoFrom(n, 2 * p)
  }

  function PaddedSize(codeSize: nat): (size: nat)
    ensures codeSize <= size && MIN_CODE_SIZE <= size
    ensures size < 2 * Max(MIN_CODE_SIZE, codeSize)
  {
    PowerOfTwoFrom(Max(MIN_CODE_SIZE, codeSize), 1)
  }

  lemma {:induction false} PowerOfTwoFromIsLeast(n: nat, k: nat) returns (e: nat)
    requires k == 0 || Pow(2, k - 1) < n
    ensures Pow(2, k) > 0 && PowerOfTwoFrom(n, Pow(2, k)) == Pow(2, e)
    ensures e >= k && (e == 0 || Pow(2, e - 1) < n)
    decreases n - Pow(2, k)
  {
    PowPositive(2, k);
    if n <= Pow(2, k) {
      e := k;
    } else {
      e := PowerOfTwoFromIsLeast(n, k + 1);
    }
  }

  /** The padded size is the least power of two that is at least 256 and holds every code index. */
  lemma PaddedSizeIsLeastPowerOfTwo(codeSize: nat)
    ensures exists e: nat :: PaddedSize(codeSize) == Pow(2, e)
    ensures forall e: nat :: Max(MIN_CODE_SIZE, codeSize) <= Pow(2, e) ==> PaddedSize(codeSize) <= Pow(2, e)
  {
    var n := Max(MIN_CODE_SIZE, codeSize);
    assert Pow(2, 0) == 1;
    var least := PowerOfTwoFromIsLeast(n, 0);
    assert PaddedSize(codeSize) == Pow(2, least);
    forall e: nat | n <= Pow(2, e)
      ensures PaddedSize(codeSize) <= Pow(2, e)
    {
      if e < least {
        PowMonotone(2, e, least - 1);
      } else {
        PowMonotone(2, least, e);
      }
    }
  }

  // ---------------------------------------------------------------- digits

  function Pack(digits: seq<nat>, base: nat): nat {
    if digits == [] then 0 else digits[0] + base * Pack(digits[1..], base)
  }

  function Unpack(packed: nat, count: nat, base: nat): (digits: seq<nat>)
    requires base > 0
    ensures |digits| == count
    decreases count
  {
    if count == 0 then [] else [packed % base] + Unpack(packed / base, count - 1, base)
  }

  ghost predicate AreDigits(digits: seq<nat>, base: nat) {
    forall i :: 0 <= i < |digits| ==> digits[i] < base
  }

  lemma {:induction false} UnpackInvertsPack(digits: seq<nat>, base: nat)
    requires base > 0 && AreDigits(digits, base)
    ensures Unpack(Pack(digits, base), |digits|, base) == digits
  {
    if digits != [] {
      DigitSplit(digits[0], base, Pack(digits[1..], base));
      UnpackInvertsPack(digits[1..], base);
    }
  }

  lemma {:induction false} PackBelowPow(digits: seq<nat>, base: nat)
    requires base > 0 && AreDigits(digits, base)
    ensures Pack(digits, base) < Pow(base, |digits|)
  {
    if digits != [] {
      PackBelowPow(digits[1..], base);
      ScaleMonotone(base, Pack(digits[1..], base) + 1, Pow(base, |digits| - 1));
    }
  }

  lemma {:induction false} UnpackDigit(packed: nat, count: nat, base: nat, i: nat)
    requires base > 0 && i < count
    ensures Pow(base, i) > 0
    ensures Unpack(packed, count, base)[i] == packed / Pow(base, i) % base
    decreases count
  {
    PowPositive(base, i);
    if i == 0 {
      assert packed / 1 == packed;
    } else {
      UnpackDigit(packed / base, count - 1, base, i - 1);
      var p := Pow(base, i - 1);
      DivideTwice(packed, base, p);
      assert Unpack(packed, count, base)[i] == Unpack(packed / base, count - 1, base)[i - 1];
    }
  }

  // ---------------------------------------------------------------- words per felt

  /** The largest `k` with `base^k` below the prime. */
  function WordsPerFelt(base: nat): (k: nat)
    requires base >= 2
    ensures Pow(base, k) < PRIME <= Pow(base, k + 1)
  {
    WordsPerFeltFrom(base, 0)
  }

  function WordsPerFeltFrom(base: nat, k: nat): (r: nat)
    requires base >= 2 && Pow(base, k) < PRIME
    ensures Pow(base, r) < PRIME <= Pow(base, r + 1)
    decreases PRIME - Pow(base, k)
  {
    if PRIME <= Pow(base, k + 1) then k
    else
      PowPositive(base, k);
      WordsPerFeltFrom(base, k + 1)
  }

  lemma WordsPerFeltIsUnique(base: nat, k: nat)
    requires base >= 2 && Pow(base, k) < PRIME <= Pow(base, k + 1)
    ensures k == WordsPerFelt(base)
  {
    var w := WordsPerFelt(base);
    if k < w { PowMonotone(base, k + 1, w); }
    if w < k { PowMonotone(base, w + 1, k); }
  }

  /** `words_per_felt`: terminates and finds that exponent for every base of at least 2. */
  method ComputeWordsPerFelt(paddedCodeSize: nat) returns (count: nat)
    requires paddedCodeSize >= 2
    ensures Pow(paddedCodeSize, count) < PRIME <= Pow(paddedCodeSize, count + 1)
    ensures count == WordsPerFelt(paddedCodeSize)
  {
    count := 0;
    var maxEncoded := paddedCodeSize;
    assert Pow(paddedCodeSize, 0) == 1;
    while maxEncoded < PRIME
      invariant maxEncoded == Pow(paddedCodeSize, count + 1) > 0
      invariant Pow(paddedCodeSize, count) < PRIME
      decreases PRIME - maxEncoded
    {
      PowPositive(paddedCodeSize, count);
      ScaleMonotone(maxEncoded, 2, paddedCodeSize);
      assert Pow(paddedCodeSize, count + 2) == paddedCodeSize * Pow(paddedCodeSize, count + 1);
      maxEncoded := maxEncoded * paddedCodeSize;
      count := count + 1;
    }
    WordsPerFeltIsUnique(paddedCodeSize, count);
  }

  lemma WordsPerFeltPositive(base: nat)
    requires 2 <= base < PRIME
    ensures WordsPerFelt(base) > 0
  {
    assert Pow(base, 0) == 1;
    assert Pow(base, 1) == base;
  }

  // ---------------------------------------------------------------- compression

  function PackWords(values: seq<nat>, code: seq<nat>, base: nat, width: nat): seq<nat>
    requires width > 0
    requires AllIn(values, code)
  {
    if values == [] then []
    else
      var n := Min(width, |values|);
      AllInParts(values, n, code);
      [Pack(Indexes(values[..n], code), base)] + PackWords(values[n..], code, base, width)
  }

  function Compress(values: seq<nat>): seq<nat>
    requires |values| < SLICE_BOUND
  {
    DistinctIsTheValueSet(values);
    var code := Distinct(values);
    var base := PaddedSize(|code|);
    WordsPerFeltPositive(base);
    HeaderFelts(code, base - |code|, |values|) + PackWords(values, code, base, WordsPerFelt(base))
  }

  function HeaderFelts(code: seq<nat>, padding: nat, count: nat): seq<nat> {
    [|code|, padding] + code + [count]
  }

  method RunCompress(values: seq<nat>) returns (result: seq<nat>)
    requires |values| < SLICE_BOUND
    ensures result == Compress(values)
  {
    hide Distinct, PaddedSize, PackWords, WordsPerFelt, IsCodeOf, Pow, Indexes;
    DistinctIsTheValueSet(values);
    var keys, code := BuildCode(values);
    var base := PaddedSize(|keys|);
    WordsPerFeltPositive(base);
    var width := ComputeWordsPerFelt(base);
    var packed := PackChunks(values, keys, code, base, width);
    result := HeaderFelts(keys, base - |keys|, |values|) + packed;
  }

  /** The loop of `compress` over the chunks of `width` values. */
  method PackChunks(
    values: seq<nat>, ghost keys: seq<nat>, code: map<nat, nat>, base: nat, width: nat) returns (result: seq<nat>)
    requires width > 0
    requires IsCodeOf(code, keys) && AllIn(values, keys)
    ensures result == PackWords(values, keys, base, width)
  {
    hide IsCodeOf, PackWords, Pack, Indexes, IndexOf, PackedUpTo, AllIn;
    PackedNothing(values, keys, base, width);
    result := [];
    var start := 0;
    while start < |values|
      invariant 0 <= start <= |values|
      invariant PackedUpTo(values, keys, base, width, start, result)
    {
      var end := start + Min(width, |values| - start);
      PackedNext(values, keys, base, width, start, end, result);
      var packedValue := PackChunk(values[start..end], keys, code, base);
      result := result + [packedValue];
      start := end;
    }
    PackedAll(values, keys, base, width, result);
  }

  /** `result` packs the first `start` values, a multiple of the chunk width or all. */
  ghost predicate PackedUpTo(values: seq<nat>, code: seq<nat>, base: nat, width: nat, start: nat, result: seq<nat>)
    requires width > 0 && start <= |values|
    requires AllIn(values, code)
  {
    AllInParts(values, start, code);
    result + PackWords(values[start..], code, base, width) == PackWords(values, code, base, width)
  }

  lemma PackedNothing(values: seq<nat>, code: seq<nat>, base: nat, width: nat)
    requires width > 0 && AllIn(values, code)
    ensures PackedUpTo(values, code, base, width, 0, [])
  {
    hide PackWords, AllIn;
    AllInParts(values, 0, code);
    assert values[0..] == values;
  }

  lemma PackedAll(values: seq<nat>, code: seq<nat>, base: nat, width: nat, result: seq<nat>)
    requires width > 0 && AllIn(values, code)
    requires PackedUpTo(values, code, base, width, |values|, result)
    ensures result == PackWords(values, code, base, width)
  {
    AllInParts(values, |values|, code);
    assert result == result + PackWords(values[|values|..], code, base, width);
  }

  lemma PackedNext(
    values: seq<nat>, code: seq<nat>, base: nat, width: nat, start: nat, end: nat, result: seq<nat>)
    requires width > 0 && start < |values| && end == start + Min(width, |values| - start)
    requires AllIn(values, code)
    requires PackedUpTo(values, code, base, width, start, result)
    ensures AllIn(values[start..end], code)
    ensures PackedUpTo(values, code, base, width, end, result + [Pack(Indexes(values[start..end], code), base)])
  {
    hide AllIn, Pack, Indexes, PackWords;
    AllInParts(values, start, code);
    AllInParts(values, end, code);
    AllInSlice(values, start, end, code);
    PackWordsUnfolds(values[start..], code, base, width);
    SliceTwice(values, start, end);
    AppendOne(result, Pack(Indexes(values[start..end], code), base), PackWords(values[end..], code, base, width));
  }

  lemma SliceTwice(values: seq<nat>, start: nat, end: nat)
    requires start <= end <= |values|
    ensures values[start..][..end - start] == values[start..end] && values[start..][end - start..] == values[end..]
  {
  }

  lemma PackWordsUnfolds(values: seq<nat>, code: seq<nat>, base: nat, width: nat)
    requires width > 0 && values != [] && AllIn(values, code)
    ensures var n := Min(width, |values|);
            && AllIn(values[..n], code) && AllIn(values[n..], code)
            && PackWords(values, code, base, width)
               == [Pack(Indexes(values[..n], code), base)] + PackWords(values[n..], code, base, width)
  {
    hide AllIn, Pack, Indexes;
    AllInParts(values, Min(width, |values|), code);
  }

  lemma AppendOne(front: seq<nat>, middle: nat, back: seq<nat>)
    ensures front + ([middle] + back) == (front + [middle]) + back
  {
  }

  /** The insertion-ordered map `code` of `compress`, as its key order and its contents. */
  method BuildCode(values: seq<nat>) returns (keys: seq<nat>, code: map<nat, nat>)
    ensures keys == Distinct(values)
    ensures IsCodeOf(code, keys)
  {
    keys, code := [], map[];
    for i := 0 to |values|
      invariant keys == Distinct(values[..i])
      invariant IsCodeOf(code, keys)
    {
      assert values[..i + 1][..i] == values[..i];
      if values[i] !in code {
        ExtendCode(keys, code, values[i]);
        code := code[values[i] := |keys|];
        keys := keys + [values[i]];
      }
    }
    assert values[..|values|] == values;
  }

  ghost predicate IsCodeOf(code: map<nat, nat>, keys: seq<nat>) {
    && (forall v :: v in code <==> v in keys)
    && forall v :: v in keys ==> code[v] == IndexOf(keys, v)
  }

  lemma ExtendCode(keys: seq<nat>, code: map<nat, nat>, value: nat)
    requires IsCodeOf(code, keys) && value !in code
    ensures IsCodeOf(code[value := |keys|], keys + [value])
  {
    NewKeyIndex(keys, value);
    forall v | v in keys ensures IndexOf(keys + [value], v) == IndexOf(keys, v) {
      IndexOfPrefix(keys, [value], v);
    }
  }

  method PackChunk(chunk: seq<nat>, ghost keys: seq<nat>, code: map<nat, nat>, base: nat) returns (packedValue: nat)
    requires IsCodeOf(code, keys) && AllIn(chunk, keys)
    ensures packedValue == Pack(Indexes(chunk, keys), base)
  {
    hide Pack, Indexes, IndexOf, AllIn;
    packedValue := 0;
    var j := |chunk|;
    NothingPacked(chunk, keys, base);
    while j > 0
      invariant 0 <= j <= |chunk| && AllIn(chunk[j..], keys)
      invariant packedValue == Pack(Indexes(chunk[j..], keys), base)
    {
      j := j - 1;
      DigitInFront(chunk, j, keys, base);
      packedValue := packedValue * base + code[chunk[j]];
    }
    assert chunk[0..] == chunk;
  }

  lemma NothingPacked(chunk: seq<nat>, keys: seq<nat>, base: nat)
    ensures AllIn(chunk[|chunk|..], keys) && Pack(Indexes(chunk[|chunk|..], keys), base) == 0
  {
  }

  lemma DigitInFront(chunk: seq<nat>, j: nat, keys: seq<nat>, base: nat)
    requires j < |chunk| && AllIn(chunk, keys)
    ensures AllIn(chunk[j + 1..], keys) && AllIn(chunk[j..], keys) && chunk[j] in keys
    ensures Pack(Indexes(chunk[j..], keys), base)
            == IndexOf(keys, chunk[j]) + base * Pack(Indexes(chunk[j + 1..], keys), base)
  {
    hide IndexOf;
    assert Indexes(chunk[j..], keys)[1..] == Indexes(chunk[j + 1..], keys);
  }

  lemma {:induction false} IndexOfPrefix(code: seq<nat>, tail: seq<nat>, value: nat)
    requires value in code
    ensures IndexOf(code + tail, value) == IndexOf(code, value)
  {
    var i, j := IndexOf(code + tail, value), IndexOf(code, value);
    assert (code + tail)[j] == value;
  }

  lemma NewKeyIndex(code: seq<nat>, value: nat)
    requires value !in code
    ensures IndexOf(code + [value], value) == |code|
  {
    var i := IndexOf(code + [value], value);
    assert (code + [value])[|code|] == value;
  }

  // ---------------------------------------------------------------- decompression

  /**
   How a run of `decompress` ends: with the words, with `None`, by overflowing `usize` in the sum of the
   two header sizes, or not at all (the word count loop never reaches the prime for a base below 2).
   */
  datatype Outcome = Unpacked(words: seq<nat>) | Rejected | Overflowed | Diverges

  /** `code.get(i)?` for each digit. */
  function LookUp(digits: seq<nat>, code: seq<nat>): (words: Option<seq<nat>>)
    ensures words.Some? <==> AreDigits(digits, |code|)
    ensures words.Some? ==> |words.value| == |digits|
    ensures words.Some? ==> forall i :: 0 <= i < |digits| ==> digits[i] < |code| && words.value[i] == code[digits[i]]
  {
    if digits == [] then Some([])
    else if digits[0] >= |code| then None
    else match LookUp(digits[1..], code)
      case None => None
      case Some(words) => Some([code[digits[0]]] + words)
  }

  function UnpackFelts(packed: seq<nat>, code: seq<nat>, base: nat, width: nat, remaining: nat): Option<seq<nat>>
    requires base > 0
  {
    if packed == [] then
      if remaining == 0 then Some([]) else None
    else
      var n := Min(width, remaining);
      match LookUp(Unpack(packed[0], n, base), code)
      case None => None
      case Some(words) =>
        match UnpackFelts(packed[1..], code, base, width, remaining - n)
        case None => None
        case Some(rest) => Some(words + rest)
  }

  /** The header a well-formed input starts with, and the packed felts after it. */
  datatype Header = Header(code: seq<nat>, base: nat, count: nat, felts: seq<nat>)

  function PopUsize(felts: seq<nat>): Option<(nat, seq<nat>)> {
    if felts == [] || felts[0] >= USIZE_BOUND then None else Some((felts[0], felts[1..]))
  }

  function ReadHeader(felts: seq<nat>): Option<Header> {
    var (codeSize, felts) :- PopUsize(felts);
    if codeSize >= |felts| then None
    else
      var (padding, felts) :- PopUsize(felts);
      var (count, rest) :- PopUsize(felts[codeSize..]);
      Some(Header(felts[..codeSize], codeSize + padding, count, rest))
  }

  function Decompress(felts: seq<nat>): Outcome {
    match ReadHeader(felts)
    case None => Rejected
    case Some(h) =>
      if h.base >= USIZE_BOUND then Overflowed
      else if h.base < 2 then Diverges
      else match UnpackFelts(h.felts, h.code, h.base, WordsPerFelt(h.base), h.count)
        case None => Rejected
        case Some(words) => Unpacked(words)
  }

  method RunDecompress(felts: seq<nat>) returns (outcome: Outcome)
    ensures outcome == Decompress(felts)
  {
    var header := ReadHeader(felts);
    if header.None? { return Rejected; }
    var Header(code, base, count, packed) := header.value;
    if base >= USIZE_BOUND { return Overflowed; }
    if base < 2 { return Diverges; }
    var width := ComputeWordsPerFelt(base);
    var result: seq<nat> := [];
    var remaining := count;
    for i := 0 to |packed|
      invariant Continue(result, UnpackFelts(packed[i..], code, base, width, remaining)) == Decompress(felts)
    {
      var n := Min(width, remaining);
      assert packed[i..][1..] == packed[i + 1..];
      var words := UnpackFelt(packed[i], n, code, base);
      if words.None? { return Rejected; }
      assert forall rest: seq<nat> :: result + (words.value + rest) == (result + words.value) + rest;
      result := result + words.value;
      remaining := remaining - n;
    }
    assert result + [] == result;
    outcome := if remaining == 0 then Unpacked(result) else Rejected;
  }

  ghost function Continue(result: seq<nat>, rest: Option<seq<nat>>): Outcome {
    match rest
    case None => Rejected
    case Some(words) => Unpacked(result + words)
  }

  /** The inner loop of `decompress`: peels `count` code words off one felt. */
  method UnpackFelt(packed: nat, count: nat, code: seq<nat>, base: nat) returns (words: Option<seq<nat>>)
    requires base > 0
    ensures words == LookUp(Unpack(packed, count, base), code)
  {
    hide LookUp, Unpack;
    var result: seq<nat> := [];
    var v: nat := packed;
    NothingBefore(LookUp(Unpack(packed, count, base), code));
    for k := 0 to count
      invariant Behind(result, LookUp(Unpack(v, count - k, base), code)) == LookUp(Unpack(packed, count, base), code)
    {
      var codeWord := v % base;
      OneMoreDigit(result, v, count - k, code, base);
      if codeWord >= |code| { return None; }
      result := result + [code[codeWord]];
      v := v / base;
    }
    NoMoreDigits(result, v, code, base);
    words := Some(result);
  }

  ghost function Behind(result: seq<nat>, rest: Option<seq<nat>>): Option<seq<nat>> {
    match rest
    case None => None
    case Some(words) => Some(result + words)
  }

  lemma NothingBefore(rest: Option<seq<nat>>)
    ensures Behind([], rest) == rest
  {
    if rest.Some? { assert [] + rest.value == rest.value; }
  }

  lemma OneMoreDigit(result: seq<nat>, v: nat, n: nat, code: seq<nat>, base: nat)
    requires base > 0 && n > 0
    ensures Behind(result, LookUp(Unpack(v, n, base), code))
            == if v % base >= |code| then None
               else Behind(result + [code[v % base]], LookUp(Unpack(v / base, n - 1, base), code))
  {
    var rest := Unpack(v / base, n - 1, base);
    assert Unpack(v, n, base) == [v % base] + rest && ([v % base] + rest)[1..] == rest;
    if v % base < |code| && LookUp(rest, code).Some? {
      AppendOne(result, code[v % base], LookUp(rest, code).value);
    }
  }

  lemma NoMoreDigits(result: seq<nat>, v: nat, code: seq<nat>, base: nat)
    requires base > 0
    ensures Behind(result, LookUp(Unpack(v, 0, base), code)) == Some(result)
  {
    assert LookUp([], code) == Some([]) && result + [] == result;
  }

  // ---------------------------------------------------------------- main results

  lemma {:induction false} UnpackFeltsInvertsPackWords(
    values: seq<nat>, code: seq<nat>, base: nat, width: nat, tail: seq<nat>)
    requires width > 0 && 0 < base && |code| <= base
    requires AllIn(values, code)
    ensures UnpackFelts(PackWords(values, code, base, width) + tail, code, base, width, |values|) == Some(values)
  {
    hide IndexOf, Indexes, Pack, Unpack, LookUp, UnpackFelts, PackWords, AllIn;
    if values == [] {
      TrailingFeltsIgnored(tail, code, base, width);
      NoWords(code, base, width, tail);
    } else {
      var n := Min(width, |values|);
      PackWordsUnfolds(values, code, base, width);
      var packed, rest := Pack(Indexes(values[..n], code), base), PackWords(values[n..], code, base, width);
      ChunkLooksUp(values[..n], code, base);
      UnpackFeltsInvertsPackWords(values[n..], code, base, width, tail);
      Regroup([packed], rest, tail);
      UnpackOne(packed, rest + tail, code, base, width, |values|, values[..n], values[n..]);
      assert values[..n] + values[n..] == values;
    }
  }

  lemma NoWords(code: seq<nat>, base: nat, width: nat, tail: seq<nat>)
    requires width > 0
    ensures PackWords([], code, base, width) + tail == tail
  {
  }

  lemma UnpackOne(
    packed: nat, rest: seq<nat>, code: seq<nat>, base: nat, width: nat, remaining: nat, chunk: seq<nat>,
    words: seq<nat>)
    requires base > 0 && LookUp(Unpack(packed, Min(width, remaining), base), code) == Some(chunk)
    requires UnpackFelts(rest, code, base, width, remaining - Min(width, remaining)) == Some(words)
    ensures UnpackFelts([packed] + rest, code, base, width, remaining) == Some(chunk + words)
  {
  }

  lemma ChunkLooksUp(chunk: seq<nat>, code: seq<nat>, base: nat)
    requires 0 < base && |code| <= base
    requires AllIn(chunk, code)
    ensures LookUp(Unpack(Pack(Indexes(chunk, code), base), |chunk|, base), code) == Some(chunk)
  {
    var digits := Indexes(chunk, code);
    UnpackInvertsPack(digits, base);
    assert LookUp(digits, code).value == chunk;
  }

  lemma {:induction false} TrailingFeltsIgnored(tail: seq<nat>, code: seq<nat>, base: nat, width: nat)
    requires base > 0
    ensures UnpackFelts(tail, code, base, width, 0) == Some([])
  {
    if tail != [] {
      TrailingFeltsIgnored(tail[1..], code, base, width);
      var none := Unpack(tail[0], 0, base);
      assert none == [] && none + none == none;
      assert UnpackFelts(tail, code, base, width, 0) == Some(none + none);
    }
  }

  lemma ReadHeaderOf(code: seq<nat>, padding: nat, count: nat, felts: seq<nat>)
    requires |code| < USIZE_BOUND && padding < USIZE_BOUND && count < USIZE_BOUND
    ensures ReadHeader(HeaderFelts(code, padding, count) + felts) == Some(Header(code, |code| + padding, count, felts))
  {
    var all := HeaderFelts(code, padding, count) + felts;
    assert all[1..] == [padding] + code + [count] + felts;
    assert all[1..][1..] == code + ([count] + felts);
    assert (code + ([count] + felts))[..|code|] == code;
    assert (code + ([count] + felts))[|code|..] == [count] + felts;
  }

  lemma DecompressUnderHeader(felts: seq<nat>, values: seq<nat>, code: seq<nat>, base: nat, tail: seq<nat>)
    requires 2 <= base < USIZE_BOUND && |code| <= base && WordsPerFelt(base) > 0
    requires AllIn(values, code)
    requires ReadHeader(felts)
             == Some(Header(code, base, |values|, PackWords(values, code, base, WordsPerFelt(base)) + tail))
    ensures Decompress(felts) == Unpacked(values)
  {
    UnpackFeltsInvertsPackWords(values, code, base, WordsPerFelt(base), tail);
  }

  lemma ReadHeaderOfCompress(values: seq<nat>, tail: seq<nat>)
    requires |values| < SLICE_BOUND
    ensures var code := Distinct(values);
            var base := PaddedSize(|code|);
            && AllIn(values, code)
            && 2 <= base < USIZE_BOUND && |code| <= base && WordsPerFelt(base) > 0
            && ReadHeader(Compress(values) + tail)
               == Some(Header(code, base, |values|, PackWords(values, code, base, WordsPerFelt(base)) + tail))
  {
    hide ReadHeader, Distinct, PackWords, PaddedSize, WordsPerFelt;
    DistinctIsTheValueSet(values);
    var code := Distinct(values);
    var base := PaddedSize(|code|);
    WordsPerFeltPositive(base);
    var packed := PackWords(values, code, base, WordsPerFelt(base));
    ReadHeaderOf(code, base - |code|, |values|, packed + tail);
    Regroup(HeaderFelts(code, base - |code|, |values|), packed, tail);
  }

  lemma Regroup(a: seq<nat>, b: seq<nat>, c: seq<nat>)
    ensures a + b + c == a + (b + c)
  {
  }

  /** `decompress` undoes `compress`, whatever felts follow the compressed ones. */
  lemma DecompressInvertsCompress(values: seq<nat>, tail: seq<nat>)
    requires |values| < SLICE_BOUND
    ensures Decompress(Compress(values) + tail) == Unpacked(values)
  {
    ReadHeaderOfCompress(values, tail);
    var code := Distinct(values);
    DecompressUnderHeader(Compress(values) + tail, values, code, PaddedSize(|code|), tail);
  }

  lemma CompressIsInjective(values: seq<nat>, others: seq<nat>)
    requires |values| < SLICE_BOUND && |others| < SLICE_BOUND
    ensures Compress(values) == Compress(others) ==> values == others
  {
    DecompressInvertsCompress(values, []);
    DecompressInvertsCompress(others, []);
  }

  /** A vector of field elements compresses to field elements. */
  lemma CompressYieldsFelts(values: seq<nat>)
    requires |values| < SLICE_BOUND
    requires forall v :: v in values ==> v < PRIME
    ensures forall felt :: felt in Compress(values) ==> felt < PRIME
  {
    DistinctIsTheValueSet(values);
    var code := Distinct(values);
    var base := PaddedSize(|code|);
    WordsPerFeltPositive(base);
    PackedWordsBelowPrime(values, code, base);
  }

  lemma {:induction false} PackedWordsBelowPrime(values: seq<nat>, code: seq<nat>, base: nat)
    requires 2 <= base < PRIME && |code| <= base && WordsPerFelt(base) > 0
    requires AllIn(values, code)
    ensures forall felt :: felt in PackWords(values, code, base, WordsPerFelt(base)) ==> felt < PRIME
  {
    if values != [] {
      var n := Min(WordsPerFelt(base), |values|);
      var digits := Indexes(values[..n], code);
      PackBelowPow(digits, base);
      PowMonotone(base, n, WordsPerFelt(base));
      PackedWordsBelowPrime(values[n..], code, base);
    }
  }

  function Digit(packed: nat, k: nat, base: nat): nat
    requires base > 0
  {
    PowPositive(base, k);
    packed / Pow(base, k) % base
  }

  /** Digit `i` of the packed felts, addressed directly. */
  function DigitAt(h: Header, width: nat, i: nat): nat
    requires h.base > 0 && width > 0 && i < width * |h.felts|
  {
    IndexInFelts(i, width, |h.felts|);
    Digit(h.felts[i / width], i % width, h.base)
  }

  lemma IndexInFelts(i: nat, width: nat, felts: nat)
    requires width > 0 && i < width * felts
    ensures i / width < felts
  {
    if i / width >= felts {
      ScaleMonotone(width, felts, i / width);
    }
  }

  /** Enough felts for the announced words, and every needed digit is in the code book. */
  ghost predicate Decodable(h: Header, width: nat)
    requires h.base > 0 && width > 0
  {
    && h.count <= width * |h.felts|
    && forall i :: 0 <= i < h.count ==> DigitAt(h, width, i) < |h.code|
  }

  ghost predicate IsDecoded(h: Header, width: nat, words: seq<nat>)
    requires h.base > 0 && width > 0 && Decodable(h, width)
  {
    && |words| == h.count
    && forall i :: 0 <= i < h.count ==> words[i] == h.code[DigitAt(h, width, i)]
  }

  /**
   On every input, `decompress` succeeds exactly when the header is readable, there are enough felts for
   the announced words and every needed digit is in the code book; and then word `i` is the code word of
   digit `i mod width` of felt `i div width`.
   */
  lemma DecompressIsRandomAccess(felts: seq<nat>, h: Header)
    requires ReadHeader(felts) == Some(h) && 2 <= h.base < USIZE_BOUND
    ensures WordsPerFelt(h.base) > 0
    ensures Decompress(felts).Unpacked? <==> Decodable(h, WordsPerFelt(h.base))
    ensures Decompress(felts).Unpacked? ==> IsDecoded(h, WordsPerFelt(h.base), Decompress(felts).words)
  {
    WordsPerFeltPositive(h.base);
    UnpackFeltsIsRandomAccess(h, WordsPerFelt(h.base));
  }

  lemma {:induction false} UnpackFeltsIsRandomAccess(h: Header, width: nat)
    requires h.base > 0 && width > 0
    ensures var result := UnpackFelts(h.felts, h.code, h.base, width, h.count);
            && (result.Some? <==> Decodable(h, width))
            && (result.Some? ==> IsDecoded(h, width, result.value))
    decreases |h.felts|
  {
    hide Unpack, LookUp, UnpackFelts, Decodable, IsDecoded;
    if h.felts == [] {
      NoFelts(h, width);
    } else {
      var n := Min(width, h.count);
      var tail := h.(count := h.count - n, felts := h.felts[1..]);
      UnpackFeltsIsRandomAccess(tail, width);
      var first := Unpack(h.felts[0], n, h.base);
      DecodableFirst(h, tail, width, n, first);
      UnpackFeltsUnfolds(h, width);
      var rest := UnpackFelts(tail.felts, h.code, h.base, width, tail.count);
      if AreDigits(first, |h.code|) && rest.Some? {
        IsDecodedFirst(h, tail, width, n, first, LookUp(first, h.code).value, rest.value);
      }
    }
  }

  lemma NoFelts(h: Header, width: nat)
    requires h.base > 0 && width > 0 && h.felts == []
    ensures var result := UnpackFelts(h.felts, h.code, h.base, width, h.count);
            && (result.Some? <==> Decodable(h, width))
            && (result.Some? ==> IsDecoded(h, width, result.value))
  {
  }

  lemma UnpackFeltsUnfolds(h: Header, width: nat)
    requires h.base > 0 && h.felts != []
    ensures var n := Min(width, h.count);
            var first := Unpack(h.felts[0], n, h.base);
            var rest := UnpackFelts(h.felts[1..], h.code, h.base, width, h.count - n);
            UnpackFelts(h.felts, h.code, h.base, width, h.count)
            == if AreDigits(first, |h.code|) && rest.Some? then Some(LookUp(first, h.code).value + rest.value) else None
  {
    hide Unpack;
  }

  lemma DigitsSplit(h: Header, tail: Header, width: nat, n: nat, first: seq<nat>)
    requires h.base > 0 && width > 0 && h.felts != [] && h.count <= width * |h.felts|
    requires n == Min(width, h.count) && tail == h.(count := h.count - n, felts := h.felts[1..])
    requires first == Unpack(h.felts[0], n, h.base)
    ensures tail.count <= width * |tail.felts|
    ensures forall i :: 0 <= i < n ==> DigitAt(h, width, i) == first[i]
    ensures forall i :: n <= i < h.count ==> DigitAt(h, width, i) == DigitAt(tail, width, i - n)
  {
    hide DigitAt, Unpack;
    FeltsShrink(width, |h.felts|, h.count, n);
    forall i | 0 <= i < n ensures DigitAt(h, width, i) == first[i] {
      DigitInFirstFelt(h, width, n, i);
    }
    forall i | n <= i < h.count ensures DigitAt(h, width, i) == DigitAt(tail, width, i - n) {
      DigitInLaterFelt(h, tail, width, i);
    }
  }

  lemma FeltsShrink(width: nat, felts: nat, count: nat, n: nat)
    requires felts > 0 && n == Min(width, count)
    ensures count <= width * felts <==> count - n <= width * (felts - 1)
  {
    Distribute(width, felts - 1, 1);
  }

  lemma DecodableFirst(h: Header, tail: Header, width: nat, n: nat, first: seq<nat>)
    requires h.base > 0 && width > 0 && h.felts != []
    requires n == Min(width, h.count) && tail == h.(count := h.count - n, felts := h.felts[1..])
    requires first == Unpack(h.felts[0], n, h.base)
    ensures Decodable(h, width) <==> AreDigits(first, |h.code|) && Decodable(tail, width)
  {
    hide DigitAt, Unpack;
    FeltsShrink(width, |h.felts|, h.count, n);
    if h.count <= width * |h.felts| {
      DigitsSplit(h, tail, width, n, first);
      if Decodable(h, width) {
        forall i | 0 <= i < tail.count ensures DigitAt(tail, width, i) < |h.code| {
          assert DigitAt(h, width, i + n) == DigitAt(tail, width, i + n - n);
        }
      }
    }
  }

  lemma IsDecodedFirst(
    h: Header, tail: Header, width: nat, n: nat, first: seq<nat>, found: seq<nat>, words: seq<nat>)
    requires h.base > 0 && width > 0 && h.felts != []
    requires n == Min(width, h.count) && tail == h.(count := h.count - n, felts := h.felts[1..])
    requires first == Unpack(h.felts[0], n, h.base) && LookUp(first, h.code) == Some(found)
    requires Decodable(h, width) && Decodable(tail, width) && IsDecoded(tail, width, words)
    ensures IsDecoded(h, width, found + words)
  {
    hide DigitAt, Unpack, LookUp;
    DigitsSplit(h, tail, width, n, first);
    forall i | 0 <= i < h.count ensures (found + words)[i] == h.code[DigitAt(h, width, i)] {
      if i < n {
        assert DigitAt(h, width, i) == first[i];
      } else {
        assert DigitAt(h, width, i) == DigitAt(tail, width, i - n);
      }
    }
  }

  lemma DigitInFirstFelt(h: Header, width: nat, n: nat, i: nat)
    requires h.base > 0 && h.felts != [] && i < n <= width && i < width * |h.felts|
    ensures DigitAt(h, width, i) == Unpack(h.felts[0], n, h.base)[i]
  {
    DigitSplit(i, width, 0);
    UnpackDigit(h.felts[0], n, h.base, i);
  }

  lemma DigitInLaterFelt(h: Header, tail: Header, width: nat, i: nat)
    requires h.base > 0 && h.felts != [] && tail.base == h.base && tail.felts == h.felts[1..]
    requires 0 < width <= i < width * |h.felts|
    ensures i - width < width * |tail.felts|
    ensures DigitAt(h, width, i) == DigitAt(tail, width, i - width)
  {
    Distribute(width, |tail.felts|, 1);
    ChunkShift(i, width);
    IndexInFelts(i, width, |h.felts|);
  }
}
