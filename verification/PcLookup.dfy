/** From program counters to instructions: offsets are prefix sums of instruction sizes. */
module PcLookup {
  import opened Wrappers

  function Sum(sizes: seq<nat>): nat {
    if sizes == [] then 0 else Sum(sizes[..|sizes| - 1]) + sizes[|sizes| - 1]
  }

  /** The offset of instruction `i`; for `i == |sizes|` the end of the code. */
  function Offset(sizes: seq<nat>, i: nat): nat
    requires i <= |sizes|
  {
    Sum(sizes[..i])
  }

  lemma OffsetNext(sizes: seq<nat>, i: nat)
    requires i < |sizes|
    ensures Offset(sizes, i + 1) == Offset(sizes, i) + sizes[i]
  {
    assert sizes[..i + 1][..i] == sizes[..i];
  }

  lemma {:induction false} OffsetsGrow(sizes: seq<nat>, i: nat, j: nat)
    requires i <= j <= |sizes|
    ensures Offset(sizes, i) <= Offset(sizes, j)
    ensures i < j && (forall k :: 0 <= k < |sizes| ==> sizes[k] > 0) ==> Offset(sizes, i) < Offset(sizes, j)
    decreases j - i
  {
    if i < j {
      OffsetNext(sizes, i);
      OffsetsGrow(sizes, i + 1, j);
    }
  }

  ghost predicate IsOffsets(offsets: seq<nat>, sizes: seq<nat>) {
    |offsets| == |sizes| + 1 && forall i :: 0 <= i <= |sizes| ==> offsets[i] == Offset(sizes, i)
  }

  /** The loop of `get_pc_sys_call_mappings` over the instructions. */
  method BuildOffsets(sizes: seq<nat>) returns (offsets: seq<nat>)
    ensures IsOffsets(offsets, sizes)
  {
    var offset := 0;
    offsets := [0];
    for i := 0 to |sizes|
      invariant |offsets| == i + 1 && offset == Offset(sizes, i)
      invariant forall j :: 0 <= j <= i ==> offsets[j] == Offset(sizes, j)
    {
      OffsetNext(sizes, i);
      offset := offset + sizes[i];
      offsets := offsets + [offset];
    }
  }

  /** The counters that are mapped are those of the instructions' first cells, numbered from one. */
  ghost predicate IsMapping(sizes: seq<nat>, mappings: map<nat, nat>) {
    && (forall pc :: pc in mappings ==> mappings[pc] < |sizes| && pc == 1 + Offset(sizes, mappings[pc]))
    && forall i :: 0 <= i < |sizes| ==> 1 + Offset(sizes, i) in mappings && mappings[1 + Offset(sizes, i)] == i
  }

  /** `get_pc_mappings`: program counters start at one. */
  method GetPcMappings(sizes: seq<nat>) returns (mappings: map<nat, nat>)
    requires forall k :: 0 <= k < |sizes| ==> sizes[k] > 0
    ensures IsMapping(sizes, mappings)
    ensures forall p, q :: p in mappings && q in mappings && p != q ==> mappings[p] != mappings[q]
  {
    mappings := map[];
    var offset := 1;
    for i := 0 to |sizes|
      invariant offset == 1 + Offset(sizes, i)
      invariant forall pc :: pc in mappings ==> mappings[pc] < i && pc == 1 + Offset(sizes, mappings[pc])
      invariant forall j :: 0 <= j < i ==> 1 + Offset(sizes, j) in mappings && mappings[1 + Offset(sizes, j)] == j
    {
      forall j | 0 <= j < i ensures Offset(sizes, j) < Offset(sizes, i) { OffsetsGrow(sizes, j, i); }
      OffsetNext(sizes, i);
      mappings := mappings[offset := i];
      offset := offset + sizes[i];
    }
  }

  ghost predicate IsSorted(s: seq<nat>) {
    forall i, j :: 0 <= i <= j < |s| ==> s[i] <= s[j]
  }

  /** `partition_point`, by bisection: how many elements are at most `pc`. */
  method PartitionPoint(offsets: seq<nat>, pc: nat) returns (n: nat)
    requires IsSorted(offsets)
    ensures n <= |offsets|
    ensures forall i :: 0 <= i < |offsets| ==> (offsets[i] <= pc <==> i < n)
  {
    var low, high := 0, |offsets|;
    while low < high
      invariant 0 <= low <= high <= |offsets|
      invariant forall i :: 0 <= i < low ==> offsets[i] <= pc
      invariant forall i :: high <= i < |offsets| ==> pc < offsets[i]
    {
      var mid := (low + high) / 2;
      if offsets[mid] <= pc { low := mid + 1; } else { high := mid; }
    }
    n := low;
  }

  /** The instruction's code contains the cell; without one the cell lies past the end. */
  ghost predicate IsLocated(sizes: seq<nat>, pc: nat, index: Option<nat>) {
    match index
    case Some(i) => i < |sizes| && Offset(sizes, i) <= pc < Offset(sizes, i + 1)
    case None => pc >= Offset(sizes, |sizes|)
  }

  lemma OneLocation(sizes: seq<nat>, pc: nat, a: Option<nat>, b: Option<nat>)
    requires IsLocated(sizes, pc, a) && IsLocated(sizes, pc, b)
    ensures a == b
  {
    var i := if a.Some? then a.value else |sizes|;
    var j := if b.Some? then b.value else |sizes|;
    if i < j { OffsetsGrow(sizes, i + 1, j); }
    if j < i { OffsetsGrow(sizes, j + 1, i); }
  }

  /** `find_instruction_index`: the one instruction whose code contains `pc`, and none past the end. */
  method FindInstructionIndex(pc: nat, offsets: seq<nat>, ghost sizes: seq<nat>) returns (index: Option<nat>)
    requires IsOffsets(offsets, sizes)
    ensures IsLocated(sizes, pc, index)
    ensures forall i :: 0 <= i < |sizes| && Offset(sizes, i) <= pc < Offset(sizes, i + 1) ==> index == Some(i)
  {
    forall i, j | 0 <= i <= j < |offsets| ensures offsets[i] <= offsets[j] { OffsetsGrow(sizes, i, j); }
    var n := PartitionPoint(offsets, pc);
    var i := if n == 0 then 0 else n - 1;
    assert offsets[0] == 0;
    if i < |offsets| - 1 && pc < offsets[i + 1] { index := Some(i); } else { index := None; }
    forall j | 0 <= j < |sizes| && Offset(sizes, j) <= pc < Offset(sizes, j + 1) ensures index == Some(j) {
      assert offsets[j] <= pc < offsets[j + 1];
    }
  }

  /**
   A traced counter is looked up in both: in the mapping, which numbers cells from one, and among the offsets, which
   number them from zero. Where the mapping has an instruction, the search finds the same one exactly if that has more
   than one cell, and else the next instruction, if there is one. One cell before the counter it would find the same.
   */
  method TracedLookup(sizes: seq<nat>, pc: nat)
    returns (mapped: Option<nat>, found: Option<nat>, before: Option<nat>)
    requires forall k :: 0 <= k < |sizes| ==> sizes[k] > 0
    ensures mapped.Some? ==> mapped.value < |sizes| && pc == 1 + Offset(sizes, mapped.value) && before == mapped
    ensures mapped.Some? ==> (found == mapped <==> sizes[mapped.value] > 1)
    ensures mapped.Some? && sizes[mapped.value] == 1 ==>
              found == if mapped.value + 1 < |sizes| then Some(mapped.value + 1) else None
    ensures before.Some? ==>
              pc > 0 && before.value < |sizes| && (mapped.Some? <==> pc - 1 == Offset(sizes, before.value))
  {
    hide Offset, IsLocated, IsOffsets, IsMapping;
    var mappings := GetPcMappings(sizes);
    var offsets := BuildOffsets(sizes);
    mapped := if pc in mappings then Some(mappings[pc]) else None;
    found := FindInstructionIndex(pc, offsets, sizes);
    before := None;
    if pc > 0 { before := FindInstructionIndex(pc - 1, offsets, sizes); }
    if mapped.Some? {
      MappedIsFound(sizes, pc, mappings, found, before);
    } else if before.Some? {
      NotFirst(sizes, pc, before, mappings);
    }
  }

  lemma MappedIsFound(sizes: seq<nat>, pc: nat, mappings: map<nat, nat>, found: Option<nat>, before: Option<nat>)
    requires IsMapping(sizes, mappings) && pc in mappings && forall k :: 0 <= k < |sizes| ==> sizes[k] > 0
    requires IsLocated(sizes, pc, found) && (pc > 0 ==> IsLocated(sizes, pc - 1, before))
    ensures mappings[pc] < |sizes| && pc == 1 + Offset(sizes, mappings[pc])
    ensures before == Some(mappings[pc]) && found == NextOf(sizes, mappings[pc])
  {
    hide Offset, IsLocated;
    CellsOf(sizes, mappings[pc]);
    OneLocation(sizes, pc, found, NextOf(sizes, mappings[pc]));
    OneLocation(sizes, pc - 1, before, Some(mappings[pc]));
  }

  /** The instruction at the cell after the first one of instruction `i`. */
  function NextOf(sizes: seq<nat>, i: nat): Option<nat>
    requires i < |sizes|
  {
    if sizes[i] > 1 then Some(i) else if i + 1 < |sizes| then Some(i + 1) else None
  }

  lemma CellsOf(sizes: seq<nat>, i: nat)
    requires i < |sizes| && forall k :: 0 <= k < |sizes| ==> sizes[k] > 0
    ensures IsLocated(sizes, Offset(sizes, i), Some(i)) && IsLocated(sizes, Offset(sizes, i) + 1, NextOf(sizes, i))
  {
    OffsetNext(sizes, i);
    if i + 1 < |sizes| { OffsetNext(sizes, i + 1); }
  }

  lemma NotFirst(sizes: seq<nat>, pc: nat, before: Option<nat>, mappings: map<nat, nat>)
    requires pc > 0 && pc !in mappings && before.Some? && IsLocated(sizes, pc - 1, before)
    requires IsMapping(sizes, mappings)
    ensures before.value < |sizes| && pc - 1 != Offset(sizes, before.value)
  {
    hide Offset;
    assert 1 + Offset(sizes, before.value) in mappings;
  }
}
