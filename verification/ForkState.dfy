/** The storage a simulation reads: a cache with the block's earlier transactions replayed, over a remote state. */
module ForkState {
  import opened Wrappers

  type felt = nat
  datatype Slot = Slot(contract: felt, key: felt)
  datatype Write = Write(slot: Slot, value: felt)

  /** What the node answers for the block before. */
  datatype Response = Value(value: felt) | ContractNotFound | Failure

  datatype Answer = Read(value: felt) | ReadError

  /** The storage writes of each transaction of the block, in order; a trace may have no state diff. */
  type Traces = seq<Option<seq<Write>>>

  function Writes(traces: Traces): seq<Write> {
    if traces == [] then []
    else Writes(traces[..|traces| - 1]) + (if traces[|traces| - 1].Some? then traces[|traces| - 1].value else [])
  }

  /** The last value written to the slot. */
  function Latest(writes: seq<Write>, slot: Slot): Option<felt>
    decreases |writes|
  {
    if writes == [] then None
    else
      var last := writes[|writes| - 1];
      if last.slot == slot then Some(last.value) else Latest(writes[..|writes| - 1], slot)
  }

  lemma {:induction false} LatestOfJoin(a: seq<Write>, b: seq<Write>, slot: Slot)
    ensures Latest(a + b, slot) == if Latest(b, slot).Some? then Latest(b, slot) else Latest(a, slot)
    decreases |b|
  {
    if b == [] {
      assert a + b == a;
    } else {
      assert (a + b)[..|a + b| - 1] == a + b[..|b| - 1];
      LatestOfJoin(a, b[..|b| - 1], slot);
    }
  }

  /** The transactions before the simulated one; none is replayed for the first transaction of a block. */
  function Earlier(traces: Traces, index: nat, numberInBlock: nat): Traces {
    if numberInBlock <= 1 then [] else if index <= |traces| then traces[..index] else traces
  }

  /** The reference: the latest of the earlier writes, over the remote state; an unknown contract reads as zero. */
  function Overlay(writes: seq<Write>, remote: Slot -> Response, slot: Slot): Answer {
    match Latest(writes, slot)
    case Some(v) => Read(v)
    case None =>
      match remote(slot)
      case Value(v) => Read(v)
      case ContractNotFound => Read(0)
      case Failure => ReadError
  }

  class ForkStateReader {
    const remote: Slot -> Response
    var storage: map<Slot, felt>
    ghost const writes: seq<Write>

    /** `new`, when the block's traces could be fetched. */
    constructor (remote: Slot -> Response, traces: Traces, index: nat, numberInBlock: nat)
      ensures this.remote == remote && writes == Writes(Earlier(traces, index, numberInBlock)) && Valid()
    {
      this.remote, storage, writes := remote, map[], Writes(Earlier(traces, index, numberInBlock));
      new;
      if numberInBlock > 1 {
        PrepareStorageView(traces, index);
      }
    }

    /** Whatever is cached is the reference's answer, and all earlier writes are cached. */
    ghost predicate Valid() reads this {
      && (forall slot :: slot in storage ==> Overlay(writes, remote, slot) == Read(storage[slot]))
      && (forall slot :: Latest(writes, slot).Some? ==> slot in storage)
    }

    /** The cache is the replay of `done`. */
    ghost predicate Replayed(done: seq<Write>) reads this {
      forall slot :: (slot in storage <==> Latest(done, slot).Some?)
        && (slot in storage ==> Latest(done, slot) == Some(storage[slot]))
    }

    /** `prepare_storage_view`: replays the transactions before `index`. */
    method PrepareStorageView(traces: Traces, index: nat)
      requires Replayed([])
      modifies `storage
      ensures Replayed(Writes(if index <= |traces| then traces[..index] else traces))
    {
      var i := 0;
      while i < |traces| && i != index
        invariant 0 <= i <= |traces| && i <= index
        invariant Replayed(Writes(traces[..i]))
      {
        assert traces[..i + 1][..i] == traces[..i];
        ghost var done := Writes(traces[..i]);
        if traces[i].Some? {
          CollectStorageDiffs(traces[i].value, done);
        } else {
          assert done + [] == done;
        }
        i := i + 1;
      }
      assert i == |traces| ==> traces[..i] == traces;
    }

    method CollectStorageDiffs(diffs: seq<Write>, ghost done: seq<Write>)
      requires Replayed(done)
      modifies `storage
      ensures Replayed(done + diffs)
    {
      assert done + diffs[..0] == done;
      for i := 0 to |diffs|
        invariant Replayed(done + diffs[..i])
      {
        ghost var before := done + diffs[..i];
        assert done + diffs[..i + 1] == before + [diffs[i]];
        storage := storage[diffs[i].slot := diffs[i].value];
        assert (before + [diffs[i]])[..|before|] == before;
      }
      assert diffs[..|diffs|] == diffs;
    }

    /** `get_storage_at`: the reference's answer. Reading changes no answer, neither this slot's nor another's. */
    method GetStorageAt(slot: Slot) returns (answer: Answer)
      requires Valid()
      modifies `storage
      ensures Valid() && answer == Overlay(writes, remote, slot)
    {
      if slot in storage { return Read(storage[slot]); }
      match remote(slot) {
        case Value(v) =>
          storage := storage[slot := v];
          answer := Read(v);
        case ContractNotFound => answer := Read(0);
        case Failure => answer := ReadError;
      }
    }

    /** Any sequence of reads gives the reference's answers, in any order and with any repetitions. */
    method ReadMany(slots: seq<Slot>) returns (answers: seq<Answer>)
      requires Valid()
      modifies `storage
      ensures Valid() && |answers| == |slots| && forall i :: 0 <= i < |slots| ==>
              answers[i] == Overlay(writes, remote, slots[i])
    {
      answers := [];
      for i := 0 to |slots|
        invariant Valid() && |answers| == i
        invariant forall j :: 0 <= j < i ==> answers[j] == Overlay(writes, remote, slots[j])
      {
        var answer := GetStorageAt(slots[i]);
        answers := answers + [answer];
      }
    }
  }

  /** Later transactions win: what transaction `k` wrote is read unless a later one wrote the slot too. */
  lemma LaterWritesWin(traces: Traces, k: nat, slot: Slot)
    requires k < |traces|
    ensures var own := if traces[k].Some? then Latest(traces[k].value, slot) else None;
            Latest(Writes(traces[..k + 1]), slot) == if own.Some? then own else Latest(Writes(traces[..k]), slot)
  {
    assert traces[..k + 1][..k] == traces[..k];
    LatestOfJoin(Writes(traces[..k]), if traces[k].Some? then traces[k].value else [], slot);
  }
}
