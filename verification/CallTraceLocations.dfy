/** Which source locations of a trace entry become steps of the debugger trace. */
module CallTraceLocations {
  import opened Wrappers
  import opened CallTrace

  /** The location before the j-th one of a statement. */
  function Before(log: Log, s: StatementLocations, j: nat): Option<Location>
    requires j <= |s.locations|
  {
    if j == 0 then log.prevLocation else Some(s.locations[j - 1])
  }

  /**
   A location is a step if it is the very first, or differs from the one before and the statement is no repetition.
   */
  predicate IsChange(log: Log, s: StatementLocations, j: nat)
    requires j < |s.locations|
  {
    Before(log, s, j).None? || (Before(log, s, j) != Some(s.locations[j]) && s.locations != log.prevLocations)
  }

  /** The steps among the first `n` locations of a statement. */
  function Changes(cfg: Config, log: Log, id: nat, fp: nat, s: StatementLocations, n: nat): seq<DebugEntry>
    requires n <= |s.locations|
  {
    if n == 0 then []
    else
      Changes(cfg, log, id, fp, s, n - 1)
      + if IsChange(log, s, n - 1) then [WithLocation(s.sierraIndex, n - 1, cfg.contractCallId, id, fp)] else []
  }

  function After(cfg: Config, log: Log, id: nat, fp: nat, s: StatementLocations, n: nat): Log
    requires n <= |s.locations|
  {
    log.(debugTrace := log.debugTrace + Changes(cfg, log, id, fp, s, n), prevLocation := Before(log, s, n))
  }

  lemma {:induction false} AddLocationsFrom(cfg: Config, log: Log, id: nat, fp: nat, s: StatementLocations, from: nat)
    requires from <= |s.locations|
    ensures AddLocations(cfg, After(cfg, log, id, fp, s, from), id, fp, s, from)
            == After(cfg, log, id, fp, s, |s.locations|)
    decreases |s.locations| - from
  {
    if from < |s.locations| {
      AddLocationsFrom(cfg, log, id, fp, s, from + 1);
      var entry := WithLocation(s.sierraIndex, from, cfg.contractCallId, id, fp);
      var changes := Changes(cfg, log, id, fp, s, from);
      assert log.debugTrace + changes + [entry] == log.debugTrace + (changes + [entry]);
      assert log.debugTrace + changes == log.debugTrace + (changes + []);
    }
  }

  /** A statement adds exactly its changes of location, in order, and leaves its last location behind. */
  lemma LocationChangesAreSteps(cfg: Config, log: Log, id: nat, fp: nat, s: StatementLocations)
    ensures AddLocations(cfg, log, id, fp, s, 0)
            == log.(debugTrace := log.debugTrace + Changes(cfg, log, id, fp, s, |s.locations|),
                    prevLocation := Before(log, s, |s.locations|))
  {
    assert log.debugTrace + [] == log.debugTrace;
    AddLocationsFrom(cfg, log, id, fp, s, 0);
  }

  /** A statement with the locations of the one before adds no step, once there is a location. */
  lemma RepetitionAddsNothing(cfg: Config, log: Log, id: nat, fp: nat, s: StatementLocations)
    requires log.prevLocation.Some? && s.locations == log.prevLocations
    ensures AddLocations(cfg, log, id, fp, s, 0).debugTrace == log.debugTrace
  {
    LocationChangesAreSteps(cfg, log, id, fp, s);
    NoChanges(cfg, log, id, fp, s, |s.locations|);
    assert log.debugTrace + [] == log.debugTrace;
  }

  lemma {:induction false} NoChanges(cfg: Config, log: Log, id: nat, fp: nat, s: StatementLocations, n: nat)
    requires log.prevLocation.Some? && s.locations == log.prevLocations && n <= |s.locations|
    ensures Changes(cfg, log, id, fp, s, n) == []
    decreases n
  {
    if n > 0 { NoChanges(cfg, log, id, fp, s, n - 1); }
  }
}
