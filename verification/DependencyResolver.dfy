/** Resolution of a project's registry dependencies: rounds over a worklist, each name fetched in one round only. */
module DependencyResolver {
  import opened Wrappers

  type Name = string
  type Constraint = string

  datatype Version = Version(major: nat, minor: nat, patch: nat) {
    predicate AtMost(v: Version) {
      major < v.major || (major == v.major && (minor < v.minor || (minor == v.minor && patch <= v.patch)))
    }
  }

  datatype Dependency = Dependency(name: Name, req: Constraint, isDev: bool)
  /** The version is missing if its text is no version. */
  datatype Package = Package(version: Option<Version>, deps: seq<Dependency>)

  /**
   `packages` lacks what cannot be fetched. `satisfies` says whether a version meets a constraint; `allows`
   whether a requirement on `starknet` or `core` admits the project's starknet version.
   */
  datatype Registry = Registry(packages: map<Name, seq<Package>>, satisfies: (Constraint, Version) -> bool,
                               allows: Constraint -> bool)

  datatype Request = Request(name: Name, constraint: Constraint)

  predicate IsBuiltin(name: Name) { name == "starknet" || name == "core" }

  predicate IsNormal(d: Dependency) { !d.isDev && !IsBuiltin(d.name) }

  predicate IsEligible(r: Registry, c: Constraint, p: Package) {
    && p.version.Some? && r.satisfies(c, p.version.value)
    && forall i :: 0 <= i < |p.deps| && IsBuiltin(p.deps[i].name) ==> r.allows(p.deps[i].req)
  }

  /** The package is the highest version in the registry that meets the constraint and the starknet version. */
  ghost predicate IsBest(r: Registry, request: Request, p: Package) {
    && request.name in r.packages && p in r.packages[request.name] && IsEligible(r, request.constraint, p)
    && forall q :: q in r.packages[request.name] && IsEligible(r, request.constraint, q) ==>
       q.version.value.AtMost(p.version.value)
  }

  /** The highest eligible one of some versions, the last of several highest. */
  function Best(r: Registry, packages: seq<Package>, c: Constraint): (best: Option<Package>)
    ensures best.Some? ==> best.value in packages && IsEligible(r, c, best.value)
    decreases |packages|
  {
    if packages == [] then None
    else
      var before, p := Best(r, packages[..|packages| - 1], c), packages[|packages| - 1];
      if IsEligible(r, c, p) && (before.None? || before.value.version.value.AtMost(p.version.value)) then Some(p)
      else before
  }

  /** The filter and the maximum over a package's versions. */
  method Choose(r: Registry, request: Request) returns (chosen: Option<Package>)
    requires request.name in r.packages
    ensures chosen == Best(r, r.packages[request.name], request.constraint)
    ensures chosen.Some? ==> IsBest(r, request, chosen.value)
    ensures chosen.None? ==> forall p :: p in r.packages[request.name] ==> !IsEligible(r, request.constraint, p)
  {
    var packages := r.packages[request.name];
    chosen := None;
    for i := 0 to |packages|
      invariant chosen == Best(r, packages[..i], request.constraint)
    {
      var p := packages[i];
      assert packages[..i + 1][..i] == packages[..i];
      if IsEligible(r, request.constraint, p) && (chosen.None? || chosen.value.version.value.AtMost(p.version.value)) {
        chosen := Some(p);
      }
    }
    assert packages[..|packages|] == packages;
    BestIsBest(r, packages, request.constraint);
  }

  // ---------------------------------------------------------------- what a run has done

  /** What was asked for so far: the project's dependencies, and those of chosen versions. */
  ghost predicate Requested(r: Registry, seeds: set<Request>, requests: set<Request>) {
    forall q :: q in requests ==> q in seeds || IsNeeded(r, requests, q)
  }

  ghost predicate IsNeeded(r: Registry, requests: set<Request>, q: Request) {
    exists cause, p :: cause in requests && IsBest(r, cause, p) && Needs(p, q)
  }

  ghost predicate Needs(p: Package, q: Request) {
    exists i :: 0 <= i < |p.deps| && IsNormal(p.deps[i]) && p.deps[i].name == q.name && p.deps[i].req == q.constraint
  }

  /** A pin is the best version for one of the requests for its name. */
  ghost predicate PinsAreBest(r: Registry, requests: set<Request>, resolved: map<Name, Package>) {
    forall n :: n in resolved ==> exists c :: Request(n, c) in requests && IsBest(r, Request(n, c), resolved[n])
  }

  /** The normal dependencies of every pinned version are among `names`. */
  ghost predicate Closed(resolved: map<Name, Package>, names: set<Name>) {
    forall n, i :: n in resolved && 0 <= i < |resolved[n].deps| && IsNormal(resolved[n].deps[i]) ==>
      resolved[n].deps[i].name in names
  }

  function Names(requests: seq<Request>): (names: set<Name>)
    ensures forall i :: 0 <= i < |requests| ==> requests[i].name in names
    ensures forall n :: n in names ==> exists i :: 0 <= i < |requests| && requests[i].name == n
  {
    set i | 0 <= i < |requests| :: requests[i].name
  }

  function All(requests: seq<Request>): set<Request> {
    set i | 0 <= i < |requests| :: requests[i]
  }

  /** Everything named is in `universe`, which is finite. */
  ghost predicate IsWithin(r: Registry, universe: set<Name>) {
    forall n, p, i :: n in r.packages && p in r.packages[n] && 0 <= i < |p.deps| ==> p.deps[i].name in universe
  }

  // ---------------------------------------------------------------- the rounds as a function

  function UnvisitedOf(batch: seq<Request>, visited: set<Name>): (toProcess: seq<Request>)
    ensures forall q :: q in toProcess <==> q in batch && q.name !in visited
  {
    if batch == [] then []
    else
      UnvisitedOf(batch[..|batch| - 1], visited)
      + if batch[|batch| - 1].name in visited then [] else [batch[|batch| - 1]]
  }

  /** The normal dependencies on names that are not visited. */
  function Queued(deps: seq<Dependency>, visited: set<Name>): (requests: seq<Request>)
    ensures forall q :: q in requests ==> exists i :: 0 <= i < |deps| && deps[i].name == q.name
  {
    if deps == [] then []
    else
      var d := deps[|deps| - 1];
      Queued(deps[..|deps| - 1], visited)
      + if IsNormal(d) && d.name !in visited then [Request(d.name, d.req)] else []
  }

  /** One round: what is queued, and the pins. */
  function RoundOf(
    r: Registry, toProcess: seq<Request>, visited: set<Name>, resolved: map<Name, Package>):
    (seq<Request>, map<Name, Package>)
  {
    if toProcess == [] then ([], resolved)
    else
      var (next, pins) := RoundOf(r, toProcess[..|toProcess| - 1], visited, resolved);
      var q := toProcess[|toProcess| - 1];
      var chosen := if q.name in r.packages then Best(r, r.packages[q.name], q.constraint) else None;
      if chosen.None? then (next, pins)
      else (next + Queued(chosen.value.deps, visited), pins[q.name := chosen.value])
  }

  lemma {:induction false} QueuedWithin(
    r: Registry, universe: set<Name>, toProcess: seq<Request>, visited: set<Name>, resolved: map<Name, Package>)
    requires IsWithin(r, universe)
    ensures Names(RoundOf(r, toProcess, visited, resolved).0) <= universe
  {
    hide Best, IsEligible;
    if toProcess != [] {
      QueuedWithin(r, universe, toProcess[..|toProcess| - 1], visited, resolved);
      var q := toProcess[|toProcess| - 1];
      if q.name in r.packages {
        var chosen := Best(r, r.packages[q.name], q.constraint);
        var before: seq<Request> := RoundOf(r, toProcess[..|toProcess| - 1], visited, resolved).0;
        if chosen.Some? {
          var more := Queued(chosen.value.deps, visited);
          forall n | n in Names(before + more) ensures n in universe {
            var i :| 0 <= i < |before + more| && (before + more)[i].name == n;
            if i < |before| {
              assert before[i].name in Names(before);
            } else {
              assert more[i - |before|] in more;
            }
          }
        }
      }
    }
  }

  lemma RoundContinues(
    r: Registry, front: seq<Request>, q: Request, visited: set<Name>, resolved: map<Name, Package>)
    ensures var (next, pins) := RoundOf(r, front, visited, resolved);
            var chosen := if q.name in r.packages then Best(r, r.packages[q.name], q.constraint) else None;
            RoundOf(r, front + [q], visited, resolved)
            == if chosen.None? then (next, pins)
               else (next + Queued(chosen.value.deps, visited), pins[q.name := chosen.value])
  {
    hide Best, Queued;
    assert (front + [q])[..|front|] == front;
  }

  /** The pins when no batch brings a new name. */
  ghost function Rounds(
    r: Registry, universe: set<Name>, batch: seq<Request>, visited: set<Name>, resolved: map<Name, Package>):
    map<Name, Package>
    requires IsWithin(r, universe) && Names(batch) <= universe
    decreases universe - visited
  {
    var toProcess := UnvisitedOf(batch, visited);
    if toProcess == [] then resolved
    else
      BatchSplits(batch, visited, toProcess);
      QueuedWithin(r, universe, toProcess, visited + Names(toProcess), resolved);
      var (next, pins) := RoundOf(r, toProcess, visited + Names(toProcess), resolved);
      Rounds(r, universe, next, visited + Names(toProcess), pins)
  }

  lemma {:induction false} RoundLeaves(
    r: Registry, toProcess: seq<Request>, visited: set<Name>, resolved: map<Name, Package>, n: Name)
    requires forall q :: q in toProcess ==> q.name != n
    ensures var pins := RoundOf(r, toProcess, visited, resolved).1;
            (n in pins <==> n in resolved) && (n in pins ==> pins[n] == resolved[n])
  {
    if toProcess != [] {
      assert toProcess[|toProcess| - 1] in toProcess;
      RoundLeaves(r, toProcess[..|toProcess| - 1], visited, resolved, n);
    }
  }

  /** Once a name was visited its pin is final, whatever is requested of it later. */
  lemma {:induction false} PinsStay(
    r: Registry, universe: set<Name>, batch: seq<Request>, visited: set<Name>, resolved: map<Name, Package>, n: Name)
    requires IsWithin(r, universe) && Names(batch) <= universe && n in visited
    ensures var pins := Rounds(r, universe, batch, visited, resolved);
            (n in pins <==> n in resolved) && (n in pins ==> pins[n] == resolved[n])
    decreases universe - visited
  {
    var toProcess := UnvisitedOf(batch, visited);
    if toProcess != [] {
      BatchSplits(batch, visited, toProcess);
      QueuedWithin(r, universe, toProcess, visited + Names(toProcess), resolved);
      RoundLeaves(r, toProcess, visited + Names(toProcess), resolved, n);
      var (next, pins) := RoundOf(r, toProcess, visited + Names(toProcess), resolved);
      hide RoundOf, UnvisitedOf;
      PinsStay(r, universe, next, visited + Names(toProcess), pins, n);
    }
  }

  /** The best version for the last request of a batch for the name that any version meets. */
  function LastPin(r: Registry, toProcess: seq<Request>, n: Name): Option<Package> {
    if toProcess == [] then None
    else
      var q := toProcess[|toProcess| - 1];
      var best := if q.name == n && n in r.packages then Best(r, r.packages[n], q.constraint) else None;
      if best.Some? then best else LastPin(r, toProcess[..|toProcess| - 1], n)
  }

  function PinIn(pins: map<Name, Package>, n: Name): Option<Package> {
    if n in pins then Some(pins[n]) else None
  }

  lemma {:induction false} RoundPins(
    r: Registry, toProcess: seq<Request>, visited: set<Name>, resolved: map<Name, Package>, n: Name)
    requires n !in resolved
    ensures PinIn(RoundOf(r, toProcess, visited, resolved).1, n) == LastPin(r, toProcess, n)
  {
    hide Best, Queued;
    if toProcess != [] {
      RoundPins(r, toProcess[..|toProcess| - 1], visited, resolved, n);
    }
  }

  /**
   The first batch that names a package decides its pin: it is the best version for that batch's last request for
   the name that any version meets. No other request for the name has a say.
   */
  lemma FirstBatchDecides(
    r: Registry, universe: set<Name>, batch: seq<Request>, visited: set<Name>, resolved: map<Name, Package>, n: Name)
    requires IsWithin(r, universe) && Names(batch) <= universe
    requires n in Names(batch) && n !in visited && n !in resolved
    ensures PinIn(Rounds(r, universe, batch, visited, resolved), n) == LastPin(r, UnvisitedOf(batch, visited), n)
  {
    var toProcess := UnvisitedOf(batch, visited);
    BatchSplits(batch, visited, toProcess);
    hide UnvisitedOf, RoundOf, LastPin;
    assert toProcess != [] by { assert Names([]) == {}; }
    QueuedWithin(r, universe, toProcess, visited + Names(toProcess), resolved);
    RoundPins(r, toProcess, visited + Names(toProcess), resolved, n);
    var (next, pins) := RoundOf(r, toProcess, visited + Names(toProcess), resolved);
    PinsStay(r, universe, next, visited + Names(toProcess), pins, n);
  }

  lemma {:induction false} OnlyRequestIsLast(r: Registry, batch: seq<Request>, k: nat)
    requires k < |batch| && batch[k].name in r.packages
    requires forall i :: 0 <= i < |batch| && i != k ==> batch[i].name != batch[k].name
    ensures LastPin(r, batch, batch[k].name) == Best(r, r.packages[batch[k].name], batch[k].constraint)
  {
    hide Best;
    var front := batch[..|batch| - 1];
    if k == |batch| - 1 {
      NoPin(r, front, batch[k].name);
    } else {
      OnlyRequestIsLast(r, front, k);
    }
  }

  lemma {:induction false} NoPin(r: Registry, batch: seq<Request>, n: Name)
    requires forall i :: 0 <= i < |batch| ==> batch[i].name != n
    ensures LastPin(r, batch, n) == None
  {
    if batch != [] { NoPin(r, batch[..|batch| - 1], n); }
  }

  /**
   The project's own request for a name decides it: whatever the dependencies ask for later, the final pin is the
   best version for that request alone.
   */
  lemma OwnRequestDecides(r: Registry, universe: set<Name>, seeds: seq<Request>, k: nat)
    requires IsWithin(r, universe) && Names(seeds) <= universe
    requires k < |seeds| && seeds[k].name in r.packages
    requires forall i :: 0 <= i < |seeds| && i != k ==> seeds[i].name != seeds[k].name
    ensures PinIn(Rounds(r, universe, seeds, {}, map[]), seeds[k].name)
            == Best(r, r.packages[seeds[k].name], seeds[k].constraint)
  {
    AllUnvisited(seeds);
    hide UnvisitedOf, Rounds, LastPin;
    FirstBatchDecides(r, universe, seeds, {}, map[], seeds[k].name);
    OnlyRequestIsLast(r, seeds, k);
  }

  /** The pin of a name, if any, meets the constraint. */
  predicate IsMet(r: Registry, pins: map<Name, Package>, q: Request) {
    q.name in pins && pins[q.name].version.Some? && r.satisfies(q.constraint, pins[q.name].version.value)
  }

  /** So any request for a direct dependency is met if and only if the best version for the project's own meets it. */
  lemma RequestIsMetIff(r: Registry, universe: set<Name>, seeds: seq<Request>, k: nat, c: Constraint)
    requires IsWithin(r, universe) && Names(seeds) <= universe
    requires k < |seeds| && seeds[k].name in r.packages
    requires forall i :: 0 <= i < |seeds| && i != k ==> seeds[i].name != seeds[k].name
    ensures var best := Best(r, r.packages[seeds[k].name], seeds[k].constraint);
            IsMet(r, Rounds(r, universe, seeds, {}, map[]), Request(seeds[k].name, c))
            <==> best.Some? && r.satisfies(c, best.value.version.value)
  {
    hide Rounds, Best;
    OwnRequestDecides(r, universe, seeds, k);
  }

  const FIRST := Package(Some(Version(1, 0, 0)), [])
  const SECOND := Package(Some(Version(2, 0, 0)), [])
  const USER := Package(Some(Version(1, 0, 0)), [Dependency("math", "1", false)])

  /** Two versions of `math`, and one package that takes only the first. */
  const LATE_REQUEST := Registry(
    map["math" := [FIRST, SECOND], "user" := [USER]],
    (c: Constraint, v: Version) => c == "*" || v.major == 1, _ => true)

  /**
   `user` is pinned though the `math` it needs is not: `math` is pinned at the second version for the project,
   which takes any version, and the first would have met both requests.
   */
  lemma LateRequestIsIgnored()
    ensures var r, universe, seeds := LATE_REQUEST, {"math", "user"}, [Request("math", "*"), Request("user", "*")];
            && IsWithin(r, universe) && Names(seeds) <= universe
            && var pins := Rounds(r, universe, seeds, {}, map[]);
            && PinIn(pins, "user") == Some(USER) && Needs(USER, Request("math", "1"))
            && !IsMet(r, pins, Request("math", "1"))
            && IsEligible(r, "1", FIRST) && IsEligible(r, "*", FIRST)
  {
    hide Rounds;
    var r, universe, seeds := LATE_REQUEST, {"math", "user"}, [Request("math", "*"), Request("user", "*")];
    BestOfTwo();
    assert USER.deps[0].name in universe;
    assert IsNormal(USER.deps[0]) && Needs(USER, Request("math", "1"));
    assert IsWithin(r, universe);
    OwnRequestDecides(r, universe, seeds, 1);
    RequestIsMetIff(r, universe, seeds, 0, "1");
  }

  lemma BestOfTwo()
    ensures Best(LATE_REQUEST, [FIRST, SECOND], "*") == Some(SECOND)
    ensures Best(LATE_REQUEST, [USER], "*") == Some(USER)
  {
    var both := [FIRST, SECOND];
    assert both[..1] == [FIRST] && [FIRST][..0] == [] && [USER][..0] == [];
    assert Best(LATE_REQUEST, [], "*") == None;
    assert Best(LATE_REQUEST, [FIRST], "*") == Some(FIRST);
  }

  lemma {:induction false} AllUnvisited(batch: seq<Request>)
    ensures UnvisitedOf(batch, {}) == batch
  {
    hide UnvisitedOf;
    if batch == [] {
      NoneUnvisited();
    } else {
      AllUnvisited(batch[..|batch| - 1]);
      LastUnvisited(batch);
      assert batch == batch[..|batch| - 1] + [batch[|batch| - 1]];
    }
  }

  lemma NoneUnvisited()
    ensures UnvisitedOf([], {}) == []
  {
  }

  lemma LastUnvisited(batch: seq<Request>)
    requires batch != []
    ensures UnvisitedOf(batch, {}) == UnvisitedOf(batch[..|batch| - 1], {}) + [batch[|batch| - 1]]
  {
  }

  // ---------------------------------------------------------------- the resolver

  /** The requests of a batch for names that are not visited; one name may be requested twice. */
  method Unvisited(batch: seq<Request>, visited: set<Name>) returns (toProcess: seq<Request>)
    ensures toProcess == UnvisitedOf(batch, visited)
    ensures forall q :: q in toProcess <==> q in batch && q.name !in visited
  {
    toProcess := [];
    for i := 0 to |batch|
      invariant toProcess == UnvisitedOf(batch[..i], visited)
      invariant forall q :: q in toProcess <==> q in batch[..i] && q.name !in visited
    {
      assert batch[..i + 1] == batch[..i] + [batch[i]] && batch[..i + 1][..i] == batch[..i];
      if batch[i].name !in visited { toProcess := toProcess + [batch[i]]; }
    }
    assert batch[..|batch|] == batch;
  }

  /** The dependencies that a chosen version adds to the next batch. */
  method Enqueue(p: Package, visited: set<Name>, batch: seq<Request>) returns (next: seq<Request>)
    ensures next == batch + Queued(p.deps, visited)
    ensures forall q :: q in next[|batch|..] ==> Needs(p, q) && q.name !in visited
    ensures forall i :: 0 <= i < |p.deps| && IsNormal(p.deps[i]) ==> p.deps[i].name in visited + Names(next)
  {
    hide Queued, Needs, Names;
    next := batch;
    assert next == batch + Queued(p.deps[..0], visited) by { NothingQueued(visited); }
    for i := 0 to |p.deps|
      invariant next == batch + Queued(p.deps[..i], visited)
    {
      var d := p.deps[i];
      LastIsQueued(p.deps, visited, i);
      if IsNormal(d) && d.name !in visited { next := next + [Request(d.name, d.req)]; }
    }
    assert p.deps[..|p.deps|] == p.deps;
    hide IsNormal;
    QueuesAll(p, visited);
    NamesJoin(batch, Queued(p.deps, visited));
    assert next[|batch|..] == Queued(p.deps, visited);
  }

  lemma NothingQueued(visited: set<Name>)
    ensures Queued([], visited) == []
  {
  }

  lemma NormalIsNeeded(p: Package, i: nat)
    requires i < |p.deps|
    ensures IsNormal(p.deps[i]) ==> Needs(p, Request(p.deps[i].name, p.deps[i].req))
  {
  }

  lemma {:induction false} QueuedIsNeeded(p: Package, visited: set<Name>, n: nat)
    requires n <= |p.deps|
    ensures forall q :: q in Queued(p.deps[..n], visited) ==> Needs(p, q) && q.name !in visited
  {
    hide Queued, Needs, IsNormal;
    if n == 0 {
      NothingQueued(visited);
    } else {
      QueuedIsNeeded(p, visited, n - 1);
      LastIsQueued(p.deps, visited, n - 1);
      NormalIsNeeded(p, n - 1);
    }
  }

  lemma LastIsQueued(deps: seq<Dependency>, visited: set<Name>, k: nat)
    requires k < |deps|
    ensures Queued(deps[..k + 1], visited)
            == Queued(deps[..k], visited)
               + if IsNormal(deps[k]) && deps[k].name !in visited then [Request(deps[k].name, deps[k].req)] else []
  {
    assert deps[..k + 1][..k] == deps[..k];
  }

  lemma {:induction false} NormalIsQueued(deps: seq<Dependency>, visited: set<Name>, n: nat, i: nat)
    requires i < n <= |deps| && IsNormal(deps[i])
    ensures deps[i].name in visited + Names(Queued(deps[..n], visited))
  {
    hide Queued, IsNormal, Names;
    LastIsQueued(deps, visited, n - 1);
    if i < n - 1 {
      NormalIsQueued(deps, visited, n - 1, i);
      NameStays(deps[i].name, Queued(deps[..n - 1], visited), Queued(deps[..n], visited));
    } else if deps[i].name !in visited {
      NameOf(Queued(deps[..n], visited), |Queued(deps[..n - 1], visited)|);
    }
  }

  lemma NameStays(n: Name, a: seq<Request>, b: seq<Request>)
    requires a <= b
    ensures n in Names(a) ==> n in Names(b)
  {
    NamesGrow(a, b);
    hide Names;
  }

  lemma NameOf(requests: seq<Request>, i: nat)
    requires i < |requests|
    ensures requests[i].name in Names(requests)
  {
  }

  /** What a version queues: dependencies it needs, and all normal ones that were not visited. */
  lemma QueuesAll(p: Package, visited: set<Name>)
    ensures forall q :: q in Queued(p.deps, visited) ==> Needs(p, q) && q.name !in visited
    ensures forall i :: 0 <= i < |p.deps| && IsNormal(p.deps[i]) ==>
              p.deps[i].name in visited + Names(Queued(p.deps, visited))
  {
    hide Queued, IsNormal, Names, Needs;
    assert p.deps[..|p.deps|] == p.deps;
    QueuedIsNeeded(p, visited, |p.deps|);
    forall i | 0 <= i < |p.deps| && IsNormal(p.deps[i])
      ensures p.deps[i].name in visited + Names(Queued(p.deps, visited))
    {
      NormalIsQueued(p.deps, visited, |p.deps|, i);
    }
  }

  lemma NamesJoin(a: seq<Request>, b: seq<Request>)
    ensures Names(a + b) == Names(a) + Names(b)
  {
    NamesGrow(a, a + b);
    forall n | n in Names(b) ensures n in Names(a + b) {
      var i :| 0 <= i < |b| && b[i].name == n;
      assert (a + b)[|a| + i].name == n;
    }
  }

  lemma NamesGrow(a: seq<Request>, b: seq<Request>)
    requires a <= b
    ensures Names(a) <= Names(b)
  {
    forall n | n in Names(a) ensures n in Names(b) {
      var i :| 0 <= i < |a| && a[i].name == n;
      assert b[i].name == n;
    }
  }

  /** One round over the requests that were not visited before. */
  method Round(
    r: Registry, toProcess: seq<Request>, visited: set<Name>, resolved: map<Name, Package>,
    ghost requests: set<Request>)
    returns (next: seq<Request>, pins: map<Name, Package>)
    requires Names(toProcess) <= visited && All(toProcess) <= requests
    requires PinsAreBest(r, requests, resolved) && Closed(resolved, visited)
    ensures (next, pins) == RoundOf(r, toProcess, visited, resolved)
    ensures PinsAreBest(r, requests, pins) && Closed(pins, visited + Names(next))
    ensures pins.Keys <= resolved.Keys + Names(toProcess) && resolved.Keys <= pins.Keys
    ensures forall q :: q in next ==> IsNeeded(r, requests, q) && q.name !in visited
    ensures forall q :: q in toProcess && q.name !in pins && q.name in r.packages ==> HasNoEligible(r, q)
  {
    hide Best, Queued, RoundOf, IsBest, PinsAreBest, Closed, IsNeeded, IsEligible, Needs, Names, HasNoEligible;
    next, pins := [], resolved;
    NoRound(r, visited, resolved);
    for k := 0 to |toProcess|
      invariant (next, pins) == RoundOf(r, toProcess[..k], visited, resolved)
    {
      var q := toProcess[k];
      assert toProcess[..k + 1] == toProcess[..k] + [q];
      RoundContinues(r, toProcess[..k], q, visited, resolved);
      if q.name in r.packages {
        var chosen := Choose(r, q);
        if chosen.Some? {
          next := Enqueue(chosen.value, visited, next);
          pins := pins[q.name := chosen.value];
        }
      }
    }
    assert toProcess[..|toProcess|] == toProcess;
    RoundIsSound(r, toProcess, |toProcess|, visited, resolved, requests);
  }

  lemma NoRound(r: Registry, visited: set<Name>, resolved: map<Name, Package>)
    ensures RoundOf(r, [], visited, resolved) == ([], resolved)
  {
  }

  /** No version meets the request. */
  ghost predicate HasNoEligible(r: Registry, q: Request)
    requires q.name in r.packages
  {
    forall p :: p in r.packages[q.name] ==> !IsEligible(r, q.constraint, p)
  }

  lemma {:induction false} BestIsBest(r: Registry, packages: seq<Package>, c: Constraint)
    ensures match Best(r, packages, c)
            case None => forall p :: p in packages ==> !IsEligible(r, c, p)
            case Some(best) =>
              forall p :: p in packages && IsEligible(r, c, p) ==> p.version.value.AtMost(best.version.value)
    decreases |packages|
  {
    hide IsEligible;
    if packages != [] {
      var front, last := packages[..|packages| - 1], packages[|packages| - 1];
      assert packages == front + [last];
      BestIsBest(r, front, c);
    }
  }

  lemma {:induction false} RoundIsSound(
    r: Registry, toProcess: seq<Request>, n: nat, visited: set<Name>, resolved: map<Name, Package>,
    requests: set<Request>)
    requires n <= |toProcess| && Names(toProcess) <= visited && All(toProcess) <= requests
    requires PinsAreBest(r, requests, resolved) && Closed(resolved, visited)
    ensures var (next, pins) := RoundOf(r, toProcess[..n], visited, resolved);
            && PinsAreBest(r, requests, pins) && Closed(pins, visited + Names(next))
            && pins.Keys <= resolved.Keys + Names(toProcess) && resolved.Keys <= pins.Keys
            && (forall q :: q in next ==> IsNeeded(r, requests, q) && q.name !in visited)
            && (forall q :: q in toProcess[..n] && q.name !in pins && q.name in r.packages ==> HasNoEligible(r, q))
    decreases n
  {
    hide Best, Queued, RoundOf, IsBest, PinsAreBest, Closed, IsNeeded, IsEligible, Needs, HasNoEligible;
    if n == 0 {
      NoRound(r, visited, resolved);
      assert visited + Names([]) == visited;
    } else {
      RoundIsSound(r, toProcess, n - 1, visited, resolved, requests);
      var q := toProcess[n - 1];
      assert q in All(toProcess) && q.name in Names(toProcess);
      assert toProcess[..n] == toProcess[..n - 1] + [q];
      RoundContinues(r, toProcess[..n - 1], q, visited, resolved);
      var (before, pins) := RoundOf(r, toProcess[..n - 1], visited, resolved);
      if q.name in r.packages {
        ChosenIsBest(r, q);
        var chosen := Best(r, r.packages[q.name], q.constraint);
        if chosen.Some? {
          var more := Queued(chosen.value.deps, visited);
          QueuesAll(chosen.value, visited);
          NamesJoin(before, more);
          assert (before + more)[|before|..] == more;
          hide Names;
          RoundStep(r, requests, pins, q, chosen.value, visited, before, before + more);
        }
      }
    }
  }

  lemma ChosenIsBest(r: Registry, q: Request)
    requires q.name in r.packages
    ensures match Best(r, r.packages[q.name], q.constraint)
            case None => HasNoEligible(r, q)
            case Some(p) => IsBest(r, q, p)
  {
    BestIsBest(r, r.packages[q.name], q.constraint);
    hide Best, IsEligible;
  }

  lemma RoundStep(
    r: Registry, requests: set<Request>, pins: map<Name, Package>, q: Request, p: Package, visited: set<Name>,
    before: seq<Request>, next: seq<Request>)
    requires PinsAreBest(r, requests, pins) && Closed(pins, visited + Names(before)) && q in requests && IsBest(r, q, p)
    requires before <= next && forall d :: d in next[|before|..] ==> Needs(p, d) && d.name !in visited
    requires forall d :: d in before ==> IsNeeded(r, requests, d) && d.name !in visited
    requires forall i :: 0 <= i < |p.deps| && IsNormal(p.deps[i]) ==> p.deps[i].name in visited + Names(next)
    ensures PinsAreBest(r, requests, pins[q.name := p]) && Closed(pins[q.name := p], visited + Names(next))
    ensures forall d :: d in next ==> IsNeeded(r, requests, d) && d.name !in visited
  {
    hide IsBest, Needs, IsNormal;
    NamesGrow(before, next);
    assert next == before + next[|before|..];
    assert Request(q.name, q.constraint) == q;
  }

  // ---------------------------------------------------------------- whole runs

  ghost predicate VisitedForReason(
    r: Registry, resolved: map<Name, Package>, visited: set<Name>, requests: set<Request>) {
    && (forall n :: n in visited ==> IsRequested(requests, n))
    && (forall n :: n in visited && n !in resolved && n in r.packages ==> IsUnmet(r, requests, n))
  }

  ghost predicate IsRequested(requests: set<Request>, n: Name) {
    exists c :: Request(n, c) in requests
  }

  /** No version of the package meets one of its requests. */
  ghost predicate IsUnmet(r: Registry, requests: set<Request>, n: Name) {
    exists c :: Request(n, c) in requests
      && (n in r.packages ==> forall p :: p in r.packages[n] ==> !IsEligible(r, c, p))
  }

  ghost predicate Progress(
    r: Registry, seeds: seq<Request>, universe: set<Name>, batch: seq<Request>,
    resolved: map<Name, Package>, visited: set<Name>, requests: set<Request>)
  {
    && visited <= universe && Names(batch) <= universe && Names(seeds) <= visited + Names(batch)
    && All(batch) <= requests && Requested(r, All(seeds), requests)
    && PinsAreBest(r, requests, resolved) && Closed(resolved, visited + Names(batch)) && resolved.Keys <= visited
    && VisitedForReason(r, resolved, visited, requests)
  }

  lemma RequestsGrow(r: Registry, seeds: set<Request>, requests: set<Request>, next: seq<Request>)
    requires Requested(r, seeds, requests) && forall q :: q in next ==> IsNeeded(r, requests, q)
    ensures Requested(r, seeds, requests + All(next))
  {
    var more := requests + All(next);
    forall q | q in more ensures q in seeds || IsNeeded(r, more, q) {
      if q !in seeds {
        if q !in requests {
          var i :| 0 <= i < |next| && next[i] == q;
          assert next[i] in next;
        }
        assert IsNeeded(r, requests, q);
        var cause, p :| cause in requests && IsBest(r, cause, p) && Needs(p, q);
        assert cause in more;
      }
    }
  }

  lemma NeededWithin(r: Registry, requests: set<Request>, universe: set<Name>, next: seq<Request>)
    requires IsWithin(r, universe) && forall q :: q in next ==> IsNeeded(r, requests, q)
    ensures Names(next) <= universe
  {
    forall n | n in Names(next) ensures n in universe {
      var i :| 0 <= i < |next| && next[i].name == n;
      assert IsNeeded(r, requests, next[i]);
      var cause, p :| cause in requests && IsBest(r, cause, p) && Needs(p, next[i]);
    }
  }

  /** The names of a batch are all visited, or about to be processed. */
  lemma BatchSplits(batch: seq<Request>, visited: set<Name>, toProcess: seq<Request>)
    requires forall q :: q in toProcess <==> q in batch && q.name !in visited
    ensures Names(toProcess) <= Names(batch) <= visited + Names(toProcess) && All(toProcess) <= All(batch)
    ensures toProcess != [] ==> toProcess[0].name in Names(toProcess) && toProcess[0].name !in visited
  {
    forall n | n in Names(batch) && n !in visited ensures n in Names(toProcess) {
      var i :| 0 <= i < |batch| && batch[i].name == n;
      assert batch[i] in toProcess;
    }
    forall n | n in Names(toProcess) ensures n in Names(batch) {
      var i :| 0 <= i < |toProcess| && toProcess[i].name == n;
      assert toProcess[i] in batch;
    }
    forall q | q in All(toProcess) ensures q in All(batch) {
      assert q in batch;
    }
    if toProcess != [] { assert toProcess[0] in toProcess; }
  }

  lemma ReasonsGrow(
    r: Registry, resolved: map<Name, Package>, pins: map<Name, Package>, visited: set<Name>, toProcess: seq<Request>,
    requests: set<Request>, more: set<Request>)
    requires VisitedForReason(r, resolved, visited, requests) && requests <= more && All(toProcess) <= requests
    requires resolved.Keys <= pins.Keys
    requires forall q :: q in toProcess && q.name !in pins && q.name in r.packages ==> HasNoEligible(r, q)
    ensures VisitedForReason(r, pins, visited + Names(toProcess), more)
  {
    forall n | n in visited + Names(toProcess)
      ensures IsRequested(more, n) && (n !in pins && n in r.packages ==> IsUnmet(r, more, n))
    {
      if n in visited {
        assert IsRequested(requests, n);
        var c :| Request(n, c) in requests;
        assert Request(n, c) in more;
        if n !in pins && n in r.packages {
          assert IsUnmet(r, requests, n);
          var d :| Request(n, d) in requests && forall p :: p in r.packages[n] ==> !IsEligible(r, d, p);
          assert Request(n, d) in more;
        }
      } else {
        var i :| 0 <= i < |toProcess| && toProcess[i].name == n;
        assert toProcess[i] in toProcess && toProcess[i] in All(toProcess);
        assert Request(n, toProcess[i].constraint) in more;
      }
    }
  }

  lemma PinsStayBest(r: Registry, requests: set<Request>, more: set<Request>, pins: map<Name, Package>)
    requires PinsAreBest(r, requests, pins) && requests <= more
    ensures PinsAreBest(r, more, pins)
  {
    hide IsBest;
    forall n | n in pins ensures exists c :: Request(n, c) in more && IsBest(r, Request(n, c), pins[n]) {
      var c :| Request(n, c) in requests && IsBest(r, Request(n, c), pins[n]);
      assert Request(n, c) in more;
    }
  }

  lemma RoundProgresses(
    r: Registry, seeds: seq<Request>, universe: set<Name>, batch: seq<Request>,
    resolved: map<Name, Package>, visited: set<Name>, requests: set<Request>, toProcess: seq<Request>,
    next: seq<Request>, pins: map<Name, Package>)
    requires IsWithin(r, universe) && Progress(r, seeds, universe, batch, resolved, visited, requests)
    requires forall q :: q in toProcess <==> q in batch && q.name !in visited
    requires PinsAreBest(r, requests, pins) && Closed(pins, visited + Names(toProcess) + Names(next))
    requires pins.Keys <= resolved.Keys + Names(toProcess) && resolved.Keys <= pins.Keys
    requires forall q :: q in next ==> IsNeeded(r, requests, q)
    requires forall q :: q in toProcess && q.name !in pins && q.name in r.packages ==> HasNoEligible(r, q)
    ensures Progress(r, seeds, universe, next, pins, visited + Names(toProcess), requests + All(next))
  {
    BatchSplits(batch, visited, toProcess);
    RequestsGrow(r, All(seeds), requests, next);
    NeededWithin(r, requests, universe, next);
    ReasonsGrow(r, resolved, pins, visited, toProcess, requests, requests + All(next));
    PinsStayBest(r, requests, requests + All(next), pins);
    hide Names, All, Requested, PinsAreBest, Closed, VisitedForReason, IsWithin, IsNeeded, IsEligible;
  }

  /** A batch of visited names leaves nothing to do. */
  lemma SettledBatch(
    r: Registry, seeds: seq<Request>, universe: set<Name>, batch: seq<Request>,
    resolved: map<Name, Package>, visited: set<Name>, requests: set<Request>)
    requires Progress(r, seeds, universe, batch, resolved, visited, requests) && Names(batch) <= visited
    ensures Progress(r, seeds, universe, [], resolved, visited, requests)
  {
    assert Names([]) == {} && All([]) == {};
    assert visited + Names(batch) == visited == visited + Names([]);
    hide Names, All, Requested, PinsAreBest, Closed, VisitedForReason;
  }

  /**
   `resolve`, after reading the manifest. It ends over any finite registry, cyclic or not. Every pin is the
   highest version for some requested constraint and the starknet version; everything requested is a direct
   dependency or one of a chosen version; and all normal dependencies of pinned versions were visited.
   */
  method Resolve(r: Registry, seeds: seq<Request>, ghost universe: set<Name>)
    returns (resolved: map<Name, Package>, visited: set<Name>, ghost requests: set<Request>)
    requires IsWithin(r, universe) && Names(seeds) <= universe
    ensures resolved == Rounds(r, universe, seeds, {}, map[])
    ensures PinsAreBest(r, requests, resolved) && Requested(r, All(seeds), requests)
    ensures Closed(resolved, visited) && Names(seeds) <= visited && resolved.Keys <= visited
    ensures VisitedForReason(r, resolved, visited, requests)
  {
    resolved, visited, requests := map[], {}, All(seeds);
    var batch := seeds;
    while batch != []
      invariant Progress(r, seeds, universe, batch, resolved, visited, requests)
      invariant Rounds(r, universe, batch, visited, resolved) == Rounds(r, universe, seeds, {}, map[])
      decreases universe - visited, |batch|
    {
      hide Requested, PinsAreBest, Closed, VisitedForReason, IsWithin, IsNeeded, IsEligible;
      var toProcess := Unvisited(batch, visited);
      BatchSplits(batch, visited, toProcess);
      if toProcess == [] {
        SettledBatch(r, seeds, universe, batch, resolved, visited, requests);
        batch := [];
      } else {
        var next, pins := Round(r, toProcess, visited + Names(toProcess), resolved, requests);
        RoundProgresses(r, seeds, universe, batch, resolved, visited, requests, toProcess, next, pins);
        batch, resolved, visited := next, pins, visited + Names(toProcess);
        requests := requests + All(next);
      }
    }
  }
}
