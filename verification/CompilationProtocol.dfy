/**
 The two-phase compilation of classes: holders, unregistered compilations, background retries, waiters and readers,
 interleaved step by step. Each event is one atomic section of the code: between two events anyone may run.
 */
module CompilationProtocol {
  import opened Wrappers

  type Class = string
  /** A task, and with it its two notification channels. */
  type Task = nat
  /** The outcome of a successful build; what is in it does not matter here. */
  type Build = nat

  /** `writer` is the task that wrote the entry, unless a retry did. */
  datatype Cached = Cached(data: Option<Build>, original: Option<Build>, writer: Option<Task>)

  /** The cache and the registration maps. A registered receiver is named by the task that has its sender. */
  datatype Shared = Shared(
    cache: map<Class, Cached>,
    failed: set<Class>,
    pending: map<Class, Task>,
    phase1: map<Class, Task>,
    lock: Option<Task>,  // who has the write lock of `pending` across several steps
    sent1: set<Task>,
    sent2: set<Task>,
    lost: set<Task>)  // whose class lost an entry after they recorded a result; nothing reads it

  // ---------------------------------------------------------------- compilations

  /** A task spawned by the verification check builds in two phases; a fetch builds everything at once. */
  datatype Kind = Spawned | Fetching

  datatype Pc =
    | Starting
    | Locked                  // `start_compilation` found the class not pending
    | HalfRegistered          // in `phase1`, not yet in `pending`
    | Building1
    | Marking
    | Storing(entry: Cached)
    | Sending1(more: bool)    // `more`: phase 2 is still to come
    | Removing1(more: bool)
    | Building2
    | Looking(data: Build)
    | Updating(existing: Option<Cached>, data: Build)
    | Sending2
    | Removing2
    | Done

  datatype Outcome = Unknown | BuildFailed | Complete | HalfDone | Phase2Failed | Phase2Built

  datatype Holder = Holder(class_: Class, kind: Kind, registered: bool, pc: Pc, outcome: Outcome)

  /** What the first build yields: nothing, everything, or only the class without inline data. */
  datatype Phase1 = Failed | All(data: Build, original: Option<Build>) | Half(original: Option<Build>)

  predicate InPhase2(pc: Pc) {
    pc.Building2? || pc.Looking? || pc.Updating? || pc.Sending2? || pc.Removing2?
  }

  /** It has recorded a first result. */
  predicate HasRecorded(h: Holder) {
    h.registered && (h.pc.Sending1? || h.pc.Removing1? || InPhase2(h.pc) || h.pc.Done?)
  }

  // ---------------------------------------------------------------- retries, waiters, readers

  datatype RetryPc =
    | Queued
    | AwaitingPermit
    | Retrying
    | RetryStoring(entry: Cached)
    | Clearing
    | Invalidating
    | RetryMarking
    | Deactivating
    | Releasing
    | RetryDone

  datatype Retry = Retry(class_: Class, pc: RetryPc)

  datatype Phase = One | Two
  datatype WaitPc = Reading | Watching(holder: Task) | Returned(woken: Option<Task>)
  /** The result is true exactly if the waiter was woken; otherwise it found no registration. */
  datatype Waiter = Waiter(class_: Class, phase: Phase, pc: WaitPc)

  /**
   A request for inline data. It looks the class up, and if the entry has none, asks whether the class is compiling:
   then it waits, and otherwise it takes it that the second phase failed.
   */
  datatype ReadPc = Looking1 | Holding(entry: Cached) | Awaiting(entry: Cached) | TookForFailed(entry: Cached)
    | Answered

  datatype Reader = Reader(class_: Class, pc: ReadPc)

  datatype State = State(
    shared: Shared, holders: map<Task, Holder>, retries: map<Task, Retry>, active: set<Class>, permits: nat,
    waiters: map<Task, Waiter>, readers: map<Task, Reader>)

  function Init(maxCompilations: nat): State {
    State(Shared(map[], {}, map[], map[], None, {}, {}, {}), map[], map[], {}, maxCompilations, map[], map[])
  }

  // ---------------------------------------------------------------- events

  datatype Event =
    | Arrive(t: Task, c: Class, kind: Kind)
    | TakeLock(t: Task)
    | InsertPhase1(t: Task)
    | InsertPending(t: Task)
    | Build1(t: Task, result: Phase1)
    | MarkFailed(t: Task)
    | Store(t: Task)
    | Send1(t: Task)
    | Remove1(t: Task)
    | Build2(t: Task, built: Option<Build>)
    | Look(t: Task)
    | Update(t: Task)
    | Send2(t: Task)
    | Remove2(t: Task)
    | Enqueue(r: Task, rc: Class)
    | Activate(r: Task)
    | Acquire(r: Task)
    | RetryBuild(r: Task, retried: Option<Cached>)
    | RetryStore(r: Task)
    | ClearFailed(r: Task)
    | Invalidate(r: Task)
    | RetryMark(r: Task)
    | Deactivate(r: Task)
    | Release(r: Task)
    | WaitFor(w: Task, wc: Class, phase: Phase)
    | ReadReceiver(w: Task)
    | Wake(w: Task)
    | Request(d: Task, dc: Class)
    | LookUp(d: Task)
    | AskPending(d: Task)
    | Evict(gone: Class)
    | ExpireFailure(gone: Class)

  predicate HolderEvent(e: Event) {
    e.TakeLock? || e.InsertPhase1? || e.InsertPending? || e.Build1? || e.MarkFailed? || e.Store? || e.Send1?
      || e.Remove1?
    || e.Build2? || e.Look? || e.Update? || e.Send2? || e.Remove2?
  }

  predicate RetryEvent(e: Event) {
    e.Activate? || e.Acquire? || e.RetryBuild? || e.RetryStore? || e.ClearFailed? || e.Invalidate? || e.RetryMark?
    || e.Deactivate? || e.Release?
  }

  predicate HolderEnabled(sh: Shared, h: Holder, e: Event)
    requires HolderEvent(e)
  {
    match e
    case TakeLock(_) => h.pc.Starting? && sh.lock.None?
    case InsertPhase1(_) => h.pc.Locked?
    case InsertPending(_) => h.pc.HalfRegistered?
    case Build1(_, result) => h.pc.Building1? && (result.Half? ==> h.kind.Spawned?)
    case MarkFailed(_) => h.pc.Marking?
    case Store(_) => h.pc.Storing?
    case Send1(_) => h.pc.Sending1?
    case Remove1(_) => h.pc.Removing1?
    case Build2(_, _) => h.pc.Building2?
    case Look(_) => h.pc.Looking?
    case Update(_) => h.pc.Updating?
    case Send2(_) => h.pc.Sending2?
    case Remove2(_) => h.pc.Removing2? && sh.lock.None?
  }

  /** What a holder goes on with once its first result is recorded. */
  function AfterRecording(h: Holder, more: bool): Pc {
    if h.registered then Sending1(more) else Done
  }

  function MoveHolder(sh: Shared, h: Holder, e: Event): Holder
    requires HolderEvent(e) && HolderEnabled(sh, h, e)
  {
    match e
    case TakeLock(_) =>
      if h.class_ !in sh.pending then h.(pc := Locked, registered := true)
      else if h.kind.Spawned? then h.(pc := Done)
      else h.(pc := Building1)  // a fetch compiles all the same, unregistered
    case InsertPhase1(_) => h.(pc := HalfRegistered)
    case InsertPending(_) => h.(pc := Building1)
    case Build1(t, Failed) => h.(pc := Marking, outcome := BuildFailed)
    case Build1(t, All(data, original)) => h.(pc := Storing(Cached(Some(data), original, Some(t))), outcome := Complete)
    case Build1(t, Half(original)) => h.(pc := Storing(Cached(None, original, Some(t))), outcome := HalfDone)
    case MarkFailed(_) => h.(pc := AfterRecording(h, false))
    case Store(_) => h.(pc := AfterRecording(h, h.outcome.HalfDone?))
    case Send1(_) => h.(pc := Removing1(h.pc.more))
    case Remove1(_) => h.(pc := if h.pc.more then Building2 else Sending2)
    case Build2(_, None) => h.(pc := Sending2, outcome := Phase2Failed)
    case Build2(_, Some(data)) => h.(pc := Looking(data), outcome := Phase2Built)
    case Look(_) => h.(pc := Updating(if h.class_ in sh.cache then Some(sh.cache[h.class_]) else None, h.pc.data))
    case Update(_) => h.(pc := Sending2)
    case Send2(_) => h.(pc := Removing2)
    case Remove2(_) => h.(pc := Done)
  }

  function HolderEffect(sh: Shared, t: Task, h: Holder, e: Event): Shared
    requires HolderEvent(e) && HolderEnabled(sh, h, e)
  {
    var c := h.class_;
    match e
    case TakeLock(_) => if c in sh.pending then sh else sh.(lock := Some(t))
    case InsertPhase1(_) => sh.(phase1 := sh.phase1[c := t])
    case InsertPending(_) => sh.(pending := sh.pending[c := t], lock := None)
    case MarkFailed(_) => sh.(failed := sh.failed + {c})
    case Store(_) => sh.(cache := sh.cache[c := h.pc.entry])
    case Send1(_) => sh.(sent1 := sh.sent1 + {t})
    case Remove1(_) => sh.(phase1 := sh.phase1 - {c})
    case Update(_) =>
      if h.pc.existing.None? then sh
      else sh.(cache := sh.cache[c := h.pc.existing.value.(data := Some(h.pc.data))])
    case Send2(_) => sh.(sent2 := sh.sent2 + {t})
    case Remove2(_) => sh.(pending := sh.pending - {c})
    case _ => sh
  }

  predicate RetryEnabled(s: State, q: Retry, e: Event)
    requires RetryEvent(e)
  {
    match e
    case Activate(_) => q.pc.Queued?
    case Acquire(_) => q.pc.AwaitingPermit? && s.permits > 0
    case RetryBuild(_, retried) =>
      q.pc.Retrying? && (retried.Some? ==> retried.value.data.Some? && retried.value.writer.None?)
    case RetryStore(_) => q.pc.RetryStoring?
    case ClearFailed(_) => q.pc.Clearing?
    case Invalidate(_) => q.pc.Invalidating?
    case RetryMark(_) => q.pc.RetryMarking?
    case Deactivate(_) => q.pc.Deactivating?
    case Release(_) => q.pc.Releasing?
  }

  function MoveRetry(s: State, q: Retry, e: Event): RetryPc
    requires RetryEvent(e) && RetryEnabled(s, q, e)
  {
    match e
    case Activate(_) => if q.class_ in s.active then RetryDone else AwaitingPermit
    case Acquire(_) => Retrying
    case RetryBuild(_, Some(entry)) => RetryStoring(entry)
    case RetryBuild(_, None) => Invalidating
    case RetryStore(_) => Clearing
    case ClearFailed(_) => Deactivating
    case Invalidate(_) => RetryMarking
    case RetryMark(_) => Deactivating
    case Deactivate(_) => Releasing
    case Release(_) => RetryDone
  }

  function RetryEffect(sh: Shared, q: Retry, e: Event): Shared {
    match e
    case RetryStore(_) => if q.pc.RetryStoring? then sh.(cache := sh.cache[q.class_ := q.pc.entry]) else sh
    case ClearFailed(_) => sh.(failed := sh.failed - {q.class_})
    case Invalidate(_) => sh.(cache := sh.cache - {q.class_})
    case RetryMark(_) => sh.(failed := sh.failed + {q.class_})
    case _ => sh
  }

  function Registered(sh: Shared, phase: Phase): map<Class, Task> {
    if phase.One? then sh.phase1 else sh.pending
  }

  function Sent(sh: Shared, phase: Phase): set<Task> {
    if phase.One? then sh.sent1 else sh.sent2
  }

  /** The event takes away the class's entry, or the mark of a class that has no entry. */
  predicate IsLoss(s: State, e: Event, c: Class) {
    match e
    case Evict(gone) => c == gone && c in s.shared.cache
    case Invalidate(r) => r in s.retries && c == s.retries[r].class_ && c in s.shared.cache
    case ExpireFailure(gone) => c == gone && c in s.shared.failed && c !in s.shared.cache
    case ClearFailed(r) => r in s.retries && c == s.retries[r].class_ && c in s.shared.failed && c !in s.shared.cache
    case _ => false
  }

  /** Whose recorded result the event takes away. */
  function LosersOf(s: State, e: Event): set<Task> {
    set t | t in s.holders && HasRecorded(s.holders[t]) && IsLoss(s, e, s.holders[t].class_)
  }

  predicate Enabled(s: State, e: Event) {
    if HolderEvent(e) then e.t in s.holders && HolderEnabled(s.shared, s.holders[e.t], e)
    else if RetryEvent(e) then e.r in s.retries && RetryEnabled(s, s.retries[e.r], e)
    else
      match e
      case Arrive(t, _, _) => t !in s.holders
      case Enqueue(r, _) => r !in s.retries
      case WaitFor(w, _, _) => w !in s.waiters
      case Request(d, _) => d !in s.readers
      case LookUp(d) => d in s.readers && s.readers[d].pc.Looking1?
      case AskPending(d) => d in s.readers && s.readers[d].pc.Holding? && s.shared.lock.None?
      case ReadReceiver(w) =>
        w in s.waiters && s.waiters[w].pc.Reading? && (s.waiters[w].phase.Two? ==> s.shared.lock.None?)
      case Wake(w) =>
        w in s.waiters && s.waiters[w].pc.Watching? && s.waiters[w].pc.holder in Sent(s.shared, s.waiters[w].phase)
      case _ => true
  }

  function Apply(s: State, e: Event): State
    requires Enabled(s, e)
  {
    if HolderEvent(e) then HolderStep(s, e) else if RetryEvent(e) then RetryStep(s, e) else OtherStep(s, e)
  }

  function HolderStep(s: State, e: Event): State
    requires HolderEvent(e) && e.t in s.holders && HolderEnabled(s.shared, s.holders[e.t], e)
  {
    var h := s.holders[e.t];
    s.(shared := HolderEffect(s.shared, e.t, h, e), holders := s.holders[e.t := MoveHolder(s.shared, h, e)])
  }

  function RetryStep(s: State, e: Event): State
    requires RetryEvent(e) && e.r in s.retries && RetryEnabled(s, s.retries[e.r], e)
  {
    var q := s.retries[e.r];
    s.(shared := RetryEffect(s.shared, q, e).(lost := s.shared.lost + LosersOf(s, e)),
       retries := s.retries[e.r := q.(pc := MoveRetry(s, q, e))],
       active := if e.Activate? then s.active + {q.class_}
                 else if e.Deactivate? then s.active - {q.class_}
                 else s.active,
       permits := if e.Acquire? then s.permits - 1 else if e.Release? then s.permits + 1 else s.permits)
  }

  function OtherStep(s: State, e: Event): State
    requires !HolderEvent(e) && !RetryEvent(e) && Enabled(s, e)
  {
    match e
    case Arrive(t, c, kind) => s.(holders := s.holders[t := Holder(c, kind, false, Starting, Unknown)])
    case Enqueue(r, c) => s.(retries := s.retries[r := Retry(c, Queued)])
    case WaitFor(w, c, phase) => s.(waiters := s.waiters[w := Waiter(c, phase, Reading)])
    case ReadReceiver(w) =>
      var waiter := s.waiters[w];
      var registered := Registered(s.shared, waiter.phase);
      s.(waiters := s.waiters[w := waiter.(
        pc := if waiter.class_ in registered then Watching(registered[waiter.class_]) else Returned(None))])
    case Wake(w) => s.(waiters := s.waiters[w := s.waiters[w].(pc := Returned(Some(s.waiters[w].pc.holder)))])
    case Request(d, c) => s.(readers := s.readers[d := Reader(c, Looking1)])
    case LookUp(d) =>
      var reader := s.readers[d];
      var c := reader.class_;
      s.(readers := s.readers[d := reader.(
        pc := if c in s.shared.cache && s.shared.cache[c].data.None? then Holding(s.shared.cache[c]) else Answered)])
    case AskPending(d) =>
      var reader := s.readers[d];
      s.(readers := s.readers[d := reader.(
        pc := if reader.class_ in s.shared.pending then Awaiting(reader.pc.entry) else TookForFailed(reader.pc.entry))])
    case Evict(c) =>
      s.(shared := s.shared.(cache := s.shared.cache - {c}, lost := s.shared.lost + LosersOf(s, e)))
    case ExpireFailure(c) =>
      s.(shared := s.shared.(failed := s.shared.failed - {c}, lost := s.shared.lost + LosersOf(s, e)))
    case _ => s
  }

  /** Every event happens when it can. */
  predicate Possible(s: State, events: seq<Event>)
    decreases |events|
  {
    events == [] || (Enabled(s, events[0]) && Possible(Apply(s, events[0]), events[1..]))
  }

  function After(s: State, events: seq<Event>): State
    requires Possible(s, events)
    decreases |events|
  {
    if events == [] then s else After(Apply(s, events[0]), events[1..])
  }
}
