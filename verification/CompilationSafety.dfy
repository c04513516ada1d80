/** What every interleaving of compilations, retries, waiters and evictions keeps. */
module CompilationSafety {
  import opened Wrappers
  import opened CompilationProtocol

  // ---------------------------------------------------------------- where a holder is

  /** In `phase1`, between the insertion and the removal. */
  predicate InPhase1(pc: Pc) {
    pc.HalfRegistered? || pc.Building1? || pc.Marking? || pc.Storing? || pc.Sending1? || pc.Removing1?
  }

  /** In `pending`, between the insertion and the removal. */
  predicate InPending(pc: Pc) {
    pc.Building1? || pc.Marking? || pc.Storing? || pc.Sending1? || pc.Removing1? || InPhase2(pc)
  }

  predicate HasLock(pc: Pc) { pc.Locked? || pc.HalfRegistered? }

  predicate Signalled1(h: Holder) { h.registered && (h.pc.Removing1? || InPhase2(h.pc) || h.pc.Done?) }
  predicate Signalled2(h: Holder) { h.registered && (h.pc.Removing2? || h.pc.Done?) }

  /** It still has its second phase ahead, after storing a class without inline data. */
  predicate AwaitsInline(h: Holder) {
    h.registered && h.kind.Spawned?
    && ((h.outcome.HalfDone? && ((h.pc.Sending1? && h.pc.more) || (h.pc.Removing1? && h.pc.more) || h.pc.Building2?))
        || (h.outcome.Phase2Built? && (h.pc.Looking? || (h.pc.Updating? && h.pc.existing.Some?))))
  }

  /** Its result is complete and its registration is still there. */
  predicate HasDelivered(h: Holder) {
    h.registered
    && ((h.outcome.Complete? && (h.pc.Sending1? || h.pc.Removing1? || h.pc.Sending2? || h.pc.Removing2?))
        || (h.outcome.Phase2Built? && (h.pc.Sending2? || h.pc.Removing2?)))
  }

  /** The outcome a holder has at each place. */
  predicate Coherent(t: Task, h: Holder) {
    && (h.pc.Starting? ==> !h.registered)
    && (h.pc.Starting? || HasLock(h.pc) || h.pc.Building1? ==> h.outcome.Unknown?)
    && (HasLock(h.pc) ==> h.registered)
    && (!h.registered ==>
          || h.pc.Starting? || h.pc.Done?
          || (h.kind.Fetching? && (h.pc.Building1? || h.pc.Marking? || h.pc.Storing?)))
    && (h.pc.Marking? ==> h.outcome.BuildFailed?)
    && (h.pc.Storing? ==> h.pc.entry.writer == Some(t) && (h.outcome.Complete? || h.outcome.HalfDone?)
                          && (h.pc.entry.data.None? <==> h.outcome.HalfDone?))
    && (h.outcome.HalfDone? ==> h.kind.Spawned? && h.registered && (h.pc.Storing? || AwaitsInline(h)))
    && (h.outcome.Phase2Built? ==>
        h.kind.Spawned? && h.registered && ((InPhase2(h.pc) && !h.pc.Building2?) || h.pc.Done?))
    && (h.outcome.Phase2Failed? ==>
        h.kind.Spawned? && h.registered && (h.pc.Sending2? || h.pc.Removing2? || h.pc.Done?))
    && ((h.pc.Sending1? && h.pc.more) || (h.pc.Removing1? && h.pc.more) || h.pc.Building2? ==> h.outcome.HalfDone?)
    && (h.pc.Looking? || h.pc.Updating? ==> h.outcome.Phase2Built?)
    && (HasRecorded(h) ==> !h.outcome.Unknown?)
  }

  // ---------------------------------------------------------------- the invariant

  predicate Recorded(sh: Shared, c: Class) { c in sh.cache || c in sh.failed }
  predicate HasData(sh: Shared, c: Class) { c in sh.cache && sh.cache[c].data.Some? }

  /** What a holder's place in its program says about the shared maps. */
  ghost predicate HolderOk(sh: Shared, t: Task, h: Holder) {
    Coherent(t, h) && PlaceOk(sh, t, h) && ChannelsOk(sh, t, h)
  }

  ghost predicate PlaceOk(sh: Shared, t: Task, h: Holder) {
    && (HasLock(h.pc) <==> sh.lock == Some(t))
    && (HasLock(h.pc) ==> h.class_ !in sh.pending)
    && (h.registered && InPhase1(h.pc) ==> h.class_ in sh.phase1 && sh.phase1[h.class_] == t)
    && (h.registered && InPending(h.pc) ==> h.class_ in sh.pending && sh.pending[h.class_] == t)
  }

  ghost predicate ChannelsOk(sh: Shared, t: Task, h: Holder) {
    (t in sh.sent1 <==> Signalled1(h)) && (t in sh.sent2 <==> Signalled2(h))
  }

  ghost predicate Owns(s: State, c: Class, t: Task) {
    t in s.holders && s.holders[t].class_ == c && s.holders[t].registered
  }

  ghost predicate HoldersOk(s: State) {
    forall t :: t in s.holders ==> HolderOk(s.shared, t, s.holders[t])
  }

  /** The maps and the channels name holders, which are in their registered part. */
  ghost predicate NamesOk(s: State) {
    && (s.shared.lock.Some? ==> s.shared.lock.value in s.holders)
    && (forall c :: c in s.shared.phase1 ==>
        Owns(s, c, s.shared.phase1[c]) && InPhase1(s.holders[s.shared.phase1[c]].pc))
    && (forall c :: c in s.shared.pending ==>
        Owns(s, c, s.shared.pending[c]) && InPending(s.holders[s.shared.pending[c]].pc))
    && (forall t :: t in s.shared.sent1 || t in s.shared.sent2 ==> t in s.holders)
  }

  ghost predicate RegistrationsOk(s: State) {
    HoldersOk(s) && NamesOk(s)
  }

  /** What a holder recorded stays recorded, unless its class lost an entry after that. */
  ghost predicate RecordOk(sh: Shared, t: Task, h: Holder) {
    t in sh.lost ||
    (&& (HasRecorded(h) ==> Recorded(sh, h.class_))
     && (HasRecorded(h) && !h.outcome.BuildFailed? ==> h.class_ in sh.cache)
     && !(h.pc.Updating? && h.pc.existing.None?)
     && (HasDelivered(h) ==> HasData(sh, h.class_)))
  }

  predicate RetryRecordOk(q: Retry) {
    q.pc.RetryStoring? ==> q.pc.entry.data.Some? && q.pc.entry.writer.None?
  }

  ghost predicate RecordsOk(s: State) {
    && (forall t :: t in s.holders ==> RecordOk(s.shared, t, s.holders[t]))
    && (forall r :: r in s.retries ==> RetryRecordOk(s.retries[r]))
    && (forall t :: t in s.shared.lost ==> t in s.holders && HasRecorded(s.holders[t]))
  }

  /** An entry without inline data: its writer awaits phase 2, or phase 2 failed. */
  ghost predicate PartialEntryOk(s: State, c: Class)
    requires c in s.shared.cache
  {
    var writer := s.shared.cache[c].writer;
    s.shared.cache[c].data.None? ==>
      && writer.Some? && Owns(s, c, writer.value)
      && (AwaitsInline(s.holders[writer.value]) || s.holders[writer.value].outcome.Phase2Failed?)
  }

  predicate HasBuilt(h: Holder) { h.outcome.Complete? || h.outcome.Phase2Built? }

  /** An entry with inline data: its writer built it, unless it was a retry. */
  ghost predicate CompleteEntryOk(s: State, c: Class, entry: Cached) {
    entry.data.Some? && entry.writer.Some? ==>
      entry.writer.value in s.holders && s.holders[entry.writer.value].class_ == c
      && HasBuilt(s.holders[entry.writer.value])
  }

  /** While a compilation is pending and has stored a result, an entry without inline data is its own. */
  ghost predicate OwnEntryOk(sh: Shared, t: Task, h: Holder) {
    && (h.registered && InPending(h.pc) && HasRecorded(h) && !h.outcome.BuildFailed?
        && h.class_ in sh.cache && sh.cache[h.class_].data.None? ==>
          sh.cache[h.class_].writer == Some(t))
    && (h.pc.Updating? && h.pc.existing.Some? && h.pc.existing.value.data.None? ==>
          h.pc.existing.value.writer == Some(t))
  }

  ghost predicate UpdateOk(s: State, h: Holder) {
    h.pc.Updating? && h.pc.existing.Some? ==> CompleteEntryOk(s, h.class_, h.pc.existing.value)
  }

  ghost predicate CacheOk(s: State) {
    forall c :: c in s.shared.cache ==> PartialEntryOk(s, c)
  }

  ghost predicate WritersOk(s: State) {
    && (forall c :: c in s.shared.cache ==> CompleteEntryOk(s, c, s.shared.cache[c]))
    && (forall t :: t in s.holders ==> OwnEntryOk(s.shared, t, s.holders[t]) && UpdateOk(s, s.holders[t]))
  }

  /** A waiter watches the channel of a holder registered for its class, and is woken only once that was sent. */
  ghost predicate WaiterOk(s: State, w: Waiter) {
    match w.pc
    case Reading => true
    case Watching(t) => Owns(s, w.class_, t)
    case Returned(None) => true
    case Returned(Some(t)) => Owns(s, w.class_, t) && t in Sent(s.shared, w.phase)
  }

  ghost predicate WaitersOk(s: State) {
    forall w :: w in s.waiters ==> WaiterOk(s, s.waiters[w])
  }

  /** The writer of an entry that a reader found without inline data built it in two phases, and has got this far. */
  ghost predicate WritesInTwoPhases(s: State, c: Class, writer: Task) {
    && Owns(s, c, writer) && HasRecorded(s.holders[writer]) && s.holders[writer].kind.Spawned?
    && (s.holders[writer].outcome.HalfDone? || s.holders[writer].outcome.Phase2Built?
        || s.holders[writer].outcome.Phase2Failed?)
  }

  /** A reader that took the second phase for failed did so when its entry's writer had finished. */
  ghost predicate ReaderOk(s: State, d: Reader) {
    match d.pc
    case Holding(entry) => entry.data.None? && entry.writer.Some? && WritesInTwoPhases(s, d.class_, entry.writer.value)
    case Awaiting(entry) => entry.data.None? && entry.writer.Some? && WritesInTwoPhases(s, d.class_, entry.writer.value)
    case TookForFailed(entry) =>
      && entry.data.None? && entry.writer.Some?
      && WritesInTwoPhases(s, d.class_, entry.writer.value) && s.holders[entry.writer.value].pc.Done?
    case _ => true
  }

  ghost predicate ReadersOk(s: State) {
    forall d :: d in s.readers ==> ReaderOk(s, s.readers[d])
  }

  // ---------------------------------------------------------------- retries

  predicate IsActive(q: Retry) {
    !q.pc.Queued? && !q.pc.Releasing? && !q.pc.RetryDone?
  }

  predicate HasPermit(q: Retry) {
    !q.pc.Queued? && !q.pc.AwaitingPermit? && !q.pc.RetryDone?
  }

  ghost function PermitHolders(retries: map<Task, Retry>): set<Task> {
    set r | r in retries && HasPermit(retries[r])
  }

  /** Each active retry has claimed its class, and no two the same one. */
  ghost predicate ClaimsOk(s: State) {
    && (forall r :: r in s.retries && IsActive(s.retries[r]) ==> s.retries[r].class_ in s.active)
    && (forall q, r ::
          q in s.retries && r in s.retries && q != r && IsActive(s.retries[q]) && IsActive(s.retries[r]) ==>
            s.retries[q].class_ != s.retries[r].class_)
  }

  ghost predicate RetriesOk(s: State, maxCompilations: nat) {
    ClaimsOk(s) && |PermitHolders(s.retries)| + s.permits == maxCompilations
  }

  ghost predicate Inv(s: State, maxCompilations: nat) {
    && RegistrationsOk(s) && RecordsOk(s) && CacheOk(s) && WritersOk(s) && WaitersOk(s) && ReadersOk(s)
    && RetriesOk(s, maxCompilations)
  }

  // ---------------------------------------------------------------- what a step changes

  lemma EventsDiffer(e: Event)
    ensures !(HolderEvent(e) && RetryEvent(e))
  {
  }

  /** The shared maps after a holder's step, one by one. */
  lemma HolderEffects(sh: Shared, t: Task, h: Holder, e: Event)
    requires HolderEvent(e) && HolderEnabled(sh, h, e)
    ensures var c, after := h.class_, HolderEffect(sh, t, h, e);
            && after.lock
               == (if e.TakeLock? && c !in sh.pending then Some(t) else if e.InsertPending? then None else sh.lock)
            && after.phase1
               == (if e.InsertPhase1? then sh.phase1[c := t] else if e.Remove1? then sh.phase1 - {c} else sh.phase1)
            && after.pending
               == (if e.InsertPending? then sh.pending[c := t] else if e.Remove2? then sh.pending - {c} else sh.pending)
            && after.failed == (if e.MarkFailed? then sh.failed + {c} else sh.failed)
            && after.sent1 == (if e.Send1? then sh.sent1 + {t} else sh.sent1)
            && after.sent2 == (if e.Send2? then sh.sent2 + {t} else sh.sent2)
            && after.lost == sh.lost
  {
  }

  lemma CacheAfter(sh: Shared, t: Task, h: Holder, e: Event)
    requires HolderEvent(e) && HolderEnabled(sh, h, e)
    ensures HolderEffect(sh, t, h, e).cache
            == if e.Store? then sh.cache[h.class_ := h.pc.entry]
               else if e.Update? && h.pc.existing.Some? then
                 sh.cache[h.class_ := h.pc.existing.value.(data := Some(h.pc.data))]
               else sh.cache
  {
  }

  lemma ApplyOfHolder(s: State, e: Event)
    requires HolderEvent(e) && Enabled(s, e)
    ensures e.t in s.holders && HolderEnabled(s.shared, s.holders[e.t], e) && Apply(s, e) == HolderStep(s, e)
  {
    hide HolderEnabled, HolderStep, RetryStep, OtherStep, HolderEvent, RetryEvent;
  }

  lemma HolderApplies(s: State, e: Event)
    requires HolderEvent(e) && Enabled(s, e)
    ensures e.t in s.holders && HolderEnabled(s.shared, s.holders[e.t], e)
    ensures var h, after := s.holders[e.t], Apply(s, e);
            && after.shared == HolderEffect(s.shared, e.t, h, e)
            && after.holders == s.holders[e.t := MoveHolder(s.shared, h, e)]
            && after.retries == s.retries && after.active == s.active && after.permits == s.permits
            && after.waiters == s.waiters && after.readers == s.readers
  {
    hide Apply, Enabled, HolderEnabled, HolderEffect, MoveHolder;
    ApplyOfHolder(s, e);
  }

  lemma ApplyOfRetry(s: State, e: Event)
    requires RetryEvent(e) && Enabled(s, e)
    ensures e.r in s.retries && RetryEnabled(s, s.retries[e.r], e) && Apply(s, e) == RetryStep(s, e)
  {
    hide RetryEnabled, HolderStep, RetryStep, OtherStep, HolderEvent, RetryEvent;
    EventsDiffer(e);
  }

  lemma RetryApplies(s: State, e: Event)
    requires RetryEvent(e) && Enabled(s, e)
    ensures e.r in s.retries && RetryEnabled(s, s.retries[e.r], e)
    ensures var q, after := s.retries[e.r], Apply(s, e);
            && after.shared == RetryEffect(s.shared, q, e).(lost := s.shared.lost + LosersOf(s, e))
            && after.retries == s.retries[e.r := q.(pc := MoveRetry(s, q, e))]
            && after.active == (if e.Activate? then s.active + {q.class_}
                                else if e.Deactivate? then s.active - {q.class_}
                                else s.active)
            && after.permits == (if e.Acquire? then s.permits - 1 else if e.Release? then s.permits + 1 else s.permits)
            && after.holders == s.holders && after.waiters == s.waiters && after.readers == s.readers
  {
    hide Apply, Enabled, RetryEnabled, MoveRetry, RetryEffect, LosersOf;
    ApplyOfRetry(s, e);
  }

  lemma ApplyOfOther(s: State, e: Event)
    requires !HolderEvent(e) && !RetryEvent(e) && Enabled(s, e)
    ensures Apply(s, e) == OtherStep(s, e)
    ensures e.Arrive? ==> e.t !in s.holders
  {
    hide HolderStep, RetryStep, OtherStep;
  }

  /** An eviction and an expiry take something away; no other event of this kind changes the shared maps. */
  function OtherEffect(s: State, e: Event): Shared {
    match e
    case Evict(c) => s.shared.(cache := s.shared.cache - {c}, lost := s.shared.lost + LosersOf(s, e))
    case ExpireFailure(c) => s.shared.(failed := s.shared.failed - {c}, lost := s.shared.lost + LosersOf(s, e))
    case _ => s.shared
  }

  lemma OtherApplies(s: State, e: Event)
    requires !HolderEvent(e) && !RetryEvent(e) && Enabled(s, e)
    ensures e.Arrive? ==> e.t !in s.holders
    ensures var after := Apply(s, e);
            && after.shared == OtherEffect(s, e) && after.active == s.active && after.permits == s.permits
            && after.holders
               == (if e.Arrive? then s.holders[e.t := Holder(e.c, e.kind, false, Starting, Unknown)] else s.holders)
            && after.retries == (if e.Enqueue? then s.retries[e.r := Retry(e.rc, Queued)] else s.retries)
  {
    hide Apply, Enabled, LosersOf, Registered, Sent;
    ApplyOfOther(s, e);
    hide HolderEvent, RetryEvent;
  }

  /** What happens to waiters. */
  lemma WaitersAfter(s: State, e: Event, w: Task)
    requires !HolderEvent(e) && !RetryEvent(e) && Enabled(s, e) && w in Apply(s, e).waiters
    ensures var waiter := Apply(s, e).waiters[w];
            || (w in s.waiters && waiter == s.waiters[w])
            || waiter.pc.Reading? || waiter.pc == Returned(None)
            || (waiter.pc.Watching? && waiter.class_ in Registered(s.shared, waiter.phase)
                && waiter.pc.holder == Registered(s.shared, waiter.phase)[waiter.class_])
            || (w in s.waiters && s.waiters[w].pc.Watching? && s.waiters[w].pc.holder in Sent(s.shared, waiter.phase)
                && waiter == s.waiters[w].(pc := Returned(Some(s.waiters[w].pc.holder))))
  {
    hide Apply, LosersOf, Registered, Sent;
    ApplyOfOther(s, e);
    hide HolderEvent, RetryEvent;
  }

  /** No reader is taken away, and none goes back to its first look. */
  lemma ReaderStays(s: State, e: Event, d: Task)
    requires !HolderEvent(e) && !RetryEvent(e) && Enabled(s, e) && d in s.readers
    ensures d in Apply(s, e).readers && Apply(s, e).readers[d].class_ == s.readers[d].class_
    ensures !s.readers[d].pc.Looking1? ==> !Apply(s, e).readers[d].pc.Looking1?
    ensures Apply(s, e).readers[d].pc.Holding? ==>
              s.readers[d].pc.Looking1? || Apply(s, e).readers[d].pc == s.readers[d].pc
  {
    hide Apply, LosersOf, Registered, Sent;
    ApplyOfOther(s, e);
    hide HolderEvent, RetryEvent;
  }

  /** What happens to readers. */
  lemma ReadersAfter(s: State, e: Event, d: Task)
    requires !HolderEvent(e) && !RetryEvent(e) && Enabled(s, e) && d in Apply(s, e).readers
    ensures var reader := Apply(s, e).readers[d];
            || (d in s.readers && reader == s.readers[d])
            || reader.pc.Looking1? || reader.pc.Answered?
            || (reader.pc.Holding? && reader.class_ in s.shared.cache && s.shared.cache[reader.class_].data.None?
                && reader.pc.entry == s.shared.cache[reader.class_])
            || (d in s.readers && s.readers[d].pc.Holding?
                && reader == s.readers[d].(pc := Awaiting(s.readers[d].pc.entry)))
            || (d in s.readers && s.readers[d].pc.Holding? && s.readers[d].class_ !in s.shared.pending
                && reader == s.readers[d].(pc := TookForFailed(s.readers[d].pc.entry)))
  {
    hide Apply, LosersOf, Registered, Sent;
    ApplyOfOther(s, e);
    hide HolderEvent, RetryEvent;
  }

  // ---------------------------------------------------------------- a holder's step: registrations

  lemma MovedIsCoherent(sh: Shared, t: Task, h: Holder, e: Event)
    requires HolderEvent(e) && HolderEnabled(sh, h, e) && e.t == t && Coherent(t, h)
    ensures Coherent(t, MoveHolder(sh, h, e))
  {
  }

  lemma MovedIsInPlace(sh: Shared, t: Task, h: Holder, e: Event)
    requires HolderEvent(e) && HolderEnabled(sh, h, e) && e.t == t && Coherent(t, h) && PlaceOk(sh, t, h)
    ensures PlaceOk(HolderEffect(sh, t, h, e), t, MoveHolder(sh, h, e))
  {
    hide HolderEffect;
    HolderEffects(sh, t, h, e);
  }

  lemma MovedHasSent(sh: Shared, t: Task, h: Holder, e: Event)
    requires HolderEvent(e) && HolderEnabled(sh, h, e) && e.t == t && Coherent(t, h) && ChannelsOk(sh, t, h)
    ensures ChannelsOk(HolderEffect(sh, t, h, e), t, MoveHolder(sh, h, e))
  {
  }

  /** The holder after its own step. */
  lemma MovedHolderOk(sh: Shared, t: Task, h: Holder, e: Event)
    requires HolderEvent(e) && HolderEnabled(sh, h, e) && e.t == t && HolderOk(sh, t, h)
    ensures HolderOk(HolderEffect(sh, t, h, e), t, MoveHolder(sh, h, e))
  {
    hide Coherent, PlaceOk, ChannelsOk, HolderEffect, MoveHolder, HolderEnabled;
    MovedIsCoherent(sh, t, h, e);
    MovedIsInPlace(sh, t, h, e);
    MovedHasSent(sh, t, h, e);
  }

  /** Another holder does not notice: two holders in their registered part have different classes. */
  lemma OtherHolderOk(sh: Shared, t: Task, h: Holder, e: Event, u: Task, g: Holder)
    requires HolderEvent(e) && HolderEnabled(sh, h, e) && e.t == t && HolderOk(sh, t, h)
    requires u != t && HolderOk(sh, u, g)
    ensures HolderOk(HolderEffect(sh, t, h, e), u, g)
  {
    hide HolderEffect;
    HolderEffects(sh, t, h, e);
  }

  lemma HolderKeepsHolders(s: State, e: Event)
    requires HoldersOk(s) && HolderEvent(e) && Enabled(s, e)
    ensures HoldersOk(Apply(s, e))
  {
    hide HolderOk, HolderEnabled, MoveHolder, HolderEffect, Apply, Enabled;
    HolderApplies(s, e);
    var t, h := e.t, s.holders[e.t];
    MovedHolderOk(s.shared, t, h, e);
    forall u | u in s.holders && u != t ensures HolderOk(Apply(s, e).shared, u, s.holders[u]) {
      OtherHolderOk(s.shared, t, h, e, u, s.holders[u]);
    }
  }

  /** Each name that a holder's step leaves in the maps is the holder's own, or was there and is another's. */
  lemma NamesAfter(sh: Shared, t: Task, h: Holder, e: Event, c: Class)
    requires HolderEvent(e) && HolderEnabled(sh, h, e) && e.t == t && HolderOk(sh, t, h)
    requires c in sh.phase1 && sh.phase1[c] == t ==> c == h.class_ && h.registered && InPhase1(h.pc)
    requires c in sh.pending && sh.pending[c] == t ==> c == h.class_ && h.registered && InPending(h.pc)
    ensures var after, g := HolderEffect(sh, t, h, e), MoveHolder(sh, h, e);
            && (c in after.phase1 ==>
                  if after.phase1[c] == t then c == g.class_ && g.registered && InPhase1(g.pc)
                  else c in sh.phase1 && after.phase1[c] == sh.phase1[c])
            && (c in after.pending ==>
                  if after.pending[c] == t then c == g.class_ && g.registered && InPending(g.pc)
                  else c in sh.pending && after.pending[c] == sh.pending[c])
  {
    hide HolderEffect, ChannelsOk;
    HolderEffects(sh, t, h, e);
  }

  lemma ChannelsAfter(sh: Shared, t: Task, h: Holder, e: Event)
    requires HolderEvent(e) && HolderEnabled(sh, h, e)
    ensures var after := HolderEffect(sh, t, h, e);
            && sh.sent1 <= after.sent1 <= sh.sent1 + {t} && sh.sent2 <= after.sent2 <= sh.sent2 + {t}
            && (after.lock == sh.lock || after.lock == None || after.lock == Some(t))
            && sh.lost == after.lost
  {
  }

  lemma HolderKeepsNames(s: State, e: Event)
    requires RegistrationsOk(s) && HolderEvent(e) && Enabled(s, e)
    ensures NamesOk(Apply(s, e))
  {
    hide HolderOk, InPhase1, InPending, HolderEnabled, MoveHolder, HolderEffect, Apply, Enabled;
    HolderApplies(s, e);
    var t, h, after := e.t, s.holders[e.t], Apply(s, e);
    ChannelsAfter(s.shared, t, h, e);
    forall c
      ensures c in after.shared.phase1 ==>
              Owns(after, c, after.shared.phase1[c]) && InPhase1(after.holders[after.shared.phase1[c]].pc)
      ensures c in after.shared.pending ==>
              Owns(after, c, after.shared.pending[c]) && InPending(after.holders[after.shared.pending[c]].pc)
    {
      NamesAfter(s.shared, t, h, e, c);
    }
  }

  // ---------------------------------------------------------------- a holder's step: records, entries, waiters

  lemma MovedRecordOk(sh: Shared, t: Task, h: Holder, e: Event)
    requires HolderEvent(e) && HolderEnabled(sh, h, e) && e.t == t && HolderOk(sh, t, h) && RecordOk(sh, t, h)
    ensures RecordOk(HolderEffect(sh, t, h, e), t, MoveHolder(sh, h, e))
  {
    hide ChannelsOk, PlaceOk, HolderEffect;
    CacheAfter(sh, t, h, e);
    HolderEffects(sh, t, h, e);
    MovedIsCoherent(sh, t, h, e);
  }

  lemma StaysRecorded(sh: Shared, t: Task, h: Holder, e: Event)
    requires HolderEvent(e) && HolderEnabled(sh, h, e)
    ensures HasRecorded(h) ==> HasRecorded(MoveHolder(sh, h, e))
  {
  }

  /** A holder's step takes nothing away, and overwrites inline data only if no other holder delivered it. */
  lemma OtherRecordOk(sh: Shared, t: Task, h: Holder, e: Event, u: Task, g: Holder)
    requires HolderEvent(e) && HolderEnabled(sh, h, e) && e.t == t && HolderOk(sh, t, h)
    requires u != t && HolderOk(sh, u, g) && RecordOk(sh, u, g)
    ensures RecordOk(HolderEffect(sh, t, h, e), u, g)
  {
    hide HolderEffect, MoveHolder, ChannelsOk;
    HolderEffects(sh, t, h, e);
    CacheAfter(sh, t, h, e);
  }

  lemma HolderKeepsRecords(s: State, e: Event)
    requires HoldersOk(s) && RecordsOk(s) && HolderEvent(e) && Enabled(s, e)
    ensures RecordsOk(Apply(s, e))
  {
    hide HolderOk, RecordOk, RetryRecordOk, HolderEnabled, MoveHolder, HolderEffect, HasRecorded, Apply, Enabled;
    HolderApplies(s, e);
    var t, h, after := e.t, s.holders[e.t], Apply(s, e);
    MovedRecordOk(s.shared, t, h, e);
    StaysRecorded(s.shared, t, h, e);
    ChannelsAfter(s.shared, t, h, e);
    forall u | u in s.holders && u != t ensures RecordOk(after.shared, u, s.holders[u]) {
      OtherRecordOk(s.shared, t, h, e, u, s.holders[u]);
    }
  }

  ghost predicate MayBePartial(h: Holder) {
    h.registered && (AwaitsInline(h) || h.outcome.Phase2Failed?)
  }

  /** An entry without inline data is the stepping holder's, or was there before. */
  lemma EntryAfter(sh: Shared, t: Task, h: Holder, e: Event, c: Class)
    requires HolderEvent(e) && HolderEnabled(sh, h, e) && e.t == t && HolderOk(sh, t, h)
    requires c in sh.cache && sh.cache[c].data.None? && sh.cache[c].writer == Some(t) ==>
               c == h.class_ && MayBePartial(h)
    ensures var after, g := HolderEffect(sh, t, h, e), MoveHolder(sh, h, e);
            c in after.cache && after.cache[c].data.None? ==>
              if after.cache[c].writer == Some(t) then c == h.class_ && MayBePartial(g)
              else c in sh.cache && after.cache[c] == sh.cache[c]
  {
    hide HolderEffect, PlaceOk, ChannelsOk;
    CacheAfter(sh, t, h, e);
  }

  lemma HolderKeepsName(sh: Shared, h: Holder, e: Event)
    requires HolderEvent(e) && HolderEnabled(sh, h, e)
    ensures MoveHolder(sh, h, e).class_ == h.class_ && (h.registered ==> MoveHolder(sh, h, e).registered)
  {
  }

  lemma HolderKeepsCache(s: State, e: Event)
    requires HoldersOk(s) && CacheOk(s) && HolderEvent(e) && Enabled(s, e)
    ensures CacheOk(Apply(s, e))
  {
    hide HolderOk, AwaitsInline, HolderEnabled, MoveHolder, HolderEffect, Apply, Enabled;
    HolderApplies(s, e);
    var t, h, after := e.t, s.holders[e.t], Apply(s, e);
    HolderKeepsName(s.shared, h, e);
    forall c | c in after.shared.cache ensures PartialEntryOk(after, c) {
      if c in s.shared.cache { assert PartialEntryOk(s, c); }
      EntryAfter(s.shared, t, h, e, c);
    }
  }

  /** What a holder's step leaves in the cache was there, or is what the holder stores or completes. */
  lemma WrittenBy(sh: Shared, t: Task, h: Holder, e: Event, c: Class)
    requires HolderEvent(e) && HolderEnabled(sh, h, e) && e.t == t && HolderOk(sh, t, h) && OwnEntryOk(sh, t, h)
    ensures var after, g := HolderEffect(sh, t, h, e), MoveHolder(sh, h, e);
            && (HasBuilt(h) ==> HasBuilt(g))
            && (c in after.cache ==>
                  || (c in sh.cache && after.cache[c] == sh.cache[c])
                  || (c == h.class_ && after.cache[c].writer == Some(t) && (after.cache[c].data.Some? ==> HasBuilt(g)))
                  || (c == h.class_ && h.pc.Updating? && h.pc.existing.Some? && h.pc.existing.value.data.Some?
                      && after.cache[c].writer == h.pc.existing.value.writer && after.cache[c].data.Some?))
            && (g.pc.Updating? && g.pc.existing.Some? ==>
                  h.class_ in sh.cache && g.pc.existing.value == sh.cache[h.class_])
  {
  }

  lemma OwnEntryAfter(sh: Shared, t: Task, h: Holder, e: Event)
    requires HolderEvent(e) && HolderEnabled(sh, h, e) && e.t == t && HolderOk(sh, t, h) && OwnEntryOk(sh, t, h)
    ensures OwnEntryOk(HolderEffect(sh, t, h, e), t, MoveHolder(sh, h, e))
  {
    hide HolderEffect, ChannelsOk;
    CacheAfter(sh, t, h, e);
  }

  lemma OtherEntryAfter(sh: Shared, t: Task, h: Holder, e: Event, u: Task, g: Holder)
    requires HolderEvent(e) && HolderEnabled(sh, h, e) && e.t == t && HolderOk(sh, t, h)
    requires u != t && HolderOk(sh, u, g) && OwnEntryOk(sh, u, g)
    ensures OwnEntryOk(HolderEffect(sh, t, h, e), u, g)
  {
    hide HolderEffect, MoveHolder, ChannelsOk;
    CacheAfter(sh, t, h, e);
  }

  lemma HolderKeepsWriters(s: State, e: Event)
    requires HoldersOk(s) && WritersOk(s) && HolderEvent(e) && Enabled(s, e)
    ensures WritersOk(Apply(s, e))
  {
    hide HolderOk, OwnEntryOk, HasBuilt, HolderEnabled, MoveHolder, HolderEffect, Apply, Enabled;
    HolderApplies(s, e);
    var t, h, after := e.t, s.holders[e.t], Apply(s, e);
    HolderKeepsName(s.shared, h, e);
    OwnEntryAfter(s.shared, t, h, e);
    forall c | c in after.shared.cache ensures CompleteEntryOk(after, c, after.shared.cache[c]) {
      WrittenBy(s.shared, t, h, e, c);
      if c in s.shared.cache { assert CompleteEntryOk(s, c, s.shared.cache[c]); }
      assert UpdateOk(s, h);
    }
    forall u | u in after.holders
      ensures OwnEntryOk(after.shared, u, after.holders[u]) && UpdateOk(after, after.holders[u])
    {
      WrittenBy(s.shared, t, h, e, after.holders[u].class_);
      assert UpdateOk(s, s.holders[u]);
      if u != t { OtherEntryAfter(s.shared, t, h, e, u, s.holders[u]); }
    }
  }

  lemma HolderKeepsWaiters(s: State, e: Event)
    requires WaitersOk(s) && HolderEvent(e) && Enabled(s, e)
    ensures WaitersOk(Apply(s, e))
  {
    hide HolderEnabled, MoveHolder, HolderEffect, Apply, Enabled;
    HolderApplies(s, e);
    var t, h, after := e.t, s.holders[e.t], Apply(s, e);
    HolderKeepsName(s.shared, h, e);
    ChannelsAfter(s.shared, t, h, e);
    forall w | w in s.waiters ensures WaiterOk(after, s.waiters[w]) {
      assert WaiterOk(s, s.waiters[w]);
    }
  }

  /** Holders keep what readers rely on. */
  lemma HolderKeepsPhases(sh: Shared, t: Task, h: Holder, e: Event)
    requires HolderEvent(e) && HolderEnabled(sh, h, e) && e.t == t && HolderOk(sh, t, h) && HasRecorded(h)
    ensures var g := MoveHolder(sh, h, e);
            && !h.pc.Done? && g.kind == h.kind && HasRecorded(g)
            && (h.outcome.HalfDone? || h.outcome.Phase2Built? || h.outcome.Phase2Failed? ==>
                  g.outcome.HalfDone? || g.outcome.Phase2Built? || g.outcome.Phase2Failed?)
  {
  }

  lemma HolderKeepsReaders(s: State, e: Event)
    requires HoldersOk(s) && ReadersOk(s) && HolderEvent(e) && Enabled(s, e)
    ensures ReadersOk(Apply(s, e))
  {
    hide HolderOk, HolderEnabled, MoveHolder, HolderEffect, HasRecorded, Apply, Enabled;
    HolderApplies(s, e);
    var t, h, after := e.t, s.holders[e.t], Apply(s, e);
    assert HolderOk(s.shared, t, h);
    HolderKeepsName(s.shared, h, e);
    if HasRecorded(h) { HolderKeepsPhases(s.shared, t, h, e); }
    forall d | d in s.readers ensures ReaderOk(after, s.readers[d]) {
      assert ReaderOk(s, s.readers[d]);
    }
  }

  lemma SameRetriesKeepClaims(s: State, after: State)
    requires ClaimsOk(s) && after.retries == s.retries && after.active == s.active
    ensures ClaimsOk(after)
  {
  }

  lemma HolderKeeps(s: State, e: Event, maxCompilations: nat)
    requires Inv(s, maxCompilations) && HolderEvent(e) && Enabled(s, e)
    ensures Inv(Apply(s, e), maxCompilations)
  {
    hide HoldersOk, NamesOk, RecordsOk, CacheOk, WritersOk, WaitersOk, ReadersOk, Apply, Enabled, ClaimsOk;
    hide HolderEnabled, MoveHolder, HolderEffect, PermitHolders;
    HolderApplies(s, e);
    HolderKeepsHolders(s, e);
    HolderKeepsNames(s, e);
    HolderKeepsRecords(s, e);
    HolderKeepsCache(s, e);
    HolderKeepsWriters(s, e);
    HolderKeepsWaiters(s, e);
    HolderKeepsReaders(s, e);
    SameRetriesKeepClaims(s, Apply(s, e));
  }

  // ---------------------------------------------------------------- a retry's step

  lemma AllRecordsOk(s: State, t: Task, r: Task)
    requires RecordsOk(s)
    ensures t in s.holders ==> RecordOk(s.shared, t, s.holders[t])
    ensures r in s.retries ==> RetryRecordOk(s.retries[r])
  {
  }

  /** What a retry takes away it takes from those that lose by it. */
  lemma RecordSurvives(s: State, e: Event, t: Task)
    requires RetryEvent(e) && e.r in s.retries && RetryRecordOk(s.retries[e.r])
    requires t in s.holders && RecordOk(s.shared, t, s.holders[t])
    ensures RecordOk(RetryEffect(s.shared, s.retries[e.r], e).(lost := s.shared.lost + LosersOf(s, e)), t, s.holders[t])
  {
  }

  lemma RetryKeepsRecord(s: State, e: Event, t: Task)
    requires RecordsOk(s) && RetryEvent(e) && Enabled(s, e) && t in s.holders
    ensures RecordOk(Apply(s, e).shared, t, s.holders[t])
  {
    hide RecordsOk, Apply, Enabled, RetryEnabled, MoveRetry;
    RetryApplies(s, e);
    assert RecordOk(s.shared, t, s.holders[t]) && RetryRecordOk(s.retries[e.r]) by { AllRecordsOk(s, t, e.r); }
    RecordSurvives(s, e, t);
  }

  lemma RetryKeepsRecords(s: State, e: Event)
    requires RecordsOk(s) && RetryEvent(e) && Enabled(s, e)
    ensures RecordsOk(Apply(s, e))
  {
    hide Apply, Enabled, RecordOk, RetryRecordOk, RetryEffect, RetryEnabled, MoveRetry, LosersOf, HasRecorded;
    RetryApplies(s, e);
    var q, after := s.retries[e.r], Apply(s, e);
    RetryMovesRecordOk(s, q, e);
    LosersHaveRecorded(s, e);
    RetryLeavesLost(s.shared, q, e);
    forall t | t in s.holders ensures RecordOk(after.shared, t, s.holders[t]) {
      RetryKeepsRecord(s, e, t);
    }
    forall r | r in after.retries ensures RetryRecordOk(after.retries[r]) {
      if r != e.r { assert RetryRecordOk(s.retries[r]); }
    }
  }

  lemma RetryMovesRecordOk(s: State, q: Retry, e: Event)
    requires RetryEvent(e) && RetryEnabled(s, q, e)
    ensures RetryRecordOk(q.(pc := MoveRetry(s, q, e)))
  {
  }

  lemma LosersHaveRecorded(s: State, e: Event)
    ensures forall t :: t in LosersOf(s, e) ==> t in s.holders && HasRecorded(s.holders[t])
  {
  }

  /** Nothing about registrations and channels changed. */
  ghost predicate SameRegistrations(sh: Shared, after: Shared) {
    && after.pending == sh.pending && after.phase1 == sh.phase1 && after.lock == sh.lock
    && after.sent1 == sh.sent1 && after.sent2 == sh.sent2
  }

  lemma SameRegistrationsKeep(s: State, after: State)
    requires RegistrationsOk(s) && SameRegistrations(s.shared, after.shared) && after.holders == s.holders
    ensures RegistrationsOk(after)
  {
    forall t | t in s.holders ensures HolderOk(after.shared, t, s.holders[t]) {
      assert HolderOk(s.shared, t, s.holders[t]);
    }
  }

  lemma SameRegistrationsWake(s: State, after: State)
    requires WaitersOk(s) && ReadersOk(s) && SameRegistrations(s.shared, after.shared) && after.holders == s.holders
    requires after.waiters == s.waiters && after.readers == s.readers
    ensures WaitersOk(after) && ReadersOk(after)
  {
    forall w | w in s.waiters ensures WaiterOk(after, s.waiters[w]) {
      assert WaiterOk(s, s.waiters[w]);
    }
    forall d | d in s.readers ensures ReaderOk(after, s.readers[d]) {
      assert ReaderOk(s, s.readers[d]);
    }
  }

  lemma RetryLeavesLost(sh: Shared, q: Retry, e: Event)
    requires RetryEvent(e)
    ensures RetryEffect(sh, q, e).lost == sh.lost
  {
  }

  lemma RetryLeavesRegistrations(sh: Shared, q: Retry, e: Event)
    requires RetryEvent(e)
    ensures SameRegistrations(sh, RetryEffect(sh, q, e))
  {
  }

  lemma RetryKeepsCache(s: State, e: Event)
    requires CacheOk(s) && RecordsOk(s) && RetryEvent(e) && Enabled(s, e)
    ensures CacheOk(Apply(s, e))
  {
    hide Apply, Enabled, RetryEffect, RetryEnabled, MoveRetry, LosersOf, RecordsOk, RetryRecordOk, AwaitsInline;
    RetryApplies(s, e);
    var after := Apply(s, e);
    AllRecordsOk(s, e.r, e.r);
    RetryChangesCache(s.shared, s.retries[e.r], e);
    forall c | c in after.shared.cache ensures PartialEntryOk(after, c) {
      if c in s.shared.cache { assert PartialEntryOk(s, c); }
    }
  }

  lemma RetryKeepsWriters(s: State, e: Event)
    requires WritersOk(s) && RecordsOk(s) && RetryEvent(e) && Enabled(s, e)
    ensures WritersOk(Apply(s, e))
  {
    hide Apply, Enabled, RetryEffect, RetryEnabled, MoveRetry, LosersOf, RecordsOk, RetryRecordOk;
    hide HasBuilt, HasRecorded;
    RetryApplies(s, e);
    var after := Apply(s, e);
    AllRecordsOk(s, e.r, e.r);
    RetryChangesCache(s.shared, s.retries[e.r], e);
    forall c | c in after.shared.cache ensures CompleteEntryOk(after, c, after.shared.cache[c]) {
      if c in s.shared.cache { assert CompleteEntryOk(s, c, s.shared.cache[c]); }
    }
    hide InPending;
    forall t | t in after.holders
      ensures OwnEntryOk(after.shared, t, after.holders[t]) && UpdateOk(after, after.holders[t])
    {
      assert OwnEntryOk(s.shared, t, s.holders[t]) && UpdateOk(s, s.holders[t]);
    }
  }

  /** A retry's step leaves or takes away entries, and writes only one with inline data. */
  lemma RetryChangesCache(sh: Shared, q: Retry, e: Event)
    requires RetryEvent(e) && RetryRecordOk(q)
    ensures var after := RetryEffect(sh, q, e).cache;
            forall c :: c in after ==>
              (c in sh.cache && after[c] == sh.cache[c]) || (after[c].data.Some? && after[c].writer.None?)
  {
  }

  lemma RetryMoves(s: State, q: Retry, e: Event)
    requires RetryEvent(e) && RetryEnabled(s, q, e)
    ensures var p := q.(pc := MoveRetry(s, q, e));
            && (IsActive(p) <==> if e.Activate? then q.class_ !in s.active else !e.Deactivate? && IsActive(q))
            && (HasPermit(p) <==> e.Acquire? || (!e.Release? && HasPermit(q)))
            && (e.Acquire? ==> !HasPermit(q) && s.permits > 0) && (e.Release? ==> HasPermit(q) && !IsActive(q))
            && (e.Deactivate? ==> IsActive(q)) && (e.Activate? ==> !IsActive(q))
  {
  }

  /** One retry claims its class, gives it up, or does neither. */
  lemma ClaimsMove(s: State, after: State, r: Task, p: Retry)
    requires ClaimsOk(s) && r in s.retries && after.retries == s.retries[r := p] && p.class_ == s.retries[r].class_
    requires var was, now := IsActive(s.retries[r]), IsActive(p);
             || (now && !was && p.class_ !in s.active && after.active == s.active + {p.class_})
             || (!now && was && after.active == s.active - {p.class_})
             || (now == was && after.active == s.active)
             || (!now && !was && p.class_ in s.active && after.active == s.active + {p.class_})
    ensures ClaimsOk(after)
  {
    hide IsActive;
  }

  lemma RetryKeepsClaims(s: State, e: Event)
    requires ClaimsOk(s) && RetryEvent(e) && Enabled(s, e)
    ensures ClaimsOk(Apply(s, e))
  {
    hide Apply, Enabled, RetryEffect, MoveRetry, IsActive, RetryEnabled, HasPermit, LosersOf;
    RetryApplies(s, e);
    RetryMoves(s, s.retries[e.r], e);
    hide RetryEvent;
    ClaimsMove(s, Apply(s, e), e.r, Apply(s, e).retries[e.r]);
  }

  lemma PermitHoldersAfter(retries: map<Task, Retry>, r: Task, p: Retry)
    ensures PermitHolders(retries[r := p]) == if HasPermit(p) then PermitHolders(retries) + {r}
            else PermitHolders(retries) - {r}
  {
  }

  lemma IsPermitHolder(retries: map<Task, Retry>, r: Task)
    requires r in retries
    ensures r in PermitHolders(retries) <==> HasPermit(retries[r])
  {
  }

  lemma RetryKeepsPermits(s: State, e: Event)
    requires RetryEvent(e) && Enabled(s, e)
    ensures |PermitHolders(Apply(s, e).retries)| + Apply(s, e).permits == |PermitHolders(s.retries)| + s.permits
  {
    hide Apply, Enabled, RetryEffect, MoveRetry, HasPermit, RetryEnabled, IsActive, LosersOf, PermitHolders;
    RetryApplies(s, e);
    var r, q := e.r, s.retries[e.r];
    RetryMoves(s, q, e);
    var p := Apply(s, e).retries[r];
    IsPermitHolder(s.retries, r);
    PermitHoldersAfter(s.retries, r, p);
    assert Apply(s, e).retries == s.retries[r := p];
  }

  lemma RetryKeeps(s: State, e: Event, maxCompilations: nat)
    requires Inv(s, maxCompilations) && RetryEvent(e) && Enabled(s, e)
    ensures Inv(Apply(s, e), maxCompilations)
  {
    hide RegistrationsOk, RecordsOk, CacheOk, WritersOk, WaitersOk, ReadersOk, ClaimsOk, RetryEffect, MoveRetry;
    hide RetryEnabled, Apply, Enabled, LosersOf, PermitHolders;
    RetryApplies(s, e);
    RetryLeavesRegistrations(s.shared, s.retries[e.r], e);
    SameRegistrationsKeep(s, Apply(s, e));
    SameRegistrationsWake(s, Apply(s, e));
    RetryKeepsRecords(s, e);
    RetryKeepsCache(s, e);
    RetryKeepsWriters(s, e);
    RetryKeepsClaims(s, e);
    RetryKeepsPermits(s, e);
  }

  // ---------------------------------------------------------------- arrivals, waiters, evictions

  lemma OtherKeepsRegistrations(s: State, e: Event)
    requires RegistrationsOk(s) && Enabled(s, e) && !HolderEvent(e) && !RetryEvent(e)
    ensures RegistrationsOk(Apply(s, e))
  {
    hide Apply, Enabled, RegistrationsOk, SameRegistrations, HolderEvent, RetryEvent;
    OthersLeaveRegistrations(s, e);
    var after := Apply(s, e);
    if e.Arrive? {
      NewcomerKeepsRegistrations(s, after, e.t, e.c, e.kind);
    } else {
      SameRegistrationsKeep(s, after);
    }
  }

  lemma OthersLeaveRegistrations(s: State, e: Event)
    requires Enabled(s, e) && !HolderEvent(e) && !RetryEvent(e)
    ensures SameRegistrations(s.shared, Apply(s, e).shared)
    ensures e.Arrive? ==> e.t !in s.holders
                          && Apply(s, e).holders == s.holders[e.t := Holder(e.c, e.kind, false, Starting, Unknown)]
    ensures !e.Arrive? ==> Apply(s, e).holders == s.holders
  {
    hide Apply, Enabled, LosersOf, HolderEvent, RetryEvent;
    OtherApplies(s, e);
  }

  lemma NewcomerIsOk(s: State, after: State, t: Task, c: Class, kind: Kind)
    requires RegistrationsOk(s) && SameRegistrations(s.shared, after.shared) && t !in s.holders
    ensures HolderOk(after.shared, t, Holder(c, kind, false, Starting, Unknown))
  {
    hide HoldersOk, InPhase1, InPending;
    assert NamesOk(s);
  }

  lemma NewcomerKeepsNames(s: State, after: State, t: Task, c: Class, kind: Kind)
    requires NamesOk(s) && SameRegistrations(s.shared, after.shared)
    requires t !in s.holders && after.holders == s.holders[t := Holder(c, kind, false, Starting, Unknown)]
    ensures NamesOk(after)
  {
    hide InPhase1, InPending;
  }

  lemma NewcomerKeepsRegistrations(s: State, after: State, t: Task, c: Class, kind: Kind)
    requires RegistrationsOk(s) && SameRegistrations(s.shared, after.shared)
    requires t !in s.holders && after.holders == s.holders[t := Holder(c, kind, false, Starting, Unknown)]
    ensures RegistrationsOk(after)
  {
    hide Coherent;
    forall u | u in after.holders ensures HolderOk(after.shared, u, after.holders[u]) {
      if u == t {
        NewcomerIsOk(s, after, t, c, kind);
      } else {
        assert HolderOk(s.shared, u, s.holders[u]);
      }
    }
    NewcomerKeepsNames(s, after, t, c, kind);
  }

  lemma OtherKeepsCache(s: State, e: Event)
    requires CacheOk(s) && Enabled(s, e) && !HolderEvent(e) && !RetryEvent(e)
    ensures CacheOk(Apply(s, e))
  {
    hide Apply, Enabled, LosersOf, AwaitsInline, HolderEvent, RetryEvent;
    OtherApplies(s, e);
    var after := Apply(s, e);
    forall c | c in after.shared.cache ensures PartialEntryOk(after, c) {
      assert PartialEntryOk(s, c);
    }
  }

  lemma OtherKeepsWriters(s: State, e: Event)
    requires WritersOk(s) && Enabled(s, e) && !HolderEvent(e) && !RetryEvent(e)
    ensures WritersOk(Apply(s, e))
  {
    hide Apply, Enabled, HasBuilt, InPending, SameRegistrations, HolderEvent, RetryEvent, HasRecorded;
    OtherTakesEntries(s, e);
    OthersLeaveRegistrations(s, e);
    var after := Apply(s, e);
    forall c | c in after.shared.cache ensures CompleteEntryOk(after, c, after.shared.cache[c]) {
      assert CompleteEntryOk(s, c, s.shared.cache[c]);
    }
    forall t | t in after.holders
      ensures OwnEntryOk(after.shared, t, after.holders[t]) && UpdateOk(after, after.holders[t])
    {
      if t in s.holders { assert OwnEntryOk(s.shared, t, s.holders[t]) && UpdateOk(s, s.holders[t]); }
    }
  }

  lemma OtherTakesEntries(s: State, e: Event)
    requires Enabled(s, e) && !HolderEvent(e) && !RetryEvent(e)
    ensures forall c :: c in Apply(s, e).shared.cache ==>
              c in s.shared.cache && Apply(s, e).shared.cache[c] == s.shared.cache[c]
  {
    hide Apply, Enabled, LosersOf, HolderEvent, RetryEvent;
    OtherApplies(s, e);
  }

  lemma OtherKeepsRecord(s: State, e: Event, u: Task)
    requires RecordsOk(s) && Enabled(s, e) && !HolderEvent(e) && !RetryEvent(e) && u in Apply(s, e).holders
    ensures RecordOk(Apply(s, e).shared, u, Apply(s, e).holders[u])
  {
    hide Apply, Enabled, HolderEvent, RetryEvent, RecordsOk;
    OtherApplies(s, e);
    var after := Apply(s, e);
    if u in s.holders {
      AllRecordsOk(s, u, u);
      assert e.Evict? || e.ExpireFailure? ==> after.shared.lost == s.shared.lost + LosersOf(s, e);
    }
  }

  lemma QueuedIsOk(s: State, e: Event)
    ensures e.Enqueue? ==> RetryRecordOk(Retry(e.rc, Queued))
  {
  }

  lemma OtherKeepsRecords(s: State, e: Event)
    requires RecordsOk(s) && Enabled(s, e) && !HolderEvent(e) && !RetryEvent(e)
    ensures RecordsOk(Apply(s, e))
  {
    hide Apply, Enabled, HolderEvent, RetryEvent, RecordOk, LosersOf, HasRecorded, RetryRecordOk;
    OtherApplies(s, e);
    LosersHaveRecorded(s, e);
    var after := Apply(s, e);
    forall u | u in after.holders ensures RecordOk(after.shared, u, after.holders[u]) {
      OtherKeepsRecord(s, e, u);
    }
    forall r | r in after.retries ensures RetryRecordOk(after.retries[r]) {
      if r in s.retries { assert RetryRecordOk(s.retries[r]); }
      QueuedIsOk(s, e);
    }
  }

  lemma RegisteredIsOwned(s: State, phase: Phase, c: Class)
    requires NamesOk(s)
    ensures c in Registered(s.shared, phase) ==> Owns(s, c, Registered(s.shared, phase)[c])
  {
    hide InPhase1, InPending;
  }

  lemma OtherKeepsWaiters(s: State, e: Event)
    requires WaitersOk(s) && NamesOk(s) && Enabled(s, e) && !HolderEvent(e) && !RetryEvent(e)
    ensures WaitersOk(Apply(s, e))
  {
    hide Apply, Enabled, HolderEvent, RetryEvent, NamesOk, Registered;
    OthersLeaveRegistrations(s, e);
    var after := Apply(s, e);
    forall w | w in after.waiters ensures WaiterOk(after, after.waiters[w]) {
      WaitersAfter(s, e, w);
      RegisteredIsOwned(s, after.waiters[w].phase, after.waiters[w].class_);
      if w in s.waiters { assert WaiterOk(s, s.waiters[w]); }
    }
  }

  /** The first look finds an entry of a two-phase compilation; the second, when nothing is pending, finds it over. */
  lemma LooksAreOk(s: State, c: Class)
    requires HoldersOk(s) && CacheOk(s)
    ensures c in s.shared.cache && s.shared.cache[c].data.None? ==>
              s.shared.cache[c].writer.Some? && WritesInTwoPhases(s, c, s.shared.cache[c].writer.value)
    ensures c !in s.shared.pending ==>
              forall t :: WritesInTwoPhases(s, c, t) ==> s.holders[t].pc.Done?
  {
    if c in s.shared.cache && s.shared.cache[c].data.None? {
      assert PartialEntryOk(s, c);
      var writer := s.shared.cache[c].writer.value;
      assert HolderOk(s.shared, writer, s.holders[writer]);
    }
    forall t | c !in s.shared.pending && WritesInTwoPhases(s, c, t) ensures s.holders[t].pc.Done? {
      assert HolderOk(s.shared, t, s.holders[t]);
    }
  }

  lemma OtherKeepsReaders(s: State, e: Event)
    requires ReadersOk(s) && HoldersOk(s) && CacheOk(s) && Enabled(s, e) && !HolderEvent(e) && !RetryEvent(e)
    ensures ReadersOk(Apply(s, e))
  {
    hide Apply, Enabled, HolderEvent, RetryEvent, HoldersOk, CacheOk, HasRecorded;
    OthersLeaveRegistrations(s, e);
    var after := Apply(s, e);
    forall d | d in after.readers ensures ReaderOk(after, after.readers[d]) {
      ReadersAfter(s, e, d);
      LooksAreOk(s, after.readers[d].class_);
      if d in s.readers { assert ReaderOk(s, s.readers[d]); }
    }
  }

  lemma OtherKeepsRetries(s: State, e: Event, maxCompilations: nat)
    requires RetriesOk(s, maxCompilations) && Enabled(s, e) && !HolderEvent(e) && !RetryEvent(e)
    ensures RetriesOk(Apply(s, e), maxCompilations)
  {
    hide Apply, HolderEvent, RetryEvent, LosersOf;
    OtherApplies(s, e);
    assert e.Enqueue? ==> e.r !in s.retries;
    hide Enabled;
    assert PermitHolders(Apply(s, e).retries) == PermitHolders(s.retries);
  }

  lemma OtherKeeps(s: State, e: Event, maxCompilations: nat)
    requires Inv(s, maxCompilations) && Enabled(s, e) && !HolderEvent(e) && !RetryEvent(e)
    ensures Inv(Apply(s, e), maxCompilations)
  {
    hide HoldersOk, NamesOk, RecordsOk, CacheOk, WritersOk, WaitersOk, ReadersOk, HolderEvent, RetryEvent;
    hide Apply, Enabled, LosersOf, ClaimsOk, PermitHolders;
    OtherKeepsRegistrations(s, e);
    OtherKeepsRecords(s, e);
    OtherKeepsCache(s, e);
    OtherKeepsWriters(s, e);
    OtherKeepsWaiters(s, e);
    OtherKeepsReaders(s, e);
    OtherKeepsRetries(s, e, maxCompilations);
  }

  lemma OneKeeps(s: State, e: Event, maxCompilations: nat)
    requires Inv(s, maxCompilations) && Enabled(s, e)
    ensures Inv(Apply(s, e), maxCompilations)
  {
    hide Inv, Enabled, Apply, HolderEvent, RetryEvent;
    if HolderEvent(e) {
      HolderKeeps(s, e, maxCompilations);
    } else if RetryEvent(e) {
      RetryKeeps(s, e, maxCompilations);
    } else {
      OtherKeeps(s, e, maxCompilations);
    }
  }

  lemma {:induction false} RunKeeps(s: State, events: seq<Event>, maxCompilations: nat)
    requires Inv(s, maxCompilations) && Possible(s, events)
    ensures Inv(After(s, events), maxCompilations)
    decreases |events|
  {
    hide Inv, Enabled, Apply;
    if events != [] {
      OneKeeps(s, events[0], maxCompilations);
      RunKeeps(Apply(s, events[0]), events[1..], maxCompilations);
    }
  }

  /** A holder changes in its own steps only. */
  lemma OnlyOwnSteps(s: State, e: Event, t: Task)
    requires Enabled(s, e)
    ensures HolderEvent(e) && e.t == t ==>
              t in s.holders && HolderEnabled(s.shared, s.holders[t], e)
              && t in Apply(s, e).holders && Apply(s, e).holders[t] == MoveHolder(s.shared, s.holders[t], e)
    ensures !(HolderEvent(e) && e.t == t) && t in s.holders ==>
              t in Apply(s, e).holders && Apply(s, e).holders[t] == s.holders[t]
    ensures !(HolderEvent(e) && e.t == t) && t !in s.holders && t in Apply(s, e).holders ==>
              Apply(s, e).holders[t].outcome.Unknown?
  {
    hide Apply, Enabled, HolderEffect, HolderEnabled, MoveHolder, RetryEffect, RetryEnabled, MoveRetry, LosersOf;
    if HolderEvent(e) {
      HolderApplies(s, e);
    } else if RetryEvent(e) {
      RetryApplies(s, e);
    } else {
      OthersLeaveRegistrations(s, e);
    }
  }

  // ---------------------------------------------------------------- main results

  /** A holder that is registered and has not removed its last registration. */
  predicate Live(h: Holder) {
    h.registered && (HasLock(h.pc) || InPending(h.pc))
  }

  lemma ExclusiveIfOk(s: State)
    requires RegistrationsOk(s)
    ensures forall t, u :: t in s.holders && u in s.holders && t != u && Live(s.holders[t]) && Live(s.holders[u]) ==>
              s.holders[t].class_ != s.holders[u].class_
    ensures forall c :: c in s.shared.phase1 ==>
              if c in s.shared.pending then s.shared.pending[c] == s.shared.phase1[c]
              else s.shared.lock == Some(s.shared.phase1[c])
    ensures forall t :: t in s.holders && s.holders[t].pc.Removing1? ==>
              var c := s.holders[t].class_; c in s.shared.phase1 && s.shared.phase1[c] == t
    ensures forall t :: t in s.holders && s.holders[t].pc.Removing2? ==>
              var c := s.holders[t].class_; c in s.shared.pending && s.shared.pending[c] == t
  {
    hide ChannelsOk;
    forall t | t in s.holders ensures HolderOk(s.shared, t, s.holders[t]) {
    }
  }

  /**
   For every run: a class has at most one live pair of notifiers; a class in `phase1` is in `pending`, with the
   same holder, unless its `start_compilation` has the lock; and what a holder removes is its own registration.
   */
  lemma RegistrationsAreExclusive(maxCompilations: nat, events: seq<Event>)
    requires Possible(Init(maxCompilations), events)
    ensures var s := After(Init(maxCompilations), events);
            && (forall t, u ::
                  t in s.holders && u in s.holders && t != u && Live(s.holders[t]) && Live(s.holders[u]) ==>
                    s.holders[t].class_ != s.holders[u].class_)
            && (forall c :: c in s.shared.phase1 ==>
                  if c in s.shared.pending then s.shared.pending[c] == s.shared.phase1[c]
                  else s.shared.lock == Some(s.shared.phase1[c]))
            && (forall t :: t in s.holders && s.holders[t].pc.Removing1? ==>
                  var c := s.holders[t].class_; c in s.shared.phase1 && s.shared.phase1[c] == t)
            && (forall t :: t in s.holders && s.holders[t].pc.Removing2? ==>
                  var c := s.holders[t].class_; c in s.shared.pending && s.shared.pending[c] == t)
  {
    hide After, Possible, RecordsOk, CacheOk, WritersOk, WaitersOk, ReadersOk, RetriesOk, RegistrationsOk;
    InitHolds(maxCompilations);
    RunKeeps(Init(maxCompilations), events, maxCompilations);
    ExclusiveIfOk(After(Init(maxCompilations), events));
  }

  lemma InitHolds(maxCompilations: nat)
    ensures Inv(Init(maxCompilations), maxCompilations)
  {
    assert PermitHolders(Init(maxCompilations).retries) == {};
  }

  lemma WokenIsRecorded(s: State, w: Task)
    requires HoldersOk(s) && RecordsOk(s) && WaitersOk(s)
    ensures w in s.waiters && s.waiters[w].pc.Returned? && s.waiters[w].pc.woken.Some? ==>
              Recorded(s.shared, s.waiters[w].class_) || s.waiters[w].pc.woken.value in s.shared.lost
  {
    if w in s.waiters && s.waiters[w].pc.Returned? && s.waiters[w].pc.woken.Some? {
      assert WaiterOk(s, s.waiters[w]);
      var t := s.waiters[w].pc.woken.value;
      assert HolderOk(s.shared, t, s.holders[t]) && RecordOk(s.shared, t, s.holders[t]);
    }
  }

  /** Woken waiters: the class is cached or marked failed, unless it lost an entry after the holder recorded it. */
  lemma WokenMeansRecorded(maxCompilations: nat, events: seq<Event>, w: Task)
    requires Possible(Init(maxCompilations), events)
    ensures var s := After(Init(maxCompilations), events);
            w in s.waiters && s.waiters[w].pc.Returned? && s.waiters[w].pc.woken.Some? ==>
              Recorded(s.shared, s.waiters[w].class_) || s.waiters[w].pc.woken.value in s.shared.lost
  {
    hide After, Possible, HoldersOk, RecordsOk, CacheOk, WritersOk, WaitersOk, RetriesOk, NamesOk, ReadersOk, Recorded;
    InitHolds(maxCompilations);
    RunKeeps(Init(maxCompilations), events, maxCompilations);
    WokenIsRecorded(After(Init(maxCompilations), events), w);
  }

  /** A pending task that has signalled success: its class has inline data, unless it lost an entry after that. */
  lemma SuccessIsReadable(maxCompilations: nat, events: seq<Event>, t: Task)
    requires Possible(Init(maxCompilations), events)
    ensures var s := After(Init(maxCompilations), events);
            t in s.holders && s.holders[t].pc.Removing2?
              && (s.holders[t].outcome.Complete? || s.holders[t].outcome.Phase2Built?) ==>
              t in s.shared.sent2 && (HasData(s.shared, s.holders[t].class_) || t in s.shared.lost)
  {
    InitHolds(maxCompilations);
    RunKeeps(Init(maxCompilations), events, maxCompilations);
    var s := After(Init(maxCompilations), events);
    hide After, Possible, CacheOk, WaitersOk, ReadersOk, RetriesOk, NamesOk;
    if t in s.holders {
      assert HolderOk(s.shared, t, s.holders[t]) && RecordOk(s.shared, t, s.holders[t]);
    }
  }

  /** A class cached without inline data and not pending: the phase 2 of the task that cached it failed. */
  lemma PartialMeansPhase2Failed(maxCompilations: nat, events: seq<Event>, c: Class)
    requires Possible(Init(maxCompilations), events)
    ensures var s := After(Init(maxCompilations), events);
            c in s.shared.cache && s.shared.cache[c].data.None? && c !in s.shared.pending ==>
              s.shared.cache[c].writer.Some?
              && var writer := s.shared.cache[c].writer.value;
                 Owns(s, c, writer) && s.holders[writer].kind.Spawned? && s.holders[writer].outcome.Phase2Failed?
  {
    InitHolds(maxCompilations);
    RunKeeps(Init(maxCompilations), events, maxCompilations);
    var s := After(Init(maxCompilations), events);
    hide After, Possible, RecordsOk, WaitersOk, RetriesOk, NamesOk;
    if c in s.shared.cache && s.shared.cache[c].data.None? && c !in s.shared.pending {
      assert PartialEntryOk(s, c);
      var writer := s.shared.cache[c].writer.value;
      assert HolderOk(s.shared, writer, s.holders[writer]);
    }
  }

  /** At most one retry of a class is in flight, and no more retries build than there are permits. */
  lemma RetriesAreBounded(maxCompilations: nat, events: seq<Event>)
    requires Possible(Init(maxCompilations), events)
    ensures var s := After(Init(maxCompilations), events);
            && ClaimsOk(s) && |PermitHolders(s.retries)| <= maxCompilations
            && (forall c :: (exists r :: r in s.retries && IsActive(s.retries[r]) && s.retries[r].class_ == c) ==>
                c in s.active)
  {
    InitHolds(maxCompilations);
    RunKeeps(Init(maxCompilations), events, maxCompilations);
    hide After, Possible, RegistrationsOk, RecordsOk, CacheOk, WaitersOk;
  }

  // ---------------------------------------------------------------- when a loss shows

  /** Some event of the run takes away what task `t` had recorded. */
  ghost predicate LosesResult(s: State, events: seq<Event>, t: Task)
    requires Possible(s, events)
    decreases |events|
  {
    events != [] && (t in LosersOf(s, events[0]) || LosesResult(Apply(s, events[0]), events[1..], t))
  }

  lemma {:induction false} LostMeansLoss(s: State, events: seq<Event>, t: Task)
    requires Possible(s, events)
    ensures t in After(s, events).shared.lost <==> t in s.shared.lost || LosesResult(s, events, t)
    decreases |events|
  {
    if events != [] {
      LossOfOne(s, events[0], t);
      hide Apply, Enabled, LosersOf;
      LostMeansLoss(Apply(s, events[0]), events[1..], t);
    }
  }

  lemma LossOfOne(s: State, e: Event, t: Task)
    requires Enabled(s, e)
    ensures t in Apply(s, e).shared.lost <==> t in s.shared.lost || t in LosersOf(s, e)
  {
    hide Apply, Enabled, LosersOf, HolderEvent, RetryEvent;
    if HolderEvent(e) {
      HolderLoses(s, e, t);
    } else if RetryEvent(e) {
      RetryLoses(s, e, t);
    } else {
      OtherLoses(s, e, t);
    }
  }

  lemma NobodyLoses(s: State, e: Event)
    requires !RetryEvent(e) && !e.Evict? && !e.ExpireFailure?
    ensures LosersOf(s, e) == {}
  {
    hide HasRecorded;
  }

  lemma HolderLoses(s: State, e: Event, t: Task)
    requires Enabled(s, e) && HolderEvent(e)
    ensures t in Apply(s, e).shared.lost <==> t in s.shared.lost || t in LosersOf(s, e)
  {
    hide Apply, Enabled, HolderEffect, MoveHolder, HolderEnabled, LosersOf;
    HolderApplies(s, e);
    HolderEffects(s.shared, e.t, s.holders[e.t], e);
    EventsDiffer(e);
    NobodyLoses(s, e);
  }

  lemma RetryLoses(s: State, e: Event, t: Task)
    requires Enabled(s, e) && RetryEvent(e)
    ensures t in Apply(s, e).shared.lost <==> t in s.shared.lost || t in LosersOf(s, e)
  {
    hide Apply, Enabled, RetryEffect, MoveRetry, RetryEnabled, LosersOf;
    RetryApplies(s, e);
  }

  lemma OtherLoses(s: State, e: Event, t: Task)
    requires Enabled(s, e) && !HolderEvent(e) && !RetryEvent(e)
    ensures t in Apply(s, e).shared.lost <==> t in s.shared.lost || t in LosersOf(s, e)
  {
    hide Apply, Enabled, LosersOf, HolderEvent, RetryEvent;
    OtherApplies(s, e);
    if !e.Evict? && !e.ExpireFailure? { NobodyLoses(s, e); }
  }

  /** The event writes an entry of the class, or marks it failed. */
  predicate Records(s: State, e: Event, c: Class) {
    match e
    case Store(t) => t in s.holders && s.holders[t].class_ == c
    case MarkFailed(t) => t in s.holders && s.holders[t].class_ == c
    case Update(t) =>
      t in s.holders && s.holders[t].class_ == c && s.holders[t].pc.Updating? && s.holders[t].pc.existing.Some?
    case RetryStore(r) => r in s.retries && s.retries[r].class_ == c
    case RetryMark(r) => r in s.retries && s.retries[r].class_ == c
    case _ => false
  }

  ghost predicate NothingRecords(s: State, events: seq<Event>, c: Class)
    requires Possible(s, events)
    decreases |events|
  {
    events == [] || (!Records(s, events[0], c) && NothingRecords(Apply(s, events[0]), events[1..], c))
  }

  /** An event takes away the last record of the class, and no later one records it again. */
  ghost predicate LostForGood(s: State, events: seq<Event>, c: Class)
    requires Possible(s, events)
    decreases |events|
  {
    events != []
    && var after := Apply(s, events[0]);
       || LostForGood(after, events[1..], c)
       || (IsLoss(s, events[0], c) && !Recorded(after.shared, c) && NothingRecords(after, events[1..], c))
  }

  /** What one event does to whether class `c` is recorded. */
  ghost predicate ChangesBy(s: State, e: Event, c: Class)
    requires Enabled(s, e)
  {
    var before, after := Recorded(s.shared, c), Recorded(Apply(s, e).shared, c);
    && (Records(s, e, c) ==> after && !IsLoss(s, e, c)) && (!before && after ==> Records(s, e, c))
    && (before && !after ==> IsLoss(s, e, c)) && (IsLoss(s, e, c) ==> before)
  }

  lemma IsAtUpdate(sh: Shared, h: Holder, e: Event)
    requires HolderEvent(e) && HolderEnabled(sh, h, e)
    ensures e.Update? ==> h.pc.Updating?
  {
  }

  lemma HolderChanges(s: State, e: Event, c: Class)
    requires Enabled(s, e) && HolderEvent(e)
    ensures ChangesBy(s, e, c)
  {
    hide Apply, Enabled, MoveHolder, HolderEffect, HolderEnabled;
    HolderApplies(s, e);
    HolderEffects(s.shared, e.t, s.holders[e.t], e);
    CacheAfter(s.shared, e.t, s.holders[e.t], e);
    IsAtUpdate(s.shared, s.holders[e.t], e);
  }

  lemma RetryChanges(s: State, e: Event, c: Class)
    requires Enabled(s, e) && RetryEvent(e)
    ensures ChangesBy(s, e, c)
  {
    hide Apply, Enabled, LosersOf, MoveRetry;
    RetryApplies(s, e);
  }

  lemma OtherChanges(s: State, e: Event, c: Class)
    requires Enabled(s, e) && !HolderEvent(e) && !RetryEvent(e)
    ensures ChangesBy(s, e, c)
  {
    hide Apply, Enabled, LosersOf;
    OtherApplies(s, e);
  }

  lemma {:induction false} UnrecordedAfter(s: State, events: seq<Event>, c: Class)
    requires Possible(s, events)
    ensures !Recorded(After(s, events).shared, c)
            <==> LostForGood(s, events, c) || (!Recorded(s.shared, c) && NothingRecords(s, events, c))
    decreases |events|
  {
    if events != [] {
      if HolderEvent(events[0]) {
        HolderChanges(s, events[0], c);
      } else if RetryEvent(events[0]) {
        RetryChanges(s, events[0], c);
      } else {
        OtherChanges(s, events[0], c);
      }
      hide Apply, Enabled, Records, IsLoss, Recorded;
      UnrecordedAfter(Apply(s, events[0]), events[1..], c);
    }
  }

  /** A class that is recorded is not any more if and only if it was lost for good. */
  lemma LossShows(s: State, events: seq<Event>, c: Class)
    requires Possible(s, events) && Recorded(s.shared, c)
    ensures !Recorded(After(s, events).shared, c) <==> LostForGood(s, events, c)
  {
    UnrecordedAfter(s, events, c);
  }

  /**
   When a wake-up is for nothing: the woken waiter's holder had recorded a result after the first part of the run, and
   had not lost it. At the end the class is neither cached nor marked failed if and only if the second part loses its
   last record for good.
   */
  lemma WokenForNothingIff(maxCompilations: nat, events: seq<Event>, more: seq<Event>, w: Task)
    requires Possible(Init(maxCompilations), events) && Possible(After(Init(maxCompilations), events), more)
    requires var s := After(After(Init(maxCompilations), events), more);
             w in s.waiters && s.waiters[w].pc.Returned? && s.waiters[w].pc.woken.Some?
    ensures var mid := After(Init(maxCompilations), events);
            var s := After(mid, more);
            var c, t := s.waiters[w].class_, s.waiters[w].pc.woken.value;
            t in mid.holders && mid.holders[t].class_ == c && HasRecorded(mid.holders[t]) && t !in mid.shared.lost ==>
              && Recorded(mid.shared, c)
              && (!Recorded(s.shared, c) <==> LostForGood(mid, more, c))
  {
    InitHolds(maxCompilations);
    RunKeeps(Init(maxCompilations), events, maxCompilations);
    var mid := After(Init(maxCompilations), events);
    var s := After(mid, more);
    var c, t := s.waiters[w].class_, s.waiters[w].pc.woken.value;
    hide After, Possible, Init, RegistrationsOk, CacheOk, RetriesOk, ReadersOk, WaitersOk;
    if t in mid.holders && mid.holders[t].class_ == c && HasRecorded(mid.holders[t]) && t !in mid.shared.lost {
      assert RecordOk(mid.shared, t, mid.holders[t]);
      hide Recorded, LostForGood;
      LossShows(mid, more, c);
    }
  }
}
