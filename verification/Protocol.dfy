/**
 The main results about the Drive's protocol: what readers, followers and rebuilt indexers see, in
 every run with any interleaving and any failures, against the simple specification that the state
 of a file is its last state event in the journal.
 */
module Protocol {
  import opened Wrappers
  import opened Journal
  import opened States
  import opened FoldFacts
  import opened Machine
  import opened ChainSafety
  import opened FoldSafety
  import opened FollowerSafety
  import opened ReaderSafety

  ghost predicate Inv(s: Sys) {
    Steady(s) && Safe(s) && FollowerOk(s.log, s.published, s.follower) && ReadSafe(s)
  }

  lemma InitIsSafe(s: Sys)
    requires Init(s)
    ensures Inv(s)
  {
    EmptyCovers(s.log, map[]);
  }

  lemma StepKeeps(s: Sys, step: Step)
    requires Inv(s) && Enabled(s, step) && Careful(s, step)
    ensures Inv(Apply(s, step))
  {
    StepIsSteady(s, step);
    StepIsSafe(s, step);
    StepKeepsFollower(s, step);
    StepIsReadSafe(s, step);
  }

  lemma {:induction false} RunKeeps(s: Sys, steps: seq<Step>, end: Sys)
    requires Inv(s) && RunsCarefully(s, steps, end)
    ensures Inv(end)
    decreases |steps|
  {
    if steps != [] {
      StepKeeps(s, steps[0]);
      RunKeeps(Apply(s, steps[0]), steps[1..], end);
    }
  }

  /** States that some careful run reaches. */
  ghost predicate Reachable(s: Sys) {
    exists init, steps :: Init(init) && RunsCarefully(init, steps, s)
  }

  lemma ReachableIsSafe(s: Sys)
    requires Reachable(s)
    ensures Inv(s)
  {
    var init, steps :| Init(init) && RunsCarefully(init, steps, s);
    InitIsSafe(init);
    RunKeeps(init, steps, s);
  }

  // ---------------------------------------------------------------- readers

  lemma LocalCacheReaches(s: Sys)
    requires Safe(s) && Up(s.ix.pc)
    ensures Sound(s.log, s.ix.cache) && Covers(s.log, s.ix.lastKey, s.ix.cache) && Covers(s.log, s.ix.lastKey, s.metas)
  {
    UpIsLive(s.log, s.metas, s.published, s.disk, s.opstamp, s.ix);
  }

  lemma ReadCacheReaches(s: Sys)
    requires Safe(s) && FollowerOk(s.log, s.published, s.follower) && ReadSafe(s) && !Quiet(s)
    ensures Sound(s.log, ReadCache(s)) && Covers(s.log, Base(s), ReadCache(s))
  {
    if s.source == Local {
      LocalCacheReaches(s);
    }
  }

  /** What a reader holds: a tail of a past journal, and a cache that reaches the start of the tail. */
  ghost predicate Holds(past: Log, log: Log, tail: Tail, cache: Files) {
    && LogOk(log) && Later(past, log, tail.since) && tail.states == Overlay(past, tail.since)
    && Sound(log, cache) && Covers(log, tail.since, cache)
  }

  lemma ReaderHolds(s: Sys, r: nat)
    requires Reachable(s) && r in s.readers && s.readers[r].Looking?
    ensures s.readers[r].tail.at < |s.times|
      && Holds(s.times[s.readers[r].tail.at], s.log, s.readers[r].tail, ReadCache(s))
    ensures TimesOk(s.log, s.times)
  {
    ReachableIsSafe(s);
    ReadCacheReaches(s);
    var tail := s.readers[r].tail;
    assert ReaderOk(s.log, s.times, s.listed, Base(s), s.readers[r]);
    CoversLess(s.log, Base(s), tail.since, ReadCache(s));
  }

  lemma HeldIsState(past: Log, log: Log, tail: Tail, cache: Files, f: FileId)
    requires Holds(past, log, tail, cache) && Patched(tail.states, cache, f).Some?
    ensures var got := Patched(tail.states, cache, f).value;
            && IsState(log, got.lastEvent, f)
            && log[got.lastEvent].file == got
  {
    OverlayHas(past, tail.since, f);
    NewestAfterIs(past, f, tail.since);
  }

  lemma HeldIsNotStale(past: Log, log: Log, tail: Tail, cache: Files, f: FileId, k: Key)
    requires Holds(past, log, tail, cache) && IsState(past, k, f)
    ensures Patched(tail.states, cache, f).Some? && k <= Patched(tail.states, cache, f).value.lastEvent
  {
    OverlayHas(past, tail.since, f);
    NewestAfterIs(past, f, tail.since);
    assert LogOk(past) && IsState(log, k, f);
    assert CoversFile(log, tail.since, cache, f);
  }

  /**
   A read is never older than the journal was when the tail was listed, and "unknown" means that the
   journal had no state of the file then. This needs nothing about the order of appends.
   */
  lemma ReadIsNotStale(s: Sys, r: nat, f: FileId, k: Key)
    requires Reachable(s) && r in s.readers && s.readers[r].Looking?
    requires s.readers[r].tail.at < |s.times| && IsState(s.times[s.readers[r].tail.at], k, f)
    ensures Resolve(s, r, f).Some? && k <= Resolve(s, r, f).value.lastEvent
    ensures var e := Resolve(s, r, f).value.lastEvent; IsState(s.log, e, f) && s.log[e].file == Resolve(s, r, f).value
  {
    ReaderHolds(s, r);
    HeldIsNotStale(s.times[s.readers[r].tail.at], s.log, s.readers[r].tail, ReadCache(s), f, k);
    HeldIsState(s.times[s.readers[r].tail.at], s.log, s.readers[r].tail, ReadCache(s), f);
  }

  /** Event k arrives at instant i. */
  ghost predicate Arrives(times: seq<Log>, i: nat, k: Key) {
    0 < i < |times| && k in times[i] && k !in times[i - 1]
  }

  ghost predicate NewestAt(log: Log, k: Key) {
    k in log && log[k].StateEvent? && forall j: Key :: IsState(log, j, log[k].file.id) ==> j <= k
  }

  /** Every event of f that arrives after the instant `from` is the newest of f when it arrives. */
  ghost predicate InOrder(times: seq<Log>, from: nat, f: FileId) {
    forall i: nat, k: Key :: from < i && Arrives(times, i, k) && IsState(times[i], k, f) ==> NewestAt(times[i], k)
  }

  /** A reader with this tail and cache gets for f what was the newest state at some instant of its read. */
  ghost predicate ReadsNewest(times: seq<Log>, tail: Tail, cache: Files, f: FileId) {
    exists i: nat :: tail.at <= i < |times| && Patched(tail.states, cache, f) == Newest(times[i], f)
  }

  /** The instant after `from` at which a key arrived. */
  lemma {:induction false} Arrival(times: seq<Log>, from: nat, k: Key) returns (i: nat)
    requires from < |times| && k !in times[from] && k in times[|times| - 1]
    ensures from < i && Arrives(times, i, k)
    decreases |times| - from
  {
    if k in times[from + 1] {
      i := from + 1;
    } else {
      i := Arrival(times, from + 1, k);
    }
  }

  /**
   Over every cache that reaches the start of the tail, a read of f is the newest state at some instant
   between the listing of the tail and the look into the cache if and only if the tail has f, or the
   events of f that arrived in between arrived in order.
   */
  lemma HeldReadsAreNewestIff(times: seq<Log>, log: Log, tail: Tail, cache: Files, f: FileId)
    requires TimesOk(log, times) && tail.at < |times| && Holds(times[tail.at], log, tail, cache)
    ensures (forall c: Files :: Holds(times[tail.at], log, tail, c) ==> ReadsNewest(times, tail, c, f))
            <==> f in tail.states || InOrder(times, tail.at, f)
  {
    if f in tail.states || InOrder(times, tail.at, f) {
      forall c: Files | Holds(times[tail.at], log, tail, c) ensures ReadsNewest(times, tail, c, f) {
        HeldIsNewest(times, log, tail, c, f);
      }
    } else {
      var i: nat, k: Key :| tail.at < i && Arrives(times, i, k) && IsState(times[i], k, f) && !NewestAt(times[i], k);
      LateIsNeverNewest(times, log, tail, cache, f, i, k);
    }
  }

  lemma HeldIsNewest(times: seq<Log>, log: Log, tail: Tail, cache: Files, f: FileId)
    requires TimesOk(log, times) && tail.at < |times| && Holds(times[tail.at], log, tail, cache)
    requires f in tail.states || InOrder(times, tail.at, f)
    ensures ReadsNewest(times, tail, cache, f)
  {
    var past, got := times[tail.at], Patched(tail.states, cache, f);
    NewestAfterIs(past, f, 0);
    if got.None? {
      forall k: Key | IsState(past, k, f) ensures false {
        HeldIsNotStale(past, log, tail, cache, f, k);
      }
    } else {
      var e := got.value.lastEvent;
      HeldIsState(past, log, tail, cache, f);
      if e in past {
        forall k: Key | IsState(past, k, f) ensures k <= e {
          HeldIsNotStale(past, log, tail, cache, f, k);
        }
        NewestIs(past, e, f, 0);
      } else {
        TailIsPast(past, log, tail, f);
        var i := Arrival(times, tail.at, e);
        assert Extends(times[i], log) && IsState(times[i], e, f);
        NewestIs(times[i], e, f, 0);
      }
    }
  }

  /** The states of the tail are events of the journal it was listed from. */
  lemma TailIsPast(past: Log, log: Log, tail: Tail, f: FileId)
    requires LogOk(log) && Extends(past, log) && tail.states == Overlay(past, tail.since)
    ensures f in tail.states ==> tail.states[f].lastEvent in past
  {
    OverlayHas(past, tail.since, f);
    NewestAfterIs(past, f, tail.since);
    assert LogOk(past);
  }

  /** A cache may hold an event that arrived late, and then the read was the newest at no instant. */
  lemma LateIsNeverNewest(times: seq<Log>, log: Log, tail: Tail, cache: Files, f: FileId, i: nat, k: Key)
    requires TimesOk(log, times) && tail.at < |times| && Holds(times[tail.at], log, tail, cache) && f !in tail.states
    requires tail.at < i && Arrives(times, i, k) && IsState(times[i], k, f) && !NewestAt(times[i], k)
    ensures var late := cache[f := times[i][k].file];
            Holds(times[tail.at], log, tail, late) && !ReadsNewest(times, tail, late, f)
  {
    var late := cache[f := times[i][k].file];
    assert Extends(times[i], log) && Extends(times[tail.at], times[i - 1]);
    assert IsState(log, k, f) && tail.since < k;
    forall g ensures CoversFile(log, tail.since, late, g) {
      assert CoversFile(log, tail.since, cache, g);
    }
    var later: Key :| IsState(times[i], later, f) && k < later;
    forall t: nat | tail.at <= t < |times| ensures Patched(tail.states, late, f) != Newest(times[t], f) {
      assert Extends(times[t], log);
      assert LogOk(times[t]);
      NewestAfterIs(times[t], f, 0);
      if t < i {
        assert Extends(times[t], times[i - 1]);
      } else {
        assert Extends(times[i], times[t]);
        assert IsState(times[t], later, f);
      }
    }
  }

  /**
   In every careful run a read returns what the newest state was at some instant between the listing of
   the tail and the look into the cache, and "unknown" only if there was none, if the tail has the file or
   its events in between arrived in order. Events of other files and of other times do not matter.
   */
  lemma ReadIsNewestAtSomeInstant(s: Sys, r: nat, f: FileId) returns (i: nat)
    requires Reachable(s) && r in s.readers && s.readers[r].Looking?
    requires f in s.readers[r].tail.states || InOrder(s.times, s.readers[r].tail.at, f)
    ensures s.readers[r].tail.at <= i < |s.times| && Resolve(s, r, f) == Newest(s.times[i], f)
  {
    ReaderHolds(s, r);
    HeldIsNewest(s.times, s.log, s.readers[r].tail, ReadCache(s), f);
    i :| s.readers[r].tail.at <= i < |s.times| && Resolve(s, r, f) == Newest(s.times[i], f);
  }

  /** And nothing less will do, for what a reader's cache may hold. */
  lemma ReadsAreNewestIff(s: Sys, r: nat, f: FileId)
    requires Reachable(s) && r in s.readers && s.readers[r].Looking?
    ensures var tail := s.readers[r].tail;
            && tail.at < |s.times|
            && ((forall c: Files :: Holds(s.times[tail.at], s.log, tail, c) ==> ReadsNewest(s.times, tail, c, f))
                <==> f in tail.states || InOrder(s.times, tail.at, f))
  {
    ReaderHolds(s, r);
    HeldReadsAreNewestIff(s.times, s.log, s.readers[r].tail, ReadCache(s), f);
  }

  /** After a server has invalidated its overlay, every later look starts from that instant or a later one. */
  lemma LooksPastFence(s: Sys, step: ServerStep)
    requires Reachable(s) && CanServer(s, step) && (step.Look? || step.LookCached?)
    ensures var t := DoServer(s, step);
            && t.readers[step.reader].Looking?
            && s.fence <= t.readers[step.reader].tail.at < |s.times|
  {
    ReachableIsSafe(s);
  }

  /** A state that is appended after the other events of its file is the newest one, exactly as it was written. */
  lemma AppendIsNewest(s: Sys, key: Key, file: File, f: FileId)
    requires Reachable(s) && CanServer(s, Append(key, StateEvent(file)))
    requires forall k: Key :: IsState(s.log, k, file.id) ==> k < key
    ensures var t := DoServer(s, Append(key, StateEvent(file)));
            && t.times == s.times + [t.log]
            && Newest(t.log, f)
               == if f == file.id
                  then Some(File(file.id, file.deleted, file.textKey, file.paths, file.name, file.author, key))
                  else Newest(s.log, f)
  {
    AppendedIsNewest(s.log, key, file, f);
  }

  // ---------------------------------------------------------------- followers

  /**
   Whatever refreshes failed or were left half done, the follower's cache patched with the journal
   after the generation it serves is exact, and so is a full reload of the meta objects.
   */
  lemma FollowerIsExact(s: Sys, f: FileId)
    requires Reachable(s)
    ensures s.follower.served <= |s.published|
    ensures var tail := Overlay(s.log, EndOf(s.published, s.follower.served));
            Patched(tail, s.follower.cache, f) == Newest(s.log, f) && Patched(tail, s.metas, f) == Newest(s.log, f)
  {
    ReachableIsSafe(s);
    var end := EndOf(s.published, s.follower.served);
    MetasCover(s, s.follower.served, f);
    assert CoversFile(s.log, end, s.follower.cache, f);
    PatchedIsNewest(s.log, end, s.follower.cache, f);
    PatchedIsNewest(s.log, end, s.metas, f);
  }

  lemma IndexerReaches(s: Sys)
    requires Reachable(s) && Up(s.ix.pc)
    ensures LogOk(s.log) && Sound(s.log, s.metas) && Covers(s.log, s.ix.lastKey, s.metas)
    ensures Sound(s.log, s.ix.cache) && Covers(s.log, s.ix.lastKey, s.ix.cache)
  {
    ReachableIsSafe(s);
    LocalCacheReaches(s);
  }

  /** The same for the indexer's own cache, at every write between which it may stop. */
  lemma IndexerIsExact(s: Sys, f: FileId)
    requires Reachable(s) && Up(s.ix.pc)
    ensures var tail := Overlay(s.log, s.ix.lastKey);
            Patched(tail, s.ix.cache, f) == Newest(s.log, f) && Patched(tail, s.metas, f) == Newest(s.log, f)
  {
    IndexerReaches(s);
    assert CoversFile(s.log, s.ix.lastKey, s.ix.cache, f) && CoversFile(s.log, s.ix.lastKey, s.metas, f);
    PatchedIsNewest(s.log, s.ix.lastKey, s.ix.cache, f);
    PatchedIsNewest(s.log, s.ix.lastKey, s.metas, f);
  }

  // ---------------------------------------------------------------- rebuilds

  /** Meta objects are the fold of the journal up to their newest event exactly when they are prefix-closed. */
  lemma PrefixClosedIsFold(s: Sys)
    requires LogOk(s.log) && Sound(s.log, s.metas)
    ensures PrefixClosed(s.log, s.metas) <==> forall f :: Get(s.metas, f) == Newest(Cut(s.log, NewestEvent(s.metas)), f)
  {
    forall f | f in s.metas ensures s.metas[f].lastEvent <= NewestEvent(s.metas) {
      HasNoNewerEvent(s.metas, f);
    }
    CoversIsFold(s.log, NewestEvent(s.metas), s.metas);
  }

  /** A fold run that has written everything leaves prefix-closed meta objects, if none is ahead of it. */
  lemma CompleteFoldIsPrefixClosed(s: Sys)
    requires Reachable(s) && Up(s.ix.pc) && NewestEvent(s.metas) <= s.ix.lastKey
    ensures PrefixClosed(s.log, s.metas)
  {
    IndexerReaches(s);
    CoversLess(s.log, s.ix.lastKey, NewestEvent(s.metas), s.metas);
  }

  /** Every state event after the last key, up to the newest one written, is written too. */
  ghost predicate TailWritten(log: Log, lastKey: Key, metas: Files) {
    forall k :: k in log && lastKey < k <= NewestEvent(metas) && log[k].StateEvent? ==>
      var f := log[k].file.id; f in metas && k <= metas[f].lastEvent
  }

  /**
   Whether a rebuild may start can be read off the journal after the last key: the meta objects are
   prefix-closed exactly when the files of the events up to the newest one written are all written.
   */
  lemma PrefixClosedIffTailWritten(s: Sys)
    requires Reachable(s) && Up(s.ix.pc)
    ensures PrefixClosed(s.log, s.metas) <==> TailWritten(s.log, s.ix.lastKey, s.metas)
  {
    IndexerReaches(s);
    var newest := NewestEvent(s.metas);
    if TailWritten(s.log, s.ix.lastKey, s.metas) {
      forall f, k: Key | IsState(s.log, k, f) && k <= newest ensures f in s.metas && k <= s.metas[f].lastEvent {
        assert CoversFile(s.log, s.ix.lastKey, s.metas, f);
      }
    }
    if PrefixClosed(s.log, s.metas) {
      forall k | k in s.log && s.ix.lastKey < k <= newest && s.log[k].StateEvent?
        ensures var f := s.log[k].file.id; f in s.metas && k <= s.metas[f].lastEvent
      {
        assert CoversFile(s.log, newest, s.metas, s.log[k].file.id) && IsState(s.log, k, s.log[k].file.id);
      }
    }
  }
}
