/**
 The state of the indexer with its bucket, its index directory and its memory, and what each of its
 writes keeps. Three things are kept apart, because the code can lose one without the others: that the
 folded states reach the last key, that the documents of the memory and the saved state are right, and
 that those of the published snapshot are.
 */
module IndexerState {
  import opened Wrappers
  import opened Journal
  import opened States
  import opened FoldFacts
  import opened Documents

  /** The state file: what was folded, the texts that were not ready, and the generation it belongs to. */
  datatype StateFile = StateFile(lastKey: Key, pending: Pending, generation: nat)

  /** A published generation: the index with the state it belongs to. */
  datatype Snapshot = Snapshot(index: Index, lastKey: Key, pending: Pending, generation: nat)

  datatype State = State(
    log: Log, texts: Texts, metas: Files, published: Option<Snapshot>,
    index: Index, staged: Staged, disk: Option<StateFile>,
    cache: Files, lastKey: Key, pending: Pending, generation: nat,
    listed: Key)

  function GenerationOf(published: Option<Snapshot>): nat {
    if published.Some? then published.value.generation else 0
  }

  /** Always: states are what events say, nothing is ahead of what was listed, no generation of what was published. */
  ghost predicate Basic(s: State) {
    && LogOk(s.log) && Sound(s.log, s.cache) && Sound(s.log, s.metas)
    && s.lastKey <= s.listed && Bounded(s.metas, s.listed) && Bounded(s.cache, s.listed)
    && s.generation <= GenerationOf(s.published)
    && (s.disk.Some? ==> s.disk.value.lastKey <= s.listed && s.disk.value.generation <= GenerationOf(s.published))
    && (s.published.Some? ==> s.published.value.lastKey <= s.listed)
  }

  /** Meta objects reach a key that the memory has not fallen behind. */
  ghost predicate Reached(log: Log, metas: Files, lastKey: Key, key: Key) {
    Covers(log, key, metas) && NoneBetween(log, lastKey, key)
  }

  /** The folded states reach the last key, and the keys that are saved and published. */
  ghost predicate Covered(s: State) {
    && Covers(s.log, s.lastKey, s.cache) && Covers(s.log, s.lastKey, s.metas)
    && (s.published.Some? ==> Reached(s.log, s.metas, s.lastKey, s.published.value.lastKey))
    && (s.disk.Some? ==> Reached(s.log, s.metas, s.lastKey, s.disk.value.lastKey))
    && (s.disk.Some? && s.published.Some? && s.disk.value.generation == s.published.value.generation ==>
          NoneBetween(s.log, s.disk.value.lastKey, s.published.value.lastKey))
  }

  /** The index is right as it is, and with what the writer holds uncommitted. */
  ghost predicate BothOk(log: Log, texts: Texts, key: Key, index: Index, staged: Staged, pending: Pending) {
    IndexOk(log, texts, key, index, pending) && IndexOk(log, texts, key, Applied(index, staged), pending)
  }

  /** The documents are right for the memory, and for the saved state if the process is lost. */
  ghost predicate DocsRight(s: State) {
    && BothOk(s.log, s.texts, s.lastKey, s.index, s.staged, s.pending)
    && (s.disk.Some? ==> SavedRight(s.log, s.texts, s.index, s.staged, s.pending, s.disk.value))
  }

  ghost predicate SavedRight(log: Log, texts: Texts, index: Index, staged: Staged, pending: Pending, d: StateFile) {
    && BothOk(log, texts, d.lastKey, index, staged, d.pending)
    && forall f :: Settled(log, f, d.lastKey) && f in pending ==> f in d.pending
  }

  ghost predicate SnapshotRight(s: State) {
    s.published.Some? ==> IndexOk(s.log, s.texts, s.published.value.lastKey, s.published.value.index,
      s.published.value.pending)
  }

  /** Which of the three are promised. */
  datatype Quality = Quality(covered: bool, docs: bool, snapshot: bool)

  ghost predicate Ok(s: State, q: Quality) {
    && Basic(s) && (q.covered ==> Covered(s))
    && (q.covered && q.docs ==> DocsRight(s)) && (q.snapshot ==> SnapshotRight(s))
  }

  // ---------------------------------------------------------------- the world

  /** Later events and more texts, nothing taken back. */
  ghost predicate Grown(log: Log, texts: Texts, listed: Key, moreLog: Log, moreTexts: Texts) {
    LogOk(moreLog) && Later(log, moreLog, listed) && TextsGrow(texts, moreTexts)
  }

  lemma GrownTransitive(log: Log, texts: Texts, listed: Key, log2: Log, texts2: Texts, log3: Log, texts3: Texts)
    requires Grown(log, texts, listed, log2, texts2) && Grown(log2, texts2, listed, log3, texts3)
    ensures Grown(log, texts, listed, log3, texts3)
  {
  }

  lemma IndexOutlasts(log: Log, texts: Texts, listed: Key, moreLog: Log, moreTexts: Texts, key: Key, index: Index,
          pending: Pending)
    requires Grown(log, texts, listed, moreLog, moreTexts) && key <= listed && IndexOk(log, texts, key, index, pending)
    ensures IndexOk(moreLog, moreTexts, key, index, pending)
  {
    TextsKeepIndex(log, texts, moreTexts, key, index, pending);
    GrowthKeepsIndex(log, moreLog, listed, moreTexts, key, index, pending);
  }

  lemma BothOutlast(log: Log, texts: Texts, listed: Key, moreLog: Log, moreTexts: Texts, key: Key, index: Index,
          staged: Staged, pending: Pending)
    requires Grown(log, texts, listed, moreLog, moreTexts) && key <= listed
      && BothOk(log, texts, key, index, staged, pending)
    ensures BothOk(moreLog, moreTexts, key, index, staged, pending)
  {
    IndexOutlasts(log, texts, listed, moreLog, moreTexts, key, index, pending);
    IndexOutlasts(log, texts, listed, moreLog, moreTexts, key, Applied(index, staged), pending);
  }

  lemma CoveredOutlasts(s: State, log: Log, texts: Texts)
    requires Basic(s) && Covered(s) && Grown(s.log, s.texts, s.listed, log, texts)
    ensures Covered(s.(log := log, texts := texts))
  {
    CoverageStays(s.log, log, s.listed, s.lastKey, s.cache);
    CoverageStays(s.log, log, s.listed, s.lastKey, s.metas);
    if s.published.Some? {
      ReachedStays(s.log, log, s.listed, s.metas, s.lastKey, s.published.value.lastKey);
    }
    if s.disk.Some? {
      ReachedStays(s.log, log, s.listed, s.metas, s.lastKey, s.disk.value.lastKey);
    }
    if s.disk.Some? && s.published.Some? {
      NoneStays(s.log, log, s.listed, s.disk.value.lastKey, s.published.value.lastKey);
    }
  }

  lemma ReachedStays(log: Log, grown: Log, listed: Key, metas: Files, lastKey: Key, key: Key)
    requires Later(log, grown, listed) && key <= listed && Reached(log, metas, lastKey, key)
    ensures Reached(grown, metas, lastKey, key)
  {
    CoverageStays(log, grown, listed, key, metas);
    NoneStays(log, grown, listed, lastKey, key);
  }

  lemma DocsOutlast(s: State, log: Log, texts: Texts)
    requires Basic(s) && DocsRight(s) && Grown(s.log, s.texts, s.listed, log, texts)
    ensures DocsRight(s.(log := log, texts := texts))
  {
    BothOutlast(s.log, s.texts, s.listed, log, texts, s.lastKey, s.index, s.staged, s.pending);
    if s.disk.Some? {
      var d := s.disk.value;
      BothOutlast(s.log, s.texts, s.listed, log, texts, d.lastKey, s.index, s.staged, d.pending);
      forall f | Settled(log, f, d.lastKey) ensures Settled(s.log, f, d.lastKey) {
        SettledBefore(s.log, log, s.listed, f, d.lastKey);
      }
    }
  }

  /** Whatever arrives and is written meanwhile, everything promised still holds. */
  lemma GrowthKeeps(s: State, q: Quality, log: Log, texts: Texts)
    requires Ok(s, q) && Grown(s.log, s.texts, s.listed, log, texts)
    ensures Ok(s.(log := log, texts := texts), q)
  {
    SoundStays(s.log, log, s.cache);
    SoundStays(s.log, log, s.metas);
    if q.covered {
      CoveredOutlasts(s, log, texts);
    }
    if q.covered && q.docs {
      DocsOutlast(s, log, texts);
    }
    if q.snapshot && s.published.Some? {
      var p := s.published.value;
      IndexOutlasts(s.log, s.texts, s.listed, log, texts, p.lastKey, p.index, p.pending);
    }
  }

  lemma ListingKeeps(s: State, q: Quality, listed: Key)
    requires Ok(s, q) && s.listed <= listed
    ensures Ok(s.(listed := listed), q)
  {
  }

  // ---------------------------------------------------------------- one run

  lemma SettledEarlier(log: Log, f: FileId, lastKey: Key, later: Key)
    requires NoneBetween(log, lastKey, later) && Settled(log, f, later)
    ensures Settled(log, f, lastKey)
  {
  }

  /** Files folded without a new event since the last key are pending. */
  ghost predicate OnlyPendingAgain(log: Log, lastKey: Key, pending: Pending, todo: Files) {
    forall f :: f in todo && Settled(log, f, lastKey) ==> f in pending
  }

  /** The states to fold up to hi: sound, and complete as far as coverage is promised. */
  ghost predicate Ready(s: State, q: Quality, hi: Key, todo: Files) {
    && s.lastKey <= hi <= s.listed && Sound(s.log, todo) && Bounded(todo, s.listed)
    && (q.covered ==> FoldOk(s.log, s.lastKey, hi, todo)) && OnlyPendingAgain(s.log, s.lastKey, s.pending, todo)
  }

  /** A file that is folded without a new event is a pending one. */
  lemma SettledIsPending(log: Log, lastKey: Key, hi: Key, cache: Files, again: set<FileId>, f: FileId)
    requires f in Todo(log, lastKey, hi, cache, again) && Settled(log, f, lastKey)
    ensures f in again
  {
    var cut := Cut(log, hi);
    OverlayHas(cut, lastKey, f);
    NewestAfterIs(cut, f, lastKey);
    assert forall k: Key :: IsState(cut, k, f) ==> IsState(log, k, f);
  }

  lemma TodoIsReady(s: State, q: Quality, hi: Key, again: set<FileId>)
    requires Ok(s, q) && s.lastKey <= hi <= s.listed && again <= s.pending.Keys
    ensures Ready(s, q, hi, Todo(s.log, s.lastKey, hi, s.cache, again))
  {
    var todo := Todo(s.log, s.lastKey, hi, s.cache, again);
    TodoIsSound(s.log, s.lastKey, hi, s.cache, again);
    TodoIsBounded(s.log, s.lastKey, hi, s.cache, again, s.listed);
    if q.covered {
      TodoIsFold(s.log, s.lastKey, hi, s.cache, again);
    }
    forall f | f in todo && Settled(s.log, f, s.lastKey) ensures f in s.pending {
      SettledIsPending(s.log, s.lastKey, hi, s.cache, again, f);
    }
  }

  lemma ReadyStays(s: State, q: Quality, hi: Key, todo: Files, log: Log, texts: Texts)
    requires Basic(s) && Ready(s, q, hi, todo) && Grown(s.log, s.texts, s.listed, log, texts)
    ensures Ready(s.(log := log, texts := texts), q, hi, todo)
  {
    SoundStays(s.log, log, todo);
    if q.covered {
      FoldStays(s.log, log, s.listed, s.lastKey, hi, todo);
    }
    forall f | f in todo && Settled(log, f, s.lastKey) ensures f in s.pending {
      SettledBefore(s.log, log, s.listed, f, s.lastKey);
    }
  }

  /** Staging part of a fold: the index that a commit would leave stays right. */
  lemma StageKeeps(s: State, q: Quality, hi: Key, todo: Files, part: Files, docs: Index, staged: Staged)
    requires Ok(s, q) && Ready(s, q, hi, todo) && DocsOf(part, s.texts, docs)
    requires forall f :: f in part ==> f in todo && part[f] == todo[f]
    requires Applied(s.index, staged) == Committed(Applied(s.index, s.staged), DeletedOf(part), docs)
    ensures Ok(s.(staged := staged), q)
  {
    if q.covered && q.docs {
      var all := Applied(s.index, s.staged);
      PartReaches(s.log, s.lastKey, hi, todo, part);
      CommitKeepsIndex(s.log, s.texts, s.lastKey, hi, part, docs, all, s.pending);
      if s.disk.Some? {
        var d := s.disk.value;
        forall f | f in part && Settled(s.log, f, d.lastKey) ensures Settled(s.log, f, hi) && f in d.pending {
          SettledEarlier(s.log, f, s.lastKey, d.lastKey);
        }
        CommitKeepsIndex(s.log, s.texts, d.lastKey, hi, part, docs, all, d.pending);
      }
    }
  }

  lemma PartReaches(log: Log, lastKey: Key, hi: Key, todo: Files, part: Files)
    requires FoldOk(log, lastKey, hi, todo) && forall f :: f in part ==> f in todo && part[f] == todo[f]
    ensures Reaches(log, hi, part)
  {
    forall f | f in part ensures CoversFile(log, hi, part, f) {
      assert CoversFile(log, hi, todo, f);
    }
  }

  /** Staging the deletions of a fold. */
  lemma DeletesKeep(s: State, q: Quality, hi: Key, todo: Files)
    requires Ok(s, q) && Ready(s, q, hi, todo)
    ensures Ok(s.(staged := WithDeleted(s.staged, DeletedOf(todo))), q)
  {
    DeletesApply(s.index, s.staged, DeletedOf(todo));
    assert DeletedOf(DeadOf(todo)) == DeletedOf(todo);
    StageKeeps(s, q, hi, todo, DeadOf(todo), map[], WithDeleted(s.staged, DeletedOf(todo)));
  }

  /** Staging its documents. */
  lemma UpsertsKeep(s: State, q: Quality, hi: Key, todo: Files, docs: Index)
    requires Ok(s, q) && Ready(s, q, hi, todo) && DocsOf(todo, s.texts, docs)
    ensures Ok(s.(staged := WithDocs(s.staged, docs)), q)
  {
    DocsApply(s.index, s.staged, docs);
    assert DeletedOf(LiveOf(todo)) == {};
    StageKeeps(s, q, hi, todo, LiveOf(todo), docs, WithDocs(s.staged, docs));
  }

  /** A commit, seen or unseen, leaves the index that the staged changes were right for. */
  lemma CommitKeeps(s: State, q: Quality)
    requires Ok(s, q)
    ensures Ok(s.(index := Applied(s.index, s.staged), staged := map[]), q)
  {
    AppliedNone(Applied(s.index, s.staged));
  }

  /** The writer may lose what it holds. */
  lemma LossKeeps(s: State, q: Quality)
    requires Ok(s, q)
    ensures Ok(s.(staged := map[]), q)
  {
    AppliedNone(s.index);
  }

  /** The states left to write are sound, and complete as far as coverage is promised. */
  ghost predicate LeftOk(s: State, q: Quality, hi: Key, left: Files) {
    && s.lastKey <= hi && Sound(s.log, left) && Bounded(left, s.listed)
    && (q.covered ==> WriteOk(s.log, s.metas, hi, s.cache, left))
  }

  lemma ReadyToWrite(s: State, q: Quality, hi: Key, todo: Files)
    requires Ok(s, q) && Ready(s, q, hi, todo)
    ensures LeftOk(s, q, hi, todo)
  {
    if q.covered {
      FoldIsWrite(s.log, s.metas, s.lastKey, hi, s.cache, todo);
    }
  }

  lemma CachePutKeeps(s: State, q: Quality, hi: Key, left: Files, f: FileId)
    requires Ok(s, q) && LeftOk(s, q, hi, left) && f in left
    ensures var t := s.(cache := s.cache[f := left[f]]); Ok(t, q) && LeftOk(t, q, hi, left)
  {
    if q.covered {
      PutKeepsCovers(s.log, s.lastKey, hi, s.cache, left, f);
    }
  }

  lemma MetaPutKeepsReached(log: Log, metas: Files, lastKey: Key, hi: Key, left: Files, f: FileId, key: Key)
    requires Covers(log, lastKey, metas) && lastKey <= hi && f in left && CoversFile(log, hi, left, f)
      && Reached(log, metas, lastKey, key)
    ensures Reached(log, metas[f := left[f]], lastKey, key)
  {
    PutKeepsCovers(log, lastKey, hi, metas, left, f);
    CoversLess(log, lastKey, key, metas[f := left[f]]);
  }

  lemma MetaPutKeeps(s: State, q: Quality, hi: Key, left: Files, f: FileId)
    requires Ok(s, q) && LeftOk(s, q, hi, left) && f in left && Get(s.cache, f) == Some(left[f])
    ensures var t := s.(metas := s.metas[f := left[f]]); Ok(t, q) && LeftOk(t, q, hi, left - {f})
  {
    if q.covered {
      PutKeepsCovers(s.log, s.lastKey, hi, s.metas, left, f);
      if s.published.Some? {
        MetaPutKeepsReached(s.log, s.metas, s.lastKey, hi, left, f, s.published.value.lastKey);
      }
      if s.disk.Some? {
        MetaPutKeepsReached(s.log, s.metas, s.lastKey, hi, left, f, s.disk.value.lastKey);
      }
      PutWrites(s.log, s.metas, hi, s.cache, left, f);
    }
  }

  /** What a run that wrote everything hands over to the move of the last key. */
  ghost predicate Written(s: State, hi: Key, todo: Files, earlier: Files, pending: Pending) {
    && Covers(s.log, hi, s.cache) && Covers(s.log, hi, s.metas)
    && Sound(s.log, earlier) && Covers(s.log, s.lastKey, earlier) && OnlyDeadDropped(earlier, todo, s.pending, pending)
  }

  /**
   `before` is the index before the commit of these documents, `all` that index with what was uncommitted,
   `earlier` the cache before the writes.
   */
  lemma MoveKeeps(s: State, q: Quality, hi: Key, todo: Files, docs: Index, before: Index, all: Index, earlier: Files,
          pending: Pending)
    requires Ok(s, q) && Ready(s, q, hi, todo) && (q.covered ==> Written(s, hi, todo, earlier, pending))
    requires q.covered && q.docs ==>
               IndexOk(s.log, s.texts, s.lastKey, before, s.pending)
                 && IndexOk(s.log, s.texts, s.lastKey, all, s.pending)
    requires s.index == Committed(before, DeletedOf(todo), docs) && DocsOf(todo, s.texts, docs)
    requires Applied(s.index, s.staged) == Committed(all, DeletedOf(todo), docs)
    requires PendingOf(todo, docs, s.pending, pending)
    ensures Ok(s.(lastKey := hi, pending := pending), q)
  {
    if q.covered && q.docs {
      MoveKeepsIndex(s.log, s.texts, s.lastKey, hi, earlier, todo, docs, before, s.pending, pending);
      MoveKeepsIndex(s.log, s.texts, s.lastKey, hi, earlier, todo, docs, all, s.pending, pending);
      if s.disk.Some? {
        var d := s.disk.value;
        forall f | Settled(s.log, f, d.lastKey) && f in pending ensures f in d.pending {
          SettledEarlier(s.log, f, s.lastKey, d.lastKey);
          assert f in todo ==> f in s.pending;
        }
      }
    }
  }

  lemma SaveKeeps(s: State, q: Quality)
    requires Ok(s, q)
    ensures Ok(s.(disk := Some(StateFile(s.lastKey, s.pending, s.generation))), q)
  {
  }

  /** A snapshot is as right as the documents it is taken from. */
  lemma PublishKeeps(s: State, q: Quality)
    requires Ok(s, q)
    ensures var t := s.(published := Some(Snapshot(s.index, s.lastKey, s.pending, GenerationOf(s.published) + 1)));
            Ok(t, q.(snapshot := q.covered && q.docs)) && GenerationOf(t.published) == GenerationOf(s.published) + 1
  {
  }

  lemma GenerationKeeps(s: State, q: Quality, generation: nat)
    requires Ok(s, q) && generation <= GenerationOf(s.published)
    ensures Ok(s.(generation := generation), q)
  {
  }

  // ---------------------------------------------------------------- restarts

  /** The directory is lost or emptied. */
  lemma WipeKeeps(s: State, q: Quality)
    requires Ok(s, q)
    ensures Ok(s.(index := map[], staged := map[], disk := None), q.(docs := false))
  {
  }

  /** Memory and uncommitted changes are lost; the memory is read back from the state file and the meta objects. */
  lemma ResumeKeeps(s: State, q: Quality)
    requires Ok(s, q) && s.disk.Some?
    requires s.published.Some? ==> s.disk.value.generation == s.published.value.generation
    ensures var d := s.disk.value;
            Ok(s.(staged := map[], cache := s.metas, lastKey := d.lastKey, pending := d.pending,
              generation := d.generation), q)
  {
    AppliedNone(s.index);
  }

  /** Directory and memory as a published snapshot has them. */
  function Adopted(s: State, p: Snapshot): State {
    s.(index := p.index, staged := map[], disk := Some(StateFile(p.lastKey, p.pending, p.generation)),
       lastKey := p.lastKey, pending := p.pending, generation := p.generation)
  }

  /** The directory is replaced by the published snapshot, and is as right as that. */
  lemma AdoptKeeps(s: State, q: Quality)
    requires Ok(s, q) && s.published.Some?
    ensures var t := Adopted(s, s.published.value);
            Ok(t, q.(docs := q.snapshot)) && Ok(t.(cache := s.metas), q.(docs := q.snapshot))
  {
    AppliedNone(s.published.value.index);
    if q.covered {
      CoversLess(s.log, s.lastKey, s.published.value.lastKey, s.cache);
    }
  }

  /** With another index under the old state files nothing is said about documents. */
  lemma SwapKeeps(s: State, q: Quality, index: Index, staged: Staged)
    requires Ok(s, q)
    ensures Ok(s.(index := index, staged := staged), q.(docs := false))
  {
  }

  /** What a rebuild indexes: every live meta object, with its text if that is there. */
  ghost predicate RebuiltFrom(metas: Files, texts: Texts, docs: Index, pending: Pending) {
    && DocsOf(metas, texts, docs)
    && forall f :: Lookup(pending, f) == MissingText(metas, docs, f)
  }

  lemma RebuiltIndexIsOk(log: Log, texts: Texts, metas: Files, key: Key, docs: Index, pending: Pending)
    requires LogOk(log) && Sound(log, metas) && Covers(log, key, metas) && RebuiltFrom(metas, texts, docs, pending)
    ensures IndexOk(log, texts, key, docs, pending)
  {
    forall f | Settled(log, f, key) ensures DocOk(Newest(log, f), texts, Lookup(docs, f), Lookup(pending, f)) {
      CacheIsNewest(log, key, metas, f);
    }
  }

  lemma LoadKeeps(s: State, q: Quality, f: FileId)
    requires Ok(s, q) && f in s.metas
    ensures Ok(s.(cache := s.cache[f := s.metas[f]]), q)
  {
    if q.covered {
      assert CoversFile(s.log, s.lastKey, s.metas, f);
      PutKeepsCovers(s.log, s.lastKey, s.lastKey, s.cache, s.metas, f);
    }
  }

  /** The state that a rebuild ends with. */
  function Rebuilt(s: State, docs: Index, pending: Pending): State {
    s.(index := docs, staged := map[], disk := None, lastKey := NewestEvent(s.metas), pending := pending)
  }

  lemma NewestIsListed(s: State)
    requires Basic(s)
    ensures NewestEvent(s.metas) <= s.listed
  {
    if LastEvents(s.metas) != {} {
      assert Max(LastEvents(s.metas)) in LastEvents(s.metas);
    }
  }

  lemma CacheReaches(log: Log, key: Key, metas: Files, cache: Files)
    requires Covers(log, key, metas) && forall f :: f in metas ==> Get(cache, f) == Some(metas[f])
    ensures Covers(log, key, cache)
  {
    forall f ensures CoversFile(log, key, cache, f) {
      assert CoversFile(log, key, metas, f);
    }
  }

  /** After a rebuild the folded states reach its key exactly if the meta objects were prefix-closed. */
  lemma RebuiltIsCoveredIff(s: State, docs: Index, pending: Pending)
    requires Basic(s) && Covered(s) && forall f :: f in s.metas ==> Get(s.cache, f) == Some(s.metas[f])
    ensures Covered(Rebuilt(s, docs, pending)) <==> PrefixClosed(s.log, s.metas)
  {
    if PrefixClosed(s.log, s.metas) {
      CacheReaches(s.log, NewestEvent(s.metas), s.metas, s.cache);
      if s.published.Some? {
        NewestEventReaches(s.log, s.published.value.lastKey, s.metas);
      }
    }
  }

  lemma RebuiltDocsAreRight(s: State, docs: Index, pending: Pending)
    requires LogOk(s.log) && Sound(s.log, s.metas) && PrefixClosed(s.log, s.metas)
    requires RebuiltFrom(s.metas, s.texts, docs, pending)
    ensures DocsRight(Rebuilt(s, docs, pending))
  {
    RebuiltIndexIsOk(s.log, s.texts, s.metas, NewestEvent(s.metas), docs, pending);
    AppliedNone(docs);
  }

  /** A rebuild over prefix-closed meta objects gives right documents, whatever index there was before. */
  lemma RebuildKeeps(s: State, q: Quality, docs: Index, pending: Pending)
    requires Ok(s, q) && RebuiltFrom(s.metas, s.texts, docs, pending)
    requires forall f :: f in s.metas ==> Get(s.cache, f) == Some(s.metas[f])
    ensures Ok(Rebuilt(s, docs, pending), RebuildQuality(s, q))
  {
    NewestIsListed(s);
    if q.covered && PrefixClosed(s.log, s.metas) {
      RebuiltIsCoveredIff(s, docs, pending);
      RebuiltDocsAreRight(s, docs, pending);
    }
  }

  /** What a rebuild can promise. */
  ghost function RebuildQuality(s: State, q: Quality): Quality {
    var closed := q.covered && PrefixClosed(s.log, s.metas);
    Quality(closed, closed, q.snapshot)
  }

  lemma RebuildQualityStays(s: State, q: Quality, log: Log, texts: Texts)
    requires Basic(s) && Grown(s.log, s.texts, s.listed, log, texts)
    ensures RebuildQuality(s.(log := log, texts := texts), q) == RebuildQuality(s, q)
  {
    NewestIsListed(s);
    PrefixClosedStays(s.log, log, s.listed, s.metas);
  }

  /** How a process starts. */
  datatype Way = Adopts | Resumes | Rebuilds

  predicate Differs(s: State) {
    s.published.Some? && (s.disk.None? || s.disk.value.generation != s.published.value.generation)
  }

  /** Directory and memory after adopting or resuming. */
  function Opened(s: State): State
    requires Differs(s) || s.disk.Some?
  {
    if Differs(s) then Adopted(s, s.published.value).(cache := s.metas)
    else s.(staged := map[], cache := s.metas, lastKey := s.disk.value.lastKey, pending := s.disk.value.pending,
            generation := s.disk.value.generation)
  }

  ghost function OpenQuality(s: State, q: Quality): Quality {
    if Differs(s) then q.(docs := q.snapshot) else q
  }

  /** Documents without meta objects: the index belongs to another bucket or to an earlier life of this one. */
  predicate Foreign(s: State) {
    s.metas == map[] && s.index != map[]
  }

  /** A generation that the directory does not match is adopted; no state file or a foreign index ask for a rebuild. */
  function WayOf(s: State): Way {
    if (!Differs(s) && s.disk.None?) || Foreign(Opened(s)) then Rebuilds
    else if Differs(s) then Adopts
    else Resumes
  }

  /** The key that the closing run of a start begins with. */
  function BeginKey(s: State): Key {
    if WayOf(s) == Rebuilds then NewestEvent(s.metas) else Opened(s).lastKey
  }

  ghost function StartQuality(s: State, q: Quality): Quality {
    if WayOf(s) == Rebuilds then RebuildQuality(s, q) else OpenQuality(s, q)
  }

  // ---------------------------------------------------------------- a rebuild that fails in a live process

  /** The cache has a live state of a file without newer events: it ought to be in the index. */
  ghost predicate Expects(s: State, key: Key, f: FileId) {
    Settled(s.log, f, key) && f in s.cache && !s.cache[f].deleted
  }

  /** An index that a failed rebuild left empty is right exactly if no settled live file is folded. */
  lemma WipedIsRightIff(s: State)
    requires Basic(s) && Covered(s) && DocsRight(s)
    ensures IndexOk(s.log, s.texts, s.lastKey, map[], s.pending) <==> forall f :: !Expects(s, s.lastKey, f)
  {
    var empty: Index := map[];
    forall f | Settled(s.log, f, s.lastKey)
      ensures DocOk(Newest(s.log, f), s.texts, Lookup(empty, f), Lookup(s.pending, f)) <==> !Expects(s, s.lastKey, f)
    {
      CacheIsNewest(s.log, s.lastKey, s.cache, f);
      assert DocOk(Newest(s.log, f), s.texts, Lookup(s.index, f), Lookup(s.pending, f));
    }
  }

  /** What a rebuild that failed had upserted: documents of live meta objects, with the texts that were there. */
  ghost predicate FlushedFrom(metas: Files, ready: Texts, texts: Texts, staged: Staged) {
    forall f :: f in staged ==>
      && staged[f].Some? && f in metas && !metas[f].deleted && staged[f].value.file == metas[f]
      && (staged[f].value.text.Some? ==> staged[f].value.text == TextOf(metas[f], texts))
      && (staged[f].value.text.None? ==> TextOf(metas[f], ready).None?)
  }

  /**
   And the run after it, whose commit takes along what the rebuild had upserted, makes the documents right
   exactly if every such file is folded again or was upserted: the state file it saves and the snapshot it
   publishes are otherwise wrong for good. `ready` are the texts when the rebuild began.
   */
  lemma RunAfterWipeIsRightIff(s: State, ready: Texts, flushed: Staged, hi: Key, todo: Files, docs: Index,
          pending: Pending)
    requires Basic(s) && Covered(s) && TextsGrow(ready, s.texts) && FlushedFrom(s.metas, ready, s.texts, flushed)
    requires IndexOk(s.log, ready, s.lastKey, s.index, s.pending)
    requires s.lastKey <= hi && FoldOk(s.log, s.lastKey, hi, todo) && DocsOf(todo, s.texts, docs)
    requires PendingOf(todo, docs, s.pending, pending) && OnlyDeadDropped(s.cache, todo, s.pending, pending)
    ensures var bare := Applied(map[], WithDocs(WithDeleted(flushed, DeletedOf(todo)), docs));
            IndexOk(s.log, s.texts, hi, bare, pending) <==> forall f :: Expects(s, hi, f) ==> f in todo || f in flushed
  {
    var bare := Applied(map[], WithDocs(WithDeleted(flushed, DeletedOf(todo)), docs));
    FoldApplies(map[], flushed, DeletedOf(todo), docs);
    TextsKeepIndex(s.log, ready, s.texts, s.lastKey, s.index, s.pending);
    MoveKeepsIndex(s.log, s.texts, s.lastKey, hi, s.cache, todo, docs, s.index, s.pending, pending);
    forall f | Settled(s.log, f, hi)
      ensures DocOk(Newest(s.log, f), s.texts, Lookup(bare, f), Lookup(pending, f))
              <==> (Expects(s, hi, f) ==> f in todo || f in flushed)
    {
      AppliedHas(map[], flushed, f);
      if f in todo {
        FoldedIsRight(s, hi, todo, docs, pending, bare, f);
      } else {
        BareIsRightIff(s, ready, flushed, hi, todo, pending, Lookup(bare, f), f);
      }
    }
  }

  /** What the run folds is right whatever the index was. */
  lemma FoldedIsRight(s: State, hi: Key, todo: Files, docs: Index, pending: Pending, bare: Index, f: FileId)
    requires IndexOk(s.log, s.texts, hi, Committed(s.index, DeletedOf(todo), docs), pending)
    requires Settled(s.log, f, hi) && f in todo && (f in docs || todo[f].deleted)
    requires Lookup(bare, f) == if f in docs then Some(docs[f]) else None
    ensures DocOk(Newest(s.log, f), s.texts, Lookup(bare, f), Lookup(pending, f))
  {
    assert DocOk(Newest(s.log, f), s.texts, Lookup(Committed(s.index, DeletedOf(todo), docs), f), Lookup(pending, f));
  }

  /** Of the others the document that the rebuild upserted is right, and a missing one is wrong. */
  lemma BareIsRightIff(s: State, ready: Texts, flushed: Staged, hi: Key, todo: Files, pending: Pending,
          doc: Option<Doc>, f: FileId)
    requires Basic(s) && Covered(s) && FlushedFrom(s.metas, ready, s.texts, flushed)
    requires IndexOk(s.log, ready, s.lastKey, s.index, s.pending)
    requires s.lastKey <= hi && FoldOk(s.log, s.lastKey, hi, todo) && Settled(s.log, f, hi) && f !in todo
    requires (f in pending ==> f in s.pending && pending[f] == s.pending[f])
    requires f in s.pending && f !in pending ==> f !in s.cache || s.cache[f].deleted
    requires doc == if f in flushed then flushed[f] else None
    ensures DocOk(Newest(s.log, f), s.texts, doc, Lookup(pending, f)) <==> (Expects(s, hi, f) ==> f in flushed)
  {
    assert Settled(s.log, f, s.lastKey);
    CacheIsNewest(s.log, s.lastKey, s.cache, f);
    CacheIsNewest(s.log, s.lastKey, s.metas, f);
    assert DocOk(Newest(s.log, f), ready, Lookup(s.index, f), Lookup(s.pending, f));
  }
}
