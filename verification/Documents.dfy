/**
 The index and the pending texts: what the documents of the folded files have to be, and why every
 step of a fold keeps them so. A document is a file's state with its extracted text, if that is ready.
 */
module Documents {
  import opened Wrappers
  import opened Journal
  import opened States
  import opened FoldFacts

  type Texts = map<string, string>
  datatype Doc = Doc(file: File, text: Option<string>)
  type Index = map<FileId, Doc>
  type Pending = map<FileId, string>

  /** The extracted text of a file, if it has been written. */
  function TextOf(file: File, texts: Texts): Option<string> {
    if file.textKey != "" && file.textKey in texts then Some(texts[file.textKey]) else None
  }

  /** f has no event after the last folded key. */
  ghost predicate Settled(log: Log, f: FileId, lastKey: Key) {
    forall k: Key :: IsState(log, k, f) ==> k <= lastKey
  }

  /** A live file is indexed with its newest state and its text, or without text and then pending. */
  ghost predicate LiveOk(file: File, texts: Texts, doc: Doc, pending: Option<string>) {
    && doc.file == file
    && (doc.text.Some? ==> doc.text == TextOf(file, texts))
    && (doc.text.None? ==> file.textKey == "" || pending == Some(file.textKey))
    && (pending.Some? ==> file.textKey != "" && pending == Some(file.textKey))
  }

  function Lookup<K, V>(m: map<K, V>, k: K): Option<V> {
    if k in m then Some(m[k]) else None
  }

  /** Deleted and unknown files are neither indexed nor pending. */
  ghost predicate DocOk(newest: Option<File>, texts: Texts, doc: Option<Doc>, pending: Option<string>) {
    if newest.None? || newest.value.deleted then doc.None? && pending.None?
    else doc.Some? && LiveOk(newest.value, texts, doc.value, pending)
  }

  ghost predicate IndexOk(log: Log, texts: Texts, lastKey: Key, index: Index, pending: Pending) {
    forall f :: Settled(log, f, lastKey) ==> DocOk(Newest(log, f), texts, Lookup(index, f), Lookup(pending, f))
  }

  /** Texts are written once. */
  ghost predicate TextsGrow(before: Texts, after: Texts) {
    forall k :: k in before ==> k in after && after[k] == before[k]
  }

  lemma DocStays(newest: Option<File>, texts: Texts, more: Texts, doc: Option<Doc>, pending: Option<string>)
    requires TextsGrow(texts, more) && DocOk(newest, texts, doc, pending)
    ensures DocOk(newest, more, doc, pending)
  {
  }

  lemma TextsKeepIndex(log: Log, texts: Texts, more: Texts, lastKey: Key, index: Index, pending: Pending)
    requires TextsGrow(texts, more) && IndexOk(log, texts, lastKey, index, pending)
    ensures IndexOk(log, more, lastKey, index, pending)
  {
    forall f | Settled(log, f, lastKey) ensures DocOk(Newest(log, f), more, Lookup(index, f), Lookup(pending, f)) {
      DocStays(Newest(log, f), texts, more, Lookup(index, f), Lookup(pending, f));
    }
  }

  /** Events that come after everything listed unsettle their files and leave the others alone. */
  lemma GrowthKeepsIndex(log: Log, grown: Log, listed: Key, texts: Texts, lastKey: Key, index: Index, pending: Pending)
    requires Later(log, grown, listed) && lastKey <= listed && IndexOk(log, texts, lastKey, index, pending)
    ensures IndexOk(grown, texts, lastKey, index, pending)
  {
    forall f | Settled(grown, f, lastKey) ensures DocOk(Newest(grown, f), texts, Lookup(index, f), Lookup(pending, f)) {
      SettledBefore(log, grown, listed, f, lastKey);
    }
  }

  lemma SettledBefore(log: Log, grown: Log, listed: Key, f: FileId, lastKey: Key)
    requires Later(log, grown, listed) && lastKey <= listed && Settled(grown, f, lastKey)
    ensures Settled(log, f, lastKey) && Newest(grown, f) == Newest(log, f)
  {
    assert forall k: Key :: IsState(log, k, f) <==> IsState(grown, k, f);
    assert StatesAfter(grown, f, 0) == StatesAfter(log, f, 0);
    if StatesAfter(log, f, 0) != {} {
      assert Max(StatesAfter(log, f, 0)) in StatesAfter(log, f, 0);
    }
  }

  // ---------------------------------------------------------------- one fold

  /** A document has the text of its file or none. */
  predicate TextOk(doc: Doc, file: File, texts: Texts) {
    doc.text.Some? ==> doc.text == TextOf(file, texts)
  }

  /** The documents of a fold: one per live file of `todo`, with the text found for it. */
  ghost predicate DocsOf(todo: Files, texts: Texts, docs: Index) {
    && (forall f :: f in docs <==> f in todo && !todo[f].deleted)
    && (forall f :: f in docs ==> docs[f].file == todo[f] && TextOk(docs[f], todo[f], texts))
  }

  function DeletedOf(todo: Files): set<FileId> {
    set f | f in todo && todo[f].deleted
  }

  /** The deleted files of a fold, and the others. */
  function DeadOf(todo: Files): Files {
    map f | f in todo && todo[f].deleted :: todo[f]
  }

  function LiveOf(todo: Files): Files {
    map f | f in todo && !todo[f].deleted :: todo[f]
  }

  /** An index with these files deleted and these documents put in place. */
  function Committed(index: Index, deleted: set<FileId>, docs: Index): Index {
    map f | f in index.Keys - deleted + docs.Keys :: if f in docs then docs[f] else index[f]
  }

  /** What the index writer holds uncommitted: a document to put in place, or a deletion. */
  type Staged = map<FileId, Option<Doc>>

  function WithDeleted(staged: Staged, ids: set<FileId>): Staged {
    map f | f in staged.Keys + ids :: if f in ids then None else staged[f]
  }

  function WithDocs(staged: Staged, docs: Index): Staged {
    map f | f in staged.Keys + docs.Keys :: if f in docs then Some(docs[f]) else staged[f]
  }

  /** What a commit makes of the index. */
  function Applied(index: Index, staged: Staged): Index {
    map f | f in index.Keys + staged.Keys && (f in staged ==> staged[f].Some?) ::
      if f in staged then staged[f].value else index[f]
  }

  lemma AppliedHas(index: Index, staged: Staged, f: FileId)
    ensures Lookup(Applied(index, staged), f) == if f in staged then staged[f] else Lookup(index, f)
  {
  }

  lemma AppliedNone(index: Index)
    ensures Applied(index, map[]) == index
  {
  }

  lemma DeletesApply(index: Index, staged: Staged, ids: set<FileId>)
    ensures Applied(index, WithDeleted(staged, ids)) == Committed(Applied(index, staged), ids, map[])
  {
    var a, b := Applied(index, WithDeleted(staged, ids)), Committed(Applied(index, staged), ids, map[]);
    forall f ensures Lookup(a, f) == Lookup(b, f) {
      AppliedHas(index, WithDeleted(staged, ids), f);
      AppliedHas(index, staged, f);
    }
    SameLookups(a, b);
  }

  lemma DocsApply(index: Index, staged: Staged, docs: Index)
    ensures Applied(index, WithDocs(staged, docs)) == Committed(Applied(index, staged), {}, docs)
  {
    var a, b := Applied(index, WithDocs(staged, docs)), Committed(Applied(index, staged), {}, docs);
    forall f ensures Lookup(a, f) == Lookup(b, f) {
      AppliedHas(index, WithDocs(staged, docs), f);
      AppliedHas(index, staged, f);
    }
    SameLookups(a, b);
  }

  /** Deletions and documents put in place one after the other are a commit of both. */
  lemma FoldApplies(index: Index, staged: Staged, deleted: set<FileId>, docs: Index)
    ensures Applied(index, WithDocs(WithDeleted(staged, deleted), docs))
              == Committed(Applied(index, staged), deleted, docs)
  {
    DeletesApply(index, staged, deleted);
    DocsApply(index, WithDeleted(staged, deleted), docs);
    CommittedTwice(Applied(index, staged), deleted, docs);
  }

  lemma CommittedTwice(index: Index, deleted: set<FileId>, docs: Index)
    ensures Committed(Committed(index, deleted, map[]), {}, docs) == Committed(index, deleted, docs)
  {
    SameLookups(Committed(Committed(index, deleted, map[]), {}, docs), Committed(index, deleted, docs));
  }

  lemma SameLookups<K, V>(a: map<K, V>, b: map<K, V>)
    requires forall k :: Lookup(a, k) == Lookup(b, k)
    ensures a == b
  {
    forall k ensures (k in a <==> k in b) && (k in a ==> a[k] == b[k]) {
      assert Lookup(a, k) == Lookup(b, k);
    }
  }

  /** The text to wait for: that of an indexed file whose document has none. */
  function MissingText(files: Files, docs: Index, f: FileId): Option<string> {
    if f in files && f in docs && docs[f].text.None? && files[f].textKey != "" then Some(files[f].textKey) else None
  }

  /** Pending texts after a fold: those of `todo` whose text was not there, and of other files as before. */
  ghost predicate PendingOf(todo: Files, docs: Index, before: Pending, after: Pending) {
    && (forall f :: f in todo ==> Lookup(after, f) == MissingText(todo, docs, f))
    && (forall f :: f !in todo && f in after ==> f in before && after[f] == before[f])
  }

  /** Files dropped from the pending texts without being folded are deleted or unknown. */
  ghost predicate OnlyDeadDropped(cache: Files, todo: Files, before: Pending, after: Pending) {
    forall f :: f in before && f !in after && f !in todo ==> f !in cache || cache[f].deleted
  }

  /** Every state of `todo` is as new as the events up to hi. */
  ghost predicate Reaches(log: Log, hi: Key, todo: Files) {
    Sound(log, todo) && forall f :: f in todo ==> CoversFile(log, hi, todo, f)
  }

  /** A fold's file with no event after hi has its newest state. */
  lemma FoldIsNewest(log: Log, hi: Key, todo: Files, f: FileId)
    requires LogOk(log) && Reaches(log, hi, todo) && f in todo && Settled(log, f, hi)
    ensures Newest(log, f) == Some(todo[f])
  {
    assert CoversFile(log, hi, todo, f);
    NewestIs(log, todo[f].lastEvent, f, 0);
  }

  lemma CacheIsNewest(log: Log, lastKey: Key, cache: Files, f: FileId)
    requires LogOk(log) && Sound(log, cache) && Covers(log, lastKey, cache) && Settled(log, f, lastKey)
    ensures Newest(log, f) == Get(cache, f)
  {
    NewestAfterIs(log, f, 0);
    assert CoversFile(log, lastKey, cache, f);
    if f in cache {
      NewestIs(log, cache[f].lastEvent, f, 0);
    }
  }

  /**
   After the commit, before the last key moves: files without events since the key are right under the
   pending texts that belong to it. The key is that of the memory or of the saved state.
   */
  lemma CommitKeepsIndex(log: Log, texts: Texts, key: Key, hi: Key, todo: Files, docs: Index, index: Index,
          pending: Pending)
    requires LogOk(log) && IndexOk(log, texts, key, index, pending)
    requires Reaches(log, hi, todo) && DocsOf(todo, texts, docs)
    requires forall f :: f in todo && Settled(log, f, key) ==> Settled(log, f, hi) && f in pending
    ensures IndexOk(log, texts, key, Committed(index, DeletedOf(todo), docs), pending)
  {
    var after := Committed(index, DeletedOf(todo), docs);
    forall f | Settled(log, f, key) ensures DocOk(Newest(log, f), texts, Lookup(after, f), Lookup(pending, f)) {
      if f in todo {
        FoldIsNewest(log, hi, todo, f);
      }
    }
  }

  /** The last key moves to hi together with the new pending texts. */
  lemma MoveKeepsIndex(log: Log, texts: Texts, lastKey: Key, hi: Key, cache: Files, todo: Files, docs: Index,
          index: Index, before: Pending, after: Pending)
    requires LogOk(log) && IndexOk(log, texts, lastKey, index, before)
    requires Sound(log, cache) && Covers(log, lastKey, cache)
    requires lastKey <= hi && FoldOk(log, lastKey, hi, todo) && DocsOf(todo, texts, docs)
    requires PendingOf(todo, docs, before, after) && OnlyDeadDropped(cache, todo, before, after)
    ensures IndexOk(log, texts, hi, Committed(index, DeletedOf(todo), docs), after)
  {
    var committed := Committed(index, DeletedOf(todo), docs);
    forall f | Settled(log, f, hi) ensures DocOk(Newest(log, f), texts, Lookup(committed, f), Lookup(after, f)) {
      if f in todo {
        FoldIsNewest(log, hi, todo, f);
      } else {
        assert Settled(log, f, lastKey);
        CacheIsNewest(log, lastKey, cache, f);
      }
    }
  }

  // ---------------------------------------------------------------- confluence

  /** Everything is folded, and no pending text is there yet. */
  ghost predicate CaughtUp(log: Log, texts: Texts, lastKey: Key, cache: Files, metas: Files, index: Index,
          pending: Pending) {
    && LogOk(log) && Sound(log, cache) && Sound(log, metas) && Covers(log, lastKey, cache)
    && Covers(log, lastKey, metas)
    && (forall f :: Settled(log, f, lastKey))
    && IndexOk(log, texts, lastKey, index, pending)
    && (forall f :: f in pending ==> pending[f] !in texts)
  }

  /** What one pass over the journal and the texts gives. */
  ghost predicate Canonical(log: Log, texts: Texts, cache: Files, metas: Files, index: Index, pending: Pending) {
    forall f ::
      && Get(cache, f) == Newest(log, f) && Get(metas, f) == Newest(log, f)
      && Lookup(index, f) == CanonicalDoc(log, texts, f) && Lookup(pending, f) == CanonicalPending(log, texts, f)
  }

  ghost function CanonicalDoc(log: Log, texts: Texts, f: FileId): Option<Doc> {
    match Newest(log, f)
    case None => None
    case Some(file) => if file.deleted then None else Some(Doc(file, TextOf(file, texts)))
  }

  ghost function CanonicalPending(log: Log, texts: Texts, f: FileId): Option<string> {
    match Newest(log, f)
    case None => None
    case Some(file) =>
      if !file.deleted && file.textKey != "" && file.textKey !in texts then Some(file.textKey) else None
  }

  /** A live file whose text has been written is indexed with it, and with none as long as it has not. */
  lemma CanonicalText(log: Log, texts: Texts, cache: Files, metas: Files, index: Index, pending: Pending, f: FileId)
    requires Canonical(log, texts, cache, metas, index, pending)
    ensures match Newest(log, f)
            case None => f !in index && f !in pending
            case Some(file) =>
              if file.deleted then f !in index && f !in pending
              else if file.textKey == "" then Lookup(index, f) == Some(Doc(file, None)) && f !in pending
              else if file.textKey in texts then
                Lookup(index, f) == Some(Doc(file, Some(texts[file.textKey]))) && f !in pending
              else Lookup(index, f) == Some(Doc(file, None)) && Lookup(pending, f) == Some(file.textKey)
  {
    assert Lookup(index, f) == CanonicalDoc(log, texts, f) && Lookup(pending, f) == CanonicalPending(log, texts, f);
  }

  lemma CaughtUpIsCanonical(log: Log, texts: Texts, lastKey: Key, cache: Files, metas: Files, index: Index,
          pending: Pending)
    requires CaughtUp(log, texts, lastKey, cache, metas, index, pending)
    ensures Canonical(log, texts, cache, metas, index, pending)
  {
    forall f
      ensures Get(cache, f) == Newest(log, f) && Get(metas, f) == Newest(log, f)
      ensures Lookup(index, f) == CanonicalDoc(log, texts, f) && Lookup(pending, f) == CanonicalPending(log, texts, f)
    {
      assert Settled(log, f, lastKey);
      CacheIsNewest(log, lastKey, cache, f);
      CacheIsNewest(log, lastKey, metas, f);
    }
  }

  /** There is one such state. */
  lemma CanonicalIsUnique(log: Log, texts: Texts,
                          cacheA: Files, metasA: Files, indexA: Index, pendingA: Pending,
                          cacheB: Files, metasB: Files, indexB: Index, pendingB: Pending)
    requires Canonical(log, texts, cacheA, metasA, indexA, pendingA)
      && Canonical(log, texts, cacheB, metasB, indexB, pendingB)
    ensures cacheA == cacheB && metasA == metasB && indexA == indexB && pendingA == pendingB
    ensures indexA.Keys == set f | f in cacheA && !cacheA[f].deleted
  {
    forall f ensures Get(cacheA, f) == Lookup(cacheA, f) && Get(cacheB, f) == Lookup(cacheB, f) {
    }
    forall f ensures Get(metasA, f) == Lookup(metasA, f) && Get(metasB, f) == Lookup(metasB, f) {
    }
    SameLookups(cacheA, cacheB);
    SameLookups(metasA, metasB);
    SameLookups(indexA, indexB);
    SameLookups(pendingA, pendingB);
    forall f ensures f in indexA <==> f in cacheA && !cacheA[f].deleted {
      assert Get(cacheA, f) == Newest(log, f) && Lookup(indexA, f) == CanonicalDoc(log, texts, f);
    }
  }

  /**
   Two indexers over the same journal and texts that have caught up hold the same cache, meta objects,
   index and pending texts, whatever batches, replays, restarts and rebuilds led them there.
   */
  lemma FoldingIsConfluent(log: Log, texts: Texts,
                           lastA: Key, cacheA: Files, metasA: Files, indexA: Index, pendingA: Pending,
                           lastB: Key, cacheB: Files, metasB: Files, indexB: Index, pendingB: Pending)
    requires CaughtUp(log, texts, lastA, cacheA, metasA, indexA, pendingA)
    requires CaughtUp(log, texts, lastB, cacheB, metasB, indexB, pendingB)
    ensures cacheA == cacheB && metasA == metasB && indexA == indexB && pendingA == pendingB
    ensures indexA.Keys == set f | f in cacheA && !cacheA[f].deleted
  {
    CaughtUpIsCanonical(log, texts, lastA, cacheA, metasA, indexA, pendingA);
    CaughtUpIsCanonical(log, texts, lastB, cacheB, metasB, indexB, pendingB);
    CanonicalIsUnique(log, texts, cacheA, metasA, indexA, pendingA, cacheB, metasB, indexB, pendingB);
  }
}
