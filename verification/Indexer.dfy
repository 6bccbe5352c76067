/**
 The indexer: one run at a time folds a page of the journal and newly written texts into its index,
 cache and meta objects, while servers append and extractors write. Every write may be the last one, or
 be applied although it seemed to fail; the process restarts from the saved state, from a published
 snapshot, or by a rebuild. Every method is called with the quality of the state it finds and keeps it.
 */
module Indexer {
  import opened Wrappers
  import opened Faults
  import opened Journal
  import opened States
  import opened FoldFacts
  import opened Folding
  import opened Documents
  import opened IndexerState

  /** The journal and the extracted texts, which others write. */
  class Inputs {
    var log: Log
    var texts: Texts
    /** The newest key a listing has returned; writers' clocks are past it. */
    var listed: Key

    constructor ()
      ensures log == map[] && texts == map[] && listed == 0
    {
      log, texts, listed := map[], map[], 0;
    }

    /** A server appends an event. */
    method Append(key: Key, event: Event)
      requires LogOk(log) && key > listed && key !in log
      modifies this`log
      ensures log == old(log)[key := Stamped(key, event)] && Grown(old(log), texts, listed, log, texts)
      ensures event.OtherEvent? ==> log == old(log)[key := event]
      ensures event.StateEvent? ==>
                var f := event.file;
                && key in log
                && log[key] == StateEvent(File(f.id, f.deleted, f.textKey, f.paths, f.name, f.author, key))
    {
      log := log[key := Stamped(key, event)];
    }

    /** Extraction writes a text, once. */
    method WriteText(key: string, text: string)
      requires LogOk(log) && key !in texts
      modifies this`texts
      ensures texts == old(texts)[key := text] && Grown(log, old(texts), listed, log, texts)
    {
      texts := texts[key := text];
    }

    /** What others may have written since, unless the indexer is alone. */
    method Meanwhile(env: Env)
      requires LogOk(log)
      modifies this`log, this`texts
      ensures Grown(old(log), old(texts), listed, log, texts)
      ensures env.alone ==> log == old(log) && texts == old(texts)
    {
      if !env.alone {
        var key: Key, event: Event := *, *;
        if key > listed && key !in log {
          Append(key, event);
        }
        var name: string, text: string := *, *;
        if name !in texts {
          WriteText(name, text);
        }
      }
    }
  }

  // ---------------------------------------------------------------- reading texts

  /** The pending texts that go with a fold: what is left of the old ones, and none of it was ready. */
  ghost predicate RestOk(cache: Files, todo: Files, ids: set<FileId>, ready: Texts, before: Pending, rest: Pending) {
    && (forall f :: f in rest ==> f in before && rest[f] == before[f])
    && (forall f :: f in rest && f !in todo && f !in ids ==> rest[f] !in ready)
    && (forall f :: f in before && f !in rest ==> f !in cache || cache[f].deleted)
  }

  /** No pending text of a live file was there. */
  ghost predicate NoneReady(pending: Pending, cache: Files, ready: Texts) {
    forall f :: f in pending && f in cache && !cache[f].deleted ==> pending[f] !in ready
  }

  lemma AgainStep(log: Log, after: Key, hi: Key, cache: Files, again: set<FileId>, id: FileId)
    requires id in cache && id !in Todo(log, after, hi, cache, again)
    ensures Todo(log, after, hi, cache, again + {id}) == Todo(log, after, hi, cache, again)[id := cache[id]]
  {
  }

  /** Lets others write; what was true of the growth so far stays true. */
  method Wait(inputs: Inputs, env: Env, ghost log: Log, ghost texts: Texts)
    requires LogOk(inputs.log) && Grown(log, texts, inputs.listed, inputs.log, inputs.texts)
    modifies inputs`log, inputs`texts
    ensures Grown(log, texts, inputs.listed, inputs.log, inputs.texts)
    ensures Grown(old(inputs.log), old(inputs.texts), inputs.listed, inputs.log, inputs.texts)
    ensures env.alone ==> inputs.log == old(inputs.log) && inputs.texts == old(inputs.texts)
  {
    ghost var midLog, midTexts := inputs.log, inputs.texts;
    inputs.Meanwhile(env);
    GrownTransitive(log, texts, inputs.listed, midLog, midTexts, inputs.log, inputs.texts);
  }

  /** One pending file more is looked at: folded, dropped as dead, or not ready. */
  lemma RestStep(cache: Files, todo: Files, more: Files, ids: set<FileId>, ready: Texts, before: Pending, rest: Pending,
          less: Pending, id: FileId)
    requires RestOk(cache, todo, ids, ready, before, rest) && todo.Keys <= more.Keys
    requires less == rest || (less == rest - {id} && (id !in cache || cache[id].deleted))
    requires id in more || id !in less || less[id] !in ready
    ensures RestOk(cache, more, ids - {id}, ready, before, less)
  {
  }

  /** Adds the pending files without a newer event whose text is there by now. */
  method RecheckPending(inputs: Inputs, ghost log: Log, lastKey: Key, hi: Key, cache: Files, pending: Pending,
          changed: Files, env: Env)
    returns (todo: Files, rest: Pending, ok: bool, ghost again: set<FileId>)
    requires LogOk(inputs.log) && changed == Todo(log, lastKey, hi, cache, {})
    modifies inputs`log, inputs`texts
    ensures Grown(old(inputs.log), old(inputs.texts), inputs.listed, inputs.log, inputs.texts)
    ensures env.alone ==> inputs.log == old(inputs.log) && inputs.texts == old(inputs.texts)
    ensures todo == Todo(log, lastKey, hi, cache, again) && again <= pending.Keys
    ensures ok ==> RestOk(cache, todo, {}, old(inputs.texts), pending, rest)
    ensures env.calm ==> ok
  {
    todo, rest, again := changed, pending, {};
    ghost var log0, texts0 := inputs.log, inputs.texts;
    var ids := pending.Keys;
    while ids != {}
      invariant Grown(log0, texts0, inputs.listed, inputs.log, inputs.texts)
      invariant env.alone ==> inputs.log == log0 && inputs.texts == texts0
      invariant todo == Todo(log, lastKey, hi, cache, again) && again <= pending.Keys && ids <= pending.Keys
      invariant RestOk(cache, todo, ids, texts0, pending, rest)
    {
      var id :| id in ids;
      if id in todo {
        RestStep(cache, todo, todo, ids, texts0, pending, rest, rest, id);
      } else if id !in cache || cache[id].deleted {
        RestStep(cache, todo, todo, ids, texts0, pending, rest, rest - {id}, id);
        rest := rest - {id};
      } else {
        Wait(inputs, env, log0, texts0);
        var stopped := Strikes(env.calm);
        if stopped {
          return todo, rest, false, again;
        }
        ghost var less := todo;
        if pending[id] in inputs.texts {
          AgainStep(log, lastKey, hi, cache, again, id);
          todo, again := todo[id := cache[id]], again + {id};
        }
        RestStep(cache, less, todo, ids, texts0, pending, rest, rest, id);
      }
      ids := ids - {id};
    }
    ok := true;
  }

  /** What reading leaves for one file: a document and a pending text, or what there was before. */
  ghost predicate FileRead(todo: Files, left: set<FileId>, f: FileId, texts: Texts, ready: Texts, was: Option<string>,
          doc: Option<Doc>, now: Option<string>) {
    if f !in todo || f in left then doc.None? && now == was
    else if todo[f].deleted then doc.None? && now.None?
    else
      && doc.Some? && doc.value.file == todo[f]
      && (doc.value.text.Some? ==>
            todo[f].textKey != "" && todo[f].textKey in texts && doc.value.text == Some(texts[todo[f].textKey]))
      && now == (if doc.value.text.None? && todo[f].textKey != "" then Some(todo[f].textKey) else None)
      && (now.Some? ==> now.value !in ready)
  }

  /** Documents and pending texts of the files read so far. */
  ghost predicate ReadSoFar(todo: Files, left: set<FileId>, texts: Texts, ready: Texts, rest: Pending, docs: Index,
          after: Pending) {
    forall f :: FileRead(todo, left, f, texts, ready, Lookup(rest, f), Lookup(docs, f), Lookup(after, f))
  }

  lemma ReadStays(todo: Files, left: set<FileId>, texts: Texts, more: Texts, ready: Texts, rest: Pending, docs: Index,
          after: Pending)
    requires ReadSoFar(todo, left, texts, ready, rest, docs, after) && TextsGrow(texts, more)
    ensures ReadSoFar(todo, left, more, ready, rest, docs, after)
  {
    forall f ensures FileRead(todo, left, f, more, ready, Lookup(rest, f), Lookup(docs, f), Lookup(after, f)) {
      assert FileRead(todo, left, f, texts, ready, Lookup(rest, f), Lookup(docs, f), Lookup(after, f));
    }
  }

  function PendingWith(pending: Pending, file: File, f: FileId, content: Option<string>): Pending {
    if !file.deleted && content.None? && file.textKey != "" then pending[f := file.textKey] else pending - {f}
  }

  lemma ReadDeleted(todo: Files, left: set<FileId>, texts: Texts, ready: Texts, rest: Pending, docs: Index,
          after: Pending, f: FileId)
    requires ReadSoFar(todo, left, texts, ready, rest, docs, after) && f in left && f in todo && todo[f].deleted
    ensures ReadSoFar(todo, left - {f}, texts, ready, rest, docs, PendingWith(after, todo[f], f, None))
  {
    var now := PendingWith(after, todo[f], f, None);
    forall g ensures FileRead(todo, left - {f}, g, texts, ready, Lookup(rest, g), Lookup(docs, g), Lookup(now, g)) {
      assert FileRead(todo, left, g, texts, ready, Lookup(rest, g), Lookup(docs, g), Lookup(after, g));
    }
  }

  lemma ReadLive(todo: Files, left: set<FileId>, texts: Texts, ready: Texts, rest: Pending, docs: Index,
          after: Pending, f: FileId)
    requires ReadSoFar(todo, left, texts, ready, rest, docs, after) && f in left && f in todo && !todo[f].deleted
    requires TextsGrow(ready, texts)
    ensures var content := TextOf(todo[f], texts);
            ReadSoFar(todo, left - {f}, texts, ready, rest, docs[f := Doc(todo[f], content)],
              PendingWith(after, todo[f], f, content))
  {
    var content := TextOf(todo[f], texts);
    var more, now := docs[f := Doc(todo[f], content)], PendingWith(after, todo[f], f, content);
    forall g ensures FileRead(todo, left - {f}, g, texts, ready, Lookup(rest, g), Lookup(more, g), Lookup(now, g)) {
      assert FileRead(todo, left, g, texts, ready, Lookup(rest, g), Lookup(docs, g), Lookup(after, g));
    }
  }

  /** The documents read so far: each with the text stored under its text key, or without one and then pending. */
  lemma ReadHaveTexts(todo: Files, left: set<FileId>, texts: Texts, ready: Texts, rest: Pending, docs: Index,
          after: Pending)
    requires ReadSoFar(todo, left, texts, ready, rest, docs, after)
    ensures forall f :: f in docs ==> f in todo && !todo[f].deleted && docs[f].file == todo[f]
    ensures forall f :: f in docs && docs[f].text.Some? ==>
              var key := docs[f].file.textKey; key != "" && key in texts && docs[f].text == Some(texts[key])
    ensures forall f :: f in docs && docs[f].text.None? ==>
              var key := docs[f].file.textKey; key == "" || (key !in ready && f in after && after[f] == key)
  {
    forall f | f in docs
      ensures f in todo && !todo[f].deleted && docs[f].file == todo[f]
      ensures var key := docs[f].file.textKey;
              && (docs[f].text.Some? ==> key != "" && key in texts && docs[f].text == Some(texts[key]))
              && (docs[f].text.None? ==> key == "" || (key !in ready && f in after && after[f] == key))
    {
      assert FileRead(todo, left, f, texts, ready, Lookup(rest, f), Lookup(docs, f), Lookup(after, f));
    }
  }

  /** Reads the texts of the folded files, builds their documents and updates the pending texts. */
  method ReadTexts(inputs: Inputs, todo: Files, rest: Pending, ghost ready: Texts, env: Env)
    returns (docs: Index, deleted: set<FileId>, after: Pending, ok: bool, ghost unread: set<FileId>)
    requires LogOk(inputs.log) && TextsGrow(ready, inputs.texts)
    modifies inputs`log, inputs`texts
    ensures Grown(old(inputs.log), old(inputs.texts), inputs.listed, inputs.log, inputs.texts)
    ensures env.alone ==> inputs.log == old(inputs.log) && inputs.texts == old(inputs.texts)
    ensures ReadSoFar(todo, unread, inputs.texts, ready, rest, docs, after)
    ensures ok ==> unread == {} && deleted == DeletedOf(todo)
    ensures forall f :: f in docs ==> f in todo && !todo[f].deleted && docs[f].file == todo[f]
    ensures forall f :: f in docs && docs[f].text.Some? ==>
              var key := docs[f].file.textKey;
              key != "" && key in inputs.texts && docs[f].text == Some(inputs.texts[key])
    ensures forall f :: f in docs && docs[f].text.None? ==>
              var key := docs[f].file.textKey; key == "" || (key !in ready && f in after && after[f] == key)
    ensures env.calm ==> ok
  {
    docs, deleted, after := map[], {}, rest;
    ghost var log0, texts0 := inputs.log, inputs.texts;
    var left := todo.Keys;
    while left != {}
      invariant Grown(log0, texts0, inputs.listed, inputs.log, inputs.texts) && left <= todo.Keys
      invariant env.alone ==> inputs.log == log0 && inputs.texts == texts0
      invariant deleted == set f | f in todo && f !in left && todo[f].deleted
      invariant ReadSoFar(todo, left, inputs.texts, ready, rest, docs, after)
    {
      var f :| f in left;
      if todo[f].deleted {
        ReadDeleted(todo, left, inputs.texts, ready, rest, docs, after, f);
        deleted, after := deleted + {f}, PendingWith(after, todo[f], f, None);
      } else {
        ghost var before := inputs.texts;
        Wait(inputs, env, log0, texts0);
        ReadStays(todo, left, before, inputs.texts, ready, rest, docs, after);
        var stopped := Strikes(env.calm);
        if stopped {
          ReadHaveTexts(todo, left, inputs.texts, ready, rest, docs, after);
          return docs, deleted, after, false, left;
        }
        var content := TextOf(todo[f], inputs.texts);
        ReadLive(todo, left, inputs.texts, ready, rest, docs, after, f);
        after := PendingWith(after, todo[f], f, content);
        docs := docs[f := Doc(todo[f], content)];
      }
      left := left - {f};
    }
    ReadHaveTexts(todo, {}, inputs.texts, ready, rest, docs, after);
    ok, unread := true, {};
  }

  /** The pending texts that a fold leaves; none of them was ready. */
  ghost predicate FoldPending(cache: Files, todo: Files, docs: Index, ready: Texts, before: Pending, after: Pending) {
    && PendingOf(todo, docs, before, after) && OnlyDeadDropped(cache, todo, before, after)
    && forall f :: f in after ==> after[f] !in ready
  }

  lemma ReadIsPending(cache: Files, todo: Files, texts: Texts, ready: Texts, pending: Pending, rest: Pending,
          docs: Index, after: Pending)
    requires RestOk(cache, todo, {}, ready, pending, rest) && ReadSoFar(todo, {}, texts, ready, rest, docs, after)
    ensures DocsOf(todo, texts, docs) && FoldPending(cache, todo, docs, ready, pending, after)
  {
    ReadIsDocs(todo, texts, ready, rest, docs, after);
    forall f
      ensures f in todo ==> Lookup(after, f) == MissingText(todo, docs, f)
      ensures f !in todo ==> Lookup(after, f) == Lookup(rest, f)
      ensures f in todo && f in after ==> after[f] !in ready
    {
      assert FileRead(todo, {}, f, texts, ready, Lookup(rest, f), Lookup(docs, f), Lookup(after, f));
    }
    forall f ensures f !in todo ==> (f in after <==> f in rest) && (f in after ==> after[f] == rest[f]) {
      assert f !in todo ==> Lookup(after, f) == Lookup(rest, f);
    }
  }

  lemma ReadIsDocs(todo: Files, texts: Texts, ready: Texts, rest: Pending, docs: Index, after: Pending)
    requires ReadSoFar(todo, {}, texts, ready, rest, docs, after)
    ensures DocsOf(todo, texts, docs)
  {
    forall f ensures (f in docs <==> f in todo && !todo[f].deleted)
                     && (f in docs ==> docs[f].file == todo[f] && TextOk(docs[f], todo[f], texts)) {
      assert FileRead(todo, {}, f, texts, ready, Lookup(rest, f), Lookup(docs, f), Lookup(after, f));
    }
  }

  ghost predicate PartOfDocs(some: Staged, docs: Index) {
    forall f :: f in some ==> f in docs && some[f] == Some(docs[f])
  }

  /** Some of the documents read, as they have been handed to the writer in batches. */
  lemma ReadIsFlushed(metas: Files, unread: set<FileId>, texts: Texts, ready: Texts, docs: Index, after: Pending,
          some: Staged)
    requires ReadSoFar(metas, unread, texts, ready, map[], docs, after)
    requires PartOfDocs(some, docs)
    ensures FlushedFrom(metas, ready, texts, some)
  {
    forall f | f in some
      ensures f in metas && !metas[f].deleted && docs[f].file == metas[f]
      ensures docs[f].text.Some? ==> docs[f].text == TextOf(metas[f], texts)
      ensures docs[f].text.None? ==> TextOf(metas[f], ready).None?
    {
      assert FileRead(metas, unread, f, texts, ready, Lookup(map[], f), Lookup(docs, f), Lookup(after, f));
    }
  }

  lemma RebuiltIsRead(metas: Files, texts: Texts, ready: Texts, docs: Index, after: Pending)
    requires ReadSoFar(metas, {}, texts, ready, map[], docs, after)
    ensures RebuiltFrom(metas, texts, docs, after)
  {
    ReadIsDocs(metas, texts, ready, map[], docs, after);
    forall f ensures Lookup(after, f) == MissingText(metas, docs, f) {
      assert FileRead(metas, {}, f, texts, ready, Lookup(map[], f), Lookup(docs, f), Lookup(after, f));
    }
  }

  // ---------------------------------------------------------------- what a run has done

  /** A run that reached its end has folded one page of the journal it listed and left no ready text pending. */
  ghost predicate RunDone(log: Log, from: Key, max: nat, ready: Texts, lastKey: Key, cache: Files, pending: Pending) {
    lastKey == End(Page(log.Keys, from, max), from) && NoneReady(pending, cache, ready)
  }

  ghost predicate StateCaughtUp(s: State) {
    CaughtUp(s.log, s.texts, s.lastKey, s.cache, s.metas, s.index, s.pending)
  }

  /** If the page was not full and nothing was written since, everything is folded. */
  lemma FullRunCatchesUp(s: State, from: Key, max: nat)
    requires Basic(s) && Covered(s) && DocsRight(s)
    requires RunDone(s.log, from, max, s.texts, s.lastKey, s.cache, s.pending)
    requires max > 0 && |Page(s.log.Keys, from, max)| < max
    ensures StateCaughtUp(s)
  {
    PageIsRange(s.log.Keys, from, max);
    forall f, k: Key | IsState(s.log, k, f) ensures k <= s.lastKey {
      assert k !in After(s.log.Keys, s.lastKey);
    }
    forall f | f in s.pending ensures s.pending[f] !in s.texts {
      assert Settled(s.log, f, s.lastKey);
      CacheIsNewest(s.log, s.lastKey, s.cache, f);
      assert DocOk(Newest(s.log, f), s.texts, Lookup(s.index, f), Lookup(s.pending, f));
    }
  }

  /** The folded files that are not left to write. */
  function WrittenOf(todo: Files, left: Files): Files {
    todo - left.Keys
  }

  ghost predicate PartOf(left: Files, todo: Files) {
    forall f :: f in left ==> f in todo && left[f] == todo[f]
  }

  lemma PutStep(m: Files, todo: Files, left: Files, f: FileId)
    requires PartOf(left, todo) && f in left
    ensures (m + WrittenOf(todo, left))[f := left[f]] == m + WrittenOf(todo, left - {f})
    ensures PartOf(left - {f}, todo) && (left - {f}).Keys < left.Keys
  {
    assert f !in (left - {f});
  }

  lemma WrittenAll(m: Files, todo: Files)
    ensures m + WrittenOf(todo, todo) == m && m + WrittenOf(todo, map[]) == m + todo
  {
    assert WrittenOf(todo, todo) == map[] && WrittenOf(todo, map[]) == todo;
  }

  function LaterOf(a: Key, b: Key): Key {
    if b > a then b else a
  }

  /** A page of events moves the last key on. */
  lemma PageMovesOn(keys: set<Key>, from: Key, max: nat)
    requires max > 0 && |Page(keys, from, max)| >= max
    ensures After(keys, End(Page(keys, from, max), from)) < After(keys, from)
  {
    PageIsRange(keys, from, max);
  }

  /** All meta objects but those left are in the cache, and this is the newest event of them. */
  ghost predicate Loaded(metas: Files, left: set<FileId>, cache: Files, newest: Key) {
    && (forall f :: f in metas && f !in left ==> Get(cache, f) == Some(metas[f]) && metas[f].lastEvent <= newest)
    && (newest == 0 || exists f :: f in metas && metas[f].lastEvent == newest)
  }

  lemma LoadStep(metas: Files, left: set<FileId>, cache: Files, newest: Key, f: FileId)
    requires Loaded(metas, left, cache, newest) && f in metas
    ensures Loaded(metas, left - {f}, cache[f := metas[f]], LaterOf(newest, metas[f].lastEvent))
  {
  }

  lemma LoadedAll(metas: Files, cache: Files, newest: Key)
    requires Loaded(metas, {}, cache, newest)
    ensures newest == NewestEvent(metas) && forall f :: f in metas ==> Get(cache, f) == Some(metas[f])
  {
    var keys := LastEvents(metas);
    if newest != 0 {
      var f :| f in metas && metas[f].lastEvent == newest;
      HasNoNewerEvent(metas, f);
      assert newest in keys;
    }
    if keys != {} {
      assert Max(keys) in keys;
      var f :| f in metas && metas[f].lastEvent == Max(keys);
    }
  }

  /** The journal and texts at a moment between two others. */
  ghost predicate Between(log: Log, texts: Texts, listed: Key, at: Log, ready: Texts, moreLog: Log, moreTexts: Texts) {
    Grown(log, texts, listed, at, ready) && Grown(at, ready, listed, moreLog, moreTexts)
  }

  /** Before and after: committed or not, the file has a document it had, and it has not become pending. */
  ghost predicate Kept(s: State, t: State, f: FileId) {
    && HadDoc(s, f, Lookup(t.index, f)) && HadDoc(s, f, Lookup(Applied(t.index, t.staged), f))
    && (f in t.pending ==> f in s.pending)
  }

  ghost predicate HadDoc(s: State, f: FileId, doc: Option<Doc>) {
    doc == Lookup(s.index, f) || doc == Lookup(Applied(s.index, s.staged), f)
  }

  /** Files that a fold leaves out keep what they had. */
  ghost predicate OthersKept(todo: Files, s: State, t: State) {
    forall f :: f !in todo ==> Kept(s, t, f)
  }

  lemma KeptAfter(todo: Files, s: State, t: State, u: State)
    requires OthersKept(todo, s, t) && OthersKept(todo, t, u)
    ensures OthersKept(todo, s, u)
  {
  }

  /** Files without news since then, and not pending then, have the documents they had. */
  ghost predicate KeepsIndex(log: Log, lastKey: Key, s: State, t: State) {
    forall f :: Settled(log, f, lastKey) && f !in s.pending ==> Kept(s, t, f)
  }

  /** What a process that resumed in state s has done to it. */
  ghost predicate Resumed(s: State, t: State) {
    && t.lastKey >= s.lastKey && KeepsIndex(t.log, s.lastKey, s, t)
    && (t.disk == s.disk || t.disk == Some(StateFile(t.lastKey, t.pending, t.generation)))
  }

  ghost predicate SavedIn(s: State) {
    s.disk == Some(StateFile(s.lastKey, s.pending, s.generation))
  }

  /** From s over a foreign index a rebuild, otherwise a run. */
  ghost predicate ContinueEnds(s: State, q: Quality, max: nat, ok: bool, at: Log, ready: Texts, r: Quality, t: State) {
    var from := if Foreign(s) then NewestEvent(s.metas) else s.lastKey;
    && t.published == s.published && Between(s.log, s.texts, s.listed, at, ready, t.log, t.texts)
    && (r == (if Foreign(s) then RebuildQuality(s, q) else q) || (!ok && r == q.(docs := false)))
    && (ok ==> RunDone(at, from, max, ready, t.lastKey, t.cache, t.pending))
    && (ok && SavedIn(s) ==> SavedIn(t)) && (!Foreign(s) ==> Resumed(s, t))
  }

  /**
   A start from s: the quality follows from the way taken, and a finished one has folded and saved the page
   after the key it took over. Files without news keep the documents that were taken over.
   */
  ghost predicate StartEnds(s: State, q: Quality, max: nat, ok: bool, at: Log, ready: Texts, r: Quality, t: State) {
    && t.published == s.published && Between(s.log, s.texts, s.listed, at, ready, t.log, t.texts)
    && (r == StartQuality(s, q) || (!ok && r == q.(docs := false)))
    && (ok ==> SavedIn(t) && RunDone(at, BeginKey(s), max, ready, t.lastKey, t.cache, t.pending))
    && (ok && WayOf(s) != Rebuilds ==> KeepsIndex(t.log, Opened(s).lastKey, Opened(s), t))
    && (WayOf(s) == Resumes ==> t == s || Resumed(Opened(s), t))
  }

  lemma ContinuedStart(s: State, q: Quality, max: nat, ok: bool, at: Log, ready: Texts, r: Quality, t: State)
    requires Differs(s) || s.disk.Some?
    requires ContinueEnds(Opened(s), OpenQuality(s, q), max, ok, at, ready, r, t)
    ensures StartEnds(s, q, max, ok, at, ready, r, t)
  {
    OpenedIs(s, q);
    var o := Opened(s);
    assert Between(o.log, o.texts, o.listed, at, ready, t.log, t.texts) && t.published == o.published;
    assert !Foreign(o) ==> KeepsIndex(t.log, o.lastKey, o, t);
  }

  lemma OpenedIs(s: State, q: Quality)
    requires Differs(s) || s.disk.Some?
    ensures var o := Opened(s);
            && o.log == s.log && o.texts == s.texts && o.listed == s.listed && o.published == s.published && SavedIn(o)
            && BeginKey(s) == (if Foreign(o) then NewestEvent(o.metas) else o.lastKey)
            && (WayOf(s) == Rebuilds <==> Foreign(o))
            && StartQuality(s, q) == (if Foreign(o) then RebuildQuality(o, OpenQuality(s, q)) else OpenQuality(s, q))
            && OpenQuality(s, q).(docs := false) == q.(docs := false)
  {
    var o := Opened(s);
    OpenedFields(s);
    SameRebuildQuality(s, o, q, OpenQuality(s, q));
    assert WayOf(s) == Rebuilds <==> Foreign(o);
  }

  lemma OpenedFields(s: State)
    requires Differs(s) || s.disk.Some?
    ensures var o := Opened(s);
            && o.log == s.log && o.texts == s.texts && o.listed == s.listed && o.published == s.published
            && o.metas == s.metas && SavedIn(o)
  {
    if Differs(s) {
      assert Opened(s).metas == s.metas;
    }
  }

  lemma SameRebuildQuality(s: State, t: State, q: Quality, p: Quality)
    requires t.log == s.log && t.metas == s.metas && p.covered == q.covered && p.snapshot == q.snapshot
    ensures RebuildQuality(t, p) == RebuildQuality(s, q)
  {
  }

  /**
   A rebuild failed: no state file, and an index that is empty or has the documents of the meta objects;
   some of those documents may be uncommitted.
   */
  ghost predicate BareAfter(s: State, t: State) {
    && t.disk == None && t.lastKey == s.lastKey && t.pending == s.pending && t.metas == s.metas
    && (t.index == map[] || DocsOf(s.metas, t.texts, t.index)) && FlushedFrom(s.metas, s.texts, t.texts, t.staged)
  }

  /** A run from s that read the texts at t and folded then: what it leaves out has no news and was not pending. */
  lemma RunKeepsIndex(s: State, t: State, u: State, q: Quality, hi: Key, todo: Files)
    requires t.index == s.index && t.staged == s.staged && t.pending == s.pending && t.lastKey == s.lastKey <= t.listed
    requires Ready(t, q, hi, todo) && Later(t.log, u.log, t.listed) && OthersKept(todo, t, u)
    ensures KeepsIndex(u.log, s.lastKey, s, u)
  {
    forall f | Settled(u.log, f, s.lastKey) && f !in s.pending ensures Kept(s, u, f) {
      SettledBefore(t.log, u.log, t.listed, f, s.lastKey);
      assert f !in todo;
      assert Kept(t, u, f);
    }
  }

  lemma NothingCommitted(index: Index)
    ensures Committed(index, DeletedOf(map[]), map[]) == index
  {
  }

  lemma StagingKeepsOthers(todo: Files, s: State, staged: Staged)
    requires forall f :: f !in todo ==> Lookup(staged, f) == Lookup(s.staged, f)
    ensures OthersKept(todo, s, s.(staged := staged))
  {
    forall f | f !in todo ensures Kept(s, s.(staged := staged), f) {
      AppliedHas(s.index, s.staged, f);
      AppliedHas(s.index, staged, f);
      assert Lookup(staged, f) == Lookup(s.staged, f);
    }
  }

  lemma MovingKeepsOthers(todo: Files, s: State, t: State)
    requires t.index == s.index && t.staged == s.staged
    requires forall f :: f !in todo && f in t.pending ==> f in s.pending
    ensures OthersKept(todo, s, t)
  {
  }

  lemma CommittingKeepsOthers(todo: Files, s: State)
    ensures OthersKept(todo, s, s.(index := Applied(s.index, s.staged), staged := map[]))
    ensures OthersKept(todo, s, s.(staged := map[]))
  {
    AppliedNone(Applied(s.index, s.staged));
    AppliedNone(s.index);
  }

  class Indexer {
    const inputs: Inputs
    // meta objects and snapshots in the bucket
    var metas: Files
    var published: Option<Snapshot>
    // the index directory, and what the index writer holds uncommitted
    var index: Index
    var staged: Staged
    var disk: Option<StateFile>
    // memory
    var cache: Files
    var lastKey: Key
    var pending: Pending
    var generation: nat
    const maxEvents: nat

    function View(): State
      reads this, inputs
    {
      State(inputs.log, inputs.texts, metas, published, index, staged, disk, cache, lastKey, pending, generation,
        inputs.listed)
    }

    /** The state has this quality. */
    ghost predicate Holds(q: Quality)
      reads this, inputs
    {
      maxEvents > 0 && Ok(View(), q)
    }

    /** The state file says what the memory holds. */
    predicate IsSaved()
      reads this
    {
      disk == Some(StateFile(lastKey, pending, generation))
    }

    constructor (inputs: Inputs, maxEvents: nat)
      requires maxEvents > 0 && inputs.log == map[]
      ensures Holds(Quality(true, true, true)) && this.inputs == inputs && this.maxEvents == maxEvents
      ensures metas == map[] && published == None && disk == None && lastKey == 0 && pending == map[]
      ensures index == map[] && staged == map[]
    {
      this.inputs, this.maxEvents := inputs, maxEvents;
      metas, published := map[], None;
      index, staged, disk := map[], map[], None;
      cache, lastKey, pending, generation := map[], 0, map[], 0;
    }

    /** Saves the state file; `ok` means it was seen to be written. */
    method SaveState(env: Env, ghost q: Quality) returns (ok: bool)
      requires Holds(q)
      modifies this`disk
      ensures Holds(q)
      ensures disk == old(disk) || IsSaved()
      ensures ok ==> IsSaved()
      ensures env.calm ==> ok
    {
      SaveKeeps(View(), q);
      var applied;
      applied, ok := Outcome(env.calm);
      if applied {
        disk := Some(StateFile(lastKey, pending, generation));
      }
    }

    // -------------------------------------------------------------- one run

    /** The newest state per file of the next page. */
    method ListPage(ghost q: Quality) returns (changed: Files, hi: Key, n: nat)
      requires Holds(q)
      modifies inputs`listed
      ensures Holds(q) && lastKey <= hi <= inputs.listed && inputs.listed == LaterOf(old(inputs.listed), hi)
      ensures hi == End(Page(inputs.log.Keys, lastKey, maxEvents), lastKey)
      ensures n == |Page(inputs.log.Keys, lastKey, maxEvents)|
      ensures changed == Todo(inputs.log, lastKey, hi, cache, {})
    {
      changed, hi, n := FoldPage(inputs.log, lastKey, maxEvents);
      PageIsRange(inputs.log.Keys, lastKey, maxEvents);
      ListingKeeps(View(), q, LaterOf(inputs.listed, hi));
      inputs.listed := LaterOf(inputs.listed, hi);
    }

    /** A call of the writer that failed may have ended it. */
    method Fails(ghost q: Quality)
      requires Holds(q)
      modifies this`staged
      ensures Holds(q) && OthersKept(map[], old(View()), View()) && (staged == old(staged) || staged == map[])
    {
      LossKeeps(View(), q);
      CommittingKeepsOthers(map[], View());
      var ended: bool := *;
      if ended {
        staged := map[];
      }
    }

    /** Hands changes of these files to the writer, which may not be seen. */
    method Hand(next: Staged, ghost todo: Files, env: Env, ghost q: Quality) returns (seen: bool)
      requires Holds(q) && Ok(View().(staged := next), q)
      requires forall f :: f !in todo ==> Lookup(next, f) == Lookup(staged, f)
      modifies this`staged
      ensures Holds(q) && OthersKept(todo, old(View()), View())
      ensures seen ==> staged == next
      ensures env.calm ==> seen
    {
      var applied;
      applied, seen := Outcome(env.calm);
      if applied {
        StagingKeepsOthers(todo, View(), next);
        staged := next;
      }
    }

    /** Hands changes of these files to the writer; a call that fails may have been applied, and may have ended it. */
    method Stage(next: Staged, ghost todo: Files, env: Env, ghost q: Quality) returns (ok: bool)
      requires Holds(q) && Ok(View().(staged := next), q)
      requires forall f :: f !in todo ==> Lookup(next, f) == Lookup(staged, f)
      modifies this`staged
      ensures Holds(q) && OthersKept(todo, old(View()), View())
      ensures ok ==> staged == next
      ensures env.calm ==> ok
    {
      ghost var s := View();
      ok := Hand(next, todo, env, q);
      if !ok {
        ghost var t := View();
        Fails(q);
        KeptAfter(todo, s, t, View());
      }
    }

    method StageDeletes(hi: Key, todo: Files, deleted: set<FileId>, env: Env, ghost q: Quality) returns (ok: bool)
      requires Holds(q) && Ready(View(), q, hi, todo) && deleted == DeletedOf(todo)
      modifies this`staged
      ensures Holds(q) && OthersKept(todo, old(View()), View())
      ensures ok ==> staged == WithDeleted(old(staged), deleted)
      ensures env.calm ==> ok
    {
      DeletesKeep(View(), q, hi, todo);
      ok := Stage(WithDeleted(staged, deleted), todo, env, q);
    }

    method StageDocs(hi: Key, todo: Files, docs: Index, env: Env, ghost q: Quality) returns (ok: bool)
      requires Holds(q) && Ready(View(), q, hi, todo) && DocsOf(todo, inputs.texts, docs)
      modifies this`staged
      ensures Holds(q) && OthersKept(todo, old(View()), View())
      ensures ok ==> staged == WithDocs(old(staged), docs)
      ensures env.calm ==> ok
    {
      UpsertsKeep(View(), q, hi, todo, docs);
      ok := Stage(WithDocs(staged, docs), todo, env, q);
    }

    /** Deletes and upserts the documents of a fold. */
    method StageFold(hi: Key, todo: Files, docs: Index, deleted: set<FileId>, env: Env, ghost q: Quality)
      returns (ok: bool)
      requires Holds(q) && Ready(View(), q, hi, todo) && DocsOf(todo, inputs.texts, docs) && deleted == DeletedOf(todo)
      modifies this`staged
      ensures Holds(q) && OthersKept(todo, old(View()), View())
      ensures ok ==> staged == WithDocs(WithDeleted(old(staged), deleted), docs)
      ensures env.calm ==> ok
    {
      ghost var s := View();
      ok := StageDeletes(hi, todo, deleted, env, q);
      if !ok {
        return;
      }
      ghost var t := View();
      ok := StageDocs(hi, todo, docs, env, q);
      KeptAfter(todo, s, t, View());
    }

    /** Makes what the writer holds visible at once; a commit that fails may have been applied. */
    method Commit(env: Env, ghost q: Quality) returns (ok: bool)
      requires Holds(q)
      modifies this`index, this`staged
      ensures Holds(q) && OthersKept(map[], old(View()), View())
      ensures (index == Applied(old(index), old(staged)) && staged == map[])
              || (!ok && index == old(index) && (staged == old(staged) || staged == map[]))
      ensures env.calm ==> ok
    {
      var applied;
      applied, ok := Outcome(env.calm);
      if applied {
        CommitKeeps(View(), q);
        CommittingKeepsOthers(map[], View());
        index, staged := Applied(index, staged), map[];
      } else {
        Fails(q);
      }
    }

    /** Deletes, upserts and commits the documents of a fold. */
    method CommitFold(hi: Key, todo: Files, docs: Index, deleted: set<FileId>, env: Env, ghost q: Quality)
      returns (ok: bool)
      requires Holds(q) && Ready(View(), q, hi, todo) && DocsOf(todo, inputs.texts, docs) && deleted == DeletedOf(todo)
      modifies this`index, this`staged
      ensures Holds(q) && OthersKept(todo, old(View()), View())
      ensures ok ==> index == Committed(Applied(old(index), old(staged)), deleted, docs) && staged == map[]
      ensures env.calm ==> ok
    {
      ghost var s := View();
      ok := StageFold(hi, todo, docs, deleted, env, q);
      if !ok {
        return;
      }
      ghost var t := View();
      ok := Commit(env, q);
      KeptAfter(todo, s, t, View());
      FoldApplies(s.index, s.staged, deleted, docs);
    }

    /** Writes one folded file to the cache and then to its meta object. */
    method WriteOne(hi: Key, left: Files, f: FileId, env: Env, ghost q: Quality) returns (ok: bool)
      requires Holds(q) && LeftOk(View(), q, hi, left) && f in left
      modifies this`cache, this`metas
      ensures Holds(q) && (ok ==> LeftOk(View(), q, hi, left - {f}))
      ensures cache == old(cache)[f := left[f]]
      ensures metas == old(metas)[f := left[f]] || (!ok && metas == old(metas))
      ensures env.calm ==> ok
    {
      CachePutKeeps(View(), q, hi, left, f);
      cache := cache[f := left[f]];
      MetaPutKeeps(View(), q, hi, left, f);
      var applied;
      applied, ok := Outcome(env.calm);
      if applied {
        metas := metas[f := left[f]];
      }
    }

    /** Writes every folded file to the cache and to the meta objects. */
    method WriteFold(hi: Key, todo: Files, env: Env, ghost q: Quality) returns (ok: bool)
      requires Holds(q) && Ready(View(), q, hi, todo)
      modifies this`cache, this`metas
      ensures Holds(q)
      ensures ok ==> cache == old(cache) + todo && metas == old(metas) + todo
      ensures ok && q.covered ==> Covers(inputs.log, hi, cache) && Covers(inputs.log, hi, metas)
      ensures env.calm ==> ok
    {
      ReadyToWrite(View(), q, hi, todo);
      WrittenAll(cache, todo);
      WrittenAll(metas, todo);
      var left := todo;
      while left != map[]
        invariant Holds(q) && LeftOk(View(), q, hi, left) && PartOf(left, todo)
        invariant cache == old(cache) + WrittenOf(todo, left) && metas == old(metas) + WrittenOf(todo, left)
        decreases left.Keys
      {
        var f :| f in left;
        PutStep(old(cache), todo, left, f);
        PutStep(old(metas), todo, left, f);
        var written := WriteOne(hi, left, f, env, q);
        if !written {
          return false;
        }
        left := left - {f};
      }
      ok := true;
    }

    /** After the writes: the last key and the pending texts move on, then they are saved. */
    method MoveAndSave(hi: Key, after: Pending, ghost todo: Files, ghost docs: Index, ghost before: Index,
            ghost all: Index, ghost earlier: Files, env: Env, ghost q: Quality) returns (ok: bool)
      requires Holds(q) && Ready(View(), q, hi, todo) && (q.covered ==> Written(View(), hi, todo, earlier, after))
      requires q.covered && q.docs ==> IndexOk(inputs.log, inputs.texts, lastKey, before, pending)
      requires q.covered && q.docs ==> IndexOk(inputs.log, inputs.texts, lastKey, all, pending)
      requires index == Committed(before, DeletedOf(todo), docs) && DocsOf(todo, inputs.texts, docs)
      requires Applied(index, staged) == Committed(all, DeletedOf(todo), docs)
      requires PendingOf(todo, docs, pending, after)
      modifies this`lastKey, this`pending, this`disk
      ensures Holds(q) && lastKey == hi && pending == after
      ensures disk == old(disk) || IsSaved()
      ensures ok ==> IsSaved()
      ensures env.calm ==> ok
    {
      MoveKeeps(View(), q, hi, todo, docs, before, all, earlier, after);
      lastKey, pending := hi, after;
      ok := SaveState(env, q);
    }

    /** The page carries no file state: only the last key moves. */
    method FoldNothing(hi: Key, rest: Pending, ghost ready: Texts, env: Env, ghost q: Quality) returns (ok: bool)
      requires Holds(q) && Ready(View(), q, hi, map[]) && RestOk(cache, map[], {}, ready, pending, rest)
      modifies this`lastKey, this`pending, this`disk
      ensures Holds(q) && lastKey == hi && NoneReady(pending, cache, ready)
      ensures OthersKept(map[], old(View()), View()) && (disk == old(disk) || IsSaved())
      ensures ok ==> IsSaved()
      ensures env.calm ==> ok
    {
      if q.covered {
        FoldIsWrite(inputs.log, metas, lastKey, hi, cache, map[]);
      }
      NothingCommitted(index);
      NothingCommitted(Applied(index, staged));
      ok := MoveAndSave(hi, rest, map[], map[], index, Applied(index, staged), cache, env, q);
    }

    /** Commits the documents, then writes every file. */
    method CommitAndWrite(hi: Key, todo: Files, docs: Index, deleted: set<FileId>, env: Env, ghost q: Quality)
      returns (ok: bool)
      requires Holds(q) && Ready(View(), q, hi, todo) && DocsOf(todo, inputs.texts, docs) && deleted == DeletedOf(todo)
      modifies this`index, this`staged, this`cache, this`metas
      ensures Holds(q) && OthersKept(todo, old(View()), View())
      ensures ok ==> index == Committed(Applied(old(index), old(staged)), deleted, docs) && staged == map[]
      ensures ok ==> cache == old(cache) + todo && metas == old(metas) + todo
      ensures ok && q.covered ==> Covers(inputs.log, hi, cache) && Covers(inputs.log, hi, metas)
      ensures env.calm ==> ok
    {
      ok := CommitFold(hi, todo, docs, deleted, env, q);
      if ok {
        ok := WriteFold(hi, todo, env, q);
      }
    }

    /** Commits, writes every file, and only then moves the last key on. */
    method FoldDocs(hi: Key, todo: Files, docs: Index, deleted: set<FileId>, after: Pending, ghost ready: Texts,
            env: Env, ghost q: Quality) returns (ok: bool)
      requires Holds(q) && Ready(View(), q, hi, todo) && DocsOf(todo, inputs.texts, docs) && deleted == DeletedOf(todo)
      requires FoldPending(cache, todo, docs, ready, pending, after)
      modifies this`index, this`staged, this`cache, this`metas, this`lastKey, this`pending, this`disk
      ensures Holds(q) && (disk == old(disk) || IsSaved())
      ensures lastKey == hi || (!ok && lastKey == old(lastKey))
      ensures ok ==> NoneReady(pending, cache, ready) && IsSaved()
      ensures OthersKept(todo, old(View()), View())
      ensures env.calm ==> ok
    {
      ghost var s := View();
      ghost var all := Applied(index, staged);
      ok := CommitAndWrite(hi, todo, docs, deleted, env, q);
      if !ok {
        return;
      }
      AppliedNone(index);
      ghost var t := View();
      ok := MoveAndSave(hi, after, todo, docs, all, all, s.cache, env, q);
      MovingKeepsOthers(todo, t, View());
      KeptAfter(todo, s, t, View());
    }

    /** Reads the texts of a fold, while others write. */
    method ReadFold(hi: Key, todo: Files, rest: Pending, ghost ready: Texts, env: Env, ghost q: Quality)
      returns (docs: Index, deleted: set<FileId>, after: Pending, ok: bool)
      requires Holds(q) && Ready(View(), q, hi, todo)
      requires RestOk(cache, todo, {}, ready, pending, rest) && TextsGrow(ready, inputs.texts)
      modifies inputs`log, inputs`texts
      ensures Holds(q) && Ready(View(), q, hi, todo)
      ensures Grown(old(inputs.log), old(inputs.texts), inputs.listed, inputs.log, inputs.texts)
      ensures env.alone ==> inputs.log == old(inputs.log) && inputs.texts == old(inputs.texts)
      ensures ok ==> DocsOf(todo, inputs.texts, docs) && deleted == DeletedOf(todo)
      ensures ok ==> FoldPending(cache, todo, docs, ready, pending, after)
      ensures env.calm ==> ok
    {
      ghost var s := View();
      ghost var unread;
      docs, deleted, after, ok, unread := ReadTexts(inputs, todo, rest, ready, env);
      GrowthKeeps(s, q, inputs.log, inputs.texts);
      ReadyStays(s, q, hi, todo, inputs.log, inputs.texts);
      if ok {
        ReadIsPending(cache, todo, inputs.texts, ready, pending, rest, docs, after);
      }
    }

    /** One fold; if the page carries no file state and no text is ready, only the last key moves. */
    method Fold(hi: Key, todo: Files, rest: Pending, ghost ready: Texts, env: Env, ghost q: Quality) returns (ok: bool)
      requires Holds(q) && Ready(View(), q, hi, todo)
      requires RestOk(cache, todo, {}, ready, pending, rest) && TextsGrow(ready, inputs.texts)
      modifies this, inputs`log, inputs`texts
      ensures Holds(q) && Grown(old(inputs.log), old(inputs.texts), inputs.listed, inputs.log, inputs.texts)
      ensures env.alone ==> inputs.log == old(inputs.log) && inputs.texts == old(inputs.texts)
      ensures published == old(published) && generation == old(generation) && (disk == old(disk) || IsSaved())
      ensures lastKey == hi || (!ok && lastKey == old(lastKey))
      ensures ok ==> NoneReady(pending, cache, ready) && IsSaved()
      ensures OthersKept(todo, old(View()), View())
      ensures env.calm ==> ok
    {
      if todo == map[] {
        ok := FoldNothing(hi, rest, ready, env, q);
        return;
      }
      ghost var s := View();
      var docs, deleted, after, read := ReadFold(hi, todo, rest, ready, env, q);
      ghost var t := View();
      MovingKeepsOthers(todo, s, t);
      if !read {
        return false;
      }
      ok := FoldDocs(hi, todo, docs, deleted, after, ready, env, q);
      KeptAfter(todo, s, t, View());
    }

    /** What the page changed, and the pending files whose text is there by now. */
    method Recheck(hi: Key, changed: Files, env: Env, ghost q: Quality) returns (todo: Files, rest: Pending, ok: bool)
      requires Holds(q) && lastKey <= hi <= inputs.listed && changed == Todo(inputs.log, lastKey, hi, cache, {})
      modifies inputs`log, inputs`texts
      ensures Holds(q) && Ready(View(), q, hi, todo)
      ensures Grown(old(inputs.log), old(inputs.texts), inputs.listed, inputs.log, inputs.texts)
      ensures env.alone ==> inputs.log == old(inputs.log) && inputs.texts == old(inputs.texts)
      ensures ok ==> RestOk(cache, todo, {}, old(inputs.texts), pending, rest)
      ensures env.calm ==> ok
    {
      ghost var s := View();
      ghost var again;
      todo, rest, ok, again := RecheckPending(inputs, inputs.log, lastKey, hi, cache, pending, changed, env);
      TodoIsReady(s, q, hi, again);
      GrowthKeeps(s, q, inputs.log, inputs.texts);
      ReadyStays(s, q, hi, todo, inputs.log, inputs.texts);
    }

    /**
     Folds the next page of the journal and the pending texts that are ready, while others write. However
     it ends, the quality of the state is kept, and so are the documents of files without news. When it
     reaches its end the page that was listed is folded and saved, and no text that was ready then is
     pending.
     */
    method RunOnce(env: Env, ghost q: Quality) returns (ok: bool, events: nat)
      requires Holds(q)
      modifies this, inputs
      ensures Holds(q) && lastKey >= old(lastKey)
      ensures inputs.listed == LaterOf(old(inputs.listed),
                End(Page(old(inputs.log).Keys, old(lastKey), maxEvents), old(lastKey)))
      ensures Grown(old(inputs.log), old(inputs.texts), old(inputs.listed), inputs.log, inputs.texts)
      ensures env.alone ==> inputs.log == old(inputs.log) && inputs.texts == old(inputs.texts)
      ensures published == old(published) && generation == old(generation)
      ensures ok ==> RunDone(old(inputs.log), old(lastKey), maxEvents, old(inputs.texts), lastKey, cache, pending)
      ensures ok && (old(IsSaved()) || lastKey != old(lastKey)) ==> IsSaved()
      ensures disk == old(disk) || IsSaved()
      ensures KeepsIndex(inputs.log, old(lastKey), old(View()), View())
      ensures events == |Page(old(inputs.log).Keys, old(lastKey), maxEvents)|
      ensures env.calm ==> ok
    {
      var changed, hi;
      changed, hi, events := ListPage(q);
      ghost var s := View();
      var todo, rest, checked := Recheck(hi, changed, env, q);
      if !checked {
        return false, events;
      }
      if todo == map[] && events == 0 {
        return true, events;
      }
      ghost var t := View();
      ok := Fold(hi, todo, rest, old(inputs.texts), env, q);
      GrownTransitive(s.log, s.texts, s.listed, t.log, t.texts, inputs.log, inputs.texts);
      RunKeepsIndex(s, t, View(), q, hi, todo);
    }

    /** Writes the next pointer, which may fail or be applied unseen. */
    method PutPointer(env: Env, ghost q: Quality) returns (ok: bool, ghost r: Quality)
      requires Holds(q)
      modifies this`published
      ensures Holds(r)
      ensures (!ok && r == q && published == old(published))
              || (r == q.(snapshot := q.covered && q.docs)
                  && published == Some(Snapshot(index, lastKey, pending, GenerationOf(old(published)) + 1)))
      ensures env.calm ==> ok
    {
      r := q;
      PublishKeeps(View(), q);
      var applied;
      applied, ok := Outcome(env.calm);
      if applied {
        published, r := Some(Snapshot(index, lastKey, pending, GenerationOf(published) + 1)),
          q.(snapshot := q.covered && q.docs);
      }
    }

    /** Publishes the index as the next generation and saves that. */
    method Publish(env: Env, ghost q: Quality) returns (ok: bool, ghost r: Quality)
      requires Holds(q)
      modifies this`published, this`generation, this`disk
      ensures Holds(r)
      ensures (!ok && r == q && published == old(published))
              || (r == q.(snapshot := q.covered && q.docs)
                  && published == Some(Snapshot(index, lastKey, pending, GenerationOf(old(published)) + 1)))
      ensures ok ==> generation == GenerationOf(published) && IsSaved()
      ensures disk == old(disk) || IsSaved()
      ensures env.calm ==> ok
    {
      ok, r := PutPointer(env, q);
      if !ok {
        return;
      }
      GenerationKeeps(View(), r, GenerationOf(published));
      generation := GenerationOf(published);
      ok := SaveState(env, r);
    }

    /** Runs while nothing else happens until a page is not full: what one pass over the journal gives. */
    method CatchUp(ghost q: Quality)
      requires Holds(q) && q.covered && q.docs
      modifies this, inputs
      ensures Holds(q) && inputs.log == old(inputs.log) && inputs.texts == old(inputs.texts)
      ensures published == old(published) && generation == old(generation)
      ensures StateCaughtUp(View()) && Canonical(inputs.log, inputs.texts, cache, metas, index, pending)
      ensures forall f, file :: Newest(inputs.log, f) == Some(file) && !file.deleted ==>
                Lookup(index, f) == if file.textKey != "" && file.textKey in inputs.texts
                                    then Some(Doc(file, Some(inputs.texts[file.textKey])))
                                    else Some(Doc(file, None))
    {
      var done := false;
      while !done
        invariant Holds(q) && inputs.log == old(inputs.log) && inputs.texts == old(inputs.texts)
        invariant published == old(published) && generation == old(generation)
        invariant done ==> StateCaughtUp(View())
        decreases !done, After(inputs.log.Keys, lastKey)
      {
        ghost var from := lastKey;
        var ok, events := RunOnce(Env(true, true), q);
        if events < maxEvents {
          FullRunCatchesUp(View(), from, maxEvents);
          done := true;
        } else {
          PageMovesOn(inputs.log.Keys, from, maxEvents);
        }
      }
      CaughtUpIsCanonical(inputs.log, inputs.texts, lastKey, cache, metas, index, pending);
      forall f, file | Newest(inputs.log, f) == Some(file) && !file.deleted
        ensures Lookup(index, f) == if file.textKey != "" && file.textKey in inputs.texts
                                    then Some(Doc(file, Some(inputs.texts[file.textKey])))
                                    else Some(Doc(file, None))
      {
        CanonicalText(inputs.log, inputs.texts, cache, metas, index, pending, f);
      }
    }

    // -------------------------------------------------------------- restarts

    /** The reset of a rebuild; the directory may also be lost, or cleared because of another schema. */
    method Wipe(ghost q: Quality)
      requires Holds(q)
      modifies this`index, this`staged, this`disk
      ensures Holds(q.(docs := false)) && index == map[] && staged == map[] && disk == None
    {
      WipeKeeps(View(), q);
      index, staged, disk := map[], map[], None;
    }

    /** Takes over the saved state and the meta objects. */
    method Resume(ghost q: Quality)
      requires Holds(q) && disk.Some? && !Differs(View())
      modifies this`staged, this`cache, this`lastKey, this`pending, this`generation
      ensures Holds(q) && View() == Opened(old(View()))
      ensures IsSaved() && cache == metas && staged == map[]
    {
      ResumeKeeps(View(), q);
      staged := map[];
      cache, lastKey, pending, generation := metas, disk.value.lastKey, disk.value.pending, disk.value.generation;
    }

    /** Ends the writer and puts the published index in place, if that succeeds. */
    method Download(env: Env, ghost q: Quality) returns (ok: bool)
      requires Holds(q) && published.Some?
      modifies this`index, this`staged
      ensures Holds(q.(docs := false)) && staged == map[]
      ensures index == old(index) || index == published.value.index
      ensures ok ==> index == published.value.index
      ensures env.calm ==> ok
    {
      var applied;
      applied, ok := Outcome(env.calm);
      if applied {
        SwapKeeps(View(), q, published.value.index, map[]);
        index, staged := published.value.index, map[];
      } else {
        SwapKeeps(View(), q, index, map[]);
        staged := map[];
      }
    }

    /** Replaces the directory by the published snapshot: its index, then the state file, then the cache. */
    method Adopt(env: Env, ghost q: Quality) returns (ok: bool, ghost r: Quality)
      requires Holds(q) && Differs(View())
      modifies this`index, this`staged, this`disk, this`cache, this`lastKey, this`pending, this`generation
      ensures Holds(r) && (r == q.(docs := q.snapshot) || (!ok && r == q.(docs := false) && disk == old(disk)))
      ensures ok ==> View() == Adopted(old(View()), published.value).(cache := metas)
      ensures ok ==>
                var p := published.value;
                && index == p.index && staged == map[] && cache == metas
                && lastKey == p.lastKey && pending == p.pending && generation == p.generation && IsSaved()
      ensures env.calm ==> ok
    {
      var p := published.value;
      AdoptKeeps(View(), q);
      r := q.(docs := false);
      ok := Download(env, q);
      if !ok {
        return;
      }
      var applied, seen := Outcome(env.calm);
      if applied {
        disk := Some(StateFile(p.lastKey, p.pending, p.generation));
        lastKey, pending, generation := p.lastKey, p.pending, p.generation;
        r := q.(docs := q.snapshot);
      }
      var stopped := Strikes(env.calm);
      ok := seen && !stopped;
      if ok {
        cache := metas;
      }
    }

    /** Copies the meta objects into the cache, over what it held. */
    method LoadCache(env: Env, ghost q: Quality) returns (newest: Key, ok: bool)
      requires Holds(q)
      modifies this`cache
      ensures Holds(q)
      ensures ok ==> newest == NewestEvent(metas) && forall f :: f in metas ==> Get(cache, f) == Some(metas[f])
      ensures env.calm ==> ok
    {
      newest := 0;
      var left := metas.Keys;
      while left != {}
        invariant Holds(q) && left <= metas.Keys && Loaded(metas, left, cache, newest)
      {
        var stopped := Strikes(env.calm);
        if stopped {
          return newest, false;
        }
        var f :| f in left;
        LoadKeeps(View(), q, f);
        LoadStep(metas, left, cache, newest, f);
        newest := LaterOf(newest, metas[f].lastEvent);
        cache := cache[f := metas[f]];
        left := left - {f};
      }
      LoadedAll(metas, cache, newest);
      ok := true;
    }

    /** The cache loaded from all meta objects, and their documents, as many as could be read. */
    method LoadAndRead(env: Env, ghost q: Quality)
      returns (newest: Key, docs: Index, after: Pending, ok: bool, ghost unread: set<FileId>)
      requires Holds(q)
      modifies this`cache, inputs`log, inputs`texts
      ensures Holds(q) && Grown(old(inputs.log), old(inputs.texts), inputs.listed, inputs.log, inputs.texts)
      ensures env.alone ==> inputs.log == old(inputs.log) && inputs.texts == old(inputs.texts)
      ensures ReadSoFar(metas, unread, inputs.texts, old(inputs.texts), map[], docs, after)
      ensures RebuildQuality(View(), q) == RebuildQuality(old(View()), q)
      ensures ok ==> RebuiltFrom(metas, inputs.texts, docs, after) && newest == NewestEvent(metas)
      ensures ok ==> forall f :: f in metas ==> Get(cache, f) == Some(metas[f])
      ensures env.calm ==> ok
    {
      newest, ok := LoadCache(env, q);
      if !ok {
        return newest, map[], map[], false, metas.Keys;
      }
      ghost var s := View();
      var deleted;
      docs, deleted, after, ok, unread := ReadTexts(inputs, metas, map[], inputs.texts, env);
      GrowthKeeps(s, q, inputs.log, inputs.texts);
      RebuildQualityStays(s, q, inputs.log, inputs.texts);
      if ok {
        RebuiltIsRead(metas, inputs.texts, s.texts, docs, after);
      }
    }

    /** Some of these documents have been handed to the writer, which goes on with them or has ended. */
    method Flush(docs: Index, ghost q: Quality)
      requires Holds(q) && !q.docs && staged == map[]
      modifies this`staged
      ensures Holds(q) && PartOfDocs(staged, docs)
    {
      var some: set<FileId> := *;
      ghost var s := View();
      staged := map f | f in docs && f in some :: Some(docs[f]);
      SwapKeeps(s, q, index, staged);
    }

    /** Upserts the rebuilt documents and commits them. */
    method CommitRebuilt(docs: Index, env: Env, ghost q: Quality) returns (ok: bool)
      requires Holds(q) && !q.docs && index == map[] && staged == map[]
      modifies this`index, this`staged
      ensures Holds(q) && (index == map[] || index == docs) && (ok ==> index == docs && staged == map[])
      ensures PartOfDocs(staged, docs)
      ensures env.calm ==> ok
    {
      var applied, seen := Outcome(env.calm);
      if !seen {
        Flush(docs, q);
        return false;
      }
      ghost var s := View();
      DocsApply(map[], map[], docs);
      assert Applied(map[], WithDocs(map[], docs)) == docs;
      SwapKeeps(s, q, map[], WithDocs(map[], docs));
      staged := WithDocs(staged, docs);
      ok := Commit(env, q);
    }

    /** The last key and the pending texts of a rebuild go with its index, and are saved. */
    method TakeRebuilt(newest: Key, after: Pending, env: Env, ghost q: Quality) returns (ok: bool, ghost r: Quality)
      requires Holds(q) && disk == None && staged == map[] && newest == NewestEvent(metas)
      requires RebuiltFrom(metas, inputs.texts, index, after)
        && forall f :: f in metas ==> Get(cache, f) == Some(metas[f])
      modifies this`disk, this`lastKey, this`pending
      ensures Holds(r) && r == RebuildQuality(old(View()), q) && lastKey == newest && pending == after
      ensures ok ==> IsSaved()
      ensures env.calm ==> ok
    {
      ghost var s := View();
      RebuildKeeps(s, q, index, after);
      r := RebuildQuality(s, q);
      lastKey, pending := newest, after;
      assert View() == Rebuilt(s, index, after);
      ok := SaveState(env, r);
    }

    /** Commits the rebuilt index and starts from the newest event of the meta objects. */
    method Replace(newest: Key, docs: Index, after: Pending, env: Env, ghost q: Quality)
      returns (ok: bool, ghost r: Quality)
      requires Holds(q) && !q.docs && disk == None && index == map[] && staged == map[] && newest == NewestEvent(metas)
      requires RebuiltFrom(metas, inputs.texts, docs, after)
        && forall f :: f in metas ==> Get(cache, f) == Some(metas[f])
      modifies this`index, this`staged, this`disk, this`lastKey, this`pending
      ensures Holds(r) && (index == map[] || index == docs)
      ensures PartOfDocs(staged, docs)
      ensures (r == q && !ok && disk == None && lastKey == old(lastKey) && pending == old(pending))
              || (r == RebuildQuality(old(View()), q) && lastKey == newest && index == docs && pending == after)
      ensures ok ==> IsSaved()
      ensures env.calm ==> ok
    {
      r := q;
      ok := CommitRebuilt(docs, env, q);
      if ok {
        ok, r := TakeRebuilt(newest, after, env, q);
      }
    }

    /** Fills the emptied index from the meta objects, while others write. */
    method Reindex(env: Env, ghost q: Quality) returns (ok: bool, ghost r: Quality)
      requires Holds(q) && !q.docs && disk == None && index == map[] && staged == map[]
      modifies this`index, this`staged, this`disk, this`cache, this`lastKey, this`pending, inputs`log, inputs`texts
      ensures Holds(r) && Grown(old(inputs.log), old(inputs.texts), inputs.listed, inputs.log, inputs.texts)
      ensures env.alone ==> inputs.log == old(inputs.log) && inputs.texts == old(inputs.texts)
      ensures (r == q && !ok && disk == None && lastKey == old(lastKey) && pending == old(pending))
              || (r == RebuildQuality(old(View()), q) && lastKey == NewestEvent(metas))
      ensures FlushedFrom(metas, old(inputs.texts), inputs.texts, staged)
      ensures index == map[] || DocsOf(metas, inputs.texts, index)
      ensures ok ==> IsSaved()
      ensures env.calm ==> ok
    {
      ghost var ready := inputs.texts;
      r := q;
      var newest, docs, after, read, unread := LoadAndRead(env, q);
      if !read {
        ok := false;
        Flush(docs, q);
      } else {
        ok, r := Replace(newest, docs, after, env, q);
      }
      ReadIsFlushed(metas, unread, inputs.texts, ready, docs, after, staged);
    }

    /**
     A rebuild: empty the index, reindex the meta objects, fold what came after the newest of them. What it
     promises depends on whether the meta objects were prefix-closed. If it fails before the last key moved,
     the memory is as before over an index that is not. `readable` says that the inputs can be read.
     */
    method Rebuild(env: Env, readable: bool, ghost q: Quality)
      returns (ok: bool, ghost at: Log, ghost ready: Texts, ghost r: Quality)
      requires Holds(q)
      modifies this, inputs
      ensures Holds(r) && published == old(published) && generation == old(generation)
      ensures Between(old(inputs.log), old(inputs.texts), old(inputs.listed), at, ready, inputs.log, inputs.texts)
      ensures env.alone ==> inputs.log == old(inputs.log) && inputs.texts == old(inputs.texts)
      ensures r == RebuildQuality(old(View()), q)
              || (!ok && r == q.(docs := false) && disk == None && lastKey == old(lastKey) && pending == old(pending))
      ensures ok ==> IsSaved() && RunDone(at, NewestEvent(old(metas)), maxEvents, ready, lastKey, cache, pending)
      ensures r != RebuildQuality(old(View()), q) ==> BareAfter(old(View()), View())
      ensures !readable ==> !ok && r == q.(docs := false) && index == map[] && staged == map[] && disk == None
      ensures !readable ==> metas == old(metas) && cache == old(cache)
      ensures !readable ==> lastKey == old(lastKey) && pending == old(pending) && inputs.listed == old(inputs.listed)
      ensures env.calm && readable ==> ok
    {
      at, ready := inputs.log, inputs.texts;
      ghost var s := View();
      Wipe(q);
      r := q.(docs := false);
      var stopped := Strikes(env.calm);
      if stopped || !readable {
        return false, at, ready, r;
      }
      ok, r := Reindex(env, r);
      at, ready := inputs.log, inputs.texts;
      if ok {
        var events;
        ok, events := RunOnce(env, r);
        GrownTransitive(s.log, s.texts, s.listed, at, ready, inputs.log, inputs.texts);
      }
    }

    /** Adopts a generation that the directory does not match, or resumes. */
    method Open(env: Env, ghost q: Quality) returns (ok: bool, ghost r: Quality)
      requires Holds(q) && (Differs(View()) || disk.Some?)
      modifies this`index, this`staged, this`disk, this`cache, this`lastKey, this`pending, this`generation
      ensures Holds(r) && (r == OpenQuality(old(View()), q) || (!ok && r == q.(docs := false)))
      ensures ok ==> View() == Opened(old(View()))
      ensures !ok && !Differs(old(View())) ==> View() == old(View())
      ensures env.calm ==> ok
    {
      if published.Some? && (disk.None? || disk.value.generation != published.value.generation) {
        ok, r := Adopt(env, q);
      } else {
        r := q;
        var stopped := Strikes(env.calm);
        if stopped {
          return false, r;
        }
        Resume(q);
        ok := true;
      }
    }

    /** Documents without meta objects belong to another bucket: the index is rebuilt. Otherwise a page is folded. */
    method Continue(env: Env, ghost q: Quality) returns (ok: bool, ghost at: Log, ghost ready: Texts, ghost r: Quality)
      requires Holds(q)
      modifies this, inputs
      ensures Holds(r) && ContinueEnds(old(View()), q, maxEvents, ok, at, ready, r, View())
      ensures generation == old(generation)
      ensures env.alone ==> inputs.log == old(inputs.log) && inputs.texts == old(inputs.texts)
      ensures env.calm ==> ok
    {
      if metas == map[] && index != map[] {
        ok, at, ready, r := Rebuild(env, true, q);
      } else {
        at, ready, r := inputs.log, inputs.texts, q;
        var events;
        ok, events := RunOnce(env, r);
      }
    }

    method OpenAndContinue(env: Env, ghost q: Quality)
      returns (ok: bool, ghost at: Log, ghost ready: Texts, ghost r: Quality)
      requires Holds(q) && (Differs(View()) || disk.Some?)
      modifies this, inputs
      ensures Holds(r) && StartEnds(old(View()), q, maxEvents, ok, at, ready, r, View())
      ensures ok && published.Some? ==> generation == published.value.generation
      ensures env.alone ==> inputs.log == old(inputs.log) && inputs.texts == old(inputs.texts)
      ensures env.calm ==> ok
    {
      ghost var s := View();
      ok, r := Open(env, q);
      if ok {
        ok, at, ready, r := Continue(env, r);
        ContinuedStart(s, q, maxEvents, ok, at, ready, r, View());
      } else {
        at, ready := inputs.log, inputs.texts;
        r := if WayOf(s) == Rebuilds then q.(docs := false) else r;
      }
    }

    /**
     Makes directory and memory consistent with the bucket, then folds a page. A failed start ends the
     process; it leaves the quality that the way it took promises, or one without documents.
     */
    method Start(env: Env, ghost q: Quality) returns (ok: bool, ghost at: Log, ghost ready: Texts, ghost r: Quality)
      requires Holds(q)
      modifies this, inputs
      ensures Holds(r) && StartEnds(old(View()), q, maxEvents, ok, at, ready, r, View())
      ensures ok && published.Some? ==> generation == published.value.generation
      ensures env.alone ==> inputs.log == old(inputs.log) && inputs.texts == old(inputs.texts)
      ensures env.calm ==> ok
    {
      if disk.None? && published.None? {
        ok, at, ready, r := Rebuild(env, true, q);
      } else {
        ok, at, ready, r := OpenAndContinue(env, q);
      }
    }
  }

  /**
   Two indexers over the same journal and texts, whatever runs, faults, restarts and rebuilds led them to
   where their documents are right, end with the same cache, meta objects, index and pending texts.
   */
  method RunsAreConfluent(a: Indexer, b: Indexer, ghost p: Quality, ghost q: Quality)
    requires a != b && a.inputs != b.inputs && a.inputs.log == b.inputs.log && a.inputs.texts == b.inputs.texts
    requires a.Holds(p) && p.covered && p.docs && b.Holds(q) && q.covered && q.docs
    modifies a, a.inputs, b, b.inputs
    ensures a.cache == b.cache && a.metas == b.metas && a.index == b.index && a.pending == b.pending
    ensures a.index.Keys == set f | f in a.cache && !a.cache[f].deleted
  {
    a.CatchUp(p);
    b.CatchUp(q);
    CanonicalIsUnique(a.inputs.log, a.inputs.texts,
                      a.cache, a.metas, a.index, a.pending, b.cache, b.metas, b.index, b.pending);
  }
}
