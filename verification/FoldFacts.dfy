/**
 One fold of a batch of events: what it computes, and what writing it file by file keeps.
 */
module FoldFacts {
  import opened Wrappers
  import opened Journal
  import opened States

  /** A fold takes the newest state per listed file, and cached files whose text is read again. */
  function Todo(log: Log, after: Key, hi: Key, cache: Files, again: set<FileId>): Files {
    var newest := Overlay(Cut(log, hi), after);
    map f | f in newest.Keys + (again * cache.Keys) :: if f in newest then newest[f] else cache[f]
  }

  /** Every state event in (lo, hi] is of a file that the change names. */
  ghost predicate Names(log: Log, lo: Key, hi: Key, full: bool, changed: set<FileId>) {
    full || forall k :: k in log && lo < k <= hi && log[k].StateEvent? ==> log[k].file.id in changed
  }

  /** A fold of the events in (after, hi]: newer than all of them, and complete. */
  ghost predicate FoldOk(log: Log, after: Key, hi: Key, todo: Files) {
    && Sound(log, todo)
    && (forall f :: f in todo ==> CoversFile(log, hi, todo, f))
    && Names(log, after, hi, false, todo.Keys)
  }

  /** What is not left to write is written. */
  ghost predicate WriteOk(log: Log, metas: Files, hi: Key, cache: Files, left: Files) {
    && Sound(log, left)
    && (forall f :: f in left ==> CoversFile(log, hi, left, f))
    && (forall f :: f !in left ==> CoversFile(log, hi, cache, f) && CoversFile(log, hi, metas, f))
  }

  lemma TodoIsFold(log: Log, after: Key, hi: Key, cache: Files, again: set<FileId>)
    requires LogOk(log) && Sound(log, cache) && Covers(log, after, cache) && after <= hi
    ensures FoldOk(log, after, hi, Todo(log, after, hi, cache, again))
  {
    var cut := Cut(log, hi);
    var newest, todo := Overlay(cut, after), Todo(log, after, hi, cache, again);
    forall f | f in todo
      ensures CoversFile(log, hi, todo, f)
      ensures IsState(log, todo[f].lastEvent, f) && log[todo[f].lastEvent].file == todo[f]
    {
      OverlayHas(cut, after, f);
      NewestAfterIs(cut, f, after);
      assert CoversFile(log, after, cache, f);
      forall k: Key | IsState(log, k, f) && k <= hi ensures k <= todo[f].lastEvent {
        assert IsState(cut, k, f);
      }
    }
    forall k | k in log && after < k <= hi && log[k].StateEvent? ensures log[k].file.id in todo {
      var f := log[k].file.id;
      assert IsState(cut, k, f);
      OverlayHas(cut, after, f);
      NewestAfterIs(cut, f, after);
    }
  }

  lemma TodoIsSound(log: Log, after: Key, hi: Key, cache: Files, again: set<FileId>)
    requires LogOk(log) && Sound(log, cache)
    ensures Sound(log, Todo(log, after, hi, cache, again))
  {
    var cut, todo := Cut(log, hi), Todo(log, after, hi, cache, again);
    forall f | f in todo ensures IsState(log, todo[f].lastEvent, f) && log[todo[f].lastEvent].file == todo[f] {
      OverlayHas(cut, after, f);
      NewestAfterIs(cut, f, after);
    }
  }

  /** A fold that is complete leaves the other files as covered as they were. */
  lemma FoldIsWrite(log: Log, metas: Files, after: Key, hi: Key, cache: Files, todo: Files)
    requires FoldOk(log, after, hi, todo) && Covers(log, after, cache) && Covers(log, after, metas)
    ensures WriteOk(log, metas, hi, cache, todo)
  {
    forall f | f !in todo ensures CoversFile(log, hi, cache, f) && CoversFile(log, hi, metas, f) {
      assert CoversFile(log, after, cache, f) && CoversFile(log, after, metas, f);
      forall k: Key | IsState(log, k, f) && k <= hi ensures k <= after {
      }
    }
  }

  /** Writing a file's newer state keeps a map covered. */
  lemma PutKeepsCovers(log: Log, until: Key, hi: Key, m: Files, left: Files, f: FileId)
    requires Covers(log, until, m) && f in left && CoversFile(log, hi, left, f)
    requires until <= hi || NoneBetween(log, hi, until)
    ensures Covers(log, until, m[f := left[f]])
  {
    var put := m[f := left[f]];
    forall g ensures CoversFile(log, until, put, g) {
      assert CoversFile(log, until, m, g);
    }
  }

  /** Writing the meta object of a cached state leaves the others to write. */
  lemma PutWrites(log: Log, metas: Files, hi: Key, cache: Files, left: Files, f: FileId)
    requires WriteOk(log, metas, hi, cache, left) && f in left && Get(cache, f) == Some(left[f])
    ensures WriteOk(log, metas[f := left[f]], hi, cache, left - {f})
  {
    var after, rest := metas[f := left[f]], left - {f};
    assert CoversFile(log, hi, left, f);
    forall g ensures g in rest ==> CoversFile(log, hi, rest, g) {
      assert g in rest ==> CoversFile(log, hi, left, g);
    }
    forall g | g !in rest ensures CoversFile(log, hi, cache, g) && CoversFile(log, hi, after, g) {
      assert g != f ==> CoversFile(log, hi, metas, g);
    }
  }

  lemma OverlayIsBounded(log: Log, hi: Key, after: Key)
    requires LogOk(log)
    ensures Bounded(Overlay(Cut(log, hi), after), hi)
  {
    var cut := Cut(log, hi);
    forall f | f in Overlay(cut, after) ensures Overlay(cut, after)[f].lastEvent <= hi {
      OverlayHas(cut, after, f);
      NewestAfterIs(cut, f, after);
    }
  }

  lemma TodoIsBounded(log: Log, after: Key, hi: Key, cache: Files, again: set<FileId>, listed: Key)
    requires LogOk(log) && hi <= listed && Bounded(cache, listed)
    ensures Bounded(Todo(log, after, hi, cache, again), listed)
  {
    OverlayIsBounded(log, hi, after);
  }

  // ---------------------------------------------------------------- the journal grows

  /** What arrived came after every listed key. */
  ghost predicate Later(log: Log, grown: Log, listed: Key) {
    Extends(log, grown) && forall k :: k in grown && k <= listed ==> k in log
  }

  lemma NoneStays(log: Log, grown: Log, listed: Key, lo: Key, hi: Key)
    requires Later(log, grown, listed) && hi <= listed
    ensures NoneBetween(log, lo, hi) <==> NoneBetween(grown, lo, hi)
  {
    forall k | k in log && lo < k <= hi ensures k in grown && grown[k] == log[k] {
    }
  }

  lemma NamesStay(log: Log, grown: Log, listed: Key, lo: Key, hi: Key, full: bool, changed: set<FileId>)
    requires Later(log, grown, listed) && hi <= listed && Names(log, lo, hi, full, changed)
    ensures Names(grown, lo, hi, full, changed)
  {
  }

  lemma CoverageStays(log: Log, grown: Log, listed: Key, until: Key, m: Files)
    requires Later(log, grown, listed) && until <= listed
    ensures forall f :: CoversFile(log, until, m, f) ==> CoversFile(grown, until, m, f)
    ensures Covers(log, until, m) ==> Covers(grown, until, m)
  {
    forall f, k: Key | CoversFile(log, until, m, f) && IsState(grown, k, f) && k <= until
      ensures f in m && k <= m[f].lastEvent
    {
      assert IsState(log, k, f);
    }
  }

  lemma SoundStays(log: Log, grown: Log, m: Files)
    requires Extends(log, grown) && Sound(log, m)
    ensures Sound(grown, m)
  {
  }

  lemma FoldStays(log: Log, grown: Log, listed: Key, after: Key, hi: Key, todo: Files)
    requires Later(log, grown, listed) && hi <= listed && FoldOk(log, after, hi, todo)
    ensures FoldOk(grown, after, hi, todo)
  {
    SoundStays(log, grown, todo);
    CoverageStays(log, grown, listed, hi, todo);
    NamesStay(log, grown, listed, after, hi, false, todo.Keys);
  }

  lemma WriteStays(log: Log, grown: Log, listed: Key, metas: Files, hi: Key, cache: Files, left: Files)
    requires Later(log, grown, listed) && hi <= listed && WriteOk(log, metas, hi, cache, left)
    ensures WriteOk(grown, metas, hi, cache, left)
  {
    SoundStays(log, grown, left);
    CoverageStays(log, grown, listed, hi, left);
    CoverageStays(log, grown, listed, hi, cache);
    CoverageStays(log, grown, listed, hi, metas);
  }

  // ---------------------------------------------------------------- meta objects

  function LastEvents(m: Files): set<Key> {
    set f | f in m :: m[f].lastEvent
  }

  function NewestEvent(m: Files): Key {
    var keys := LastEvents(m);
    if keys == {} then 0 else Max(keys)
  }

  /** Every meta object is its file's last state event up to the newest event any of them has. */
  ghost predicate PrefixClosed(log: Log, metas: Files) {
    Covers(log, NewestEvent(metas), metas)
  }

  lemma HasNoNewerEvent(metas: Files, f: FileId)
    requires f in metas
    ensures metas[f].lastEvent <= NewestEvent(metas)
  {
    assert metas[f].lastEvent in LastEvents(metas);
  }

  /** Meta objects that cover a key have no event after their newest one up to that key. */
  lemma NewestEventReaches(log: Log, until: Key, metas: Files)
    requires Covers(log, until, metas)
    ensures NoneBetween(log, NewestEvent(metas), until)
  {
    forall k | k in log && NewestEvent(metas) < k <= until ensures !log[k].StateEvent? {
      if log[k].StateEvent? {
        var f := log[k].file.id;
        assert CoversFile(log, until, metas, f) && IsState(log, k, f);
        HasNoNewerEvent(metas, f);
        assert false;
      }
    }
  }

  /** What arrives later does not change whether meta objects are prefix-closed. */
  lemma PrefixClosedStays(log: Log, grown: Log, listed: Key, metas: Files)
    requires Later(log, grown, listed) && NewestEvent(metas) <= listed
    ensures PrefixClosed(log, metas) <==> PrefixClosed(grown, metas)
  {
    CoverageStays(log, grown, listed, NewestEvent(metas), metas);
    if PrefixClosed(grown, metas) {
      forall f, k: Key | IsState(log, k, f) && k <= NewestEvent(metas) ensures f in metas && k <= metas[f].lastEvent {
        assert IsState(grown, k, f) && CoversFile(grown, NewestEvent(metas), metas, f);
      }
    }
  }
}
