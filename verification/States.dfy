/**
 The simple specification of the Drive: the state of a file is its last state event in the journal.
 Caches, meta objects and overlays are maps from files to states; this module says when such a map
 is right about a part of the journal and what patching it with the rest gives.
 */
module States {
  import opened Wrappers
  import opened Journal

  type Files = map<FileId, File>

  ghost predicate IsMax(keys: set<Key>, m: Key) {
    m in keys && forall k :: k in keys ==> k <= m
  }

  lemma {:induction false} HasMax(keys: set<Key>) returns (m: Key)
    requires keys != {}
    ensures IsMax(keys, m)
  {
    var x :| x in keys;
    var rest := keys - {x};
    if rest == {} {
      m := x;
      assert keys == {x};
    } else {
      var most := HasMax(rest);
      m := if x > most then x else most;
      assert forall k :: k in keys ==> k == x || k in rest;
    }
  }

  function Max(keys: set<Key>): (m: Key)
    requires keys != {}
    ensures IsMax(keys, m)
  {
    assert exists m :: IsMax(keys, m) by {
      var m := HasMax(keys);
    }
    var m :| m in keys && forall k :: k in keys ==> k <= m;
    m
  }

  // ---------------------------------------------------------------- the specification

  /** Event k is a state of file f. */
  predicate IsState(log: Log, k: Key, f: FileId) {
    k in log && log[k].StateEvent? && log[k].file.id == f
  }

  /** Keys are not empty, and a state knows the key of its event. */
  ghost predicate LogOk(log: Log) {
    forall k :: k in log ==> k > 0 && (log[k].StateEvent? ==> log[k].file.lastEvent == k)
  }

  function StatesAfter(log: Log, f: FileId, after: Key): set<Key> {
    set k | k in log && after < k && IsState(log, k, f)
  }

  function NewestAfter(log: Log, f: FileId, after: Key): Option<File> {
    var keys := StatesAfter(log, f, after);
    if keys == {} then None else Some(log[Max(keys)].file)
  }

  /** The state of a file: its last state event. */
  function Newest(log: Log, f: FileId): Option<File> {
    NewestAfter(log, f, 0)
  }

  function FilesAfter(log: Log, after: Key): set<FileId> {
    set k | k in log && after < k && log[k].StateEvent? :: log[k].file.id
  }

  /** The newest state of every file with a state event after `after`. */
  function Overlay(log: Log, after: Key): Files {
    map f | f in FilesAfter(log, after) && NewestAfter(log, f, after).Some? :: NewestAfter(log, f, after).value
  }

  /** The journal up to a key. */
  function Cut(log: Log, until: Key): Log {
    map k | k in log && k <= until :: log[k]
  }

  function Get(m: Files, f: FileId): Option<File> {
    if f in m then Some(m[f]) else None
  }

  /** What a reader sees: the overlay wins over the cache. */
  function Patched(overlay: Files, cache: Files, f: FileId): Option<File> {
    if f in overlay then Some(overlay[f]) else Get(cache, f)
  }

  // ---------------------------------------------------------------- when a map is right

  /** Every entry is what some event of its file says. */
  ghost predicate Sound(log: Log, m: Files) {
    forall f :: f in m ==> IsState(log, m[f].lastEvent, f) && log[m[f].lastEvent].file == m[f]
  }

  /** The entry of f is at least as new as every event of f up to `until`. */
  ghost predicate CoversFile(log: Log, until: Key, m: Files, f: FileId) {
    forall k: Key :: IsState(log, k, f) && k <= until ==> f in m && k <= m[f].lastEvent
  }

  ghost predicate Covers(log: Log, until: Key, m: Files) {
    forall f :: CoversFile(log, until, m, f)
  }

  /** No event in (lo, hi] carries a state. */
  ghost predicate NoneBetween(log: Log, lo: Key, hi: Key) {
    forall k :: k in log && lo < k <= hi ==> !log[k].StateEvent?
  }

  /** No entry comes from an event after `listed`. */
  ghost predicate Bounded(m: Files, listed: Key) {
    forall f :: f in m ==> m[f].lastEvent <= listed
  }

  ghost predicate Extends(before: Log, after: Log) {
    forall k :: k in before ==> k in after && after[k] == before[k]
  }

  // ---------------------------------------------------------------- facts

  lemma NewestAfterIs(log: Log, f: FileId, after: Key)
    ensures NewestAfter(log, f, after).None? <==> forall k: Key :: IsState(log, k, f) ==> k <= after
    ensures forall file :: NewestAfter(log, f, after) == Some(file) && LogOk(log) ==>
              && after < file.lastEvent && IsState(log, file.lastEvent, f) && log[file.lastEvent].file == file
              && (forall k: Key :: IsState(log, k, f) ==> k <= file.lastEvent || k <= after)
  {
    var keys := StatesAfter(log, f, after);
    forall k | IsState(log, k, f) && after < k ensures k in keys {
    }
    if keys != {} {
      assert Max(keys) in keys;
    }
  }

  /** An event of f that no other event of f comes after is the newest one. */
  lemma NewestIs(log: Log, k: Key, f: FileId, after: Key)
    requires IsState(log, k, f) && after < k && forall j: Key :: IsState(log, j, f) ==> j <= k
    ensures NewestAfter(log, f, after) == Some(log[k].file)
  {
    var keys := StatesAfter(log, f, after);
    assert k in keys;
    var m := Max(keys);
    assert m in keys;
  }

  /** A state that is appended after every other event of its file is what it is read as; other files stay. */
  lemma AppendedIsNewest(log: Log, key: Key, file: File, f: FileId)
    requires key > 0 && key !in log && forall k: Key :: IsState(log, k, file.id) ==> k < key
    ensures var grown := log[key := Stamped(key, StateEvent(file))];
            Newest(grown, f)
            == if f == file.id
               then Some(File(file.id, file.deleted, file.textKey, file.paths, file.name, file.author, key))
               else Newest(log, f)
  {
    var grown := log[key := Stamped(key, StateEvent(file))];
    if f == file.id {
      forall j: Key | IsState(grown, j, f) ensures j <= key {
        assert j != key ==> IsState(log, j, f);
      }
      NewestIs(grown, key, f, 0);
    } else {
      assert StatesAfter(grown, f, 0) == StatesAfter(log, f, 0);
      if StatesAfter(log, f, 0) != {} {
        assert Max(StatesAfter(log, f, 0)) in StatesAfter(log, f, 0);
      }
    }
  }

  lemma OverlayHas(log: Log, after: Key, f: FileId)
    ensures Get(Overlay(log, after), f) == NewestAfter(log, f, after)
  {
    var keys := StatesAfter(log, f, after);
    if keys != {} {
      var k := Max(keys);
      assert k in keys;
      assert f in FilesAfter(log, after);
    }
  }

  /**
   Patching a map that is right up to a key with the events after that key gives the last state
   event of every file, and nothing for a file without one.
   */
  lemma PatchedIsNewest(log: Log, until: Key, m: Files, f: FileId)
    requires LogOk(log) && Sound(log, m) && CoversFile(log, until, m, f)
    ensures Patched(Overlay(log, until), m, f) == Newest(log, f)
  {
    OverlayHas(log, until, f);
    NewestAfterIs(log, f, until);
    NewestAfterIs(log, f, 0);
    var late := NewestAfter(log, f, until);
    if late.Some? {
      NewestIs(log, late.value.lastEvent, f, 0);
    } else if f in m {
      NewestIs(log, m[f].lastEvent, f, 0);
    }
  }

  /** A map without later entries is right up to a key exactly when it is the fold of the journal up to it. */
  lemma CoversIsFold(log: Log, until: Key, m: Files)
    requires LogOk(log) && Sound(log, m) && Bounded(m, until)
    ensures Covers(log, until, m) <==> forall f :: Get(m, f) == Newest(Cut(log, until), f)
  {
    var cut := Cut(log, until);
    forall f ensures CoversFile(log, until, m, f) <==> Get(m, f) == Newest(cut, f) {
      NewestAfterIs(cut, f, 0);
      assert forall k: Key :: IsState(cut, k, f) <==> IsState(log, k, f) && k <= until;
      if f in m {
        var k := m[f].lastEvent;
        if CoversFile(log, until, m, f) {
          NewestIs(cut, k, f, 0);
        }
      }
    }
  }

  lemma CoversLess(log: Log, until: Key, less: Key, m: Files)
    requires Covers(log, until, m) && NoneBetween(log, until, less)
    ensures Covers(log, less, m)
  {
    forall f, k: Key | IsState(log, k, f) && k <= less ensures f in m && k <= m[f].lastEvent {
      assert CoversFile(log, until, m, f);
    }
  }
}
