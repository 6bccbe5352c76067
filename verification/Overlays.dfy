/**
 The read path of a server: the journal tail after the indexer's last key, kept for a short time, over
 the folded cache.
 */
module Overlays {
  import opened Wrappers
  import opened Journal
  import opened States
  import opened Folding

  class Server {
    var states: Option<Files>
    var since: Key
    var fetchedAt: Option<nat>   // None: expired, whatever the time
    var count: nat
    /** The journal at the instant of the listing. */
    ghost var listed: Log
    const ttl: nat
    const maxOverlay: nat

    /** Unless it was cut off, what is kept is the tail of the journal at the listing. */
    ghost predicate Valid()
      reads this
    {
      states.Some? && count < maxOverlay ==> states.value == Overlay(listed, since)
    }

    constructor (ttl: nat, maxOverlay: nat)
      ensures Valid() && states == None && this.ttl == ttl && this.maxOverlay == maxOverlay
    {
      this.ttl, this.maxOverlay := ttl, maxOverlay;
      states, since, fetchedAt, count := None, 0, None, 0;
    }

    /** The newest unfolded state per file: listed now, or not longer than `ttl` ago after the same key. */
    method OverlayStates(log: Log, lastKey: Key, now: nat) returns (out: Files)
      requires Valid() && (fetchedAt.Some? ==> fetchedAt.value <= now)
      modifies this
      ensures Valid() && states == Some(out) && since == lastKey && fetchedAt.Some? && fetchedAt.value <= now
      ensures count < maxOverlay ==> out == Overlay(listed, lastKey)
      ensures listed == log || (listed == old(listed) && fetchedAt == old(fetchedAt) && now - fetchedAt.value < ttl)
      ensures listed != old(listed) || old(fetchedAt).None? ==>
                listed == log && count == |Page(log.Keys, lastKey, maxOverlay)|
    {
      if ttl > 0 && states.Some? && since == lastKey && fetchedAt.Some? && now - fetchedAt.value < ttl {
        return states.value;
      }
      var folded, hi, n := FoldPage(log, lastKey, maxOverlay);
      if n < maxOverlay {
        WholeTail(log, lastKey, maxOverlay);
      }
      states, since, fetchedAt, count := Some(folded), lastKey, Some(now), n;
      listed := log;
      return folded;
    }

    /** The next read lists the journal again. */
    method InvalidateOverlay()
      requires Valid()
      modifies this`fetchedAt
      ensures Valid() && fetchedAt == None
    {
      fetchedAt := None;
    }

    /** The overlay wins over the folded cache. */
    method ResolveFile(log: Log, lastKey: Key, cache: Files, f: FileId, now: nat) returns (result: Option<File>)
      requires Valid() && (fetchedAt.Some? ==> fetchedAt.value <= now)
      modifies this
      ensures Valid()
      ensures count < maxOverlay ==> result == Patched(Overlay(listed, lastKey), cache, f)
      ensures listed == log || (listed == old(listed) && fetchedAt == old(fetchedAt) && fetchedAt.Some?
        && now - fetchedAt.value < ttl)
      ensures old(fetchedAt).None? ==> listed == log && count == |Page(log.Keys, lastKey, maxOverlay)|
    {
      var overlay := OverlayStates(log, lastKey, now);
      if f in overlay {
        return Some(overlay[f]);
      }
      if f in cache {
        return Some(cache[f]);
      }
      return None;
    }

    /** Appends an event; whoever reads through this server afterwards sees it. */
    method AppendEvent(journal: Store, key: Key, event: Event)
      requires Valid() && key > 0
      modifies this`fetchedAt, journal
      ensures Valid() && fetchedAt == None && journal.objects == old(journal.objects)[key := Stamped(key, event)]
      ensures event.OtherEvent? ==> journal.objects == old(journal.objects)[key := event]
      ensures event.StateEvent? ==>
                var f := event.file;
                && key in journal.objects
                && journal.objects[key]
                   == StateEvent(File(f.id, f.deleted, f.textKey, f.paths, f.name, f.author, key))
    {
      journal.Append(key, event);
      InvalidateOverlay();
    }

    /**
     A server that has just written a state reads exactly that state back, as long as no event of the file
     comes after it, and otherwise the newer one.
     */
    method WriteThenRead(journal: Store, key: Key, file: File, lastKey: Key, cache: Files, now: nat)
      returns (result: Option<File>)
      requires Valid() && key > 0 && LogOk(journal.objects)
      requires var log := journal.objects[key := Stamped(key, StateEvent(file))];
               && Sound(log, cache) && CoversFile(log, lastKey, cache, file.id)
               && |Page(log.Keys, lastKey, maxOverlay)| < maxOverlay
      modifies this, journal
      ensures result == Newest(journal.objects, file.id) && result.Some? && key <= result.value.lastEvent
      ensures key !in old(journal.objects)
              && (forall k: Key :: IsState(old(journal.objects), k, file.id) ==> k < key) ==>
                result == Some(File(file.id, file.deleted, file.textKey, file.paths, file.name, file.author, key))
    {
      ghost var before := journal.objects;
      AppendEvent(journal, key, StateEvent(file));
      result := ResolveFile(journal.objects, lastKey, cache, file.id, now);
      assert LogOk(journal.objects) && IsState(journal.objects, key, file.id);
      PatchedIsNewest(journal.objects, lastKey, cache, file.id);
      NewestAfterIs(journal.objects, file.id, 0);
      if key !in before && forall k: Key :: IsState(before, k, file.id) ==> k < key {
        AppendedIsNewest(before, key, file, file.id);
      }
    }
  }

  /** A listing that returns less than it may has returned the whole tail. */
  lemma WholeTail(log: Log, after: Key, max: nat)
    requires |Page(log.Keys, after, max)| < max
    ensures Overlay(Cut(log, End(Page(log.Keys, after, max), after)), after) == Overlay(log, after)
  {
    PageIsRange(log.Keys, after, max);
    var end := End(Page(log.Keys, after, max), after);
    forall k | k in log ensures k <= end {
      assert k !in After(log.Keys, end);
    }
    OverlaySame(log, end, after);
  }
}
