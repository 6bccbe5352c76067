/**
 The append-only journal: events under keys that a listing returns in order. A key is represented
 by its rank in key order, so that only comparisons matter; 0 is the empty string, which no event
 has. How ranks follow from ULIDs is the subject of module Ulid.
 */
module Journal {

  type Key = nat
  type FileId = string

  /** The state of a file that an event carries; `textKey` is where its extracted text is, `paths` are its facets. */
  datatype File = File(id: FileId, deleted: bool, textKey: string, paths: seq<string>, name: string, author: string,
          lastEvent: Key)

  datatype Event = StateEvent(file: File) | OtherEvent(detail: string)

  type Log = map<Key, Event>

  // ---------------------------------------------------------------- key lists in order

  function After(keys: set<Key>, after: Key): set<Key> {
    set k | k in keys && after < k
  }

  function Range(keys: set<Key>, after: Key, until: Key): set<Key> {
    set k | k in keys && after < k && k <= until
  }

  function UpTo(keys: set<Key>, until: Key): set<Key> {
    set k | k in keys && k <= until
  }

  ghost predicate IsMin(keys: set<Key>, m: Key) {
    m in keys && forall k :: k in keys ==> m <= k
  }

  lemma {:induction false} HasMin(keys: set<Key>) returns (m: Key)
    requires keys != {}
    ensures IsMin(keys, m)
  {
    var x :| x in keys;
    var rest := keys - {x};
    if rest == {} {
      m := x;
      assert keys == {x};
    } else {
      var least := HasMin(rest);
      m := if x < least then x else least;
      assert forall k :: k in keys ==> k == x || k in rest;
    }
  }

  function Min(keys: set<Key>): (m: Key)
    requires keys != {}
    ensures IsMin(keys, m)
  {
    assert exists m :: IsMin(keys, m) by {
      var m := HasMin(keys);
    }
    var m :| m in keys && forall k :: k in keys ==> m <= k;
    m
  }

  /** The keys in order, each once: what a listing of the bucket returns. */
  function Sorted(keys: set<Key>): seq<Key> {
    if keys == {} then []
    else
      var m := Min(keys);
      [m] + Sorted(keys - {m})
  }

  ghost predicate Increasing(keys: seq<Key>) {
    forall i, j :: 0 <= i < j < |keys| ==> keys[i] < keys[j]
  }

  ghost predicate Lists(s: seq<Key>, keys: set<Key>) {
    forall k :: k in s <==> k in keys
  }

  lemma {:induction false} SortedLists(keys: set<Key>)
    ensures Lists(Sorted(keys), keys) && Increasing(Sorted(keys))
  {
    if keys != {} {
      var m := Min(keys);
      var rest := keys - {m};
      SortedLists(rest);
      IncreasingJoins(m, Sorted(rest), rest);
      assert keys == {m} + rest && Sorted(keys) == [m] + Sorted(rest);
    }
  }

  lemma IncreasingJoins(m: Key, s: seq<Key>, keys: set<Key>)
    requires Increasing(s) && Lists(s, keys) && forall k :: k in keys ==> m < k
    ensures Increasing([m] + s) && Lists([m] + s, {m} + keys)
  {
    forall j | 0 <= j < |s| ensures m < s[j] {
      assert s[j] in keys;
    }
  }

  /** Taking the smallest key first is how a sorted list starts. */
  lemma SortedStarts(m: Key, rest: set<Key>)
    requires forall k :: k in rest ==> m < k
    ensures Sorted({m} + rest) == [m] + Sorted(rest)
  {
    assert Min({m} + rest) == m;
    assert {m} + rest - {m} == rest;
  }

  lemma {:induction false} SortedSplits(low: set<Key>, high: set<Key>)
    requires forall a, b :: a in low && b in high ==> a < b
    ensures Sorted(low + high) == Sorted(low) + Sorted(high)
  {
    if low == {} {
      assert low + high == high;
    } else {
      var m := Min(low);
      SortedSplits(low - {m}, high);
      assert low + high == {m} + (low - {m} + high);
      SortedStarts(m, low - {m} + high);
    }
  }

  /** `key` is the first key after `cursor`. */
  ghost predicate Next(keys: set<Key>, cursor: Key, key: Key) {
    IsMin(After(keys, cursor), key)
  }

  /** The first n keys after `after`. */
  function FirstN(keys: set<Key>, after: Key, n: nat): (page: seq<Key>)
    ensures |page| <= n
    decreases n
  {
    if n == 0 || After(keys, after) == {} then []
    else
      var m := Min(After(keys, after));
      [m] + FirstN(keys, m, n - 1)
  }

  /** One listing call; a `max` of zero is no limit. */
  function Page(keys: set<Key>, after: Key, max: nat): seq<Key> {
    if max == 0 then Sorted(After(keys, after)) else FirstN(keys, after, max)
  }

  /** Where a listing call ends: at its last key, or where it started when it found nothing. */
  function End(page: seq<Key>, after: Key): Key {
    if page == [] then after else page[|page| - 1]
  }

  /** A page is exactly the keys between its two ends; a page that is not full runs out of keys. */
  lemma {:induction false} FirstNIsRange(keys: set<Key>, after: Key, n: nat)
    ensures var page := FirstN(keys, after, n);
            && after <= End(page, after)
            && page == Sorted(Range(keys, after, End(page, after)))
            && (|page| < n ==> After(keys, End(page, after)) == {})
            && (page == [] || End(page, after) in keys)
    decreases n
  {
    if n > 0 && After(keys, after) != {} {
      var m := Min(After(keys, after));
      FirstNIsRange(keys, m, n - 1);
      var end := End(FirstN(keys, m, n - 1), m);
      assert End(FirstN(keys, after, n), after) == end;
      forall k | k in keys && after < k ensures m <= k {
        assert k in After(keys, after);
      }
      assert m in After(keys, after);
      assert Range(keys, after, end) == {m} + Range(keys, m, end);
      SortedStarts(m, Range(keys, m, end));
    } else {
      assert Range(keys, after, after) == {};
    }
  }

  /** Without a limit the page is every key after the start. */
  lemma SortedIsRange(keys: set<Key>, after: Key)
    ensures var page := Sorted(After(keys, after));
            && after <= End(page, after)
            && page == Sorted(Range(keys, after, End(page, after)))
            && After(keys, End(page, after)) == {}
            && (page == [] || End(page, after) in keys)
  {
    var rest := After(keys, after);
    var page := Sorted(rest);
    if rest == {} {
      assert Range(keys, after, after) == {};
    } else {
      SortedLists(rest);
      var end := page[|page| - 1];
      assert end in page;
      assert after < end && end in keys by {
        assert end in rest;
      }
      forall k | k in keys && after < k ensures k <= end {
        assert k in rest && k in page;
        var i :| 0 <= i < |page| && page[i] == k;
      }
      assert Range(keys, after, end) == rest;
    }
  }

  lemma PageIsRange(keys: set<Key>, after: Key, max: nat)
    ensures var page := Page(keys, after, max);
            && after <= End(page, after)
            && page == Sorted(Range(keys, after, End(page, after)))
            && (max == 0 || |page| < max ==> After(keys, End(page, after)) == {})
            && (page == [] || End(page, after) in keys)
  {
    if max > 0 {
      FirstNIsRange(keys, after, max);
    } else {
      SortedIsRange(keys, after);
    }
  }

  // ---------------------------------------------------------------- the store

  class Store {
    var objects: Log

    constructor ()
      ensures objects == map[]
    {
      objects := map[];
    }

    /** Writes one event; a state event carries the key it is stored under. */
    method Append(key: Key, event: Event)
      requires key > 0
      modifies this
      ensures objects == old(objects)[key := Stamped(key, event)]
      ensures event.OtherEvent? ==> objects == old(objects)[key := event]
      ensures event.StateEvent? ==>
                var f := event.file;
                var stored := File(f.id, f.deleted, f.textKey, f.paths, f.name, f.author, key);
                objects == old(objects)[key := StateEvent(stored)]
    {
      var stored := match event
        case StateEvent(file) => StateEvent(file.(lastEvent := key))
        case OtherEvent(_) => event;
      objects := objects[key := stored];
    }

    method ListKeys(after: Key, max: nat) returns (keys: seq<Key>)
      ensures keys == Page(objects.Keys, after, max)
    {
      keys := Page(objects.Keys, after, max);
    }

    /** Up to `max` events after `after`, oldest first. */
    method ListAfter(after: Key, max: nat) returns (entries: seq<Entry>)
      ensures entries == Entries(objects, Page(objects.Keys, after, max))
      ensures InOrder(entries) && (max > 0 ==> |entries| <= max)
      ensures forall e :: e in entries ==> after < e.key && e.key in objects && e.event == objects[e.key]
      ensures forall k :: k in objects && after < k && k !in Listed(entries) ==>
                0 < max == |entries| && entries[max - 1].key < k
    {
      var keys := ListKeys(after, max);
      entries := [];
      for i := 0 to |keys|
        invariant entries == Entries(objects, keys[..i])
      {
        ListedKeyExists(objects, after, max, i);
        EntriesAppend(objects, keys[..i], keys[i]);
        entries := entries + [Entry(keys[i], objects[keys[i]])];
        assert keys[..i + 1] == keys[..i] + [keys[i]];
      }
      assert keys[..|keys|] == keys;
      PageIsExact(objects, after, max);
    }

    /** Every event in (after, until], paging as needed; an `until` of 0 is no upper bound. */
    method ListRange(after: Key, until: Key, pageSize: nat) returns (entries: seq<Entry>)
      requires pageSize > 0
      ensures entries == Entries(objects, Sorted(Wanted(objects.Keys, after, until)))
    {
      entries := [];
      var cursor: Key := after;
      ghost var goal := Entries(objects, Sorted(Wanted(objects.Keys, after, until)));
      while true
        invariant goal == entries + Entries(objects, Sorted(Wanted(objects.Keys, cursor, until)))
        decreases After(objects.Keys, cursor)
      {
        ghost var start := cursor;
        var page := ListKeys(cursor, pageSize);
        var left := page;
        PageAdvances(objects.Keys, start, pageSize);
        while left != []
          invariant |left| <= |page| && left == FirstN(objects.Keys, cursor, pageSize - (|page| - |left|))
          invariant End(left, cursor) == End(page, start)
          invariant goal == entries + Entries(objects, Sorted(Wanted(objects.Keys, cursor, until)))
        {
          var key := left[0];
          PageStep(objects.Keys, cursor, pageSize - (|page| - |left|));
          WantedStep(objects, cursor, key, until);
          if until != 0 && key > until {
            assert entries + [] == entries;
            return;
          }
          var entry := Entry(key, objects[key]);
          Regroup(entries, entry, Entries(objects, Sorted(Wanted(objects.Keys, key, until))));
          entries := entries + [entry];
          cursor := key;
          left := left[1..];
        }
        if |page| < pageSize {
          assert Wanted(objects.Keys, cursor, until) == {};
          assert entries + [] == entries;
          return;
        }
      }
    }
  }

  lemma PageStep(keys: set<Key>, cursor: Key, n: nat)
    requires FirstN(keys, cursor, n) != []
    ensures var left := FirstN(keys, cursor, n);
            n > 0 && left[0] in keys && Next(keys, cursor, left[0]) && left[1..] == FirstN(keys, left[0], n - 1)
    ensures var left := FirstN(keys, cursor, n); End(left[1..], left[0]) == End(left, cursor)
  {
  }

  /** A full page moves the cursor on; after any other page nothing is left. */
  lemma PageAdvances(keys: set<Key>, start: Key, pageSize: nat)
    requires pageSize > 0
    ensures var page := FirstN(keys, start, pageSize);
            if |page| < pageSize then After(keys, End(page, start)) == {}
            else After(keys, End(page, start)) < After(keys, start)
  {
    FirstNIsRange(keys, start, pageSize);
    var page := FirstN(keys, start, pageSize);
    var end := End(page, start);
    if |page| == pageSize {
      assert end in After(keys, start) && end !in After(keys, end);
    }
  }

  lemma Regroup<T>(a: seq<T>, x: T, b: seq<T>)
    ensures a + ([x] + b) == a + [x] + b
  {
  }

  datatype Entry = Entry(key: Key, event: Event)

  function Stamped(key: Key, event: Event): Event {
    match event
    case StateEvent(file) => StateEvent(file.(lastEvent := key))
    case OtherEvent(_) => event
  }

  /** The listed events under these keys. */
  function Entries(log: Log, keys: seq<Key>): seq<Entry> {
    if keys == [] then []
    else if keys[0] in log then [Entry(keys[0], log[keys[0]])] + Entries(log, keys[1..])
    else Entries(log, keys[1..])
  }

  lemma {:induction false} EntriesAppend(log: Log, keys: seq<Key>, key: Key)
    requires key in log
    ensures Entries(log, keys + [key]) == Entries(log, keys) + [Entry(key, log[key])]
  {
    if keys == [] {
      assert keys + [key] == [key];
    } else {
      assert (keys + [key])[1..] == keys[1..] + [key];
      EntriesAppend(log, keys[1..], key);
    }
  }

  function Listed(entries: seq<Entry>): set<Key> {
    set e | e in entries :: e.key
  }

  ghost predicate InOrder(entries: seq<Entry>) {
    forall i, j :: 0 <= i < j < |entries| ==> entries[i].key < entries[j].key
  }

  /** Entries of keys that are all there: one each, in their order. */
  lemma {:induction false} EntriesAre(log: Log, keys: seq<Key>)
    requires forall k :: k in keys ==> k in log
    ensures |Entries(log, keys)| == |keys|
    ensures forall i :: 0 <= i < |keys| ==> Entries(log, keys)[i] == Entry(keys[i], log[keys[i]])
  {
    if keys != [] {
      assert keys[0] in keys;
      EntriesAre(log, keys[1..]);
    }
  }

  /** The entries of a set of keys: all of them, each once, in key order. */
  lemma EntriesOfKeys(log: Log, keys: set<Key>)
    requires keys <= log.Keys
    ensures var entries := Entries(log, Sorted(keys));
            && |entries| == |Sorted(keys)| && InOrder(entries) && Listed(entries) == keys
            && forall e :: e in entries ==> e.key in log && e.event == log[e.key]
  {
    SortedLists(keys);
    var s := Sorted(keys);
    EntriesAre(log, s);
    var entries := Entries(log, s);
    forall k ensures k in Listed(entries) <==> k in keys {
      if k in keys {
        assert k in s;
        var i :| 0 <= i < |s| && s[i] == k;
        assert entries[i] in entries;
      }
    }
  }

  /** A listing: the events after the start in key order; it leaves out only what comes after a full page. */
  lemma PageIsExact(log: Log, after: Key, max: nat)
    ensures var entries := Entries(log, Page(log.Keys, after, max));
            && (max > 0 ==> |entries| <= max)
            && InOrder(entries)
            && (forall e :: e in entries ==> after < e.key && e.key in log && e.event == log[e.key])
            && forall k :: k in log && after < k && k !in Listed(entries) ==>
                             0 < max == |entries| && entries[max - 1].key < k
  {
    var page := Page(log.Keys, after, max);
    PageIsRange(log.Keys, after, max);
    var range := Range(log.Keys, after, End(page, after));
    EntriesOfKeys(log, range);
    forall k | k in log && after < k && k !in range ensures 0 < max == |page| && page[max - 1] < k {
      assert k in After(log.Keys, End(page, after));
    }
    EntriesAre(log, page) by {
      SortedLists(range);
    }
  }

  /** A range: exactly the events after one key up to another, in key order. */
  lemma RangeIsExact(log: Log, after: Key, until: Key)
    ensures var entries := Entries(log, Sorted(Wanted(log.Keys, after, until)));
            && InOrder(entries) && (forall e :: e in entries ==> e.key in log && e.event == log[e.key])
            && forall k :: k in Listed(entries) <==> k in log && after < k && (until == 0 || k <= until)
  {
    EntriesOfKeys(log, Wanted(log.Keys, after, until));
  }

  lemma ListedKeyExists(log: Log, after: Key, max: nat, i: nat)
    requires i < |Page(log.Keys, after, max)|
    ensures Page(log.Keys, after, max)[i] in log
  {
    var page := Page(log.Keys, after, max);
    PageIsRange(log.Keys, after, max);
    SortedLists(Range(log.Keys, after, End(page, after)));
    assert page[i] in page;
  }

  function Wanted(keys: set<Key>, after: Key, until: Key): set<Key> {
    set k | k in keys && after < k && (until == 0 || k <= until)
  }

  lemma WantedStep(log: Log, cursor: Key, key: Key, until: Key)
    requires Next(log.Keys, cursor, key)
    ensures until != 0 && key > until ==> Wanted(log.Keys, cursor, until) == {}
    ensures until == 0 || key <= until ==>
              Entries(log, Sorted(Wanted(log.Keys, cursor, until)))
              == [Entry(key, log[key])] + Entries(log, Sorted(Wanted(log.Keys, key, until)))
  {
    var wanted, rest := Wanted(log.Keys, cursor, until), Wanted(log.Keys, key, until);
    forall k | k in log && cursor < k ensures key <= k {
      assert k in After(log.Keys, cursor);
    }
    if until == 0 || key <= until {
      assert key in After(log.Keys, cursor);
      assert wanted == {key} + rest;
      SortedStarts(key, rest);
      assert ([key] + Sorted(rest))[1..] == Sorted(rest);
    }
  }
}
