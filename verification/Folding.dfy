/**
 Folding a page of the journal: the newest state per listed file. The indexer folds batches this way
 and a server folds the tail after the indexer's last key into its overlay.
 */
module Folding {
  import opened Wrappers
  import opened Journal
  import opened States

  /** One more event: a later state of a file replaces an earlier one. */
  lemma FoldStep(log: Log, after: Key, cursor: Key, key: Key)
    requires after <= cursor && Next(log.Keys, cursor, key)
    ensures Overlay(Cut(log, key), after)
            == if log[key].StateEvent? then Overlay(Cut(log, cursor), after)[log[key].file.id := log[key].file]
               else Overlay(Cut(log, cursor), after)
  {
    assert key in After(log.Keys, cursor);
    var before, now := Cut(log, cursor), Cut(log, key);
    forall k ensures k in now <==> k in before || k == key {
      assert k in log && cursor < k ==> k in After(log.Keys, cursor);
    }
    forall f ensures Get(Overlay(now, after), f)
                     == if IsState(log, key, f) then Some(log[key].file) else Get(Overlay(before, after), f) {
      OverlayHas(now, after, f);
      OverlayHas(before, after, f);
      if IsState(log, key, f) {
        NewestIs(now, key, f, after);
      } else {
        assert StatesAfter(now, f, after) == StatesAfter(before, f, after);
      }
    }
    SameGets(Overlay(now, after),
             if log[key].StateEvent? then Overlay(before, after)[log[key].file.id := log[key].file]
                else Overlay(before, after));
  }

  lemma SameGets(a: Files, b: Files)
    requires forall f :: Get(a, f) == Get(b, f)
    ensures a == b
  {
    forall f ensures (f in a <==> f in b) && (f in a ==> a[f] == b[f]) {
      assert Get(a, f) == Get(b, f);
    }
  }

  /** Lists up to `max` events after `after` and keeps the newest state per file. */
  method FoldPage(log: Log, after: Key, max: nat) returns (states: Files, hi: Key, n: nat)
    ensures hi == End(Page(log.Keys, after, max), after) && n == |Page(log.Keys, after, max)|
    ensures states == Overlay(Cut(log, hi), after)
  {
    var entries := Page(log.Keys, after, max);
    n := |entries|;
    states := map[];
    hi := after;
    assert Overlay(Cut(log, after), after) == map[];
    PageIsRange(log.Keys, after, max);
    var left := entries;
    while left != []
      invariant after <= hi <= End(entries, after) && left == Sorted(Range(log.Keys, hi, End(entries, after)))
      invariant states == Overlay(Cut(log, hi), after)
      decreases |left|
    {
      var key := left[0];
      RangeStep(log.Keys, hi, End(entries, after));
      FoldStep(log, after, hi, key);
      if log[key].StateEvent? {
        states := states[log[key].file.id := log[key].file];
      }
      hi := key;
      left := left[1..];
    }
    SortedIsEmpty(Range(log.Keys, hi, End(entries, after)));
    LastOfPage(log.Keys, after, max, hi);
  }

  lemma SortedIsEmpty(keys: set<Key>)
    ensures Sorted(keys) == [] <==> keys == {}
  {
  }

  /** When nothing of a page is left its end has been reached. */
  lemma LastOfPage(keys: set<Key>, after: Key, max: nat, hi: Key)
    requires after <= hi <= End(Page(keys, after, max), after)
      && Range(keys, hi, End(Page(keys, after, max), after)) == {}
    ensures hi == End(Page(keys, after, max), after)
  {
    PageIsRange(keys, after, max);
    var page := Page(keys, after, max);
    assert page != [] && hi < End(page, after) ==> End(page, after) in Range(keys, hi, End(page, after));
  }

  lemma RangeStep(keys: set<Key>, from: Key, end: Key)
    requires Sorted(Range(keys, from, end)) != []
    ensures var s := Sorted(Range(keys, from, end));
            && Next(keys, from, s[0]) && from < s[0] <= end && s[0] in keys
            && s[1..] == Sorted(Range(keys, s[0], end))
  {
    var range := Range(keys, from, end);
    var m := Min(range);
    assert m in range;
    forall k | k in After(keys, from) ensures m <= k {
      assert k <= end ==> k in range;
    }
    assert range - {m} == Range(keys, m, end);
    assert Sorted(range) == [m] + Sorted(range - {m});
  }

  lemma OverlaySame(log: Log, hi: Key, after: Key)
    requires forall k :: k in log ==> k <= hi
    ensures Overlay(Cut(log, hi), after) == Overlay(log, after)
  {
    assert Cut(log, hi) == log;
  }
}
