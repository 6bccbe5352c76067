/**
 How the indexer extends the chain after a fold: over what was just folded and, after a crash or a
 rebuild, over what the chain still misses.
 */
module Checkpoints {
  import opened Wrappers
  import opened Journal
  import opened Audit
  import opened AuditStore
  import opened ChainSafety

  /** What a checkpoint covers of these events. */
  function CoveringsOf(entries: seq<Entry>, covering: Entry -> Covering): seq<Covering> {
    seq(|entries|, i requires 0 <= i < |entries| => covering(entries[i]))
  }

  lemma {:induction false} EntriesJoin(log: Log, a: seq<Key>, b: seq<Key>)
    ensures Entries(log, a + b) == Entries(log, a) + Entries(log, b)
  {
    if a == [] {
      assert a + b == b;
    } else {
      EntriesJoin(log, a[1..], b);
      assert (a + b)[1..] == a[1..] + b;
    }
  }

  function EntriesBeyond(entries: seq<Entry>, after: Key): seq<Entry> {
    if entries == [] then []
    else if entries[0].key > after then [entries[0]] + EntriesBeyond(entries[1..], after)
    else EntriesBeyond(entries[1..], after)
  }

  lemma {:induction false} LaterIsBeyond(log: Log, keys: seq<Key>, after: Key)
    ensures EntriesBeyond(Entries(log, keys), after) == Entries(log, Machine.Beyond(keys, after))
  {
    if keys != [] {
      LaterIsBeyond(log, keys[1..], after);
      if keys[0] > after {
        assert ([keys[0]] + Machine.Beyond(keys[1..], after))[1..] == Machine.Beyond(keys[1..], after);
      }
      if keys[0] in log {
        assert ([Entry(keys[0], log[keys[0]])] + Entries(log, keys[1..]))[1..] == Entries(log, keys[1..]);
      }
    }
  }

  /** Events of the journal in key order, each as it is covered. */
  lemma CoveringsAre(log: Log, keys: set<Key>, covering: Entry -> Covering)
    requires keys <= log.Keys
    ensures var s, covered := Sorted(keys), CoveringsOf(Entries(log, Sorted(keys)), covering);
            && |covered| == |s|
            && forall i :: 0 <= i < |s| ==> s[i] in log && covered[i] == covering(Entry(s[i], log[s[i]]))
  {
    SortedLists(keys);
    EntriesAre(log, Sorted(keys));
  }

  /** What is due after a fold: the journal's events between the head and the last folded key. */
  lemma DueIsRange(c: Checkpointer, h: Head, foldStart: Key, hi: Key, keys: seq<Key>, covering: Entry -> Covering)
    requires foldStart <= hi && keys == Sorted(Range(c.journal.objects.Keys, foldStart, hi))
    ensures var log, due := c.journal.objects, c.Due(h, foldStart, keys, covering);
            var range := Sorted(Range(log.Keys, h.lastKey, hi));
            && |due| == |range|
            && forall i :: 0 <= i < |due| ==> range[i] in log && due[i] == covering(Entry(range[i], log[range[i]]))
  {
    var log := c.journal.objects;
    BatchIsRange(log, h.lastKey, foldStart, hi, keys);
    CoveringsAre(log, Range(log.Keys, h.lastKey, hi), covering);
  }

  class Checkpointer {
    const chain: Chain
    const journal: Store
    var head: Option<Head>
    const pageSize: nat

    constructor (chain: Chain, journal: Store, pageSize: nat)
      ensures this.chain == chain && this.journal == journal && this.pageSize == pageSize && head == None
    {
      this.chain, this.journal, this.pageSize, this.head := chain, journal, pageSize, None;
    }

    /** The head this process knows, or on first use the newest one of the bucket. */
    function KnownHead(): Result<Head, Error>
      reads this, chain
    {
      if head.Some? then Success(head.value) else chain.HeadInBucket()
    }

    method LoadHead() returns (result: Result<Head, Error>)
      modifies this`head
      ensures result == old(KnownHead())
      ensures head == if result.Success? then Some(result.value) else old(head)
    {
      if head.None? {
        var newest := chain.NewestHead();
        if newest.Failure? {
          return newest;
        }
        head := Some(newest.value);
      }
      return Success(head.value);
    }

    /** The gap behind the head, then the folded events after it: exactly the machine's batch. */
    method Collect(after: Key, foldStart: Key, entries: seq<Entry>, ghost keys: seq<Key>) returns (batch: seq<Entry>)
      requires pageSize > 0 && entries == Entries(journal.objects, keys)
      ensures batch == Entries(journal.objects, Machine.Batch(journal.objects, after, foldStart, keys))
    {
      batch := [];
      if foldStart > after {
        batch := journal.ListRange(after, foldStart, pageSize);
        assert Wanted(journal.objects.Keys, after, foldStart) == Range(journal.objects.Keys, after, foldStart);
      }
      ghost var gap := batch;
      var left := entries;
      while left != []
        invariant batch + EntriesBeyond(left, after) == gap + EntriesBeyond(entries, after)
        decreases |left|
      {
        if left[0].key > after {
          assert batch + ([left[0]] + EntriesBeyond(left[1..], after))
                   == batch + [left[0]] + EntriesBeyond(left[1..], after);
          batch := batch + [left[0]];
        }
        left := left[1..];
      }
      assert batch + [] == batch;
      LaterIsBeyond(journal.objects, keys, after);
      EntriesJoin(journal.objects,
                  if foldStart > after then Sorted(Range(journal.objects.Keys, after, foldStart)) else [],
                  Machine.Beyond(keys, after));
    }

    /** The events to chain after this head: exactly the batch of the step system. */
    ghost function Due(h: Head, foldStart: Key, keys: seq<Key>, covering: Entry -> Covering): seq<Covering>
      reads journal
    {
      CoveringsOf(Entries(journal.objects, Machine.Batch(journal.objects, h.lastKey, foldStart, keys)), covering)
    }

    /** The checkpoint object over a batch after this head. */
    ghost function NextAfter(h: Head, batch: seq<Covering>): Checkpoint
      requires batch != []
      reads this, chain
    {
      Checked(chain.h, h.n + 1, if h.sha == "" then chain.h.genesis else h.sha, batch, "")
    }

    /**
     Chains every event between the head and the last folded key, also on first use after a restart, when
     the head is the newest of the bucket. With nothing to chain the objects stay. Otherwise the checkpoint
     over exactly the due events is written after the head, or was written although it seemed to fail; the
     head moves only if the write was seen to succeed.
     */
    method Checkpoint(foldStart: Key, entries: seq<Entry>, ghost keys: seq<Key>, covering: Entry -> Covering,
            calm: bool) returns (result: Result<nat, Error>)
      requires pageSize > 0 && entries == Entries(journal.objects, keys)
      modifies this`head, chain
      ensures old(KnownHead()).Failure? ==>
                result == Failure(ReadFailed) && chain.objects == old(chain.objects) && head == old(head)
      ensures old(KnownHead()).Success? ==>
                var h := old(KnownHead()).value;
                var batch := Due(h, foldStart, keys, covering);
                if batch == [] then result == Success(0) && chain.objects == old(chain.objects) && head == Some(h)
                else
                  var cp := NextAfter(h, batch);
                  && (result == Success(cp.n) || result == Failure(NotAfterHead) || result == Failure(WriteFailed))
                  && (result == Failure(NotAfterHead) <==> batch[0].key <= h.lastKey)
                  && (calm ==> result != Failure(WriteFailed))
                  && (result.Success? ==>
                        chain.objects == old(chain.objects)[cp.n := Some(cp)]
                          && head == Some(Head(cp.n, chain.h.digest(cp), cp.last)))
                  && (result.Failure? ==> head == Some(h))
                  && (result == Failure(NotAfterHead) ==> chain.objects == old(chain.objects))
                  && (result == Failure(WriteFailed) ==>
                        chain.objects == old(chain.objects) || chain.objects == old(chain.objects)[cp.n := Some(cp)])
    {
      var loaded := LoadHead();
      if loaded.Failure? {
        return Failure(loaded.error);
      }
      var h := loaded.value;
      var collected := Collect(h.lastKey, foldStart, entries, keys);
      var batch := CoveringsOf(collected, covering);
      if |batch| == 0 {
        return Success(0);
      }
      var appended := chain.Append(h, batch, "", calm);
      if appended.Failure? {
        return Failure(appended.error);
      }
      head := Some(appended.value);
      return Success(appended.value.n);
    }
  }
}
