/**
 What the indexer chains, in whatever run, verifies.
 */
module AuditedRuns {
  import opened Wrappers
  import opened Journal
  import opened Audit
  import opened ChainSafety

  /** The events of a batch as the checkpoint covers them. */
  function Coverings(keys: seq<Key>, digests: map<Key, Sha>, original: Key -> Option<Original>): seq<Covering> {
    seq(|keys|, i requires 0 <= i < |keys| =>
      Covering(keys[i], if keys[i] in digests then digests[keys[i]] else "", original(keys[i])))
  }

  /** The checkpoint objects that chaining these batches one after the other leaves. */
  function Written(h: Hashes, batches: seq<seq<Key>>, digests: map<Key, Sha>,
          original: Key -> Option<Original>): seq<Checkpoint> {
    if batches == [] then []
    else
      var before := Written(h, batches[..|batches| - 1], digests, original);
      var batch := batches[|batches| - 1];
      if batch == [] then before
      else before + [Checked(h, |before| + 1, Link(h, before), Coverings(batch, digests, original), "")]
  }

  function KeysOf(covered: seq<Covered>): seq<Key> {
    seq(|covered|, i requires 0 <= i < |covered| => covered[i].leaf.key)
  }

  ghost predicate DigestsOk(covered: seq<Covered>, digests: map<Key, Sha>) {
    forall c :: c in covered ==> c.leaf.key in digests && c.leaf.sha == digests[c.leaf.key]
  }

  lemma IncreasingPrefix(a: seq<Key>, b: seq<Key>)
    requires Increasing(a + b)
    ensures Increasing(a) && Increasing(b) && (a != [] && b != [] ==> a[|a| - 1] < b[0])
  {
    forall i, j | 0 <= i < j < |a| ensures a[i] < a[j] {
      assert (a + b)[i] < (a + b)[j];
    }
    forall i, j | 0 <= i < j < |b| ensures b[i] < b[j] {
      assert (a + b)[|a| + i] < (a + b)[|a| + j];
    }
    if a != [] && b != [] {
      assert (a + b)[|a| - 1] < (a + b)[|a|];
    }
  }

  function LastOr0(keys: seq<Key>): Key {
    if keys == [] then 0 else keys[|keys| - 1]
  }

  ghost predicate Known(keys: seq<Key>, digests: map<Key, Sha>) {
    forall k :: k in keys ==> k in digests && k > 0
  }

  lemma KnownParts(a: seq<Key>, b: seq<Key>, digests: map<Key, Sha>)
    requires Known(a + b, digests)
    ensures Known(a, digests) && Known(b, digests) && (b != [] ==> b[0] > 0)
  {
    forall k | k in a ensures k in digests && k > 0 {
      assert k in a + b;
    }
    forall k | k in b ensures k in digests && k > 0 {
      assert k in a + b;
    }
    assert b != [] ==> b[0] in b;
  }

  /** The chain is clean and covers exactly these keys with their digests. */
  ghost predicate CoversExactly(h: Hashes, chain: seq<Checkpoint>, keys: seq<Key>, digests: map<Key, Sha>) {
    var w := Walked(h, chain);
    Clean(h, chain) && KeysOf(w.covered) == keys && DigestsOk(w.covered, digests) && w.prevLast == LastOr0(keys)
      && w.prevN == |chain|
  }

  /** Batches in key order leave such a chain. */
  lemma {:induction false} WrittenIsClean(h: Hashes, batches: seq<seq<Key>>, digests: map<Key, Sha>,
          original: Key -> Option<Original>)
    requires NoneEmpty(batches) && Increasing(Concat(batches)) && Known(Concat(batches), digests)
    ensures CoversExactly(h, Written(h, batches, digests, original), Concat(batches), digests)
    ensures |Written(h, batches, digests, original)| == |batches|
  {
    if batches != [] {
      var before, batch := batches[..|batches| - 1], batches[|batches| - 1];
      var keys := Concat(before);
      assert Concat(batches) == keys + batch;
      IncreasingPrefix(keys, batch);
      KnownParts(keys, batch, digests);
      WrittenIsClean(h, before, digests, original);
      WrittenStep(h, Written(h, before, digests, original), keys, batch, digests, original);
    }
  }

  lemma CoveredJoins(a: seq<Covered>, b: seq<Covered>, digests: map<Key, Sha>)
    ensures KeysOf(a + b) == KeysOf(a) + KeysOf(b)
    ensures DigestsOk(a, digests) && DigestsOk(b, digests) ==> DigestsOk(a + b, digests)
  {
  }

  lemma LeavesAreGood(batch: seq<Key>, digests: map<Key, Sha>, original: Key -> Option<Original>, n: nat)
    requires Known(batch, digests)
    ensures KeysOf(AsCovered(LeavesOf(Coverings(batch, digests, original)), n)) == batch
    ensures DigestsOk(AsCovered(LeavesOf(Coverings(batch, digests, original)), n), digests)
  {
  }

  lemma CheckedFollows(h: Hashes, w: Walk, batch: seq<Key>, digests: map<Key, Sha>, original: Key -> Option<Original>)
    returns (cp: Checkpoint)
    requires batch != [] && Increasing(batch) && w.prevLast < batch[0] && Known(batch, digests)
    ensures cp == Checked(h, w.prevN + 1, w.prevSha, Coverings(batch, digests, original), "")
    ensures Follows(h, w, cp) && cp.n == w.prevN + 1 && cp.last == batch[|batch| - 1]
    ensures KeysOf(AsCovered(cp.leaves, cp.n)) == batch && DigestsOk(AsCovered(cp.leaves, cp.n), digests)
  {
    cp := Checked(h, w.prevN + 1, w.prevSha, Coverings(batch, digests, original), "");
    LeavesAreGood(batch, digests, original, cp.n);
  }

  lemma WrittenStep(h: Hashes, before: seq<Checkpoint>, keys: seq<Key>, batch: seq<Key>, digests: map<Key, Sha>,
          original: Key -> Option<Original>)
    requires CoversExactly(h, before, keys, digests)
    requires batch != [] && Increasing(batch) && LastOr0(keys) < batch[0] && Known(batch, digests)
    ensures var cp := Checked(h, |before| + 1, Link(h, before), Coverings(batch, digests, original), "");
            CoversExactly(h, before + [cp], keys + batch, digests)
  {
    var w := Walked(h, before);
    WalkedIs(h, before);
    var cp := CheckedFollows(h, w, batch, digests, original);
    StepCovers(h, before, keys, batch, digests, cp);
  }

  lemma StepCovers(h: Hashes, before: seq<Checkpoint>, keys: seq<Key>, batch: seq<Key>, digests: map<Key, Sha>,
          cp: Checkpoint)
    requires CoversExactly(h, before, keys, digests) && batch != [] && Follows(h, Walked(h, before), cp)
    requires cp.n == |before| + 1 && cp.last == batch[|batch| - 1]
    requires KeysOf(AsCovered(cp.leaves, cp.n)) == batch && DigestsOk(AsCovered(cp.leaves, cp.n), digests)
    ensures CoversExactly(h, before + [cp], keys + batch, digests)
  {
    var w := Walked(h, before);
    WalkStepClean(h, w, cp);
    WalkAppends(h, before, cp);
    CoveredJoins(w.covered, AsCovered(cp.leaves, cp.n), digests);
  }

  ghost predicate FindsNothing(h: Hashes, batches: seq<seq<Key>>, digests: map<Key, Sha>,
          original: Key -> Option<Original>) {
    var chain := Written(h, batches, digests, original);
    var covered := Walked(h, chain).covered;
    var c := Compared(covered, Sorted(digests.Keys), Readable(digests), EndOf(covered));
    && Walked(h, chain).findings == [] && |chain| == |batches|
    && c.findings == [] && c.verified == |Concat(batches)| && c.tail == |After(digests.Keys, LastOr0(Concat(batches)))|
  }

  function Readable(digests: map<Key, Sha>): Digests {
    map k | k in digests :: Some(digests[k])
  }

  /** What covers the journal up to a key is found to be intact. */
  lemma CompleteIsIntact(covered: seq<Covered>, keys: seq<Key>, digests: map<Key, Sha>)
    requires KeysOf(covered) == keys && DigestsOk(covered, digests)
    requires forall k :: k in digests && k <= LastOr0(keys) ==> k in keys
    ensures EndOf(covered) == LastOr0(keys) && Intact(covered, Readable(digests))
  {
    forall k | k in Readable(digests) && k <= EndOf(covered) ensures Covers(covered, k) {
      var i :| 0 <= i < |keys| && keys[i] == k;
      assert covered[i] in covered && covered[i].leaf.key == KeysOf(covered)[i];
    }
  }

  lemma CompleteChainsVerify(h: Hashes, batches: seq<seq<Key>>, digests: map<Key, Sha>,
          original: Key -> Option<Original>)
    requires NoneEmpty(batches) && Increasing(Concat(batches)) && Known(Concat(batches), digests)
    requires forall k :: k in digests && k <= LastOr0(Concat(batches)) ==> k in Concat(batches)
    ensures FindsNothing(h, batches, digests, original)
  {
    var chain := Written(h, batches, digests, original);
    var covered := Walked(h, chain).covered;
    WrittenIsClean(h, batches, digests, original);
    WalkFindsNothingIffClean(h, chain);
    CoveredIncreases(h, chain);
    CompleteIsIntact(covered, Concat(batches), digests);
    ComparisonIsExact(covered, Readable(digests));
    assert Readable(digests).Keys == digests.Keys;
    assert |KeysOf(covered)| == |covered|;
  }

  lemma LastIsLast(batches: seq<seq<Key>>)
    requires NoneEmpty(batches)
    ensures Machine.LastLeaf(batches) == LastOr0(Concat(batches))
  {
  }

  /**
   In every run of the machine the chain it leaves verifies: the run that checks it finds nothing, has
   verified every event up to the last one covered, and counts the rest as tail.
   */
  lemma RunsVerify(init: Machine.Sys, steps: seq<Machine.Step>, end: Machine.Sys, h: Hashes, digests: map<Key, Sha>,
          original: Key -> Option<Original>)
    requires Machine.Init(init) && Machine.Runs(init, steps, end) && digests.Keys == end.log.Keys
    ensures FindsNothing(h, end.chain, digests, original)
  {
    ChainCoversJournal(init, steps, end);
    LastIsLast(end.chain);
    assert forall k :: k in digests <==> k in end.log;
    CompleteChainsVerify(h, end.chain, digests, original);
  }
}
