/**
 What holds in every run of the machine, careful or not: keys that were listed stay below what is
 appended later, a batch is exactly a range of the journal, and the checkpoint chain covers the
 journal from its first key on, in order and each key once.
 */
module ChainSafety {
  import opened Wrappers
  import opened Journal
  import opened States
  import opened FoldFacts
  import opened Machine

  // ---------------------------------------------------------------- steady facts

  ghost predicate IsRange(log: Log, from: Key, hi: Key, entries: seq<Key>) {
    from <= hi && entries == Sorted(Range(log.Keys, from, hi))
  }

  ghost predicate ProcessSteady(log: Log, listed: Key, ix: Process) {
    && ix.lastKey <= listed
    && Bounded(ix.cache, listed)
    && match ix.pc
       case Listed(hi, entries, todo) => hi <= listed && IsRange(log, ix.lastKey, hi, entries) && Bounded(todo, listed)
       case Writing(hi, entries, left) => hi <= listed && IsRange(log, ix.lastKey, hi, entries) && Bounded(left, listed)
       case Moved(from, entries) => IsRange(log, from, ix.lastKey, entries)
       case Chaining(from, entries) => IsRange(log, from, ix.lastKey, entries)
       case Down => ix == STOPPED
       case _ => true
  }

  ghost predicate PublishedSteady(listed: Key, published: seq<Pointer>) {
    forall p :: p in published ==> p.lastKey <= listed
  }

  ghost predicate Steady(s: Sys) {
    && LogOk(s.log)
    && Bounded(s.metas, s.listed)
    && ProcessSteady(s.log, s.listed, s.ix)
    && PublishedSteady(s.listed, s.published)
    && (s.disk.Some? ==> s.disk.value.lastKey <= s.listed)
  }

  /** Appending keys that come after everything listed leaves every listed range as it was. */
  lemma RangeStays(log: Log, key: Key, event: Event, from: Key, hi: Key)
    requires hi < key
    ensures Range(log[key := event].Keys, from, hi) == Range(log.Keys, from, hi)
    ensures UpTo(log[key := event].Keys, hi) == UpTo(log.Keys, hi)
  {
  }

  lemma AppendIsSteady(s: Sys, key: Key, event: Event)
    requires Steady(s) && CanServer(s, Append(key, event))
    ensures Steady(DoServer(s, Append(key, event)))
  {
    var ix, stored := s.ix, Stamped(key, event);
    match ix.pc
    case Listed(hi, _, _) => RangeStays(s.log, key, stored, ix.lastKey, hi);
    case Writing(hi, _, _) => RangeStays(s.log, key, stored, ix.lastKey, hi);
    case Moved(from, _) => RangeStays(s.log, key, stored, from, ix.lastKey);
    case Chaining(from, _) => RangeStays(s.log, key, stored, from, ix.lastKey);
    case _ =>
  }

  lemma ListIsSteady(s: Sys, max: nat, again: set<FileId>)
    requires Steady(s) && CanFold(s, List(max, again))
    ensures Steady(DoFold(s, List(max, again)))
  {
    PageIsRange(s.log.Keys, s.ix.lastKey, max);
    OverlayIsBounded(s.log, End(Page(s.log.Keys, s.ix.lastKey, max), s.ix.lastKey), s.ix.lastKey);
  }

  lemma RekeyIsSteady(s: Sys, opstamp: nat)
    requires Steady(s) && CanRestart(s, Rekey(opstamp))
    ensures Steady(DoRestart(s, Rekey(opstamp)))
  {
    var keys := LastEvents(s.metas);
    if keys != {} {
      assert Max(keys) in keys;
    }
  }

  lemma WritingIsSteady(s: Sys, step: FoldStep)
    requires Steady(s) && CanFold(s, step)
    requires step.Commit? || step.CommitUnseen? || step.PutCache? || step.PutMeta?
    ensures Steady(DoFold(s, step))
  {
  }

  lemma MovingIsSteady(s: Sys, step: FoldStep)
    requires Steady(s) && CanFold(s, step)
    requires step.SetLast? || step.Skip? || step.Save?
    ensures Steady(DoFold(s, step))
  {
    assert step.Skip? ==> Range(s.log.Keys, s.ix.lastKey, s.ix.lastKey) == {};
  }

  lemma FinishingIsSteady(s: Sys, step: FoldStep)
    requires Steady(s) && CanFold(s, step)
    requires step.NoCheckpoint? || step.NothingToPublish? || step.SaveGeneration?
    ensures Steady(DoFold(s, step))
  {
  }

  lemma PublishIsSteady(s: Sys, acknowledged: bool)
    requires Steady(s) && CanFold(s, Publish(acknowledged))
    ensures Steady(DoFold(s, Publish(acknowledged)))
  {
  }

  lemma ChainedIsSteady(s: Sys, head: Head, batch: seq<Key>, outcome: Outcome)
    requires Steady(s)
    ensures Steady(Chained(s, head, batch, outcome))
  {
  }

  lemma CheckpointIsSteady(s: Sys, outcome: Outcome)
    requires Steady(s) && CanFold(s, Checkpoint(outcome))
    ensures Steady(DoFold(s, Checkpoint(outcome)))
  {
    ChainedIsSteady(s, HeadOf(s), Batch(s.log, HeadOf(s).lastKey, s.ix.pc.from, s.ix.pc.entries), outcome);
  }

  lemma StopIsSteady(s: Sys, step: RestartStep)
    requires Steady(s) && CanRestart(s, step)
    requires step.Fail? || step.Crash? || step.LoseDirectory?
    ensures Steady(DoRestart(s, step))
  {
  }

  lemma RebuildIsSteady(s: Sys, step: RestartStep)
    requires Steady(s) && CanRestart(s, step)
    requires step.Wipe? || step.Reload? || step.SaveRekeyed?
    ensures Steady(DoRestart(s, step))
  {
  }

  lemma StartIsSteady(s: Sys, opstamp: nat)
    requires Steady(s) && CanRestart(s, Start(opstamp))
    ensures Steady(DoRestart(s, Start(opstamp)))
  {
  }

  lemma AdoptIsSteady(s: Sys, step: RestartStep)
    requires Steady(s) && CanRestart(s, step)
    requires step.SaveAdopted? || step.LoadAdopted?
    ensures Steady(DoRestart(s, step))
  {
  }

  lemma ReadIsSteady(s: Sys, step: ServerStep)
    requires Steady(s) && CanServer(s, step) && !step.Append?
    ensures Steady(DoServer(s, step))
  {
  }

  lemma FollowIsSteady(s: Sys, step: FollowStep)
    requires Steady(s) && CanFollow(s, step)
    ensures Steady(DoFollow(s, step))
  {
  }

  lemma StepIsSteady(s: Sys, step: Step)
    requires Steady(s) && Enabled(s, step)
    ensures Steady(Apply(s, step))
  {
    match step
    case Server(Append(key, event)) => AppendIsSteady(s, key, event);
    case Server(a) => ReadIsSteady(s, a);
    case Fold(a) =>
      match a {
        case List(max, again) => ListIsSteady(s, max, again);
        case Commit(_) | CommitUnseen(_) | PutCache(_) | PutMeta(_) => WritingIsSteady(s, a);
        case SetLast | Skip | Save => MovingIsSteady(s, a);
        case Checkpoint(outcome) => CheckpointIsSteady(s, outcome);
        case Publish(acknowledged) => PublishIsSteady(s, acknowledged);
        case _ => FinishingIsSteady(s, a);
      }
    case Restart(a) =>
      match a {
        case Rekey(opstamp) => RekeyIsSteady(s, opstamp);
        case Start(opstamp) => StartIsSteady(s, opstamp);
        case SaveAdopted | LoadAdopted => AdoptIsSteady(s, a);
        case Wipe(_) | Reload(_) | SaveRekeyed => RebuildIsSteady(s, a);
        case _ => StopIsSteady(s, a);
      }
    case Follow(a) => FollowIsSteady(s, a);
  }

  // ---------------------------------------------------------------- the chain

  function Concat(chain: seq<seq<Key>>): seq<Key> {
    if chain == [] then [] else Concat(chain[..|chain| - 1]) + chain[|chain| - 1]
  }

  /** The checkpoints cover exactly the journal up to their last key. */
  ghost predicate Complete(log: Log, chain: seq<seq<Key>>) {
    Concat(chain) == Sorted(UpTo(log.Keys, LastLeaf(chain)))
  }

  ghost predicate NoneEmpty(chain: seq<seq<Key>>) {
    forall i :: 0 <= i < |chain| ==> chain[i] != []
  }

  /** Every part of the chain from the start is complete and stays below what was listed. */
  ghost predicate ChainOk(log: Log, listed: Key, chain: seq<seq<Key>>) {
    && (forall n: nat :: n <= |chain| ==> Complete(log, chain[..n]) && LastLeaf(chain[..n]) <= listed)
    && NoneEmpty(chain)
  }

  /** The head the indexer knows may miss the checkpoint whose write it saw fail. */
  ghost predicate HeadOk(chain: seq<seq<Key>>, head: Head) {
    head.n <= |chain| <= head.n + 1 && head.lastKey == LastLeaf(chain[..head.n])
  }

  ghost predicate ChainInv(s: Sys) {
    ChainOk(s.log, s.listed, s.chain) && HeadOk(s.chain, HeadOf(s))
  }

  lemma {:induction false} BeyondSorted(keys: set<Key>, after: Key)
    ensures Beyond(Sorted(keys), after) == Sorted(After(keys, after))
  {
    if keys != {} {
      var m := Min(keys);
      var rest := keys - {m};
      BeyondSorted(rest, after);
      assert ([m] + Sorted(rest))[1..] == Sorted(rest);
      assert keys == {m} + rest;
      if m > after {
        assert After(keys, after) == {m} + After(rest, after);
        SortedStarts(m, After(rest, after));
      } else {
        assert After(keys, after) == After(rest, after);
      }
    }
  }

  /** A batch is exactly the events between the head and the last folded key. */
  lemma BatchIsRange(log: Log, head: Key, from: Key, hi: Key, entries: seq<Key>)
    requires IsRange(log, from, hi, entries)
    ensures Batch(log, head, from, entries) == Sorted(Range(log.Keys, head, hi))
  {
    var keys := Range(log.Keys, from, hi);
    BeyondSorted(keys, head);
    if from > head {
      var gap := Range(log.Keys, head, from);
      assert After(keys, head) == keys;
      assert Range(log.Keys, head, hi) == gap + keys;
      SortedSplits(gap, keys);
    } else {
      assert After(keys, head) == Range(log.Keys, head, hi);
    }
  }

  lemma LastOfRange(keys: set<Key>, lo: Key, hi: Key)
    requires Range(keys, lo, hi) != {}
    ensures var s := Sorted(Range(keys, lo, hi));
            s != [] && lo < s[|s| - 1] <= hi && UpTo(keys, s[|s| - 1]) == UpTo(keys, lo) + Range(keys, lo, hi)
  {
    var range := Range(keys, lo, hi);
    SortedLists(range);
    var s := Sorted(range);
    var last := s[|s| - 1];
    assert last in s && last in range;
    forall k | k in range ensures k <= last {
      assert k in s;
      var i :| 0 <= i < |s| && s[i] == k;
    }
  }

  /** Extending a complete chain by the range after its end keeps it complete. */
  lemma ExtendsComplete(log: Log, chain: seq<seq<Key>>, hi: Key)
    requires Complete(log, chain) && Range(log.Keys, LastLeaf(chain), hi) != {}
    ensures var batch := Sorted(Range(log.Keys, LastLeaf(chain), hi));
            batch != [] && Complete(log, chain + [batch]) && LastLeaf(chain + [batch]) == batch[|batch| - 1] <= hi
  {
    var lo := LastLeaf(chain);
    var range := Range(log.Keys, lo, hi);
    var batch := Sorted(range);
    LastOfRange(log.Keys, lo, hi);
    SortedSplits(UpTo(log.Keys, lo), range);
    assert (chain + [batch])[..|chain|] == chain;
  }

  lemma ChainGrows(log: Log, listed: Key, chain: seq<seq<Key>>, n: nat, batch: seq<Key>)
    requires ChainOk(log, listed, chain) && n <= |chain|
    requires batch != [] && Complete(log, chain[..n] + [batch]) && LastLeaf(chain[..n] + [batch]) <= listed
    ensures ChainOk(log, listed, chain[..n] + [batch])
  {
    var grown := chain[..n] + [batch];
    forall m: nat | m <= |grown| ensures Complete(log, grown[..m]) && LastLeaf(grown[..m]) <= listed {
      if m <= n {
        assert grown[..m] == chain[..m];
      } else {
        assert grown[..m] == grown;
      }
    }
  }

  lemma NextKeepsChain(log: Log, listed: Key, chain: seq<seq<Key>>, head: Head, batch: seq<Key>, outcome: Outcome)
    requires ChainOk(log, listed, chain) && HeadOk(chain, head)
    requires batch != [] ==>
               Complete(log, chain[..head.n] + [batch])
                 && LastLeaf(chain[..head.n] + [batch]) == batch[|batch| - 1] <= listed
    ensures ChainOk(log, listed, NextChain(chain, head, batch, outcome))
    ensures HeadOk(NextChain(chain, head, batch, outcome), NextHead(head, batch, outcome))
  {
    if batch != [] && outcome != Failed {
      ChainGrows(log, listed, chain, head.n, batch);
      var grown := chain[..head.n] + [batch];
      assert grown[..head.n] == chain[..head.n] && grown[..head.n + 1] == grown;
    }
  }

  lemma CheckpointKeepsChain(s: Sys, outcome: Outcome)
    requires Steady(s) && ChainInv(s) && CanFold(s, Checkpoint(outcome))
    ensures ChainInv(DoFold(s, Checkpoint(outcome)))
  {
    var head, from, entries := HeadOf(s), s.ix.pc.from, s.ix.pc.entries;
    var batch := Batch(s.log, head.lastKey, from, entries);
    BatchIsRange(s.log, head.lastKey, from, s.ix.lastKey, entries);
    if batch != [] {
      assert Complete(s.log, s.chain[..head.n]);
      ExtendsComplete(s.log, s.chain[..head.n], s.ix.lastKey);
    }
    NextKeepsChain(s.log, s.listed, s.chain, head, batch, outcome);
  }

  lemma ChainStays(s: Sys, key: Key, event: Event)
    requires ChainInv(s) && CanServer(s, Append(key, event))
    ensures ChainInv(DoServer(s, Append(key, event)))
  {
    var grown := DoServer(s, Append(key, event)).log;
    forall n: nat | n <= |s.chain| ensures Complete(grown, s.chain[..n]) {
      assert Complete(s.log, s.chain[..n]);
      RangeStays(s.log, key, Stamped(key, event), 0, LastLeaf(s.chain[..n]));
    }
  }

  /** t has the journal and the chain of s, and no listing is taken back. */
  ghost predicate SameChain(s: Sys, t: Sys) {
    t.log == s.log && t.chain == s.chain && t.listed >= s.listed && (t.ix.head == s.ix.head || t.ix.head == None)
  }

  lemma ServerLeavesChain(s: Sys, step: ServerStep)
    requires CanServer(s, step) && !step.Append?
    ensures SameChain(s, DoServer(s, step))
  {
  }

  lemma FoldLeavesChain(s: Sys, step: FoldStep)
    requires CanFold(s, step) && !step.Checkpoint?
    ensures SameChain(s, DoFold(s, step))
  {
  }

  lemma RestartLeavesChain(s: Sys, step: RestartStep)
    requires CanRestart(s, step)
    ensures SameChain(s, DoRestart(s, step))
  {
  }

  lemma FollowLeavesChain(s: Sys, step: FollowStep)
    requires CanFollow(s, step)
    ensures SameChain(s, DoFollow(s, step))
  {
  }

  lemma ChainFrame(s: Sys, t: Sys)
    requires ChainInv(s) && SameChain(s, t)
    ensures ChainInv(t)
  {
    assert s.chain[..|s.chain|] == s.chain;
  }

  lemma StepKeepsChain(s: Sys, step: Step)
    requires Steady(s) && ChainInv(s) && Enabled(s, step)
    ensures ChainInv(Apply(s, step))
  {
    match step
    case Server(a) =>
      if a.Append? {
        ChainStays(s, a.key, a.event);
      } else {
        ServerLeavesChain(s, a);
        ChainFrame(s, DoServer(s, a));
      }
    case Fold(a) =>
      if a.Checkpoint? {
        CheckpointKeepsChain(s, a.outcome);
      } else {
        FoldLeavesChain(s, a);
        ChainFrame(s, DoFold(s, a));
      }
    case Restart(a) =>
      RestartLeavesChain(s, a);
      ChainFrame(s, DoRestart(s, a));
    case Follow(a) =>
      FollowLeavesChain(s, a);
      ChainFrame(s, DoFollow(s, a));
  }

  lemma {:induction false} RunKeepsChain(s: Sys, steps: seq<Step>, end: Sys)
    requires Steady(s) && ChainInv(s) && Runs(s, steps, end)
    ensures Steady(end) && ChainInv(end)
    decreases |steps|
  {
    if steps != [] {
      StepIsSteady(s, steps[0]);
      StepKeepsChain(s, steps[0]);
      RunKeepsChain(Apply(s, steps[0]), steps[1..], end);
    }
  }

  lemma InitIsChained(init: Sys)
    requires Init(init)
    ensures Steady(init) && ChainInv(init)
  {
    assert UpTo(init.log.Keys, 0) == {};
    assert forall n: nat :: n <= 0 ==> init.chain[..n] == [];
  }

  /**
   In every run, through failed and doubtful checkpoint writes, crashes, adoptions and rebuilds of
   any kind, the keys of the chain are the journal's keys up to the last one it covers, in order.
   */
  lemma ChainCoversJournal(init: Sys, steps: seq<Step>, end: Sys)
    requires Init(init) && Runs(init, steps, end)
    ensures Concat(end.chain) == Sorted(UpTo(end.log.Keys, LastLeaf(end.chain)))
    ensures Increasing(Concat(end.chain))
    ensures forall k :: k in Concat(end.chain) <==> k in end.log && k <= LastLeaf(end.chain)
    ensures LogOk(end.log) && NoneEmpty(end.chain)
  {
    InitIsChained(init);
    RunKeepsChain(init, steps, end);
    assert end.chain[..|end.chain|] == end.chain;
    SortedLists(UpTo(end.log.Keys, LastLeaf(end.chain)));
  }

  // ---------------------------------------------------------------- acknowledged checkpoints

  /** The first n checkpoints of one chain are those of another, of which at least as many are known. */
  ghost predicate Keeps(chain: seq<seq<Key>>, n: nat, later: seq<seq<Key>>, known: nat) {
    n <= |chain| && n <= known <= |later| && later[..n] == chain[..n]
  }

  lemma KeepsTransitive(a: seq<seq<Key>>, i: nat, b: seq<seq<Key>>, j: nat, c: seq<seq<Key>>, k: nat)
    requires Keeps(a, i, b, j) && Keeps(b, j, c, k)
    ensures Keeps(a, i, c, k)
  {
    assert c[..j][..i] == c[..i] && b[..j][..i] == b[..i];
  }

  /** t has the chain of s up to the head that s knows, and knows no less of it. */
  ghost predicate KnownStays(s: Sys, t: Sys) {
    Keeps(s.chain, HeadOf(s).n, t.chain, HeadOf(t).n)
  }

  lemma CheckpointKeepsKnown(s: Sys, outcome: Outcome)
    requires ChainInv(s) && CanFold(s, Checkpoint(outcome))
    requires ChainInv(DoFold(s, Checkpoint(outcome)))
    ensures KnownStays(s, DoFold(s, Checkpoint(outcome)))
  {
  }

  lemma FrameKeepsKnown(s: Sys, t: Sys)
    requires ChainInv(s) && SameChain(s, t)
    ensures KnownStays(s, t)
  {
  }

  lemma StepKeepsKnown(s: Sys, step: Step)
    requires Steady(s) && ChainInv(s) && Enabled(s, step)
    ensures KnownStays(s, Apply(s, step))
  {
    StepKeepsChain(s, step);
    match step
    case Server(a) =>
      if !a.Append? {
        ServerLeavesChain(s, a);
        FrameKeepsKnown(s, DoServer(s, a));
      }
    case Fold(a) =>
      if a.Checkpoint? {
        CheckpointKeepsKnown(s, a.outcome);
      } else {
        FoldLeavesChain(s, a);
        FrameKeepsKnown(s, DoFold(s, a));
      }
    case Restart(a) =>
      RestartLeavesChain(s, a);
      FrameKeepsKnown(s, DoRestart(s, a));
    case Follow(a) =>
      FollowLeavesChain(s, a);
      FrameKeepsKnown(s, DoFollow(s, a));
  }

  lemma {:induction false} RunKeepsKnown(s: Sys, steps: seq<Step>, end: Sys)
    requires Steady(s) && ChainInv(s) && Runs(s, steps, end)
    ensures KnownStays(s, end)
    decreases |steps|
  {
    if steps != [] {
      var t := Apply(s, steps[0]);
      StepIsSteady(s, steps[0]);
      StepKeepsChain(s, steps[0]);
      StepKeepsKnown(s, steps[0]);
      RunKeepsKnown(t, steps[1..], end);
      KeepsTransitive(s.chain, HeadOf(s).n, t.chain, HeadOf(t).n, end.chain, HeadOf(end).n);
    }
  }

  /** An acknowledged checkpoint comes right after the head, with the events between the two, and is the head. */
  lemma AcknowledgedIsHead(s: Sys)
    requires Steady(s) && ChainInv(s) && CanFold(s, Checkpoint(Acknowledged))
    requires Range(s.log.Keys, HeadOf(s).lastKey, s.ix.lastKey) != {}
    ensures var t, n := DoFold(s, Checkpoint(Acknowledged)), HeadOf(s).n;
            && HeadOf(t).n == |t.chain| == n + 1 <= |s.chain| + 1 && t.chain[..n] == s.chain[..n]
            && t.chain[n] == Sorted(Range(s.log.Keys, HeadOf(s).lastKey, s.ix.lastKey))
  {
    BatchIsRange(s.log, HeadOf(s).lastKey, s.ix.pc.from, s.ix.lastKey, s.ix.pc.entries);
    LastOfRange(s.log.Keys, HeadOf(s).lastKey, s.ix.lastKey);
  }

  /**
   An acknowledged checkpoint comes right after the head, with the journal's events between the two, and
   in every run from there it and the chain before it stay as they are.
   */
  lemma AcknowledgedCheckpointLasts(init: Sys, steps: seq<Step>, s: Sys, rest: seq<Step>, end: Sys)
    requires Init(init) && Runs(init, steps, s) && CanFold(s, Checkpoint(Acknowledged))
    requires Range(s.log.Keys, HeadOf(s).lastKey, s.ix.lastKey) != {}
    requires Runs(DoFold(s, Checkpoint(Acknowledged)), rest, end)
    ensures var n := HeadOf(s).n;
            && n <= |s.chain| && n < |end.chain| && end.chain[..n] == s.chain[..n]
            && end.chain[n] == Sorted(Range(s.log.Keys, HeadOf(s).lastKey, s.ix.lastKey))
  {
    InitIsChained(init);
    RunKeepsChain(init, steps, s);
    CheckpointKeepsChain(s, Acknowledged);
    CheckpointIsSteady(s, Acknowledged);
    AcknowledgedIsHead(s);
    RunKeepsKnown(DoFold(s, Checkpoint(Acknowledged)), rest, end);
    PrefixHas(DoFold(s, Checkpoint(Acknowledged)).chain, end.chain, HeadOf(s).n);
  }

  lemma PrefixHas(chain: seq<seq<Key>>, later: seq<seq<Key>>, n: nat)
    requires |chain| == n + 1 <= |later| && later[..n + 1] == chain[..n + 1]
    ensures later[..n] == chain[..n] && later[n] == chain[n]
  {
    assert later[..n + 1][..n] == later[..n] && chain[..n + 1][..n] == chain[..n];
    assert later[..n + 1][n] == later[n];
  }
}
