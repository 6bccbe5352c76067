/**
 What a rebuild that fails in a live process leads to. The index is emptied first; if the meta objects
 can then not be read, the memory keeps its last key, and the runs that follow fold only newer events.
 */
module RebuildWitness {
  import opened Wrappers
  import opened Faults
  import opened Journal
  import opened States
  import opened Documents
  import opened IndexerState
  import opened Indexer

  function Live(f: FileId): Event {
    StateEvent(File(f, false, "", [], "", "", 0))
  }

  lemma PageOfOne(keys: set<Key>, from: Key, max: nat, key: Key)
    requires max > 0 && After(keys, from) == {key}
    ensures Page(keys, from, max) == [key]
  {
    assert key in After(keys, from) && Min({key}) == key;
    forall k ensures k !in After(keys, key) {
      assert k in After(keys, key) ==> k in After(keys, from);
    }
    assert After(keys, key) == {} && FirstN(keys, key, max - 1) == [];
  }

  /** Neither the index nor the writer has a document of f, it is not pending, and the saved state agrees. */
  ghost predicate Misses(s: State, f: FileId, from: Key) {
    && f !in s.index && f !in Applied(s.index, s.staged) && f !in s.pending && s.lastKey >= from
    && (s.disk.Some? ==> f !in s.disk.value.pending && s.disk.value.lastKey >= from)
  }

  lemma StillMisses(s: State, t: State, f: FileId, from: Key)
    requires Misses(s, f, from) && Resumed(s, t) && Settled(t.log, f, from)
    ensures Misses(t, f, from)
  {
    assert Settled(t.log, f, s.lastKey);
    assert Kept(s, t, f);
    assert HadDoc(s, f, Lookup(t.index, f)) && HadDoc(s, f, Lookup(Applied(t.index, t.staged), f));
  }

  lemma SettledThen(log: Log, grown: Log, f: FileId, from: Key)
    requires Extends(log, grown) && Settled(grown, f, from)
    ensures Settled(log, f, from)
  {
    assert forall k: Key :: IsState(log, k, f) ==> IsState(grown, k, f);
  }

  /** A failed rebuild leaves every file so that was not pending and whose document it had not upserted. */
  lemma BareMisses(s: State, t: State, f: FileId)
    requires BareAfter(s, t) && t.index == map[] && f !in t.staged && f !in s.pending
    ensures Misses(t, f, t.lastKey)
  {
    AppliedHas(t.index, t.staged, f);
  }

  /** What an indexer does in its loop, and when it is started again over its directory. */
  datatype Action = Runs | Publishes | Restarts

  method Act(ix: Indexer, env: Env, action: Action, ghost f: FileId, ghost from: Key, ghost q: Quality)
    returns (ghost r: Quality)
    requires ix.Holds(q) && (Settled(ix.inputs.log, f, from) ==> Misses(ix.View(), f, from))
    modifies ix, ix.inputs
    ensures ix.Holds(r) && Extends(old(ix.inputs.log), ix.inputs.log)
    ensures Settled(ix.inputs.log, f, from) ==> Misses(ix.View(), f, from)
  {
    ghost var s := ix.View();
    r := q;
    match action
    case Runs =>
      var ok, events := ix.RunOnce(env, q);
      if Settled(ix.inputs.log, f, from) {
        SettledThen(s.log, ix.inputs.log, f, from);
        StillMisses(s, ix.View(), f, from);
      }
    case Publishes =>
      var ok;
      ok, r := ix.Publish(env, q);
    case Restarts =>
      if WayOf(ix.View()) == Resumes {
        r := StartAgain(ix, env, f, from, q);
      }
  }

  method StartAgain(ix: Indexer, env: Env, ghost f: FileId, ghost from: Key, ghost q: Quality)
    returns (ghost r: Quality)
    requires ix.Holds(q) && (Settled(ix.inputs.log, f, from) ==> Misses(ix.View(), f, from))
      && WayOf(ix.View()) == Resumes
    modifies ix, ix.inputs
    ensures ix.Holds(r) && Extends(old(ix.inputs.log), ix.inputs.log)
    ensures Settled(ix.inputs.log, f, from) ==> Misses(ix.View(), f, from)
  {
    ghost var s := ix.View();
    ghost var at, ready;
    var ok;
    ok, at, ready, r := ix.Start(env, q);
    if Settled(ix.inputs.log, f, from) {
      SettledThen(s.log, ix.inputs.log, f, from);
      AppliedNone(s.index);
      assert Misses(Opened(s), f, from);
      if ix.View() != s {
        StillMisses(Opened(s), ix.View(), f, from);
      }
    }
  }

  /**
   However many runs, publishes and restarts from the saved state follow, in any order and however they end,
   a file without news that is not indexed stays so. Only an adoption or a rebuild takes another index.
   */
  method StaysUnindexed(ix: Indexer, env: Env, actions: seq<Action>, ghost f: FileId, ghost q: Quality)
    requires ix.Holds(q) && Misses(ix.View(), f, ix.lastKey)
    modifies ix, ix.inputs
    ensures Settled(ix.inputs.log, f, old(ix.lastKey)) ==> Misses(ix.View(), f, old(ix.lastKey))
  {
    ghost var r := q;
    for i := 0 to |actions|
      invariant ix.Holds(r)
      invariant Settled(ix.inputs.log, f, old(ix.lastKey)) ==> Misses(ix.View(), f, old(ix.lastKey))
    {
      r := Act(ix, env, actions[i], f, old(ix.lastKey), r);
    }
  }

  /** A live file that is settled has to be indexed. */
  lemma LiveHasToBeIndexed(log: Log, texts: Texts, key: Key, index: Index, pending: Pending, k: Key, f: FileId)
    requires IsState(log, k, f) && !log[k].file.deleted && Settled(log, f, key)
      && forall i: Key :: IsState(log, i, f) ==> i <= k
    requires k > 0 && f !in index
    ensures !IndexOk(log, texts, key, index, pending)
  {
    NewestIs(log, k, f, 0);
    assert !DocOk(Newest(log, f), texts, Lookup(index, f), Lookup(pending, f));
  }

  const CALM := Env(true, true)
  const GOOD := Quality(true, true, true)

  /** An indexer of its own that has folded the live file "a". */
  method RunOverA() returns (ix: Indexer)
    ensures fresh(ix) && fresh(ix.inputs) && ix.Holds(GOOD) && ix.maxEvents == 10
    ensures ix.inputs.log == map[1 := Stamped(1, Live("a"))] && ix.inputs.listed == 1 && ix.lastKey == 1
    ensures ix.published == None
  {
    var inputs := new Inputs();
    ix := new Indexer(inputs, 10);
    ghost var s := ix.View();
    inputs.Append(1, Live("a"));
    GrowthKeeps(s, GOOD, inputs.log, inputs.texts);
    PageOfOne(inputs.log.Keys, 0, 10, 1);
    var ok, events := ix.RunOnce(CALM, GOOD);
  }

  lemma NotPending(s: State, f: FileId)
    requires Basic(s) && DocsRight(s) && Settled(s.log, f, s.lastKey)
    requires Newest(s.log, f).Some? && Newest(s.log, f).value.textKey == ""
    ensures f !in s.pending
  {
    assert DocOk(Newest(s.log, f), s.texts, Lookup(s.index, f), Lookup(s.pending, f));
  }

  /** The rebuild cannot read the meta objects and fails; the run after it folds the new file "b". */
  method FailedRebuild() returns (ix: Indexer)
    ensures fresh(ix) && fresh(ix.inputs) && ix.Holds(Quality(true, false, true)) && ix.published == None
      && ix.maxEvents == 10
    ensures ix.inputs.log == map[1 := Stamped(1, Live("a")), 2 := Stamped(2, Live("b"))]
    ensures ix.lastKey == 2 && "a" !in ix.index && "a" !in ix.pending
    ensures ix.disk == Some(StateFile(2, ix.pending, ix.generation))
    ensures Misses(ix.View(), "a", 1)
  {
    ix := RunOverA();
    NewestIs(ix.inputs.log, 1, "a", 0);
    NotPending(ix.View(), "a");
    var ok, at, ready, r := ix.Rebuild(CALM, false, GOOD);
    ghost var s := ix.View();
    ix.inputs.Append(2, Live("b"));
    GrowthKeeps(s, r, ix.inputs.log, ix.inputs.texts);
    RunOverB(ix, r);
  }

  method RunOverB(ix: Indexer, ghost q: Quality)
    requires ix.Holds(q) && ix.maxEvents == 10 && ix.lastKey == 1 && Misses(ix.View(), "a", 1)
    requires ix.inputs.log == map[1 := Stamped(1, Live("a")), 2 := Stamped(2, Live("b"))]
    modifies ix, ix.inputs
    ensures ix.Holds(q) && ix.inputs.log == old(ix.inputs.log) && ix.published == old(ix.published)
    ensures ix.lastKey == 2 && Misses(ix.View(), "a", 1)
    ensures ix.disk == Some(StateFile(2, ix.pending, ix.generation))
  {
    PageOfOne(ix.inputs.log.Keys, 1, 10, 2);
    assert Settled(ix.inputs.log, "a", 1);
    ghost var s := ix.View();
    var ok, events := ix.RunOnce(CALM, q);
    StillMisses(s, ix.View(), "a", 1);
  }

  /** A saved state of the published generation, with meta objects, is resumed. */
  lemma WillResume(s: State, k: Key, f: FileId)
    requires s.disk.Some? && s.published.Some? && s.disk.value.generation == s.published.value.generation
    requires Covered(s) && IsState(s.log, k, f) && k <= s.lastKey
    ensures WayOf(s) == Resumes
  {
    assert CoversFile(s.log, s.lastKey, s.metas, f);
  }

  /** It starts again from what it saved. */
  method Restart(ix: Indexer, ghost q: Quality)
    requires ix.Holds(q) && ix.maxEvents == 10 && WayOf(ix.View()) == Resumes
    requires ix.disk.value.lastKey == 2 && Misses(ix.View(), "a", 1)
    requires ix.inputs.log == map[1 := Stamped(1, Live("a")), 2 := Stamped(2, Live("b"))]
    modifies ix, ix.inputs
    ensures ix.inputs.log == old(ix.inputs.log) && ix.lastKey == 2 && "a" !in ix.index
      && ix.published == old(ix.published)
  {
    PageIsRange(ix.inputs.log.Keys, 2, 10);
    assert Settled(ix.inputs.log, "a", 2);
    ghost var s := ix.View();
    var ok, at, ready, r := ix.Start(CALM, q);
    AppliedNone(s.index);
    if ix.View() != s {
      StillMisses(Opened(s), ix.View(), "a", 1);
    }
  }

  /** Everything is folded, and neither the index nor the published snapshot has the live file "a". */
  method FailedRebuildLosesDocuments()
    returns (log: Log, texts: Texts, lastKey: Key, index: Index, pending: Pending, shown: Snapshot)
    ensures LogOk(log) && Newest(log, "a") == Some(File("a", false, "", [], "", "", 1))
      && forall f :: Settled(log, f, lastKey)
    ensures "a" !in index && !IndexOk(log, texts, lastKey, index, pending)
    ensures "a" !in shown.index && !IndexOk(log, texts, shown.lastKey, shown.index, shown.pending)
  {
    var ix := FailedRebuild();
    var ok, r := ix.Publish(CALM, Quality(true, false, true));
    WillResume(ix.View(), 1, "a");
    Restart(ix, r);
    shown := ix.published.value;
    log, texts, lastKey, index, pending := ix.inputs.log, ix.inputs.texts, ix.lastKey, ix.index, ix.pending;
    NewestIs(log, 1, "a", 0);
    LiveHasToBeIndexed(log, texts, 2, index, pending, 1, "a");
    LiveHasToBeIndexed(log, texts, 2, shown.index, shown.pending, 1, "a");
  }
}
