/**
 What holds in every careful run about the folded state: cache and meta objects are at least as new
 as the journal up to the last folded key, and every published generation, saved state and recorded
 change is right about the part of the journal it speaks of.
 */
module FoldSafety {
  import opened Wrappers
  import opened Journal
  import opened States
  import opened FoldFacts
  import opened Machine
  import opened ChainSafety

  // ---------------------------------------------------------------- the invariant

  function Top(published: seq<Pointer>): Key {
    EndOf(published, |published|)
  }

  /** No generation ends before a state event that an earlier one includes. */
  ghost predicate Ordered(log: Log, published: seq<Pointer>) {
    forall g: nat, h: nat :: g <= h <= |published| ==> NoneBetween(log, EndOf(published, h), EndOf(published, g))
  }

  /** Change lists name every file with a state event since the generation before. */
  ghost predicate Recorded(log: Log, published: seq<Pointer>) {
    forall g: nat :: g < |published| ==>
      && published[g].change.generation == g + 1
      && Names(log, EndOf(published, g), EndOf(published, g + 1), published[g].change.full, published[g].change.changed)
  }

  ghost predicate BucketOk(log: Log, metas: Files, published: seq<Pointer>) {
    && Sound(log, metas)
    && Covers(log, Top(published), metas)
    && Ordered(log, published)
    && Recorded(log, published)
  }

  /** The index holds what the stored pointer says, as far as its opstamp and generation tell. */
  predicate InSync(published: seq<Pointer>, generation: nat, opstamp: nat) {
    published != [] && generation == |published| && opstamp == Last(published).opstamp
  }

  ghost predicate DiskOk(log: Log, metas: Files, published: seq<Pointer>, opstamp: nat, disk: Option<Saved>) {
    disk.Some? ==>
      var lastKey, generation := disk.value.lastKey, disk.value.generation;
      && generation <= |published|
      && Covers(log, lastKey, metas)
      && (generation == |published| ==> NoneBetween(log, lastKey, Top(published)))
      && (InSync(published, generation, opstamp) ==> NoneBetween(log, Top(published), lastKey))
  }

  ghost predicate Live(log: Log, metas: Files, published: seq<Pointer>, disk: Option<Saved>, opstamp: nat,
          ix: Process) {
    && Sound(log, ix.cache)
    && Covers(log, ix.lastKey, ix.cache)
    && Covers(log, ix.lastKey, metas)
    && NoneBetween(log, ix.lastKey, Top(published))
    && Names(log, Top(published), ix.lastKey, ix.full, ix.changed)
    && ix.generation <= |published|
    && (InSync(published, ix.generation, opstamp) ==> NoneBetween(log, Top(published), ix.lastKey))
    && (disk.Some? ==> NoneBetween(log, ix.lastKey, disk.value.lastKey))
  }

  ghost predicate ProcessOk(log: Log, metas: Files, published: seq<Pointer>, disk: Option<Saved>, opstamp: nat,
          ix: Process) {
    match ix.pc
    case Down => true
    case Fetched => published != [] && opstamp == Last(published).opstamp
    case Adopted =>
      && published != [] && opstamp == Last(published).opstamp && disk == Some(Saved(ix.lastKey, ix.generation))
      && ix.lastKey == Top(published) && ix.generation == |published| && !ix.full && ix.changed == {}
    case Listed(hi, _, todo) =>
      Live(log, metas, published, disk, opstamp, ix) && FoldOk(log, ix.lastKey, hi, todo)
    case Writing(hi, _, left) =>
      && Live(log, metas, published, disk, opstamp, ix) && WriteOk(log, metas, hi, ix.cache, left)
      && Names(log, ix.lastKey, hi, ix.full, ix.changed)
      && (published == [] || opstamp != Last(published).opstamp)
    case _ => Live(log, metas, published, disk, opstamp, ix)
  }

  predicate Up(pc: Pc) {
    !pc.Down? && !pc.Fetched? && !pc.Adopted?
  }

  lemma UpIsLive(log: Log, metas: Files, published: seq<Pointer>, disk: Option<Saved>, opstamp: nat, ix: Process)
    requires ProcessOk(log, metas, published, disk, opstamp, ix) && Up(ix.pc)
    ensures Live(log, metas, published, disk, opstamp, ix)
  {
  }

  ghost predicate Safe(s: Sys) {
    && BucketOk(s.log, s.metas, s.published)
    && DiskOk(s.log, s.metas, s.published, s.opstamp, s.disk)
    && ProcessOk(s.log, s.metas, s.published, s.disk, s.opstamp, s.ix)
  }

  // ---------------------------------------------------------------- the journal grows

  lemma EndIsListed(listed: Key, published: seq<Pointer>, g: nat)
    requires PublishedSteady(listed, published) && g <= |published|
    ensures EndOf(published, g) <= listed
  {
  }

  lemma BucketStays(log: Log, grown: Log, listed: Key, metas: Files, published: seq<Pointer>)
    requires Later(log, grown, listed) && PublishedSteady(listed, published) && BucketOk(log, metas, published)
    ensures BucketOk(grown, metas, published)
  {
    EndIsListed(listed, published, |published|);
    SoundStays(log, grown, metas);
    CoverageStays(log, grown, listed, Top(published), metas);
    forall g: nat, h: nat | g <= h <= |published| ensures NoneBetween(grown, EndOf(published, h), EndOf(published, g)) {
      EndIsListed(listed, published, g);
      NoneStays(log, grown, listed, EndOf(published, h), EndOf(published, g));
    }
    forall g: nat | g < |published|
      ensures Names(grown, EndOf(published, g), EndOf(published, g + 1), published[g].change.full,
                published[g].change.changed)
    {
      EndIsListed(listed, published, g + 1);
      NamesStay(log, grown, listed, EndOf(published, g), EndOf(published, g + 1), published[g].change.full,
        published[g].change.changed);
    }
  }

  lemma DiskStays(log: Log, grown: Log, listed: Key, metas: Files, published: seq<Pointer>, opstamp: nat,
          disk: Option<Saved>)
    requires Later(log, grown, listed) && PublishedSteady(listed, published)
      && DiskOk(log, metas, published, opstamp, disk)
    requires disk.Some? ==> disk.value.lastKey <= listed
    ensures DiskOk(grown, metas, published, opstamp, disk)
  {
    if disk.Some? {
      EndIsListed(listed, published, |published|);
      CoverageStays(log, grown, listed, disk.value.lastKey, metas);
      NoneStays(log, grown, listed, disk.value.lastKey, Top(published));
      NoneStays(log, grown, listed, Top(published), disk.value.lastKey);
    }
  }

  lemma LiveStays(log: Log, grown: Log, listed: Key, metas: Files, published: seq<Pointer>, disk: Option<Saved>,
          opstamp: nat, ix: Process)
    requires Later(log, grown, listed) && PublishedSteady(listed, published)
      && Live(log, metas, published, disk, opstamp, ix)
    requires ix.lastKey <= listed && (disk.Some? ==> disk.value.lastKey <= listed)
    ensures Live(grown, metas, published, disk, opstamp, ix)
  {
    EndIsListed(listed, published, |published|);
    SoundStays(log, grown, ix.cache);
    CoverageStays(log, grown, listed, ix.lastKey, ix.cache);
    CoverageStays(log, grown, listed, ix.lastKey, metas);
    NoneStays(log, grown, listed, ix.lastKey, Top(published));
    NoneStays(log, grown, listed, Top(published), ix.lastKey);
    NamesStay(log, grown, listed, Top(published), ix.lastKey, ix.full, ix.changed);
    if disk.Some? {
      NoneStays(log, grown, listed, ix.lastKey, disk.value.lastKey);
    }
  }

  lemma ProcessStays(log: Log, grown: Log, listed: Key, metas: Files, published: seq<Pointer>, disk: Option<Saved>,
          opstamp: nat, ix: Process)
    requires Later(log, grown, listed) && PublishedSteady(listed, published) && ProcessSteady(log, listed, ix)
    requires ProcessOk(log, metas, published, disk, opstamp, ix)
    requires disk.Some? ==> disk.value.lastKey <= listed
    ensures ProcessOk(grown, metas, published, disk, opstamp, ix)
  {
    if !ix.pc.Down? && !ix.pc.Fetched? && !ix.pc.Adopted? {
      LiveStays(log, grown, listed, metas, published, disk, opstamp, ix);
    }
    match ix.pc
    case Listed(hi, _, todo) => FoldStays(log, grown, listed, ix.lastKey, hi, todo);
    case Writing(hi, _, left) =>
      WriteStays(log, grown, listed, metas, hi, ix.cache, left);
      NamesStay(log, grown, listed, ix.lastKey, hi, ix.full, ix.changed);
    case _ =>
  }

  lemma AppendIsSafe(s: Sys, key: Key, event: Event)
    requires Steady(s) && Safe(s) && CanServer(s, Append(key, event))
    ensures Safe(DoServer(s, Append(key, event)))
  {
    var grown := s.log[key := Stamped(key, event)];
    assert Later(s.log, grown, s.listed);
    BucketStays(s.log, grown, s.listed, s.metas, s.published);
    DiskStays(s.log, grown, s.listed, s.metas, s.published, s.opstamp, s.disk);
    ProcessStays(s.log, grown, s.listed, s.metas, s.published, s.disk, s.opstamp, s.ix);
  }

  // ---------------------------------------------------------------- one run

  lemma NoneTransitive(log: Log, lo: Key, mid: Key, hi: Key)
    requires NoneBetween(log, lo, mid) && NoneBetween(log, mid, hi)
    ensures NoneBetween(log, lo, hi)
  {
  }

  lemma ListIsSafe(s: Sys, max: nat, again: set<FileId>)
    requires Steady(s) && Safe(s) && CanFold(s, List(max, again))
    ensures Safe(DoFold(s, List(max, again)))
  {
    var hi := End(Page(s.log.Keys, s.ix.lastKey, max), s.ix.lastKey);
    PageIsRange(s.log.Keys, s.ix.lastKey, max);
    TodoIsFold(s.log, s.ix.lastKey, hi, s.ix.cache, again);
  }

  lemma CommitIsSafe(s: Sys, opstamp: nat)
    requires Steady(s) && Safe(s) && CanFold(s, Commit(opstamp))
    ensures Safe(DoFold(s, Commit(opstamp)))
  {
    var ix := s.ix;
    FoldIsWrite(s.log, s.metas, ix.lastKey, ix.pc.hi, ix.cache, ix.pc.todo);
  }

  lemma CommitUnseenIsSafe(s: Sys, opstamp: nat)
    requires Steady(s) && Safe(s) && CanFold(s, CommitUnseen(opstamp))
    ensures Safe(DoFold(s, CommitUnseen(opstamp)))
  {
  }

  lemma PutCacheIsSafe(s: Sys, f: FileId)
    requires Steady(s) && Safe(s) && CanFold(s, PutCache(f))
    ensures Safe(DoFold(s, PutCache(f)))
  {
    PutKeepsCovers(s.log, s.ix.lastKey, s.ix.pc.hi, s.ix.cache, s.ix.pc.left, f);
  }

  lemma PutMetaIsSafe(s: Sys, f: FileId)
    requires Steady(s) && Safe(s) && CanFold(s, PutMeta(f))
    ensures Safe(DoFold(s, PutMeta(f)))
  {
    var ix, hi, left := s.ix, s.ix.pc.hi, s.ix.pc.left;
    var metas := s.metas[f := left[f]];
    PutKeepsCovers(s.log, ix.lastKey, hi, s.metas, left, f);
    CoversLess(s.log, ix.lastKey, Top(s.published), metas);
    if s.disk.Some? {
      CoversLess(s.log, ix.lastKey, s.disk.value.lastKey, metas);
    }
    PutWrites(s.log, s.metas, hi, ix.cache, left, f);
  }

  lemma SetLastIsSafe(s: Sys)
    requires Steady(s) && Safe(s) && CanFold(s, SetLast)
    ensures Safe(DoFold(s, SetLast))
  {
    var ix := s.ix;
    if ix.pc.Listed? {
      FoldIsWrite(s.log, s.metas, ix.lastKey, ix.pc.hi, ix.cache, ix.pc.todo);
      assert NoneBetween(s.log, ix.lastKey, ix.pc.hi);
    }
  }

  lemma SaveIsSafe(s: Sys, step: FoldStep)
    requires Steady(s) && Safe(s) && CanFold(s, step) && (step.Save? || step.SaveGeneration?)
    ensures Safe(DoFold(s, step))
  {
  }

  /** t only has the program counter of s moved to a place without obligations. */
  ghost predicate OnlyMoves(s: Sys, t: Sys) {
    && t.log == s.log && t.metas == s.metas && t.published == s.published && t.disk == s.disk && t.opstamp == s.opstamp
    && t.ix.cache == s.ix.cache && t.ix.lastKey == s.ix.lastKey && t.ix.generation == s.ix.generation
    && t.ix.full == s.ix.full && t.ix.changed == s.ix.changed
    && !s.ix.pc.Down? && !s.ix.pc.Fetched? && !s.ix.pc.Adopted?
    && (t.ix.pc.Idle? || t.ix.pc.Publishing? || t.ix.pc.Chaining?)
  }

  lemma MoveIsSafe(s: Sys, t: Sys)
    requires Safe(s) && OnlyMoves(s, t)
    ensures Safe(t)
  {
  }

  lemma ChainedMoves(s: Sys, head: Head, batch: seq<Key>, outcome: Outcome)
    requires s.ix.pc.Chaining?
    ensures OnlyMoves(s, Chained(s, head, batch, outcome))
  {
  }

  lemma ChainedIsSafe(s: Sys, head: Head, batch: seq<Key>, outcome: Outcome)
    requires Safe(s) && s.ix.pc.Chaining?
    ensures Safe(Chained(s, head, batch, outcome))
  {
    ChainedMoves(s, head, batch, outcome);
    MoveIsSafe(s, Chained(s, head, batch, outcome));
  }

  lemma PassIsSafe(s: Sys, step: FoldStep)
    requires Safe(s) && CanFold(s, step) && (step.Skip? || step.NoCheckpoint? || step.NothingToPublish?)
    ensures Safe(DoFold(s, step))
  {
    MoveIsSafe(s, DoFold(s, step));
  }

  /** A pointer put now ends at the last folded key and names everything since the one before. */
  lemma PublishKeepsBucket(log: Log, metas: Files, published: seq<Pointer>, p: Pointer)
    requires BucketOk(log, metas, published)
    requires Covers(log, p.lastKey, metas) && NoneBetween(log, p.lastKey, Top(published))
    requires p.change.generation == |published| + 1
    requires Names(log, Top(published), p.lastKey, p.change.full, p.change.changed)
    ensures BucketOk(log, metas, published + [p])
  {
    var more, n := published + [p], |published|;
    assert Top(more) == p.lastKey;
    assert forall g: nat :: g <= n ==> EndOf(more, g) == EndOf(published, g);
    forall g: nat, h: nat | g <= h <= n + 1 ensures NoneBetween(log, EndOf(more, h), EndOf(more, g)) {
      if h == n + 1 && g <= n {
        assert NoneBetween(log, EndOf(published, n), EndOf(published, g));
        NoneTransitive(log, p.lastKey, EndOf(published, n), EndOf(published, g));
      }
    }
    forall g: nat | g < n + 1
      ensures more[g].change.generation == g + 1
      ensures Names(log, EndOf(more, g), EndOf(more, g + 1), more[g].change.full, more[g].change.changed)
    {
      if g < n {
        assert more[g] == published[g];
      }
    }
  }

  lemma PublishIsSafe(s: Sys, acknowledged: bool)
    requires Steady(s) && Safe(s) && CanFold(s, Publish(acknowledged))
    ensures Safe(DoFold(s, Publish(acknowledged)))
  {
    var ix := s.ix;
    var p := Pointer(ix.lastKey, s.opstamp, History.Change(|s.published| + 1, ix.full, ix.changed));
    PublishKeepsBucket(s.log, s.metas, s.published, p);
    assert Top(s.published + [p]) == ix.lastKey;
  }

  // ---------------------------------------------------------------- failures, restarts, rebuilds

  lemma StopIsSafe(s: Sys, step: RestartStep)
    requires Steady(s) && Safe(s) && CanRestart(s, step)
    requires step.LoseDirectory? || step.SaveRekeyed?
    ensures Safe(DoRestart(s, step))
  {
  }

  lemma CrashIsSafe(s: Sys)
    requires Safe(s)
    ensures Safe(DoRestart(s, Crash))
  {
  }

  lemma FailIsSafe(s: Sys)
    requires Safe(s) && CanRestart(s, Fail)
    ensures Safe(DoRestart(s, Fail))
  {
    MoveIsSafe(s, DoRestart(s, Fail));
  }

  lemma EmptyCovers(log: Log, m: Files)
    requires LogOk(log)
    ensures Covers(log, 0, m)
  {
  }

  lemma StartIsSafe(s: Sys, opstamp: nat)
    requires Steady(s) && Safe(s) && CanRestart(s, Start(opstamp))
    ensures Safe(DoRestart(s, Start(opstamp)))
  {
    if !MustAdopt(s) && s.disk.None? {
      EmptyCovers(s.log, map[]);
      EmptyCovers(s.log, s.metas);
    }
  }

  lemma SaveAdoptedIsSafe(s: Sys)
    requires Steady(s) && Safe(s) && CanRestart(s, SaveAdopted)
    ensures Safe(DoRestart(s, SaveAdopted))
  {
    assert Top(s.published) == Last(s.published).lastKey;
  }

  lemma LoadAdoptedIsSafe(s: Sys)
    requires Steady(s) && Safe(s) && CanRestart(s, LoadAdopted)
    ensures Safe(DoRestart(s, LoadAdopted))
  {
  }

  lemma WipeIsSafe(s: Sys, opstamp: nat)
    requires Steady(s) && Safe(s) && CanRestart(s, Wipe(opstamp))
    ensures Safe(DoRestart(s, Wipe(opstamp)))
  {
  }

  lemma ReloadIsSafe(s: Sys, f: FileId)
    requires Steady(s) && Safe(s) && CanRestart(s, Reload(f))
    ensures Safe(DoRestart(s, Reload(f)))
  {
    assert CoversFile(s.log, s.ix.lastKey, s.metas, f);
    PutKeepsCovers(s.log, s.ix.lastKey, s.ix.lastKey, s.ix.cache, s.metas, f);
  }

  lemma RekeyIsSafe(s: Sys, opstamp: nat)
    requires Steady(s) && Safe(s) && CanRestart(s, Rekey(opstamp)) && PrefixClosed(s.log, s.metas)
    ensures Safe(DoRestart(s, Rekey(opstamp)))
  {
    var ix, newest := s.ix, NewestEvent(s.metas);
    NewestEventReaches(s.log, ix.lastKey, s.metas);
    NewestEventReaches(s.log, Top(s.published), s.metas);
    if s.disk.Some? {
      NewestEventReaches(s.log, s.disk.value.lastKey, s.metas);
    }
    forall f ensures CoversFile(s.log, newest, ix.cache, f) {
      assert CoversFile(s.log, newest, s.metas, f);
    }
  }

  // ---------------------------------------------------------------- runs

  /** t and s agree on everything the indexer works on. */
  ghost predicate SameFold(s: Sys, t: Sys) {
    && t.log == s.log && t.metas == s.metas && t.published == s.published
    && t.disk == s.disk && t.opstamp == s.opstamp && t.ix == s.ix && t.listed == s.listed
  }

  lemma ElsewhereIsSafe(s: Sys, t: Sys)
    requires Safe(s) && SameFold(s, t)
    ensures Safe(t)
  {
  }

  lemma ServerLeavesFold(s: Sys, step: ServerStep)
    requires CanServer(s, step) && !step.Append?
    ensures SameFold(s, DoServer(s, step))
  {
  }

  lemma FollowLeavesFold(s: Sys, step: FollowStep)
    requires CanFollow(s, step)
    ensures SameFold(s, DoFollow(s, step))
  {
  }

  predicate Writes(step: FoldStep) {
    step.List? || step.Commit? || step.CommitUnseen? || step.PutCache? || step.PutMeta?
  }

  lemma WritingIsSafe(s: Sys, step: FoldStep)
    requires Steady(s) && Safe(s) && CanFold(s, step) && Writes(step)
    ensures Safe(DoFold(s, step))
  {
    match step
    case List(max, again) => ListIsSafe(s, max, again);
    case Commit(opstamp) => CommitIsSafe(s, opstamp);
    case CommitUnseen(opstamp) => CommitUnseenIsSafe(s, opstamp);
    case PutCache(f) => PutCacheIsSafe(s, f);
    case PutMeta(f) => PutMetaIsSafe(s, f);
  }

  lemma FinishingIsSafe(s: Sys, step: FoldStep)
    requires Steady(s) && Safe(s) && CanFold(s, step) && !Writes(step)
    ensures Safe(DoFold(s, step))
  {
    match step
    case SetLast => SetLastIsSafe(s);
    case Save | SaveGeneration => SaveIsSafe(s, step);
    case Checkpoint(outcome) => ChainedIsSafe(s, HeadOf(s),
           Batch(s.log, HeadOf(s).lastKey, s.ix.pc.from, s.ix.pc.entries), outcome);
    case Publish(acknowledged) => PublishIsSafe(s, acknowledged);
    case Skip | NoCheckpoint | NothingToPublish => PassIsSafe(s, step);
  }

  lemma RestartIsSafe(s: Sys, step: RestartStep)
    requires Steady(s) && Safe(s) && CanRestart(s, step) && (step.Rekey? ==> PrefixClosed(s.log, s.metas))
    ensures Safe(DoRestart(s, step))
  {
    match step
    case Fail => FailIsSafe(s);
    case Crash => CrashIsSafe(s);
    case Start(opstamp) => StartIsSafe(s, opstamp);
    case SaveAdopted => SaveAdoptedIsSafe(s);
    case LoadAdopted => LoadAdoptedIsSafe(s);
    case Wipe(opstamp) => WipeIsSafe(s, opstamp);
    case Reload(f) => ReloadIsSafe(s, f);
    case Rekey(opstamp) => RekeyIsSafe(s, opstamp);
    case _ => StopIsSafe(s, step);
  }

  lemma StepIsSafe(s: Sys, step: Step)
    requires Steady(s) && Safe(s) && Enabled(s, step) && Careful(s, step)
    ensures Safe(Apply(s, step))
  {
    match step
    case Server(a) =>
      if a.Append? {
        AppendIsSafe(s, a.key, a.event);
      } else {
        ServerLeavesFold(s, a);
        ElsewhereIsSafe(s, DoServer(s, a));
      }
    case Fold(a) =>
      if Writes(a) {
        WritingIsSafe(s, a);
      } else {
        FinishingIsSafe(s, a);
      }
    case Restart(a) => RestartIsSafe(s, a);
    case Follow(a) =>
      FollowLeavesFold(s, a);
      ElsewhereIsSafe(s, DoFollow(s, a));
  }
}
