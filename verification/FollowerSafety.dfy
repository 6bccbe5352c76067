/**
 What holds in every careful run about the follower: whatever refreshes it completed, failed or left
 half done, its cache is as new as the generation it serves.
 */
module FollowerSafety {
  import opened Journal
  import opened States
  import opened FoldFacts
  import opened Machine
  import opened ChainSafety
  import opened FoldSafety

  ghost predicate PhaseOk(log: Log, published: seq<Pointer>, served: nat, cache: Files, phase: Phase) {
    match phase
    case Resting => true
    case Reading(target, todo) =>
      && served <= target <= |published|
      && forall f :: f !in todo ==> CoversFile(log, EndOf(published, target), cache, f)
    case Loading(target, todo, loaded) =>
      && served <= target <= |published|
      && Sound(log, loaded)
      && forall f :: f !in todo ==> CoversFile(log, EndOf(published, target), loaded, f)
  }

  ghost predicate FollowerOk(log: Log, published: seq<Pointer>, follower: Follower) {
    && follower.served <= |published|
    && Sound(log, follower.cache)
    && Covers(log, EndOf(published, follower.served), follower.cache)
    && PhaseOk(log, published, follower.served, follower.cache, follower.phase)
  }

  // ---------------------------------------------------------------- the world around the follower

  lemma FollowerStays(log: Log, grown: Log, listed: Key, published: seq<Pointer>, follower: Follower)
    requires Later(log, grown, listed) && PublishedSteady(listed, published) && FollowerOk(log, published, follower)
    ensures FollowerOk(grown, published, follower)
  {
    EndIsListed(listed, published, follower.served);
    SoundStays(log, grown, follower.cache);
    CoverageStays(log, grown, listed, EndOf(published, follower.served), follower.cache);
    match follower.phase
    case Resting =>
    case Reading(target, _) =>
      EndIsListed(listed, published, target);
      CoverageStays(log, grown, listed, EndOf(published, target), follower.cache);
    case Loading(target, _, loaded) =>
      EndIsListed(listed, published, target);
      SoundStays(log, grown, loaded);
      CoverageStays(log, grown, listed, EndOf(published, target), loaded);
  }

  lemma FollowerOutlastsPublish(log: Log, published: seq<Pointer>, p: Pointer, follower: Follower)
    requires FollowerOk(log, published, follower)
    ensures FollowerOk(log, published + [p], follower)
  {
    assert forall g: nat :: g <= |published| ==> EndOf(published + [p], g) == EndOf(published, g);
  }

  // ---------------------------------------------------------------- what a refresh learns

  lemma {:induction false} ChangesAre(published: seq<Pointer>)
    ensures |Changes(published)| == |published|
    ensures forall g :: 0 <= g < |published| ==> Changes(published)[g] == published[g].change
  {
    if published != [] {
      ChangesAre(published[..|published| - 1]);
    }
  }

  /** An event between two generations falls into one of those in between. */
  lemma {:induction false} FindGeneration(published: seq<Pointer>, served: nat, target: nat, k: Key) returns (g: nat)
    requires served <= target <= |published| && EndOf(published, served) < k <= EndOf(published, target)
    ensures served <= g < target && EndOf(published, g) < k <= EndOf(published, g + 1)
    decreases target - served
  {
    if k <= EndOf(published, served + 1) {
      g := served;
    } else {
      g := FindGeneration(published, served + 1, target, k);
    }
  }

  /** A file that a change list does not name has no event since the served generation. */
  lemma {:induction false} UnnamedIsUnchanged(log: Log, published: seq<Pointer>, served: nat, k: Key)
    requires Recorded(log, published) && served <= |published|
    requires History.Since(Changes(published), served).Files?
    requires k in log && log[k].StateEvent? && EndOf(published, served) < k <= Top(published)
    ensures log[k].file.id in History.Since(Changes(published), served).ids
  {
    ChangesAre(published);
    var g := FindGeneration(published, served, |published|, k);
    assert Names(log, EndOf(published, g), EndOf(published, g + 1), published[g].change.full,
             published[g].change.changed);
    assert Changes(published)[g] == published[g].change;
    History.SinceIsExact(Changes(published), served, log[k].file.id);
  }

  /** After the files that the change list names, the whole cache reaches the newest generation. */
  lemma UnnamedIsCovered(log: Log, published: seq<Pointer>, served: nat, cache: Files, f: FileId)
    requires Recorded(log, published) && served <= |published|
    requires History.Since(Changes(published), served).Files? && f !in History.Since(Changes(published), served).ids
    requires CoversFile(log, EndOf(published, served), cache, f)
    ensures CoversFile(log, Top(published), cache, f)
  {
    forall k: Key | IsState(log, k, f) && k <= Top(published) ensures k <= EndOf(published, served) {
      if k > EndOf(published, served) {
        UnnamedIsUnchanged(log, published, served, k);
      }
    }
  }

  lemma RefreshAsks(s: Sys)
    requires Recorded(s.log, s.published) && CanFollow(s, Refresh)
    ensures var phase := DoFollow(s, Refresh).follower.phase;
            || phase == Loading(|s.published|, s.metas.Keys, map[])
            || (&& History.Since(Changes(s.published), s.follower.served).Files?
                && phase == Reading(|s.published|, History.Since(Changes(s.published), s.follower.served).ids))
  {
    ChangesAre(s.published);
    assert History.Numbered(Changes(s.published));
    History.AnsweredInRuns(Changes(s.published), s.follower.served);
  }

  lemma RefreshIsSafe(s: Sys)
    requires Safe(s) && FollowerOk(s.log, s.published, s.follower) && CanFollow(s, Refresh)
    ensures var t := DoFollow(s, Refresh); FollowerOk(t.log, t.published, t.follower)
  {
    var served, cache, top := s.follower.served, s.follower.cache, Top(s.published);
    RefreshAsks(s);
    var phase := DoFollow(s, Refresh).follower.phase;
    if phase.Reading? {
      forall f | f !in phase.todo ensures CoversFile(s.log, top, cache, f) {
        assert CoversFile(s.log, EndOf(s.published, served), cache, f);
        UnnamedIsCovered(s.log, s.published, served, cache, f);
      }
    } else {
      forall f | f !in s.metas ensures CoversFile(s.log, top, map[], f) {
        assert CoversFile(s.log, top, s.metas, f);
      }
    }
  }

  // ---------------------------------------------------------------- reading meta objects

  lemma MetasCover(s: Sys, g: nat, f: FileId)
    requires Safe(s) && g <= |s.published|
    ensures CoversFile(s.log, EndOf(s.published, g), s.metas, f)
  {
    assert NoneBetween(s.log, Top(s.published), EndOf(s.published, g));
    assert CoversFile(s.log, Top(s.published), s.metas, f);
  }

  lemma RereadCovers(log: Log, until: Key, m: Files, metas: Files, f: FileId, todo: set<FileId>)
    requires CoversFile(log, until, metas, f) && forall g :: g !in todo ==> CoversFile(log, until, m, g)
    ensures forall g :: g !in todo - {f} ==> CoversFile(log, until, Reread(m, metas, f), g)
  {
    forall g | g !in todo - {f} ensures CoversFile(log, until, Reread(m, metas, f), g) {
      assert g != f ==> CoversFile(log, until, m, g);
    }
  }

  lemma ReadKeeps(log: Log, published: seq<Pointer>, follower: Follower, metas: Files, f: FileId)
    requires FollowerOk(log, published, follower) && follower.phase.Reading? && Sound(log, metas)
    requires CoversFile(log, EndOf(published, follower.served), metas, f)
    requires CoversFile(log, EndOf(published, follower.phase.target), metas, f)
    ensures FollowerOk(log, published, Follower(follower.served, Reread(follower.cache, metas, f),
                                                Reading(follower.phase.target, follower.phase.todo - {f})))
  {
    RereadCovers(log, EndOf(published, follower.served), follower.cache, metas, f, {});
    RereadCovers(log, EndOf(published, follower.phase.target), follower.cache, metas, f, follower.phase.todo);
  }

  lemma ReadFileIsSafe(s: Sys, f: FileId)
    requires Safe(s) && FollowerOk(s.log, s.published, s.follower) && CanFollow(s, ReadFile(f))
    ensures var t := DoFollow(s, ReadFile(f)); FollowerOk(t.log, t.published, t.follower)
  {
    MetasCover(s, s.follower.served, f);
    MetasCover(s, s.follower.phase.target, f);
    ReadKeeps(s.log, s.published, s.follower, s.metas, f);
  }

  lemma LoadKeeps(log: Log, published: seq<Pointer>, follower: Follower, metas: Files, f: FileId)
    requires FollowerOk(log, published, follower) && follower.phase.Loading? && Sound(log, metas) && f in metas
    requires CoversFile(log, EndOf(published, follower.phase.target), metas, f)
    ensures FollowerOk(log, published, Follower(follower.served, follower.cache,
                                                Loading(follower.phase.target, follower.phase.todo - {f},
                                                  follower.phase.loaded[f := metas[f]])))
  {
    RereadCovers(log, EndOf(published, follower.phase.target), follower.phase.loaded, metas, f, follower.phase.todo);
  }

  lemma LoadFileIsSafe(s: Sys, f: FileId)
    requires Safe(s) && FollowerOk(s.log, s.published, s.follower) && CanFollow(s, LoadFile(f))
    ensures var t := DoFollow(s, LoadFile(f)); FollowerOk(t.log, t.published, t.follower)
  {
    MetasCover(s, s.follower.phase.target, f);
    LoadKeeps(s.log, s.published, s.follower, s.metas, f);
  }

  lemma SwapIsSafe(s: Sys)
    requires Safe(s) && FollowerOk(s.log, s.published, s.follower) && CanFollow(s, Swap)
    ensures var t := DoFollow(s, Swap); FollowerOk(t.log, t.published, t.follower)
  {
    var target, served := s.follower.phase.target, s.follower.served;
    assert NoneBetween(s.log, EndOf(s.published, target), EndOf(s.published, served));
    CoversLess(s.log, EndOf(s.published, target), EndOf(s.published, served), s.follower.phase.loaded);
  }

  lemma RestIsSafe(s: Sys, step: FollowStep)
    requires Steady(s) && FollowerOk(s.log, s.published, s.follower) && CanFollow(s, step)
    requires step.Serve? || step.FollowerFail? || step.FollowerStart?
    ensures var t := DoFollow(s, step); FollowerOk(t.log, t.published, t.follower)
  {
    EmptyCovers(s.log, map[]);
  }

  lemma FollowStepIsSafe(s: Sys, step: FollowStep)
    requires Steady(s) && Safe(s) && FollowerOk(s.log, s.published, s.follower) && CanFollow(s, step)
    ensures var t := DoFollow(s, step); FollowerOk(t.log, t.published, t.follower)
  {
    match step
    case Refresh => RefreshIsSafe(s);
    case ReadFile(f) => ReadFileIsSafe(s, f);
    case LoadFile(f) => LoadFileIsSafe(s, f);
    case Swap => SwapIsSafe(s);
    case _ => RestIsSafe(s, step);
  }

  // ---------------------------------------------------------------- every step

  /** Steps of the indexer leave the follower alone and at most add a pointer. */
  ghost predicate AtMostPublishes(s: Sys, t: Sys) {
    && t.log == s.log && t.follower == s.follower
    && (t.published == s.published || exists p :: t.published == s.published + [p])
  }

  lemma FoldAtMostPublishes(s: Sys, step: FoldStep)
    requires CanFold(s, step)
    ensures AtMostPublishes(s, DoFold(s, step))
  {
  }

  lemma RestartPublishesNothing(s: Sys, step: RestartStep)
    requires CanRestart(s, step)
    ensures AtMostPublishes(s, DoRestart(s, step))
  {
  }

  lemma ServerLeavesFollower(s: Sys, step: ServerStep)
    requires CanServer(s, step) && !step.Append?
    ensures AtMostPublishes(s, DoServer(s, step))
  {
  }

  lemma FollowerKeeps(s: Sys, t: Sys)
    requires FollowerOk(s.log, s.published, s.follower) && AtMostPublishes(s, t)
    ensures FollowerOk(t.log, t.published, t.follower)
  {
    if t.published != s.published {
      var p :| t.published == s.published + [p];
      FollowerOutlastsPublish(s.log, s.published, p, s.follower);
    }
  }

  lemma AppendKeepsFollower(s: Sys, key: Key, event: Event)
    requires Steady(s) && FollowerOk(s.log, s.published, s.follower) && CanServer(s, Append(key, event))
    ensures var t := DoServer(s, Append(key, event)); FollowerOk(t.log, t.published, t.follower)
  {
    var grown := s.log[key := Stamped(key, event)];
    assert Later(s.log, grown, s.listed);
    FollowerStays(s.log, grown, s.listed, s.published, s.follower);
  }

  lemma StepKeepsFollower(s: Sys, step: Step)
    requires Steady(s) && Safe(s) && FollowerOk(s.log, s.published, s.follower) && Enabled(s, step)
    ensures var t := Apply(s, step); FollowerOk(t.log, t.published, t.follower)
  {
    match step
    case Server(a) =>
      if a.Append? {
        AppendKeepsFollower(s, a.key, a.event);
      } else {
        ServerLeavesFollower(s, a);
        FollowerKeeps(s, DoServer(s, a));
      }
    case Fold(a) =>
      FoldAtMostPublishes(s, a);
      FollowerKeeps(s, DoFold(s, a));
    case Restart(a) =>
      RestartPublishesNothing(s, a);
      FollowerKeeps(s, DoRestart(s, a));
    case Follow(a) => FollowStepIsSafe(s, a);
  }
}
