/**
 A server that follows the published generations: a refresh reads the meta objects that changed, or all
 of them, while the indexer goes on writing, and may fail at every read.
 */
module Followers {
  import opened Faults
  import opened Journal
  import opened States
  import opened FoldFacts
  import opened Machine
  import opened ChainSafety
  import opened FoldSafety
  import opened FollowerSafety

  /** The bucket that the indexer and the servers write. */
  class Bucket {
    var log: Log
    var metas: Files
    var published: seq<Pointer>
    ghost var listed: Key

    ghost predicate Valid()
      reads this
    {
      LogOk(log) && BucketOk(log, metas, published) && PublishedSteady(listed, published)
    }

    constructor ()
      ensures Valid() && log == map[] && metas == map[] && published == []
    {
      log, metas, published, listed := map[], map[], [], 0;
    }

    /** What the rest of the system may have done since: later events, newer meta objects, more generations. */
    method Meanwhile()
      requires Valid()
      modifies this
      ensures Valid() && listed >= old(listed) && Later(old(log), log, old(listed))
      ensures old(published) <= published && old(metas).Keys <= metas.Keys
    {
      if * {
        var f: FileId := *;
        var newest := Newest(log, f);
        if newest.Some? {
          NewestMetaKeeps(log, metas, published, f);
          metas := metas[f := newest.value];
        }
      }
    }
  }

  lemma NewestMetaKeeps(log: Log, metas: Files, published: seq<Pointer>, f: FileId)
    requires LogOk(log) && BucketOk(log, metas, published) && Newest(log, f).Some?
    ensures BucketOk(log, metas[f := Newest(log, f).value], published)
  {
    NewestAfterIs(log, f, 0);
    var after := metas[f := Newest(log, f).value];
    forall g ensures CoversFile(log, Top(published), after, g) {
      assert CoversFile(log, Top(published), metas, g);
    }
  }

  lemma OutlastsPublishes(log: Log, published: seq<Pointer>, more: seq<Pointer>, follower: Machine.Follower)
    requires published <= more && FollowerOk(log, published, follower)
    ensures FollowerOk(log, more, follower)
  {
    assert forall g: nat :: g <= |published| ==> EndOf(more, g) == EndOf(published, g);
  }

  /** Whatever happened meanwhile, the follower's progress is still worth what it was. */
  lemma OutlastsMeanwhile(log: Log, grown: Log, listed: Key, published: seq<Pointer>, more: seq<Pointer>,
          follower: Machine.Follower)
    requires Later(log, grown, listed) && PublishedSteady(listed, published) && published <= more
      && FollowerOk(log, published, follower)
    ensures FollowerOk(grown, more, follower)
  {
    FollowerStays(log, grown, listed, published, follower);
    OutlastsPublishes(grown, published, more, follower);
  }

  lemma TargetCovered(log: Log, metas: Files, published: seq<Pointer>, g: nat, f: FileId)
    requires BucketOk(log, metas, published) && g <= |published|
    ensures CoversFile(log, EndOf(published, g), metas, f)
  {
    assert NoneBetween(log, Top(published), EndOf(published, g));
    assert CoversFile(log, Top(published), metas, f);
  }

  /** What a refresh of this follower has to read. */
  ghost predicate Begun(log: Log, metas: Files, published: seq<Pointer>, served: nat, cache: Files,
          answer: History.Answer) {
    match answer
    case Files(ids) => FollowerOk(log, published, Machine.Follower(served, cache, Reading(|published|, ids)))
    case _ => FollowerOk(log, published, Machine.Follower(served, cache, Loading(|published|, metas.Keys, map[])))
  }

  lemma {:induction false} RefreshBegins(log: Log, metas: Files, published: seq<Pointer>, served: nat, cache: Files)
    requires BucketOk(log, metas, published) && published != []
    requires FollowerOk(log, published, Machine.Follower(served, cache, Resting))
    ensures served > 0 ==> Begun(log, metas, published, served, cache,
              History.Answered(|published|, History.Of(Changes(published)), served))
    ensures Begun(log, metas, published, served, cache, History.Everything)
  {
    ChangesAre(published);
    assert History.Numbered(Changes(published));
    History.AnsweredInRuns(Changes(published), served);
    var answer := History.Since(Changes(published), served);
    if answer.Files? {
      forall f | f !in answer.ids ensures CoversFile(log, Top(published), cache, f) {
        assert CoversFile(log, EndOf(published, served), cache, f);
        UnnamedIsCovered(log, published, served, cache, f);
      }
    }
    forall f | f !in metas ensures CoversFile(log, Top(published), map[], f) {
      assert CoversFile(log, Top(published), metas, f);
    }
  }

  class Follower {
    const bucket: Bucket
    var served: nat
    var cache: Files

    ghost predicate Holds(phase: Phase)
      reads this, bucket
    {
      bucket.Valid() && FollowerOk(bucket.log, bucket.published, Machine.Follower(served, cache, phase))
    }

    /** The cache reaches the end of the served generation. */
    ghost predicate Valid()
      reads this, bucket
    {
      Holds(Resting)
    }

    constructor (bucket: Bucket)
      requires bucket.Valid()
      ensures Valid() && this.bucket == bucket && served == 0 && cache == map[]
    {
      this.bucket := bucket;
      served, cache := 0, map[];
      EmptyCovers(bucket.log, map[]);
    }

    /** Lets time pass; progress is kept. */
    method Progress(ghost phase: Phase)
      requires Holds(phase)
      modifies bucket
      ensures Holds(phase) && old(bucket.published) <= bucket.published && old(bucket.metas).Keys <= bucket.metas.Keys
    {
      ghost var log, listed, published := bucket.log, bucket.listed, bucket.published;
      bucket.Meanwhile();
      OutlastsMeanwhile(log, bucket.log, listed, published, bucket.published, Machine.Follower(served, cache, phase));
    }

    /** Reads one meta object into the cache; one that is gone is dropped. */
    method ReadOne(target: nat, ghost todo: set<FileId>, f: FileId)
      requires Holds(Reading(target, todo))
      modifies this`cache
      ensures Holds(Reading(target, todo - {f}))
    {
      TargetCovered(bucket.log, bucket.metas, bucket.published, served, f);
      TargetCovered(bucket.log, bucket.metas, bucket.published, target, f);
      ReadKeeps(bucket.log, bucket.published, Machine.Follower(served, cache, Reading(target, todo)), bucket.metas, f);
      cache := Reread(cache, bucket.metas, f);
    }

    /** Re-reads the files that changed; a failed read leaves a mixture that is still right. */
    method ReadChanged(target: nat, ids: set<FileId>, calm: bool) returns (ok: bool)
      requires Holds(Reading(target, ids))
      modifies this`cache, bucket
      ensures Valid() && old(bucket.published) <= bucket.published
      ensures ok ==> Holds(Reading(target, {}))
      ensures calm ==> ok
    {
      var todo := ids;
      while todo != {}
        invariant Holds(Reading(target, todo)) && old(bucket.published) <= bucket.published
      {
        Progress(Reading(target, todo));
        var stopped := Strikes(calm);
        if stopped {
          return false;
        }
        var f :| f in todo;
        ReadOne(target, todo, f);
        todo := todo - {f};
      }
      ok := true;
    }

    /** Reads one meta object into the map that will replace the cache. */
    method LoadOne(target: nat, ghost todo: set<FileId>, loaded: Files, f: FileId) returns (more: Files)
      requires Holds(Loading(target, todo, loaded)) && f in bucket.metas
      ensures Holds(Loading(target, todo - {f}, more))
    {
      TargetCovered(bucket.log, bucket.metas, bucket.published, target, f);
      LoadKeeps(bucket.log, bucket.published, Machine.Follower(served, cache, Loading(target, todo, loaded)),
        bucket.metas, f);
      more := loaded[f := bucket.metas[f]];
    }

    /** Lists the meta objects, reads them all and swaps the cache in one step. */
    method Reload(target: nat, calm: bool) returns (ok: bool)
      requires Holds(Loading(target, bucket.metas.Keys, map[]))
      modifies this`cache, bucket
      ensures Valid() && old(bucket.published) <= bucket.published
      ensures ok ==> Holds(Reading(target, {}))
      ensures calm ==> ok
    {
      var todo := bucket.metas.Keys;
      var loaded: Files := map[];
      while todo != {}
        invariant Holds(Loading(target, todo, loaded)) && old(bucket.published) <= bucket.published
        invariant todo <= bucket.metas.Keys
      {
        Progress(Loading(target, todo, loaded));
        var f :| f in todo;
        var stopped := Strikes(calm);
        if stopped {
          return false;
        }
        loaded := LoadOne(target, todo, loaded, f);
        todo := todo - {f};
      }
      SwapKeeps(bucket.log, bucket.metas, bucket.published, served, cache, target, loaded);
      cache := loaded;
      ok := true;
    }

    /** What the stored pointer says has changed since the served generation; everything for a new server. */
    method Ask() returns (answer: History.Answer)
      requires Valid() && served != |bucket.published|
      ensures Begun(bucket.log, bucket.metas, bucket.published, served, cache, answer)
    {
      RefreshBegins(bucket.log, bucket.metas, bucket.published, served, cache);
      if served == 0 {
        return History.Everything;
      }
      answer := History.ChangesSince(|bucket.published|, History.Of(Changes(bucket.published)), served);
    }

    /** Brings the cache to the newest generation as the answer of its history says. */
    method RefreshMetas(answer: History.Answer, calm: bool) returns (ok: bool)
      requires bucket.Valid() && Begun(bucket.log, bucket.metas, bucket.published, served, cache, answer)
      modifies this`cache, bucket
      ensures Valid() && old(bucket.published) <= bucket.published
      ensures ok ==> Holds(Reading(|old(bucket.published)|, {}))
      ensures calm ==> ok
    {
      match answer
      case Files(ids) => ok := ReadChanged(|bucket.published|, ids, calm);
      case _ => ok := Reload(|bucket.published|, calm);
    }

    /**
     Loads the newest generation: the files its history names, or everything when the history does not
     reach back. Success serves the generation that was the newest at the start; failure serves the old
     one from a cache that may be a mixture and is still right for it.
     */
    method Refresh(calm: bool) returns (ok: bool)
      requires Valid()
      modifies this, bucket
      ensures Valid()
      ensures served == if ok then |old(bucket.published)| else old(served)
      ensures calm ==> ok
    {
      var target := |bucket.published|;
      if target == served {
        return true;
      }
      var answer := Ask();
      ok := RefreshMetas(answer, calm);
      if ok {
        ServeKeeps(bucket.log, bucket.published, served, cache, target);
        served := target;
      }
    }

    /** What a reader of this server sees: the cache under the journal after the served generation. */
    lemma ServesNewest(f: FileId)
      requires Valid()
      ensures Patched(Overlay(bucket.log, EndOf(bucket.published, served)), cache, f) == Newest(bucket.log, f)
    {
      assert CoversFile(bucket.log, EndOf(bucket.published, served), cache, f);
      PatchedIsNewest(bucket.log, EndOf(bucket.published, served), cache, f);
    }
  }

  lemma ServeKeeps(log: Log, published: seq<Pointer>, served: nat, cache: Files, target: nat)
    requires FollowerOk(log, published, Machine.Follower(served, cache, Reading(target, {})))
    ensures FollowerOk(log, published, Machine.Follower(target, cache, Resting))
  {
  }

  lemma SwapKeeps(log: Log, metas: Files, published: seq<Pointer>, served: nat, cache: Files, target: nat,
          loaded: Files)
    requires BucketOk(log, metas, published)
    requires FollowerOk(log, published, Machine.Follower(served, cache, Loading(target, {}, loaded)))
    ensures FollowerOk(log, published, Machine.Follower(served, loaded, Reading(target, {})))
  {
    assert NoneBetween(log, EndOf(published, target), EndOf(published, served));
    CoversLess(log, EndOf(published, target), EndOf(published, served), loaded);
  }
}
