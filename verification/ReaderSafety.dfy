/**
 What holds in every careful run about readers: the journal tail they hold is what the journal had at
 the instant of the listing, and the cache they will look into reaches the key the tail starts after.
 */
module ReaderSafety {
  import opened Wrappers
  import opened Journal
  import opened States
  import opened FoldFacts
  import opened Machine
  import opened ChainSafety
  import opened FoldSafety
  import opened FollowerSafety

  /** The journal only grows. */
  ghost predicate TimesOk(log: Log, times: seq<Log>) {
    && times != [] && times[|times| - 1] == log
    && forall i, j :: 0 <= i <= j < |times| ==> Extends(times[i], times[j])
  }

  /** The key a tail starts after is one the folded state has reached. */
  ghost predicate SinceOk(log: Log, listed: Key, base: Key, since: Key) {
    since <= listed && NoneBetween(log, base, since)
  }

  ghost predicate TailOk(log: Log, times: seq<Log>, listed: Key, base: Key, tail: Tail) {
    && tail.at < |times| && tail.states == Overlay(times[tail.at], tail.since) && SinceOk(log, listed, base, tail.since)
    && Later(times[tail.at], log, tail.since)
  }

  ghost predicate ReaderOk(log: Log, times: seq<Log>, listed: Key, base: Key, reader: Reader) {
    match reader
    case Asking(since) => SinceOk(log, listed, base, since)
    case Looking(tail) => TailOk(log, times, listed, base, tail)
  }

  ghost predicate ReadersOk(log: Log, times: seq<Log>, listed: Key, base: Key, tail: Option<Tail>, fence: nat,
          readers: map<nat, Reader>) {
    && (forall r :: r in readers ==> ReaderOk(log, times, listed, base, readers[r]))
    && (tail.Some? ==> TailOk(log, times, listed, base, tail.value) && fence <= tail.value.at)
    && fence < |times|
  }

  ghost predicate Quiet(s: Sys) {
    s.readers == map[] && s.tail == None
  }

  ghost predicate ReadSafe(s: Sys) {
    && TimesOk(s.log, s.times)
    && s.follower.served <= |s.published|
    && ReadersOk(s.log, s.times, s.listed, Base(s), s.tail, s.fence, s.readers)
    && (s.source == Local && (s.ix.pc.Down? || s.ix.pc.Fetched? || s.ix.pc.Adopted?) ==> Quiet(s))
  }

  // ---------------------------------------------------------------- readers' own steps

  lemma TimesGrow(log: Log, times: seq<Log>, grown: Log)
    requires TimesOk(log, times) && Extends(log, grown)
    ensures TimesOk(grown, times + [grown])
  {
    var more := times + [grown];
    forall i, j | 0 <= i <= j < |more| ensures Extends(more[i], more[j]) {
      assert i < |times| ==> Extends(times[i], times[|times| - 1]);
    }
  }

  lemma ReaderStays(log: Log, grown: Log, times: seq<Log>, listed: Key, base: Key, reader: Reader)
    requires Later(log, grown, listed) && ReaderOk(log, times, listed, base, reader)
    ensures ReaderOk(grown, times + [grown], listed, base, reader)
  {
    match reader
    case Asking(since) => NoneStays(log, grown, listed, base, since);
    case Looking(tail) => NoneStays(log, grown, listed, base, tail.since);
  }

  lemma AppendIsReadSafe(s: Sys, key: Key, event: Event)
    requires ReadSafe(s) && CanServer(s, Append(key, event))
    ensures ReadSafe(DoServer(s, Append(key, event)))
  {
    var grown := s.log[key := Stamped(key, event)];
    assert Later(s.log, grown, s.listed);
    TimesGrow(s.log, s.times, grown);
    forall r | r in s.readers ensures ReaderOk(grown, s.times + [grown], s.listed, Base(s), s.readers[r]) {
      ReaderStays(s.log, grown, s.times, s.listed, Base(s), s.readers[r]);
    }
    if s.tail.Some? {
      ReaderStays(s.log, grown, s.times, s.listed, Base(s), Looking(s.tail.value));
    }
  }

  lemma BaseIsListed(s: Sys)
    requires Steady(s) && s.follower.served <= |s.published|
    ensures Base(s) <= s.listed
  {
    if s.source == Remote {
      EndIsListed(s.listed, s.published, s.follower.served);
    }
  }

  /** A tail that is listed now after a key the folded state has reached. */
  lemma ListedTailIsOk(log: Log, times: seq<Log>, listed: Key, base: Key, since: Key)
    requires TimesOk(log, times) && SinceOk(log, listed, base, since)
    ensures TailOk(log, times, listed, base, Tail(since, Overlay(log, since), |times| - 1))
  {
  }

  lemma LookIsReadSafe(s: Sys, step: ServerStep)
    requires Steady(s) && ReadSafe(s) && CanServer(s, step) && !step.Append?
    ensures ReadSafe(DoServer(s, step))
  {
    BaseIsListed(s);
    match step
    case Look(r) =>
      assert ReaderOk(s.log, s.times, s.listed, Base(s), s.readers[r]);
      ListedTailIsOk(s.log, s.times, s.listed, Base(s), s.readers[r].since);
    case _ =>
  }

  // ---------------------------------------------------------------- the folded state moves on

  lemma BaseMoves(log: Log, times: seq<Log>, listed: Key, more: Key, base: Key, next: Key, tail: Option<Tail>,
          fence: nat, readers: map<nat, Reader>)
    requires ReadersOk(log, times, listed, base, tail, fence, readers) && NoneBetween(log, next, base) && listed <= more
    ensures ReadersOk(log, times, more, next, tail, fence, readers)
  {
    forall r | r in readers ensures ReaderOk(log, times, more, next, readers[r]) {
      assert ReaderOk(log, times, listed, base, readers[r]);
      match readers[r]
      case Asking(since) => NoneTransitive(log, next, base, since);
      case Looking(t) => NoneTransitive(log, next, base, t.since);
    }
    if tail.Some? {
      NoneTransitive(log, next, base, tail.value.since);
    }
  }

  /** t has the journal of s and the same readers, or none. */
  ghost predicate SameReaders(s: Sys, t: Sys) {
    && t.log == s.log && t.times == s.times && t.source == s.source && t.fence == s.fence && s.listed <= t.listed
    && ((t.readers == s.readers && t.tail == s.tail) || Quiet(t))
  }

  lemma FoldLeavesReaders(s: Sys, step: FoldStep)
    requires CanFold(s, step)
    ensures SameReaders(s, DoFold(s, step)) && DoFold(s, step).follower == s.follower
    ensures var t := DoFold(s, step); !t.ix.pc.Down? && !t.ix.pc.Fetched? && !t.ix.pc.Adopted?
    ensures !s.ix.pc.Down? && !s.ix.pc.Fetched? && !s.ix.pc.Adopted?
  {
  }

  lemma RestartLeavesReaders(s: Sys, step: RestartStep)
    requires CanRestart(s, step)
    ensures SameReaders(s, DoRestart(s, step)) && DoRestart(s, step).follower == s.follower
    ensures DoRestart(s, step).published == s.published
    ensures step.Crash? && s.source == Local ==> Quiet(DoRestart(s, step))
  {
  }

  lemma FollowLeavesReaders(s: Sys, step: FollowStep)
    requires CanFollow(s, step)
    ensures SameReaders(s, DoFollow(s, step)) && DoFollow(s, step).ix == s.ix
      && DoFollow(s, step).published == s.published
    ensures step.FollowerStart? && s.source == Remote ==> Quiet(DoFollow(s, step))
  {
  }

  lemma ReadersKeep(s: Sys, t: Sys)
    requires ReadSafe(s) && SameReaders(s, t) && t.follower.served <= |t.published|
    requires Quiet(t) || NoneBetween(s.log, Base(t), Base(s))
    requires t.source == Local && (t.ix.pc.Down? || t.ix.pc.Fetched? || t.ix.pc.Adopted?) ==> Quiet(t)
    ensures ReadSafe(t)
  {
    if !Quiet(t) {
      BaseMoves(s.log, s.times, s.listed, t.listed, Base(s), Base(t), s.tail, s.fence, s.readers);
    }
  }

  /** A run of the indexer only moves the folded key forward. */
  lemma FoldMovesForward(s: Sys, step: FoldStep)
    requires Steady(s) && CanFold(s, step)
    ensures DoFold(s, step).ix.lastKey >= s.ix.lastKey
  {
  }

  lemma FoldIsReadSafe(s: Sys, step: FoldStep)
    requires Steady(s) && Safe(s) && ReadSafe(s) && CanFold(s, step)
    ensures ReadSafe(DoFold(s, step))
  {
    var t := DoFold(s, step);
    FoldLeavesReaders(s, step);
    FoldMovesForward(s, step);
    FoldAtMostPublishes(s, step);
    ReadersKeep(s, t);
  }

  /** A rebuild moves the folded key, but not past or behind a state event it had reached. */
  lemma RekeyReaches(s: Sys)
    requires Safe(s) && s.ix.pc.Wiped?
    ensures NoneBetween(s.log, NewestEvent(s.metas), s.ix.lastKey)
  {
    NewestEventReaches(s.log, s.ix.lastKey, s.metas);
  }

  lemma RestartKeepsBase(s: Sys, step: RestartStep)
    requires Steady(s) && Safe(s) && CanRestart(s, step)
    ensures var t := DoRestart(s, step);
            || s.ix.pc.Down? || s.ix.pc.Fetched? || s.ix.pc.Adopted? || step.Crash?
            || (NoneBetween(s.log, t.ix.lastKey, s.ix.lastKey) && !t.ix.pc.Down? && !t.ix.pc.Fetched?
              && !t.ix.pc.Adopted?)
  {
    if step.Rekey? {
      RekeyReaches(s);
    }
  }

  lemma RestartIsReadSafe(s: Sys, step: RestartStep)
    requires Steady(s) && Safe(s) && ReadSafe(s) && CanRestart(s, step)
    ensures ReadSafe(DoRestart(s, step))
  {
    var t := DoRestart(s, step);
    RestartLeavesReaders(s, step);
    RestartKeepsBase(s, step);
    ReadersKeep(s, t);
  }

  lemma FollowKeepsBase(s: Sys, step: FollowStep)
    requires BucketOk(s.log, s.metas, s.published) && FollowerOk(s.log, s.published, s.follower) && CanFollow(s, step)
    ensures var t := DoFollow(s, step);
            t.follower.served <= |s.published|
            && (step.FollowerStart? || NoneBetween(s.log, EndOf(s.published, t.follower.served),
              EndOf(s.published, s.follower.served)))
  {
    if step.Serve? {
      assert NoneBetween(s.log, EndOf(s.published, s.follower.phase.target), EndOf(s.published, s.follower.served));
    }
  }

  lemma FollowIsReadSafe(s: Sys, step: FollowStep)
    requires Steady(s) && Safe(s) && FollowerOk(s.log, s.published, s.follower) && ReadSafe(s) && CanFollow(s, step)
    ensures ReadSafe(DoFollow(s, step))
  {
    var t := DoFollow(s, step);
    FollowLeavesReaders(s, step);
    FollowKeepsBase(s, step);
    ReadersKeep(s, t);
  }

  lemma StepIsReadSafe(s: Sys, step: Step)
    requires Steady(s) && Safe(s) && FollowerOk(s.log, s.published, s.follower) && ReadSafe(s) && Enabled(s, step)
    ensures ReadSafe(Apply(s, step))
  {
    match step
    case Server(a) =>
      if a.Append? {
        AppendIsReadSafe(s, a.key, a.event);
      } else {
        LookIsReadSafe(s, a);
      }
    case Fold(a) => FoldIsReadSafe(s, a);
    case Restart(a) => RestartIsReadSafe(s, a);
    case Follow(a) => FollowIsReadSafe(s, a);
  }
}
