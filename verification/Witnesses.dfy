/**
 Runs that show why the main results ask for what they ask: without the order of appends per file a
 reader can get a state that was never the newest, and a rebuild after a stop inside the write loop
 loses an event for good.
 */
module Witnesses {
  import opened Wrappers
  import opened Journal
  import opened States
  import opened FoldFacts
  import opened Machine
  import opened Protocol

  const IDLE_FOLLOWER := Follower(0, map[], Resting)
  const START := Sys(Local, 10, map[], [map[]], 0, map[], [], [], None, 0, STOPPED, IDLE_FOLLOWER, None, 0, map[])

  /** A run of careful steps, built from its end. */
  lemma {:induction false} Continues(init: Sys, steps: seq<Step>, s: Sys, step: Step)
    requires RunsCarefully(init, steps, s) && Enabled(s, step) && Careful(s, step)
    ensures RunsCarefully(init, steps + [step], Apply(s, step))
    decreases |steps|
  {
    if steps != [] {
      Continues(Apply(init, steps[0]), steps[1..], s, step);
      assert (steps + [step])[1..] == steps[1..] + [step];
    }
  }

  lemma Goes(s: Sys, step: Step)
    requires Reachable(s) && Enabled(s, step) && Careful(s, step)
    ensures Reachable(Apply(s, step))
  {
    var init, steps :| Init(init) && RunsCarefully(init, steps, s);
    Continues(init, steps, s, step);
  }

  function State(f: FileId, name: string): Event {
    StateEvent(File(f, false, "", [], name, "", 0))
  }

  lemma StartIsReachable()
    ensures Reachable(START)
  {
    assert Init(START) && RunsCarefully(START, [], START);
  }

  /** An indexer that has started over an empty bucket: it has rebuilt the empty index and saved that. */
  const STARTED := STOPPED.(pc := Idle, unpublished := true, full := true)
  const READY := START.(ix := STARTED, disk := Some(Saved(0, 0)))

  lemma ReadyIsReachable()
    ensures Reachable(READY)
  {
    StartIsReachable();
    Goes(START, Restart(Start(0)));
    var wiped := DoRestart(START, Start(0));
    assert NewestEvent(map[]) == 0 && PrefixClosed(map[], map[]);
    Goes(wiped, Restart(Rekey(0)));
    var rekeyed := DoRestart(wiped, Rekey(0));
    Goes(rekeyed, Restart(SaveRekeyed));
    assert DoRestart(rekeyed, SaveRekeyed) == READY;
  }

  // ---------------------------------------------------------------- events of one file out of order

  /** The indexer is idle over an empty journal and a reader has listed its empty tail. */
  function ListedNothing(): Sys {
    READY.(tail := Some(Tail(0, map[], 0)), readers := map[0 := Looking(Tail(0, map[], 0))])
  }

  lemma ListedNothingIsReachable()
    ensures Reachable(ListedNothing())
  {
    ReadyIsReachable();
    Goes(READY, Server(Ask(0)));
    var s3 := DoServer(READY, Ask(0));
    PageIsRange({}, 0, 10);
    assert Page({}, 0, 10) == [];
    Goes(s3, Server(Look(0)));
    assert Overlay(map[], 0) == map[];
    assert DoServer(s3, Look(0)) == ListedNothing();
  }

  const LATE := Stamped(2, State("f", "late"))
  const EARLY := Stamped(1, State("f", "early"))

  /** Event 2 of f arrived before its event 1, after the reader listed the tail. */
  ghost predicate BothArrived(s: Sys) {
    && s.source == Local && s.log == map[2 := LATE, 1 := EARLY] && s.times == [map[], map[2 := LATE], s.log]
    && s.readers == map[0 := Looking(Tail(0, map[], 0))] && s.published == []
  }

  lemma BothArrive() returns (s: Sys)
    ensures Reachable(s) && BothArrived(s) && s.ix == STARTED
  {
    ListedNothingIsReachable();
    var s0 := ListedNothing();
    Goes(s0, Server(Append(2, State("f", "late"))));
    var s1 := DoServer(s0, Append(2, State("f", "late")));
    Goes(s1, Server(Append(1, State("f", "early"))));
    s := DoServer(s1, Append(1, State("f", "early")));
  }

  lemma EarlyIsFolded()
    ensures Todo(map[2 := LATE, 1 := EARLY], 0, 1, map[], {}) == map["f" := EARLY.file]
  {
    var cut := Cut(map[2 := LATE, 1 := EARLY], 1);
    assert cut == map[1 := EARLY];
    NewestIs(cut, 1, "f", 0);
    OverlayHas(cut, 0, "f");
    assert FilesAfter(cut, 0) == {"f"} by {
      assert 1 in cut;
    }
  }

  lemma FoldEarly(s: Sys) returns (t: Sys)
    requires Reachable(s) && BothArrived(s) && s.ix == STARTED
    ensures Reachable(t) && BothArrived(t) && t.ix.pc.Listed? && t.ix.pc.todo == map["f" := EARLY.file]
      && t.ix.cache == map[]
  {
    FirstOfTwo(s.log.Keys);
    EarlyIsFolded();
    Goes(s, Fold(List(1, {})));
    t := DoFold(s, List(1, {}));
  }

  lemma WriteEarly(s: Sys) returns (t: Sys)
    requires Reachable(s) && BothArrived(s) && s.ix.pc.Listed? && s.ix.pc.todo == map["f" := EARLY.file]
      && s.ix.cache == map[]
    ensures Reachable(t) && BothArrived(t) && t.ix.cache == map["f" := EARLY.file]
  {
    assert "f" in s.ix.pc.todo;
    Goes(s, Fold(Commit(0)));
    var committed := DoFold(s, Commit(0));
    Goes(committed, Fold(PutCache("f")));
    t := DoFold(committed, PutCache("f"));
  }

  /**
   Event 2 of a file arrives before its event 1. A batch of one folds event 1 while the reader looks:
   it gets a state that was not the newest at any instant of its read.
   */
  lemma OutOfOrderReadIsNeverNewest() returns (s: Sys)
    ensures Reachable(s) && 0 in s.readers && s.readers[0].Looking?
    ensures forall i :: s.readers[0].tail.at <= i < |s.times| ==> Resolve(s, 0, "f") != Newest(s.times[i], "f")
  {
    var arrived := BothArrive();
    var folded := FoldEarly(arrived);
    s := WriteEarly(folded);
    NewestIs(map[2 := LATE], 2, "f", 0);
    NewestIs(map[2 := LATE, 1 := EARLY], 2, "f", 0);
    assert StatesAfter(map[], "f", 0) == {};
  }

  lemma FirstOfTwo(keys: set<Key>)
    requires keys == {2, 1}
    ensures Page(keys, 0, 1) == [1]
  {
    assert After(keys, 0) == keys;
    assert Min(keys) == 1;
    assert FirstN(keys, 1, 0) == [];
    assert FirstN(keys, 0, 1) == [1] + FirstN(keys, 1, 0);
  }

  // ---------------------------------------------------------------- a stop inside the write loop

  /** Three events: g, f, g. */
  function ThreeEvents(): Log {
    map[1 := Stamped(1, State("g", "1")), 2 := Stamped(2, State("f", "2")), 3 := Stamped(3, State("g", "3"))]
  }

  ghost predicate ThreeArrived(s: Sys) {
    s.log == ThreeEvents() && s.published == []
  }

  lemma ThreeArrive() returns (s: Sys)
    ensures Reachable(s) && ThreeArrived(s) && s.ix == STARTED && s.metas == map[]
  {
    ReadyIsReachable();
    Goes(READY, Server(Append(1, State("g", "1"))));
    var s3 := DoServer(READY, Append(1, State("g", "1")));
    Goes(s3, Server(Append(2, State("f", "2"))));
    var s4 := DoServer(s3, Append(2, State("f", "2")));
    Goes(s4, Server(Append(3, State("g", "3"))));
    s := DoServer(s4, Append(3, State("g", "3")));
  }

  const G3 := Stamped(3, State("g", "3")).file
  const F2 := Stamped(2, State("f", "2")).file

  lemma PageOfThree()
    ensures End(Page(ThreeEvents().Keys, 0, 10), 0) == 3
  {
    var keys := ThreeEvents().Keys;
    assert keys == {1, 2, 3} && After(keys, 0) == {1, 2, 3};
    PageIsRange(keys, 0, 10);
    ShortPage(keys, 0, 10);
    var end := End(Page(keys, 0, 10), 0);
    assert end < 3 ==> 3 in After(keys, end);
  }

  /** The batch of all three folds to the last event of each file. */
  lemma FoldOfThree()
    ensures Todo(ThreeEvents(), 0, 3, map[], {}) == map["g" := G3, "f" := F2]
  {
    var log := ThreeEvents();
    assert Cut(log, 3) == log;
    NewestIs(log, 3, "g", 0);
    NewestIs(log, 2, "f", 0);
    OverlayHas(log, 0, "g");
    OverlayHas(log, 0, "f");
    assert FilesAfter(log, 0) == {"g", "f"} by {
      assert 2 in log && 3 in log;
    }
  }

  /** A page holds each key at most once. */
  lemma {:induction false} ShortPage(keys: set<Key>, after: Key, n: nat)
    ensures |FirstN(keys, after, n)| <= |After(keys, after)|
    decreases n
  {
    if n > 0 && After(keys, after) != {} {
      var m := Min(After(keys, after));
      ShortPage(keys, m, n - 1);
      assert m in After(keys, after) && m !in After(keys, m);
      Shrinks(After(keys, m), After(keys, after), m);
    }
  }

  lemma Shrinks(small: set<Key>, large: set<Key>, m: Key)
    requires small <= large && m in large && m !in small
    ensures |small| < |large|
  {
    SubsetIsNotLarger(small, large - {m});
  }

  lemma {:induction false} SubsetIsNotLarger(small: set<Key>, large: set<Key>)
    requires small <= large
    ensures |small| <= |large|
    decreases |small|
  {
    if small != {} {
      var x :| x in small;
      SubsetIsNotLarger(small - {x}, large - {x});
    }
  }

  lemma FoldThree(s: Sys) returns (t: Sys)
    requires Reachable(s) && ThreeArrived(s) && s.ix == STARTED && s.metas == map[]
    ensures Reachable(t) && ThreeArrived(t) && t.metas == map[] && t.ix.pc.Listed?
      && t.ix.pc.todo == map["g" := G3, "f" := F2]
  {
    PageOfThree();
    FoldOfThree();
    Goes(s, Fold(List(10, {})));
    t := DoFold(s, List(10, {}));
  }

  /** The meta object of g is written, that of f is not. */
  lemma WriteOne(s: Sys) returns (t: Sys)
    requires Reachable(s) && ThreeArrived(s) && s.metas == map[] && s.ix.pc.Listed?
      && s.ix.pc.todo == map["g" := G3, "f" := F2]
    ensures Reachable(t) && ThreeArrived(t) && t.metas == map["g" := G3]
  {
    assert "g" in s.ix.pc.todo;
    Goes(s, Fold(Commit(0)));
    var s2 := DoFold(s, Commit(0));
    Goes(s2, Fold(PutCache("g")));
    var s3 := DoFold(s2, PutCache("g"));
    Goes(s3, Fold(PutMeta("g")));
    t := DoFold(s3, PutMeta("g"));
  }

  lemma RestartAfterOne(s: Sys) returns (t: Sys)
    requires Reachable(s) && ThreeArrived(s) && s.metas == map["g" := G3]
    ensures Reachable(t) && ThreeArrived(t) && t.metas == map["g" := G3] && t.ix.pc.Wiped?
      && t.ix.cache == map["g" := G3]
  {
    Goes(s, Restart(Crash));
    var s2 := DoRestart(s, Crash);
    Goes(s2, Restart(LoseDirectory(0)));
    var s3 := DoRestart(s2, LoseDirectory(0));
    Goes(s3, Restart(Start(0)));
    var s4 := DoRestart(s3, Start(0));
    Goes(s4, Restart(Reload("g")));
    t := DoRestart(s4, Reload("g"));
  }

  lemma NewestOfOne()
    ensures NewestEvent(map["g" := G3]) == 3
  {
    var m := map["g" := G3];
    assert LastEvents(m) == {3} by {
      assert m["g"].lastEvent == 3;
    }
  }

  /**
   The indexer stops after it has written the meta object of g and before that of f, and loses its
   directory. The meta objects are then not prefix-closed, and a rebuild forgets f although the journal holds its state.
   */
  lemma StopInsideWritesLosesEvent() returns (before: Sys, after: Sys)
    ensures Reachable(before) && before.ix.pc.Wiped? && !PrefixClosed(before.log, before.metas)
    ensures Enabled(before, Restart(Rekey(0))) && after == Apply(before, Restart(Rekey(0)))
    ensures Newest(after.log, "f") == Some(F2)
      && Patched(Overlay(after.log, after.ix.lastKey), after.ix.cache, "f").None?
  {
    var arrived := ThreeArrive();
    var folded := FoldThree(arrived);
    var written := WriteOne(folded);
    before := RestartAfterOne(written);
    NewestOfOne();
    assert IsState(before.log, 2, "f") && !CoversFile(before.log, 3, before.metas, "f");
    after := DoRestart(before, Rekey(0));
    NewestIs(after.log, 2, "f", 0);
    OverlayHas(after.log, 3, "f");
    NewestAfterIs(after.log, "f", 3);
  }
}
