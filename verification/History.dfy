/**
 The bounded change history of a published index generation: what it keeps of the changes of all
 generations, and what a follower learns from it.
 */
module History {
  import opened Journal

  const MAX_GENERATIONS := 64
  const MAX_IDS := 5000

  /** The files one generation re-indexed; `full` means all of them. */
  datatype Change = Change(generation: nat, full: bool, changed: set<FileId>)

  /** What a follower has to refresh: these files, everything, or nobody knows. */
  datatype Answer = Files(ids: set<FileId>) | Everything | Unknown

  // ---------------------------------------------------------------- trimming

  function CountIds(history: seq<Change>): nat {
    if history == [] then 0 else |history[0].changed| + CountIds(history[1..])
  }

  predicate Fits(history: seq<Change>) {
    |history| <= 1 || (|history| <= MAX_GENERATIONS && CountIds(history) <= MAX_IDS)
  }

  /** `kept` is the longest end of `all` that fits. */
  ghost predicate LongestFittingEnd(all: seq<Change>, kept: seq<Change>) {
    exists cut :: CutsAt(all, kept, cut)
  }

  ghost predicate CutsAt(all: seq<Change>, kept: seq<Change>, cut: nat) {
    cut <= |all| && kept == all[cut..] && Fits(kept) && forall i :: 0 <= i < cut ==> !Fits(all[i..])
  }

  /** There is one longest end, so saying that a result is it says everything. */
  lemma LongestFittingEndIsUnique(all: seq<Change>, a: seq<Change>, b: seq<Change>)
    requires LongestFittingEnd(all, a) && LongestFittingEnd(all, b)
    ensures a == b
  {
    var i: nat :| CutsAt(all, a, i);
    var j: nat :| CutsAt(all, b, j);
    assert i == j;
  }

  function Trim(all: seq<Change>): seq<Change> {
    if Fits(all) then all else Trim(all[1..])
  }

  lemma {:induction false} TrimIsLongest(all: seq<Change>) returns (cut: nat)
    ensures CutsAt(all, Trim(all), cut) && LongestFittingEnd(all, Trim(all))
    ensures all != [] ==> Trim(all) != []
    decreases |all|
  {
    if Fits(all) {
      cut := 0;
      assert all[0..] == all;
    } else {
      var later := TrimIsLongest(all[1..]);
      cut := later + 1;
      assert all[1..][later..] == all[cut..];
      forall i | 0 <= i < cut ensures !Fits(all[i..]) {
        if i == 0 {
          assert all[0..] == all;
        } else {
          assert all[1..][i - 1..] == all[i..];
        }
      }
    }
    assert CutsAt(all, Trim(all), cut);
  }

  /** The history of the next generation. */
  function Extend(history: seq<Change>, change: Change): seq<Change> {
    if change.full then [Change(change.generation, true, {})] else Trim(history + [change])
  }

  method AppendHistory(history: seq<Change>, change: Change) returns (out: seq<Change>)
    ensures change.full ==> out == [Change(change.generation, true, {})]
    ensures !change.full ==> LongestFittingEnd(history + [change], out)
    ensures out == Extend(history, change)
  {
    if change.full {
      return [Change(change.generation, true, {})];
    }
    out := history + [change];
    ghost var cut := TrimIsLongest(out);
    var total: int := 0;
    for i := 0 to |out|
      invariant total + CountIds(out[i..]) == CountIds(out)
    {
      assert out[i..][1..] == out[i + 1..];
      total := total + |out[i].changed|;
    }
    while |out| > 1 && (|out| > MAX_GENERATIONS || total > MAX_IDS)
      invariant total == CountIds(out) && Trim(out) == Trim(history + [change])
    {
      total := total - |out[0].changed|;
      out := out[1..];
    }
  }

  // ---------------------------------------------------------------- histories of runs

  /** Generations are numbered from 1. */
  ghost predicate Numbered(changes: seq<Change>) {
    forall i :: 0 <= i < |changes| ==> changes[i].generation == i + 1
  }

  /** The history the last of these generations carries. */
  function Of(changes: seq<Change>): seq<Change> {
    if changes == [] then []
    else Extend(Of(changes[..|changes| - 1]), changes[|changes| - 1])
  }

  /** What a history keeps of a change: of a full one only that it was full. */
  function Kept(change: Change): Change {
    if change.full then Change(change.generation, true, {}) else change
  }

  /** `history` is the end of `changes`, entry by entry, and only its first entry may be full. */
  ghost predicate IsEndOf(history: seq<Change>, changes: seq<Change>) {
    && |history| <= |changes|
    && (forall i :: 0 <= i < |history| ==> history[i] == Kept(changes[|changes| - |history| + i]))
    && (forall i :: 0 < i < |history| ==> !history[i].full)
  }

  lemma EndOfEnd(all: seq<Change>, changes: seq<Change>, cut: nat)
    requires IsEndOf(all, changes) && cut <= |all|
    ensures IsEndOf(all[cut..], changes)
  {
    var kept := all[cut..];
    forall i | 0 <= i < |kept| ensures kept[i] == Kept(changes[|changes| - |kept| + i]) {
      assert kept[i] == all[cut + i];
    }
  }

  lemma EndGrows(history: seq<Change>, before: seq<Change>, change: Change)
    requires IsEndOf(history, before) && !change.full
    ensures IsEndOf(history + [change], before + [change])
  {
    var all, changes := history + [change], before + [change];
    forall i | 0 <= i < |all| ensures all[i] == Kept(changes[|changes| - |all| + i]) && (i > 0 ==> !all[i].full) {
      if i < |history| {
        assert all[i] == history[i];
      }
    }
  }

  lemma FullIsEnd(before: seq<Change>, change: Change)
    requires change.full
    ensures IsEndOf([Change(change.generation, true, {})], before + [change])
  {
  }

  lemma ExtendIsEnd(history: seq<Change>, before: seq<Change>, change: Change)
    requires IsEndOf(history, before)
    ensures var more := Extend(history, change);
            more != [] && Fits(more) && IsEndOf(more, before + [change])
  {
    if change.full {
      FullIsEnd(before, change);
    } else {
      EndGrows(history, before, change);
      var cut := TrimIsLongest(history + [change]);
      EndOfEnd(history + [change], before + [change], cut);
    }
  }

  /** In every run of generations the history is a contiguous range ending at the last one. */
  lemma {:induction false} HistoryIsEnd(changes: seq<Change>)
    ensures IsEndOf(Of(changes), changes) && Fits(Of(changes))
    ensures changes != [] ==> Of(changes) != []
  {
    if changes != [] {
      var before, change := changes[..|changes| - 1], changes[|changes| - 1];
      HistoryIsEnd(before);
      ExtendIsEnd(Of(before), before, change);
      assert before + [change] == changes;
    }
  }

  lemma {:induction false} HistoryIsContiguous(changes: seq<Change>)
    requires changes != [] && Numbered(changes)
    ensures var h := Of(changes);
            && h != []
            && (forall i :: 0 <= i < |h| ==> h[i].generation == |changes| - |h| + 1 + i)
            && (forall i :: 0 < i < |h| ==> !h[i].full)
            && |h| <= MAX_GENERATIONS
            && (|h| == 1 || CountIds(h) <= MAX_IDS)
  {
    HistoryIsEnd(changes);
  }

  // ---------------------------------------------------------------- what a follower learns

  /** The ids changed in generations from + 1 .. |changes|. */
  function Union(changes: seq<Change>, from: nat): set<FileId>
    requires from <= |changes|
    decreases |changes| - from
  {
    if from == |changes| then {} else changes[from].changed + Union(changes, from + 1)
  }

  lemma {:induction false} UnionContains(changes: seq<Change>, from: nat, i: nat, id: FileId)
    requires from <= i < |changes| && id in changes[i].changed
    ensures id in Union(changes, from)
    decreases i - from
  {
    if from < i {
      UnionContains(changes, from + 1, i, id);
    }
  }

  lemma {:induction false} UnionOnlyContains(changes: seq<Change>, from: nat, id: FileId) returns (i: nat)
    requires from <= |changes| && id in Union(changes, from)
    ensures from <= i < |changes| && id in changes[i].changed
    decreases |changes| - from
  {
    if id in changes[from].changed {
      i := from;
    } else {
      i := UnionOnlyContains(changes, from + 1, id);
    }
  }

  /** The answer for a follower at generation `served`, given all changes up to the pointer's. */
  function Since(changes: seq<Change>, served: nat): Answer {
    var n := |changes|;
    var first := n - |Of(changes)| + 1;
    if served == n then Files({})
    else if served > n then Everything
    else if served + 1 < first then Unknown
    else if served + 1 == first && changes[served].full then Everything
    else Files(Union(changes, served))
  }

  /**
   A list of ids is the exact union of what changed, and then no generation in between was full;
   it is given unless the history was cut or starts with a full change at that place.
   */
  lemma {:induction false} SinceIsExact(changes: seq<Change>, served: nat, id: FileId)
    requires served <= |changes|
    requires Since(changes, served).Files?
    ensures forall i :: served <= i < |changes| ==> !changes[i].full
    ensures id in Since(changes, served).ids <==> exists i :: served <= i < |changes| && id in changes[i].changed
  {
    HistoryIsEnd(changes);
    var h := Of(changes);
    var start := |changes| - |h|;
    forall i | served <= i < |changes| ensures !changes[i].full {
      assert h[i - start] == Kept(changes[i]);
    }
    if id in Union(changes, served) {
      var i := UnionOnlyContains(changes, served, id);
    }
    if i :| served <= i < |changes| && id in changes[i].changed {
      UnionContains(changes, served, i, id);
    }
  }

  function ByGeneration(history: seq<Change>): map<nat, Change> {
    if history == [] then map[]
    else
      var last := history[|history| - 1];
      ByGeneration(history[..|history| - 1])[last.generation := last]
  }

  lemma {:induction false} ByGenerationFinds(changes: seq<Change>, history: seq<Change>, g: nat)
    requires Numbered(changes) && IsEndOf(history, changes)
    ensures g in ByGeneration(history) <==> |changes| - |history| < g <= |changes|
    ensures g in ByGeneration(history) ==> ByGeneration(history)[g] == Kept(changes[g - 1])
    decreases |history|
  {
    if history != [] {
      var n := |changes|;
      assert history[|history| - 1] == Kept(changes[n - 1]);
      assert IsEndOf(history[..|history| - 1], changes[..n - 1]);
      ByGenerationFinds(changes[..n - 1], history[..|history| - 1], g);
    }
  }

  /** The answer of any history: walk the generations up from g until one is missing or full. */
  function Walk(byGen: map<nat, Change>, g: nat, generation: nat): Answer
    decreases generation - g
  {
    if g > generation then Files({})
    else if g !in byGen then Unknown
    else if byGen[g].full then Everything
    else
      match Walk(byGen, g + 1, generation)
      case Files(ids) => Files(byGen[g].changed + ids)
      case other => other
  }

  function Answered(generation: nat, history: seq<Change>, served: nat): Answer {
    if served > generation then Everything else Walk(ByGeneration(history), served + 1, generation)
  }

  function Joined(ids: set<FileId>, answer: Answer): Answer {
    match answer
    case Files(more) => Files(ids + more)
    case other => other
  }

  method ChangesSince(generation: nat, history: seq<Change>, served: nat) returns (answer: Answer)
    ensures answer == Answered(generation, history, served)
  {
    if served == generation {
      return Files({});
    }
    if served > generation {
      return Everything;
    }
    var byGen: map<nat, Change> := map[];
    for i := 0 to |history|
      invariant byGen == ByGeneration(history[..i])
    {
      assert history[..i + 1][..i] == history[..i];
      byGen := byGen[history[i].generation := history[i]];
    }
    assert history[..|history|] == history;
    var ids: set<FileId> := {};
    for g := served + 1 to generation + 1
      invariant Joined(ids, Walk(byGen, g, generation)) == Answered(generation, history, served)
    {
      if g !in byGen {
        return Unknown;
      }
      if byGen[g].full {
        return Everything;
      }
      assert forall more: set<FileId> :: ids + (byGen[g].changed + more) == ids + byGen[g].changed + more;
      ids := ids + byGen[g].changed;
    }
    return Files(ids);
  }

  /** What a follower learns from a published pointer is `Since`. */
  lemma {:induction false} AnsweredInRuns(changes: seq<Change>, served: nat)
    requires Numbered(changes)
    ensures Answered(|changes|, Of(changes), served) == Since(changes, served)
  {
    var n, h := |changes|, Of(changes);
    HistoryIsEnd(changes);
    if served < n {
      if served + 1 <= n - |h| {
        ByGenerationFinds(changes, h, served + 1);
      } else if changes[served].full {
        ByGenerationFinds(changes, h, served + 1);
        assert h[served - (n - |h|)] == Kept(changes[served]);
      } else {
        WalkJoins(changes, h, served);
      }
    }
  }

  lemma {:induction false} WalkJoins(changes: seq<Change>, history: seq<Change>, from: nat)
    requires Numbered(changes) && IsEndOf(history, changes)
    requires |changes| - |history| <= from <= |changes|
    requires from < |changes| ==> !changes[from].full
    ensures Walk(ByGeneration(history), from + 1, |changes|) == Files(Union(changes, from))
    decreases |changes| - from
  {
    if from < |changes| {
      ByGenerationFinds(changes, history, from + 1);
      var at := from - (|changes| - |history|);
      assert history[at] == Kept(changes[from]);
      if from + 1 < |changes| {
        assert history[at + 1] == Kept(changes[from + 1]);
      }
      WalkJoins(changes, history, from + 1);
    }
  }

  // ---------------------------------------------------------------- what an answer depends on

  /** The changes from index `from` on, as a history keeps them. */
  function KeptFrom(changes: seq<Change>, from: nat): seq<Change>
    requires from <= |changes|
  {
    seq(|changes| - from, i requires 0 <= i < |changes| - from => Kept(changes[from + i]))
  }

  ghost predicate NoneFull(changes: seq<Change>, from: nat) {
    forall i :: from <= i < |changes| ==> !changes[i].full
  }

  /** A history could start at this change: none after it is full, and what is kept of them fits. */
  ghost predicate CanStart(changes: seq<Change>, at: nat) {
    at < |changes| && NoneFull(changes, at + 1) && Fits(KeptFrom(changes, at))
  }

  lemma {:induction false} CountIdsJoins(a: seq<Change>, b: seq<Change>)
    ensures CountIds(a + b) == CountIds(a) + CountIds(b)
    decreases |a|
  {
    if a == [] {
      assert a + b == b;
    } else {
      assert (a + b)[1..] == a[1..] + b;
      CountIdsJoins(a[1..], b);
    }
  }

  lemma PartsFit(a: seq<Change>, b: seq<Change>)
    requires Fits(a + b)
    ensures Fits(a) && Fits(b)
  {
    CountIdsJoins(a, b);
  }

  lemma EndIsKept(history: seq<Change>, changes: seq<Change>, at: nat)
    requires IsEndOf(history, changes) && |changes| - |history| <= at <= |changes|
    ensures history[at - (|changes| - |history|)..] == KeptFrom(changes, at)
  {
  }

  /** The history starts as early as it can: where none later is full and everything kept still fits. */
  lemma {:induction false} HistoryStartsEarliest(changes: seq<Change>, at: nat)
    requires at < |changes|
    ensures |changes| - |Of(changes)| <= at <==> CanStart(changes, at)
  {
    var h := Of(changes);
    HistoryIsEnd(changes);
    var start := |changes| - |h|;
    if start <= at {
      EndIsKept(h, changes, at);
      assert h == h[..at - start] + h[at - start..];
      PartsFit(h[..at - start], h[at - start..]);
      forall i | at + 1 <= i < |changes| ensures !changes[i].full {
        assert h[i - start] == Kept(changes[i]);
      }
    }
    if CanStart(changes, at) {
      CanStartIsLater(changes, at);
    }
  }

  lemma KeptGrows(before: seq<Change>, change: Change, at: nat)
    requires at <= |before|
    ensures KeptFrom(before + [change], at) == KeptFrom(before, at) + [Kept(change)]
  {
  }

  lemma {:induction false} CanStartIsLater(changes: seq<Change>, at: nat)
    requires CanStart(changes, at)
    ensures |changes| - |Of(changes)| <= at
  {
    HistoryIsEnd(changes);
    if at + 1 < |changes| {
      var before, change := changes[..|changes| - 1], changes[|changes| - 1];
      KeptGrows(before, change, at);
      assert before + [change] == changes && !changes[|changes| - 1].full;
      PartsFit(KeptFrom(before, at), [change]);
      CanStartIsLater(before, at);
      HistoryIsEnd(before);
      EndIsKept(Of(before), before, at);
      var all := Of(before) + [change];
      var from := at - (|before| - |Of(before)|);
      assert all[from..] == KeptFrom(changes, at);
      var cut := TrimIsLongest(all);
    }
  }

  /**
   What a follower is told depends on the changes since its generation alone: the ids when none of them is
   full and they fit, everything when only the first is full and the rest fits, and otherwise that nobody
   knows. A follower that is ahead of the pointer reloads everything.
   */
  lemma AnswerDependsOnChanges(changes: seq<Change>, served: nat)
    requires Numbered(changes)
    ensures var answer := Answered(|changes|, Of(changes), served);
            if served > |changes| then answer == Everything
            else if served == |changes| then answer == Files({})
            else if !CanStart(changes, served) then answer == Unknown
            else if changes[served].full then answer == Everything
            else answer == Files(Union(changes, served))
  {
    AnsweredInRuns(changes, served);
    if served < |changes| {
      HistoryStartsEarliest(changes, served);
      HistoryIsEnd(changes);
      if changes[served].full && CanStart(changes, served) {
        FullIsFirst(changes, served);
      }
    }
  }

  lemma FullIsFirst(changes: seq<Change>, at: nat)
    requires at < |changes| && changes[at].full && |changes| - |Of(changes)| <= at
    ensures |changes| - |Of(changes)| == at
  {
    HistoryIsEnd(changes);
    var h := Of(changes);
    assert h[at - (|changes| - |h|)] == Kept(changes[at]);
  }
}
