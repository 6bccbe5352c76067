/**
 The Merkle root of a checkpoint's leaves. Digests are abstract; `pair` hashes two of them and is
 taken to be injective where a result needs that.
 */
module Merkle {
  import opened Wrappers

  ghost predicate Injective<D(!new)>(pair: (D, D) -> D) {
    forall a, b, c, d :: pair(a, b) == pair(c, d) ==> a == c && b == d
  }

  /** One level up: neighbours are hashed together, an odd last one with itself. */
  function Level<D>(level: seq<D>, pair: (D, D) -> D): (next: seq<D>)
    ensures |next| == (|level| + 1) / 2
  {
    if level == [] then []
    else if |level| == 1 then [pair(level[0], level[0])]
    else [pair(level[0], level[1])] + Level(level[2..], pair)
  }

  function Root<D>(level: seq<D>, pair: (D, D) -> D): D
    requires level != []
    decreases |level|
  {
    if |level| == 1 then level[0] else Root(Level(level, pair), pair)
  }

  lemma LevelStep<D>(done: seq<D>, rest: seq<D>, pair: (D, D) -> D)
    requires rest != []
    ensures var right := if 1 < |rest| then rest[1] else rest[0];
            var after := if 1 < |rest| then rest[2..] else [];
            done + Level(rest, pair) == done + [pair(rest[0], right)] + Level(after, pair)
  {
    assert |rest| == 1 ==> Level(rest, pair) == [pair(rest[0], rest[0])] + Level([], pair);
  }

  method NextLevel<D>(level: seq<D>, pair: (D, D) -> D) returns (next: seq<D>)
    ensures next == Level(level, pair)
  {
    next := [];
    var rest := level;
    while rest != []
      invariant next + Level(rest, pair) == Level(level, pair)
      decreases |rest|
    {
      LevelStep(next, rest, pair);
      var right := rest[0];
      if 1 < |rest| {
        right := rest[1];
      }
      next := next + [pair(rest[0], right)];
      rest := if 1 < |rest| then rest[2..] else [];
    }
    assert next + [] == next;
  }

  /** There is no root of no leaves. */
  method MerkleRoot<D>(leaves: seq<D>, pair: (D, D) -> D) returns (root: Option<D>)
    ensures root == if leaves == [] then None else Some(Root(leaves, pair))
  {
    if |leaves| == 0 {
      return None;
    }
    var level := leaves;
    while |level| > 1
      invariant level != [] && Root(level, pair) == Root(leaves, pair)
      decreases |level|
    {
      level := NextLevel(level, pair);
    }
    return Some(level[0]);
  }

  lemma {:induction false} LevelIsInjective<D(!new)>(a: seq<D>, b: seq<D>, pair: (D, D) -> D)
    requires Injective(pair) && |a| == |b| && Level(a, pair) == Level(b, pair)
    ensures a == b
    decreases |a|
  {
    if |a| > 0 {
      assert Level(a, pair)[0] == Level(b, pair)[0];
      if |a| > 1 {
        assert Level(a, pair)[1..] == Level(b, pair)[1..];
        LevelIsInjective(a[2..], b[2..], pair);
        assert a == [a[0], a[1]] + a[2..] && b == [b[0], b[1]] + b[2..];
      }
    }
  }

  /** Among lists of one length the root determines every leaf. */
  lemma {:induction false} RootDeterminesLeaves<D(!new)>(a: seq<D>, b: seq<D>, pair: (D, D) -> D)
    requires Injective(pair) && |a| == |b| && a != [] && Root(a, pair) == Root(b, pair)
    ensures a == b
    decreases |a|
  {
    if |a| > 1 {
      RootDeterminesLeaves(Level(a, pair), Level(b, pair), pair);
      LevelIsInjective(a, b, pair);
    }
  }

  lemma {:induction false} OddLevel<D>(a: seq<D>, pair: (D, D) -> D)
    requires |a| % 2 == 1
    ensures Level(a + [a[|a| - 1]], pair) == Level(a, pair)
    decreases |a|
  {
    if |a| > 1 {
      var longer := a + [a[|a| - 1]];
      assert longer[2..] == a[2..] + [a[2..][|a| - 3]];
      OddLevel(a[2..], pair);
    }
  }

  lemma {:induction false} LevelJoins<D>(a: seq<D>, b: seq<D>, pair: (D, D) -> D)
    requires |a| % 2 == 0
    ensures Level(a + b, pair) == Level(a, pair) + Level(b, pair)
    decreases |a|
  {
    if a == [] {
      assert a + b == b;
    } else {
      assert (a + b)[2..] == a[2..] + b;
      LevelJoins(a[2..], b, pair);
    }
  }

  function TwoTo(k: nat): nat {
    if k == 0 then 1 else 2 * TwoTo(k - 1)
  }

  /** A full tree is the pair of its halves, left before right, down to the leaves. */
  lemma {:induction false} RootOfHalves<D>(a: seq<D>, b: seq<D>, k: nat, pair: (D, D) -> D)
    requires |a| == |b| == TwoTo(k)
    ensures |a| > 0 && Root(a + b, pair) == pair(Root(a, pair), Root(b, pair))
    decreases k
  {
    if k == 0 {
      assert (a + b)[2..] == [];
      assert Level(a + b, pair) == [pair(a[0], b[0])];
    } else {
      LevelJoins(a, b, pair);
      RootOfHalves(Level(a, pair), Level(b, pair), k - 1, pair);
    }
  }

  /** An odd last node is hashed with itself. */
  lemma RootOfThree<D>(a: D, b: D, c: D, pair: (D, D) -> D)
    ensures Root([a, b, c], pair) == pair(pair(a, b), pair(c, c))
  {
    assert [a, b, c][2..] == [c];
    assert Level([a, b, c], pair) == [pair(a, b), pair(c, c)];
    RootOfHalves([pair(a, b)], [pair(c, c)], 0, pair);
    assert [pair(a, b)] + [pair(c, c)] == [pair(a, b), pair(c, c)];
  }

  /** Without the length it does not: repeating the last of an odd number of leaves keeps the root. */
  lemma OddRootRepeats<D>(a: seq<D>, pair: (D, D) -> D)
    requires |a| % 2 == 1 && |a| > 1
    ensures Root(a + [a[|a| - 1]], pair) == Root(a, pair) && a + [a[|a| - 1]] != a
  {
    OddLevel(a, pair);
    assert |a + [a[|a| - 1]]| == |a| + 1;
  }
}
