/**
 The tamper-evidence layer: checkpoints that chain the folded journal events, and the verifier that
 walks the chain and compares it with the journal.
 */
module Audit {
  import opened Wrappers
  import opened Journal
  import Merkle

  type Sha = string

  datatype Leaf = Leaf(key: Key, sha: Sha)
  datatype Original = Original(fileId: FileId, objectKey: string, checksum: Sha, size: nat)

  datatype Checkpoint = Checkpoint(
    n: nat, prev: Sha, first: Key, last: Key, root: Sha, count: nat,
    leaves: seq<Leaf>, originals: seq<Original>, detail: string)

  /** An event to cover: its key, the digest of its bytes, and the object it registers, if any. */
  datatype Covering = Covering(key: Key, sha: Sha, original: Option<Original>)

  /** The hashes: of an object's bytes, of two nodes, and between hex strings and nodes. */
  datatype Hashes = Hashes(digest: Checkpoint -> Sha, pair: (int, int) -> int, node: Sha -> int, hex: int -> Sha,
          genesis: Sha)

  /** Different objects have different digests. */
  ghost predicate InjectiveDigest(h: Hashes) {
    forall a, b :: h.digest(a) == h.digest(b) ==> a == b
  }

  // ---------------------------------------------------------------- building

  function Nodes(h: Hashes, leaves: seq<Leaf>): seq<int> {
    seq(|leaves|, i requires 0 <= i < |leaves| => h.node(leaves[i].sha))
  }

  function RootOf(h: Hashes, leaves: seq<Leaf>): Sha {
    if leaves == [] then "" else h.hex(Merkle.Root(Nodes(h, leaves), h.pair))
  }

  method MerkleRoot(h: Hashes, leaves: seq<Leaf>) returns (root: Sha)
    ensures root == RootOf(h, leaves)
  {
    var nodes := Merkle.MerkleRoot(Nodes(h, leaves), h.pair);
    root := if nodes.None? then "" else h.hex(nodes.value);
  }

  function LeavesOf(entries: seq<Covering>): seq<Leaf> {
    seq(|entries|, i requires 0 <= i < |entries| => Leaf(entries[i].key, entries[i].sha))
  }

  function Registers(entries: seq<Covering>, objectKey: string): bool {
    exists e <- entries :: e.original.Some? && e.original.value.objectKey == objectKey
  }

  /** The registered objects, each object key once, at its first event; an empty object key is none. */
  function OriginalsOf(entries: seq<Covering>): seq<Original> {
    if entries == [] then []
    else
      var before, e := entries[..|entries| - 1], entries[|entries| - 1];
      if e.original.None? || e.original.value.objectKey == "" || Registers(before, e.original.value.objectKey)
      then OriginalsOf(before)
      else OriginalsOf(before) + [e.original.value]
  }

  /** Some event registers this object, and no event before that one registers its key. */
  ghost predicate FirstRegistered(entries: seq<Covering>, o: Original) {
    exists i: nat :: FirstAt(entries, i, o)
  }

  ghost predicate FirstAt(entries: seq<Covering>, i: nat, o: Original) {
    i < |entries| && entries[i].original == Some(o) && o.objectKey != "" && !Registers(entries[..i], o.objectKey)
  }

  lemma FirstsGrow(before: seq<Covering>, e: Covering, o: Original)
    ensures FirstRegistered(before + [e], o) <==> FirstRegistered(before, o) || FirstAt(before + [e], |before|, o)
  {
    var entries := before + [e];
    assert forall i :: 0 <= i < |before| ==> entries[..i] == before[..i] && entries[i] == before[i];
    if i: nat :| FirstAt(before, i, o) {
      assert FirstAt(entries, i, o);
    }
    if i: nat :| FirstAt(entries, i, o) {
      assert i < |before| ==> FirstAt(before, i, o);
    }
  }

  /** The originals are exactly the first registrations of their keys. */
  lemma {:induction false} OriginalsAreFirst(entries: seq<Covering>)
    ensures forall o :: o in OriginalsOf(entries) <==> FirstRegistered(entries, o)
  {
    if entries == [] {
    } else {
      var before, e := entries[..|entries| - 1], entries[|entries| - 1];
      OriginalsAreFirst(before);
      assert entries == before + [e] && entries[..|before|] == before;
      forall o ensures o in OriginalsOf(entries) <==> FirstRegistered(entries, o) {
        FirstsGrow(before, e, o);
      }
    }
  }

  lemma FirstsAreRegistered(entries: seq<Covering>)
    ensures forall o :: o in OriginalsOf(entries) ==> Registers(entries, o.objectKey)
  {
    OriginalsAreFirst(entries);
    forall o | o in OriginalsOf(entries) ensures Registers(entries, o.objectKey) {
      var i: nat :| FirstAt(entries, i, o);
      assert entries[i] in entries;
    }
  }

  /** Each registered object once: no two originals share a key. */
  lemma {:induction false} OriginalsAreDistinct(entries: seq<Covering>)
    ensures forall a, b :: 0 <= a < b < |OriginalsOf(entries)| ==>
              OriginalsOf(entries)[a].objectKey != OriginalsOf(entries)[b].objectKey
  {
    if entries != [] {
      OriginalsAreDistinct(entries[..|entries| - 1]);
      FirstsAreRegistered(entries[..|entries| - 1]);
      assert forall o :: o in OriginalsOf(entries[..|entries| - 1]) ==> o in OriginalsOf(entries);
    }
  }

  /** And each of them: every key that an event registers has an original. */
  lemma {:induction false} EveryKeyHasAnOriginal(entries: seq<Covering>, key: string)
    requires key != "" && Registers(entries, key)
    ensures exists o :: o in OriginalsOf(entries) && o.objectKey == key
  {
    var before, e := entries[..|entries| - 1], entries[|entries| - 1];
    assert entries == before + [e];
    if Registers(before, key) {
      EveryKeyHasAnOriginal(before, key);
      var o :| o in OriginalsOf(before) && o.objectKey == key;
      assert o in OriginalsOf(entries);
    } else {
      assert e.original.Some? && e.original.value in OriginalsOf(entries);
    }
  }

  function Checked(h: Hashes, n: nat, prev: Sha, entries: seq<Covering>, detail: string): Checkpoint
    requires entries != []
  {
    Checkpoint(n, prev, entries[0].key, entries[|entries| - 1].key, RootOf(h, LeavesOf(entries)), |entries|,
               LeavesOf(entries), OriginalsOf(entries), detail)
  }

  method Build(h: Hashes, n: nat, prev: Sha, entries: seq<Covering>, detail: string) returns (cp: Checkpoint)
    requires entries != []
    ensures cp == Checked(h, n, prev, entries, detail)
    ensures cp.n == n && cp.prev == prev && cp.detail == detail && cp.count == |entries| == |cp.leaves|
    ensures forall i :: 0 <= i < |entries| ==> cp.leaves[i] == Leaf(entries[i].key, entries[i].sha)
    ensures cp.first == entries[0].key && cp.last == entries[|entries| - 1].key
    ensures forall o :: o in cp.originals <==> FirstRegistered(entries, o)
  {
    var leaves: seq<Leaf> := [];
    var originals: seq<Original> := [];
    var seen: set<string> := {};
    for i := 0 to |entries|
      invariant leaves == LeavesOf(entries[..i]) && originals == OriginalsOf(entries[..i])
      invariant forall o :: o in seen <==> o != "" && Registers(entries[..i], o)
    {
      var e := entries[i];
      assert entries[..i + 1][..i] == entries[..i] && entries[..i + 1] == entries[..i] + [e];
      leaves := leaves + [Leaf(e.key, e.sha)];
      if e.original.Some? && e.original.value.objectKey != "" && e.original.value.objectKey !in seen {
        seen := seen + {e.original.value.objectKey};
        originals := originals + [e.original.value];
      }
    }
    assert entries[..|entries|] == entries;
    OriginalsAreFirst(entries);
    var root := MerkleRoot(h, leaves);
    cp := Checkpoint(n, prev, entries[0].key, entries[|entries| - 1].key, root, |entries|, leaves, originals, detail);
  }

  // ---------------------------------------------------------------- findings

  datatype Kind =
    | ChainBreak | SequenceGap | RootMismatch | RangeMismatch
    | MissingEvent | ExtraEvent | ModifiedEvent
    | MissingOriginal | ModifiedOriginal | Unreadable

  datatype Finding = Finding(kind: Kind, checkpoint: nat, key: Key, object: string)

  datatype Covered = Covered(leaf: Leaf, checkpoint: nat)

  // ---------------------------------------------------------------- the walk over the chain

  datatype Walk = Walk(findings: seq<Finding>, covered: seq<Covered>, originals: seq<Original>, prevSha: Sha,
          prevN: nat, prevLast: Key)

  function Found(when: bool, kind: Kind, n: nat): seq<Finding> {
    if when then [Finding(kind, n, 0, "")] else []
  }

  predicate RootOk(h: Hashes, cp: Checkpoint) {
    cp.count == |cp.leaves| && RootOf(h, cp.leaves) == cp.root
  }

  predicate RangeOk(cp: Checkpoint) {
    cp.leaves != [] && cp.leaves[0].key == cp.first && cp.leaves[|cp.leaves| - 1].key == cp.last
  }

  function Header(h: Hashes, w: Walk, cp: Checkpoint): seq<Finding> {
    Found(cp.n != w.prevN + 1, SequenceGap, cp.n) + Found(cp.prev != w.prevSha, ChainBreak, cp.n)
    + Found(!RootOk(h, cp), RootMismatch, cp.n) + Found(!RangeOk(cp), RangeMismatch, cp.n)
  }

  function LeafStep(w: Walk, n: nat, leaf: Leaf): Walk {
    if leaf.key <= w.prevLast then w.(findings := w.findings + [Finding(RangeMismatch, n, leaf.key, "")])
    else w.(covered := w.covered + [Covered(leaf, n)], prevLast := leaf.key)
  }

  function LeafSteps(w: Walk, n: nat, leaves: seq<Leaf>): Walk {
    if leaves == [] then w else LeafStep(LeafSteps(w, n, leaves[..|leaves| - 1]), n, leaves[|leaves| - 1])
  }

  function WalkStep(h: Hashes, w: Walk, cp: Checkpoint): Walk {
    LeafSteps(w.(findings := w.findings + Header(h, w, cp)), cp.n, cp.leaves)
    .(originals := w.originals + cp.originals, prevSha := h.digest(cp), prevN := cp.n)
  }

  function Walked(h: Hashes, chain: seq<Checkpoint>): Walk {
    if chain == [] then Walk([], [], [], h.genesis, 0, 0)
    else WalkStep(h, Walked(h, chain[..|chain| - 1]), chain[|chain| - 1])
  }

  method WalkLeaves(w: Walk, cp: Checkpoint) returns (out: Walk)
    ensures out == LeafSteps(w, cp.n, cp.leaves)
  {
    out := w;
    for i := 0 to |cp.leaves|
      invariant out == LeafSteps(w, cp.n, cp.leaves[..i])
      invariant i > 0 ==> cp.leaves[i - 1].key <= out.prevLast
    {
      assert cp.leaves[..i + 1][..i] == cp.leaves[..i];
      var l := cp.leaves[i];
      if l.key <= out.prevLast {
        out := out.(findings := out.findings + [Finding(RangeMismatch, cp.n, l.key, "")]);
      } else if i > 0 && l.key <= cp.leaves[i - 1].key {
        // "leaves are not in key order": the test before has already caught it
        assert false;
      } else {
        out := out.(covered := out.covered + [Covered(l, cp.n)], prevLast := l.key);
      }
    }
    assert cp.leaves[..|cp.leaves|] == cp.leaves;
  }

  // ---------------------------------------------------------------- what the walk finds

  ghost predicate Ascending(covered: seq<Covered>) {
    forall i, j :: 0 <= i < j < |covered| ==> covered[i].leaf.key < covered[j].leaf.key
  }

  ghost predicate WalkOk(w: Walk) {
    Ascending(w.covered) && forall c :: c in w.covered ==> 0 < c.leaf.key <= w.prevLast
  }

  lemma {:induction false} LeafStepsOk(w: Walk, n: nat, leaves: seq<Leaf>)
    requires WalkOk(w)
    ensures WalkOk(LeafSteps(w, n, leaves))
  {
    if leaves != [] {
      LeafStepsOk(w, n, leaves[..|leaves| - 1]);
    }
  }

  /** Covered keys are strictly increasing whatever the checkpoints contain. */
  lemma {:induction false} CoveredIncreases(h: Hashes, chain: seq<Checkpoint>)
    ensures WalkOk(Walked(h, chain))
  {
    if chain != [] {
      var w, cp := Walked(h, chain[..|chain| - 1]), chain[|chain| - 1];
      CoveredIncreases(h, chain[..|chain| - 1]);
      LeafStepsOk(w.(findings := w.findings + Header(h, w, cp)), cp.n, cp.leaves);
    }
  }

  /** All leaves of a list in order after a key. */
  ghost predicate Ascends(after: Key, leaves: seq<Leaf>) {
    && (leaves != [] ==> after < leaves[0].key)
    && forall i :: 0 < i < |leaves| ==> leaves[i - 1].key < leaves[i].key
  }

  function AsCovered(leaves: seq<Leaf>, n: nat): seq<Covered> {
    seq(|leaves|, i requires 0 <= i < |leaves| => Covered(leaves[i], n))
  }

  /** Leaves are found fault with unless they ascend, and then all of them are covered. */
  lemma {:induction false} LeafStepsClean(w: Walk, n: nat, leaves: seq<Leaf>)
    ensures |LeafSteps(w, n, leaves).findings| >= |w.findings|
    ensures LeafSteps(w, n, leaves).findings == w.findings <==> Ascends(w.prevLast, leaves)
    ensures Ascends(w.prevLast, leaves) ==>
              && LeafSteps(w, n, leaves).covered == w.covered + AsCovered(leaves, n)
              && LeafSteps(w, n, leaves).prevLast == (if leaves == [] then w.prevLast else leaves[|leaves| - 1].key)
    ensures LeafSteps(w, n, leaves).originals == w.originals
  {
    if leaves != [] {
      var before, last := leaves[..|leaves| - 1], leaves[|leaves| - 1];
      LeafStepsClean(w, n, before);
      if Ascends(w.prevLast, leaves) {
        assert Ascends(w.prevLast, before);
        assert AsCovered(leaves, n) == AsCovered(before, n) + [Covered(last, n)];
      } else if Ascends(w.prevLast, before) {
        assert before != [] ==> leaves[|leaves| - 2] == before[|before| - 1];
      }
    }
  }

  /** What a checkpoint has to be after w for the walk to find nothing. */
  ghost predicate Follows(h: Hashes, w: Walk, cp: Checkpoint) {
    cp.n == w.prevN + 1 && cp.prev == w.prevSha && RootOk(h, cp) && RangeOk(cp) && Ascends(w.prevLast, cp.leaves)
  }

  lemma WalkStepClean(h: Hashes, w: Walk, cp: Checkpoint)
    ensures |WalkStep(h, w, cp).findings| >= |w.findings|
    ensures WalkStep(h, w, cp).findings == w.findings <==> Follows(h, w, cp)
    ensures Follows(h, w, cp) ==>
              WalkStep(h, w, cp)
              == Walk(w.findings, w.covered + AsCovered(cp.leaves, cp.n), w.originals + cp.originals,
                      h.digest(cp), cp.n, cp.last)
  {
    var header := Header(h, w, cp);
    LeafStepsClean(w.(findings := w.findings + header), cp.n, cp.leaves);
    if header == [] {
      assert w.findings + header == w.findings;
    }
  }

  /** Every checkpoint follows the ones before it. */
  ghost predicate Clean(h: Hashes, chain: seq<Checkpoint>) {
    chain == [] || (Clean(h, chain[..|chain| - 1]) && Follows(h, Walked(h, chain[..|chain| - 1]), chain[|chain| - 1]))
  }

  lemma WalkAppends(h: Hashes, before: seq<Checkpoint>, cp: Checkpoint)
    ensures Walked(h, before + [cp]) == WalkStep(h, Walked(h, before), cp)
    ensures Clean(h, before + [cp]) <==> Clean(h, before) && Follows(h, Walked(h, before), cp)
  {
    assert (before + [cp])[..|before|] == before;
  }

  function AllCovered(chain: seq<Checkpoint>): seq<Covered> {
    if chain == [] then []
    else
      var cp := chain[|chain| - 1];
      AllCovered(chain[..|chain| - 1]) + AsCovered(cp.leaves, cp.n)
  }

  /** The walk finds nothing exactly when every checkpoint follows the ones before it; it then covers every leaf. */
  lemma {:induction false} WalkFindsNothingIffClean(h: Hashes, chain: seq<Checkpoint>)
    ensures Walked(h, chain).findings == [] <==> Clean(h, chain)
    ensures Clean(h, chain) ==> Walked(h, chain).covered == AllCovered(chain)
  {
    if chain != [] {
      var before, cp := chain[..|chain| - 1], chain[|chain| - 1];
      WalkFindsNothingIffClean(h, before);
      WalkStepClean(h, Walked(h, before), cp);
    }
  }

  // ---------------------------------------------------------------- what the chain proves

  /** What the next checkpoint has to link to. */
  function Link(h: Hashes, chain: seq<Checkpoint>): Sha {
    if chain == [] then h.genesis else h.digest(chain[|chain| - 1])
  }

  /** No break and no gap: what the walk checks about the links alone. */
  ghost predicate Linked(h: Hashes, chain: seq<Checkpoint>) {
    chain == []
    || (Linked(h, chain[..|chain| - 1]) && chain[|chain| - 1].n == |chain|
      && chain[|chain| - 1].prev == Link(h, chain[..|chain| - 1]))
  }

  lemma {:induction false} WalkedIs(h: Hashes, chain: seq<Checkpoint>)
    ensures Walked(h, chain).prevSha == Link(h, chain)
    ensures Walked(h, chain).prevN == if chain == [] then 0 else chain[|chain| - 1].n
  {
  }

  ghost predicate NoneOf(findings: seq<Finding>, kind: Kind) {
    forall f :: f in findings ==> f.kind != kind
  }

  lemma {:induction false} LeafFindings(w: Walk, n: nat, leaves: seq<Leaf>, kind: Kind)
    requires kind != RangeMismatch
    ensures NoneOf(LeafSteps(w, n, leaves).findings, kind) <==> NoneOf(w.findings, kind)
  {
    if leaves != [] {
      LeafFindings(w, n, leaves[..|leaves| - 1], kind);
    }
  }

  lemma HeaderFindings(h: Hashes, w: Walk, cp: Checkpoint)
    ensures NoneOf(w.findings + Header(h, w, cp), SequenceGap) <==>
              NoneOf(w.findings, SequenceGap) && cp.n == w.prevN + 1
    ensures NoneOf(w.findings + Header(h, w, cp), ChainBreak) <==>
              NoneOf(w.findings, ChainBreak) && cp.prev == w.prevSha
  {
    var header := Header(h, w, cp);
    if cp.n != w.prevN + 1 {
      assert Finding(SequenceGap, cp.n, 0, "") in header;
    }
    if cp.prev != w.prevSha {
      assert Finding(ChainBreak, cp.n, 0, "") in header;
    }
    assert cp.n == w.prevN + 1 ==> NoneOf(header, SequenceGap);
    assert cp.prev == w.prevSha ==> NoneOf(header, ChainBreak);
  }

  /** Reports without these two findings are exactly those of linked chains. */
  lemma {:induction false} LinkedIffNoBreakOrGap(h: Hashes, chain: seq<Checkpoint>)
    ensures var found := Walked(h, chain).findings;
            Linked(h, chain) <==> NoneOf(found, SequenceGap) && NoneOf(found, ChainBreak)
  {
    if chain != [] {
      var before, cp := chain[..|chain| - 1], chain[|chain| - 1];
      var w := Walked(h, before);
      LinkedIffNoBreakOrGap(h, before);
      WalkedIs(h, before);
      HeaderFindings(h, w, cp);
      LeafFindings(w.(findings := w.findings + Header(h, w, cp)), cp.n, cp.leaves, SequenceGap);
      LeafFindings(w.(findings := w.findings + Header(h, w, cp)), cp.n, cp.leaves, ChainBreak);
    }
  }

  lemma HeaderRoot(h: Hashes, w: Walk, cp: Checkpoint)
    ensures NoneOf(w.findings + Header(h, w, cp), RootMismatch) <==>
              NoneOf(w.findings, RootMismatch) && cp.count == |cp.leaves| && RootOf(h, cp.leaves) == cp.root
  {
    var header := Header(h, w, cp);
    if cp.count != |cp.leaves| || RootOf(h, cp.leaves) != cp.root {
      assert Finding(RootMismatch, cp.n, 0, "") in header;
    } else {
      assert NoneOf(header, RootMismatch);
    }
  }

  lemma StepRoot(h: Hashes, w: Walk, cp: Checkpoint)
    ensures NoneOf(WalkStep(h, w, cp).findings, RootMismatch) <==>
              NoneOf(w.findings, RootMismatch) && cp.count == |cp.leaves| && RootOf(h, cp.leaves) == cp.root
  {
    HeaderRoot(h, w, cp);
    LeafFindings(w.(findings := w.findings + Header(h, w, cp)), cp.n, cp.leaves, RootMismatch);
  }

  /** Every checkpoint has the count and the root of its leaves. */
  ghost predicate Rooted(h: Hashes, chain: seq<Checkpoint>) {
    forall i :: 0 <= i < |chain| ==>
      chain[i].count == |chain[i].leaves| && RootOf(h, chain[i].leaves) == chain[i].root
  }

  lemma RootsGrow(h: Hashes, chain: seq<Checkpoint>)
    requires chain != []
    ensures var before, cp := chain[..|chain| - 1], chain[|chain| - 1];
            Rooted(h, chain) <==> Rooted(h, before) && cp.count == |cp.leaves| && RootOf(h, cp.leaves) == cp.root
  {
    var before := chain[..|chain| - 1];
    assert forall i :: 0 <= i < |before| ==> before[i] == chain[i];
  }

  /** A root is reported exactly when some checkpoint has not. */
  lemma {:induction false} RootsMatchIff(h: Hashes, chain: seq<Checkpoint>)
    ensures NoneOf(Walked(h, chain).findings, RootMismatch) <==> Rooted(h, chain)
  {
    if chain != [] {
      var before, cp := chain[..|chain| - 1], chain[|chain| - 1];
      RootsMatchIff(h, before);
      StepRoot(h, Walked(h, before), cp);
      RootsGrow(h, chain);
    }
  }

  lemma StepLinks(h: Hashes, w: Walk, cp: Checkpoint)
    ensures NoneOf(WalkStep(h, w, cp).findings, SequenceGap) <==>
              NoneOf(w.findings, SequenceGap) && cp.n == w.prevN + 1
    ensures NoneOf(WalkStep(h, w, cp).findings, ChainBreak) <==>
              NoneOf(w.findings, ChainBreak) && cp.prev == w.prevSha
  {
    HeaderFindings(h, w, cp);
    LeafFindings(w.(findings := w.findings + Header(h, w, cp)), cp.n, cp.leaves, SequenceGap);
    LeafFindings(w.(findings := w.findings + Header(h, w, cp)), cp.n, cp.leaves, ChainBreak);
  }

  /** The checkpoints are numbered one by one from 1. */
  ghost predicate Counted(chain: seq<Checkpoint>) {
    forall i :: 0 <= i < |chain| ==> chain[i].n == i + 1
  }

  /** Each carries the digest of the one before it, the first the genesis value. */
  ghost predicate Joined(h: Hashes, chain: seq<Checkpoint>) {
    && (chain != [] ==> chain[0].prev == h.genesis)
    && forall i :: 0 < i < |chain| ==> chain[i].prev == h.digest(chain[i - 1])
  }

  lemma ChainsGrow(h: Hashes, chain: seq<Checkpoint>)
    requires chain != []
    ensures var before, cp := chain[..|chain| - 1], chain[|chain| - 1];
            && (Counted(chain) <==> Counted(before) && cp.n == (if before == [] then 0 else before[|before| - 1].n) + 1)
            && (Joined(h, chain) <==> Joined(h, before) && cp.prev == Link(h, before))
  {
    var before := chain[..|chain| - 1];
    assert forall i :: 0 <= i < |before| ==> before[i] == chain[i];
  }

  /** A gap is reported exactly when the checkpoints are not numbered so. */
  lemma {:induction false} NumbersFollowIff(h: Hashes, chain: seq<Checkpoint>)
    ensures NoneOf(Walked(h, chain).findings, SequenceGap) <==> Counted(chain)
  {
    if chain != [] {
      var before, cp := chain[..|chain| - 1], chain[|chain| - 1];
      NumbersFollowIff(h, before);
      WalkedIs(h, before);
      StepLinks(h, Walked(h, before), cp);
      ChainsGrow(h, chain);
    }
  }

  /** A break is reported exactly when the checkpoints are not joined so. */
  lemma {:induction false} LinksHoldIff(h: Hashes, chain: seq<Checkpoint>)
    ensures NoneOf(Walked(h, chain).findings, ChainBreak) <==> Joined(h, chain)
  {
    if chain != [] {
      var before, cp := chain[..|chain| - 1], chain[|chain| - 1];
      LinksHoldIff(h, before);
      WalkedIs(h, before);
      StepLinks(h, Walked(h, before), cp);
      ChainsGrow(h, chain);
    }
  }

  /** The walk collects the originals of every checkpoint. */
  lemma {:induction false} WalkCollects(h: Hashes, chain: seq<Checkpoint>, o: Original)
    ensures o in Walked(h, chain).originals <==> exists i :: 0 <= i < |chain| && o in chain[i].originals
  {
    if chain != [] {
      var before, cp := chain[..|chain| - 1], chain[|chain| - 1];
      var w := Walked(h, before);
      WalkCollects(h, before, o);
      LeafStepsClean(w.(findings := w.findings + Header(h, w, cp)), cp.n, cp.leaves);
      assert forall i :: 0 <= i < |before| ==> before[i] == chain[i];
    }
  }

  /** Two chains without break or gap that end in objects of equal digest are the same, object by object. */
  lemma {:induction false} EqualHeadsEqualChains(h: Hashes, a: seq<Checkpoint>, b: seq<Checkpoint>)
    requires InjectiveDigest(h) && Linked(h, a) && Linked(h, b) && a != [] && b != []
    requires h.digest(a[|a| - 1]) == h.digest(b[|b| - 1])
    ensures a == b
    decreases |a|
  {
    var x, y := a[|a| - 1], b[|b| - 1];
    assert x == y && x.n == |a| && y.n == |b|;
    if |a| > 1 {
      EqualHeadsEqualChains(h, a[..|a| - 1], b[..|b| - 1]);
    }
    assert a == a[..|a| - 1] + [x] && b == b[..|b| - 1] + [y];
  }

  /** The same, for chains whose reports show no break and no gap. */
  lemma VerifiedChainsAreEqual(h: Hashes, a: seq<Checkpoint>, b: seq<Checkpoint>)
    requires InjectiveDigest(h) && a != [] && b != [] && h.digest(a[|a| - 1]) == h.digest(b[|b| - 1])
    requires NoneOf(Walked(h, a).findings, SequenceGap) && NoneOf(Walked(h, a).findings, ChainBreak)
    requires NoneOf(Walked(h, b).findings, SequenceGap) && NoneOf(Walked(h, b).findings, ChainBreak)
    ensures a == b
  {
    LinkedIffNoBreakOrGap(h, a);
    LinkedIffNoBreakOrGap(h, b);
    EqualHeadsEqualChains(h, a, b);
  }

  ghost predicate InjectiveHex(h: Hashes) {
    forall m: int, n: int :: h.hex(m) == h.hex(n) ==> m == n
  }

  /** Two checkpoints with the same root and count that pass the root test cover the same digests. */
  lemma RootAndCountDetermineLeaves(h: Hashes, a: Checkpoint, b: Checkpoint)
    requires Merkle.Injective(h.pair) && InjectiveHex(h)
    requires RootOk(h, a) && RootOk(h, b) && a.root == b.root && a.count == b.count
    ensures Nodes(h, a.leaves) == Nodes(h, b.leaves)
  {
    if a.leaves != [] {
      var left, right := Nodes(h, a.leaves), Nodes(h, b.leaves);
      assert |left| == |right| > 0;
      var m: int, n: int := Merkle.Root(left, h.pair), Merkle.Root(right, h.pair);
      assert h.hex(m) == h.hex(n);
      assert m == n;
      Merkle.RootDeterminesLeaves(left, right, h.pair);
    }
  }

  // ---------------------------------------------------------------- the comparison with the journal

  /** The digests of the stored events; None is an object that cannot be read. */
  type Digests = map<Key, Option<Sha>>

  datatype Comparison = Comparison(findings: seq<Finding>, verified: nat, tail: nat)

  function EndOf(covered: seq<Covered>): Key {
    if covered == [] then 0 else covered[|covered| - 1].leaf.key
  }

  function Join(a: Comparison, b: Comparison): Comparison {
    Comparison(a.findings + b.findings, a.verified + b.verified, a.tail + b.tail)
  }

  const NOTHING := Comparison([], 0, 0)

  function Missing(c: Covered): Finding {
    Finding(MissingEvent, c.checkpoint, c.leaf.key, "")
  }

  function Extra(key: Key): Finding {
    Finding(ExtraEvent, 0, key, "")
  }

  /** What is found about a covered event that the journal still lists. */
  function Present(c: Covered, digests: Digests): Comparison {
    if c.leaf.key !in digests || digests[c.leaf.key].None?
       then Comparison([Finding(Unreadable, c.checkpoint, c.leaf.key, "")], 0, 0)
    else if digests[c.leaf.key].value != c.leaf.sha
      then Comparison([Finding(ModifiedEvent, c.checkpoint, c.leaf.key, "")], 0, 0)
    else Comparison([], 1, 0)
  }

  function Unmatched(key: Key, end: Key): Comparison {
    if key > end then Comparison([], 0, 1) else Comparison([Extra(key)], 0, 0)
  }

  function Compared(covered: seq<Covered>, keys: seq<Key>, digests: Digests, end: Key): Comparison
    decreases |covered| + |keys|
  {
    if covered == [] && keys == [] then NOTHING
    else if keys == [] || (covered != [] && covered[0].leaf.key < keys[0]) then
      Join(Comparison([Missing(covered[0])], 0, 0), Compared(covered[1..], keys, digests, end))
    else if covered == [] || keys[0] < covered[0].leaf.key then
      Join(Unmatched(keys[0], end), Compared(covered, keys[1..], digests, end))
    else
      Join(Present(covered[0], digests), Compared(covered[1..], keys[1..], digests, end))
  }

  lemma JoinAssociates(a: Comparison, b: Comparison, c: Comparison)
    ensures Join(Join(a, b), c) == Join(a, Join(b, c)) && Join(a, NOTHING) == a && Join(NOTHING, a) == a
  {
  }

  /** What the first step of the merge finds. */
  function First(covered: seq<Covered>, keys: seq<Key>, digests: Digests, end: Key): Comparison
    requires covered != [] || keys != []
  {
    if keys == [] || (covered != [] && covered[0].leaf.key < keys[0]) then Comparison([Missing(covered[0])], 0, 0)
    else if covered == [] || keys[0] < covered[0].leaf.key then Unmatched(keys[0], end)
    else Present(covered[0], digests)
  }

  lemma CompareStep(out: Comparison, covered: seq<Covered>, keys: seq<Key>, digests: Digests, end: Key)
    requires covered != [] || keys != []
    ensures var takesLeaf := keys == [] || (covered != [] && covered[0].leaf.key <= keys[0]);
            var takesKey := covered == [] || (keys != [] && keys[0] <= covered[0].leaf.key);
            var leaves := if takesLeaf then covered[1..] else covered;
            var rest := if takesKey then keys[1..] else keys;
            Join(out, Compared(covered, keys, digests, end))
            == Join(Join(out, First(covered, keys, digests, end)), Compared(leaves, rest, digests, end))
  {
    var takesLeaf := keys == [] || (covered != [] && covered[0].leaf.key <= keys[0]);
    var takesKey := covered == [] || (keys != [] && keys[0] <= covered[0].leaf.key);
    var leaves := if takesLeaf then covered[1..] else covered;
    var rest := if takesKey then keys[1..] else keys;
    JoinAssociates(out, First(covered, keys, digests, end), Compared(leaves, rest, digests, end));
  }

  /** The merge of the covered events with the journal's keys, both in order. */
  method Compare(covered: seq<Covered>, keys: seq<Key>, digests: Digests) returns (out: Comparison)
    ensures out == Compared(covered, keys, digests, EndOf(covered))
  {
    var end := EndOf(covered);
    var left := covered;
    var more: seq<Key> := keys;
    out := NOTHING;
    ghost var goal := Compared(covered, keys, digests, end);
    JoinAssociates(goal, NOTHING, NOTHING);
    while left != [] || more != []
      invariant Join(out, Compared(left, more, digests, end)) == goal
      decreases |left| + |more|
    {
      CompareStep(out, left, more, digests, end);
      var found: Comparison;
      if more == [] || (left != [] && left[0].leaf.key < more[0]) {
        found := Comparison([Missing(left[0])], 0, 0);
        left := left[1..];
      } else if left == [] || more[0] < left[0].leaf.key {
        found := Unmatched(more[0], end);
        more := more[1..];
      } else {
        found := Present(left[0], digests);
        left, more := left[1..], more[1..];
      }
      out := Join(out, found);
    }
    JoinAssociates(out, NOTHING, NOTHING);
  }

  // ---------------------------------------------------------------- what the comparison finds

  ghost predicate Covers(covered: seq<Covered>, key: Key) {
    exists c :: c in covered && c.leaf.key == key
  }

  /** A covered event is gone. */
  ghost predicate IsGone(f: Finding, covered: seq<Covered>, keys: seq<Key>) {
    exists c :: c in covered && f == Missing(c) && c.leaf.key !in keys
  }

  /** A covered event is there, but unreadable or changed. */
  ghost predicate IsBad(f: Finding, covered: seq<Covered>, keys: seq<Key>, digests: Digests) {
    exists c :: c in covered && c.leaf.key in keys && f in Present(c, digests).findings
  }

  /** An event inside the covered range is not covered. */
  ghost predicate IsUncovered(f: Finding, covered: seq<Covered>, keys: seq<Key>, end: Key) {
    exists k :: k in keys && f == Extra(k) && k <= end && !Covers(covered, k)
  }

  /** The findings there should be. */
  ghost predicate Expected(f: Finding, covered: seq<Covered>, keys: seq<Key>, digests: Digests, end: Key) {
    IsGone(f, covered, keys) || IsBad(f, covered, keys, digests) || IsUncovered(f, covered, keys, end)
  }

  ghost predicate InKeyOrder(covered: seq<Covered>, keys: seq<Key>) {
    Ascending(covered) && Increasing(keys)
  }

  lemma FirstIsLeast(covered: seq<Covered>, keys: seq<Key>)
    requires InKeyOrder(covered, keys)
    ensures covered != [] ==>
              InKeyOrder(covered[1..], keys) && forall c :: c in covered[1..] ==> covered[0].leaf.key < c.leaf.key
    ensures keys != [] ==> InKeyOrder(covered, keys[1..]) && forall k :: k in keys[1..] ==> keys[0] < k
  {
  }

  /** Every expected finding is reported and no other. */
  lemma {:induction false} FindingsAreExact(covered: seq<Covered>, keys: seq<Key>, digests: Digests, end: Key,
          f: Finding)
    requires InKeyOrder(covered, keys)
    ensures f in Compared(covered, keys, digests, end).findings <==> Expected(f, covered, keys, digests, end)
    decreases |covered| + |keys|
  {
    FirstIsLeast(covered, keys);
    if covered == [] && keys == [] {
    } else if keys == [] || (covered != [] && covered[0].leaf.key < keys[0]) {
      FindingsAreExact(covered[1..], keys, digests, end, f);
      DropMissing(covered, keys, digests, end, f);
    } else if covered == [] || keys[0] < covered[0].leaf.key {
      FindingsAreExact(covered, keys[1..], digests, end, f);
      DropUnmatched(covered, keys, digests, end, f);
    } else {
      FirstIsLeast(covered[1..], keys);
      FindingsAreExact(covered[1..], keys[1..], digests, end, f);
      DropBoth(covered, keys, digests, end, f);
    }
  }

  lemma SplitFirst<T>(s: seq<T>)
    requires s != []
    ensures s == [s[0]] + s[1..] && forall x :: x in s <==> x == s[0] || x in s[1..]
  {
  }

  lemma DropMissing(covered: seq<Covered>, keys: seq<Key>, digests: Digests, end: Key, f: Finding)
    requires InKeyOrder(covered, keys) && covered != [] && (keys == [] || covered[0].leaf.key < keys[0])
    ensures Expected(f, covered, keys, digests, end) <==>
              f == Missing(covered[0]) || Expected(f, covered[1..], keys, digests, end)
  {
    var c := covered[0];
    SplitFirst(covered);
    assert c.leaf.key !in keys by {
      FirstIsLeast(covered, keys);
    }
    assert forall k :: k in keys ==> (Covers(covered, k) <==> Covers(covered[1..], k));
  }

  lemma DropUnmatched(covered: seq<Covered>, keys: seq<Key>, digests: Digests, end: Key, f: Finding)
    requires InKeyOrder(covered, keys) && keys != [] && (covered == [] || keys[0] < covered[0].leaf.key)
    ensures Expected(f, covered, keys, digests, end) <==>
              f in Unmatched(keys[0], end).findings || Expected(f, covered, keys[1..], digests, end)
  {
    SplitFirst(keys);
    assert !Covers(covered, keys[0]) by {
      FirstIsLeast(covered, keys);
    }
  }

  lemma CoversWithoutFirst(covered: seq<Covered>)
    requires covered != []
    ensures Covers(covered, covered[0].leaf.key)
    ensures forall k :: k != covered[0].leaf.key ==> (Covers(covered, k) <==> Covers(covered[1..], k))
  {
    SplitFirst(covered);
    assert covered[0] in covered;
  }

  ghost predicate SameHead(covered: seq<Covered>, keys: seq<Key>) {
    InKeyOrder(covered, keys) && covered != [] && keys != [] && covered[0].leaf.key == keys[0]
  }

  lemma BothGone(covered: seq<Covered>, keys: seq<Key>, f: Finding)
    requires SameHead(covered, keys)
    ensures IsGone(f, covered, keys) <==> IsGone(f, covered[1..], keys[1..])
  {
    FirstIsLeast(covered, keys);
    SplitFirst(covered);
    SplitFirst(keys);
  }

  lemma BothBad(covered: seq<Covered>, keys: seq<Key>, digests: Digests, f: Finding)
    requires SameHead(covered, keys)
    ensures IsBad(f, covered, keys, digests) <==>
              f in Present(covered[0], digests).findings || IsBad(f, covered[1..], keys[1..], digests)
  {
    FirstIsLeast(covered, keys);
    SplitFirst(covered);
    SplitFirst(keys);
  }

  lemma BothUncovered(covered: seq<Covered>, keys: seq<Key>, end: Key, f: Finding)
    requires SameHead(covered, keys)
    ensures IsUncovered(f, covered, keys, end) <==> IsUncovered(f, covered[1..], keys[1..], end)
  {
    FirstIsLeast(covered, keys);
    CoversWithoutFirst(covered);
    SplitFirst(keys);
  }

  lemma DropBoth(covered: seq<Covered>, keys: seq<Key>, digests: Digests, end: Key, f: Finding)
    requires SameHead(covered, keys)
    ensures Expected(f, covered, keys, digests, end)
            <==> f in Present(covered[0], digests).findings || Expected(f, covered[1..], keys[1..], digests, end)
  {
    BothGone(covered, keys, f);
    BothBad(covered, keys, digests, f);
    BothUncovered(covered, keys, end, f);
  }

  /** The checkpoint with this number covers an event under this key. */
  ghost predicate CoveredBy(covered: seq<Covered>, n: nat, k: Key, c: Covered) {
    c in covered && c.leaf.key == k && c.checkpoint == n
  }

  lemma MissingIsExpected(covered: seq<Covered>, keys: seq<Key>, digests: Digests, end: Key, n: nat, k: Key)
    ensures Expected(Finding(MissingEvent, n, k, ""), covered, keys, digests, end) <==>
              k !in keys && exists c :: CoveredBy(covered, n, k, c)
  {
    var f := Finding(MissingEvent, n, k, "");
    assert !IsBad(f, covered, keys, digests) && !IsUncovered(f, covered, keys, end);
    if c :| CoveredBy(covered, n, k, c) {
      assert f == Missing(c);
    }
    if c :| c in covered && f == Missing(c) && c.leaf.key !in keys {
      assert CoveredBy(covered, n, k, c);
    }
  }

  lemma UnreadableIsExpected(covered: seq<Covered>, keys: seq<Key>, digests: Digests, end: Key, n: nat, k: Key)
    requires forall j :: j in keys <==> j in digests
    ensures Expected(Finding(Unreadable, n, k, ""), covered, keys, digests, end) <==>
              k in digests && digests[k] == None && exists c :: CoveredBy(covered, n, k, c)
  {
    var f := Finding(Unreadable, n, k, "");
    assert !IsGone(f, covered, keys) && !IsUncovered(f, covered, keys, end);
    if c :| CoveredBy(covered, n, k, c) && k in digests && digests[k] == None {
      assert f in Present(c, digests).findings;
    }
    if c :| c in covered && c.leaf.key in keys && f in Present(c, digests).findings {
      assert CoveredBy(covered, n, k, c);
    }
  }

  lemma ModifiedIsExpected(covered: seq<Covered>, keys: seq<Key>, digests: Digests, end: Key, n: nat, k: Key)
    requires forall j :: j in keys <==> j in digests
    ensures Expected(Finding(ModifiedEvent, n, k, ""), covered, keys, digests, end) <==>
              && k in digests && digests[k].Some?
              && exists c :: CoveredBy(covered, n, k, c) && c.leaf.sha != digests[k].value
  {
    var f := Finding(ModifiedEvent, n, k, "");
    assert !IsGone(f, covered, keys) && !IsUncovered(f, covered, keys, end);
    if k in digests && digests[k].Some? {
      if c :| CoveredBy(covered, n, k, c) && c.leaf.sha != digests[k].value {
        assert f in Present(c, digests).findings;
      }
    }
    if c :| c in covered && c.leaf.key in keys && f in Present(c, digests).findings {
      assert CoveredBy(covered, n, k, c);
    }
  }

  lemma ExtraIsExpected(covered: seq<Covered>, keys: seq<Key>, digests: Digests, end: Key, k: Key)
    ensures Expected(Finding(ExtraEvent, 0, k, ""), covered, keys, digests, end) <==>
              k in keys && k <= end && forall c :: c in covered ==> c.leaf.key != k
  {
    var f := Finding(ExtraEvent, 0, k, "");
    assert !IsGone(f, covered, keys) && !IsBad(f, covered, keys, digests);
    assert f == Extra(k);
  }

  /** Which finding each of the four things that may have become of an event gives. */
  lemma EventFindings(covered: seq<Covered>, digests: Digests, n: nat, k: Key)
    requires Ascending(covered)
    ensures var found := Compared(covered, Sorted(digests.Keys), digests, EndOf(covered)).findings;
            && (Finding(MissingEvent, n, k, "") in found <==> k !in digests && exists c :: CoveredBy(covered, n, k, c))
            && (Finding(Unreadable, n, k, "") in found <==>
                  k in digests && digests[k] == None && exists c :: CoveredBy(covered, n, k, c))
            && (Finding(ModifiedEvent, n, k, "") in found <==>
                  && k in digests && digests[k].Some?
                  && exists c :: CoveredBy(covered, n, k, c) && c.leaf.sha != digests[k].value)
            && (Finding(ExtraEvent, 0, k, "") in found <==>
                  k in digests && k <= EndOf(covered) && forall c :: c in covered ==> c.leaf.key != k)
  {
    var keys, end := Sorted(digests.Keys), EndOf(covered);
    SortedLists(digests.Keys);
    FindingsAreExact(covered, keys, digests, end, Finding(MissingEvent, n, k, ""));
    FindingsAreExact(covered, keys, digests, end, Finding(Unreadable, n, k, ""));
    FindingsAreExact(covered, keys, digests, end, Finding(ModifiedEvent, n, k, ""));
    FindingsAreExact(covered, keys, digests, end, Finding(ExtraEvent, 0, k, ""));
    MissingIsExpected(covered, keys, digests, end, n, k);
    UnreadableIsExpected(covered, keys, digests, end, n, k);
    ModifiedIsExpected(covered, keys, digests, end, n, k);
    ExtraIsExpected(covered, keys, digests, end, k);
  }

  ghost predicate Good(c: Covered, digests: Digests) {
    c.leaf.key in digests && digests[c.leaf.key] == Some(c.leaf.sha)
  }

  /** How many covered events the journal still holds unchanged. */
  ghost function CountGood(covered: seq<Covered>, digests: Digests): nat {
    if covered == [] then 0 else (if Good(covered[0], digests) then 1 else 0) + CountGood(covered[1..], digests)
  }

  /** For the covered keys, the list is what the journal holds. */
  ghost predicate Agrees(covered: seq<Covered>, keys: seq<Key>, digests: Digests) {
    forall c :: c in covered ==> (c.leaf.key in keys <==> c.leaf.key in digests)
  }

  lemma AgreesWithoutKey(covered: seq<Covered>, keys: seq<Key>, digests: Digests)
    requires InKeyOrder(covered, keys) && Agrees(covered, keys, digests) && keys != []
    requires covered == [] || keys[0] < covered[0].leaf.key
    ensures Agrees(covered, keys[1..], digests)
  {
    FirstIsLeast(covered, keys);
    SplitFirst(keys);
  }

  lemma AgreesWithoutBoth(covered: seq<Covered>, keys: seq<Key>, digests: Digests)
    requires InKeyOrder(covered, keys) && Agrees(covered, keys, digests) && covered != [] && keys != []
    requires covered[0].leaf.key == keys[0]
    ensures Agrees(covered[1..], keys[1..], digests)
  {
    FirstIsLeast(covered, keys);
    SplitFirst(keys);
  }

  lemma {:induction false} VerifiedIsExact(covered: seq<Covered>, keys: seq<Key>, digests: Digests, end: Key)
    requires InKeyOrder(covered, keys) && Agrees(covered, keys, digests)
    ensures Compared(covered, keys, digests, end).verified == CountGood(covered, digests)
    decreases |covered| + |keys|
  {
    FirstIsLeast(covered, keys);
    if covered == [] && keys == [] {
    } else if keys == [] || (covered != [] && covered[0].leaf.key < keys[0]) {
      VerifiedIsExact(covered[1..], keys, digests, end);
      assert covered[0] in covered && covered[0].leaf.key !in digests;
    } else if covered == [] || keys[0] < covered[0].leaf.key {
      AgreesWithoutKey(covered, keys, digests);
      VerifiedIsExact(covered, keys[1..], digests, end);
    } else {
      AgreesWithoutBoth(covered, keys, digests);
      FirstIsLeast(covered[1..], keys);
      VerifiedIsExact(covered[1..], keys[1..], digests, end);
    }
  }

  ghost function CountNewer(keys: seq<Key>, end: Key): nat {
    if keys == [] then 0 else (if end < keys[0] then 1 else 0) + CountNewer(keys[1..], end)
  }

  lemma {:induction false} TailIsExact(covered: seq<Covered>, keys: seq<Key>, digests: Digests, end: Key)
    requires forall c :: c in covered ==> c.leaf.key <= end
    ensures Compared(covered, keys, digests, end).tail == CountNewer(keys, end)
    decreases |covered| + |keys|
  {
    if covered == [] && keys == [] {
    } else if keys == [] || (covered != [] && covered[0].leaf.key < keys[0]) {
      TailIsExact(covered[1..], keys, digests, end);
    } else if covered == [] || keys[0] < covered[0].leaf.key {
      TailIsExact(covered, keys[1..], digests, end);
    } else {
      TailIsExact(covered[1..], keys[1..], digests, end);
    }
  }

  lemma {:induction false} NewerAreAfter(keys: set<Key>, end: Key)
    ensures CountNewer(Sorted(keys), end) == |After(keys, end)|
  {
    if keys != {} {
      var m := Min(keys);
      NewerAreAfter(keys - {m}, end);
      assert ([m] + Sorted(keys - {m}))[1..] == Sorted(keys - {m});
      assert keys == {m} + (keys - {m});
      if end < m {
        assert After(keys, end) == {m} + After(keys - {m}, end);
      } else {
        assert After(keys, end) == After(keys - {m}, end);
      }
    }
  }

  lemma {:induction false} CleanCounts(covered: seq<Covered>, keys: seq<Key>, digests: Digests, end: Key)
    requires Compared(covered, keys, digests, end).findings == []
    ensures Compared(covered, keys, digests, end).verified == |covered|
    decreases |covered| + |keys|
  {
    if covered == [] && keys == [] {
    } else if keys == [] || (covered != [] && covered[0].leaf.key < keys[0]) {
      assert false;
    } else if covered == [] || keys[0] < covered[0].leaf.key {
      CleanCounts(covered, keys[1..], digests, end);
    } else {
      CleanCounts(covered[1..], keys[1..], digests, end);
    }
  }

  /** The journal up to the covered end is exactly what is covered, byte by byte. */
  ghost predicate Intact(covered: seq<Covered>, digests: Digests) {
    && (forall k :: k in digests && k <= EndOf(covered) ==> Covers(covered, k))
    && (forall c :: c in covered ==> Good(c, digests))
  }

  /**
   Nothing is found about events exactly when the journal up to the covered end is what was covered;
   the tail is then, and always, what came after.
   */
  lemma ComparisonIsExact(covered: seq<Covered>, digests: Digests)
    requires Ascending(covered)
    ensures var c := Compared(covered, Sorted(digests.Keys), digests, EndOf(covered));
            && (c.findings == [] <==> Intact(covered, digests))
            && (c.findings == [] ==> c.verified == |covered|)
            && c.verified == CountGood(covered, digests)
            && c.tail == |After(digests.Keys, EndOf(covered))|
  {
    var keys, end := Sorted(digests.Keys), EndOf(covered);
    SortedLists(digests.Keys);
    var c := Compared(covered, keys, digests, end);
    VerifiedIsExact(covered, keys, digests, end);
    TailIsExact(covered, keys, digests, end);
    NewerAreAfter(digests.Keys, end);
    if c.findings == [] {
      CleanCounts(covered, keys, digests, end);
      NothingFound(covered, keys, digests, end);
    }
    if Intact(covered, digests) {
      IntactFindsNothing(covered, keys, digests, end);
    }
  }

  lemma HasElement<T>(s: seq<T>)
    ensures s == [] || s[0] in s
  {
  }

  lemma IntactFindsNothing(covered: seq<Covered>, keys: seq<Key>, digests: Digests, end: Key)
    requires InKeyOrder(covered, keys) && Lists(keys, digests.Keys) && end == EndOf(covered) && Intact(covered, digests)
    ensures Compared(covered, keys, digests, end).findings == []
  {
    var findings := Compared(covered, keys, digests, end).findings;
    forall f ensures f !in findings {
      FindingsAreExact(covered, keys, digests, end, f);
    }
    HasElement(findings);
  }

  lemma NothingFound(covered: seq<Covered>, keys: seq<Key>, digests: Digests, end: Key)
    requires InKeyOrder(covered, keys) && Lists(keys, digests.Keys) && end == EndOf(covered)
    requires Compared(covered, keys, digests, end).findings == []
    ensures Intact(covered, digests)
  {
    forall k | k in digests && k <= end ensures Covers(covered, k) {
      FindingsAreExact(covered, keys, digests, end, Extra(k));
    }
    forall c | c in covered ensures Good(c, digests) {
      FindingsAreExact(covered, keys, digests, end, Missing(c));
      FindingsAreExact(covered, keys, digests, end, Finding(Unreadable, c.checkpoint, c.leaf.key, ""));
      FindingsAreExact(covered, keys, digests, end, Finding(ModifiedEvent, c.checkpoint, c.leaf.key, ""));
    }
  }
}
