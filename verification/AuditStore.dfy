/**
 The checkpoint objects of one tenant: extending the chain, and a verification run over it.
 */
module AuditStore {
  import opened Wrappers
  import opened Journal
  import opened Audit
  import opened Faults

  // ---------------------------------------------------------------- originals

  /** What the bucket says about an object: nothing readable, or its size and, when asked, its digest. */
  datatype Stored = Gone | Broken | Stored(size: nat, sha: Option<Sha>)

  function CheckOriginal(o: Original, stored: Stored, hashOriginals: bool): Option<Finding> {
    match stored
    case Gone => Some(Finding(MissingOriginal, 0, 0, o.objectKey))
    case Broken => Some(Finding(Unreadable, 0, 0, o.objectKey))
    case Stored(size, sha) =>
      if o.size > 0 && size != o.size then Some(Finding(ModifiedOriginal, 0, 0, o.objectKey))
      else if !hashOriginals || o.checksum == "" then None
      else if sha.None? then Some(Finding(Unreadable, 0, 0, o.objectKey))
      else if sha.value != o.checksum then Some(Finding(ModifiedOriginal, 0, 0, o.objectKey))
      else None
  }

  function OriginalFindings(originals: seq<Original>, bucket: string -> Stored, hashOriginals: bool): seq<Finding> {
    if originals == [] then []
    else
      var o := originals[|originals| - 1];
      var found := CheckOriginal(o, bucket(o.objectKey), hashOriginals);
      OriginalFindings(originals[..|originals| - 1], bucket, hashOriginals)
        + (if found.Some? then [found.value] else [])
  }

  /** What is reported of an original, for each of the things that may have become of its object. */
  lemma OriginalIsReported(o: Original, stored: Stored, hashOriginals: bool)
    ensures CheckOriginal(o, stored, hashOriginals) == None <==>
              && stored.Stored? && (o.size > 0 ==> stored.size == o.size)
              && (hashOriginals && o.checksum != "" ==> stored.sha == Some(o.checksum))
    ensures CheckOriginal(o, stored, hashOriginals) == Some(Finding(MissingOriginal, 0, 0, o.objectKey)) <==>
              stored == Gone
    ensures CheckOriginal(o, stored, hashOriginals) == Some(Finding(ModifiedOriginal, 0, 0, o.objectKey)) <==>
              && stored.Stored?
              && (|| (o.size > 0 && stored.size != o.size)
                  || (hashOriginals && o.checksum != "" && stored.sha.Some? && stored.sha != Some(o.checksum)))
    ensures CheckOriginal(o, stored, hashOriginals) == Some(Finding(Unreadable, 0, 0, o.objectKey)) <==>
              || stored == Broken
              || (stored.Stored? && (o.size > 0 ==> stored.size == o.size)
                  && hashOriginals && o.checksum != "" && stored.sha == None)
  {
  }

  /** The findings about originals are those about each of them. */
  lemma {:induction false} OriginalsAreReported(originals: seq<Original>, bucket: string -> Stored,
          hashOriginals: bool, x: Finding)
    ensures x in OriginalFindings(originals, bucket, hashOriginals) <==>
              exists o :: o in originals && CheckOriginal(o, bucket(o.objectKey), hashOriginals) == Some(x)
    ensures |OriginalFindings(originals, bucket, hashOriginals)| <= |originals|
  {
    if originals != [] {
      var before, o := originals[..|originals| - 1], originals[|originals| - 1];
      OriginalsAreReported(before, bucket, hashOriginals, x);
      assert originals == before + [o];
    }
  }

  /**
   Nothing is reported about originals exactly when each of them is there, has the registered size, if one
   is registered, and the registered digest, if one is registered and they are hashed.
   */
  lemma NoFindingsMeansUntouched(originals: seq<Original>, bucket: string -> Stored, hashOriginals: bool)
    ensures OriginalFindings(originals, bucket, hashOriginals) == [] <==>
              forall o :: o in originals ==>
                            var stored := bucket(o.objectKey);
                            && stored.Stored? && (o.size > 0 ==> stored.size == o.size)
                            && (hashOriginals && o.checksum != "" ==> stored.sha == Some(o.checksum))
  {
    var found := OriginalFindings(originals, bucket, hashOriginals);
    forall o | o in originals {
      OriginalIsReported(o, bucket(o.objectKey), hashOriginals);
    }
    if found != [] {
      OriginalsAreReported(originals, bucket, hashOriginals, found[0]);
    }
    forall o | o in originals && CheckOriginal(o, bucket(o.objectKey), hashOriginals).Some?
      ensures found != []
    {
      var x := CheckOriginal(o, bucket(o.objectKey), hashOriginals).value;
      OriginalsAreReported(originals, bucket, hashOriginals, x);
    }
  }

  // ---------------------------------------------------------------- the report

  datatype Report = Report(findings: seq<Finding>, checkpoints: nat, headN: nat, eventsVerified: nat,
          originalsVerified: nat, tail: nat)

  /** The readable checkpoints before the first one that cannot be read. */
  function Readable(listed: seq<Option<Checkpoint>>): seq<Checkpoint> {
    if listed == [] || listed[0].None? then [] else [listed[0].value] + Readable(listed[1..])
  }

  function ReportOf(h: Hashes, listed: seq<Option<Checkpoint>>, digests: Digests, bucket: string -> Stored,
          hashOriginals: bool): Report {
    var chain := Readable(listed);
    var w := Walked(h, chain);
    if |chain| < |listed| then
      Report(w.findings + [Finding(Unreadable, 0, 0, "checkpoint")], |chain|, w.prevN, 0, 0, 0)
    else
      var c := Compared(w.covered, Sorted(digests.Keys), digests, EndOf(w.covered));
      var o := OriginalFindings(w.originals, bucket, hashOriginals);
      var untouched := if |o| <= |w.originals| then |w.originals| - |o| else 0;
      Report(w.findings + c.findings + o, |chain|, w.prevN, c.verified, untouched, c.tail)
  }

  /**
   A run reports nothing exactly when every checkpoint is readable and follows the ones before it, the
   journal up to the covered end is what they cover, and every registered original is in the bucket with
   the registered size and, if it is hashed, digest. It has then verified every covered event and every
   original.
   */
  lemma ReportIsExact(h: Hashes, listed: seq<Option<Checkpoint>>, digests: Digests, bucket: string -> Stored,
          hashOriginals: bool)
    ensures var r, chain := ReportOf(h, listed, digests, bucket, hashOriginals), Readable(listed);
            var w := Walked(h, chain);
            && (r.findings == [] <==>
                  && |chain| == |listed| && Clean(h, chain) && Intact(w.covered, digests)
                  && forall i, o :: 0 <= i < |chain| && o in chain[i].originals ==>
                                      var stored := bucket(o.objectKey);
                                      && stored.Stored? && (o.size > 0 ==> stored.size == o.size)
                                      && (hashOriginals && o.checksum != "" ==> stored.sha == Some(o.checksum)))
            && (r.findings == [] ==>
                  && w.covered == AllCovered(chain) && r.eventsVerified == |w.covered|
                  && r.originalsVerified == |w.originals|
                  && r.checkpoints == |listed| && r.tail == |After(digests.Keys, EndOf(w.covered))|)
  {
    var chain := Readable(listed);
    var w := Walked(h, chain);
    ReadableIsPrefix(listed);
    WalkFindsNothingIffClean(h, chain);
    CoveredIncreases(h, chain);
    ComparisonIsExact(w.covered, digests);
    NoFindingsMeansUntouched(w.originals, bucket, hashOriginals);
    forall o ensures o in w.originals <==> exists i :: 0 <= i < |chain| && o in chain[i].originals {
      WalkCollects(h, chain, o);
    }
  }

  /** The registered originals that are there, of the registered size and, if they are hashed, digest. */
  function CountUntouched(originals: seq<Original>, bucket: string -> Stored, hashOriginals: bool): nat {
    if originals == [] then 0
    else
      var o := originals[|originals| - 1];
      var stored := bucket(o.objectKey);
      CountUntouched(originals[..|originals| - 1], bucket, hashOriginals)
        + if && stored.Stored? && (o.size > 0 ==> stored.size == o.size)
             && (hashOriginals && o.checksum != "" ==> stored.sha == Some(o.checksum)) then 1 else 0
  }

  lemma {:induction false} OthersAreFound(originals: seq<Original>, bucket: string -> Stored, hashOriginals: bool)
    ensures |OriginalFindings(originals, bucket, hashOriginals)| + CountUntouched(originals, bucket, hashOriginals)
         == |originals|
  {
    if originals != [] {
      var o := originals[|originals| - 1];
      OthersAreFound(originals[..|originals| - 1], bucket, hashOriginals);
      OriginalIsReported(o, bucket(o.objectKey), hashOriginals);
    }
  }

  /** The counts of a run over readable checkpoints, whatever it found. */
  lemma CountsAreExact(h: Hashes, listed: seq<Option<Checkpoint>>, digests: Digests, bucket: string -> Stored,
          hashOriginals: bool)
    requires |Readable(listed)| == |listed|
    ensures var r, w := ReportOf(h, listed, digests, bucket, hashOriginals), Walked(h, Readable(listed));
            && r.checkpoints == |listed| && r.headN == (if listed == [] then 0 else Readable(listed)[|listed| - 1].n)
            && r.eventsVerified == CountGood(w.covered, digests)
            && r.originalsVerified == CountUntouched(w.originals, bucket, hashOriginals)
            && r.tail == |After(digests.Keys, EndOf(w.covered))|
  {
    var chain := Readable(listed);
    WalkedIs(h, chain);
    CoveredIncreases(h, chain);
    ComparisonIsExact(Walked(h, chain).covered, digests);
    OthersAreFound(Walked(h, chain).originals, bucket, hashOriginals);
  }

  /** What a run over readable checkpoints reports of an original that one of them registers. */
  lemma FateIsReported(h: Hashes, listed: seq<Option<Checkpoint>>, digests: Digests, bucket: string -> Stored,
          hashOriginals: bool, i: nat, o: Original)
    requires |Readable(listed)| == |listed| && i < |listed| && o in Readable(listed)[i].originals
    ensures var found, stored := ReportOf(h, listed, digests, bucket, hashOriginals).findings, bucket(o.objectKey);
            && (stored == Gone ==> Finding(MissingOriginal, 0, 0, o.objectKey) in found)
            && (stored == Broken ==> Finding(Unreadable, 0, 0, o.objectKey) in found)
            && (stored.Stored? && o.size > 0 && stored.size != o.size ==>
                  Finding(ModifiedOriginal, 0, 0, o.objectKey) in found)
            && (stored.Stored? && hashOriginals && o.checksum != ""
                && stored.sha.Some? && stored.sha.value != o.checksum ==>
                  Finding(ModifiedOriginal, 0, 0, o.objectKey) in found)
            && (stored.Stored? && (o.size > 0 ==> stored.size == o.size)
                && hashOriginals && o.checksum != "" && stored.sha == None ==>
                  Finding(Unreadable, 0, 0, o.objectKey) in found)
  {
    var originals := Walked(h, Readable(listed)).originals;
    WalkCollects(h, Readable(listed), o);
    var found := CheckOriginal(o, bucket(o.objectKey), hashOriginals);
    if found.Some? {
      OriginalsAreReported(originals, bucket, hashOriginals, found.value);
    }
    OriginalIsReported(o, bucket(o.objectKey), hashOriginals);
  }

  lemma {:induction false} ReadableIsPrefix(listed: seq<Option<Checkpoint>>)
    ensures |Readable(listed)| <= |listed|
  {
    if listed != [] && listed[0].Some? {
      ReadableIsPrefix(listed[1..]);
    }
  }

  lemma {:induction false} ReadableStops(listed: seq<Option<Checkpoint>>, i: nat)
    requires i < |listed| && forall j :: 0 <= j < i ==> listed[j].Some?
    ensures listed[i].None? ==> Readable(listed) == Values(listed[..i])
    decreases i
  {
    if i > 0 {
      ReadableStops(listed[1..], i - 1);
      assert listed[1..][..i - 1] == listed[..i][1..];
    }
  }

  function Values(listed: seq<Option<Checkpoint>>): seq<Checkpoint> {
    if listed == [] then []
    else if listed[0].None? then Values(listed[1..])
    else [listed[0].value] + Values(listed[1..])
  }

  lemma {:induction false} ReadableAll(listed: seq<Option<Checkpoint>>)
    requires forall c :: c in listed ==> c.Some?
    ensures Readable(listed) == Values(listed) && |Values(listed)| == |listed|
  {
    if listed != [] {
      assert listed[0] in listed;
      ReadableAll(listed[1..]);
    }
  }

  lemma {:induction false} ValuesAppend(listed: seq<Option<Checkpoint>>, cp: Checkpoint)
    ensures Values(listed + [Some(cp)]) == Values(listed) + [cp]
  {
    if listed == [] {
      assert listed + [Some(cp)] == [Some(cp)];
    } else {
      assert (listed + [Some(cp)])[1..] == listed[1..] + [Some(cp)];
      ValuesAppend(listed[1..], cp);
    }
  }

  lemma ValuesStep(listed: seq<Option<Checkpoint>>, n: nat)
    requires n < |listed| && listed[n].Some?
    ensures Values(listed[..n + 1]) == Values(listed[..n]) + [listed[n].value]
  {
    assert listed[..n + 1] == listed[..n] + [Some(listed[n].value)];
    ValuesAppend(listed[..n], listed[n].value);
  }

  // ---------------------------------------------------------------- the chain

  /** Where the chain ends: its newest number, that object's digest, and the newest key covered. */
  datatype Head = Head(n: nat, sha: Sha, lastKey: Key)

  datatype Error = NothingToCheckpoint | NotAfterHead | ReadFailed | WriteFailed

  /** The last number of a listing is the greatest. */
  lemma NewestIsLast(keys: set<nat>)
    ensures Sorted(keys) == [] <==> keys == {}
    ensures keys != {} ==> var n := Sorted(keys)[|Sorted(keys)| - 1]; n in keys && forall m :: m in keys ==> m <= n
  {
    SortedLists(keys);
    var s := Sorted(keys);
    if keys != {} {
      var n := s[|s| - 1];
      assert n in s;
      forall m | m in keys ensures m <= n {
        assert m in s;
        var i :| 0 <= i < |s| && s[i] == m;
      }
    }
  }

  class Chain {
    var objects: map<nat, Option<Checkpoint>>   // None is an object that does not parse
    const h: Hashes

    constructor (h: Hashes)
      ensures this.h == h && objects == map[]
    {
      this.h := h;
      objects := map[];
    }

    /** The checkpoints in the order of their numbers. */
    function Listed(): seq<Option<Checkpoint>>
      reads this
    {
      ListedFrom(objects, Sorted(objects.Keys))
    }

    /** The newest checkpoint's number, digest and last key; the genesis value without one. */
    function HeadInBucket(): Result<Head, Error>
      reads this
    {
      var keys := Sorted(objects.Keys);
      if keys == [] then Success(Head(0, h.genesis, 0))
      else if keys[|keys| - 1] !in objects || objects[keys[|keys| - 1]].None? then Failure(ReadFailed)
      else
        var cp := objects[keys[|keys| - 1]].value;
        Success(Head(cp.n, h.digest(cp), cp.last))
    }

    method NewestHead() returns (result: Result<Head, Error>)
      ensures result == HeadInBucket()
      ensures result.Success? && objects != map[] ==>
                exists n :: && n in objects && (forall m :: m in objects ==> m <= n) && objects[n].Some?
                            && result.value == Head(objects[n].value.n, h.digest(objects[n].value),
                              objects[n].value.last)
    {
      var keys := Sorted(objects.Keys);
      NewestIsLast(objects.Keys);
      if |keys| == 0 {
        return Success(Head(0, h.genesis, 0));
      }
      var n := keys[|keys| - 1];
      if n !in objects || objects[n].None? {
        return Failure(ReadFailed);
      }
      var cp := objects[n].value;
      return Success(Head(cp.n, h.digest(cp), cp.last));
    }

    /** Writes the next checkpoint after `head`; a write that fails may have been applied. */
    method Append(head: Head, entries: seq<Covering>, detail: string, calm: bool) returns (result: Result<Head, Error>)
      modifies this
      ensures entries == [] <==> result == Failure(NothingToCheckpoint)
      ensures entries != [] && entries[0].key <= head.lastKey <==> result == Failure(NotAfterHead)
      ensures entries == [] || entries[0].key <= head.lastKey ==> objects == old(objects)
      ensures calm ==> result != Failure(WriteFailed)
      ensures entries != [] && entries[0].key > head.lastKey ==>
                var cp := Checked(h, head.n + 1, if head.sha == "" then h.genesis else head.sha, entries, detail);
                && (objects == old(objects) || objects == old(objects)[head.n + 1 := Some(cp)])
                && (result.Success? ==> objects == old(objects)[head.n + 1 := Some(cp)])
                && (result == Success(Head(cp.n, h.digest(cp), entries[|entries| - 1].key))
                  || result == Failure(WriteFailed))
    {
      if |entries| == 0 {
        return Failure(NothingToCheckpoint);
      }
      if entries[0].key <= head.lastKey {
        return Failure(NotAfterHead);
      }
      var prev := if head.sha == "" then h.genesis else head.sha;
      var cp := Build(h, head.n + 1, prev, entries, detail);
      var applied, seen := Outcome(calm);
      if applied {
        objects := objects[cp.n := Some(cp)];
      }
      return if seen then Success(Head(cp.n, h.digest(cp), cp.last)) else Failure(WriteFailed);
    }

    method VerifyOriginals(originals: seq<Original>, bucket: string -> Stored, hashOriginals: bool)
      returns (findings: seq<Finding>, verified: nat)
      ensures findings == OriginalFindings(originals, bucket, hashOriginals) && verified + |findings| == |originals|
    {
      findings, verified := [], 0;
      for i := 0 to |originals|
        invariant findings == OriginalFindings(originals[..i], bucket, hashOriginals) && verified + |findings| == i
      {
        assert originals[..i + 1][..i] == originals[..i];
        var found := CheckOriginal(originals[i], bucket(originals[i].objectKey), hashOriginals);
        if found.Some? {
          findings := findings + [found.value];
        } else {
          verified := verified + 1;
          assert findings + [] == findings;
        }
      }
      assert originals[..|originals|] == originals;
    }

    /** Walks the checkpoints up to the first one that cannot be read. */
    method WalkChain(listed: seq<Option<Checkpoint>>) returns (w: Walk, n: nat)
      ensures w == Walked(h, Readable(listed)) && n == |Readable(listed)| <= |listed|
    {
      w := Walk([], [], [], h.genesis, 0, 0);
      n := 0;
      while n < |listed|
        invariant n <= |listed| && forall j :: 0 <= j < n ==> listed[j].Some?
        invariant w == Walked(h, Values(listed[..n])) && |Values(listed[..n])| == n
      {
        if listed[n].None? {
          ReadableStops(listed, n);
          return;
        }
        var cp := listed[n].value;
        ValuesStep(listed, n);
        WalkAppends(h, Values(listed[..n]), cp);
        var walked := WalkLeaves(w.(findings := w.findings + Header(h, w, cp)), cp);
        w := walked.(originals := w.originals + cp.originals, prevSha := h.digest(cp), prevN := cp.n);
        n := n + 1;
      }
      assert listed[..|listed|] == listed;
      ReadableAll(listed);
    }

    /** Walks the chain, compares it with the journal and looks at the originals. */
    method Verify(digests: Digests, bucket: string -> Stored, hashOriginals: bool) returns (report: Report)
      ensures report == ReportOf(h, Listed(), digests, bucket, hashOriginals)
    {
      var listed := Listed();
      var w, n := WalkChain(listed);
      if n < |listed| {
        return Report(w.findings + [Finding(Unreadable, 0, 0, "checkpoint")], n, w.prevN, 0, 0, 0);
      }
      var c := Compare(w.covered, Sorted(digests.Keys), digests);
      var findings, verified := VerifyOriginals(w.originals, bucket, hashOriginals);
      report := Report(w.findings + c.findings + findings, n, w.prevN, c.verified, verified, c.tail);
    }
  }

  function ListedFrom(objects: map<nat, Option<Checkpoint>>, keys: seq<nat>): seq<Option<Checkpoint>> {
    if keys == [] then []
    else if keys[0] in objects then [objects[keys[0]]] + ListedFrom(objects, keys[1..])
    else ListedFrom(objects, keys[1..])
  }

  /** One entry per number, in the order given. */
  lemma {:induction false} ListedInOrder(objects: map<nat, Option<Checkpoint>>, keys: seq<nat>)
    requires forall k :: k in keys ==> k in objects
    ensures |ListedFrom(objects, keys)| == |keys|
    ensures forall i :: 0 <= i < |keys| ==> ListedFrom(objects, keys)[i] == objects[keys[i]]
  {
    if keys != [] {
      assert keys[0] in keys;
      ListedInOrder(objects, keys[1..]);
    }
  }
}
