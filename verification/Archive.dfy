/**
 Inspecting uploaded archives and the archives inside them with one shared budget. Decompressors and
 content type tests are not modelled: an archive is the tree they would find.
 */
module Archive {
  import opened Wrappers
  import opened Bytes

  const TWO63: int := 0x8000_0000_0000_0000

  datatype Policy = Policy(
    maxEntries: nat, maxTotal: nat, maxSingle: nat, maxDepth: nat, maxProbe: nat,
    maxRatio: real, maxName: nat, allowEncrypted: bool)

  /** Bytes as a reader delivers them, and whether it ends with an error. */
  datatype Stream = Stream(chunks: seq<nat>, broken: bool)

  datatype ListKind = Zip | Tar | SevenZip
  datatype EntryKind = Directory | Link | Special | Regular

  datatype Archive =
    | Unparsable
    | Listing(kind: ListKind, entries: seq<Entry>, cutOff: bool)      // a tar may stop being parsable
    | Packed(stream: Stream, asTar: Option<Archive>)                  // a tar if the name says so

  type UInt64 = n: int | 0 <= n < TWO64

  /** `path` is the cleaned name if it is safe, `typeOk` what the content tests say, `body` the stored bytes. */
  datatype Entry = Entry(
    name: string, path: Option<string>, kind: EntryKind, encrypted: bool, declared: UInt64,
    typeOk: bool, body: Stream, nested: Option<Archive>)

  function Length(chunks: seq<nat>): nat {
    if chunks == [] then 0 else chunks[0] + Length(chunks[1..])
  }

  // ---------------------------------------------------------------- signed sizes

  /** The 64-bit signed number with the same bits: what conversions and additions leave. */
  function Signed(n: int): (r: int)
    ensures -TWO63 <= r < TWO63 && (-TWO63 <= n < TWO63 ==> r == n)
  {
    (n + TWO63) % TWO64 - TWO63
  }

  lemma SignedAdds(a: int, b: int)
    ensures Signed(Signed(a) + b) == Signed(a + b)
  {
    var k := (a + TWO63) / TWO64;
    assert Signed(a) == a - TWO64 * k;
    SignedWraps(a + b, -k);
  }

  lemma SignedWraps(n: int, k: int)
    ensures Signed(n + TWO64 * k) == Signed(n)
  {
    var q := (n + TWO63) / TWO64;
    assert n + TWO64 * k + TWO63 == TWO64 * (q + k) + (n + TWO63) % TWO64;
  }

  /** The size of an entry as the inspection sees it: one declared with 2^63 bytes or more is negative. */
  function SizeOf(e: Entry): int {
    Signed(e.declared)
  }

  // ---------------------------------------------------------------- the budget

  datatype Usage = Usage(entries: int, total: int)

  predicate Within(u: Usage, policy: Policy) {
    u.entries <= policy.maxEntries && u.total <= policy.maxTotal
  }

  function Plus(a: Usage, b: Usage): Usage {
    Usage(a.entries + b.entries, a.total + b.total)
  }

  /** The budget after one more entry of this size. */
  function Charged(used: Usage, size: int): Usage {
    Usage(Signed(used.entries + 1), Signed(used.total + size))
  }

  /** Whether entries of these sizes can be counted one after the other, and what the budget then holds. */
  predicate Fits(used: Usage, sizes: seq<int>, policy: Policy)
    decreases |sizes|
  {
    sizes == [] || (Within(Charged(used, sizes[0]), policy) && Fits(Charged(used, sizes[0]), sizes[1..], policy))
  }

  function ChargedAll(used: Usage, sizes: seq<int>): Usage
    decreases |sizes|
  {
    if sizes == [] then used else ChargedAll(Charged(used, sizes[0]), sizes[1..])
  }

  class Budget {
    var entries: int
    var total: int

    constructor ()
      ensures Used() == Usage(0, 0)
    {
      entries, total := 0, 0;
    }

    function Used(): Usage
      reads this
    {
      Usage(entries, total)
    }

    /** Counts one entry; fails when that is one too many or its bytes are. */
    method AddEntry(size: int, policy: Policy) returns (ok: bool)
      modifies this
      ensures ok <==> Within(Charged(old(Used()), size), policy)
      ensures ok ==> Used() == Charged(old(Used()), size)
    {
      entries := Signed(entries + 1);
      if entries > policy.maxEntries {
        return false;
      }
      total := Signed(total + size);
      if total > policy.maxTotal {
        return false;
      }
      return true;
    }
  }

  // ---------------------------------------------------------------- what is counted and what is demanded

  predicate RatioOk(total: int, compressed: int, policy: Policy) {
    compressed > 0 ==> total as real <= policy.maxRatio * compressed as real
  }

  /** A single stream that may be counted: it ends well within every limit. */
  predicate StreamOk(s: Stream, compressed: int, policy: Policy) {
    var n := Length(s.chunks);
    !s.broken && n <= policy.maxSingle && n <= policy.maxTotal && n <= policy.maxProbe && RatioOk(n, compressed, policy)
  }

  function Rank(a: Archive): nat {
    if a.Listing? then |a.entries| + 2 else 0
  }

  /** The sizes that an archive and the archives in it count, in this order. */
  function Charges(a: Archive): seq<int>
    decreases a, Rank(a)
  {
    match a
    case Unparsable => []
    case Listing(_, entries, _) => ChargesFrom(a, 0)
    case Packed(stream, None) => [Length(stream.chunks)]
    case Packed(_, Some(tar)) => Charges(tar)
  }

  function ChargesFrom(a: Archive, i: nat): seq<int>
    requires a.Listing? && i <= |a.entries|
    decreases a, |a.entries| - i
  {
    if i == |a.entries| then [] else ChargesOfEntry(a, i) + ChargesFrom(a, i + 1)
  }

  function ChargesOfEntry(a: Archive, i: nat): seq<int>
    requires a.Listing? && i < |a.entries|
    decreases a, 0
  {
    var e := a.entries[i];
    if e.kind == Directory then [0] else [SizeOf(e)] + ChargesBelow(e)
  }

  function ChargesBelow(e: Entry): seq<int>
    decreases e
  {
    if e.nested.Some? then Charges(e.nested.value) else []
  }

  /** What an archive and the archives in it declare: their entries and bytes, over all levels. */
  function UsageOf(a: Archive): Usage
    decreases a, Rank(a)
  {
    match a
    case Unparsable => Usage(0, 0)
    case Listing(_, entries, _) => UsageFrom(a, 0)
    case Packed(stream, None) => Usage(1, Length(stream.chunks))
    case Packed(_, Some(tar)) => UsageOf(tar)
  }

  /** The same for the entries from i on. */
  function UsageFrom(a: Archive, i: nat): Usage
    requires a.Listing? && i <= |a.entries|
    decreases a, |a.entries| - i
  {
    if i == |a.entries| then Usage(0, 0) else Plus(UsageOfEntry(a, i), UsageFrom(a, i + 1))
  }

  function UsageOfEntry(a: Archive, i: nat): Usage
    requires a.Listing? && i < |a.entries|
    decreases a, 0
  {
    var e := a.entries[i];
    if e.kind == Directory then Usage(1, 0)
    else if e.nested.Some? then Plus(Usage(1, e.declared), UsageOf(e.nested.value))
    else Usage(1, e.declared)
  }

  /** How many levels of archives lie below this one. */
  function LevelsBelow(a: Archive): nat
    decreases a, Rank(a)
  {
    match a
    case Listing(_, entries, _) => LevelsFrom(a, 0)
    case Packed(_, Some(tar)) => LevelsBelow(tar)
    case _ => 0
  }

  function LevelsFrom(a: Archive, i: nat): nat
    requires a.Listing? && i <= |a.entries|
    decreases a, |a.entries| - i
  {
    if i == |a.entries| then 0
    else
      var e := a.entries[i];
      var here := if e.kind != Directory && e.nested.Some? then 1 + LevelsBelow(e.nested.value) else 0;
      var later := LevelsFrom(a, i + 1);
      if here > later then here else later
  }

  /** The tests of one archive that do not concern the budget, at a nesting depth and for a stored size. */
  predicate Acceptable(a: Archive, compressed: int, depth: nat, policy: Policy)
    decreases a, Rank(a)
  {
    match a
    case Unparsable => false
    case Listing(kind, entries, cutOff) =>
      |entries| <= policy.maxEntries && !(kind == Tar && cutOff) && EntriesOk(a, 0, {}, 0, compressed, depth, policy)
    case Packed(stream, None) => StreamOk(stream, compressed, policy)
    case Packed(_, Some(tar)) => tar.Listing? && tar.kind == Tar && Acceptable(tar, compressed, depth, policy)
  }

  /** What an entry is called and what kind it is; `seen` are the paths before it. */
  predicate HeaderOk(e: Entry, kind: ListKind, seen: set<string>, policy: Policy) {
    && (kind == Tar ==> e.declared < TWO63)      // a tar reader has no larger sizes
    && |e.name| <= policy.maxName && e.path.Some?
    && (kind == Tar || e.path.value !in seen)
    && (kind == Zip && e.encrypted ==> policy.allowEncrypted)
    && (e.kind == Directory || e.kind == Regular)
  }

  /** The sizes of a regular entry; `total` is what the listing declared so far, with this entry. */
  predicate SizeOk(e: Entry, kind: ListKind, total: int, compressed: int, policy: Policy) {
    SizeOf(e) <= policy.maxSingle && total <= policy.maxTotal && (kind == Tar || RatioOk(total, compressed, policy))
  }

  predicate EntriesOk(a: Archive, i: nat, seen: set<string>, total: int, compressed: int, depth: nat, policy: Policy)
    requires a.Listing? && i <= |a.entries|
    decreases a, |a.entries| - i + 1
  {
    i == |a.entries| ||
    (&& EntryOk(a, i, seen, total, compressed, depth, policy)
     && EntriesOk(a, i + 1, seen + {a.entries[i].path.value}, Declared(a.entries[i], total), compressed, depth, policy))
  }

  /** What a listing has declared so far, with this entry. */
  function Declared(e: Entry, total: int): int {
    if e.kind == Directory then total else Signed(total + SizeOf(e))
  }

  predicate EntryOk(a: Archive, i: nat, seen: set<string>, total: int, compressed: int, depth: nat, policy: Policy)
    requires a.Listing? && i < |a.entries|
    decreases a, 1
  {
    var e := a.entries[i];
    && HeaderOk(e, a.kind, seen, policy)
    && (e.kind == Directory
        || (SizeOk(e, a.kind, Declared(e, total), compressed, policy) && BodyOk(a, i, compressed, depth, policy)))
  }

  /** The content of an entry: an archive one level down, or in a 7z a stream no longer than declared. */
  predicate BodyOk(a: Archive, i: nat, compressed: int, depth: nat, policy: Policy)
    requires a.Listing? && i < |a.entries|
    decreases a, 0
  {
    var e := a.entries[i];
    && e.typeOk
    && (e.nested.None? && a.kind == SevenZip ==>
          StreamOk(e.body, compressed, policy) && (SizeOf(e) > 0 ==> Length(e.body.chunks) <= SizeOf(e)))
    && (e.nested.Some? ==>
          && depth < policy.maxDepth
          && (IsBuffered(e.nested.value) ==> !e.body.broken && Length(e.body.chunks) <= policy.maxSingle)
          && Acceptable(e.nested.value, NestedSize(e, e.nested.value), depth + 1, policy))
  }

  /** A nested zip or 7z is read into memory first. */
  predicate IsBuffered(a: Archive) {
    a.Listing? && a.kind != Tar
  }

  /** The stored size a nested archive is measured against: of the bytes read, or as declared. */
  function NestedSize(e: Entry, nested: Archive): int {
    if IsBuffered(nested) then Length(e.body.chunks) else SizeOf(e)
  }

  // ---------------------------------------------------------------- the inspection

  /** Reads a stream to its end, stopping as soon as a limit is passed. */
  method CountStream(s: Stream, compressed: int, policy: Policy) returns (counted: nat, ok: bool)
    requires policy.maxRatio >= 0.0
    ensures ok <==> StreamOk(s, compressed, policy)
    ensures ok ==> counted == Length(s.chunks)
  {
    counted := 0;
    var left := s.chunks;
    while left != []
      invariant counted + Length(left) == Length(s.chunks)
      invariant counted <= policy.maxSingle && counted <= policy.maxTotal && counted <= policy.maxProbe
        && RatioOk(counted, compressed, policy)
      decreases |left|
    {
      counted := counted + left[0];
      left := left[1..];
      if counted > policy.maxSingle || counted > policy.maxTotal || counted > policy.maxProbe {
        return counted, false;
      }
      if compressed > 0 && counted as real > policy.maxRatio * compressed as real {
        assert counted <= Length(s.chunks);
        return counted, false;
      }
    }
    ok := !s.broken;
  }

  lemma {:induction false} FitsInParts(used: Usage, first: seq<int>, rest: seq<int>, policy: Policy)
    ensures Fits(used, first + rest, policy) <==>
              Fits(used, first, policy) && Fits(ChargedAll(used, first), rest, policy)
    ensures ChargedAll(used, first + rest) == ChargedAll(ChargedAll(used, first), rest)
    decreases first
  {
    if first == [] {
      assert first + rest == rest;
    } else {
      assert (first + rest)[1..] == first[1..] + rest;
      FitsInParts(Charged(used, first[0]), first[1..], rest, policy);
    }
  }

  /** It passes exactly when it is acceptable and its sizes fit the budget, which then holds them. */
  method Inspect(a: Archive, compressed: int, depth: nat, policy: Policy, budget: Budget) returns (ok: bool)
    requires policy.maxRatio >= 0.0
    modifies budget
    ensures ok <==> Acceptable(a, compressed, depth, policy) && Fits(old(budget.Used()), Charges(a), policy)
    ensures ok ==> budget.Used() == ChargedAll(old(budget.Used()), Charges(a))
    ensures ok ==> AllOk(Parts(a, compressed, depth), policy)
    ensures ok && a.Listing? && a.kind != Tar && compressed > 0 ==>
              Signed(DeclaredBytes(a.entries)) as real <= policy.maxRatio * compressed as real
    decreases a, Rank(a)
  {
    AcceptableIff(a, compressed, depth, policy);
    if a.Listing? && a.kind != Tar && compressed > 0 && Acceptable(a, compressed, depth, policy) {
      ListingsAreNotInflated(a, compressed, depth, policy, Parts(a, compressed, depth)[0]);
    }
    match a
    case Unparsable =>
      return false;
    case Packed(stream, None) =>
      var counted, fine := CountStream(stream, compressed, policy);
      if !fine {
        return false;
      }
      ok := budget.AddEntry(counted, policy);
    case Packed(_, Some(tar)) =>
      if !tar.Listing? || tar.kind != Tar {
        return false;
      }
      ok := Inspect(tar, compressed, depth, policy, budget);
    case Listing(kind, entries, cutOff) =>
      if |entries| > policy.maxEntries || (kind == Tar && cutOff) {
        return false;
      }
      ok := InspectEntries(a, compressed, depth, policy, budget);
  }

  method InspectEntries(a: Archive, compressed: int, depth: nat, policy: Policy, budget: Budget) returns (ok: bool)
    requires policy.maxRatio >= 0.0 && a.Listing?
    modifies budget
    ensures ok <==> EntriesOk(a, 0, {}, 0, compressed, depth, policy)
                    && Fits(old(budget.Used()), ChargesFrom(a, 0), policy)
    ensures ok ==> budget.Used() == ChargedAll(old(budget.Used()), ChargesFrom(a, 0))
    ensures ok && a.kind != Tar ==> NotInflated(Signed(DeclaredBytes(a.entries)), compressed, policy)
    decreases a, |a.entries| + 1
  {
    ghost var used := budget.Used();
    var seen: set<string>, total: int := {}, 0;
    var i: nat := 0;
    while i < |a.entries|
      invariant i <= |a.entries|
      invariant EntriesOk(a, 0, {}, 0, compressed, depth, policy) <==>
                  EntriesOk(a, i, seen, total, compressed, depth, policy)
      invariant Fits(used, ChargesFrom(a, 0), policy) <==> Fits(budget.Used(), ChargesFrom(a, i), policy)
      invariant ChargedAll(used, ChargesFrom(a, 0)) == ChargedAll(budget.Used(), ChargesFrom(a, i))
    {
      FitsInParts(budget.Used(), ChargesOfEntry(a, i), ChargesFrom(a, i + 1), policy);
      var fine := InspectEntry(a, i, seen, total, compressed, depth, policy, budget);
      if !fine {
        return false;
      }
      seen, total := seen + {a.entries[i].path.value}, Declared(a.entries[i], total);
      i := i + 1;
    }
    ok := true;
    EntriesAreNotInflated(a, compressed, depth, policy);
  }

  method InspectEntry(a: Archive, i: nat, seen: set<string>, total: int, compressed: int, depth: nat, policy: Policy,
          budget: Budget) returns (ok: bool)
    requires policy.maxRatio >= 0.0 && a.Listing? && i < |a.entries|
    modifies budget
    ensures ok <==> EntryOk(a, i, seen, total, compressed, depth, policy)
                    && Fits(old(budget.Used()), ChargesOfEntry(a, i), policy)
    ensures ok ==> budget.Used() == ChargedAll(old(budget.Used()), ChargesOfEntry(a, i))
    decreases a, 1
  {
    var e := a.entries[i];
    if a.kind == Tar && e.declared >= TWO63 {
      return false;
    }
    if |e.name| > policy.maxName || e.path.None? || (a.kind != Tar && e.path.value in seen) {
      return false;
    }
    if a.kind == Zip && e.encrypted && !policy.allowEncrypted {
      return false;
    }
    if e.kind == Directory {
      ok := budget.AddEntry(0, policy);
      return;
    }
    var size := Signed(e.declared);
    if e.kind == Link || e.kind == Special || size > policy.maxSingle {
      return false;
    }
    assert ([size] + ChargesBelow(e))[1..] == ChargesBelow(e);
    var added := budget.AddEntry(size, policy);
    if !added {
      return false;
    }
    var listed := Signed(total + size);
    if listed > policy.maxTotal || (a.kind != Tar && !RatioOk(listed, compressed, policy)) {
      return false;
    }
    ok := InspectBody(a, i, compressed, depth, policy, budget);
  }

  method InspectBody(a: Archive, i: nat, compressed: int, depth: nat, policy: Policy, budget: Budget) returns (ok: bool)
    requires policy.maxRatio >= 0.0 && a.Listing? && i < |a.entries|
    modifies budget
    ensures ok <==> BodyOk(a, i, compressed, depth, policy)
                    && Fits(old(budget.Used()), ChargesBelow(a.entries[i]), policy)
    ensures ok ==> budget.Used() == ChargedAll(old(budget.Used()), ChargesBelow(a.entries[i]))
    decreases a, 0
  {
    var e := a.entries[i];
    if !e.typeOk {
      return false;
    }
    match e.nested
    case None =>
      if a.kind != SevenZip {
        return true;
      }
      var counted, fine := CountStream(e.body, compressed, policy);
      return fine && !(counted > Signed(e.declared) && Signed(e.declared) > 0);
    case Some(nested) =>
      if depth >= policy.maxDepth {
        return false;
      }
      if IsBuffered(nested) && (e.body.broken || Length(e.body.chunks) > policy.maxSingle) {
        return false;
      }
      ok := Inspect(nested, NestedSize(e, nested), depth + 1, policy, budget);
  }

  // ---------------------------------------------------------------- what acceptance means

  /** No archive lies deeper than the policy allows. */
  lemma {:induction false} AcceptableIsShallow(a: Archive, compressed: int, depth: nat, policy: Policy)
    requires Acceptable(a, compressed, depth, policy) && depth <= policy.maxDepth
    ensures depth + LevelsBelow(a) <= policy.maxDepth
    decreases a, Rank(a)
  {
    match a
    case Listing(_, _, _) => EntriesAreShallow(a, 0, {}, 0, compressed, depth, policy);
    case Packed(_, Some(tar)) => AcceptableIsShallow(tar, compressed, depth, policy);
    case _ =>
  }

  lemma {:induction false} EntriesAreShallow(a: Archive, i: nat, seen: set<string>, total: int, compressed: int,
          depth: nat, policy: Policy)
    requires a.Listing? && i <= |a.entries| && EntriesOk(a, i, seen, total, compressed, depth, policy)
      && depth <= policy.maxDepth
    ensures depth + LevelsFrom(a, i) <= policy.maxDepth
    decreases a, |a.entries| - i
  {
    if i < |a.entries| {
      var e := a.entries[i];
      assert EntryOk(a, i, seen, total, compressed, depth, policy);
      if e.kind != Directory && e.nested.Some? {
        assert BodyOk(a, i, compressed, depth, policy);
        AcceptableIsShallow(e.nested.value, NestedSize(e, e.nested.value), depth + 1, policy);
      }
      EntriesAreShallow(a, i + 1, seen + {e.path.value}, Declared(e, total), compressed, depth, policy);
    }
  }

  /** An archive found in another, with the stored size that it is measured against and its depth. */
  datatype Part = Part(archive: Archive, stored: int, depth: nat)

  /** An archive and the archives in it, over all levels. */
  function Parts(a: Archive, stored: int, depth: nat): seq<Part>
    decreases a, Rank(a)
  {
    [Part(a, stored, depth)]
      + match a
        case Listing(_, _, _) => PartsFrom(a, 0, depth)
        case Packed(_, Some(tar)) => Parts(tar, stored, depth)
        case _ => []
  }

  function PartsFrom(a: Archive, i: nat, depth: nat): seq<Part>
    requires a.Listing? && i <= |a.entries|
    decreases a, |a.entries| - i
  {
    if i == |a.entries| then [] else PartsOfEntry(a.entries[i], depth) + PartsFrom(a, i + 1, depth)
  }

  /** A zip or 7z is measured against the bytes that were read of it, other archives against the declared size. */
  function PartsOfEntry(e: Entry, depth: nat): seq<Part>
    decreases e
  {
    if e.kind == Directory || e.nested.None? then []
    else
      var n := e.nested.value;
      Parts(n, if n.Listing? && n.kind != Tar then Length(e.body.chunks) else Signed(e.declared), depth + 1)
  }

  /** The bytes that the files of a listing declare. */
  function DeclaredBytes(entries: seq<Entry>): nat {
    if entries == [] then 0
    else
      var e := entries[|entries| - 1];
      DeclaredBytes(entries[..|entries| - 1]) + if e.kind == Directory then 0 else e.declared
  }

  /** n bytes out of this many stored ones are not too many. */
  ghost predicate NotInflated(n: int, stored: int, policy: Policy) {
    stored <= 0 || n as real <= policy.maxRatio * stored as real
  }

  ghost predicate StreamFits(s: Stream, stored: int, policy: Policy) {
    && !s.broken && Length(s.chunks) <= policy.maxSingle && Length(s.chunks) <= policy.maxTotal
    && Length(s.chunks) <= policy.maxProbe && NotInflated(Length(s.chunks), stored, policy)
  }

  /** What is demanded of an archive beside the archives in it. */
  ghost predicate PartOk(p: Part, policy: Policy) {
    match p.archive
    case Unparsable => false
    case Packed(stream, None) => StreamFits(stream, p.stored, policy)
    case Packed(_, Some(tar)) => tar.Listing? && tar.kind == Tar
    case Listing(kind, entries, cutOff) =>
      && |entries| <= policy.maxEntries && (kind == Tar ==> !cutOff)
      && (forall i :: 0 <= i < |entries| ==> MemberOk(p.archive, i, p.stored, p.depth, policy))
      && (kind != Tar ==> Distinct(entries, 0))
  }

  /** From the i-th entry on none has the path of an earlier one. */
  ghost predicate Distinct(entries: seq<Entry>, i: nat) {
    forall j, k :: 0 <= j < k < |entries| && i <= k ==> entries[j].path != entries[k].path
  }

  /** One member: its name and kind, and for a file its size, the sizes so far, and its content. */
  ghost predicate MemberOk(a: Archive, i: nat, stored: int, depth: nat, policy: Policy)
    requires a.Listing? && i < |a.entries|
  {
    var e := a.entries[i];
    && |e.name| <= policy.maxName && e.path.Some? && e.kind != Link && e.kind != Special
    && (a.kind == Zip && e.encrypted ==> policy.allowEncrypted)
    && (a.kind == Tar ==> e.declared < TWO63)
    && (e.kind != Directory ==>
          && Signed(e.declared) <= policy.maxSingle
          && Signed(DeclaredBytes(a.entries[..i + 1])) <= policy.maxTotal
          && (a.kind != Tar ==> NotInflated(Signed(DeclaredBytes(a.entries[..i + 1])), stored, policy))
          && ContentOk(e, a.kind, stored, depth, policy))
  }

  ghost predicate ContentOk(e: Entry, kind: ListKind, stored: int, depth: nat, policy: Policy) {
    && e.typeOk
    && match e.nested
       case None =>
         kind == SevenZip ==>
           StreamFits(e.body, stored, policy)
           && (Signed(e.declared) > 0 ==> Length(e.body.chunks) <= Signed(e.declared))
       case Some(n) =>
         && depth < policy.maxDepth
         && (n.Listing? && n.kind != Tar ==> !e.body.broken && Length(e.body.chunks) <= policy.maxSingle)
  }

  ghost predicate AllOk(parts: seq<Part>, policy: Policy) {
    forall k :: 0 <= k < |parts| ==> PartOk(parts[k], policy)
  }

  lemma AllOkJoins(a: seq<Part>, b: seq<Part>, policy: Policy)
    ensures AllOk(a + b, policy) <==> AllOk(a, policy) && AllOk(b, policy)
  {
    if AllOk(a + b, policy) {
      forall k | 0 <= k < |a| ensures PartOk(a[k], policy) {
        assert (a + b)[k] == a[k];
      }
      forall k | 0 <= k < |b| ensures PartOk(b[k], policy) {
        assert (a + b)[|a| + k] == b[k];
      }
    }
  }

  /** An archive is acceptable exactly when it and every archive in it are all right, each for itself. */
  lemma {:induction false} AcceptableIff(a: Archive, stored: int, depth: nat, policy: Policy)
    ensures Acceptable(a, stored, depth, policy) <==> AllOk(Parts(a, stored, depth), policy)
    decreases a, Rank(a)
  {
    var here := Part(a, stored, depth);
    assert AllOk([here], policy) <==> PartOk(here, policy) by {
      assert [here][0] == here;
    }
    match a
    case Listing(_, _, _) =>
      assert PathsOf(a.entries[..0]) == {} && DeclaredBytes(a.entries[..0]) == 0;
      AllOkJoins([here], PartsFrom(a, 0, depth), policy);
      EntriesAreOkIff(a, 0, {}, 0, stored, depth, policy);
    case Packed(_, Some(tar)) =>
      AllOkJoins([here], Parts(tar, stored, depth), policy);
      AcceptableIff(tar, stored, depth, policy);
    case _ =>
      AllOkJoins([here], [], policy);
  }

  function PathsOf(entries: seq<Entry>): set<string> {
    set i | 0 <= i < |entries| && entries[i].path.Some? :: entries[i].path.value
  }

  ghost predicate MembersOk(a: Archive, i: nat, stored: int, depth: nat, policy: Policy)
    requires a.Listing?
  {
    forall j :: i <= j < |a.entries| ==> MemberOk(a, j, stored, depth, policy)
  }

  /** What the loop knows before entry i: the paths and the bytes of the entries before it. */
  ghost predicate SoFar(a: Archive, i: nat, seen: set<string>, total: int)
    requires a.Listing? && i <= |a.entries|
  {
    seen == PathsOf(a.entries[..i]) && total == Signed(DeclaredBytes(a.entries[..i]))
  }

  lemma SoFarGrows(a: Archive, i: nat, seen: set<string>, total: int)
    requires a.Listing? && i < |a.entries| && a.entries[i].path.Some? && SoFar(a, i, seen, total)
    ensures SoFar(a, i + 1, seen + {a.entries[i].path.value}, Declared(a.entries[i], total))
  {
    var e, before, more := a.entries[i], a.entries[..i], a.entries[..i + 1];
    assert more == before + [e] && more[..|more| - 1] == before;
    SignedAdds(DeclaredBytes(before), SizeOf(e));
    SignedAdds(e.declared, DeclaredBytes(before));
    assert PathsOf(more) == PathsOf(before) + {e.path.value};
  }

  lemma {:induction false} EntriesAreOkIff(a: Archive, i: nat, seen: set<string>, total: int, stored: int, depth: nat,
          policy: Policy)
    requires a.Listing? && i <= |a.entries| && SoFar(a, i, seen, total)
    ensures EntriesOk(a, i, seen, total, stored, depth, policy) <==>
              && MembersOk(a, i, stored, depth, policy) && (a.kind != Tar ==> Distinct(a.entries, i))
              && AllOk(PartsFrom(a, i, depth), policy)
    decreases a, |a.entries| - i
  {
    if i < |a.entries| {
      EntryIsOkIff(a, i, seen, total, stored, depth, policy);
      AllOkJoins(PartsOfEntry(a.entries[i], depth), PartsFrom(a, i + 1, depth), policy);
      if MemberOk(a, i, stored, depth, policy) {
        var e := a.entries[i];
        SoFarGrows(a, i, seen, total);
        EntriesAreOkIff(a, i + 1, seen + {e.path.value}, Declared(e, total), stored, depth, policy);
      }
    }
  }

  /** The i-th entry has a path of its own. */
  ghost predicate IsNew(entries: seq<Entry>, i: nat)
    requires i < |entries|
  {
    forall j :: 0 <= j < i ==> entries[j].path != entries[i].path
  }

  lemma {:induction false} EntryIsOkIff(a: Archive, i: nat, seen: set<string>, total: int, stored: int, depth: nat,
          policy: Policy)
    requires a.Listing? && i < |a.entries| && SoFar(a, i, seen, total)
    ensures EntryOk(a, i, seen, total, stored, depth, policy) <==>
              && MemberOk(a, i, stored, depth, policy) && (a.kind != Tar ==> IsNew(a.entries, i))
              && AllOk(PartsOfEntry(a.entries[i], depth), policy)
    decreases a, 0
  {
    var e := a.entries[i];
    if e.path.Some? {
      SoFarGrows(a, i, seen, total);
      NewIsUnseen(a, i, seen);
    }
    if e.kind != Directory && e.nested.Some? {
      AcceptableIff(e.nested.value, NestedSize(e, e.nested.value), depth + 1, policy);
    }
  }

  lemma NewIsUnseen(a: Archive, i: nat, seen: set<string>)
    requires a.Listing? && i < |a.entries| && a.entries[i].path.Some? && seen == PathsOf(a.entries[..i])
    ensures IsNew(a.entries, i) <==> a.entries[i].path.value !in seen
  {
    var path := a.entries[i].path.value;
    if path in seen {
      var j :| 0 <= j < i && a.entries[..i][j].path == Some(path);
      assert a.entries[j].path == a.entries[i].path;
    }
    if j :| 0 <= j < i && a.entries[j].path == a.entries[i].path {
      assert a.entries[..i][j].path.value in seen;
    }
  }

  lemma NothingIsNotInflated(stored: int, policy: Policy)
    requires policy.maxRatio >= 0.0
    ensures NotInflated(0, stored, policy)
  {
  }

  /** What the loop has checked at the last file before index n holds at n. */
  lemma {:induction false} PrefixIsNotInflated(a: Archive, n: nat, stored: int, depth: nat, policy: Policy)
    requires a.Listing? && a.kind != Tar && n <= |a.entries| && MembersOk(a, 0, stored, depth, policy)
    requires policy.maxRatio >= 0.0
    ensures NotInflated(Signed(DeclaredBytes(a.entries[..n])), stored, policy)
  {
    if n > 0 {
      assert MemberOk(a, n - 1, stored, depth, policy);
      assert a.entries[..n][..n - 1] == a.entries[..n - 1];
      PrefixIsNotInflated(a, n - 1, stored, depth, policy);
    } else {
      NothingIsNotInflated(stored, policy);
    }
  }

  lemma EntriesAreNotInflated(a: Archive, stored: int, depth: nat, policy: Policy)
    requires a.Listing? && EntriesOk(a, 0, {}, 0, stored, depth, policy) && policy.maxRatio >= 0.0
    ensures a.kind != Tar ==> NotInflated(Signed(DeclaredBytes(a.entries)), stored, policy)
  {
    assert PathsOf(a.entries[..0]) == {} && DeclaredBytes(a.entries[..0]) == 0;
    EntriesAreOkIff(a, 0, {}, 0, stored, depth, policy);
    if a.kind != Tar {
      PrefixIsNotInflated(a, |a.entries|, stored, depth, policy);
      assert a.entries[..|a.entries|] == a.entries;
    }
  }

  predicate NoneOversized(entries: seq<Entry>) {
    forall i :: 0 <= i < |entries| && entries[i].kind != Directory ==> entries[i].declared < TWO63
  }

  /** Without oversized entries the declared bytes stay so small that they do not wrap. */
  lemma {:induction false} PrefixDoesNotWrap(a: Archive, n: nat, stored: int, depth: nat, policy: Policy)
    requires a.Listing? && n <= |a.entries| && MembersOk(a, 0, stored, depth, policy) && LeavesRoom(policy)
    requires NoneOversized(a.entries)
    ensures DeclaredBytes(a.entries[..n]) <= policy.maxTotal
  {
    if n > 0 {
      assert MemberOk(a, n - 1, stored, depth, policy);
      assert a.entries[..n][..n - 1] == a.entries[..n - 1];
      PrefixDoesNotWrap(a, n - 1, stored, depth, policy);
    }
  }

  lemma PartOfAcceptable(a: Archive, stored: int, depth: nat, policy: Policy, p: Part)
    requires Acceptable(a, stored, depth, policy) && p in Parts(a, stored, depth)
    ensures PartOk(p, policy)
  {
    AcceptableIff(a, stored, depth, policy);
  }

  /**
   Every zip and 7z listing in an acceptable archive, at any level, with a positive stored size declares at
   most `maxRatio` times that size. Declared bytes are counted in 64 bits; that is their sum if no entry
   declares 2^63 bytes or more.
   */
  lemma ListingsAreNotInflated(a: Archive, stored: int, depth: nat, policy: Policy, p: Part)
    requires Acceptable(a, stored, depth, policy) && policy.maxRatio >= 0.0
    requires p in Parts(a, stored, depth) && p.archive.Listing? && p.archive.kind != Tar && p.stored > 0
    ensures Signed(DeclaredBytes(p.archive.entries)) as real <= policy.maxRatio * p.stored as real
    ensures LeavesRoom(policy) && NoneOversized(p.archive.entries)
            ==> DeclaredBytes(p.archive.entries) as real <= policy.maxRatio * p.stored as real
  {
    PartOfAcceptable(a, stored, depth, policy, p);
    var entries := p.archive.entries;
    assert entries[..|entries|] == entries;
    PrefixIsNotInflated(p.archive, |entries|, p.stored, p.depth, policy);
    if LeavesRoom(policy) && NoneOversized(entries) {
      PrefixDoesNotWrap(p.archive, |entries|, p.stored, p.depth, policy);
    }
  }

  /** And every packed stream is at most that long. */
  lemma StreamsAreNotInflated(a: Archive, stored: int, depth: nat, policy: Policy, p: Part)
    requires Acceptable(a, stored, depth, policy)
    requires p in Parts(a, stored, depth) && p.archive.Packed? && p.archive.asTar.None? && p.stored > 0
    ensures Length(p.archive.stream.chunks) as real <= policy.maxRatio * p.stored as real
  {
    PartOfAcceptable(a, stored, depth, policy, p);
  }

  lemma NothingIsInflated(a: Archive, stored: int, depth: nat, policy: Policy)
    requires Acceptable(a, stored, depth, policy) && policy.maxRatio >= 0.0
    ensures LeavesRoom(policy) ==>
              forall p :: p in Parts(a, stored, depth) && p.archive.Listing? && p.archive.kind != Tar && p.stored > 0
                          && NoneOversized(p.archive.entries) ==>
                DeclaredBytes(p.archive.entries) as real <= policy.maxRatio * p.stored as real
    ensures forall p :: p in Parts(a, stored, depth) && p.archive.Packed? && p.archive.asTar.None? && p.stored > 0 ==>
                Length(p.archive.stream.chunks) as real <= policy.maxRatio * p.stored as real
  {
    forall p | p in Parts(a, stored, depth) && p.archive.Listing? && p.archive.kind != Tar && p.stored > 0
      ensures LeavesRoom(policy) && NoneOversized(p.archive.entries) ==>
                DeclaredBytes(p.archive.entries) as real <= policy.maxRatio * p.stored as real
    {
      ListingsAreNotInflated(a, stored, depth, policy, p);
    }
    forall p | p in Parts(a, stored, depth) && p.archive.Packed? && p.archive.asTar.None? && p.stored > 0
      ensures Length(p.archive.stream.chunks) as real <= policy.maxRatio * p.stored as real
    {
      StreamsAreNotInflated(a, stored, depth, policy, p);
    }
  }

  // ---------------------------------------------------------------- what is counted and what is declared

  /** What one archive declares beside the archives in it: its entries and the bytes of its files, or one stream. */
  function OwnUsage(a: Archive): Usage {
    match a
    case Listing(_, entries, _) => Usage(|entries|, DeclaredBytes(entries))
    case Packed(stream, None) => Usage(1, Length(stream.chunks))
    case _ => Usage(0, 0)
  }

  function UsageOfParts(parts: seq<Part>): Usage {
    if parts == [] then Usage(0, 0) else Plus(OwnUsage(parts[0].archive), UsageOfParts(parts[1..]))
  }

  lemma {:induction false} UsageJoins(a: seq<Part>, b: seq<Part>)
    ensures UsageOfParts(a + b) == Plus(UsageOfParts(a), UsageOfParts(b))
    decreases |a|
  {
    if a == [] {
      assert a + b == b;
    } else {
      assert (a + b)[1..] == a[1..] + b;
      UsageJoins(a[1..], b);
    }
  }

  function OwnOfEntry(e: Entry): Usage {
    Usage(1, if e.kind == Directory then 0 else e.declared)
  }

  function OwnFrom(entries: seq<Entry>, i: nat): Usage
    requires i <= |entries|
    decreases |entries| - i
  {
    if i == |entries| then Usage(0, 0) else Plus(OwnOfEntry(entries[i]), OwnFrom(entries, i + 1))
  }

  lemma {:induction false} OwnFromIs(entries: seq<Entry>, i: nat)
    requires i <= |entries|
    ensures OwnFrom(entries, i) == Usage(|entries| - i, DeclaredBytes(entries) - DeclaredBytes(entries[..i]))
    decreases |entries| - i
  {
    if i < |entries| {
      OwnFromIs(entries, i + 1);
      assert entries[..i + 1][..i] == entries[..i];
    } else {
      assert entries[..i] == entries;
    }
  }

  lemma PlusRegroups(a: Usage, b: Usage, c: Usage, d: Usage)
    ensures Plus(Plus(a, b), Plus(c, d)) == Plus(Plus(a, c), Plus(b, d))
    ensures Plus(a, Usage(0, 0)) == a
  {
  }

  /** What an archive declares over all levels is the sum of what it and every archive in it declare. */
  lemma {:induction false} UsageIsSum(a: Archive, stored: int, depth: nat)
    ensures UsageOf(a) == UsageOfParts(Parts(a, stored, depth))
    decreases a, Rank(a)
  {
    var here := Part(a, stored, depth);
    match a
    case Listing(_, entries, _) =>
      UsageFromIsSum(a, 0, depth);
      OwnFromIs(entries, 0);
      PartsAreJoined(here, PartsFrom(a, 0, depth));
    case Packed(_, Some(tar)) =>
      UsageIsSum(tar, stored, depth);
      PartsAreJoined(here, Parts(tar, stored, depth));
    case _ =>
      PartsAreJoined(here, []);
  }

  lemma PartsAreJoined(here: Part, more: seq<Part>)
    ensures UsageOfParts([here] + more) == Plus(OwnUsage(here.archive), UsageOfParts(more))
  {
    assert ([here] + more)[1..] == more;
  }

  lemma {:induction false} UsageFromIsSum(a: Archive, i: nat, depth: nat)
    requires a.Listing? && i <= |a.entries|
    ensures UsageFrom(a, i) == Plus(OwnFrom(a.entries, i), UsageOfParts(PartsFrom(a, i, depth)))
    decreases a, |a.entries| - i
  {
    if i < |a.entries| {
      var here, later := PartsOfEntry(a.entries[i], depth), PartsFrom(a, i + 1, depth);
      EntryUsageIsSum(a, i, depth);
      UsageFromIsSum(a, i + 1, depth);
      UsageJoins(here, later);
      PlusRegroups(OwnOfEntry(a.entries[i]), UsageOfParts(here), OwnFrom(a.entries, i + 1), UsageOfParts(later));
    }
  }

  lemma {:induction false} EntryUsageIsSum(a: Archive, i: nat, depth: nat)
    requires a.Listing? && i < |a.entries|
    ensures UsageOfEntry(a, i) == Plus(OwnOfEntry(a.entries[i]), UsageOfParts(PartsOfEntry(a.entries[i], depth)))
    decreases a, 0
  {
    var e := a.entries[i];
    PlusRegroups(OwnOfEntry(e), Usage(0, 0), Usage(0, 0), Usage(0, 0));
    if e.kind != Directory && e.nested.Some? {
      var n := e.nested.value;
      UsageIsSum(n, if n.Listing? && n.kind != Tar then Length(e.body.chunks) else Signed(e.declared), depth + 1);
    }
  }

  function Sum(sizes: seq<int>): int {
    if sizes == [] then 0 else sizes[0] + Sum(sizes[1..])
  }

  lemma {:induction false} SumJoins(a: seq<int>, b: seq<int>)
    ensures Sum(a + b) == Sum(a) + Sum(b)
    decreases a
  {
    if a == [] {
      assert a + b == b;
    } else {
      assert (a + b)[1..] == a[1..] + b;
      SumJoins(a[1..], b);
    }
  }

  /** How many entries over all levels declare 2^63 bytes or more. */
  function Oversized(a: Archive): nat
    decreases a, Rank(a)
  {
    match a
    case Listing(_, _, _) => OversizedFrom(a, 0)
    case Packed(_, Some(tar)) => Oversized(tar)
    case _ => 0
  }

  function OversizedFrom(a: Archive, i: nat): nat
    requires a.Listing? && i <= |a.entries|
    decreases a, |a.entries| - i
  {
    if i == |a.entries| then 0 else OversizedEntry(a.entries[i]) + OversizedFrom(a, i + 1)
  }

  function OversizedEntry(e: Entry): nat
    decreases e
  {
    if e.kind == Directory then 0
    else (if e.declared >= TWO63 then 1 else 0) + if e.nested.Some? then Oversized(e.nested.value) else 0
  }

  /** What the charges of an archive are, against what it declares: each oversized entry is counted 2^64 too low. */
  ghost predicate CountsLow(sizes: seq<int>, declared: Usage, oversized: nat) {
    && |sizes| == declared.entries
    && declared.total == Sum(sizes) + TWO64 * oversized && declared.total >= TWO63 * oversized
    && (oversized == 0 ==> NoneNegative(sizes))
  }

  ghost predicate NoneNegative(sizes: seq<int>) {
    forall i :: 0 <= i < |sizes| ==> sizes[i] >= 0
  }

  ghost predicate NoneAbove(sizes: seq<int>, max: int) {
    forall i :: 0 <= i < |sizes| ==> sizes[i] <= max
  }

  lemma CountsJoin(a: seq<int>, u: Usage, m: nat, b: seq<int>, v: Usage, n: nat)
    requires CountsLow(a, u, m) && CountsLow(b, v, n)
    ensures CountsLow(a + b, Plus(u, v), m + n)
  {
    SumJoins(a, b);
  }

  lemma {:induction false} ArchiveCountsLow(a: Archive)
    ensures CountsLow(Charges(a), UsageOf(a), Oversized(a))
    decreases a, Rank(a)
  {
    match a
    case Listing(_, _, _) => EntriesCountLow(a, 0);
    case Packed(_, Some(tar)) => ArchiveCountsLow(tar);
    case _ =>
  }

  lemma {:induction false} EntriesCountLow(a: Archive, i: nat)
    requires a.Listing? && i <= |a.entries|
    ensures CountsLow(ChargesFrom(a, i), UsageFrom(a, i), OversizedFrom(a, i))
    decreases a, |a.entries| - i
  {
    if i < |a.entries| {
      EntryCountsLow(a, i);
      EntriesCountLow(a, i + 1);
      CountsJoin(ChargesOfEntry(a, i), UsageOfEntry(a, i), OversizedEntry(a.entries[i]),
                 ChargesFrom(a, i + 1), UsageFrom(a, i + 1), OversizedFrom(a, i + 1));
    }
  }

  lemma {:induction false} EntryCountsLow(a: Archive, i: nat)
    requires a.Listing? && i < |a.entries|
    ensures CountsLow(ChargesOfEntry(a, i), UsageOfEntry(a, i), OversizedEntry(a.entries[i]))
    decreases a, 0
  {
    var e := a.entries[i];
    if e.kind != Directory {
      var here: nat := if e.declared >= TWO63 then 1 else 0;
      assert CountsLow([SizeOf(e)], Usage(1, e.declared), here);
      if e.nested.Some? {
        ArchiveCountsLow(e.nested.value);
        CountsJoin([SizeOf(e)], Usage(1, e.declared), here,
                   Charges(e.nested.value), UsageOf(e.nested.value), Oversized(e.nested.value));
      }
    }
  }

  /** After some entries the budget holds their number and sum, as far as 64 bits go. */
  lemma {:induction false} BudgetIsSum(used: Usage, sizes: seq<int>, policy: Policy)
    requires Signed(used.entries) == used.entries && Signed(used.total) == used.total
    ensures ChargedAll(used, sizes) == Usage(Signed(used.entries + |sizes|), Signed(used.total + Sum(sizes)))
    ensures Fits(used, sizes, policy) && sizes != [] ==> Within(ChargedAll(used, sizes), policy)
    decreases |sizes|
  {
    if sizes != [] {
      BudgetIsSum(Charged(used, sizes[0]), sizes[1..], policy);
      SignedAdds(used.entries + 1, |sizes[1..]|);
      SignedAdds(used.total + sizes[0], Sum(sizes[1..]));
    }
  }

  /** Limits that a 64-bit signed number holds. */
  predicate IsSigned(policy: Policy) {
    policy.maxEntries < TWO63 && policy.maxTotal < TWO63 && policy.maxSingle < TWO63
  }

  /** Of an archive that fits the budget the declared bytes are within the limit exactly if their sum is below 2^63. */
  lemma BytesAreBoundedIff(a: Archive, policy: Policy)
    requires IsSigned(policy) && Fits(Usage(0, 0), Charges(a), policy)
    ensures UsageOf(a).total <= policy.maxTotal <==> UsageOf(a).total < TWO63
    ensures UsageOf(a).entries <= policy.maxEntries <==> UsageOf(a).entries < TWO63
  {
    ArchiveCountsLow(a);
    BudgetIsSum(Usage(0, 0), Charges(a), policy);
    SignedWraps(UsageOf(a).total, 0 - Oversized(a) as int);
  }

  lemma NoneAboveJoins(a: seq<int>, b: seq<int>, max: int)
    requires NoneAbove(a, max) && NoneAbove(b, max)
    ensures NoneAbove(a + b, max)
  {
  }

  /** No charge passes the limit of a single entry. */
  lemma {:induction false} ChargesAreSmall(a: Archive, compressed: int, depth: nat, policy: Policy)
    requires Acceptable(a, compressed, depth, policy)
    ensures NoneAbove(Charges(a), policy.maxSingle)
    decreases a, Rank(a)
  {
    match a
    case Listing(_, _, _) => EntriesAreSmall(a, 0, {}, 0, compressed, depth, policy);
    case Packed(_, Some(tar)) => ChargesAreSmall(tar, compressed, depth, policy);
    case _ =>
  }

  lemma {:induction false} EntriesAreSmall(a: Archive, i: nat, seen: set<string>, total: int, compressed: int,
          depth: nat, policy: Policy)
    requires a.Listing? && i <= |a.entries| && EntriesOk(a, i, seen, total, compressed, depth, policy)
    ensures NoneAbove(ChargesFrom(a, i), policy.maxSingle)
    decreases a, |a.entries| - i
  {
    if i < |a.entries| {
      var e := a.entries[i];
      EntryIsSmall(a, i, seen, total, compressed, depth, policy);
      EntriesAreSmall(a, i + 1, seen + {e.path.value}, Declared(e, total), compressed, depth, policy);
      NoneAboveJoins(ChargesOfEntry(a, i), ChargesFrom(a, i + 1), policy.maxSingle);
    }
  }

  lemma {:induction false} EntryIsSmall(a: Archive, i: nat, seen: set<string>, total: int, compressed: int,
          depth: nat, policy: Policy)
    requires a.Listing? && i < |a.entries| && EntryOk(a, i, seen, total, compressed, depth, policy)
    ensures NoneAbove(ChargesOfEntry(a, i), policy.maxSingle)
    decreases a, 0
  {
    var e := a.entries[i];
    if e.kind != Directory {
      if e.nested.Some? {
        assert BodyOk(a, i, compressed, depth, policy);
        ChargesAreSmall(e.nested.value, NestedSize(e, e.nested.value), depth + 1, policy);
      }
      NoneAboveJoins([SizeOf(e)], ChargesBelow(e), policy.maxSingle);
    }
  }

  /** Sizes that are not negative are counted without wrapping, if the limits leave room for one more entry. */
  lemma {:induction false} FitsIsSum(used: Usage, sizes: seq<int>, policy: Policy)
    requires LeavesRoom(policy) && NoneNegative(sizes) && NoneAbove(sizes, policy.maxSingle)
    requires 0 <= used.entries <= policy.maxEntries && 0 <= used.total <= policy.maxTotal
    ensures Fits(used, sizes, policy) <==> Within(Usage(used.entries + |sizes|, used.total + Sum(sizes)), policy)
    ensures Sum(sizes) >= 0
    decreases |sizes|
  {
    if sizes != [] {
      var c, rest := sizes[0], sizes[1..];
      assert 0 <= c <= policy.maxSingle && Charged(used, c) == Usage(used.entries + 1, used.total + c);
      if Within(Charged(used, c), policy) {
        FitsIsSum(Charged(used, c), rest, policy);
      } else {
        SumIsPositive(rest);
      }
    }
  }

  lemma {:induction false} SumIsPositive(sizes: seq<int>)
    requires NoneNegative(sizes)
    ensures Sum(sizes) >= 0
  {
    if sizes != [] {
      SumIsPositive(sizes[1..]);
    }
  }

  predicate LeavesRoom(policy: Policy) {
    policy.maxEntries + 1 < TWO63 && policy.maxTotal + policy.maxSingle < TWO63
  }

  /**
   Under ordinary limits the declared entries and bytes of an archive that passes are within them exactly
   if no entry at any level declares 2^63 bytes or more; and without such entries an acceptable archive
   passes exactly if they are.
   */
  lemma UsageIsBoundedIff(a: Archive, compressed: int, depth: nat, policy: Policy)
    requires LeavesRoom(policy) && Acceptable(a, compressed, depth, policy)
    ensures Fits(Usage(0, 0), Charges(a), policy) ==> (Within(UsageOf(a), policy) <==> Oversized(a) == 0)
    ensures Oversized(a) == 0 ==> (Fits(Usage(0, 0), Charges(a), policy) <==> Within(UsageOf(a), policy))
  {
    ArchiveCountsLow(a);
    ChargesAreSmall(a, compressed, depth, policy);
    if Oversized(a) == 0 {
      FitsIsSum(Usage(0, 0), Charges(a), policy);
    }
  }

  /** Inspecting an upload: it starts at depth 1 with an empty budget. */
  method InspectUpload(a: Archive, compressed: int, policy: Policy) returns (ok: bool)
    requires policy.maxRatio >= 0.0 && policy.maxDepth >= 1
    ensures ok <==> Acceptable(a, compressed, 1, policy) && Fits(Usage(0, 0), Charges(a), policy)
    ensures ok <==> AllOk(Parts(a, compressed, 1), policy) && Fits(Usage(0, 0), Charges(a), policy)
    ensures ok && LeavesRoom(policy) ==>
              forall p :: p in Parts(a, compressed, 1) && p.archive.Listing? && p.archive.kind != Tar && p.stored > 0
                          && NoneOversized(p.archive.entries) ==>
                DeclaredBytes(p.archive.entries) as real <= policy.maxRatio * p.stored as real
    ensures ok ==>
              forall p :: p in Parts(a, compressed, 1) && p.archive.Packed? && p.archive.asTar.None? && p.stored > 0 ==>
                Length(p.archive.stream.chunks) as real <= policy.maxRatio * p.stored as real
    ensures ok ==> 1 + LevelsBelow(a) <= policy.maxDepth
    ensures ok && IsSigned(policy) ==> (UsageOf(a).total <= policy.maxTotal <==> UsageOf(a).total < TWO63)
    ensures ok && LeavesRoom(policy) ==> (Within(UsageOf(a), policy) <==> Oversized(a) == 0)
    ensures LeavesRoom(policy) && Oversized(a) == 0 ==>
              (ok <==> Acceptable(a, compressed, 1, policy) && Within(UsageOf(a), policy))
  {
    var budget := new Budget();
    ok := Inspect(a, compressed, 1, policy, budget);
    AcceptableIff(a, compressed, 1, policy);
    if ok {
      NothingIsInflated(a, compressed, 1, policy);
    }
    if Acceptable(a, compressed, 1, policy) {
      AcceptableIsShallow(a, compressed, 1, policy);
      if LeavesRoom(policy) {
        UsageIsBoundedIff(a, compressed, 1, policy);
      }
    }
    if ok && IsSigned(policy) {
      BytesAreBoundedIff(a, policy);
    }
  }

  // ---------------------------------------------------------------- sizes that turn negative

  function PlainEntry(name: string, declared: UInt64): Entry {
    Entry(name, Some(name), Regular, false, declared, true, Stream([], false), None)
  }

  function ThreeEntries(x: UInt64, y: UInt64, z: UInt64): Archive {
    Listing(Zip, [PlainEntry("a", x), PlainEntry("b", y), PlainEntry("c", z)], false)
  }

  /** What a listing adds for a plain entry. */
  lemma PlainEntryAdds(a: Archive, i: nat, name: string, declared: UInt64)
    requires a.Listing? && i < |a.entries| && a.entries[i] == PlainEntry(name, declared)
    ensures ChargesFrom(a, i) == [Signed(declared)] + ChargesFrom(a, i + 1)
    ensures UsageFrom(a, i) == Plus(Usage(1, declared), UsageFrom(a, i + 1))
    ensures OversizedFrom(a, i) == (if declared >= TWO63 then 1 else 0) + OversizedFrom(a, i + 1)
  {
    assert ChargesOfEntry(a, i) == [Signed(declared)] + [];
  }

  lemma ThreeEntriesAdd(x: UInt64, y: UInt64, z: UInt64)
    ensures Charges(ThreeEntries(x, y, z)) == [Signed(x), Signed(y), Signed(z)]
    ensures UsageOf(ThreeEntries(x, y, z)) == Usage(3, x + y + z)
    ensures x < TWO63 <= y && z < TWO63 ==> Oversized(ThreeEntries(x, y, z)) == 1
  {
    var a := ThreeEntries(x, y, z);
    PlainEntryAdds(a, 2, "c", z);
    PlainEntryAdds(a, 1, "b", y);
    PlainEntryAdds(a, 0, "a", x);
  }

  lemma PlainEntryIsOk(a: Archive, i: nat, name: string, seen: set<string>, total: int, next: int, compressed: int,
          policy: Policy)
    requires a.Listing? && a.kind == Zip && i < |a.entries| && a.entries[i] == PlainEntry(name, a.entries[i].declared)
    requires |name| <= policy.maxName && name !in seen
    requires next == Declared(a.entries[i], total) <= policy.maxTotal && RatioOk(next, compressed, policy)
    requires SizeOf(a.entries[i]) <= policy.maxSingle
    requires EntriesOk(a, i + 1, seen + {name}, next, compressed, 1, policy)
    ensures EntriesOk(a, i, seen, total, compressed, 1, policy)
  {
    assert BodyOk(a, i, compressed, 1, policy);
    assert EntryOk(a, i, seen, total, compressed, 1, policy);
  }

  lemma ThreeEntriesAreOk(a: Archive, n: int, compressed: int, policy: Policy)
    requires 0 < n < TWO63 && n <= policy.maxSingle && n <= policy.maxTotal && RatioOk(n, compressed, policy)
    requires policy.maxName >= 1 && policy.maxRatio >= 0.0
    requires a.Listing? && a.kind == Zip && |a.entries| == 3
    requires a.entries[0] == PlainEntry("a", n) && a.entries[1] == PlainEntry("b", TWO64 - n)
    requires a.entries[2] == PlainEntry("c", n)
    ensures EntriesOk(a, 0, {}, 0, compressed, 1, policy)
  {
    var one, two, three := {"a"}, {"a", "b"}, {"a", "b", "c"};
    assert {} + {"a"} == one && one + {"b"} == two && two + {"c"} == three;
    assert Signed(TWO64 - n) == -n;
    assert EntriesOk(a, 3, three, n, compressed, 1, policy);
    PlainEntryIsOk(a, 2, "c", two, 0, n, compressed, policy);
    PlainEntryIsOk(a, 1, "b", one, n, 0, compressed, policy);
    PlainEntryIsOk(a, 0, "a", {}, 0, n, compressed, policy);
  }

  lemma ThreeSizesFit(n: int, policy: Policy)
    requires 0 < n < TWO63 && n <= policy.maxTotal && policy.maxEntries >= 3
    ensures Fits(Usage(0, 0), [n, -n, n], policy)
  {
    assert Charged(Usage(2, 0), n) == Usage(3, n) && Fits(Usage(2, 0), [n], policy);
    assert [-n, n][1..] == [n] && Charged(Usage(1, n), -n) == Usage(2, 0);
    assert Fits(Usage(1, n), [-n, n], policy);
    assert [n, -n, n][1..] == [-n, n] && Charged(Usage(0, 0), n) == Usage(1, n);
  }

  /** An entry that declares 2^64 - n bytes makes room for n more: the listing passes, and declares too much. */
  lemma OversizedEntryLowersTheCount(n: int, compressed: int, policy: Policy)
    requires 0 < n < TWO63 && n <= policy.maxSingle && n <= policy.maxTotal < 2 * n && RatioOk(n, compressed, policy)
    requires policy.maxEntries >= 3 && policy.maxName >= 1 && policy.maxRatio >= 0.0
    ensures var a := ThreeEntries(n, TWO64 - n, n);
            && Acceptable(a, compressed, 1, policy) && Fits(Usage(0, 0), Charges(a), policy)
            && Oversized(a) == 1 && UsageOf(a).total > policy.maxTotal
            && a.entries[0].declared + a.entries[2].declared > policy.maxTotal
  {
    ThreeEntriesAdd(n, TWO64 - n, n);
    assert Signed(TWO64 - n) == -n;
    ThreeEntriesAreOk(ThreeEntries(n, TWO64 - n, n), n, compressed, policy);
    ThreeSizesFit(n, policy);
  }
}
