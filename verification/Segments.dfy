/**
 Publishing a generation of the index: segment files first, the pointer last; files that are no
 longer referenced are retired and deleted after a grace period. Every object write may be the last
 one that happens, and a write that reports an error may have been applied.
 */
module Segments {
  import opened Wrappers
  import opened Journal
  import History
  import opened Faults

  type Name = string

  datatype FileRef = FileRef(name: Name, size: nat)
  datatype Retired = Retired(name: Name, at: nat)
  datatype Object = Object(size: nat, modified: nat)

  datatype Pointer = Pointer(
    generation: nat, publishedAt: nat,
    files: seq<FileRef>, retired: seq<Retired>, history: seq<History.Change>)

  /** What the indexer publishes after a commit. */
  datatype Publication = Publication(files: seq<Name>, full: bool, changed: set<FileId>)

  datatype Error = NotASegment | LocalFileMissing | WriteFailed

  // ---------------------------------------------------------------- names

  predicate IsHex(c: char) {
    '0' <= c <= '9' || 'a' <= c <= 'f'
  }

  predicate IsSuffixChar(c: char) {
    '0' <= c <= '9' || 'a' <= c <= 'z' || 'A' <= c <= 'Z' || c == '.'
  }

  /** A segment file: 32 hex digits, a dot, and at least one more character. */
  predicate IsSegmentFile(name: Name) {
    && |name| >= 34 && name[32] == '.'
    && (forall i :: 0 <= i < 32 ==> IsHex(name[i]))
    && (forall i :: 33 <= i < |name| ==> IsSuffixChar(name[i]))
  }

  function FileNames(files: seq<FileRef>): set<Name> {
    set f | f in files :: f.name
  }

  function RetiredNames(retired: seq<Retired>): set<Name> {
    set r | r in retired :: r.name
  }

  // ---------------------------------------------------------------- what every bucket state keeps

  type Objects = map<Name, Object>

  ghost predicate DistinctFiles(files: seq<FileRef>) {
    forall i, j :: 0 <= i < j < |files| ==> files[i].name != files[j].name
  }

  ghost predicate DistinctRetired(retired: seq<Retired>) {
    forall i, j :: 0 <= i < j < |retired| ==> retired[i].name != retired[j].name
  }

  /** Segment files do not change under their name. */
  ghost predicate Immutable(objects: Objects, sizeOf: Name -> nat) {
    forall n :: n in objects && IsSegmentFile(n) ==> objects[n].size == sizeOf(n)
  }

  /** Every listed file is there with the recorded size. */
  ghost predicate Present(objects: Objects, files: seq<FileRef>) {
    forall f :: f in files ==> f.name in objects && objects[f.name].size == f.size
  }

  /** Generation j dropped the file at the retirement stamp, and none has listed it since. */
  ghost predicate DroppedBy(generations: seq<Pointer>, j: nat, r: Retired) {
    && j < |generations| && generations[j].publishedAt == r.at
    && forall i :: j <= i < |generations| ==> r.name !in FileNames(generations[i].files)
  }

  /** A generation after i did without the file, a whole grace period ago. */
  ghost predicate Expired(generations: seq<Pointer>, i: nat, n: Name, grace: nat, clock: nat) {
    exists j :: i < j < |generations| && n !in FileNames(generations[j].files)
             && generations[j].publishedAt + grace <= clock
  }

  ghost predicate Stored(generations: seq<Pointer>, i: nat, n: Name) {
    i < |generations| && n in FileNames(generations[i].files)
  }

  /** The files of every generation stay until a later one has done without them for the grace period. */
  ghost predicate KeptForGrace(objects: Objects, generations: seq<Pointer>, grace: nat, clock: nat) {
    forall i: nat, n :: Stored(generations, i, n) ==> n in objects || Expired(generations, i, n, grace, clock)
  }

  ghost predicate PointerOk(objects: Objects, generations: seq<Pointer>, p: Pointer, grace: nat, clock: nat) {
    && Present(objects, p.files)
    && (forall f :: f in p.files ==> IsSegmentFile(f.name))
    && DistinctFiles(p.files) && DistinctRetired(p.retired)
    && FileNames(p.files) !! RetiredNames(p.retired)
    && (forall r :: r in p.retired ==> exists j :: DroppedBy(generations, j, r))
    && (forall i: nat, n :: Stored(generations, i, n) ==>
          n in FileNames(p.files) || n in RetiredNames(p.retired) || Expired(generations, i, n, grace, clock))
  }

  ghost predicate SizesOk(generations: seq<Pointer>, sizeOf: Name -> nat) {
    forall i, f :: 0 <= i < |generations| && f in generations[i].files ==>
      IsSegmentFile(f.name) && f.size == sizeOf(f.name)
  }

  ghost predicate BucketOk(objects: Objects, generations: seq<Pointer>, grace: nat, clock: nat, sizeOf: Name -> nat) {
    && Immutable(objects, sizeOf) && SizesOk(generations, sizeOf)
    && KeptForGrace(objects, generations, grace, clock)
    && (generations != [] ==> PointerOk(objects, generations, generations[|generations| - 1], grace, clock))
  }

  /**
   A reader of any generation finds each of its files, with the recorded size, until a later generation
   has done without that file for the grace period.
   */
  lemma ReadableForGrace(objects: Objects, generations: seq<Pointer>, grace: nat, clock: nat, sizeOf: Name -> nat,
          i: nat, f: FileRef)
    requires BucketOk(objects, generations, grace, clock, sizeOf)
    requires i < |generations| && f in generations[i].files
    requires forall j :: i < j < |generations| && f.name !in FileNames(generations[j].files) ==>
               clock < generations[j].publishedAt + grace
    ensures f.name in objects && objects[f.name].size == f.size
  {
    assert Stored(generations, i, f.name);
  }

  // ---------------------------------------------------------------- what each write keeps

  lemma TimePasses(objects: Objects, generations: seq<Pointer>, grace: nat, clock: nat, now: nat, sizeOf: Name -> nat)
    requires BucketOk(objects, generations, grace, clock, sizeOf) && clock <= now
    ensures BucketOk(objects, generations, grace, now, sizeOf)
  {
    forall i: nat, n | Expired(generations, i, n, grace, clock) ensures Expired(generations, i, n, grace, now) {
    }
  }

  lemma UploadKeeps(objects: Objects, generations: seq<Pointer>, grace: nat, now: nat, sizeOf: Name -> nat, n: Name)
    requires BucketOk(objects, generations, grace, now, sizeOf) && IsSegmentFile(n)
    ensures BucketOk(objects[n := Object(sizeOf(n), now)], generations, grace, now, sizeOf)
  {
    var after := objects[n := Object(sizeOf(n), now)];
    if generations != [] {
      var p := generations[|generations| - 1];
      forall f | f in p.files ensures f.name in after && after[f.name].size == f.size {
        assert f.name in objects;
      }
    }
  }

  lemma DropIsExpiry(generations: seq<Pointer>, i: nat, j: nat, r: Retired, grace: nat, now: nat)
    requires DroppedBy(generations, j, r) && r.at + grace <= now && Stored(generations, i, r.name)
    ensures Expired(generations, i, r.name, grace, now)
  {
  }

  /** Deleting an object that the stored pointer does not list keeps everything, if its time is up. */
  lemma DeleteKeeps(objects: Objects, generations: seq<Pointer>, grace: nat, now: nat, sizeOf: Name -> nat, n: Name)
    requires BucketOk(objects, generations, grace, now, sizeOf)
    requires generations != [] ==> n !in FileNames(generations[|generations| - 1].files)
    requires forall i: nat :: Stored(generations, i, n) ==> Expired(generations, i, n, grace, now)
    ensures BucketOk(objects - {n}, generations, grace, now, sizeOf)
  {
    var after := objects - {n};
    if generations != [] {
      var p := generations[|generations| - 1];
      forall f | f in p.files ensures f.name in after && after[f.name].size == f.size {
        assert f.name in FileNames(p.files) && f.name in objects;
      }
    }
  }

  lemma DeleteRetiredKeeps(objects: Objects, generations: seq<Pointer>, grace: nat, now: nat, sizeOf: Name -> nat,
          r: Retired)
    requires BucketOk(objects, generations, grace, now, sizeOf) && generations != []
    requires r in generations[|generations| - 1].retired && r.at + grace <= now
    ensures BucketOk(objects - {r.name}, generations, grace, now, sizeOf)
  {
    var p := generations[|generations| - 1];
    assert r.name in RetiredNames(p.retired);
    var j :| DroppedBy(generations, j, r);
    forall i: nat | Stored(generations, i, r.name) ensures Expired(generations, i, r.name, grace, now) {
      DropIsExpiry(generations, i, j, r, grace, now);
    }
    DeleteKeeps(objects, generations, grace, now, sizeOf, r.name);
  }

  lemma DeleteOrphanKeeps(objects: Objects, generations: seq<Pointer>, grace: nat, now: nat, sizeOf: Name -> nat,
          n: Name)
    requires BucketOk(objects, generations, grace, now, sizeOf) && generations != []
    requires n !in FileNames(generations[|generations| - 1].files)
      && n !in RetiredNames(generations[|generations| - 1].retired)
    ensures BucketOk(objects - {n}, generations, grace, now, sizeOf)
  {
    DeleteKeeps(objects, generations, grace, now, sizeOf, n);
  }

  // ---------------------------------------------------------------- the next pointer

  function PrevFiles(prev: Option<Pointer>): seq<FileRef> {
    if prev.Some? then prev.value.files else []
  }

  function PrevRetired(prev: Option<Pointer>): seq<Retired> {
    if prev.Some? then prev.value.retired else []
  }

  /** Kept: everything retired that is neither used again nor deleted. Added: what `prev` listed and is not used. */
  ghost predicate RetiresExactly(prev: Option<Pointer>, current: set<Name>, now: nat, grace: nat,
          retired: seq<Retired>) {
    && DistinctRetired(retired)
    && (forall r :: r in retired ==>
          && r.name !in current
          && (r in PrevRetired(prev) || (r.at == now && r.name in FileNames(PrevFiles(prev)))))
    && (forall r :: r in PrevRetired(prev) && r.name !in current && now < r.at + grace ==> r in retired)
    && (forall f :: f in PrevFiles(prev) && f.name !in current ==> Retired(f.name, now) in retired)
  }

  /** Nothing has been retired for the grace period. */
  ghost predicate NoneDue(retired: seq<Retired>, now: nat, grace: nat) {
    forall r :: r in retired ==> now < r.at + grace || r.at == now
  }

  function PrevHistory(prev: Option<Pointer>): seq<History.Change> {
    if prev.Some? then prev.value.history else []
  }

  function NextGeneration(prev: Option<Pointer>): nat {
    if prev.Some? then prev.value.generation + 1 else 1
  }

  /** Generations are counted from 1, and each has the history that belongs to the changes up to it. */
  ghost predicate Chronicle(generations: seq<Pointer>, changes: seq<History.Change>) {
    && |generations| == |changes| && History.Numbered(changes)
    && (forall i :: 0 <= i < |generations| ==> generations[i].generation == i + 1)
    && (forall i :: 0 <= i < |generations| ==> generations[i].history == History.Of(changes[..i + 1]))
  }

  lemma ChronicleGrows(generations: seq<Pointer>, changes: seq<History.Change>, p: Pointer, change: History.Change)
    requires Chronicle(generations, changes)
    requires p.generation == change.generation == NextGeneration(StoredPointer(generations))
    requires p.history == History.Extend(PrevHistory(StoredPointer(generations)), change)
    ensures Chronicle(generations + [p], changes + [change]) && p.generation == |generations| + 1
  {
    StoredIsLast(generations, changes);
    var n, grown := |generations|, changes + [change];
    assert grown[..n + 1] == grown && grown[..|grown| - 1] == changes;
    forall i | 0 <= i < n ensures generations[i].history == History.Of(grown[..i + 1]) {
      assert grown[..i + 1] == changes[..i + 1];
    }
  }

  /** What a follower at some generation learns from a stored pointer is what changed since. */
  lemma StoredHistoryIs(generations: seq<Pointer>, changes: seq<History.Change>, served: nat)
    requires Chronicle(generations, changes) && generations != []
    ensures var p := generations[|generations| - 1];
            && p.generation == |changes| && p.history == History.Of(changes)
            && History.Answered(p.generation, p.history, served) == History.Since(changes, served)
  {
    assert changes[..|generations|] == changes;
    History.AnsweredInRuns(changes, served);
  }

  lemma StoredIsLast(generations: seq<Pointer>, changes: seq<History.Change>)
    requires Chronicle(generations, changes)
    ensures generations != [] ==>
              var p := generations[|generations| - 1];
              p.generation == |generations| && p.history == History.Of(changes)
  {
    assert changes[..|generations|] == changes;
  }

  function StoredPointer(generations: seq<Pointer>): Option<Pointer> {
    if generations == [] then None else Some(generations[|generations| - 1])
  }

  lemma StoredOutlastsPublish(generations: seq<Pointer>, p: Pointer, grace: nat, now: nat, i: nat, n: Name)
    requires Expired(generations, i, n, grace, now)
    ensures Expired(generations + [p], i, n, grace, now)
  {
    var j :| i < j < |generations| && n !in FileNames(generations[j].files)
          && generations[j].publishedAt + grace <= now;
    assert (generations + [p])[j] == generations[j];
  }

  lemma RetiredIsDropped(generations: seq<Pointer>, p: Pointer, r: Retired)
    requires r in p.retired && FileNames(p.files) !! RetiredNames(p.retired)
    requires (exists j :: DroppedBy(generations, j, r)) || r.at == p.publishedAt
    ensures exists j :: DroppedBy(generations + [p], j, r)
  {
    var more := generations + [p];
    assert r.name in RetiredNames(p.retired);
    if j :| DroppedBy(generations, j, r) {
      assert DroppedBy(more, j, r);
    } else {
      assert DroppedBy(more, |generations|, r);
    }
  }

  /** Every name an earlier generation listed is listed, retired, or long gone in the next one. */
  lemma NamesAreKnown(objects: Objects, generations: seq<Pointer>, grace: nat, now: nat, p: Pointer, i: nat, n: Name)
    requires generations != [] ==> PointerOk(objects, generations, generations[|generations| - 1], grace, now)
    requires RetiresExactly(StoredPointer(generations), FileNames(p.files), now, grace, p.retired)
    requires Stored(generations + [p], i, n)
    ensures n in FileNames(p.files) || n in RetiredNames(p.retired) || Expired(generations + [p], i, n, grace, now)
  {
    if i < |generations| && n !in FileNames(p.files) {
      var prev := generations[|generations| - 1];
      assert Stored(generations, i, n);
      if n in FileNames(prev.files) {
        var f :| f in prev.files && f.name == n;
        assert Retired(n, now) in p.retired;
      } else if n in RetiredNames(prev.retired) {
        var r :| r in prev.retired && r.name == n;
        if now < r.at + grace {
          assert r in p.retired;
        } else {
          var j :| DroppedBy(generations, j, r);
          DropIsExpiry(generations, i, j, r, grace, now);
          StoredOutlastsPublish(generations, p, grace, now, i, n);
        }
      } else {
        StoredOutlastsPublish(generations, p, grace, now, i, n);
      }
    }
  }

  lemma PublishKeeps(objects: Objects, generations: seq<Pointer>, grace: nat, now: nat, sizeOf: Name -> nat, p: Pointer)
    requires BucketOk(objects, generations, grace, now, sizeOf)
    requires Present(objects, p.files) && DistinctFiles(p.files) && forall f :: f in p.files ==> IsSegmentFile(f.name)
    requires p.publishedAt == now
    requires RetiresExactly(StoredPointer(generations), FileNames(p.files), now, grace, p.retired)
    ensures BucketOk(objects, generations + [p], grace, now, sizeOf)
  {
    var more := generations + [p];
    forall i: nat, n | Stored(more, i, n) ensures n in objects || Expired(more, i, n, grace, now) {
      if i < |generations| {
        assert Stored(generations, i, n);
        if Expired(generations, i, n, grace, now) {
          StoredOutlastsPublish(generations, p, grace, now, i, n);
        }
      } else {
        var f :| f in p.files && f.name == n;
      }
    }
    forall r | r in p.retired ensures exists j :: DroppedBy(more, j, r) {
      RetiredIsDropped(generations, p, r);
    }
    forall i: nat, n | Stored(more, i, n)
      ensures n in FileNames(p.files) || n in RetiredNames(p.retired) || Expired(more, i, n, grace, now)
    {
      NamesAreKnown(objects, generations, grace, now, p, i, n);
    }
  }

  // ---------------------------------------------------------------- the store

  /** What the pointer records of the published files. */
  function Refs(names: seq<Name>, local: map<Name, nat>): seq<FileRef> {
    if names == [] then []
    else
      var n := names[|names| - 1];
      Refs(names[..|names| - 1], local) + [FileRef(n, if n in local then local[n] else 0)]
  }

  lemma {:induction false} RefsAre(names: seq<Name>, local: map<Name, nat>)
    ensures |Refs(names, local)| == |names|
    ensures forall i :: 0 <= i < |names| ==>
              Refs(names, local)[i] == FileRef(names[i], if names[i] in local then local[names[i]] else 0)
  {
    if names != [] {
      RefsAre(names[..|names| - 1], local);
    }
  }

  /** Segment files that are in the local directory. */
  ghost predicate Publishable(names: seq<Name>, local: map<Name, nat>) {
    forall n :: n in names ==> n in local && IsSegmentFile(n)
  }

  ghost predicate Distinct(names: seq<Name>) {
    forall i, j :: 0 <= i < j < |names| ==> names[i] != names[j]
  }

  /** The pointer of the next generation: exactly the published files, what they replace, and the history. */
  ghost predicate IsNext(prev: Option<Pointer>, pub: Publication, local: map<Name, nat>, now: nat, grace: nat,
          p: Pointer) {
    && p.generation == NextGeneration(prev) && p.publishedAt == now
    && p.files == Refs(pub.files, local) && DistinctFiles(p.files)
    && |p.files| == |pub.files| && (forall i :: 0 <= i < |pub.files| ==> p.files[i].name == pub.files[i])
    && (forall f :: f in p.files ==> IsSegmentFile(f.name) && f.name in local && f.size == local[f.name])
    && RetiresExactly(prev, FileNames(p.files), now, grace, p.retired)
    && p.history == History.Extend(PrevHistory(prev), History.Change(p.generation, pub.full, pub.changed))
  }

  /** Segment files do not change under their name, so an upload leaves the files before it as they are. */
  lemma PresentAfterUpload(objects: Objects, files: seq<FileRef>, sizeOf: Name -> nat, n: Name, now: nat)
    requires Immutable(objects, sizeOf) && Present(objects, files) && IsSegmentFile(n)
    ensures Present(objects[n := Object(sizeOf(n), now)], files + [FileRef(n, sizeOf(n))])
  {
  }

  lemma RefsFit(names: seq<Name>, local: map<Name, nat>)
    requires Distinct(names) && Publishable(names, local)
    ensures DistinctFiles(Refs(names, local)) && |Refs(names, local)| == |names|
    ensures forall i :: 0 <= i < |names| ==> Refs(names, local)[i].name == names[i]
    ensures forall f :: f in Refs(names, local) ==> IsSegmentFile(f.name) && f.name in local && f.size == local[f.name]
  {
    RefsAre(names, local);
  }

  /** `retired` is what of the first i retired files stays: not used again, and kept if its time is not up. */
  ghost predicate Carried(before: seq<Retired>, i: nat, current: set<Name>, now: nat, grace: nat, retired: seq<Retired>)
    requires i <= |before|
  {
    && DistinctRetired(retired)
    && (forall r :: r in retired ==> r in before[..i] && r.name !in current)
    && (forall r :: r in before[..i] && r.name !in current && now < r.at + grace ==> r in retired)
  }

  lemma CarryOne(before: seq<Retired>, i: nat, current: set<Name>, now: nat, grace: nat, retired: seq<Retired>)
    requires i < |before| && DistinctRetired(before) && Carried(before, i, current, now, grace, retired)
    ensures before[i].name !in current ==> Carried(before, i + 1, current, now, grace, retired + [before[i]])
    ensures before[i].name in current || before[i].at + grace <= now ==>
              Carried(before, i + 1, current, now, grace, retired)
  {
    assert before[..i + 1] == before[..i] + [before[i]];
    var more := retired + [before[i]];
    forall a, b | 0 <= a < b < |more| ensures more[a].name != more[b].name {
      if b == |retired| {
        assert retired[a] in before[..i];
      }
    }
  }

  /** And of the first i listed files those that are not used are retired now. */
  ghost predicate Added(prev: Option<Pointer>, i: nat, current: set<Name>, now: nat, grace: nat, retired: seq<Retired>)
    requires i <= |PrevFiles(prev)|
  {
    && DistinctRetired(retired)
    && (forall r :: r in retired ==>
          && r.name !in current
          && (r in PrevRetired(prev) || (r.at == now && r.name in FileNames(PrevFiles(prev)[..i]))))
    && (forall r :: r in PrevRetired(prev) && r.name !in current && now < r.at + grace ==> r in retired)
    && (forall f :: f in PrevFiles(prev)[..i] && f.name !in current ==> Retired(f.name, now) in retired)
  }

  lemma AddOne(prev: Option<Pointer>, i: nat, current: set<Name>, now: nat, grace: nat, retired: seq<Retired>)
    requires i < |PrevFiles(prev)| && DistinctFiles(PrevFiles(prev))
    requires FileNames(PrevFiles(prev)) !! RetiredNames(PrevRetired(prev))
    requires Added(prev, i, current, now, grace, retired)
    ensures var f := PrevFiles(prev)[i];
            var more := if f.name in current then retired else retired + [Retired(f.name, now)];
            Added(prev, i + 1, current, now, grace, more)
  {
    var files := PrevFiles(prev);
    var f := files[i];
    assert files[..i + 1] == files[..i] + [f];
    var more := retired + [Retired(f.name, now)];
    forall a, b | 0 <= a < b < |more| && f.name !in current ensures more[a].name != more[b].name {
      if b == |retired| && more[a] in PrevRetired(prev) {
        assert more[a].name in RetiredNames(PrevRetired(prev)) && f.name in FileNames(files);
      } else if b == |retired| {
        assert more[a] in retired;
        var g :| g in files[..i] && g.name == more[a].name;
      }
    }
  }

  /** One tenant's snapshot prefix in the bucket. */
  class Store {
    var objects: Objects
    var pointer: Option<Pointer>
    ghost var generations: seq<Pointer>
    ghost var changes: seq<History.Change>
    ghost var clock: nat
    const grace: nat
    ghost const sizeOf: Name -> nat

    ghost predicate Valid()
      reads this
    {
      && pointer == StoredPointer(generations) && Chronicle(generations, changes)
      && BucketOk(objects, generations, grace, clock, sizeOf)
    }

    constructor (grace: nat, ghost sizeOf: Name -> nat)
      ensures Valid() && objects == map[] && generations == [] && changes == [] && clock == 0
      ensures this.grace == grace && this.sizeOf == sizeOf
    {
      this.grace, this.sizeOf := grace, sizeOf;
      objects, pointer, generations, changes, clock := map[], None, [], [], 0;
    }

    /** Uploads one segment file; the write may fail, and a failed write may have been applied. */
    method Upload(name: Name, size: nat, now: nat, calm: bool) returns (ok: bool)
      requires Valid() && clock == now && IsSegmentFile(name) && size == sizeOf(name)
      modifies this`objects
      ensures Valid()
      ensures objects == old(objects) || objects == old(objects)[name := Object(size, now)]
      ensures ok ==> objects == old(objects)[name := Object(size, now)]
      ensures calm ==> ok
    {
      UploadKeeps(objects, generations, grace, now, sizeOf, name);
      var applied;
      applied, ok := Outcome(calm);
      if applied {
        objects := objects[name := Object(size, now)];
      }
    }

    /** Deletes a retired file whose grace period is over; the same doubts as for a write. */
    method DeleteRetired(r: Retired, now: nat, calm: bool) returns (ok: bool)
      requires Valid() && clock == now && pointer.Some? && r in pointer.value.retired && now - r.at >= grace
      modifies this`objects
      ensures Valid()
      ensures objects == old(objects) || objects == old(objects) - {r.name}
      ensures ok ==> objects == old(objects) - {r.name}
      ensures calm ==> ok
    {
      DeleteRetiredKeeps(objects, generations, grace, now, sizeOf, r);
      var applied;
      applied, ok := Outcome(calm);
      if applied {
        objects := objects - {r.name};
      }
    }

    /** Uploads one file more; the ones before it stay. */
    method UploadOne(ref: FileRef, ghost files: seq<FileRef>, now: nat, calm: bool) returns (ok: bool)
      requires Valid() && clock == now && IsSegmentFile(ref.name) && ref.size == sizeOf(ref.name)
      requires Present(objects, files)
      modifies this`objects
      ensures Valid() && (ok ==> Present(objects, files + [ref]))
      ensures calm ==> ok
    {
      PresentAfterUpload(objects, files, sizeOf, ref.name, now);
      ok := Upload(ref.name, ref.size, now, calm);
    }

    /** Uploads the published files that the stored pointer does not list with the same size. */
    method UploadMissing(names: seq<Name>, local: map<Name, nat>, now: nat, calm: bool)
      returns (result: Result<seq<FileRef>, Error>)
      requires Valid() && clock == now
      requires forall n :: n in local ==> local[n] == sizeOf(n)
      modifies this`objects
      ensures Valid()
      ensures result.Success? ==> result.value == Refs(names, local) && Present(objects, result.value)
      ensures result.Success? ==> Publishable(names, local)
      ensures calm && Publishable(names, local) ==> result.Success?
    {
      var have := PrevFiles(pointer);
      var files: seq<FileRef> := [];
      for i := 0 to |names|
        invariant Valid()
        invariant files == Refs(names[..i], local) && Present(objects, files)
        invariant Publishable(names[..i], local)
      {
        var name := names[i];
        assert names[..i + 1] == names[..i] + [name];
        if !IsSegmentFile(name) {
          return Failure(NotASegment);
        }
        if name !in local {
          return Failure(LocalFileMissing);
        }
        var ref := FileRef(name, local[name]);
        if ref !in have {
          var ok := UploadOne(ref, files, now, calm);
          if !ok {
            return Failure(WriteFailed);
          }
        }
        files := files + [ref];
      }
      assert names[..|names|] == names;
      return Success(files);
    }

    /** Deletes what has been retired for the grace period; keeps the rest, and what could not be deleted. */
    method DeleteExpired(current: set<Name>, now: nat, ghost files: seq<FileRef>, calm: bool)
      returns (retired: seq<Retired>)
      requires Valid() && clock == now && Present(objects, files) && current == FileNames(files)
      modifies this`objects
      ensures Valid() && Present(objects, files)
      ensures Carried(PrevRetired(pointer), |PrevRetired(pointer)|, current, now, grace, retired)
      ensures calm ==> NoneDue(retired, now, grace)
    {
      var before := PrevRetired(pointer);
      retired := [];
      for i := 0 to |before|
        invariant Valid() && Present(objects, files)
        invariant Carried(before, i, current, now, grace, retired)
        invariant calm ==> NoneDue(retired, now, grace)
      {
        var r := before[i];
        CarryOne(before, i, current, now, grace, retired);
        if r.name !in current {
          if now - r.at >= grace {
            var ok := DeleteRetired(r, now, calm);
            if !ok {
              retired := retired + [r];
            }
          } else {
            retired := retired + [r];
          }
        }
      }
    }

    /** Retires what the stored pointer lists and the new generation does not. */
    method RetireUnused(current: set<Name>, now: nat, carried: seq<Retired>) returns (retired: seq<Retired>)
      requires Valid() && Carried(PrevRetired(pointer), |PrevRetired(pointer)|, current, now, grace, carried)
      ensures RetiresExactly(pointer, current, now, grace, retired)
      ensures NoneDue(carried, now, grace) ==> NoneDue(retired, now, grace)
    {
      var have := PrevFiles(pointer);
      retired := carried;
      assert PrevRetired(pointer)[..|PrevRetired(pointer)|] == PrevRetired(pointer);
      for i := 0 to |have|
        invariant Added(pointer, i, current, now, grace, retired)
        invariant NoneDue(carried, now, grace) ==> NoneDue(retired, now, grace)
      {
        AddOne(pointer, i, current, now, grace, retired);
        if have[i].name !in current {
          retired := retired + [Retired(have[i].name, now)];
        }
      }
      assert have[..|have|] == have;
    }

    /** Everything before the pointer write: uploads, deletions, and the next pointer itself. */
    method Prepare(pub: Publication, local: map<Name, nat>, now: nat, calm: bool)
      returns (result: Result<Pointer, Error>)
      requires Valid() && clock == now && Distinct(pub.files)
      requires forall n :: n in local ==> local[n] == sizeOf(n)
      modifies this`objects
      ensures Valid()
      ensures result.Success? ==>
                IsNext(pointer, pub, local, now, grace, result.value) && Present(objects, result.value.files)
      ensures result.Success? ==> Publishable(pub.files, local)
      ensures calm && Publishable(pub.files, local) ==> result.Success?
      ensures calm && result.Success? ==> NoneDue(result.value.retired, now, grace)
    {
      var uploaded := UploadMissing(pub.files, local, now, calm);
      if uploaded.Failure? {
        return Failure(uploaded.error);
      }
      var files := uploaded.value;
      RefsFit(pub.files, local);
      var carried := DeleteExpired(FileNames(files), now, files, calm);
      var retired := RetireUnused(FileNames(files), now, carried);
      var gen := NextGeneration(pointer);
      var history := History.AppendHistory(PrevHistory(pointer), History.Change(gen, pub.full, pub.changed));
      return Success(Pointer(gen, now, files, retired, history));
    }

    /**
     Uploads what the stored pointer does not have yet, deletes what was retired a grace period ago,
     then writes the pointer. Every exit leaves a bucket that `Valid` describes; success says what the
     new generation lists, retires and records.
     */
    method Publish(pub: Publication, local: map<Name, nat>, now: nat, calm: bool)
      returns (result: Result<Pointer, Error>)
      requires Valid() && clock <= now && Distinct(pub.files)
      requires forall n :: n in local ==> local[n] == sizeOf(n)
      modifies this
      ensures Valid() && clock == now
      ensures result.Success? ==> generations == old(generations) + [result.value]
      ensures result.Success? ==> IsNext(old(pointer), pub, local, now, grace, result.value)
      ensures result.Failure? ==>
                || generations == old(generations)
                || exists p :: generations == old(generations) + [p] && IsNext(old(pointer), pub, local, now, grace, p)
      ensures generations == old(generations) ==> changes == old(changes)
      ensures generations != old(generations) ==>
                && changes == old(changes) + [History.Change(|generations|, pub.full, pub.changed)]
                && pointer.Some? && pointer.value.generation == |generations| == |old(generations)| + 1
                && pointer.value.history == History.Of(changes)
      ensures result.Success? ==> Publishable(pub.files, local)
      ensures calm && Publishable(pub.files, local) ==> result.Success?
      ensures calm && result.Success? ==> NoneDue(result.value.retired, now, grace)
    {
      TimePasses(objects, generations, grace, clock, now, sizeOf);
      clock := now;
      result := Prepare(pub, local, now, calm);
      if result.Success? {
        ghost var change := History.Change(result.value.generation, pub.full, pub.changed);
        result := PutPointer(result.value, change, now, calm);
        StoredIsLast(generations, changes);
      }
    }

    method PutPointer(p: Pointer, ghost change: History.Change, now: nat, calm: bool)
      returns (result: Result<Pointer, Error>)
      requires Valid() && clock == now
      requires Present(objects, p.files) && DistinctFiles(p.files) && forall f :: f in p.files ==> IsSegmentFile(f.name)
      requires p.publishedAt == now && RetiresExactly(pointer, FileNames(p.files), now, grace, p.retired)
      requires p.generation == change.generation == NextGeneration(pointer)
      requires p.history == History.Extend(PrevHistory(pointer), change)
      modifies this`pointer, this`generations, this`changes
      ensures Valid()
      ensures (generations == old(generations) && changes == old(changes))
              || (generations == old(generations) + [p] && changes == old(changes) + [change])
      ensures result.Success? ==> result.value == p && generations == old(generations) + [p]
      ensures result.Failure? ==> result.error == WriteFailed
      ensures calm ==> result.Success?
    {
      PublishKeeps(objects, generations, grace, now, sizeOf, p);
      ChronicleGrows(generations, changes, p, change);
      var applied, seen := Outcome(calm);
      if applied {
        pointer, generations, changes := Some(p), generations + [p], changes + [change];
      }
      return if seen then Success(p) else Failure(WriteFailed);
    }

    /**
     What a follower at some generation has to refresh: exactly the files changed since, unless one of those
     generations was full or the history no longer reaches back to it.
     */
    method ChangesSince(served: nat) returns (answer: History.Answer)
      requires Valid() && pointer.Some?
      ensures answer == History.Since(changes, served)
      ensures answer.Files? ==>
                && served <= |generations| && (forall i :: served <= i < |changes| ==> !changes[i].full)
                && forall id :: id in answer.ids <==> exists i :: served <= i < |changes| && id in changes[i].changed
      ensures answer.Unknown? <==> served < |generations| && !History.CanStart(changes, served)
      ensures served + 1 == |generations| ==> !answer.Unknown?
    {
      answer := History.ChangesSince(pointer.value.generation, pointer.value.history, served);
      StoredHistoryIs(generations, changes, served);
      History.AnswerDependsOnChanges(changes, served);
      if answer.Files? {
        forall id ensures id in answer.ids <==> exists i :: served <= i < |changes| && id in changes[i].changed {
          History.SinceIsExact(changes, served, id);
        }
      }
    }

    /** The files the stored pointer lists or retires. */
    function Known(): set<Name>
      reads this
    {
      if pointer.None? then {} else FileNames(pointer.value.files) + RetiredNames(pointer.value.retired)
    }

    /**
     Deletes segment files that the pointer neither lists nor retires and that are older than the grace
     period. After a sweep that ran to its end every segment file is known or young.
     */
    method SweepOrphans(now: nat, calm: bool) returns (swept: bool)
      requires Valid() && clock <= now && pointer.Some?
      modifies this`objects, this`clock
      ensures Valid() && clock == now
      ensures forall n :: n in objects ==> n in old(objects) && objects[n] == old(objects)[n]
      ensures forall n :: n in old(objects) && n !in objects ==>
                IsSegmentFile(n) && n !in Known() && now - old(objects)[n].modified >= grace
      ensures calm ==> swept
      ensures swept ==> forall n :: n in objects && IsSegmentFile(n) ==>
                n in Known() || now - objects[n].modified < grace
    {
      TimePasses(objects, generations, grace, clock, now, sizeOf);
      clock := now;
      var stopped := Strikes(calm);
      if stopped {
        return false;
      }
      var listed := objects.Keys;
      while listed != {}
        invariant Valid() && clock == now && listed <= old(objects).Keys
        invariant forall n :: n in objects ==> n in old(objects) && objects[n] == old(objects)[n]
        invariant forall n :: n in old(objects) && n !in objects ==>
                    IsSegmentFile(n) && n !in Known() && now - old(objects)[n].modified >= grace
        invariant forall n :: n in objects && IsSegmentFile(n) && n !in listed ==>
                    n in Known() || now - objects[n].modified < grace
      {
        var n :| n in listed;
        listed := listed - {n};
        if n !in Known() && IsSegmentFile(n) && n in objects && now - objects[n].modified >= grace {
          DeleteOrphanKeeps(objects, generations, grace, now, sizeOf, n);
          var applied, seen := Outcome(calm);
          if applied {
            objects := objects - {n};
          }
          if !seen {
            return false;
          }
        }
      }
      return true;
    }
  }
}
