/**
 Listings and facet counts: what the index answers is patched with the newest unfolded states, so that
 the answer is about effective states, the overlay over the cache. The index searches the extracted text;
 for a state it has not seen, a text query is looked for in the name and the author.
 */
module Search {
  import opened Wrappers
  import opened Journal
  import opened States

  // ---------------------------------------------------------------- facet paths

  predicate HasPrefix(s: string, prefix: string) {
    |prefix| <= |s| && s[..|prefix|] == prefix
  }

  /** The part before the first slash. */
  function Segment(rest: string): string {
    if rest == "" || rest[0] == '/' then "" else [rest[0]] + Segment(rest[1..])
  }

  /** The direct child of `parent` that a path falls under. */
  function ChildOf(path: string, parent: string): Option<string> {
    if HasPrefix(path, parent + "/") && path != parent + "/"
    then Some(parent + "/" + Segment(path[|parent| + 1..]))
    else None
  }

  lemma {:induction false} SegmentIs(rest: string)
    ensures '/' !in Segment(rest) && HasPrefix(rest, Segment(rest))
    ensures rest == Segment(rest) || HasPrefix(rest, Segment(rest) + "/")
  {
    if rest != "" && rest[0] != '/' {
      var tail, seg := rest[1..], Segment(rest[1..]);
      SegmentIs(tail);
      assert rest == [rest[0]] + tail && Segment(rest) == [rest[0]] + seg;
      assert rest[..|seg| + 1] == [rest[0]] + tail[..|seg|];
      if HasPrefix(tail, seg + "/") {
        assert rest[..|seg| + 2] == [rest[0]] + tail[..|seg| + 1] == [rest[0]] + seg + "/";
      }
    }
  }

  lemma {:induction false} SegmentIsUnique(rest: string, seg: string)
    requires '/' !in seg && (rest == seg || HasPrefix(rest, seg + "/"))
    ensures seg == Segment(rest)
    decreases |rest|
  {
    if seg != "" {
      assert seg == [seg[0]] + seg[1..];
      assert seg[0] in seg && rest[0] == seg[0];
      assert HasPrefix(rest, seg + "/") ==> (seg + "/")[1..] == seg[1..] + "/";
      SegmentIsUnique(rest[1..], seg[1..]);
    }
  }

  /** A path falls under exactly one direct child: the one it is, or lies below. */
  lemma ChildIsDirect(path: string, parent: string, seg: string)
    requires '/' !in seg && HasPrefix(path, parent + "/") && path != parent + "/"
    ensures ChildOf(path, parent) == Some(parent + "/" + seg) <==>
              (path == parent + "/" + seg || HasPrefix(path, parent + "/" + seg + "/"))
  {
    var head, rest := parent + "/", path[|parent| + 1..];
    assert path == head + rest;
    SegmentIs(rest);
    if ChildOf(path, parent) == Some(head + seg) {
      assert (head + Segment(rest))[|head|..] == (head + seg)[|head|..];
      assert Segment(rest) == seg;
      if HasPrefix(rest, seg + "/") {
        assert path[..|head| + |seg| + 1] == head + rest[..|seg| + 1];
      }
    }
    if path == head + seg || HasPrefix(path, head + seg + "/") {
      if path == head + seg {
        assert rest == (head + seg)[|head|..];
      } else {
        assert rest[..|seg| + 1] == path[..|head| + |seg| + 1][|head|..];
        assert (head + seg + "/")[|head|..] == seg + "/";
      }
      SegmentIsUnique(rest, seg);
    }
  }

  /** The parts of a path between its slashes. */
  function Split(path: string): seq<string>
    decreases |path|
  {
    var seg := Segment(path);
    if |seg| < |path| then [seg] + Split(path[|seg| + 1..]) else [seg]
  }

  ghost predicate IsChild(paths: seq<string>, parent: string, child: string) {
    exists p :: p in paths && ChildOf(p, parent) == Some(child)
  }

  ghost predicate NoDuplicates<T>(s: seq<T>) {
    forall i, j :: 0 <= i < j < |s| ==> s[i] != s[j]
  }

  /** The direct children of `parent` the paths fall under, each once. */
  method ChildrenUnder(paths: seq<string>, parent: string) returns (out: seq<string>)
    ensures NoDuplicates(out) && forall c :: c in out <==> IsChild(paths, parent, c)
  {
    out := [];
    for i := 0 to |paths|
      invariant NoDuplicates(out) && forall c :: c in out <==> IsChild(paths[..i], parent, c)
    {
      assert paths[..i + 1] == paths[..i] + [paths[i]];
      var child := ChildOf(paths[i], parent);
      if child.Some? && child.value !in out {
        out := out + [child.value];
      }
    }
    assert paths[..|paths|] == paths;
  }

  // ---------------------------------------------------------------- the filter

  datatype Filter = Filter(query: string, facets: seq<string>, exact: bool)

  function LowerChar(c: char): char {
    if 'A' <= c <= 'Z' then (c as int + 32) as char else c
  }

  function Lower(s: string): string {
    seq(|s|, i requires 0 <= i < |s| => LowerChar(s[i]))
  }

  predicate Contains(s: string, word: string) {
    exists i :: 0 <= i <= |s| && HasPrefix(s[i..], word)
  }

  /** The query is in the name or the author, without regard to case. */
  predicate HasText(query: string, file: File) {
    Contains(Lower(file.name), Lower(query)) || Contains(Lower(file.author), Lower(query))
  }

  /** The same letter, small or capital. */
  predicate SameLetter(c: char, d: char) {
    c == d || ('a' <= c <= 'z' && d as int == c as int - 32) || ('a' <= d <= 'z' && c as int == d as int - 32)
  }

  lemma LowerIsSameLetter(c: char, d: char)
    ensures LowerChar(c) == LowerChar(d) <==> SameLetter(c, d)
  {
  }

  /** The word stands somewhere in the text, letter for letter. */
  ghost predicate Occurs(text: string, word: string) {
    exists i :: 0 <= i <= |text| - |word| && OccursAt(text, word, i)
  }

  ghost predicate OccursAt(text: string, word: string, i: int)
    requires 0 <= i <= |text| - |word|
  {
    forall k :: 0 <= k < |word| ==> SameLetter(text[i + k], word[k])
  }

  lemma LowerOccursAt(text: string, word: string, i: int)
    requires 0 <= i <= |text| - |word|
    ensures HasPrefix(Lower(text)[i..], Lower(word)) <==> OccursAt(text, word, i)
  {
    var a, b := Lower(text)[i..], Lower(word);
    forall k | 0 <= k < |word| ensures a[..|b|][k] == b[k] <==> SameLetter(text[i + k], word[k]) {
      LowerIsSameLetter(text[i + k], word[k]);
    }
  }

  lemma ContainsIsOccurs(text: string, word: string)
    ensures Contains(Lower(text), Lower(word)) <==> Occurs(text, word)
  {
    if i :| 0 <= i <= |text| && HasPrefix(Lower(text)[i..], Lower(word)) {
      LowerOccursAt(text, word, i);
    }
    if i :| 0 <= i <= |text| - |word| && OccursAt(text, word, i) {
      LowerOccursAt(text, word, i);
      assert HasPrefix(Lower(text)[i..], Lower(word));
    }
  }

  ghost predicate HasFacet(paths: seq<string>, want: string, exact: bool) {
    exists p :: p in paths && IsUnder(p, want, exact)
  }

  /** A live file with every wanted facet, at it or, unless exact, below it, and with the query text if there is one. */
  ghost predicate Matching(filter: Filter, file: File) {
    && !file.deleted && (forall want :: want in filter.facets ==> HasFacet(file.paths, want, filter.exact))
    && (filter.query == "" || HasText(filter.query, file))
  }

  predicate IsUnder(path: string, want: string, exact: bool) {
    path == want || (!exact && HasPrefix(path, want + "/"))
  }

  /** Below a first part both paths are compared without it. */
  lemma UnderRest(first: string, path: string, want: string)
    ensures IsUnder(first + "/" + path, first + "/" + want, false) <==> IsUnder(path, want, false)
  {
    var head := first + "/";
    if IsUnder(head + path, head + want, false) {
      assert (head + path)[|head|..] == path && (head + want)[|head|..] == want;
      if HasPrefix(head + path, head + want + "/") {
        assert (head + path)[..|head + want| + 1][|head|..] == want + "/";
        assert path[..|want| + 1] == (head + path)[..|head + want| + 1][|head|..];
      }
    }
    if HasPrefix(path, want + "/") {
      assert (head + path)[..|head| + |want| + 1] == head + path[..|want| + 1] == head + want + "/";
    }
  }

  /** What is below a path starts with the same part. */
  lemma UnderStarts(path: string, want: string)
    requires IsUnder(path, want, false)
    ensures Segment(path) == Segment(want)
    ensures |Segment(want)| < |want| ==> |Segment(path)| < |path|
  {
    SegmentIs(want);
    var w := Segment(want);
    if path != want {
      assert path[..|want| + 1] == want + "/";
      assert HasPrefix(path, w + "/") by {
        assert path[..|w| + 1] == (want + "/")[..|w| + 1];
      }
      SegmentIsUnique(path, w);
    }
  }

  lemma SplitHas(path: string)
    ensures |Segment(path)| <= |path| && Split(path) != [] && Split(path)[0] == Segment(path)
    ensures Split(path)[1..] == if |Segment(path)| < |path| then Split(path[|Segment(path)| + 1..]) else []
  {
    SegmentIs(path);
  }

  lemma PrefixStep<T>(a: seq<T>, b: seq<T>)
    requires a != [] && b != []
    ensures a <= b <==> a[0] == b[0] && a[1..] <= b[1..]
  {
    if a[0] == b[0] && a[1..] <= b[1..] {
      assert a == [a[0]] + a[1..] && b == [b[0]] + b[1..];
    }
  }

  lemma EmptyIsPrefix<T>(a: seq<T>, b: seq<T>)
    ensures a == [] ==> a <= b
    ensures a != [] && b == [] ==> !(a <= b)
  {
  }

  /** Whether the parts of one path start the other's is decided by the first part and by the rest. */
  lemma PartsStart(path: string, want: string)
    ensures Split(want) <= Split(path) <==>
              Segment(want) == Segment(path) && Split(want)[1..] <= Split(path)[1..]
  {
    SplitHas(path);
    SplitHas(want);
    PrefixStep(Split(want), Split(path));
  }

  lemma OnePartIsUnder(path: string, want: string)
    requires |Segment(want)| == |want| && Segment(path) == Segment(want)
    ensures IsUnder(path, want, false) && Split(want)[1..] <= Split(path)[1..]
  {
    SegmentIs(path);
    SegmentIs(want);
    SplitHas(want);
    EmptyIsPrefix(Split(want)[1..], Split(path)[1..]);
  }

  lemma ShorterIsNotUnder(path: string, want: string)
    requires |Segment(want)| < |want| && |Segment(path)| == |path|
    ensures !IsUnder(path, want, false) && !(Split(want)[1..] <= Split(path)[1..])
  {
    SplitHas(path);
    SplitHas(want);
    SplitHas(want[|Segment(want)| + 1..]);
    EmptyIsPrefix(Split(want)[1..], Split(path)[1..]);
    if IsUnder(path, want, false) {
      UnderStarts(path, want);
    }
  }

  /** A path is below another, or is it, exactly when its parts start with those of the other. */
  lemma {:induction false} UnderIffPartsStart(path: string, want: string)
    ensures IsUnder(path, want, false) <==> Split(want) <= Split(path)
    decreases |want|
  {
    SplitHas(path);
    SplitHas(want);
    PartsStart(path, want);
    var w := Segment(want);
    if Segment(path) != w {
      if IsUnder(path, want, false) {
        UnderStarts(path, want);
      }
    } else if |w| == |want| {
      OnePartIsUnder(path, want);
    } else if |w| == |path| {
      ShorterIsNotUnder(path, want);
    } else {
      FirstAndRest(path);
      FirstAndRest(want);
      UnderRest(w, path[|w| + 1..], want[|w| + 1..]);
      UnderIffPartsStart(path[|w| + 1..], want[|w| + 1..]);
    }
  }

  lemma FirstAndRest(path: string)
    requires |Segment(path)| < |path|
    ensures path == Segment(path) + "/" + path[|Segment(path)| + 1..]
  {
    SegmentIs(path);
  }

  method FindFacet(paths: seq<string>, want: string, exact: bool) returns (found: bool)
    ensures found <==> HasFacet(paths, want, exact)
  {
    for j := 0 to |paths|
      invariant forall i :: 0 <= i < j ==> !IsUnder(paths[i], want, exact)
    {
      if IsUnder(paths[j], want, exact) {
        return true;
      }
    }
    return false;
  }

  /** What matches, said of the letters of the texts and the parts of the paths. */
  lemma MatchingIs(filter: Filter, file: File)
    ensures Matching(filter, file) <==>
              && !file.deleted
              && (filter.query == "" || Occurs(file.name, filter.query) || Occurs(file.author, filter.query))
              && forall want :: want in filter.facets ==>
                                  exists p :: p in file.paths
                                           && if filter.exact then p == want else Split(want) <= Split(p)
  {
    ContainsIsOccurs(file.name, filter.query);
    ContainsIsOccurs(file.author, filter.query);
    forall want
      ensures HasFacet(file.paths, want, filter.exact) <==>
                exists p :: p in file.paths && if filter.exact then p == want else Split(want) <= Split(p)
    {
      forall p ensures IsUnder(p, want, filter.exact) <==> if filter.exact then p == want else Split(want) <= Split(p) {
        UnderIffPartsStart(p, want);
      }
    }
  }

  method Matches(filter: Filter, file: File) returns (yes: bool)
    ensures yes <==> Matching(filter, file)
    ensures yes <==>
              && !file.deleted
              && (filter.query == "" || Occurs(file.name, filter.query) || Occurs(file.author, filter.query))
              && forall want :: want in filter.facets ==>
                                  exists p :: p in file.paths
                                           && if filter.exact then p == want else Split(want) <= Split(p)
  {
    MatchingIs(filter, file);
    if file.deleted {
      return false;
    }
    for i := 0 to |filter.facets|
      invariant forall j :: 0 <= j < i ==> HasFacet(file.paths, filter.facets[j], filter.exact)
    {
      var found := FindFacet(file.paths, filter.facets[i], filter.exact);
      if !found {
        assert filter.facets[i] in filter.facets;
        return false;
      }
    }
    return filter.query == "" || HasText(filter.query, file);
  }

  // ---------------------------------------------------------------- effective states

  /** The overlay over the cache. */
  function Effective(overlay: Files, cache: Files): Files {
    map f | f in overlay.Keys + cache.Keys :: if f in overlay then overlay[f] else cache[f]
  }

  /** Of a cache that reaches the last key, under the journal after it, the effective states are the newest ones. */
  lemma EffectiveIsNewest(log: Log, lastKey: Key, cache: Files, f: FileId)
    requires LogOk(log) && Sound(log, cache) && CoversFile(log, lastKey, cache, f)
    ensures Get(Effective(Overlay(log, lastKey), cache), f) == Newest(log, f)
  {
    PatchedIsNewest(log, lastKey, cache, f);
    assert Get(Effective(Overlay(log, lastKey), cache), f) == States.Patched(Overlay(log, lastKey), cache, f);
  }

  ghost function Selected(filter: Filter, files: Files): set<FileId> {
    set f | f in files && Matching(filter, files[f])
  }

  // ---------------------------------------------------------------- listings

  datatype Hit = Hit(file: FileId, state: File, unfolded: bool)

  function Ids(hits: seq<Hit>): seq<FileId> {
    seq(|hits|, i requires 0 <= i < |hits| => hits[i].file)
  }

  ghost predicate HitsOk(hits: seq<Hit>, overlay: Files, cache: Files) {
    forall h :: h in hits ==>
      h.file in Effective(overlay, cache) && h.state == Effective(overlay, cache)[h.file]
        && h.unfolded == (h.file in overlay)
  }

  /** The hits that stay: known, and still matching if the overlay has a newer state. */
  ghost predicate Stays(filter: Filter, overlay: Files, cache: Files, id: FileId) {
    if id in overlay then Matching(filter, overlay[id]) else id in cache && !cache[id].deleted
  }

  method KeepHits(found: seq<FileId>, filter: Filter, overlay: Files, cache: Files)
    returns (hits: seq<Hit>, dropped: nat)
    requires NoDuplicates(found)
    ensures HitsOk(hits, overlay, cache) && NoDuplicates(Ids(hits)) && |hits| + dropped == |found|
    ensures forall id :: id in Ids(hits) <==> id in found && Stays(filter, overlay, cache, id)
  {
    hits, dropped := [], 0;
    for i := 0 to |found|
      invariant HitsOk(hits, overlay, cache) && NoDuplicates(Ids(hits)) && |hits| + dropped == i
      invariant forall id :: id in Ids(hits) <==> id in found[..i] && Stays(filter, overlay, cache, id)
    {
      var id := found[i];
      assert found[..i + 1] == found[..i] + [id];
      assert id !in found[..i];
      if id in overlay {
        var yes := Matches(filter, overlay[id]);
        if yes {
          hits := AddHit(hits, id, overlay[id], true);
        } else {
          dropped := dropped + 1;
        }
      } else if id !in cache || cache[id].deleted {
        dropped := dropped + 1;
      } else {
        hits := AddHit(hits, id, cache[id], false);
      }
    }
    assert found[..|found|] == found;
  }

  function AddHit(hits: seq<Hit>, id: FileId, state: File, unfolded: bool): (more: seq<Hit>)
    ensures |more| == |hits| + 1 && Ids(more) == Ids(hits) + [id]
  {
    hits + [Hit(id, state, unfolded)]
  }

  /** What the overlay adds: with a text query only files that the index has not seen at all. */
  ghost predicate Added(found: seq<FileId>, filter: Filter, overlay: Files, cache: Files, id: FileId) {
    id in overlay && id !in found && Matching(filter, overlay[id]) && (filter.query == "" || id !in cache)
  }

  method AddOverlay(hits: seq<Hit>, found: seq<FileId>, filter: Filter, overlay: Files, cache: Files)
    returns (more: seq<Hit>)
    requires HitsOk(hits, overlay, cache) && NoDuplicates(Ids(hits)) && forall id :: id in Ids(hits) ==> id in found
    ensures HitsOk(more, overlay, cache) && NoDuplicates(Ids(more))
    ensures forall id :: id in Ids(more) <==> id in Ids(hits) || Added(found, filter, overlay, cache, id)
  {
    more := hits;
    var left := overlay.Keys;
    while left != {}
      invariant left <= overlay.Keys && HitsOk(more, overlay, cache) && NoDuplicates(Ids(more))
      invariant forall id :: id in Ids(more) <==>
                  id in Ids(hits) || (id !in left && Added(found, filter, overlay, cache, id))
    {
      var id :| id in left;
      left := left - {id};
      if id !in found {
        var yes := Matches(filter, overlay[id]);
        if yes && (filter.query == "" || id !in cache) {
          more := AddHit(more, id, overlay[id], true);
        }
      }
    }
  }

  /** The index agrees with the cache: its hits are the matching cached files, all on the first page. */
  ghost predicate IndexAgrees(found: seq<FileId>, total: int, filter: Filter, cache: Files) {
    total == |found| && forall f :: f in found <==> f in Selected(filter, cache)
  }

  /**
   A page of a listing, `first` or not. The total the index gave is corrected by what was dropped and
   added. Without a text query, if the index agrees with the cache, it is the effective matching files.
   */
  method List(found: seq<FileId>, total: int, first: bool, filter: Filter, overlay: Files, cache: Files)
    returns (hits: seq<Hit>, newTotal: int)
    requires NoDuplicates(found)
    ensures NoDuplicates(Ids(hits)) && HitsOk(hits, overlay, cache)
    ensures forall id :: id in Ids(hits) <==>
              (id in found && Stays(filter, overlay, cache, id)) || (first && Added(found, filter, overlay, cache, id))
    ensures forall id :: id in found && id !in overlay ==> (id in Ids(hits) <==> id in cache && !cache[id].deleted)
    ensures forall id :: id in found && id in overlay ==> (id in Ids(hits) <==> Matching(filter, overlay[id]))
    ensures forall id :: id !in found && (!first || id !in overlay) ==> id !in Ids(hits)
    ensures first ==> forall id :: id !in found && id in overlay ==>
              (id in Ids(hits) <==> Matching(filter, overlay[id]) && (filter.query != "" ==> id !in cache))
    ensures forall h :: h in hits && h.file in overlay ==> h.state == overlay[h.file] && h.unfolded
    ensures forall h :: h in hits && h.file !in overlay ==>
              h.file in cache && h.state == cache[h.file] && !h.unfolded
    ensures newTotal == total - |found| + |hits|
    ensures first && filter.query == "" && IndexAgrees(found, total, filter, cache) ==>
              && (forall id :: id in Ids(hits) <==> id in Selected(filter, Effective(overlay, cache)))
              && newTotal == |Selected(filter, Effective(overlay, cache))|
  {
    var dropped;
    hits, dropped := KeepHits(found, filter, overlay, cache);
    var kept := |hits|;
    if first {
      hits := AddOverlay(hits, found, filter, overlay, cache);
    }
    newTotal := total - dropped + (|hits| - kept);
    if first && filter.query == "" && IndexAgrees(found, total, filter, cache) {
      ListIsEffective(found, total, filter, overlay, cache);
      DistinctCount(Ids(hits), Selected(filter, Effective(overlay, cache)));
    }
  }

  /** What stays and what the overlay adds are together the effective matching files. */
  lemma ListIsEffective(found: seq<FileId>, total: int, filter: Filter, overlay: Files, cache: Files)
    requires IndexAgrees(found, total, filter, cache) && filter.query == ""
    ensures forall id ::
      (id in found && Stays(filter, overlay, cache, id)) || Added(found, filter, overlay, cache, id)
      <==> id in Selected(filter, Effective(overlay, cache))
  {
  }

  lemma {:induction false} DistinctCount<T>(s: seq<T>, elements: set<T>)
    requires NoDuplicates(s) && forall x :: x in s <==> x in elements
    ensures |s| == |elements|
  {
    if s == [] {
      assert elements == {};
    } else {
      var last, before := s[|s| - 1], s[..|s| - 1];
      assert s == before + [last];
      DistinctCount(before, elements - {last});
    }
  }

  // ---------------------------------------------------------------- facet counts

  type Counts = map<string, int>

  function Count(counts: Counts, child: string): int {
    if child in counts then counts[child] else 0
  }

  /** The matching files under a child. */
  ghost function CountedUnder(filter: Filter, files: Files, parent: string, child: string): set<FileId> {
    set f | f in files && Matching(filter, files[f]) && IsChild(files[f].paths, parent, child)
  }

  /** The counts follow these files as the ones of the index followed the cache. */
  ghost predicate CountsFollow(counts: Counts, filter: Filter, files: Files, parent: string, indexed: Counts,
          cache: Files) {
    forall child :: Count(counts, child) - |CountedUnder(filter, files, parent, child)|
                    == Count(indexed, child) - |CountedUnder(filter, cache, parent, child)|
  }

  /** The counts are those of these files. */
  ghost predicate CountsAre(counts: Counts, filter: Filter, files: Files, parent: string) {
    forall child :: Count(counts, child) == |CountedUnder(filter, files, parent, child)|
  }

  method AddTo(counts: Counts, children: seq<string>, delta: int) returns (out: Counts)
    requires NoDuplicates(children)
    ensures forall c :: Count(out, c) == Count(counts, c) + if c in children then delta else 0
  {
    out := counts;
    for i := 0 to |children|
      invariant forall c :: Count(out, c) == Count(counts, c) + if c in children[..i] then delta else 0
    {
      assert children[..i + 1] == children[..i] + [children[i]];
      assert children[i] !in children[..i];
      out := out[children[i] := Count(out, children[i]) + delta];
    }
    assert children[..|children|] == children;
  }

  /** What one file adds to the count of a child. */
  ghost function Share(filter: Filter, files: Files, f: FileId, parent: string, child: string): int {
    if f in files && Matching(filter, files[f]) && IsChild(files[f].paths, parent, child) then 1 else 0
  }

  lemma WithoutOne<T>(s: set<T>, x: T)
    ensures |s - {x}| == |s| - if x in s then 1 else 0
  {
    if x !in s {
      assert s - {x} == s;
    }
  }

  lemma OthersStay(filter: Filter, files: Files, f: FileId, state: File, parent: string, child: string)
    ensures CountedUnder(filter, files, parent, child) - {f}
              == CountedUnder(filter, files[f := state], parent, child) - {f}
  {
  }

  /** Replacing one file's state changes a count by the difference of its shares. */
  lemma ReplaceOne(filter: Filter, files: Files, f: FileId, state: File, parent: string, child: string)
    ensures |CountedUnder(filter, files[f := state], parent, child)|
            == |CountedUnder(filter, files, parent, child)| - Share(filter, files, f, parent, child)
              + Share(filter, files[f := state], f, parent, child)
  {
    OthersStay(filter, files, f, state, parent, child);
    WithoutOne(CountedUnder(filter, files, parent, child), f);
    WithoutOne(CountedUnder(filter, files[f := state], parent, child), f);
  }

  /** The children the counts change for when a state is counted, or none when it does not match. */
  method ChildrenOf(filter: Filter, state: File, parent: string) returns (children: seq<string>)
    ensures NoDuplicates(children)
    ensures forall c :: c in children <==> Matching(filter, state) && IsChild(state.paths, parent, c)
  {
    var yes := Matches(filter, state);
    if yes {
      children := ChildrenUnder(state.paths, parent);
    } else {
      children := [];
    }
  }

  function Positive(n: int): int {
    if n > 0 then n else 0
  }

  /** A count with the effective states in place of the cached ones. */
  ghost function Patched(indexed: Counts, filter: Filter, overlay: Files, cache: Files, parent: string,
          child: string): int {
    Count(indexed, child) - |CountedUnder(filter, cache, parent, child)|
      + |CountedUnder(filter, Effective(overlay, cache), parent, child)|
  }

  /** The state to subtract is the cached one: no overlay state of this file has been counted yet. */
  method PatchCached(counts: Counts, filter: Filter, ghost files: Files, cache: Files, f: FileId, state: File,
          parent: string, ghost indexed: Counts) returns (out: Counts)
    requires CountsFollow(counts, filter, files, parent, indexed, cache)
    requires (f in files <==> f in cache) && (f in files ==> files[f] == cache[f])
    ensures CountsFollow(out, filter, files[f := state], parent, indexed, cache)
  {
    out := counts;
    if f in cache && !cache[f].deleted {
      var were := ChildrenOf(filter, cache[f], parent);
      out := AddTo(out, were, -1);
    }
    var are := ChildrenOf(filter, state, parent);
    out := AddTo(out, are, 1);
    forall child ensures Count(out, child) - |CountedUnder(filter, files[f := state], parent, child)|
                         == Count(indexed, child) - |CountedUnder(filter, cache, parent, child)| {
      ReplaceOne(filter, files, f, state, parent, child);
    }
  }

  /** The cache with the overlay's states of the files that are not left. */
  ghost predicate PartPatched(files: Files, overlay: Files, cache: Files, left: set<FileId>) {
    && files.Keys == cache.Keys + (overlay.Keys - left)
    && forall f :: f in files ==> files[f] == if f in overlay && f !in left then overlay[f] else cache[f]
  }

  method PatchAll(indexed: Counts, filter: Filter, overlay: Files, cache: Files, parent: string)
    returns (counts: Counts)
    ensures CountsFollow(counts, filter, Effective(overlay, cache), parent, indexed, cache)
  {
    counts := indexed;
    var left := overlay.Keys;
    ghost var files := cache;
    while left != {}
      invariant left <= overlay.Keys && CountsFollow(counts, filter, files, parent, indexed, cache)
      invariant PartPatched(files, overlay, cache, left)
    {
      var f :| f in left;
      counts := PatchCached(counts, filter, files, cache, f, overlay[f], parent, indexed);
      files := files[f := overlay[f]];
      left := left - {f};
    }
    assert files == Effective(overlay, cache);
  }

  /**
   Patches the index's counts with the overlay: each changes by what the effective states count more or
   less than the cached ones, and children without a file are left out. Counts of the cached states become
   a recount over the effective ones.
   */
  method Facets(indexed: Counts, filter: Filter, overlay: Files, cache: Files, parent: string)
    returns (children: Counts)
    ensures forall c :: Count(children, c) == Positive(Patched(indexed, filter, overlay, cache, parent, c))
    ensures forall c :: c in children ==> children[c] > 0
    ensures CountsAre(indexed, filter, cache, parent) ==> CountsAre(children, filter, Effective(overlay, cache), parent)
  {
    var counts := PatchAll(indexed, filter, overlay, cache, parent);
    children := map c | c in counts && counts[c] > 0 :: counts[c];
    forall c ensures Count(children, c) == Positive(Patched(indexed, filter, overlay, cache, parent, c)) {
      assert Count(children, c) == Positive(Count(counts, c));
    }
  }
}
