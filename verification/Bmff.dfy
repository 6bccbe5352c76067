/**
 The sanitizer for ISO base media files (MP4, QuickTime): it drops metadata boxes at every level
 it descends into and re-encodes the containers around them. Box layout is that of section 4.2 of
 ISO/IEC 14496-12: a 32-bit size, a four-character type, an optional 64-bit size, the payload.
 The byte walker `SanitizeBoxes` is proved to be serialize . filter . parse on box trees.
 */
module Bmff {
  import opened Bytes
  import opened Wrappers

  datatype Error = TooDeep | TruncatedHeader | TruncatedLargeHeader | InvalidSize

  const MAX_DEPTH: nat := 16

  /** How a box states its size; `Overlong` is what writeBMFFBox emits past 2^32 - 1 bytes. */
  datatype Form = Short | Large | ToEnd | Overlong

  datatype Box =
    | Leaf(form: Form, kind: nat, payload: seq<Byte>)
    | Node(form: Form, kind: nat, children: seq<Box>)

  predicate IsMetadata(kind: nat, payload: seq<Byte>) {
    || kind == 0x75647461 // udta
    || kind == 0x6d657461 // meta
    || kind == 0x696c7374 // ilst
    || kind == 0x6b657973 // keys
    || kind == 0x45786966 // Exif
    || kind == 0x584d505f // XMP_
    || kind == 0xa9646179 // (c)day
    || kind == 0xa96d6f64 // (c)mod
    || kind == 0xa978797a // (c)xyz
    || (kind == 0x75756964 // uuid
        && (ContainsFold(payload, Ascii("xmp")) || ContainsFold(payload, Ascii("exif"))))
  }

  predicate IsContainer(kind: nat) {
    || kind == 0x6d6f6f76 // moov
    || kind == 0x7472616b // trak
    || kind == 0x6d646961 // mdia
    || kind == 0x6d696e66 // minf
    || kind == 0x7374626c // stbl
    || kind == 0x65647473 // edts
    || kind == 0x64696e66 // dinf
    || kind == 0x6d6f6f66 // moof
    || kind == 0x74726166 // traf
  }

  /** The word in the payload, in capital or small letters. */
  ghost predicate Mentions(payload: seq<Byte>, word: string) {
    exists i :: 0 <= i <= |payload| - |word| && SpelledAt(payload, word, i)
  }

  ghost predicate SpelledAt(payload: seq<Byte>, word: string, i: int)
    requires 0 <= i <= |payload| - |word|
  {
    forall k :: 0 <= k < |word| ==> payload[i + k] == word[k] as int || payload[i + k] == word[k] as int - 32
  }

  lemma WordIsMentioned(payload: seq<Byte>, word: string)
    requires forall k :: 0 <= k < |word| ==> 'a' <= word[k] <= 'z'
    ensures ContainsFold(payload, Ascii(word)) <==> Mentions(payload, word)
  {
    forall i | 0 <= i <= |payload| - |word| ensures WordAt(payload, Ascii(word), i) <==> SpelledAt(payload, word, i) {
      forall k | 0 <= k < |word|
        ensures LowerByte(payload[i + k]) == Ascii(word)[k] <==>
                  payload[i + k] == word[k] as int || payload[i + k] == word[k] as int - 32
      {
      }
    }
    if i :| 0 <= i <= |payload| && WordAt(payload, Ascii(word), i) {
      assert SpelledAt(payload, word, i);
    }
    if i :| 0 <= i <= |payload| - |word| && SpelledAt(payload, word, i) {
      assert WordAt(payload, Ascii(word), i);
    }
  }

  /** The types of metadata boxes by their four characters; a uuid box is one if it names XMP or Exif. */
  lemma MetadataTypes(t: seq<Byte>, payload: seq<Byte>)
    requires |t| == 4
    ensures IsMetadata(BE32(t), payload) <==>
              || t == Ascii("udta") || t == Ascii("meta") || t == Ascii("ilst") || t == Ascii("keys")
              || t == Ascii("Exif") || t == Ascii("XMP_")
              || t == Ascii("\U{A9}day") || t == Ascii("\U{A9}mod") || t == Ascii("\U{A9}xyz")
              || (t == Ascii("uuid") && (Mentions(payload, "xmp") || Mentions(payload, "exif")))
  {
    WordIsMentioned(payload, "xmp");
    WordIsMentioned(payload, "exif");
    CodeIs(t, 0x75647461, "udta");
    CodeIs(t, 0x6d657461, "meta");
    CodeIs(t, 0x696c7374, "ilst");
    CodeIs(t, 0x6b657973, "keys");
    CodeIs(t, 0x45786966, "Exif");
    CodeIs(t, 0x584d505f, "XMP_");
    CodeIs(t, 0xa9646179, "\U{A9}day");
    CodeIs(t, 0xa96d6f64, "\U{A9}mod");
    CodeIs(t, 0xa978797a, "\U{A9}xyz");
    CodeIs(t, 0x75756964, "uuid");
  }

  lemma ContainerTypes(t: seq<Byte>)
    requires |t| == 4
    ensures IsContainer(BE32(t)) <==>
              || t == Ascii("moov") || t == Ascii("trak") || t == Ascii("mdia") || t == Ascii("minf")
              || t == Ascii("stbl") || t == Ascii("edts") || t == Ascii("dinf") || t == Ascii("moof")
              || t == Ascii("traf")
  {
    CodeIs(t, 0x6d6f6f76, "moov");
    CodeIs(t, 0x7472616b, "trak");
    CodeIs(t, 0x6d646961, "mdia");
    CodeIs(t, 0x6d696e66, "minf");
    CodeIs(t, 0x7374626c, "stbl");
    CodeIs(t, 0x65647473, "edts");
    CodeIs(t, 0x64696e66, "dinf");
    CodeIs(t, 0x6d6f6f66, "moof");
    CodeIs(t, 0x74726166, "traf");
  }

  // ---------------------------------------------------------------- box trees and their bytes

  datatype Head = Head(form: Form, kind: nat, headerSize: nat, size: nat)

  /** The header of the box that starts `data`, with its declared size checked against what is left. */
  function ReadHead(data: seq<Byte>): (r: Result<Head, Error>)
    ensures r.Success? ==> 8 <= r.value.headerSize <= r.value.size <= |data|
    ensures r.Success? ==> r.value.headerSize <= 16
  {
    if |data| < 8 then Failure(TruncatedHeader)
    else
      var declared := BE32(data[..4]);
      var kind := BE32(data[4..8]);
      if declared == 1 && |data| < 16 then Failure(TruncatedLargeHeader)
      else
        var head :=
          if declared == 1 then Head(Large, kind, 16, BE64(data[8..16]))
          else if declared == 0 then Head(ToEnd, kind, 8, |data|)
          else Head(Short, kind, 8, declared);
        if head.size < head.headerSize || head.size > |data| then Failure(InvalidSize) else Success(head)
  }

  function Parse(data: seq<Byte>, depth: nat): (r: Result<seq<Box>, Error>)
    decreases |data|
  {
    if depth > MAX_DEPTH then Failure(TooDeep)
    else if data == [] then Success([])
    else
      match ReadHead(data)
      case Failure(e) => Failure(e)
      case Success(h) =>
        match ParseBox(h, data[h.headerSize..h.size], depth)
        case Failure(e) => Failure(e)
        case Success(box) => Prepend([box], Parse(data[h.size..], depth))
  }

  function ParseBox(h: Head, payload: seq<Byte>, depth: nat): (r: Result<Box, Error>)
    decreases |payload| + 1
  {
    if IsMetadata(h.kind, payload) || !IsContainer(h.kind) then Success(Leaf(h.form, h.kind, payload))
    else
      match Parse(payload, depth + 1)
      case Failure(e) => Failure(e)
      case Success(children) => Success(Node(h.form, h.kind, children))
  }

  function Prepend(done: seq<Box>, rest: Result<seq<Box>, Error>): Result<seq<Box>, Error> {
    match rest
    case Failure(e) => Failure(e)
    case Success(boxes) => Success(done + boxes)
  }

  function Frame(form: Form, kind: nat, payload: seq<Byte>): seq<Byte> {
    match form
    case Short => PutBE32(8 + |payload|) + PutBE32(kind) + payload
    case Large => PutBE32(1) + PutBE32(kind) + PutBE64(16 + |payload|) + payload
    case ToEnd => PutBE32(0) + PutBE32(kind) + payload
    case Overlong => PutBE32(1) + PutBE32(kind) + PutBE64(8 + |payload|) + payload
  }

  function Payload(box: Box): seq<Byte>
    decreases box, 0
  {
    match box
    case Leaf(_, _, payload) => payload
    case Node(_, _, children) => EncodeAll(children)
  }

  function Encode(box: Box): seq<Byte>
    decreases box, 1
  {
    Frame(box.form, box.kind, Payload(box))
  }

  function EncodeAll(boxes: seq<Box>): seq<Byte>
    decreases boxes
  {
    if boxes == [] then [] else Encode(boxes[0]) + EncodeAll(boxes[1..])
  }

  // ---------------------------------------------------------------- the filter on trees

  function Filter(boxes: seq<Box>): (r: seq<Box>)
    ensures |r| <= |boxes|
    decreases boxes
  {
    if boxes == [] then []
    else if IsMetadataBox(boxes[0]) then Filter(boxes[1..])
    else [FilterBox(boxes[0])] + Filter(boxes[1..])
  }

  predicate IsMetadataBox(box: Box) {
    IsMetadata(box.kind, Payload(box))
  }

  /** A container whose content changed is written anew; any other box keeps its bytes. */
  function FilterBox(box: Box): Box
    decreases box, 0
  {
    match box
    case Leaf(_, _, _) => box
    case Node(form, kind, children) =>
      var kept := Filter(children);
      if kept == children then box else Node(FormFor(|EncodeAll(kept)|), kind, kept)
  }

  function FormFor(payloadLength: nat): Form {
    if 8 + payloadLength < TWO32 then Short else Overlong
  }

  // ---------------------------------------------------------------- bytes and trees correspond

  predicate Fits(form: Form, payloadLength: nat) {
    match form
    case Short => 8 + payloadLength < TWO32
    case Large => 16 + payloadLength < TWO64
    case ToEnd => true
    case Overlong => false
  }

  /** The trees that `Parse` produces at `depth`. */
  ghost predicate WellFormed(boxes: seq<Box>, depth: nat)
    decreases boxes
  {
    && depth <= MAX_DEPTH
    && (boxes != [] ==>
          && WellFormedBox(boxes[0], depth)
          && (boxes[0].form == ToEnd ==> |boxes| == 1)
          && WellFormed(boxes[1..], depth))
  }

  ghost predicate WellFormedBox(box: Box, depth: nat)
    decreases box, 0
  {
    && box.kind < TWO32
    && Fits(box.form, |Payload(box)|)
    && match box
       case Leaf(_, kind, payload) => IsMetadata(kind, payload) || !IsContainer(kind)
       case Node(_, kind, children) => IsContainer(kind) && WellFormed(children, depth + 1)
  }

  lemma FrameReads(form: Form, kind: nat, payload: seq<Byte>, rest: seq<Byte>)
    requires kind < TWO32 && Fits(form, |payload|) && (form == ToEnd ==> rest == [])
    ensures var data := Frame(form, kind, payload) + rest;
            var headerSize := if form == Large then 16 else 8;
            && ReadHead(data) == Success(Head(form, kind, headerSize, headerSize + |payload|))
            && data[headerSize..headerSize + |payload|] == payload
            && data[headerSize + |payload|..] == rest
            && data != []
  {
    var data := Frame(form, kind, payload) + rest;
    assert data[4..8] == PutBE32(kind);
    match form
    case Short => assert data[..4] == PutBE32(8 + |payload|);
    case Large =>
      assert data[..4] == PutBE32(1);
      assert data[8..16] == PutBE64(16 + |payload|);
    case ToEnd => assert data[..4] == PutBE32(0);
  }

  /** The layout of a box: its own length, or 1 and its length after the type, or 0; its type; its payload. */
  lemma BoxLayout(box: Box)
    requires box.kind < TWO32 && Fits(box.form, |Payload(box)|)
    ensures var bytes := Encode(box);
            && |bytes| == |Payload(box)| + (if box.form == Large then 16 else 8)
            && BE32(bytes[4..8]) == box.kind
            && bytes[|bytes| - |Payload(box)|..] == Payload(box)
            && match box.form
               case Short => BE32(bytes[..4]) == |bytes|
               case Large => bytes[..4] == [0, 0, 0, 1] && BE64(bytes[8..16]) == |bytes|
               case _ => bytes[..4] == [0, 0, 0, 0]
  {
    var payload := Payload(box);
    var bytes := Frame(box.form, box.kind, payload);
    assert bytes[4..8] == PutBE32(box.kind);
    match box.form
    case Short => assert bytes[..4] == PutBE32(8 + |payload|);
    case Large => assert bytes[..4] == PutBE32(1) && bytes[8..16] == PutBE64(16 + |payload|);
    case ToEnd => assert bytes[..4] == PutBE32(0);
  }

  lemma Rejoins(data: seq<Byte>, n: nat)
    requires 8 <= n <= |data|
    ensures data[..4] + data[4..8] + data[8..n] == data[..n]
    ensures n >= 16 ==> data[..4] + data[4..8] + data[8..16] + data[16..n] == data[..n]
    ensures data[..n] + data[n..] == data
  {
  }

  lemma HeadFrames(data: seq<Byte>)
    requires ReadHead(data).Success?
    ensures var h := ReadHead(data).value;
            && h.kind < TWO32
            && Fits(h.form, h.size - h.headerSize)
            && (h.form == ToEnd ==> h.size == |data|)
            && Frame(h.form, h.kind, data[h.headerSize..h.size]) + data[h.size..] == data
  {
    var h := ReadHead(data).value;
    PutBE32Inverse(data[..4]);
    PutBE32Inverse(data[4..8]);
    if h.form == Large {
      PutBE64Inverse(data[8..16]);
    }
    Rejoins(data, h.size);
    assert Frame(h.form, h.kind, data[h.headerSize..h.size]) == data[..h.size];
  }

  /** The parse of a non-empty accepted input: its first box, then the rest. */
  lemma ParseSplits(data: seq<Byte>, depth: nat) returns (h: Head, box: Box, rest: seq<Box>)
    requires data != [] && Parse(data, depth).Success?
    ensures ReadHead(data) == Success(h) && depth <= MAX_DEPTH
    ensures ParseBox(h, data[h.headerSize..h.size], depth) == Success(box)
    ensures Parse(data[h.size..], depth) == Success(rest)
    ensures Parse(data, depth) == Success([box] + rest)
  {
    h := ReadHead(data).value;
    box := ParseBox(h, data[h.headerSize..h.size], depth).value;
    rest := Parse(data[h.size..], depth).value;
  }

  /** Parsing loses nothing: the boxes of an accepted input encode to that input. */
  lemma {:induction false} ParseEncodes(data: seq<Byte>, depth: nat)
    requires Parse(data, depth).Success?
    ensures EncodeAll(Parse(data, depth).value) == data
    ensures WellFormed(Parse(data, depth).value, depth)
    decreases |data|, 1
  {
    if data != [] {
      var h, box, rest := ParseSplits(data, depth);
      HeadFrames(data);
      ParseBoxEncodes(h, data[h.headerSize..h.size], depth);
      ParseEncodes(data[h.size..], depth);
      assert ([box] + rest)[1..] == rest;
    }
  }

  lemma {:induction false} ParseBoxEncodes(h: Head, payload: seq<Byte>, depth: nat)
    requires ParseBox(h, payload, depth).Success? && h.kind < TWO32 && Fits(h.form, |payload|)
    ensures var box := ParseBox(h, payload, depth).value;
            WellFormedBox(box, depth) && Payload(box) == payload && box.form == h.form && box.kind == h.kind
    decreases |payload|, 2
  {
    if ParseBox(h, payload, depth).value.Node? {
      ParseEncodes(payload, depth + 1);
    }
  }

  lemma {:induction false} EncodeParses(boxes: seq<Box>, depth: nat)
    requires WellFormed(boxes, depth)
    ensures Parse(EncodeAll(boxes), depth) == Success(boxes)
    decreases boxes, 1
  {
    if boxes != [] {
      EncodeParses(boxes[1..], depth);
      ParseJoins(boxes[0], EncodeAll(boxes[1..]), depth);
      assert boxes == [boxes[0]] + boxes[1..];
    }
  }

  lemma {:induction false} ParseJoins(box: Box, rest: seq<Byte>, depth: nat)
    requires depth <= MAX_DEPTH && WellFormedBox(box, depth) && (box.form == ToEnd ==> rest == [])
    ensures Parse(Encode(box) + rest, depth) == Prepend([box], Parse(rest, depth))
    decreases box, 1
  {
    var data := Encode(box) + rest;
    FrameReads(box.form, box.kind, Payload(box), rest);
    var h := ReadHead(data).value;
    EncodeBoxParses(h, box, depth);
    assert ParseBox(h, data[h.headerSize..h.size], depth) == Success(box);
    assert data[h.size..] == rest;
  }

  lemma {:induction false} EncodeBoxParses(h: Head, box: Box, depth: nat)
    requires WellFormedBox(box, depth) && h.form == box.form && h.kind == box.kind
    ensures ParseBox(h, Payload(box), depth) == Success(box)
    decreases box, 0
  {
    if box.Node? {
      EncodeParses(box.children, depth + 1);
      ContainersAreNotMetadata(box.kind, Payload(box));
    }
  }

  lemma ContainersAreNotMetadata(kind: nat, payload: seq<Byte>)
    ensures IsContainer(kind) ==> !IsMetadata(kind, payload)
  {
  }

  // ---------------------------------------------------------------- what the filter guarantees

  ghost predicate NoMetadata(boxes: seq<Box>)
    decreases boxes
  {
    boxes != [] ==>
      && !IsMetadataBox(boxes[0])
      && (boxes[0].Node? ==> NoMetadata(boxes[0].children))
      && NoMetadata(boxes[1..])
  }

  lemma {:induction false} FilterRemovesMetadata(boxes: seq<Box>, depth: nat)
    requires WellFormed(boxes, depth)
    ensures NoMetadata(Filter(boxes))
    decreases boxes
  {
    if boxes != [] {
      FilterRemovesMetadata(boxes[1..], depth);
      if boxes[0].Node? {
        FilterRemovesMetadata(boxes[0].children, depth + 1);
        ContainersAreNotMetadata(boxes[0].kind, Payload(FilterBox(boxes[0])));
      }
      if !IsMetadataBox(boxes[0]) {
        assert Filter(boxes)[1..] == Filter(boxes[1..]);
      }
    }
  }

  lemma {:induction false} FilterFixesClean(boxes: seq<Box>)
    requires NoMetadata(boxes)
    ensures Filter(boxes) == boxes
    decreases boxes
  {
    if boxes != [] {
      FilterFixesClean(boxes[1..]);
      if boxes[0].Node? {
        FilterFixesClean(boxes[0].children);
      }
    }
  }

  /** What a tree holds, whatever form its sizes are written in. */
  datatype Content = Opaque(kind: nat, payload: seq<Byte>) | Group(kind: nat, children: seq<Content>)

  function View(boxes: seq<Box>): (r: seq<Content>)
    decreases boxes
  {
    if boxes == [] then [] else [ViewBox(boxes[0])] + View(boxes[1..])
  }

  function ViewBox(box: Box): Content
    decreases box, 0
  {
    match box
    case Leaf(_, kind, payload) => Opaque(kind, payload)
    case Node(_, kind, children) => Group(kind, View(children))
  }

  /** The reference: a tree without its metadata boxes, all else in place and in order. */
  function Prune(contents: seq<Content>): seq<Content>
    decreases contents
  {
    if contents == [] then []
    else
      var rest := Prune(contents[1..]);
      match contents[0]
      case Opaque(kind, payload) => if IsMetadata(kind, payload) then rest else [contents[0]] + rest
      case Group(kind, children) => [Group(kind, Prune(children))] + rest
  }

  lemma {:induction false} FilterPrunes(boxes: seq<Box>, depth: nat)
    requires WellFormed(boxes, depth)
    ensures View(Filter(boxes)) == Prune(View(boxes))
    decreases boxes
  {
    if boxes != [] {
      var box := boxes[0];
      FilterPrunes(boxes[1..], depth);
      assert View(boxes)[1..] == View(boxes[1..]);
      if box.Node? {
        FilterPrunes(box.children, depth + 1);
        ContainersAreNotMetadata(box.kind, Payload(box));
      }
      if !IsMetadataBox(box) {
        assert Filter(boxes)[1..] == Filter(boxes[1..]);
      }
    }
  }

  // ---------------------------------------------------------------- the byte walker

  datatype Sanitized = Sanitized(out: seq<Byte>, changed: bool)

  function Contribution(box: Box): Sanitized {
    if IsMetadataBox(box) then Sanitized([], true)
    else Sanitized(Encode(FilterBox(box)), FilterBox(box) != box)
  }

  function Reference(data: seq<Byte>, depth: nat): Result<Sanitized, Error> {
    match Parse(data, depth)
    case Failure(e) => Failure(e)
    case Success(boxes) => Success(Sanitized(EncodeAll(Filter(boxes)), Filter(boxes) != boxes))
  }

  function Then(s: Sanitized, r: Result<Sanitized, Error>): Result<Sanitized, Error> {
    match r
    case Failure(e) => Failure(e)
    case Success(t) => Success(Sanitized(s.out + t.out, s.changed || t.changed))
  }

  lemma ThenUnits(s: Sanitized, r: Result<Sanitized, Error>)
    ensures Then(Sanitized([], false), r) == r
    ensures Then(s, Success(Sanitized([], false))) == Success(s)
  {
    assert s.out + [] == s.out;
    if r.Success? {
      assert [] + r.value.out == r.value.out;
    }
  }

  lemma ThenAssociates(s: Sanitized, t: Sanitized, r: Result<Sanitized, Error>)
    ensures Then(s, Then(t, r)) == Then(Sanitized(s.out + t.out, s.changed || t.changed), r)
  {
    if r.Success? {
      ConcatAssociative(s.out, t.out, r.value.out);
    }
  }

  /** The reference, one box at a time. */
  lemma ReferenceStep(left: seq<Byte>, depth: nat, h: Head)
    requires depth <= MAX_DEPTH && ReadHead(left) == Success(h)
    ensures match ParseBox(h, left[h.headerSize..h.size], depth)
            case Failure(e) => Reference(left, depth) == Failure(e)
            case Success(box) => Reference(left, depth) == Then(Contribution(box), Reference(left[h.size..], depth))
  {
    var parsed, rest := ParseBox(h, left[h.headerSize..h.size], depth), Parse(left[h.size..], depth);
    if parsed.Success? && rest.Success? {
      var box, boxes := parsed.value, [parsed.value] + rest.value;
      assert boxes[1..] == rest.value;
      if IsMetadataBox(box) {
        assert |Filter(rest.value)| < |boxes|;
        assert [] + EncodeAll(Filter(rest.value)) == EncodeAll(Filter(rest.value));
      } else {
        var kept := Filter(boxes);
        assert kept[0] == FilterBox(box) && kept[1..] == Filter(rest.value);
        assert kept == boxes <==> kept[0] == box && kept[1..] == rest.value;
      }
    }
  }

  method WriteBox(kind: nat, payload: seq<Byte>) returns (written: seq<Byte>)
    ensures written == Frame(FormFor(|payload|), kind, payload)
  {
    var size := 8 + |payload|;
    if size < TWO32 {
      return PutBE32(size) + PutBE32(kind) + payload;
    }
    return PutBE32(1) + PutBE32(kind) + PutBE64(size) + payload;
  }

  method SanitizeBoxes(data: seq<Byte>, depth: nat) returns (r: Result<Sanitized, Error>)
    ensures r == Reference(data, depth)
    decreases |data|
  {
    if depth > MAX_DEPTH {
      return Failure(TooDeep);
    }
    var out: seq<Byte>, changed, left := [], false, data;
    ghost var goal := Reference(data, depth);
    ThenUnits(Sanitized(out, changed), goal);
    while left != []
      invariant |left| <= |data| && goal == Then(Sanitized(out, changed), Reference(left, depth))
      decreases |left|
    {
      var head := ReadHead(left);
      if head.Failure? {
        return Failure(head.error);
      }
      var h := head.value;
      ReferenceStep(left, depth, h);
      var kept := SanitizeFirst(left, h, depth);
      if kept.Failure? {
        return Failure(kept.error);
      }
      ThenAssociates(Sanitized(out, changed), kept.value, Reference(left[h.size..], depth));
      out, changed, left := out + kept.value.out, changed || kept.value.changed, left[h.size..];
    }
    ThenUnits(Sanitized(out, changed), Reference([], depth));
    return Success(Sanitized(out, changed));
  }

  lemma LeafContributes(left: seq<Byte>, h: Head, depth: nat)
    requires ReadHead(left) == Success(h)
    requires var payload := left[h.headerSize..h.size]; IsMetadata(h.kind, payload) || !IsContainer(h.kind)
    ensures var payload := left[h.headerSize..h.size];
            && ParseBox(h, payload, depth).Success?
            && Contribution(ParseBox(h, payload, depth).value)
            == if IsMetadata(h.kind, payload) then Sanitized([], true) else Sanitized(left[..h.size], false)
  {
    HeadFrames(left);
    assert left[..h.size] == Frame(h.form, h.kind, left[h.headerSize..h.size]);
  }

  lemma NodeContribution(form: Form, kind: nat, children: seq<Box>, kept: seq<Box>)
    requires IsContainer(kind) && kept == Filter(children)
    ensures Contribution(Node(form, kind, children))
         == if kept != children then Sanitized(Frame(FormFor(|EncodeAll(kept)|), kind, EncodeAll(kept)), true)
            else Sanitized(Frame(form, kind, EncodeAll(children)), false)
  {
    var box := Node(form, kind, children);
    ContainersAreNotMetadata(kind, Payload(box));
    assert Payload(FilterBox(box)) == EncodeAll(Filter(children));
  }

  lemma NodeContributes(left: seq<Byte>, h: Head, depth: nat)
    requires ReadHead(left) == Success(h)
    requires var payload := left[h.headerSize..h.size]; !IsMetadata(h.kind, payload) && IsContainer(h.kind)
    ensures var payload := left[h.headerSize..h.size];
            match Reference(payload, depth + 1)
            case Failure(e) => ParseBox(h, payload, depth) == Failure(e)
            case Success(nested) =>
              && ParseBox(h, payload, depth).Success?
              && Contribution(ParseBox(h, payload, depth).value)
              == if nested.changed then Sanitized(Frame(FormFor(|nested.out|), h.kind, nested.out), true)
                 else Sanitized(left[..h.size], false)
  {
    var payload := left[h.headerSize..h.size];
    HeadFrames(left);
    assert left[..h.size] == Frame(h.form, h.kind, payload);
    var children := Parse(payload, depth + 1);
    if children.Success? {
      ParseEncodes(payload, depth + 1);
      NodeContribution(h.form, h.kind, children.value, Filter(children.value));
    }
  }

  /** What the first box of `left` contributes: nothing, its own bytes, or a rewritten container. */
  method SanitizeFirst(left: seq<Byte>, h: Head, depth: nat) returns (r: Result<Sanitized, Error>)
    requires ReadHead(left) == Success(h)
    ensures match ParseBox(h, left[h.headerSize..h.size], depth)
            case Failure(e) => r == Failure(e)
            case Success(box) => r == Success(Contribution(box))
    decreases |left|, 0
  {
    var payload := left[h.headerSize..h.size];
    if IsMetadata(h.kind, payload) {
      LeafContributes(left, h, depth);
      return Success(Sanitized([], true));
    }
    if !IsContainer(h.kind) {
      LeafContributes(left, h, depth);
      return Success(Sanitized(left[..h.size], false));
    }
    NodeContributes(left, h, depth);
    var nested := SanitizeBoxes(payload, depth + 1);
    if nested.Failure? {
      return Failure(nested.error);
    }
    if nested.value.changed {
      var rewritten := WriteBox(h.kind, nested.value.out);
      return Success(Sanitized(rewritten, true));
    }
    return Success(Sanitized(left[..h.size], false));
  }
}
