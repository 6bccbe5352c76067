/**
 When the output of the sanitizer parses back: its rewritten containers have a large form that states
 eight bytes too few, so that contents survive exactly if none is that large.
 */
module BmffOutput {
  import opened Bytes
  import opened Wrappers
  import opened Bmff

  // ---------------------------------------------------------------- re-parsing the output

  predicate NoOverlong(boxes: seq<Box>)
    decreases boxes
  {
    boxes != [] ==>
      && boxes[0].form != Overlong
      && (boxes[0].Node? ==> NoOverlong(boxes[0].children))
      && NoOverlong(boxes[1..])
  }

  lemma {:induction false} FilterWellFormed(boxes: seq<Box>, depth: nat)
    requires WellFormed(boxes, depth) && NoOverlong(Filter(boxes))
    ensures WellFormed(Filter(boxes), depth)
    decreases boxes
  {
    if boxes != [] {
      var kept := Filter(boxes);
      if IsMetadataBox(boxes[0]) {
        FilterWellFormed(boxes[1..], depth);
      } else {
        assert kept[0] == FilterBox(boxes[0]) && kept[1..] == Filter(boxes[1..]);
        FilterWellFormed(boxes[1..], depth);
        if boxes[0].Node? {
          FilterWellFormed(boxes[0].children, depth + 1);
        }
      }
    }
  }

  lemma {:induction false} WellFormedNoOverlong(boxes: seq<Box>, depth: nat)
    requires WellFormed(boxes, depth)
    ensures NoOverlong(boxes)
    decreases boxes
  {
    if boxes != [] {
      WellFormedNoOverlong(boxes[1..], depth);
      if boxes[0].Node? {
        WellFormedNoOverlong(boxes[0].children, depth + 1);
      }
    }
  }

  lemma {:induction false} SmallHasNoOverlong(boxes: seq<Box>, depth: nat)
    requires WellFormed(boxes, depth) && |EncodeAll(Filter(boxes))| < TWO32
    ensures NoOverlong(Filter(boxes))
    decreases boxes
  {
    if boxes != [] {
      var box, kept := boxes[0], Filter(boxes);
      if !IsMetadataBox(box) {
        assert kept[0] == FilterBox(box) && kept[1..] == Filter(boxes[1..]);
      }
      SmallHasNoOverlong(boxes[1..], depth);
      if box.Node? && !IsMetadataBox(box) {
        if Filter(box.children) == box.children {
          WellFormedNoOverlong(box.children, depth + 1);
        } else {
          assert |Encode(kept[0])| >= |EncodeAll(Filter(box.children))|;
          SmallHasNoOverlong(box.children, depth + 1);
        }
      }
    }
  }

  /** Trees as the filter leaves them: well-formed but for containers written in the large form. */
  ghost predicate Writable(boxes: seq<Box>)
    decreases boxes
  {
    boxes != [] ==> WritableBox(boxes[0]) && (boxes[0].form == ToEnd ==> |boxes| == 1) && Writable(boxes[1..])
  }

  ghost predicate WritableBox(box: Box)
    decreases box, 0
  {
    && box.kind < TWO32
    && (box.form == Overlong ==> box.Node? && TWO32 <= 8 + |Payload(box)| < TWO64)
    && (box.form != Overlong ==> Fits(box.form, |Payload(box)|))
    && (box.Node? ==> IsContainer(box.kind) && Writable(box.children))
  }

  /** No slice of the source is longer. */
  const MAX_SLICE: nat := 0x7fff_ffff_ffff_ffff

  lemma EncodeSize(box: Box)
    ensures |Encode(box)| == |Payload(box)| + if box.form == Large || box.form == Overlong then 16 else 8
  {
  }

  lemma FilterEncodes(boxes: seq<Box>)
    requires boxes != []
    ensures EncodeAll(Filter(boxes))
            == (if IsMetadataBox(boxes[0]) then [] else Encode(FilterBox(boxes[0]))) + EncodeAll(Filter(boxes[1..]))
  {
    var kept := Filter(boxes);
    if !IsMetadataBox(boxes[0]) {
      assert kept[0] == FilterBox(boxes[0]) && kept[1..] == Filter(boxes[1..]);
    } else {
      assert [] + EncodeAll(Filter(boxes[1..])) == EncodeAll(Filter(boxes[1..]));
    }
  }

  lemma FilterBoxSize(box: Box)
    requires box.Node? ==> |EncodeAll(Filter(box.children))| <= 2 * |EncodeAll(box.children)|
    requires box.Node? && |EncodeAll(box.children)| < TWO32 ==>
               |EncodeAll(Filter(box.children))| <= |EncodeAll(box.children)|
    ensures |Encode(FilterBox(box))| <= 2 * |Encode(box)|
    ensures |Encode(box)| < TWO32 ==> |Encode(FilterBox(box))| <= |Encode(box)|
  {
    EncodeSize(box);
    EncodeSize(FilterBox(box));
  }

  /** Filtering at most doubles the bytes, and below 4 GiB it adds none. */
  lemma {:induction false} FilterSize(boxes: seq<Box>)
    ensures |EncodeAll(Filter(boxes))| <= 2 * |EncodeAll(boxes)|
    ensures |EncodeAll(boxes)| < TWO32 ==> |EncodeAll(Filter(boxes))| <= |EncodeAll(boxes)|
    decreases boxes
  {
    if boxes != [] {
      var box := boxes[0];
      FilterSize(boxes[1..]);
      if box.Node? {
        FilterSize(box.children);
      }
      FilterBoxSize(box);
      FilterEncodes(boxes);
    }
  }

  lemma {:induction false} FilterBoxWritable(box: Box, depth: nat)
    requires WellFormedBox(box, depth) && |Encode(box)| <= MAX_SLICE
    ensures WritableBox(FilterBox(box)) && (FilterBox(box).form == ToEnd ==> box.form == ToEnd)
    decreases box, 0
  {
    if box.Node? {
      EncodeSize(box);
      FilterWritable(box.children, depth + 1);
      FilterSize(box.children);
      if Filter(box.children) == box.children {
        assert Writable(box.children);
      }
    }
  }

  lemma {:induction false} FilterWritable(boxes: seq<Box>, depth: nat)
    requires WellFormed(boxes, depth) && |EncodeAll(boxes)| <= MAX_SLICE
    ensures Writable(Filter(boxes))
    decreases boxes, 1
  {
    if boxes != [] {
      FilterWritable(boxes[1..], depth);
      FilterBoxWritable(boxes[0], depth);
      if !IsMetadataBox(boxes[0]) {
        var kept := Filter(boxes);
        assert kept[0] == FilterBox(boxes[0]) && kept[1..] == Filter(boxes[1..]);
      }
    }
  }

  /** Bytes without their last eight. */
  function Cut(data: seq<Byte>): seq<Byte>
    requires |data| >= 8
  {
    data[..|data| - 8]
  }

  lemma CutJoin(a: seq<Byte>, b: seq<Byte>)
    requires |b| >= 8
    ensures Cut(a + b) == a + Cut(b)
  {
  }

  /** A header in the large form, whatever size it states. */
  function LargeHeader(kind: nat, size: nat): (header: seq<Byte>)
    ensures |header| == 16
  {
    PutBE32(1) + PutBE32(kind) + PutBE64(size)
  }

  lemma OverlongFrame(kind: nat, payload: seq<Byte>, more: seq<Byte>)
    ensures Frame(Overlong, kind, payload) + more == LargeHeader(kind, 8 + |payload|) + (payload + more)
  {
    ConcatAssociative(LargeHeader(kind, 8 + |payload|), payload, more);
  }

  lemma CutPrefix(payload: seq<Byte>, more: seq<Byte>)
    requires |payload| >= 8 && (more == [] || |more| >= 8)
    ensures Cut(payload) <= Cut(payload + more)
  {
    if more == [] {
      assert payload + more == payload;
    } else {
      CutJoin(payload, more);
    }
  }

  lemma HeaderParts(a: seq<Byte>, b: seq<Byte>, c: seq<Byte>, body: seq<Byte>)
    requires |a| == 4 && |b| == 4 && |c| == 8
    ensures var data := a + b + c + body;
            |data| == 16 + |body| && data[..4] == a && data[4..8] == b && data[8..16] == c && data[16..] == body
  {
  }

  lemma LargeReads(kind: nat, size: nat, body: seq<Byte>)
    requires kind < TWO32 && size < TWO64
    ensures ReadHead(LargeHeader(kind, size) + body)
            == if 16 <= size <= 16 + |body| then Success(Head(Large, kind, 16, size)) else Failure(InvalidSize)
  {
    HeaderParts(PutBE32(1), PutBE32(kind), PutBE64(size), body);
  }

  /** The parser reads an overlong box eight bytes short. */
  lemma OverlongReads(kind: nat, payload: seq<Byte>, body: seq<Byte>)
    requires kind < TWO32 && TWO32 <= 8 + |payload| < TWO64 && Cut(payload) <= body
    ensures var data := LargeHeader(kind, 8 + |payload|) + body;
            && ReadHead(data) == Success(Head(Large, kind, 16, 8 + |payload|))
            && data[16..8 + |payload|] == Cut(payload)
  {
    var header := LargeHeader(kind, 8 + |payload|);
    LargeReads(kind, 8 + |payload|, body);
    assert (header + body)[16..] == body;
    assert (header + body)[16..8 + |payload|] == body[..|payload| - 8];
  }

  lemma ViewSplits(boxes: seq<Box>, box: Box, rest: seq<Box>)
    requires boxes != []
    ensures View([box] + rest) == View(boxes) ==> ViewBox(box) == ViewBox(boxes[0]) && View(rest) == View(boxes[1..])
  {
    assert ([box] + rest)[1..] == rest;
    if View([box] + rest) == View(boxes) {
      assert View([box] + rest)[0] == View(boxes)[0];
      assert View([box] + rest)[1..] == View(boxes)[1..];
    }
  }

  /** The bytes parse, and to these contents. */
  predicate ParsesTo(data: seq<Byte>, depth: nat, boxes: seq<Box>) {
    Parse(data, depth).Success? && View(Parse(data, depth).value) == View(boxes)
  }

  /** The bytes parse as this box, and to its content. */
  predicate BoxParsesTo(h: Head, payload: seq<Byte>, depth: nat, box: Box) {
    ParseBox(h, payload, depth).Success? && ViewBox(ParseBox(h, payload, depth).value) == ViewBox(box)
  }

  /** Bytes that parse to these contents: their first box does, and so does the rest. */
  lemma ParsesInParts(data: seq<Byte>, depth: nat, boxes: seq<Box>)
    requires data != [] && boxes != [] && ParsesTo(data, depth, boxes)
    ensures ReadHead(data).Success?
    ensures var h := ReadHead(data).value;
            BoxParsesTo(h, data[h.headerSize..h.size], depth, boxes[0]) && ParsesTo(data[h.size..], depth, boxes[1..])
  {
    var h, box, rest := ParseSplits(data, depth);
    ViewSplits(boxes, box, rest);
  }

  /** Nothing parses to something, so the contents of no bytes are none. */
  lemma NothingParsesToNothing(depth: nat, boxes: seq<Box>)
    requires ParsesTo([], depth, boxes)
    ensures boxes == []
  {
  }

  /** A box whose bytes were cut by eight does not have its content any more. */
  lemma CutBoxDiffers(h: Head, box: Box, depth: nat)
    requires h.kind == box.kind && |Payload(box)| >= 8
    requires box.Node? ==> IsContainer(box.kind) && !ParsesTo(Cut(Payload(box)), depth + 1, box.children)
    ensures !BoxParsesTo(h, Cut(Payload(box)), depth, box)
  {
    ContainersAreNotMetadata(box.kind, Cut(Payload(box)));
  }

  /** The bytes of a tree without their last eight never parse to the same contents. */
  lemma {:induction false} CutDiffers(boxes: seq<Box>, depth: nat)
    requires Writable(boxes) && |EncodeAll(boxes)| >= 8
    ensures !ParsesTo(Cut(EncodeAll(boxes)), depth, boxes)
    decreases boxes, 2
  {
    if Cut(EncodeAll(boxes)) == [] {
      if ParsesTo([], depth, boxes) {
        NothingParsesToNothing(depth, boxes);
      }
    } else if boxes[0].form == Overlong {
      CutOverlongDiffers(boxes, depth);
    } else if boxes[1..] == [] {
      CutOnlyDiffers(boxes, depth);
    } else {
      CutLaterDiffers(boxes, depth);
    }
  }

  /** An overlong box in front. */
  lemma {:induction false} CutOverlongDiffers(boxes: seq<Box>, depth: nat)
    requires Writable(boxes) && |EncodeAll(boxes)| > 8 && boxes[0].form == Overlong
    ensures !ParsesTo(Cut(EncodeAll(boxes)), depth, boxes)
    decreases boxes, 1
  {
    CutOverlongReads(boxes);
    CutPayloadDiffers(Head(Large, boxes[0].kind, 16, 8 + |Payload(boxes[0])|), boxes[0], depth);
    FirstDiffers(Cut(EncodeAll(boxes)), boxes, depth);
  }

  /** The cut falls on the only box. */
  lemma {:induction false} CutOnlyDiffers(boxes: seq<Box>, depth: nat)
    requires Writable(boxes) && |EncodeAll(boxes)| > 8 && boxes[0].form != Overlong && boxes[1..] == []
    ensures !ParsesTo(Cut(EncodeAll(boxes)), depth, boxes)
    decreases boxes, 1
  {
    var cut := Cut(EncodeAll(boxes));
    CutOnlyReads(boxes);
    if ReadHead(cut).Success? {
      CutPayloadDiffers(Head(ToEnd, boxes[0].kind, 8, |cut|), boxes[0], depth);
    }
    FirstDiffers(cut, boxes, depth);
  }

  /** If the first box is not read with its content, the whole is not. */
  lemma FirstDiffers(data: seq<Byte>, boxes: seq<Box>, depth: nat)
    requires data != [] && boxes != []
    requires ReadHead(data).Success? ==>
               var h := ReadHead(data).value; !BoxParsesTo(h, data[h.headerSize..h.size], depth, boxes[0])
    ensures !ParsesTo(data, depth, boxes)
  {
    if ParsesTo(data, depth, boxes) {
      ParsesInParts(data, depth, boxes);
      assert false;
    }
  }

  /** The cut falls on later boxes. */
  lemma {:induction false} CutLaterDiffers(boxes: seq<Box>, depth: nat)
    requires Writable(boxes) && |EncodeAll(boxes)| > 8 && boxes[0].form != Overlong && boxes[1..] != []
    ensures !ParsesTo(Cut(EncodeAll(boxes)), depth, boxes)
    decreases boxes, 1
  {
    var cut := Cut(EncodeAll(boxes));
    if ParsesTo(cut, depth, boxes) {
      ParsesInParts(cut, depth, boxes);
      CutLaterReads(boxes);
      CutDiffers(boxes[1..], depth);
      assert false;
    }
  }

  lemma {:induction false} CutPayloadDiffers(h: Head, box: Box, depth: nat)
    requires WritableBox(box) && h.kind == box.kind && |Payload(box)| >= 8
    ensures !BoxParsesTo(h, Cut(Payload(box)), depth, box)
    decreases box, 0
  {
    if box.Node? {
      CutDiffers(box.children, depth + 1);
    }
    CutBoxDiffers(h, box, depth);
  }

  lemma HeaderReads(kind: nat, payload: seq<Byte>, more: seq<Byte>, bytes: seq<Byte>)
    requires kind < TWO32 && TWO32 <= 8 + |payload| < TWO64
    requires bytes == Frame(Overlong, kind, payload) + more
    ensures ReadHead(bytes) == Success(Head(Large, kind, 16, 8 + |payload|))
    ensures bytes[16..8 + |payload|] == Cut(payload)
  {
    OverlongFrame(kind, payload, more);
    assert Cut(payload) <= payload + more;
    OverlongReads(kind, payload, payload + more);
  }

  lemma CutHeaderReads(kind: nat, payload: seq<Byte>, more: seq<Byte>, bytes: seq<Byte>)
    requires kind < TWO32 && TWO32 <= 8 + |payload| < TWO64 && (more == [] || |more| >= 8)
    requires bytes == Frame(Overlong, kind, payload) + more
    ensures ReadHead(Cut(bytes)) == Success(Head(Large, kind, 16, 8 + |payload|))
    ensures Cut(bytes)[16..8 + |payload|] == Cut(payload)
  {
    OverlongFrame(kind, payload, more);
    CutPrefix(payload, more);
    CutJoin(LargeHeader(kind, 8 + |payload|), payload + more);
    OverlongReads(kind, payload, Cut(payload + more));
  }

  /** An overlong box is read eight bytes short, whether more boxes follow or not. */
  lemma CutOverlongReads(boxes: seq<Box>)
    requires boxes != [] && WritableBox(boxes[0]) && boxes[0].form == Overlong && |EncodeAll(boxes)| >= 8
    ensures var cut, payload := Cut(EncodeAll(boxes)), Payload(boxes[0]);
            && |payload| >= 8 && ReadHead(cut) == Success(Head(Large, boxes[0].kind, 16, 8 + |payload|))
            && cut[16..8 + |payload|] == Cut(payload)
  {
    var more := EncodeAll(boxes[1..]);
    if boxes[1..] != [] {
      AtLeastEight(boxes[1..]);
    }
    var kind, payload := boxes[0].kind, Payload(boxes[0]);
    var bytes := Frame(Overlong, kind, payload) + more;
    CutHeaderReads(kind, payload, more, bytes);
    assert EncodeAll(boxes) == bytes;
  }

  lemma AtLeastEight(boxes: seq<Box>)
    requires boxes != []
    ensures |EncodeAll(boxes)| >= 8
  {
    EncodeSize(boxes[0]);
  }

  /** With more boxes behind it a box is read as it is, and the cut falls on the others. */
  lemma CutLaterReads(boxes: seq<Box>)
    requires boxes != [] && boxes[1..] != [] && WritableBox(boxes[0]) && boxes[0].form != Overlong
      && boxes[0].form != ToEnd
    requires |EncodeAll(boxes)| >= 8
    ensures |EncodeAll(boxes[1..])| >= 8
    ensures var cut := Cut(EncodeAll(boxes));
            && ReadHead(cut).Success?
            && cut[ReadHead(cut).value.size..] == Cut(EncodeAll(boxes[1..]))
  {
    var box, more := boxes[0], EncodeAll(boxes[1..]);
    AtLeastEight(boxes[1..]);
    assert Cut(EncodeAll(boxes)) == Encode(box) + Cut(more);
    FrameReads(box.form, box.kind, Payload(box), Cut(more));
  }

  lemma CutShort(kind: nat, payload: seq<Byte>, cut: seq<Byte>)
    requires 8 + |payload| < TWO32
    requires cut == Frame(Short, kind, payload)[..|payload|]
    ensures ReadHead(cut).Failure?
  {
    if |cut| >= 8 {
      assert cut[..4] == PutBE32(8 + |payload|);
      assert BE32(cut[..4]) == 8 + |payload| > |cut|;
    }
  }

  lemma CutLarge(kind: nat, payload: seq<Byte>, cut: seq<Byte>)
    requires kind < TWO32 && 16 + |payload| < TWO64
    requires cut == Frame(Large, kind, payload)[..8 + |payload|]
    ensures ReadHead(cut).Failure?
  {
    var header := LargeHeader(kind, 16 + |payload|);
    if |payload| >= 8 {
      CutJoin(header, payload);
      assert cut == header + Cut(payload);
      LargeReads(kind, 16 + |payload|, Cut(payload));
    } else {
      assert cut[..4] == PutBE32(1);
    }
  }

  lemma CutToEnd(kind: nat, payload: seq<Byte>, cut: seq<Byte>)
    requires kind < TWO32 && cut == Frame(ToEnd, kind, payload)[..|payload|]
    ensures ReadHead(cut).Success? ==>
              |payload| >= 8 && ReadHead(cut) == Success(Head(ToEnd, kind, 8, |cut|)) && cut[8..|cut|] == Cut(payload)
  {
    if |cut| >= 8 {
      assert cut[..4] == PutBE32(0) && cut[4..8] == PutBE32(kind);
      assert cut[8..] == Cut(payload);
    }
  }

  /** Only a box that runs to the end still has a valid header, and a payload cut by eight. */
  lemma CutHead(form: Form, kind: nat, payload: seq<Byte>, cut: seq<Byte>)
    requires kind < TWO32 && Fits(form, |payload|)
    requires cut == Frame(form, kind, payload)[..|Frame(form, kind, payload)| - 8]
    ensures ReadHead(cut).Success? ==>
              && form == ToEnd && |payload| >= 8
              && ReadHead(cut) == Success(Head(ToEnd, kind, 8, |cut|)) && cut[8..|cut|] == Cut(payload)
  {
    match form
    case Short => CutShort(kind, payload, cut);
    case Large => CutLarge(kind, payload, cut);
    case ToEnd => CutToEnd(kind, payload, cut);
  }

  lemma CutOnlyReads(boxes: seq<Box>)
    requires boxes != [] && boxes[1..] == [] && WritableBox(boxes[0]) && boxes[0].form != Overlong
    requires |EncodeAll(boxes)| >= 8
    ensures var cut, payload := Cut(EncodeAll(boxes)), Payload(boxes[0]);
            ReadHead(cut).Success? ==>
              && |payload| >= 8 && ReadHead(cut) == Success(Head(ToEnd, boxes[0].kind, 8, |cut|))
              && cut[8..|cut|] == Cut(payload)
  {
    assert EncodeAll(boxes) == Encode(boxes[0]);
    CutHead(boxes[0].form, boxes[0].kind, Payload(boxes[0]), Cut(EncodeAll(boxes)));
  }

  /** An overlong box at the start is read without the end of its payload. */
  lemma OverlongHere(box: Box, more: seq<Byte>, data: seq<Byte>, depth: nat)
    requires WritableBox(box) && box.form == Overlong && data == Encode(box) + more
    ensures ReadHead(data).Success?
    ensures var h := ReadHead(data).value; !BoxParsesTo(h, data[h.headerSize..h.size], depth, box)
  {
    HeaderReads(box.kind, Payload(box), more, data);
    CutPayloadDiffers(Head(Large, box.kind, 16, 8 + |Payload(box)|), box, depth);
  }

  /** Any other box at the start is read as it is. */
  lemma PlainHere(box: Box, more: seq<Byte>)
    requires WritableBox(box) && box.form != Overlong && (box.form == ToEnd ==> more == [])
    ensures var data := Encode(box) + more;
            && ReadHead(data).Success? && ReadHead(data).value.kind == box.kind
            && data[ReadHead(data).value.headerSize..ReadHead(data).value.size] == Payload(box)
            && data[ReadHead(data).value.size..] == more
  {
    FrameReads(box.form, box.kind, Payload(box), more);
  }

  /** The bytes of a tree with an overlong box never parse to the same contents. */
  lemma {:induction false} OverlongDiffers(boxes: seq<Box>, depth: nat)
    requires Writable(boxes) && !NoOverlong(boxes)
    ensures !ParsesTo(EncodeAll(boxes), depth, boxes)
    decreases boxes, 2
  {
    if ParsesTo(EncodeAll(boxes), depth, boxes) {
      var box, more := boxes[0], EncodeAll(boxes[1..]);
      AtLeastEight(boxes);
      ParsesInParts(EncodeAll(boxes), depth, boxes);
      if box.form == Overlong {
        OverlongHere(box, more, EncodeAll(boxes), depth);
      } else {
        PlainHere(box, more);
        if box.Node? && !NoOverlong(box.children) {
          OverlongInside(ReadHead(EncodeAll(boxes)).value, box, depth);
        } else {
          OverlongDiffers(boxes[1..], depth);
        }
      }
      assert false;
    }
  }

  lemma {:induction false} OverlongInside(h: Head, box: Box, depth: nat)
    requires WritableBox(box) && h.kind == box.kind && box.Node? && !NoOverlong(box.children)
    ensures !BoxParsesTo(h, Payload(box), depth, box)
    decreases box, 0
  {
    OverlongDiffers(box.children, depth + 1);
    ContainersAreNotMetadata(box.kind, Payload(box));
  }

  /**
   The output parses back to the filtered contents exactly when no rewritten container has the large form.
   An input below 4 GiB has none, and its output is not longer than it.
   */
  lemma OutputReparses(data: seq<Byte>, depth: nat)
    requires Parse(data, depth).Success? && |data| <= MAX_SLICE
    ensures var kept := Filter(Parse(data, depth).value);
            && (ParsesTo(EncodeAll(kept), depth, kept) <==> NoOverlong(kept))
            && (NoOverlong(kept) ==> Parse(EncodeAll(kept), depth) == Success(kept))
            && (|data| < TWO32 ==> NoOverlong(kept) && |EncodeAll(kept)| <= |data|)
  {
    var boxes := Parse(data, depth).value;
    var kept := Filter(boxes);
    ParseEncodes(data, depth);
    FilterSize(boxes);
    if NoOverlong(kept) {
      FilterWellFormed(boxes, depth);
      EncodeParses(kept, depth);
    } else {
      FilterWritable(boxes, depth);
      if ParsesTo(EncodeAll(kept), depth, kept) {
        OverlongDiffers(kept, depth);
      }
    }
    if |data| < TWO32 {
      SmallHasNoOverlong(boxes, depth);
    }
  }

  /** A movie with an empty metadata box and a payload of 4 GiB or more. */
  function LargeMovie(payload: seq<Byte>): seq<Box> {
    [Node(Large, 0x6d6f6f76, [Leaf(Short, 0x75647461, []), Leaf(Large, 0x6d646174, payload)])]
  }

  lemma OneBox(box: Box, depth: nat)
    requires depth <= MAX_DEPTH && WellFormedBox(box, depth)
    ensures WellFormed([box], depth) && |EncodeAll([box])| == |Encode(box)|
  {
    assert [box][1..] == [];
  }

  lemma TwoBoxes(first: Box, second: Box, depth: nat)
    requires depth <= MAX_DEPTH && WellFormedBox(first, depth) && WellFormedBox(second, depth) && first.form != ToEnd
    ensures WellFormed([first, second], depth) && |EncodeAll([first, second])| == |Encode(first)| + |Encode(second)|
  {
    OneBox(second, depth);
    assert [first, second][1..] == [second];
  }

  lemma LargeMovieIsWellFormed(payload: seq<Byte>)
    requires TWO32 <= |payload| <= MAX_SLICE - 0x100
    ensures WellFormed(LargeMovie(payload), 0) && |EncodeAll(LargeMovie(payload))| <= MAX_SLICE
  {
    var udta, mdat := Leaf(Short, 0x75647461, []), Leaf(Large, 0x6d646174, payload);
    var moov := LargeMovie(payload)[0];
    EncodeSize(udta);
    EncodeSize(mdat);
    EncodeSize(moov);
    TwoBoxes(udta, mdat, 1);
    OneBox(moov, 0);
  }

  lemma LargeMovieIsOverlong(payload: seq<Byte>)
    requires TWO32 <= |payload|
    ensures !NoOverlong(Filter(LargeMovie(payload)))
  {
    var udta, mdat := Leaf(Short, 0x75647461, []), Leaf(Large, 0x6d646174, payload);
    var children, boxes := [udta, mdat], LargeMovie(payload);
    assert children[1..] == [mdat] && [mdat][1..] == [];
    assert IsMetadataBox(udta) && !IsMetadataBox(mdat);
    assert Filter([mdat]) == [mdat];
    assert Filter(children) == [mdat];
    EncodeSize(mdat);
    assert EncodeAll([mdat]) == Encode(mdat);
    ContainersAreNotMetadata(0x6d6f6f76, Payload(boxes[0]));
    assert FilterBox(boxes[0]).form == Overlong;
    assert Filter(boxes)[0] == FilterBox(boxes[0]);
  }

  /** Inputs the sanitizer can receive, whose output does not parse back to the filtered contents. */
  lemma LargeMovieBreaks(payload: seq<Byte>)
    requires TWO32 <= |payload| <= MAX_SLICE - 0x100
    ensures var data := EncodeAll(LargeMovie(payload));
            && |data| <= MAX_SLICE && Parse(data, 0) == Success(LargeMovie(payload))
            && !ParsesTo(EncodeAll(Filter(LargeMovie(payload))), 0, Filter(LargeMovie(payload)))
  {
    LargeMovieIsWellFormed(payload);
    LargeMovieIsOverlong(payload);
    EncodeParses(LargeMovie(payload), 0);
    OutputReparses(EncodeAll(LargeMovie(payload)), 0);
  }

  /** Why the bound is needed: an overlong box states eight bytes fewer than it has. */
  lemma OverlongMisstatesItsSize(kind: nat, payload: seq<Byte>)
    requires kind < TWO32 && TWO32 <= 8 + |payload| < TWO64
    ensures var written := Frame(FormFor(|payload|), kind, payload);
            ReadHead(written) == Success(Head(Large, kind, 16, |written| - 8))
  {
    var written := Frame(Overlong, kind, payload);
    assert written[..4] == PutBE32(1);
    assert written[4..8] == PutBE32(kind);
    assert written[8..16] == PutBE64(8 + |payload|);
  }

  /** The promises of the sanitizer, on the bytes it returns. */
  lemma SanitizeGuarantees(data: seq<Byte>, depth: nat)
    requires Reference(data, depth).Success? && |data| <= MAX_SLICE
    ensures var s := Reference(data, depth).value;
            && (!s.changed ==> s.out == data)
            && (|data| < TWO32 ==> |s.out| <= |data|)
            && (|data| < TWO32 || |s.out| < TWO32 ==>
                  && Parse(s.out, depth).Success?
                  && NoMetadata(Parse(s.out, depth).value)
                  && View(Parse(s.out, depth).value) == Prune(View(Parse(data, depth).value))
                  && Reference(s.out, depth) == Success(Sanitized(s.out, false)))
  {
    var boxes := Parse(data, depth).value;
    ParseEncodes(data, depth);
    OutputReparses(data, depth);
    if |EncodeAll(Filter(boxes))| < TWO32 {
      SmallHasNoOverlong(boxes, depth);
    }
    FilterRemovesMetadata(boxes, depth);
    FilterFixesClean(Filter(boxes));
    FilterPrunes(boxes, depth);
  }
}
