/**
 The JPEG sanitizer: markers and segments (Annex B of ITU-T T.81) up to the first scan. APP1
 segments (Exif, XMP) go, and so do the fill bytes that may stand before a marker.
 */
module Jpeg {
  import opened Bytes
  import opened Wrappers

  datatype Error = BadMarker | BadSegmentLength

  /** A marker segment with `fill` extra 0xff bytes before its marker. */
  datatype Segment = Segment(fill: nat, marker: Byte, data: seq<Byte>)

  /**
   The bytes after SOI: segments, then `fill` 0xff bytes, then the tail, which the sanitizer copies:
   nothing, a scan or end marker with all that follows, or bytes that start no marker.
   */
  datatype Stream = Stream(segments: seq<Segment>, fill: nat, tail: seq<Byte>)

  const FF: Byte := 0xff
  const SOI: seq<Byte> := [0xff, 0xd8]
  const APP1: Byte := 0xe1

  predicate EndsSegments(marker: Byte) {
    marker == 0xd9 || marker == 0xda // EOI, SOS
  }

  predicate StartsWithSoi(body: seq<Byte>)
    requires |body| >= 2
    ensures StartsWithSoi(body) <==> body[..2] == SOI
  {
    body[0] == 0xff && body[1] == 0xd8
  }

  // ---------------------------------------------------------------- streams and their bytes

  function Fill(n: nat): seq<Byte> {
    seq(n, _ => FF)
  }

  function PutBE16(n: nat): (s: seq<Byte>)
    ensures |s| == 2 && (n < 0x1_0000 ==> BE16(s) == n)
  {
    [n / 0x100 % 0x100, n % 0x100]
  }

  function Body(s: Segment): seq<Byte> {
    PutBE16(2 + |s.data|) + s.data
  }

  function Encode(s: Segment): seq<Byte> {
    Fill(s.fill) + ([FF, s.marker] + Body(s))
  }

  function EncodeAll(segments: seq<Segment>): seq<Byte> {
    if segments == [] then [] else Encode(segments[0]) + EncodeAll(segments[1..])
  }

  function EncodeStream(s: Stream): seq<Byte> {
    EncodeAll(s.segments) + (Fill(s.fill) + s.tail)
  }

  /** The number of 0xff bytes that start `rest`. */
  function Run(rest: seq<Byte>): (n: nat)
    ensures n <= |rest|
  {
    if rest == [] || rest[0] != FF then 0 else 1 + Run(rest[1..])
  }

  function ReadBody(rest: seq<Byte>): (r: Result<seq<Byte>, Error>)
    ensures r.Success? ==> |r.value| + 2 <= |rest|
  {
    if |rest| < 2 then Failure(BadSegmentLength)
    else
      var length := BE16(rest[..2]);
      if length < 2 || length > |rest| then Failure(BadSegmentLength)
      else Success(rest[2..length])
  }

  function Parse(rest: seq<Byte>): Result<Stream, Error>
    decreases |rest|
  {
    var n := Run(rest);
    var after := rest[n..];
    if n == 0 || after == [] then Success(Stream([], n, after))
    else if EndsSegments(after[0]) then Success(Stream([], n - 1, [FF] + after))
    else
      match ReadBody(after[1..])
      case Failure(e) => Failure(e)
      case Success(data) => Prepend(Segment(n - 1, after[0], data), Parse(after[1..][|data| + 2..]))
  }

  function Prepend(s: Segment, r: Result<Stream, Error>): Result<Stream, Error> {
    match r
    case Failure(e) => Failure(e)
    case Success(stream) => Success(stream.(segments := [s] + stream.segments))
  }

  ghost predicate WellFormedSegment(s: Segment) {
    s.marker != FF && !EndsSegments(s.marker) && 2 + |s.data| < 0x1_0000
  }

  ghost predicate WellFormedTail(fill: nat, tail: seq<Byte>) {
    || tail == []
    || (fill == 0 && tail[0] != FF)
    || (|tail| >= 2 && tail[0] == FF && EndsSegments(tail[1]))
  }

  ghost predicate WellFormed(s: Stream) {
    && WellFormedTail(s.fill, s.tail)
    && forall k :: 0 <= k < |s.segments| ==> WellFormedSegment(s.segments[k])
  }

  lemma {:induction false} RunSplits(rest: seq<Byte>)
    ensures rest == Fill(Run(rest)) + rest[Run(rest)..]
    ensures rest[Run(rest)..] != [] ==> rest[Run(rest)..][0] != FF
  {
    if rest != [] && rest[0] == FF {
      RunSplits(rest[1..]);
      FillGrows(Run(rest));
      DropDrop(rest, 1, Run(rest[1..]));
      assert rest == [FF] + rest[1..];
      ConcatAssociative([FF], Fill(Run(rest) - 1), rest[Run(rest)..]);
    }
  }

  lemma FillGrows(n: nat)
    requires n > 0
    ensures Fill(n) == [FF] + Fill(n - 1) == Fill(n - 1) + [FF]
  {
  }

  lemma {:induction false} RunOfFill(n: nat, rest: seq<Byte>)
    requires rest == [] || rest[0] != FF
    ensures Run(Fill(n) + rest) == n && (Fill(n) + rest)[n..] == rest
  {
    if n == 0 {
      assert Fill(0) + rest == rest;
    } else {
      RunOfFill(n - 1, rest);
      FillGrows(n);
      assert (Fill(n) + rest)[1..] == Fill(n - 1) + rest;
    }
  }

  lemma BodyReads(s: Segment, rest: seq<Byte>)
    requires WellFormedSegment(s)
    ensures ReadBody(Body(s) + rest) == Success(s.data)
    ensures (Body(s) + rest)[|s.data| + 2..] == rest
  {
    var all := Body(s) + rest;
    assert all[..2] == PutBE16(2 + |s.data|);
    assert all[2..2 + |s.data|] == s.data;
  }

  lemma ReadBodyEncodes(fill: nat, marker: Byte, rest: seq<Byte>)
    requires ReadBody(rest).Success? && marker != FF && !EndsSegments(marker)
    ensures var s := Segment(fill, marker, ReadBody(rest).value);
            WellFormedSegment(s) && Body(s) == rest[..|s.data| + 2] && Body(s) + rest[|s.data| + 2..] == rest
  {
    var a: int, b: int := rest[0], rest[1];
    var s := Segment(fill, marker, ReadBody(rest).value);
    assert PutBE16(2 + |s.data|) == [a, b] == rest[..2];
  }

  /** The parse of an input that starts with a segment: that segment, then the rest. */
  lemma ParseSplits(rest: seq<Byte>) returns (s: Segment, next: seq<Byte>)
    requires Parse(rest).Success?
    requires var n := Run(rest); n > 0 && rest[n..] != [] && !EndsSegments(rest[n..][0])
    ensures |next| < |rest| && Encode(s) + next == rest && WellFormedSegment(s)
    ensures Parse(next).Success? && Parse(rest) == Prepend(s, Parse(next))
  {
    var n := Run(rest);
    var after := rest[n..];
    RunSplits(rest);
    s := Segment(n - 1, after[0], ReadBody(after[1..]).value);
    next := after[1..][|s.data| + 2..];
    ReadBodyEncodes(n - 1, after[0], after[1..]);
    SegmentJoins(s, after, next, rest);
  }

  /** Parsing loses nothing, fill bytes included. */
  lemma {:induction false} ParseEncodes(rest: seq<Byte>)
    requires Parse(rest).Success?
    ensures EncodeStream(Parse(rest).value) == rest && WellFormed(Parse(rest).value)
    decreases |rest|
  {
    var n := Run(rest);
    if n > 0 && rest[n..] != [] && !EndsSegments(rest[n..][0]) {
      var s, next := ParseSplits(rest);
      ParseEncodes(next);
      var stream := Parse(next).value;
      SegmentEncodesBack(rest, s, next, stream);
      assert Parse(rest) == Success(stream.(segments := [s] + stream.segments));
    } else {
      EndEncodesBack(rest);
    }
  }

  /** A segment before bytes that encode a stream. */
  lemma SegmentEncodesBack(rest: seq<Byte>, s: Segment, next: seq<Byte>, stream: Stream)
    requires Encode(s) + next == rest && WellFormedSegment(s)
    requires EncodeStream(stream) == next && WellFormed(stream)
    ensures var joined := stream.(segments := [s] + stream.segments);
            EncodeStream(joined) == rest && WellFormed(joined)
  {
    JoinSegment(s, stream);
  }

  /** What ends the segments is kept as it is. */
  lemma EndEncodesBack(rest: seq<Byte>)
    requires var n := Run(rest); n == 0 || rest[n..] == [] || EndsSegments(rest[n..][0])
    ensures Parse(rest).Success? && EncodeStream(Parse(rest).value) == rest && WellFormed(Parse(rest).value)
  {
    var n, after := Run(rest), rest[Run(rest)..];
    RunSplits(rest);
    EndEncodes(n, after);
    if n == 0 || after == [] {
      assert Parse(rest) == Success(Stream([], n, after));
      assert WellFormedTail(n, after);
    } else {
      var tail := [FF] + after;
      assert Parse(rest) == Success(Stream([], n - 1, tail));
      assert tail[0] == FF && tail[1] == after[0];
    }
  }

  lemma EndEncodes(n: nat, after: seq<Byte>)
    ensures EncodeStream(Stream([], n, after)) == Fill(n) + after
    ensures n > 0 ==> EncodeStream(Stream([], n - 1, [FF] + after)) == Fill(n) + after
  {
    TailEncodes(n, after);
    if n > 0 {
      FillGrows(n);
      ConcatAssociative(Fill(n - 1), [FF], after);
      TailEncodes(n - 1, [FF] + after);
    }
  }

  lemma SegmentJoins(s: Segment, after: seq<Byte>, next: seq<Byte>, rest: seq<Byte>)
    requires after != [] && after[0] == s.marker && after[1..] == Body(s) + next
    requires rest == Fill(s.fill + 1) + after
    ensures Encode(s) + next == rest
  {
    SegmentEncodes(s, next);
    assert after == [s.marker] + (Body(s) + next);
  }

  lemma TailEncodes(fill: nat, tail: seq<Byte>)
    ensures EncodeStream(Stream([], fill, tail)) == Fill(fill) + tail
  {
  }

  lemma SegmentEncodes(s: Segment, next: seq<Byte>)
    ensures Encode(s) + next == Fill(s.fill + 1) + ([s.marker] + (Body(s) + next))
  {
    FillGrows(s.fill + 1);
    assert Encode(s) + next == Fill(s.fill) + [FF] + ([s.marker] + (Body(s) + next));
  }

  lemma JoinSegment(s: Segment, stream: Stream)
    ensures var joined := stream.(segments := [s] + stream.segments);
            EncodeStream(joined) == Encode(s) + EncodeStream(stream)
  {
    assert ([s] + stream.segments)[1..] == stream.segments;
    ConcatAssociative(Encode(s), EncodeAll(stream.segments), Fill(stream.fill) + stream.tail);
  }

  lemma {:induction false} EncodeParses(stream: Stream)
    requires WellFormed(stream)
    ensures Parse(EncodeStream(stream)) == Success(stream)
    decreases |stream.segments|
  {
    if stream.segments == [] {
      TailParses(stream.fill, stream.tail);
      assert EncodeStream(stream) == Fill(stream.fill) + stream.tail;
    } else {
      var s, rest := stream.segments[0], stream.(segments := stream.segments[1..]);
      EncodeParses(rest);
      JoinSegment(s, rest);
      assert stream.segments == [s] + rest.segments;
      SegmentParses(s, EncodeStream(rest));
    }
  }

  lemma TailParses(fill: nat, tail: seq<Byte>)
    requires WellFormedTail(fill, tail)
    ensures Parse(Fill(fill) + tail) == Success(Stream([], fill, tail))
  {
    if tail == [] || tail[0] != FF {
      RunOfFill(fill, tail);
    } else {
      FillGrows(fill + 1);
      assert tail == [FF] + tail[1..];
      ConcatAssociative(Fill(fill), [FF], tail[1..]);
      RunOfFill(fill + 1, tail[1..]);
    }
  }

  lemma SegmentParses(s: Segment, rest: seq<Byte>)
    requires WellFormedSegment(s)
    ensures Parse(Encode(s) + rest) == Prepend(s, Parse(rest))
  {
    var after := [s.marker] + (Body(s) + rest);
    SegmentEncodes(s, rest);
    RunOfFill(s.fill + 1, after);
    assert after[1..] == Body(s) + rest;
    BodyReads(s, rest);
  }

  // ---------------------------------------------------------------- the filter

  function Keep(segments: seq<Segment>): seq<Segment> {
    if segments == [] then []
    else if segments[0].marker == APP1 then Keep(segments[1..])
    else [segments[0].(fill := 0)] + Keep(segments[1..])
  }

  function Filter(s: Stream): Stream {
    Stream(Keep(s.segments), 0, s.tail)
  }

  function Sanitized(rest: seq<Byte>): Result<seq<Byte>, Error> {
    match Parse(rest)
    case Failure(e) => Failure(e)
    case Success(s) => Success(EncodeStream(Filter(s)))
  }

  function Then(out: seq<Byte>, r: Result<seq<Byte>, Error>): Result<seq<Byte>, Error> {
    match r
    case Failure(e) => Failure(e)
    case Success(more) => Success(out + more)
  }

  function Reference(body: seq<Byte>): Result<seq<Byte>, Error> {
    if |body| < 4 || !StartsWithSoi(body) then Failure(BadMarker) else Then(SOI, Sanitized(body[2..]))
  }

  predicate Clean(segments: seq<Segment>) {
    segments == [] || (segments[0].marker != APP1 && Clean(segments[1..]))
  }

  predicate Plain(segments: seq<Segment>) {
    segments == [] || (segments[0].fill == 0 && Plain(segments[1..]))
  }

  lemma {:induction false} KeepCleans(segments: seq<Segment>)
    ensures Clean(Keep(segments)) && Plain(Keep(segments)) && |Keep(segments)| <= |segments|
    ensures Keep(segments) == segments <==> Clean(segments) && Plain(segments)
    ensures (forall k :: 0 <= k < |segments| ==> WellFormedSegment(segments[k])) ==>
              forall k :: 0 <= k < |Keep(segments)| ==> WellFormedSegment(Keep(segments)[k])
  {
    if segments != [] {
      KeepCleans(segments[1..]);
      if segments[0].marker != APP1 {
        assert Keep(segments)[1..] == Keep(segments[1..]);
      }
    }
  }

  /** jpegHasAPP1 after SOI: unlike the sanitizer it takes a fill byte for a marker. */
  predicate ScanFindsApp1(rest: seq<Byte>)
    decreases |rest|
  {
    && |rest| >= 4 && rest[0] == FF && !EndsSegments(rest[1]) && ReadBody(rest[2..]).Success?
    && (rest[1] == APP1 || ScanFindsApp1(rest[2..][|ReadBody(rest[2..]).value| + 2..]))
  }

  predicate HasApp1(body: seq<Byte>) {
    |body| >= 4 && StartsWithSoi(body) && ScanFindsApp1(body[2..])
  }

  lemma ScanStep(s: Segment, rest: seq<Byte>)
    requires WellFormedSegment(s) && s.fill == 0
    ensures ScanFindsApp1(Encode(s) + rest) <==> s.marker == APP1 || ScanFindsApp1(rest)
  {
    var all := Encode(s) + rest;
    assert all == [FF, s.marker] + (Body(s) + rest);
    assert all[2..] == Body(s) + rest;
    BodyReads(s, rest);
  }

  /** The segments before the first one with fill bytes. */
  function PlainPrefix(segments: seq<Segment>): seq<Segment> {
    if segments == [] || segments[0].fill > 0 then [] else [segments[0]] + PlainPrefix(segments[1..])
  }

  /** The stream from its first fill byte on: from a filled segment, or from the end of the segments. */
  function FromFill(s: Stream): Stream
    decreases |s.segments|
  {
    if s.segments == [] || s.segments[0].fill > 0 then s else FromFill(s.(segments := s.segments[1..]))
  }

  predicate HasFill(s: Stream) {
    !Plain(s.segments) || s.fill > 0
  }

  /**
   The scan at a fill byte: it takes the second 0xff for a marker and the two bytes after it for a length,
   and goes on where that length leads.
   */
  predicate Misread(rest: seq<Byte>) {
    && |rest| >= 4 && ReadBody(rest[2..]).Success?
    && ScanFindsApp1(rest[2..][|ReadBody(rest[2..]).value| + 2..])
  }

  /** The misread length of a filled segment: of its marker and the high byte of its length, if it has one fill byte. */
  lemma MisreadLength(s: Segment, rest: seq<Byte>)
    requires WellFormedSegment(s) && s.fill > 0
    ensures var bytes := Encode(s) + rest;
            && |bytes| >= 4 && bytes[..2] == [FF, FF]
            && (s.fill == 1 ==> bytes[2..4] == [s.marker, (2 + |s.data|) / 0x100])
            && (s.fill == 2 ==> bytes[2..4] == [FF, s.marker])
            && (s.fill > 2 ==> bytes[2..4] == [FF, FF])
  {
    var bytes := Encode(s) + rest;
    assert bytes == Fill(s.fill) + ([FF, s.marker] + (Body(s) + rest));
    assert forall i :: 0 <= i < s.fill ==> bytes[i] == FF;
    assert bytes[s.fill] == FF && bytes[s.fill + 1] == s.marker && bytes[s.fill + 2] == Body(s)[0];
  }

  lemma FillIsMisread(rest: seq<Byte>)
    requires |rest| >= 2 && rest[0] == FF && rest[1] == FF
    ensures ScanFindsApp1(rest) <==> Misread(rest)
  {
  }

  lemma TailScan(fill: nat, tail: seq<Byte>)
    requires WellFormedTail(fill, tail)
    ensures ScanFindsApp1(Fill(fill) + tail) <==> fill > 0 && Misread(Fill(fill) + tail)
  {
    var bytes := Fill(fill) + tail;
    if fill == 0 {
      assert bytes == tail;
    } else if |bytes| >= 2 {
      assert bytes[0] == FF && bytes[1] == FF;
      FillIsMisread(bytes);
    }
  }

  /**
   What the predicate finds, for every stream: an APP1 segment among those before the first fill byte, and
   otherwise, if there is a fill byte, whatever the scan meets where the misread length leads.
   */
  lemma {:induction false} ScanFinds(stream: Stream)
    requires WellFormed(stream)
    ensures ScanFindsApp1(EncodeStream(stream)) <==>
              !Clean(PlainPrefix(stream.segments)) || (HasFill(stream) && Misread(EncodeStream(FromFill(stream))))
    decreases |stream.segments|
  {
    if stream.segments == [] {
      TailEncodes(stream.fill, stream.tail);
      TailScan(stream.fill, stream.tail);
    } else {
      var s, rest := stream.segments[0], stream.(segments := stream.segments[1..]);
      assert stream.segments == [s] + rest.segments;
      JoinSegment(s, rest);
      if s.fill > 0 {
        MisreadLength(s, EncodeStream(rest));
        var bytes := EncodeStream(stream);
        assert bytes[0] == bytes[..2][0] && bytes[1] == bytes[..2][1];
        FillIsMisread(bytes);
      } else {
        ScanFinds(rest);
        ScanStep(s, EncodeStream(rest));
        assert PlainPrefix(stream.segments)[1..] == PlainPrefix(rest.segments);
      }
    }
  }

  lemma {:induction false} PlainHasNoFill(segments: seq<Segment>)
    requires Plain(segments)
    ensures PlainPrefix(segments) == segments
  {
    if segments != [] {
      PlainHasNoFill(segments[1..]);
    }
  }

  /** Without fill bytes the predicate is exact. */
  lemma ScanIsExactOnPlain(stream: Stream)
    requires WellFormed(stream) && !HasFill(stream)
    ensures ScanFindsApp1(EncodeStream(stream)) <==> !Clean(stream.segments)
  {
    ScanFinds(stream);
    PlainHasNoFill(stream.segments);
  }

  /** It is right exactly if it meets no fill byte before an APP1 segment, or the misread scan happens to agree. */
  lemma ScanIsRightIff(stream: Stream)
    requires WellFormed(stream)
    ensures (ScanFindsApp1(EncodeStream(stream)) <==> !Clean(stream.segments)) <==>
              || !HasFill(stream) || !Clean(PlainPrefix(stream.segments))
              || (Misread(EncodeStream(FromFill(stream))) <==> !Clean(stream.segments))
  {
    ScanFinds(stream);
    if Clean(stream.segments) {
      PrefixOfClean(stream.segments);
    }
    if !HasFill(stream) {
      PlainHasNoFill(stream.segments);
    }
  }

  lemma {:induction false} PrefixOfClean(segments: seq<Segment>)
    requires Clean(segments)
    ensures Clean(PlainPrefix(segments))
  {
    if segments != [] && segments[0].fill == 0 {
      PrefixOfClean(segments[1..]);
      assert PlainPrefix(segments)[1..] == PlainPrefix(segments[1..]);
    }
  }

  /** With one fill byte before it, an APP1 segment that the sanitizer removes is not found. */
  lemma FillHidesApp1()
    ensures var stream := Stream([Segment(1, APP1, [])], 0, [FF, 0xd9]);
            WellFormed(stream) && !Clean(stream.segments) && !HasApp1(SOI + EncodeStream(stream))
  {
    var s, tail := Segment(1, APP1, []), [FF, 0xd9];
    var end := Stream([], 0, tail);
    var rest := EncodeStream(Stream([s], 0, tail));
    JoinSegment(s, end);
    TailEncodes(0, tail);
    SegmentEncodes(s, EncodeStream(end));
    assert [s] + [] == [s] && rest == Encode(s) + EncodeStream(end);
    assert rest[..4] == [FF, FF, APP1, 0x00] && |rest| == 7;
    assert rest[2..][..2] == rest[2..4];
    assert BE16(rest[2..4]) == 0xe100;
    assert (SOI + rest)[2..] == rest;
  }

  lemma MisreadTo(head: seq<Byte>, target: seq<Byte>)
    requires |head| >= 4 && head[0] == FF && head[1] == FF && BE16(head[2..4]) == |head| - 2 && ScanFindsApp1(target)
    ensures ScanFindsApp1(head + target)
  {
    var rest := head + target;
    assert rest[2..][..2] == head[2..4];
    assert rest[2..][|head| - 2..] == target;
  }

  lemma FilledBytes(data: seq<Byte>, tail: seq<Byte>)
    requires |data| == 258 && WellFormedTail(0, tail)
    ensures EncodeStream(Stream([Segment(1, 0x01, data)], 0, tail)) == [FF, FF, 0x01, 0x01, 0x04] + (data + tail)
  {
    var s, end := Segment(1, 0x01, data), Stream([], 0, tail);
    JoinSegment(s, end);
    TailEncodes(0, tail);
    SegmentEncodes(s, tail);
    assert [s] + [] == [s] && Fill(0) + tail == tail;
    assert PutBE16(260) == [0x01, 0x04] && Fill(2) == [FF, FF];
    ConcatAssociative([0x01, 0x04], data, tail);
    assert Encode(s) + tail == [FF, FF] + ([0x01] + ([0x01, 0x04] + (data + tail)));
  }

  /** And in a file without APP1 segment the misread length can lead to bytes that look like one. */
  lemma FillShowsApp1()
    ensures var stream := Stream([Segment(1, 0x01, seq(254, _ => 0) + [FF, APP1, 0x00, 0x02])], 0, [FF, 0xd9]);
            WellFormed(stream) && Clean(stream.segments) && HasApp1(SOI + EncodeStream(stream))
  {
    var zeros: seq<Byte>, look, tail := seq(254, _ => 0), [FF, APP1, 0x00, 0x02], [FF, 0xd9];
    FilledBytes(zeros + look, tail);
    var rest := [FF, FF, 0x01, 0x01, 0x04] + (zeros + look + tail);
    var head := [FF, FF, 0x01, 0x01, 0x04] + zeros;
    assert rest == head + (look + tail);
    assert head[2..4] == [0x01, 0x01];
    assert (look + tail)[2..][..2] == [0x00, 0x02];
    MisreadTo(head, look + tail);
    assert (SOI + rest)[2..] == rest;
  }

  /** The output of the sanitizer for an accepted file, and its parse. */
  lemma OutputIs(body: seq<Byte>)
    requires Reference(body).Success?
    ensures var stream := Parse(body[2..]).value;
            && body == SOI + EncodeStream(stream) && WellFormed(stream) && WellFormed(Filter(stream))
            && Reference(body).value == SOI + EncodeStream(Filter(stream))
            && Reference(body).value[2..] == EncodeStream(Filter(stream))
            && Parse(EncodeStream(Filter(stream))) == Success(Filter(stream))
  {
    var stream := Parse(body[2..]).value;
    ParseEncodes(body[2..]);
    KeepCleans(stream.segments);
    EncodeParses(Filter(stream));
    assert body == body[..2] + body[2..];
  }

  lemma FilteredIsFixed(stream: Stream)
    ensures Filter(Filter(stream)) == Filter(stream)
    ensures Filter(stream) == stream <==> Clean(stream.segments) && Plain(stream.segments) && stream.fill == 0
    ensures Clean(Filter(stream).segments) && Plain(Filter(stream).segments)
  {
    KeepCleans(stream.segments);
    KeepCleans(Keep(stream.segments));
  }

  /** On an accepted file: the output is clean, and a second pass fixes it exactly when it has four bytes. */
  lemma SanitizeGuarantees(body: seq<Byte>)
    requires Reference(body).Success?
    ensures var stream, out := Parse(body[2..]).value, Reference(body).value;
            && body == SOI + EncodeStream(stream)
            && Parse(out[2..]) == Success(Filter(stream))
            && Clean(Filter(stream).segments) && !HasApp1(out)
            && (if |out| >= 4 then Reference(out) == Success(out) else Reference(out) == Failure(BadMarker))
            && (out == body <==> Clean(stream.segments) && Plain(stream.segments) && stream.fill == 0)
  {
    var stream, out := Parse(body[2..]).value, Reference(body).value;
    OutputIs(body);
    FilteredIsFixed(stream);
    ScanIsExactOnPlain(Filter(stream));
    SameBytesSameStream(stream);
    assert out[..2] == SOI;
    assert out == body <==> EncodeStream(Filter(stream)) == EncodeStream(stream) by {
      assert body[2..] == EncodeStream(stream);
    }
  }

  lemma OneSegmentBytes(s: Segment, tail: seq<Byte>)
    requires s.fill == 0
    ensures EncodeStream(Stream([s], 0, tail))
         == [0xff, s.marker] + (PutBE16(2 + |s.data|) + s.data) + tail
  {
    JoinSegment(s, Stream([], 0, tail));
    TailEncodes(0, tail);
    assert [s] + [] == [s] && Fill(0) == [];
    assert Encode(s) == [0xff, s.marker] + (PutBE16(2 + |s.data|) + s.data);
  }

  /** What the sanitizer makes of the bytes of a stream. */
  lemma StreamIsFiltered(stream: Stream)
    requires WellFormed(stream) && |EncodeStream(stream)| >= 2
    ensures Reference(SOI + EncodeStream(stream)) == Success(SOI + EncodeStream(Filter(stream)))
  {
    EncodeParses(stream);
    assert (SOI + EncodeStream(stream))[2..] == EncodeStream(stream);
  }

  lemma PutBE16Inverse(s: seq<Byte>)
    requires |s| == 2
    ensures PutBE16(BE16(s)) == s
  {
    var a: int, b: int := s[0], s[1];
    assert (a * 0x100 + b) / 0x100 == a;
  }

  /** What becomes of a file with one segment before its end: APP1, marker 0xe1, goes, another segment stays. */
  lemma OneSegmentFile(marker: Byte, length: seq<Byte>, data: seq<Byte>)
    requires marker != 0xff && marker != 0xd9 && marker != 0xda && |length| == 2 && BE16(length) == |data| + 2
    ensures var body := [0xff, 0xd8] + ([0xff, marker] + (length + data) + [0xff, 0xd9]);
            Reference(body) == Success(if marker == 0xe1 then [0xff, 0xd8] + [0xff, 0xd9] else body)
  {
    var s, tail: seq<Byte> := Segment(0, marker, data), [0xff, 0xd9];
    PutBE16Inverse(length);
    OneSegmentBytes(s, tail);
    OneSegmentKept(s, tail);
    StreamIsFiltered(Stream([s], 0, tail));
  }

  lemma OneSegmentKept(s: Segment, tail: seq<Byte>)
    requires s.fill == 0
    ensures s.marker == 0xe1 ==> EncodeStream(Filter(Stream([s], 0, tail))) == tail
    ensures s.marker != 0xe1 ==> Filter(Stream([s], 0, tail)) == Stream([s], 0, tail)
  {
    TailEncodes(0, tail);
    assert Fill(0) + tail == tail;
    assert Keep([s]) == if s.marker == 0xe1 then [] else [s];
  }

  lemma SameBytesSameStream(stream: Stream)
    requires WellFormed(stream) && WellFormed(Filter(stream))
    ensures EncodeStream(Filter(stream)) == EncodeStream(stream) <==> Filter(stream) == stream
  {
    EncodeParses(stream);
    EncodeParses(Filter(stream));
  }

  // ---------------------------------------------------------------- the byte walkers

  /** One turn of the sanitizer's loop: n > 0 bytes 0xff, then `after`, which starts with the marker. */
  lemma SanitizedStep(out: seq<Byte>, rest: seq<Byte>, after: seq<Byte>, data: seq<Byte>)
    requires 0 < Run(rest) && after == rest[Run(rest)..] && after != [] && after[0] != FF && !EndsSegments(after[0])
    requires ReadBody(after[1..]) == Success(data)
    ensures Then(out, Sanitized(rest))
         == Then(if after[0] == APP1 then out else out + ([FF, after[0]] + after[1..][..|data| + 2]),
                 Sanitized(after[1..][|data| + 2..]))
  {
    var next := after[1..][|data| + 2..];
    if Parse(next).Success? {
      var s, stream := Segment(Run(rest) - 1, after[0], data), Parse(next).value;
      ReadBodyEncodes(s.fill, after[0], after[1..]);
      assert ([s] + stream.segments)[1..] == stream.segments;
      if s.marker != APP1 {
        var plain := s.(fill := 0);
        JoinSegment(plain, Filter(stream));
        assert Encode(plain) == [FF, after[0]] + Body(plain);
        ConcatAssociative(out, Encode(plain), EncodeStream(Filter(stream)));
      }
    }
  }

  lemma SanitizedEnd(out: seq<Byte>, rest: seq<Byte>, after: seq<Byte>)
    requires after == rest[Run(rest)..]
    ensures Run(rest) == 0 || after == [] ==> Then(out, Sanitized(rest)) == Success(out + after)
    ensures Run(rest) > 0 && after != [] && EndsSegments(after[0]) ==>
              Then(out, Sanitized(rest)) == Success(out + ([FF] + after))
  {
    TailEncodes(0, after);
    TailEncodes(0, [FF] + after);
    assert Fill(0) + after == after && Fill(0) + ([FF] + after) == [FF] + after;
  }

  lemma {:induction false} RunIs(rest: seq<Byte>, k: nat)
    requires k <= |rest| && (forall j :: 0 <= j < k ==> rest[j] == FF) && (k < |rest| ==> rest[k] != FF)
    ensures Run(rest) == k
  {
    if k > 0 {
      RunIs(rest[1..], k - 1);
    }
  }

  method Sanitize(body: seq<Byte>) returns (r: Result<seq<Byte>, Error>)
    ensures r == Reference(body)
  {
    if |body| < 4 || !StartsWithSoi(body) {
      return Failure(BadMarker);
    }
    r := SanitizeSegments(body);
  }

  method SkipFill(rest: seq<Byte>) returns (k: nat)
    ensures k == Run(rest) && (k < |rest| ==> rest[k] != FF)
  {
    k := 0;
    while k < |rest| && rest[k] == FF
      invariant k <= |rest| && forall j :: 0 <= j < k ==> rest[j] == FF
    {
      k := k + 1;
    }
    RunIs(rest, k);
  }

  method SanitizeSegments(body: seq<Byte>) returns (r: Result<seq<Byte>, Error>)
    requires |body| >= 2
    ensures r == Then(body[..2], Sanitized(body[2..]))
  {
    var out, i, rest := body[..2], 2, body[2..];
    ghost var goal := Then(out, Sanitized(rest));
    while i < |body|
      invariant 2 <= i <= |body| && i + |rest| == |body|
      invariant goal == Then(out, Sanitized(rest))
    {
      var k := SkipFill(rest);
      var after := rest[k..];
      SanitizedEnd(out, rest, after);
      if k == 0 || after == [] {
        return Success(out + after);
      }
      if EndsSegments(after[0]) {
        return Success(out + ([FF] + after));
      }
      var data := ReadBody(after[1..]);
      if data.Failure? {
        return Failure(data.error);
      }
      SanitizedStep(out, rest, after, data.value);
      var length := |data.value| + 2;
      if after[0] != APP1 {
        out := out + ([FF, after[0]] + after[1..][..length]);
      }
      i, rest := i + (k + 1 + length), after[1..][length..];
    }
    SanitizedEnd(out, [], []);
    assert out + [] == out;
    return Success(out);
  }

  method HasApp1Segment(body: seq<Byte>) returns (found: bool)
    ensures found <==> HasApp1(body)
  {
    if |body| < 4 || !StartsWithSoi(body) {
      return false;
    }
    var i := 2;
    while i + 4 <= |body|
      invariant 2 <= i <= |body|
      invariant HasApp1(body) <==> ScanFindsApp1(body[i..])
    {
      var rest := body[i..];
      if rest[0] != FF {
        return false;
      }
      var marker := rest[1];
      if EndsSegments(marker) {
        return false;
      }
      var data := ReadBody(rest[2..]);
      if data.Failure? {
        return false;
      }
      if marker == APP1 {
        return true;
      }
      assert rest[2..][|data.value| + 2..] == body[i + (|data.value| + 4)..];
      i := i + (|data.value| + 4);
    }
    return false;
  }
}
