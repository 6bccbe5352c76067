/**
 The PNG validator and sanitizer. A PNG is a signature followed by chunks (section 5.3 of the W3C
 PNG specification): length, type, data, CRC. The checksum is a parameter: nothing below depends
 on which function it is.
 */
module Png {
  import opened Bytes
  import opened Wrappers

  datatype Error = BadSignature | TruncatedChunk | BadLength | BadCrc | MissingHeader | TrailingData | MissingEnd

  datatype Chunk = Chunk(kind: nat, data: seq<Byte>, crc: nat)

  type Checksum = seq<Byte> -> nat

  const SIGNATURE: seq<Byte> := [0x89, 0x50, 0x4e, 0x47, 0x0d, 0x0a, 0x1a, 0x0a]
  const IHDR: nat := 0x49484452
  const IEND: nat := 0x49454e44

  predicate IsMetadata(kind: nat) {
    || kind == 0x65584966 // eXIf
    || kind == 0x74455874 // tEXt
    || kind == 0x7a545874 // zTXt
    || kind == 0x69545874 // iTXt
    || kind == 0x74494d45 // tIME
  }

  /** The metadata types by their four characters. */
  lemma MetadataTypes(t: seq<Byte>)
    requires |t| == 4
    ensures IsMetadata(BE32(t)) <==>
              || t == Ascii("eXIf") || t == Ascii("tEXt") || t == Ascii("zTXt") || t == Ascii("iTXt")
              || t == Ascii("tIME")
  {
    CodeIs(t, 0x65584966, "eXIf");
    CodeIs(t, 0x74455874, "tEXt");
    CodeIs(t, 0x7a545874, "zTXt");
    CodeIs(t, 0x69545874, "iTXt");
    CodeIs(t, 0x74494d45, "tIME");
  }

  lemma FrameTypes(t: seq<Byte>)
    requires |t| == 4
    ensures SIGNATURE == [0x89] + Ascii("PNG") + [0x0d, 0x0a, 0x1a, 0x0a]
    ensures BE32(t) == IHDR <==> t == Ascii("IHDR")
    ensures BE32(t) == IEND <==> t == Ascii("IEND")
  {
    CodeIs(t, 0x49484452, "IHDR");
    CodeIs(t, 0x49454e44, "IEND");
  }

  // ---------------------------------------------------------------- chunk lists and their bytes

  function Encode(c: Chunk): seq<Byte> {
    PutBE32(|c.data|) + PutBE32(c.kind) + c.data + PutBE32(c.crc)
  }

  function EncodeAll(chunks: seq<Chunk>): seq<Byte> {
    if chunks == [] then [] else Encode(chunks[0]) + EncodeAll(chunks[1..])
  }

  function File(chunks: seq<Chunk>): seq<Byte> {
    SIGNATURE + EncodeAll(chunks)
  }

  /** The chunk that starts `rest`, if it is complete and its CRC agrees. */
  function ReadChunk(crc: Checksum, rest: seq<Byte>): (r: Result<Chunk, Error>)
    ensures r.Success? ==> |r.value.data| + 12 <= |rest|
  {
    if |rest| < 12 then Failure(TruncatedChunk)
    else
      var length := BE32(rest[..4]);
      if length + 12 > |rest| then Failure(BadLength)
      else if crc(rest[4..8 + length]) != BE32(rest[8 + length..12 + length]) then Failure(BadCrc)
      else Success(Chunk(BE32(rest[4..8]), rest[8..8 + length], BE32(rest[8 + length..12 + length])))
  }

  /** The chunks up to and including IEND, which must end the input and follow an IHDR. */
  function Parse(crc: Checksum, rest: seq<Byte>, seenHeader: bool): Result<seq<Chunk>, Error>
    decreases |rest|
  {
    if rest == [] then Failure(MissingEnd)
    else
      match ReadChunk(crc, rest)
      case Failure(e) => Failure(e)
      case Success(c) =>
        if c.kind == IEND then
          if !seenHeader then Failure(MissingHeader)
          else if |c.data| + 12 != |rest| then Failure(TrailingData)
          else Success([c])
        else
          match Parse(crc, rest[|c.data| + 12..], seenHeader || c.kind == IHDR)
          case Failure(e) => Failure(e)
          case Success(chunks) => Success([c] + chunks)
  }

  function ParseFile(crc: Checksum, body: seq<Byte>): Result<seq<Chunk>, Error> {
    if |body| < 12 || body[..8] != SIGNATURE then Failure(BadSignature)
    else Parse(crc, body[8..], false)
  }

  /** The accepted chunk lists: sound chunks, an IHDR before the one IEND, which comes last. */
  ghost predicate WellFormed(crc: Checksum, chunks: seq<Chunk>, seenHeader: bool) {
    && chunks != []
    && WellFormedChunk(crc, chunks[0])
    && if chunks[0].kind == IEND then seenHeader && |chunks| == 1
       else WellFormed(crc, chunks[1..], seenHeader || chunks[0].kind == IHDR)
  }

  ghost predicate WellFormedChunk(crc: Checksum, c: Chunk) {
    && c.kind < TWO32 && |c.data| < TWO32 && c.crc < TWO32
    && crc(PutBE32(c.kind) + c.data) == c.crc
  }

  lemma ReadInvertsEncode(crc: Checksum, c: Chunk, rest: seq<Byte>)
    requires WellFormedChunk(crc, c)
    ensures ReadChunk(crc, Encode(c) + rest) == Success(c)
    ensures (Encode(c) + rest)[|c.data| + 12..] == rest
  {
    var data, n := Encode(c) + rest, |c.data|;
    assert data[..4] == PutBE32(n);
    assert data[4..8] == PutBE32(c.kind);
    assert data[8..8 + n] == c.data;
    assert data[8 + n..12 + n] == PutBE32(c.crc);
    assert data[4..8 + n] == PutBE32(c.kind) + c.data;
  }

  /** The layout of a chunk: the length of its data, its type, its data, its checksum. */
  lemma ChunkLayout(crc: Checksum, c: Chunk)
    requires WellFormedChunk(crc, c)
    ensures var bytes, n := Encode(c), |c.data|;
            && |bytes| == n + 12 && BE32(bytes[..4]) == n && BE32(bytes[4..8]) == c.kind && bytes[8..n + 8] == c.data
            && BE32(bytes[n + 8..]) == c.crc == crc(bytes[4..n + 8])
  {
    var bytes, n := Encode(c), |c.data|;
    assert bytes[..4] == PutBE32(n) && bytes[4..8] == PutBE32(c.kind) && bytes[n + 8..] == PutBE32(c.crc);
    assert bytes[4..n + 8] == PutBE32(c.kind) + c.data;
  }

  lemma Rejoins(rest: seq<Byte>, n: nat)
    requires n + 12 <= |rest|
    ensures rest[..4] + rest[4..8] + rest[8..8 + n] + rest[8 + n..12 + n] + rest[n + 12..] == rest
    ensures rest[4..8] + rest[8..8 + n] == rest[4..8 + n]
  {
  }

  lemma EncodeInvertsRead(crc: Checksum, rest: seq<Byte>)
    requires ReadChunk(crc, rest).Success?
    ensures var c := ReadChunk(crc, rest).value;
            WellFormedChunk(crc, c) && Encode(c) + rest[|c.data| + 12..] == rest
  {
    var c := ReadChunk(crc, rest).value;
    var n := |c.data|;
    PutBE32Inverse(rest[..4]);
    PutBE32Inverse(rest[4..8]);
    PutBE32Inverse(rest[8 + n..12 + n]);
    Rejoins(rest, n);
    assert Encode(c) == rest[..4] + rest[4..8] + rest[8..8 + n] + rest[8 + n..12 + n];
  }

  lemma {:induction false} ParseEncodes(crc: Checksum, rest: seq<Byte>, seenHeader: bool)
    requires Parse(crc, rest, seenHeader).Success?
    ensures EncodeAll(Parse(crc, rest, seenHeader).value) == rest
    ensures WellFormed(crc, Parse(crc, rest, seenHeader).value, seenHeader)
    decreases |rest|
  {
    EncodeInvertsRead(crc, rest);
    var c := ReadChunk(crc, rest).value;
    if c.kind != IEND {
      var tail := rest[|c.data| + 12..];
      ParseEncodes(crc, tail, seenHeader || c.kind == IHDR);
      var chunks := Parse(crc, tail, seenHeader || c.kind == IHDR).value;
      assert ([c] + chunks)[1..] == chunks;
      assert ([c] + chunks)[0] == c;
    } else {
      assert EncodeAll([c]) == Encode(c);
    }
  }

  lemma {:induction false} EncodeParses(crc: Checksum, chunks: seq<Chunk>, seenHeader: bool)
    requires WellFormed(crc, chunks, seenHeader)
    ensures Parse(crc, EncodeAll(chunks), seenHeader) == Success(chunks)
    decreases |chunks|
  {
    var c, tail := chunks[0], chunks[1..];
    ReadInvertsEncode(crc, c, EncodeAll(tail));
    if c.kind != IEND {
      EncodeParses(crc, tail, seenHeader || c.kind == IHDR);
      assert chunks == [c] + tail;
    } else {
      assert chunks == [c] && EncodeAll(tail) == [];
    }
  }

  // ---------------------------------------------------------------- the filter

  function Keep(chunks: seq<Chunk>): seq<Chunk> {
    if chunks == [] then []
    else if IsMetadata(chunks[0].kind) then Keep(chunks[1..])
    else [chunks[0]] + Keep(chunks[1..])
  }

  predicate Clean(chunks: seq<Chunk>) {
    chunks == [] || (!IsMetadata(chunks[0].kind) && Clean(chunks[1..]))
  }

  lemma {:induction false} KeepCleans(chunks: seq<Chunk>)
    ensures Clean(Keep(chunks)) && |Keep(chunks)| <= |chunks|
    ensures Keep(chunks) == chunks <==> Clean(chunks)
  {
    if chunks != [] {
      KeepCleans(chunks[1..]);
      if !IsMetadata(chunks[0].kind) {
        assert Keep(chunks)[1..] == Keep(chunks[1..]);
      }
    }
  }

  lemma {:induction false} KeepWellFormed(crc: Checksum, chunks: seq<Chunk>, seenHeader: bool)
    requires WellFormed(crc, chunks, seenHeader)
    ensures WellFormed(crc, Keep(chunks), seenHeader)
  {
    if chunks[0].kind == IEND {
      assert chunks[1..] == [] && Keep(chunks) == chunks;
    } else {
      KeepWellFormed(crc, chunks[1..], seenHeader || chunks[0].kind == IHDR);
      if !IsMetadata(chunks[0].kind) {
        assert Keep(chunks)[1..] == Keep(chunks[1..]);
      }
    }
  }

  lemma FileParses(crc: Checksum, chunks: seq<Chunk>)
    requires WellFormed(crc, chunks, false)
    ensures ParseFile(crc, File(chunks)) == Success(chunks)
  {
    EncodeParses(crc, chunks, false);
    assert File(chunks)[8..] == EncodeAll(chunks);
    assert |EncodeAll(chunks)| >= |Encode(chunks[0])| >= 12;
  }

  lemma ParsedIsFile(crc: Checksum, body: seq<Byte>)
    requires ParseFile(crc, body).Success?
    ensures var chunks := ParseFile(crc, body).value; body == File(chunks) && WellFormed(crc, chunks, false)
  {
    ParseEncodes(crc, body[8..], false);
    assert body == body[..8] + body[8..];
  }

  /** On an accepted PNG: the output is accepted, clean, unchanged by a second pass. */
  lemma SanitizeGuarantees(crc: Checksum, body: seq<Byte>)
    requires ParseFile(crc, body).Success?
    ensures var chunks := ParseFile(crc, body).value;
            var out := File(Keep(chunks));
            && body == File(chunks)
            && ParseFile(crc, out) == Success(Keep(chunks))
            && Keep(Keep(chunks)) == Keep(chunks)
            && (out == body <==> !HasMetadata(crc, body))
            && !HasMetadata(crc, out)
  {
    var chunks := ParseFile(crc, body).value;
    ParsedIsFile(crc, body);
    KeepWellFormed(crc, chunks, false);
    FileParses(crc, Keep(chunks));
    KeepCleans(chunks);
    KeepCleans(Keep(chunks));
  }

  predicate HasMetadata(crc: Checksum, body: seq<Byte>) {
    ParseFile(crc, body).Success? && !Clean(ParseFile(crc, body).value)
  }

  // ---------------------------------------------------------------- the byte walkers

  ghost predicate SameOutcome(a: Result<seq<Chunk>, Error>, b: Result<seq<Chunk>, Error>) {
    (a.Success? <==> b.Success?) && (a.Failure? ==> a.error == b.error)
  }

  lemma ParseStep(crc: Checksum, rest: seq<Byte>, seenHeader: bool)
    requires rest != []
    ensures match ReadChunk(crc, rest)
            case Failure(e) => Parse(crc, rest, seenHeader) == Failure(e)
            case Success(c) =>
              c.kind != IEND ==>
                SameOutcome(Parse(crc, rest, seenHeader),
                            Parse(crc, rest[|c.data| + 12..], seenHeader || c.kind == IHDR))
  {
  }

  method Validate(crc: Checksum, body: seq<Byte>) returns (r: Option<Error>)
    ensures r == match ParseFile(crc, body) { case Failure(e) => Some(e) case Success(_) => None }
  {
    if |body| < 12 || body[..8] != SIGNATURE {
      return Some(BadSignature);
    }
    var seenHeader, i := false, 8;
    while i < |body|
      invariant 8 <= i <= |body|
      invariant SameOutcome(ParseFile(crc, body), Parse(crc, body[i..], seenHeader))
    {
      ParseStep(crc, body[i..], seenHeader);
      var chunk := ReadChunk(crc, body[i..]);
      if chunk.Failure? {
        return Some(chunk.error);
      }
      var Chunk(kind, data, _) := chunk.value;
      var end := i + 12 + |data|;
      if kind == IHDR {
        seenHeader := true;
      }
      if kind == IEND {
        if !seenHeader {
          return Some(MissingHeader);
        }
        return if end != |body| then Some(TrailingData) else None;
      }
      assert body[i..][|data| + 12..] == body[end..];
      i := end;
    }
    return Some(MissingEnd);
  }

  /** What the walkers that run after `Validate` rely on: `rest` is the bytes of the chunks `left`. */
  ghost predicate AtChunks(rest: seq<Byte>, left: seq<Chunk>) {
    rest == EncodeAll(left) && forall k :: 0 <= k < |left| ==> left[k].kind < TWO32 && |left[k].data| < TWO32
  }

  lemma {:induction false} WellFormedIsSized(crc: Checksum, chunks: seq<Chunk>, seenHeader: bool)
    requires WellFormed(crc, chunks, seenHeader)
    ensures AtChunks(EncodeAll(chunks), chunks)
  {
    if chunks[0].kind != IEND {
      WellFormedIsSized(crc, chunks[1..], seenHeader || chunks[0].kind == IHDR);
    }
  }

  lemma WalkStep(rest: seq<Byte>, left: seq<Chunk>)
    requires AtChunks(rest, left)
    ensures left == [] <==> rest == []
    ensures left != [] ==>
              var n := |left[0].data|;
              && n + 12 <= |rest|
              && BE32(rest[..4]) == n && BE32(rest[4..8]) == left[0].kind
              && rest[..n + 12] == Encode(left[0])
              && AtChunks(rest[n + 12..], left[1..])
  {
    if left != [] {
      var c := left[0];
      assert |Encode(c)| == |c.data| + 12;
      assert rest[..4] == PutBE32(|c.data|);
      assert rest[4..8] == PutBE32(c.kind);
    }
  }

  method Sanitize(crc: Checksum, body: seq<Byte>) returns (r: Result<seq<Byte>, Error>)
    ensures match ParseFile(crc, body)
            case Failure(e) => r == Failure(e)
            case Success(chunks) => r == Success(File(Keep(chunks)))
  {
    var invalid := Validate(crc, body);
    if invalid.Some? {
      return Failure(invalid.value);
    }
    ghost var chunks := ParseFile(crc, body).value;
    ParseEncodes(crc, body[8..], false);
    WellFormedIsSized(crc, chunks, false);
    var kept := CopyKept(body, chunks);
    return Success(body[..8] + kept);
  }

  lemma KeepFirst(out: seq<Byte>, left: seq<Chunk>)
    requires left != []
    ensures out + EncodeAll(Keep(left))
         == (if IsMetadata(left[0].kind) then out else out + Encode(left[0])) + EncodeAll(Keep(left[1..]))
  {
    if !IsMetadata(left[0].kind) {
      assert Keep(left)[1..] == Keep(left[1..]);
      ConcatAssociative(out, Encode(left[0]), EncodeAll(Keep(left[1..])));
    }
  }

  method CopyKept(body: seq<Byte>, ghost chunks: seq<Chunk>) returns (out: seq<Byte>)
    requires |body| >= 8 && AtChunks(body[8..], chunks)
    ensures out == EncodeAll(Keep(chunks))
  {
    var i := 8;
    out := [];
    ghost var left := chunks;
    while i < |body|
      invariant 8 <= i <= |body| && AtChunks(body[i..], left)
      invariant out + EncodeAll(Keep(left)) == EncodeAll(Keep(chunks))
    {
      var rest := body[i..];
      WalkStep(rest, left);
      KeepFirst(out, left);
      var length, kind := BE32(rest[..4]), BE32(rest[4..8]);
      DropDrop(body, i, length + 12);
      if !IsMetadata(kind) {
        out := out + rest[..length + 12];
      }
      left := left[1..];
      i := i + (length + 12);
    }
    WalkStep(body[i..], left);
  }

  method HasSensitiveMetadata(crc: Checksum, body: seq<Byte>) returns (found: bool)
    ensures found <==> HasMetadata(crc, body)
  {
    var invalid := Validate(crc, body);
    if invalid.Some? {
      return false;
    }
    ghost var chunks := ParseFile(crc, body).value;
    ParseEncodes(crc, body[8..], false);
    WellFormedIsSized(crc, chunks, false);
    var i := 8;
    ghost var left := chunks;
    while i < |body|
      invariant 8 <= i <= |body| && AtChunks(body[i..], left)
      invariant Clean(chunks) <==> Clean(left)
    {
      var rest := body[i..];
      WalkStep(rest, left);
      var length, kind := BE32(rest[..4]), BE32(rest[4..8]);
      DropDrop(body, i, length + 12);
      if IsMetadata(kind) {
        return true;
      }
      left := left[1..];
      i := i + (length + 12);
    }
    WalkStep(body[i..], left);
    return false;
  }
}
