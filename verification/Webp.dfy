/**
 The WebP sanitizer: a RIFF header followed by chunks (section 2.3 of RFC 9649), each a type, a
 little-endian size, the data and a pad byte when the size is odd. EXIF and XMP chunks go, and the
 RIFF header is rewritten when any did.
 */
module Webp {
  import opened Bytes
  import opened Wrappers

  datatype Error = BadRiff | TruncatedHeader | InvalidSize

  /** `payload` is the data and, when its size is odd, the pad byte. */
  datatype Chunk = Chunk(kind: nat, size: nat, payload: seq<Byte>)

  /** The chunks up to the first defect, and that defect if there is one. */
  datatype Scan = Scan(chunks: seq<Chunk>, defect: Option<Error>)

  const RIFF: nat := 0x52494646
  const WEBP: nat := 0x57454250

  predicate IsMetadata(kind: nat) {
    kind == 0x45584946 || kind == 0x584d5020 // "EXIF", "XMP "
  }

  predicate IsWebp(body: seq<Byte>) {
    |body| >= 12 && BE32(body[..4]) == RIFF && BE32(body[8..12]) == WEBP
  }

  /** The types by their four characters. */
  lemma ChunkTypes(t: seq<Byte>)
    requires |t| == 4
    ensures IsMetadata(BE32(t)) <==> t == Ascii("EXIF") || t == Ascii("XMP ")
    ensures BE32(t) == RIFF <==> t == Ascii("RIFF")
    ensures BE32(t) == WEBP <==> t == Ascii("WEBP")
  {
    CodeIs(t, 0x45584946, "EXIF");
    CodeIs(t, 0x584d5020, "XMP ");
    CodeIs(t, 0x52494646, "RIFF");
    CodeIs(t, 0x57454250, "WEBP");
  }

  function Size(c: Chunk): nat {
    8 + |c.payload|
  }

  function Encode(c: Chunk): (bytes: seq<Byte>)
    ensures |bytes| == Size(c)
  {
    PutBE32(c.kind) + PutLE32(c.size) + c.payload
  }

  function EncodeAll(chunks: seq<Chunk>): seq<Byte> {
    if chunks == [] then [] else Encode(chunks[0]) + EncodeAll(chunks[1..])
  }

  function Padded(size: nat): nat {
    if size % 2 == 1 then size + 1 else size
  }

  function ReadChunk(rest: seq<Byte>): (r: Result<Chunk, Error>)
    ensures r.Success? ==> Size(r.value) <= |rest|
  {
    if |rest| < 8 then Failure(TruncatedHeader)
    else
      var size := LE32(rest[4..8]);
      var padded := 8 + Padded(size);
      if padded > |rest| then Failure(InvalidSize)
      else Success(Chunk(BE32(rest[..4]), size, rest[8..padded]))
  }

  function Parse(rest: seq<Byte>): Scan
    decreases |rest|
  {
    if rest == [] then Scan([], None)
    else
      match ReadChunk(rest)
      case Failure(e) => Scan([], Some(e))
      case Success(c) =>
        var scan := Parse(rest[Size(c)..]);
        Scan([c] + scan.chunks, scan.defect)
  }

  ghost predicate Sound(c: Chunk) {
    c.kind < TWO32 && c.size < TWO32 && |c.payload| == Padded(c.size)
  }

  lemma ReadInvertsEncode(c: Chunk, rest: seq<Byte>)
    requires Sound(c)
    ensures ReadChunk(Encode(c) + rest) == Success(c)
    ensures (Encode(c) + rest)[Size(c)..] == rest
  {
    var all := Encode(c) + rest;
    assert all[..4] == PutBE32(c.kind);
    assert all[4..8] == PutLE32(c.size);
    assert all[8..Size(c)] == c.payload;
  }

  /** The layout of a chunk: its type, its size with the lowest byte first, its data, a pad byte if the size is odd. */
  lemma ChunkLayout(c: Chunk)
    requires Sound(c)
    ensures var bytes := Encode(c);
            && BE32(bytes[..4]) == c.kind && LE32(bytes[4..8]) == c.size && bytes[8..] == c.payload
            && |bytes| == 8 + c.size + c.size % 2
  {
    var bytes := Encode(c);
    assert bytes[..4] == PutBE32(c.kind) && bytes[4..8] == PutLE32(c.size);
  }

  lemma EncodeInvertsRead(rest: seq<Byte>)
    requires ReadChunk(rest).Success?
    ensures var c := ReadChunk(rest).value;
            Sound(c) && Encode(c) == rest[..Size(c)] && Encode(c) + rest[Size(c)..] == rest
  {
    var c := ReadChunk(rest).value;
    PutBE32Inverse(rest[..4]);
    var low := rest[4..8];
    PutBE32Inverse([low[3], low[2], low[1], low[0]]);
    assert PutLE32(c.size) == low;
  }

  lemma {:induction false} ParseEncodes(rest: seq<Byte>)
    requires Parse(rest).defect.None?
    ensures EncodeAll(Parse(rest).chunks) == rest
    ensures forall k :: 0 <= k < |Parse(rest).chunks| ==> Sound(Parse(rest).chunks[k])
    decreases |rest|
  {
    if rest != [] {
      EncodeInvertsRead(rest);
      var c := ReadChunk(rest).value;
      var tail := rest[Size(c)..];
      ParseEncodes(tail);
      var chunks := Parse(rest).chunks;
      assert chunks[0] == c && chunks[1..] == Parse(tail).chunks;
    }
  }

  lemma {:induction false} EncodeParses(chunks: seq<Chunk>)
    requires forall k :: 0 <= k < |chunks| ==> Sound(chunks[k])
    ensures Parse(EncodeAll(chunks)) == Scan(chunks, None)
  {
    if chunks != [] {
      EncodeParses(chunks[1..]);
      ParseJoins(chunks[0], EncodeAll(chunks[1..]));
      assert chunks == [chunks[0]] + chunks[1..];
    }
  }

  lemma ParseJoins(c: Chunk, rest: seq<Byte>)
    requires Sound(c)
    ensures Parse(Encode(c) + rest) == Scan([c] + Parse(rest).chunks, Parse(rest).defect)
  {
    ReadInvertsEncode(c, rest);
    assert Encode(c) + rest != [];
  }

  // ---------------------------------------------------------------- the filter

  function Keep(chunks: seq<Chunk>): seq<Chunk> {
    if chunks == [] then []
    else if IsMetadata(chunks[0].kind) then Keep(chunks[1..])
    else [chunks[0]] + Keep(chunks[1..])
  }

  predicate Clean(chunks: seq<Chunk>) {
    chunks == [] || (!IsMetadata(chunks[0].kind) && Clean(chunks[1..]))
  }

  lemma {:induction false} KeepCleans(chunks: seq<Chunk>)
    requires forall k :: 0 <= k < |chunks| ==> Sound(chunks[k])
    ensures Clean(Keep(chunks)) && |Keep(chunks)| <= |chunks|
    ensures Keep(chunks) == chunks <==> Clean(chunks)
    ensures forall k :: 0 <= k < |Keep(chunks)| ==> Sound(Keep(chunks)[k])
  {
    if chunks != [] {
      KeepCleans(chunks[1..]);
      if !IsMetadata(chunks[0].kind) {
        assert Keep(chunks)[1..] == Keep(chunks[1..]);
      }
    }
  }

  /** A WebP file with these chunks; PutLE32 keeps the low 32 bits of the size, as uint32 does. */
  function File(chunks: seq<Chunk>): seq<Byte> {
    PutBE32(RIFF) + PutLE32(4 + |EncodeAll(chunks)|) + PutBE32(WEBP) + EncodeAll(chunks)
  }

  lemma FileReads(chunks: seq<Chunk>)
    requires forall k :: 0 <= k < |chunks| ==> Sound(chunks[k])
    ensures IsWebp(File(chunks)) && Parse(File(chunks)[12..]) == Scan(chunks, None)
    ensures |File(chunks)| < TWO32 ==> LE32(File(chunks)[4..8]) == |File(chunks)| - 8
  {
    var out, bytes := File(chunks), EncodeAll(chunks);
    EncodeParses(chunks);
    assert out[..4] == PutBE32(RIFF);
    assert out[4..8] == PutLE32(4 + |bytes|);
    assert out[8..12] == PutBE32(WEBP);
    assert out[12..] == bytes;
    assert |out| == 12 + |bytes|;
  }

  function Reference(body: seq<Byte>): Result<seq<Byte>, Error> {
    if !IsWebp(body) then Failure(BadRiff)
    else
      var scan := Parse(body[12..]);
      if scan.defect.Some? then Failure(scan.defect.value)
      else if Clean(scan.chunks) then Success(body)
      else Success(File(Keep(scan.chunks)))
  }

  predicate Dirty(rest: seq<Byte>) {
    !Clean(Parse(rest).chunks)
  }

  predicate HasMetadata(body: seq<Byte>) {
    IsWebp(body) && Dirty(body[12..])
  }

  /** On an accepted file: the output is accepted, clean, sized right, fixed by a second pass. */
  lemma SanitizeGuarantees(body: seq<Byte>)
    requires Reference(body).Success?
    ensures var chunks, out := Parse(body[12..]).chunks, Reference(body).value;
            && body == body[..12] + EncodeAll(chunks)
            && IsWebp(out) && Parse(out[12..]) == Scan(Keep(chunks), None)
            && !HasMetadata(out)
            && Reference(out) == Success(out)
            && (out == body <==> !HasMetadata(body))
            && (HasMetadata(body) && |out| < TWO32 ==> LE32(out[4..8]) == |out| - 8)
  {
    var chunks, out := Parse(body[12..]).chunks, Reference(body).value;
    ParseEncodes(body[12..]);
    KeepCleans(chunks);
    if !Clean(chunks) {
      FileReads(Keep(chunks));
      KeepCleans(Keep(chunks));
    }
  }

  // ---------------------------------------------------------------- the byte walkers

  lemma ScanStep(out: seq<Byte>, rest: seq<Byte>)
    requires ReadChunk(rest).Success?
    ensures var c := ReadChunk(rest).value;
            var next := Parse(rest[Size(c)..]);
            && Encode(c) == rest[..Size(c)]
            && Parse(rest).defect == next.defect
            && out + EncodeAll(Keep(Parse(rest).chunks))
            == (if IsMetadata(c.kind) then out else out + Encode(c)) + EncodeAll(Keep(next.chunks))
            && (Clean(Parse(rest).chunks) <==> !IsMetadata(c.kind) && Clean(next.chunks))
  {
    EncodeInvertsRead(rest);
    var c := ReadChunk(rest).value;
    var left := Parse(rest[Size(c)..]).chunks;
    assert ([c] + left)[1..] == left;
    if !IsMetadata(c.kind) {
      assert Keep([c] + left)[1..] == Keep(left);
      ConcatAssociative(out, Encode(c), EncodeAll(Keep(left)));
    }
  }

  method Sanitize(body: seq<Byte>) returns (r: Result<seq<Byte>, Error>)
    ensures r == Reference(body)
  {
    if |body| < 12 || BE32(body[..4]) != RIFF || BE32(body[8..12]) != WEBP {
      return Failure(BadRiff);
    }
    var scanned := CopyKept(body);
    if scanned.Failure? {
      return Failure(scanned.error);
    }
    var (chunks, changed) := scanned.value;
    if !changed {
      return Success(body);
    }
    var size := 4 + |chunks|;
    return Success(PutBE32(RIFF) + PutLE32(size) + PutBE32(WEBP) + chunks);
  }

  /** What is kept of the chunks in `rest`, and whether anything was dropped. */
  function Kept(rest: seq<Byte>): Result<(seq<Byte>, bool), Error> {
    var scan := Parse(rest);
    if scan.defect.Some? then Failure(scan.defect.value)
    else Success((EncodeAll(Keep(scan.chunks)), !Clean(scan.chunks)))
  }

  function Then(out: seq<Byte>, changed: bool, r: Result<(seq<Byte>, bool), Error>): Result<(seq<Byte>, bool), Error> {
    match r
    case Failure(e) => Failure(e)
    case Success(more) => Success((out + more.0, changed || more.1))
  }

  lemma KeptStep(out: seq<Byte>, changed: bool, rest: seq<Byte>)
    requires ReadChunk(rest).Success?
    ensures var c := ReadChunk(rest).value;
            && Encode(c) == rest[..Size(c)]
            && Then(out, changed, Kept(rest))
            == if IsMetadata(c.kind) then Then(out, true, Kept(rest[Size(c)..]))
               else Then(out + Encode(c), changed, Kept(rest[Size(c)..]))
  {
    ScanStep(out, rest);
  }

  /** The same at a position of the body. */
  lemma KeptAt(out: seq<Byte>, changed: bool, body: seq<Byte>, i: nat)
    requires i <= |body| && ReadChunk(body[i..]).Success?
    ensures var c := ReadChunk(body[i..]).value;
            var next := i + Size(c);
            && next <= |body|
            && Then(out, changed, Kept(body[i..]))
            == if IsMetadata(c.kind) then Then(out, true, Kept(body[next..]))
               else Then(out + body[i..][..Size(c)], changed, Kept(body[next..]))
  {
    KeptStep(out, changed, body[i..]);
    DropDrop(body, i, Size(ReadChunk(body[i..]).value));
  }

  lemma ThenUnits(out: seq<Byte>, changed: bool, r: Result<(seq<Byte>, bool), Error>)
    ensures Then([], false, r) == r
    ensures Then(out, changed, Kept([])) == Success((out, changed))
  {
    assert out + [] == out;
    if r.Success? {
      assert [] + r.value.0 == r.value.0;
    }
  }

  method CopyKept(body: seq<Byte>) returns (r: Result<(seq<Byte>, bool), Error>)
    requires |body| >= 12
    ensures r == Kept(body[12..])
  {
    var chunks: seq<Byte>, changed, i := [], false, 12;
    ghost var goal := Kept(body[12..]);
    ThenUnits([], false, goal);
    while i < |body|
      invariant 12 <= i <= |body|
      invariant goal == Then(chunks, changed, Kept(body[i..]))
    {
      var rest := body[i..];
      var chunk := ReadChunk(rest);
      if chunk.Failure? {
        return Failure(chunk.error);
      }
      KeptAt(chunks, changed, body, i);
      var padded := Size(chunk.value);
      if IsMetadata(chunk.value.kind) {
        changed := true;
      } else {
        chunks := chunks + rest[..padded];
      }
      i := i + padded;
    }
    ThenUnits(chunks, changed, Kept([]));
    return Success((chunks, changed));
  }

  lemma DirtyStep(rest: seq<Byte>)
    ensures match ReadChunk(rest)
            case Failure(_) => !Dirty(rest)
            case Success(c) => Dirty(rest) <==> IsMetadata(c.kind) || Dirty(rest[Size(c)..])
  {
    if ReadChunk(rest).Success? {
      ScanStep([], rest);
    }
  }

  method HasSensitiveMetadata(body: seq<Byte>) returns (found: bool)
    ensures found <==> HasMetadata(body)
  {
    if |body| < 12 || BE32(body[..4]) != RIFF || BE32(body[8..12]) != WEBP {
      return false;
    }
    var i := 12;
    while i + 8 <= |body|
      invariant 12 <= i <= |body|
      invariant HasMetadata(body) <==> Dirty(body[i..])
    {
      var rest := body[i..];
      DirtyStep(rest);
      var chunk := ReadChunk(rest);
      if chunk.Failure? {
        return false;
      }
      var padded := Size(chunk.value);
      DropDrop(body, i, padded);
      if IsMetadata(chunk.value.kind) {
        return true;
      }
      i := i + padded;
    }
    DirtyStep(body[i..]);
    return false;
  }
}
