/**
 * The PNG container walk (backend/hargaturun/image_ingestion.py:267-289) against the chunk
 * layout of sections 3.1 and 3.2 of RFC 2083. The checksum is any function into 32 bits.
 */
module Png {
  import opened Bytes
  import opened Wrappers

  type Word = n: nat | n < 0x1_0000_0000

  type Checksum = Data -> Word

  datatype Chunk = Chunk(kind: Data, payload: Data)
  {
    predicate Fits() {
      |kind| == 4 && |payload| < 0x1_0000_0000
    }
  }

  const SIGNATURE: Data := [0x89, 0x50, 0x4E, 0x47, 0x0D, 0x0A, 0x1A, 0x0A]
  const IEND: Data := [0x49, 0x45, 0x4E, 0x44]

  function EncodeChunk(c: Chunk, crc: Checksum): Data {
    ToBigEndian(|c.payload|, 4) + c.kind + c.payload + ToBigEndian(crc(c.kind + c.payload), 4)
  }

  function EncodeChunks(chunks: seq<Chunk>, crc: Checksum): Data {
    if chunks == [] then [] else EncodeChunk(chunks[0], crc) + EncodeChunks(chunks[1..], crc)
  }

  function EncodePng(chunks: seq<Chunk>, crc: Checksum): Data {
    SIGNATURE + EncodeChunks(chunks, crc)
  }

  /** A list of chunks that ends with its only IEND, which is empty. */
  predicate WellFormed(chunks: seq<Chunk>) {
    && chunks != []
    && (forall c | c in chunks :: c.Fits())
    && (forall i | 0 <= i < |chunks| - 1 :: chunks[i].kind != IEND)
    && chunks[|chunks| - 1] == Chunk(IEND, [])
  }

  ghost predicate IsPng(data: Data, crc: Checksum) {
    exists chunks :: WellFormed(chunks) && data == EncodePng(chunks, crc)
  }

  // ---------------------------------------------------------------------------
  // Parsing
  // ---------------------------------------------------------------------------

  datatype Parsed<T> = Parsed(value: T, rest: Data)

  function ParseChunk(s: Data, crc: Checksum): Option<Parsed<Chunk>> {
    if |s| < 12 then None
    else
      var length := BigEndian(s[..4]);
      if 12 + length > |s| then None
      else if crc(s[4..8 + length]) != BigEndian(s[8 + length..12 + length]) then None
      else Some(Parsed(Chunk(s[4..8], s[8..8 + length]), s[12 + length..]))
  }

  function ParseChunks(s: Data, crc: Checksum): Option<seq<Chunk>>
    decreases |s|
  {
    match ParseChunk(s, crc)
    case None => None
    case Some(Parsed(c, rest)) =>
      if c.kind == IEND then
        if c.payload == [] && rest == [] then Some([c]) else None
      else
        match ParseChunks(rest, crc)
        case None => None
        case Some(chunks) => Some([c] + chunks)
  }

  function ParsePng(data: Data, crc: Checksum): Option<seq<Chunk>> {
    if |data| < 8 || data[..8] != SIGNATURE then None else ParseChunks(data[8..], crc)
  }

  lemma ChunkParses(c: Chunk, t: Data, crc: Checksum)
    requires c.Fits()
    ensures ParseChunk(EncodeChunk(c, crc) + t, crc) == Some(Parsed(c, t))
  {
    Widths();
    var s := EncodeChunk(c, crc) + t;
    var n := |c.payload|;
    BigEndianRead(n, 4);
    BigEndianRead(crc(c.kind + c.payload), 4);
    assert s[..4] == ToBigEndian(n, 4);
    assert s[4..8] == c.kind && s[8..8 + n] == c.payload;
    assert s[4..8 + n] == c.kind + c.payload;
    assert s[8 + n..12 + n] == ToBigEndian(crc(c.kind + c.payload), 4);
    assert s[12 + n..] == t;
  }

  lemma ParsedChunk(s: Data, crc: Checksum)
    requires ParseChunk(s, crc).Some?
    ensures var Parsed(c, rest) := ParseChunk(s, crc).value;
            c.Fits() && s == EncodeChunk(c, crc) + rest && |rest| < |s|
  {
    Widths();
    var Parsed(c, rest) := ParseChunk(s, crc).value;
    var n := BigEndian(s[..4]);
    BigEndianWritten(s[..4]);
    BigEndianWritten(s[8 + n..12 + n]);
    assert c.kind + c.payload == s[4..8 + n];
    assert s == s[..4] + s[4..8] + s[8..8 + n] + s[8 + n..12 + n] + s[12 + n..];
  }

  lemma {:induction false} ParsedChunks(s: Data, crc: Checksum)
    requires ParseChunks(s, crc).Some?
    ensures WellFormed(ParseChunks(s, crc).value)
    ensures EncodeChunks(ParseChunks(s, crc).value, crc) == s
    decreases |s|
  {
    ParsedChunk(s, crc);
    var Parsed(c, rest) := ParseChunk(s, crc).value;
    if c.kind == IEND {
      assert EncodeChunks([c], crc) == EncodeChunk(c, crc) + EncodeChunks([], crc);
    } else {
      ParsedChunks(rest, crc);
      var chunks := ParseChunks(rest, crc).value;
      assert ([c] + chunks)[1..] == chunks;
    }
  }

  lemma ParseChunksStep(s: Data, c: Chunk, rest: Data, crc: Checksum)
    requires ParseChunk(s, crc) == Some(Parsed(c, rest))
    ensures |rest| < |s|
    ensures ParseChunks(s, crc) ==
            if c.kind == IEND then (if c.payload == [] && rest == [] then Some([c]) else None)
            else if ParseChunks(rest, crc).None? then None
            else Some([c] + ParseChunks(rest, crc).value)
  {
  }

  lemma EncodedHead(chunks: seq<Chunk>, t: Data, crc: Checksum)
    requires chunks != []
    ensures EncodeChunks(chunks, crc) + t == EncodeChunk(chunks[0], crc) + (EncodeChunks(chunks[1..], crc) + t)
  {
    Associate(EncodeChunk(chunks[0], crc), EncodeChunks(chunks[1..], crc), t);
  }

  lemma WellFormedTail(chunks: seq<Chunk>)
    requires WellFormed(chunks)
    ensures chunks[0].Fits()
    ensures if chunks[1..] == [] then chunks == [Chunk(IEND, [])] else chunks[0].kind != IEND && WellFormed(chunks[1..])
  {
    assert chunks[0] in chunks;
    if chunks[1..] != [] {
      assert forall i :: 0 <= i < |chunks[1..]| ==> chunks[1..][i] == chunks[i + 1];
    }
  }

  /** An encoded list parses back to itself, and nothing may follow it. */
  lemma {:induction false} ChunksParse(chunks: seq<Chunk>, t: Data, crc: Checksum)
    requires WellFormed(chunks)
    ensures ParseChunks(EncodeChunks(chunks, crc) + t, crc) == if t == [] then Some(chunks) else None
  {
    var c, more := chunks[0], chunks[1..];
    var rest := EncodeChunks(more, crc) + t;
    WellFormedTail(chunks);
    EncodedHead(chunks, t, crc);
    ChunkParses(c, rest, crc);
    ParseChunksStep(EncodeChunks(chunks, crc) + t, c, rest, crc);
    if more == [] {
      assert rest == t;
    } else {
      ChunksParse(more, t, crc);
      assert chunks == [c] + more;
    }
  }

  /** The parser accepts exactly the encodings of well-formed lists, and is inverse to the encoder. */
  lemma ParsePngExactly(data: Data, chunks: seq<Chunk>, crc: Checksum)
    ensures ParsePng(data, crc) == Some(chunks) <==> WellFormed(chunks) && data == EncodePng(chunks, crc)
  {
    if ParsePng(data, crc) == Some(chunks) {
      ParsedChunks(data[8..], crc);
      assert data == data[..8] + data[8..];
    }
    if WellFormed(chunks) && data == EncodePng(chunks, crc) {
      ChunksParse(chunks, [], crc);
      assert data[8..] == EncodeChunks(chunks, crc) == EncodeChunks(chunks, crc) + [];
      assert data[..8] == SIGNATURE;
    }
  }

  /** A byte string encodes at most one list of chunks, and no accepted string extends another. */
  lemma PngPrefixFree(a: seq<Chunk>, b: seq<Chunk>, t: Data, crc: Checksum)
    requires WellFormed(a) && WellFormed(b) && EncodePng(a, crc) + t == EncodePng(b, crc)
    ensures t == [] && a == b
  {
    var x, y := EncodeChunks(a, crc), EncodeChunks(b, crc);
    ChunksParse(a, t, crc);
    ChunksParse(b, [], crc);
    Associate(SIGNATURE, x, t);
    DropPrefix(SIGNATURE, x + t);
    DropPrefix(SIGNATURE, y);
    assert y + [] == y;
  }

  // ---------------------------------------------------------------------------
  // The walk
  // ---------------------------------------------------------------------------

  /** The parser's step, in the walk's own indices. */
  lemma ParseChunkAt(data: Data, pos: nat, crc: Checksum)
    requires pos <= |data|
    ensures ParseChunk(data[pos..], crc) ==
            if pos + 12 > |data| then None
            else
              var length := BigEndian(data[pos..pos + 4]);
              if pos + 12 + length > |data| then None
              else if crc(data[pos + 4..pos + 8 + length]) != BigEndian(data[pos + 8 + length..pos + 12 + length]) then None
              else Some(Parsed(Chunk(data[pos + 4..pos + 8], data[pos + 8..pos + 8 + length]), data[pos + 12 + length..]))
  {
    if pos + 12 <= |data| {
      SliceOfSuffix(data, pos, 0, 4);
      var length := BigEndian(data[pos..pos + 4]);
      if pos + 12 + length <= |data| {
        SliceOfSuffix(data, pos, 4, 8 + length);
        SliceOfSuffix(data, pos, 8 + length, 12 + length);
        SliceOfSuffix(data, pos, 4, 8);
        SliceOfSuffix(data, pos, 8, 8 + length);
        SliceOfSuffix(data, pos, 12 + length, 12 + length);
      }
    }
  }

  lemma ParsesIsPng(data: Data, crc: Checksum)
    ensures ParsePng(data, crc).Some? <==> IsPng(data, crc)
  {
    forall chunks
      ensures ParsePng(data, crc) == Some(chunks) <==> WellFormed(chunks) && data == EncodePng(chunks, crc)
    {
      ParsePngExactly(data, chunks, crc);
    }
  }

  /** One turn of the walk: reject, or learn the chunk's type, its length and where it ends. */
  method ReadChunk(data: Data, pos: nat, crc: Checksum) returns (ok: bool, kind: Data, length: nat, end: nat)
    requires pos < |data|
    ensures !ok ==> ParseChunks(data[pos..], crc).None?
    ensures ok ==> pos < end <= |data|
    ensures ok && kind == IEND ==> (ParseChunks(data[pos..], crc).Some? <==> length == 0 && end == |data|)
    ensures ok && kind != IEND ==> (ParseChunks(data[pos..], crc).Some? <==> ParseChunks(data[end..], crc).Some?)
  {
    kind, length, end := [], 0, pos;
    ParseChunkAt(data, pos, crc);
    if pos + 12 > |data| {
      return false, kind, length, end;
    }
    length := BigEndian(data[pos..pos + 4]);
    kind := data[pos + 4..pos + 8];
    end := pos + 12 + length;
    if end > |data| {
      return false, kind, length, end;
    }
    var payloadEnd := pos + 8 + length;
    var expected := BigEndian(data[payloadEnd..payloadEnd + 4]);
    var actual := crc(data[pos + 4..payloadEnd]);
    if actual != expected {
      return false, kind, length, end;
    }
    ParseChunksStep(data[pos..], Chunk(kind, data[pos + 8..payloadEnd]), data[end..], crc);
    return true, kind, length, end;
  }

  /** Accepts exactly the encodings of well-formed chunk lists. */
  method ValidatePng(data: Data, crc: Checksum) returns (accepted: bool)
    ensures accepted <==> IsPng(data, crc)
  {
    ParsesIsPng(data, crc);
    if |data| < 8 || data[..8] != SIGNATURE {
      return false;
    }
    var pos := 8;
    while pos < |data|
      invariant 8 <= pos <= |data|
      invariant IsPng(data, crc) <==> ParseChunks(data[pos..], crc).Some?
      decreases |data| - pos
    {
      var ok, kind, length, end := ReadChunk(data, pos, crc);
      if !ok {
        return false;
      }
      pos := end;
      if kind == IEND {
        return length == 0 && pos == |data|;
      }
    }
    return false;
  }
}
