/**
 * The WebP container walk (backend/hargaturun/image_ingestion.py:292-308) against the RIFF
 * layout of sections 2.3 and 2.4 of RFC 9649. The walk does not look at the value of a pad byte,
 * so a chunk here keeps the one it was written with.
 */
module Webp {
  import opened Bytes
  import opened Wrappers

  datatype Chunk = Chunk(fourCC: Data, payload: Data, pad: Data)
  {
    predicate Fits() {
      |fourCC| == 4 && |payload| < 0x1_0000_0000 && |pad| == |payload| % 2
    }
  }

  const RIFF: Data := [0x52, 0x49, 0x46, 0x46]
  const WEBP: Data := [0x57, 0x45, 0x42, 0x50]

  function EncodeChunk(c: Chunk): Data {
    c.fourCC + ToLittleEndian(|c.payload|, 4) + c.payload + c.pad
  }

  function EncodeChunks(chunks: seq<Chunk>): Data {
    if chunks == [] then [] else EncodeChunk(chunks[0]) + EncodeChunks(chunks[1..])
  }

  function EncodeWebp(chunks: seq<Chunk>): Data {
    var body := EncodeChunks(chunks);
    RIFF + ToLittleEndian(4 + |body|, 4) + WEBP + body
  }

  /** Any list of chunks whose RIFF size can be written down. */
  predicate WellFormed(chunks: seq<Chunk>) {
    (forall c | c in chunks :: c.Fits()) && 4 + |EncodeChunks(chunks)| < 0x1_0000_0000
  }

  ghost predicate IsWebp(data: Data) {
    exists chunks :: WellFormed(chunks) && data == EncodeWebp(chunks)
  }

  // ---------------------------------------------------------------------------
  // Parsing
  // ---------------------------------------------------------------------------

  /** Where the first chunk of `s` ends, pad byte included; `None` when it does not fit. */
  function ChunkEnd(s: Data): Option<nat> {
    if |s| < 8 then None
    else
      var size := LittleEndian(s[4..8]);
      var end := 8 + size + size % 2;
      if end > |s| then None else Some(end)
  }

  function ReadChunk(s: Data): Chunk
    requires ChunkEnd(s).Some?
  {
    var size := LittleEndian(s[4..8]);
    Chunk(s[..4], s[8..8 + size], s[8 + size..ChunkEnd(s).value])
  }

  function ParseChunks(s: Data): Option<seq<Chunk>>
    decreases |s|
  {
    if s == [] then Some([])
    else if ChunkEnd(s).None? then None
    else
      match ParseChunks(s[ChunkEnd(s).value..])
      case None => None
      case Some(chunks) => Some([ReadChunk(s)] + chunks)
  }

  predicate GoodHeader(data: Data) {
    && 12 <= |data| && data[..4] == RIFF && data[8..12] == WEBP
    && LittleEndian(data[4..8]) == |data| - 8
  }

  function ParseWebp(data: Data): Option<seq<Chunk>> {
    if GoodHeader(data) then ParseChunks(data[12..]) else None
  }

  lemma ChunkParses(c: Chunk, t: Data)
    requires c.Fits()
    ensures ChunkEnd(EncodeChunk(c) + t) == Some(|EncodeChunk(c)|)
    ensures ReadChunk(EncodeChunk(c) + t) == c
    ensures (EncodeChunk(c) + t)[|EncodeChunk(c)|..] == t
  {
    Widths();
    var s, n := EncodeChunk(c) + t, |c.payload|;
    LittleEndianRead(n, 4);
    assert s[4..8] == ToLittleEndian(n, 4);
    assert s[..4] == c.fourCC && s[8..8 + n] == c.payload && s[8 + n..8 + n + n % 2] == c.pad;
  }

  lemma ReadBack(s: Data)
    requires ChunkEnd(s).Some?
    ensures ReadChunk(s).Fits() && s == EncodeChunk(ReadChunk(s)) + s[ChunkEnd(s).value..]
  {
    Widths();
    var size, end := LittleEndian(s[4..8]), ChunkEnd(s).value;
    LittleEndianWritten(s[4..8]);
    assert s == s[..4] + s[4..8] + s[8..8 + size] + s[8 + size..end] + s[end..];
  }

  lemma {:induction false} ParsedChunks(s: Data)
    requires ParseChunks(s).Some?
    ensures forall c :: c in ParseChunks(s).value ==> c.Fits()
    ensures EncodeChunks(ParseChunks(s).value) == s
    decreases |s|
  {
    if s != [] {
      ReadBack(s);
      ParsedChunks(s[ChunkEnd(s).value..]);
      var chunks := ParseChunks(s[ChunkEnd(s).value..]).value;
      assert ([ReadChunk(s)] + chunks)[1..] == chunks;
    }
  }

  lemma {:induction false} ChunksParse(chunks: seq<Chunk>)
    requires forall c :: c in chunks ==> c.Fits()
    ensures ParseChunks(EncodeChunks(chunks)) == Some(chunks)
  {
    if chunks != [] {
      assert chunks[0] in chunks;
      ChunkParses(chunks[0], EncodeChunks(chunks[1..]));
      ChunksParse(chunks[1..]);
      assert chunks == [chunks[0]] + chunks[1..];
    }
  }

  lemma HeaderReads(chunks: seq<Chunk>)
    requires WellFormed(chunks)
    ensures GoodHeader(EncodeWebp(chunks)) && EncodeWebp(chunks)[12..] == EncodeChunks(chunks)
    ensures LittleEndian(EncodeWebp(chunks)[4..8]) == 4 + |EncodeChunks(chunks)|
  {
    Widths();
    var body := EncodeChunks(chunks);
    var data := EncodeWebp(chunks);
    LittleEndianRead(4 + |body|, 4);
    assert data[4..8] == ToLittleEndian(4 + |body|, 4);
    assert data[..4] == RIFF && data[8..12] == WEBP && data[12..] == body;
  }

  lemma HeaderWritten(data: Data)
    requires GoodHeader(data)
    ensures |data| - 8 < 0x1_0000_0000
    ensures data == RIFF + ToLittleEndian(|data| - 8, 4) + WEBP + data[12..]
  {
    Widths();
    LittleEndianWritten(data[4..8]);
    assert data == data[..4] + data[4..8] + data[8..12] + data[12..];
  }

  /** The parser accepts exactly the encodings of well-formed lists, and is inverse to the encoder. */
  lemma ParseWebpExactly(data: Data, chunks: seq<Chunk>)
    ensures ParseWebp(data) == Some(chunks) <==> WellFormed(chunks) && data == EncodeWebp(chunks)
  {
    if ParseWebp(data) == Some(chunks) {
      ParsedChunks(data[12..]);
      HeaderWritten(data);
    }
    if WellFormed(chunks) && data == EncodeWebp(chunks) {
      HeaderReads(chunks);
      ChunksParse(chunks);
    }
  }

  /** A byte string encodes at most one list, and no accepted string extends another. */
  lemma WebpPrefixFree(a: seq<Chunk>, b: seq<Chunk>, t: Data)
    requires WellFormed(a) && WellFormed(b) && EncodeWebp(a) + t == EncodeWebp(b)
    ensures t == [] && a == b
  {
    HeaderReads(a);
    HeaderReads(b);
    assert (EncodeWebp(a) + t)[4..8] == EncodeWebp(a)[4..8];
    assert EncodeWebp(a) + t == EncodeWebp(a);
    ParseWebpExactly(EncodeWebp(a), a);
    ParseWebpExactly(EncodeWebp(b), b);
  }

  lemma ParsesIsWebp(data: Data)
    ensures IsWebp(data) <==> GoodHeader(data) && ParseChunks(data[12..]).Some?
  {
    forall chunks
      ensures ParseWebp(data) == Some(chunks) <==> WellFormed(chunks) && data == EncodeWebp(chunks)
    {
      ParseWebpExactly(data, chunks);
    }
    assert ParseWebp(data).Some? <==> IsWebp(data);
  }

  // ---------------------------------------------------------------------------
  // The walk
  // ---------------------------------------------------------------------------

  /** The parser's step, in the walk's own indices. */
  lemma ParseChunksAt(data: Data, pos: nat)
    requires pos < |data|
    ensures ParseChunks(data[pos..]).Some? <==>
            && pos + 8 <= |data|
            && var size := LittleEndian(data[pos + 4..pos + 8]);
            var end := pos + 8 + size + size % 2;
            end <= |data| && ParseChunks(data[end..]).Some?
  {
    if pos + 8 <= |data| {
      SliceOfSuffix(data, pos, 4, 8);
      var size := LittleEndian(data[pos + 4..pos + 8]);
      var length := 8 + size + size % 2;
      if pos + length <= |data| {
        SliceOfSuffix(data, pos, length, length);
      }
    }
  }

  /** Accepts exactly the encodings of well-formed chunk lists. */
  method ValidateWebp(data: Data) returns (accepted: bool)
    ensures accepted <==> IsWebp(data)
  {
    ParsesIsWebp(data);
    if |data| < 12 || data[..4] != RIFF || data[8..12] != WEBP {
      return false;
    }
    var riffSize := LittleEndian(data[4..8]);
    if riffSize != |data| - 8 {
      return false;
    }
    accepted := WalkChunks(data, 12);
  }

  /** The loop over the chunks, from the first one at `start`. */
  method WalkChunks(data: Data, start: nat) returns (accepted: bool)
    requires start <= |data|
    ensures accepted <==> ParseChunks(data[start..]).Some?
  {
    var pos := start;
    while pos < |data|
      invariant start <= pos <= |data|
      invariant ParseChunks(data[start..]).Some? <==> ParseChunks(data[pos..]).Some?
      decreases |data| - pos
    {
      ParseChunksAt(data, pos);
      if pos + 8 > |data| {
        return false;
      }
      var chunkSize := LittleEndian(data[pos + 4..pos + 8]);
      var end := pos + 8 + chunkSize + chunkSize % 2;
      if end > |data| {
        return false;
      }
      pos := end;
    }
    return pos == |data|;
  }
}
