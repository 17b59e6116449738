/** The index-based JPEG walk (backend/hargaturun/image_ingestion.py:210-264), proved to accept the grammar of `Jpeg`. */
module JpegWalk {
  import opened Bytes
  import opened Jpeg
  import opened Wrappers

  /** Past the run of 0xFF bytes that starts at `pos`. */
  method SkipFill(data: Data, pos: nat) returns (next: nat)
    requires pos < |data| && data[pos] == 0xFF
    ensures pos < next <= |data| && FillRun(data[pos..]) == next - pos
  {
    next := pos;
    while next < |data| && data[next] == 0xFF
      invariant pos <= next <= |data|
      invariant FillRun(data[pos..]) == next - pos + FillRun(data[next..])
    {
      assert data[next..][1..] == data[next + 1..];
      next := next + 1;
    }
  }

  lemma MarkerAt(data: Data, pos: nat, next: nat)
    requires pos < next <= |data| && FillRun(data[pos..]) == next - pos
    ensures ParseMarker(data[pos..]) ==
            if next == |data| then None else Some(Marked(next - pos - 1, data[next], data[next + 1..]))
  {
    if next < |data| {
      assert data[pos..][next - pos + 1..] == data[next + 1..];
    }
  }

  /** Where the length-counted segment that starts at `markerPos` ends. */
  method SegmentEnd(data: Data, markerPos: nat) returns (end: Option<nat>)
    requires markerPos <= |data|
    ensures end.None? <==> ParseCounted(data[markerPos..]).None?
    ensures end.Some? ==>
              markerPos < end.value <= |data| && ParseCounted(data[markerPos..]).value.rest == data[end.value..]
  {
    if markerPos + 2 > |data| {
      return None;
    }
    SliceOfSuffix(data, markerPos, 0, 2);
    var length := BigEndian(data[markerPos..markerPos + 2]);
    if length < 2 || markerPos + length > |data| {
      return None;
    }
    SliceOfSuffix(data, markerPos, length, length);
    return Some(markerPos + length);
  }

  /** What entropy parsing leaves over, if it succeeds. */
  function RestOf(r: Option<EntropyRest>): Option<Data> {
    if r.None? then None else Some(r.value.rest)
  }

  lemma PlainStep(data: Data, pos: nat)
    requires pos < |data| && data[pos] != 0xFF
    ensures RestOf(ParseEntropy(data[pos..])) == RestOf(ParseEntropy(data[pos + 1..]))
  {
    SliceOfSuffix(data, pos, 1, 1);
  }

  lemma MarkerStep(s: Data)
    requires s != [] && s[0] == 0xFF
    ensures RestOf(ParseEntropy(s)) ==
            if ParseMarker(s).None? then None
            else if ParseMarker(s).value.code == 0x00 || IsRestart(ParseMarker(s).value.code) then
              RestOf(ParseEntropy(ParseMarker(s).value.rest))
            else Some(s)
  {
  }

  lemma MarkerStepAt(data: Data, pos: nat, next: nat)
    requires pos < next <= |data| && data[pos] == 0xFF && FillRun(data[pos..]) == next - pos
    ensures RestOf(ParseEntropy(data[pos..])) ==
            if next == |data| then None
            else if data[next] == 0x00 || IsRestart(data[next]) then RestOf(ParseEntropy(data[next + 1..]))
            else Some(data[pos..])
  {
    MarkerAt(data, pos, next);
    MarkerStep(data[pos..]);
  }

  /** Over the entropy data that starts at `start`, to the marker that ends it or the end of the data. */
  method ScanEntropy(data: Data, start: nat) returns (end: Option<nat>)
    requires start <= |data|
    ensures end.None? ==> ParseEntropy(data[start..]).None?
    ensures end.Some? ==> start <= end.value <= |data| && RestOf(ParseEntropy(data[start..])) == Some(data[end.value..])
  {
    var pos := start;
    while pos < |data|
      invariant start <= pos <= |data|
      invariant RestOf(ParseEntropy(data[start..])) == RestOf(ParseEntropy(data[pos..]))
      decreases |data| - pos
    {
      if data[pos] != 0xFF {
        PlainStep(data, pos);
        pos := pos + 1;
      } else {
        var next := SkipMarkerInEntropy(data, pos);
        if next.None? {
          return None;
        }
        if next.value == pos {
          return Some(pos);
        }
        pos := next.value;
      }
    }
    return Some(pos);
  }

  /** Past a stuffed 0xFF or a restart marker, or nowhere at another marker; `None` when 0xFF ends the data. */
  method SkipMarkerInEntropy(data: Data, markerStart: nat) returns (next: Option<nat>)
    requires markerStart < |data| && data[markerStart] == 0xFF
    ensures var rest := RestOf(ParseEntropy(data[markerStart..]));
            if next.None? then rest == None
            else if next.value == markerStart then rest == Some(data[markerStart..])
            else markerStart < next.value <= |data| && rest == RestOf(ParseEntropy(data[next.value..]))
  {
    var pos := SkipFill(data, markerStart);
    MarkerStepAt(data, markerStart, pos);
    if pos >= |data| {
      return None;
    }
    var nextMarker := data[pos];
    if nextMarker == 0x00 || IsRestart(nextMarker) {
      return Some(pos + 1);
    }
    return Some(markerStart);
  }

  /** What follows a marker's code at `start`: its segment and entropy data, if it has them. */
  method Follow(data: Data, start: nat, marker: Byte, ghost fill: nat, ghost s: Data) returns (next: nat, done: Option<bool>)
    requires start <= |data| && ParseMarker(s) == Some(Marked(fill, marker, data[start..]))
    ensures done.Some? ==> (done.value <==> ParseItems(s).Some?)
    ensures done.None? ==> start <= next <= |data| && (ParseItems(s).Some? <==> ParseItems(data[next..]).Some?)
  {
    next := start;
    if marker == 0xD9 {
      return next, Some(next == |data|);
    }
    if marker == 0x00 || marker == 0xD8 {
      return next, Some(false);
    }
    if IsStandalone(marker) {
      return next, None;
    }
    var end := SegmentEnd(data, next);
    if end.None? {
      return next, Some(false);
    }
    next := end.value;
    if marker == 0xDA {
      end := ScanEntropy(data, next);
      if end.None? {
        return next, Some(false);
      }
      next := end.value;
    }
    return next, None;
  }

  /** One marker of the walk and whatever belongs to it; `done` carries the verdict when the walk ends. */
  method Advance(data: Data, pos: nat) returns (next: nat, done: Option<bool>)
    requires pos < |data|
    ensures done.Some? ==> (done.value <==> ParseItems(data[pos..]).Some?)
    ensures done.None? ==> pos < next <= |data| && (ParseItems(data[pos..]).Some? <==> ParseItems(data[next..]).Some?)
  {
    if data[pos] != 0xFF {
      NoMarkerNoItems(data[pos..]);
      return pos, Some(false);
    }
    next := SkipFill(data, pos);
    MarkerAt(data, pos, next);
    if next >= |data| {
      NoMarkerNoItems(data[pos..]);
      return next, Some(false);
    }
    next, done := Follow(data, next + 1, data[next], next - pos - 1, data[pos..]);
  }

  lemma NoMarkerNoItems(s: Data)
    requires ParseMarker(s).None?
    ensures ParseItems(s).None?
  {
  }

  /** Accepts exactly the encodings of well-formed images. */
  method ValidateJpeg(data: Data) returns (accepted: bool)
    ensures accepted <==> IsJpeg(data)
  {
    ParsesIsJpeg(data);
    if |data| < 4 || data[..2] != SOI {
      return false;
    }
    var pos := 2;
    while pos < |data|
      invariant 2 <= pos <= |data|
      invariant IsJpeg(data) <==> ParseItems(data[pos..]).Some?
      decreases |data| - pos
    {
      var next, done := Advance(data, pos);
      if done.Some? {
        return done.value;
      }
      pos := next;
    }
    return false;
  }
}
