/**
 * The JPEG marker walk (backend/hargaturun/image_ingestion.py:210-264) against a grammar of
 * markers, length-counted segments and entropy-coded data (sections B.1.1 and B.2.1 of ITU-T T.81).
 */
module Jpeg {
  import opened Bytes
  import opened Wrappers

  // ---------------------------------------------------------------------------
  // The grammar
  // ---------------------------------------------------------------------------

  /** Entropy-coded data: a byte below 0xFF, a stuffed 0xFF, or a restart marker; runs of 0xFF are fill. */
  datatype Unit = Plain(b: Byte) | Stuffed(fill: nat) | Restart(fill: nat, k: nat)

  /** What stands between SOI and EOI; `fill` counts the extra 0xFF bytes before a marker's code. */
  datatype Item =
    | Standalone(fill: nat, code: Byte)
    | Segment(fill: nat, code: Byte, payload: Data)
    | Scan(fill: nat, header: Data, entropy: seq<Unit>)

  datatype Image = Image(items: seq<Item>, eoiFill: nat)

  const SOI: Data := [0xFF, 0xD8]

  predicate IsRestart(code: Byte) {
    0xD0 <= code <= 0xD7
  }

  predicate IsStandalone(code: Byte) {
    code == 0x01 || IsRestart(code)
  }

  predicate IsSegment(code: Byte) {
    code !in {0x00, 0x01, 0xFF, 0xDA} && !(0xD0 <= code <= 0xD9)
  }

  function Fill(n: nat): Data {
    seq(n, _ => 0xFF)
  }

  function Marker(fill: nat, code: Byte): Data {
    Fill(fill + 1) + [code]
  }

  function Counted(payload: Data): Data {
    ToBigEndian(|payload| + 2, 2) + payload
  }

  predicate UnitOk(u: Unit) {
    (u.Plain? ==> u.b != 0xFF) && (u.Restart? ==> u.k < 8)
  }

  function EncodeUnit(u: Unit): Data
    requires UnitOk(u)
  {
    match u
    case Plain(b) => [b]
    case Stuffed(fill) => Marker(fill, 0x00)
    case Restart(fill, k) => Marker(fill, 0xD0 + k)
  }

  function EncodeUnits(units: seq<Unit>): Data
    requires forall u | u in units :: UnitOk(u)
  {
    if units == [] then []
    else
      assert units[0] in units;
      EncodeUnit(units[0]) + EncodeUnits(units[1..])
  }

  predicate ItemOk(item: Item) {
    match item
    case Standalone(_, code) => IsStandalone(code)
    case Segment(_, code, payload) => IsSegment(code) && |payload| + 2 < 0x1_0000
    case Scan(_, header, entropy) => |header| + 2 < 0x1_0000 && forall u | u in entropy :: UnitOk(u)
  }

  function EncodeItem(item: Item): Data
    requires ItemOk(item)
  {
    match item
    case Standalone(fill, code) => Marker(fill, code)
    case Segment(fill, code, payload) => Marker(fill, code) + Counted(payload)
    case Scan(fill, header, entropy) => Marker(fill, 0xDA) + Counted(header) + EncodeUnits(entropy)
  }

  /** The items are in order, and no restart marker follows a scan: it would belong to the scan. */
  predicate ItemsOk(items: seq<Item>) {
    && (forall item | item in items :: ItemOk(item))
    && (forall i | 0 < i < |items| :: items[i - 1].Scan? && items[i].Standalone? ==> !IsRestart(items[i].code))
  }

  function EncodeItems(items: seq<Item>, eoiFill: nat): Data
    requires forall item | item in items :: ItemOk(item)
  {
    if items == [] then Marker(eoiFill, 0xD9)
    else EncodeItem(items[0]) + EncodeItems(items[1..], eoiFill)
  }

  function EncodeJpeg(image: Image): Data
    requires ItemsOk(image.items)
  {
    SOI + EncodeItems(image.items, image.eoiFill)
  }

  ghost predicate IsJpeg(data: Data) {
    exists image: Image :: ItemsOk(image.items) && data == EncodeJpeg(image)
  }

  // ---------------------------------------------------------------------------
  // Parsing
  // ---------------------------------------------------------------------------

  /** How many 0xFF bytes `s` begins with. */
  function FillRun(s: Data): (n: nat)
    ensures n <= |s|
    ensures n < |s| ==> s[n] != 0xFF
  {
    if s != [] && s[0] == 0xFF then 1 + FillRun(s[1..]) else 0
  }

  datatype Marked = Marked(fill: nat, code: Byte, rest: Data)

  function ParseMarker(s: Data): (r: Option<Marked>)
    ensures r.Some? ==> |r.value.rest| < |s| && r.value.code != 0xFF
  {
    var n := FillRun(s);
    if n == 0 || n == |s| then None else Some(Marked(n - 1, s[n], s[n + 1..]))
  }

  datatype CountedRest = CountedRest(payload: Data, rest: Data)

  function ParseCounted(s: Data): (r: Option<CountedRest>)
    ensures r.Some? ==> |r.value.rest| < |s|
  {
    if |s| < 2 then None
    else
      var length := BigEndian(s[..2]);
      if length < 2 || length > |s| then None else Some(CountedRest(s[2..length], s[length..]))
  }

  datatype EntropyRest = EntropyRest(units: seq<Unit>, rest: Data)

  /** Entropy data up to the next marker of another kind, or the end; `None` when 0xFF ends the data. */
  function ParseEntropy(s: Data): (r: Option<EntropyRest>)
    ensures r.Some? ==> |r.value.rest| <= |s|
    decreases |s|
  {
    if s == [] then Some(EntropyRest([], []))
    else if s[0] != 0xFF then Prepend(Plain(s[0]), ParseEntropy(s[1..]))
    else if ParseMarker(s).None? then None
    else
      var m := ParseMarker(s).value;
      if m.code == 0x00 then Prepend(Stuffed(m.fill), ParseEntropy(m.rest))
      else if IsRestart(m.code) then Prepend(Restart(m.fill, m.code - 0xD0), ParseEntropy(m.rest))
      else Some(EntropyRest([], s))
  }

  function Prepend(u: Unit, r: Option<EntropyRest>): Option<EntropyRest> {
    if r.None? then None else Some(EntropyRest([u] + r.value.units, r.value.rest))
  }

  function PrependItem(item: Item, r: Option<Image>): Option<Image> {
    if r.None? then None else Some(Image([item] + r.value.items, r.value.eoiFill))
  }

  /** Everything after SOI. */
  function ParseItems(s: Data): Option<Image>
    decreases |s|
  {
    if ParseMarker(s).None? then None
    else
      var m := ParseMarker(s).value;
      if m.code == 0xD9 then
        if m.rest == [] then Some(Image([], m.fill)) else None
      else if m.code == 0x00 || m.code == 0xD8 then None
      else if IsStandalone(m.code) then PrependItem(Standalone(m.fill, m.code), ParseItems(m.rest))
      else if ParseCounted(m.rest).None? then None
      else
        var c := ParseCounted(m.rest).value;
        if m.code != 0xDA then PrependItem(Segment(m.fill, m.code, c.payload), ParseItems(c.rest))
        else if ParseEntropy(c.rest).None? then None
        else
          var e := ParseEntropy(c.rest).value;
          PrependItem(Scan(m.fill, c.payload, e.units), ParseItems(e.rest))
  }

  function ParseJpeg(data: Data): Option<Image> {
    if |data| < 4 || data[..2] != SOI then None else ParseItems(data[2..])
  }

  // ---------------------------------------------------------------------------
  // Markers and counted segments, both ways
  // ---------------------------------------------------------------------------

  lemma {:induction false} FillRunOf(n: nat, t: Data)
    requires t != [] && t[0] != 0xFF
    ensures FillRun(Fill(n) + t) == n
  {
    if n == 0 {
      assert Fill(0) + t == t;
    } else {
      FillRunOf(n - 1, t);
      assert (Fill(n) + t)[1..] == Fill(n - 1) + t;
    }
  }

  lemma MarkerParses(fill: nat, code: Byte, t: Data)
    requires code != 0xFF
    ensures ParseMarker(Marker(fill, code) + t) == Some(Marked(fill, code, t))
    ensures (Marker(fill, code) + t)[0] == 0xFF
  {
    Associate(Fill(fill + 1), [code], t);
    FillRunOf(fill + 1, [code] + t);
    DropPrefix(Marker(fill, code), t);
  }

  lemma {:induction false} FillRunIs(s: Data)
    ensures s[..FillRun(s)] == Fill(FillRun(s))
  {
    if s != [] && s[0] == 0xFF {
      FillRunIs(s[1..]);
      assert s[..FillRun(s)] == [0xFF] + s[1..][..FillRun(s[1..])];
    }
  }

  lemma ParsedMarker(s: Data)
    requires ParseMarker(s).Some?
    ensures var m := ParseMarker(s).value; s == Marker(m.fill, m.code) + m.rest
  {
    var n := FillRun(s);
    FillRunIs(s);
    assert s == s[..n] + [s[n]] + s[n + 1..];
  }

  lemma CountedParses(payload: Data, t: Data)
    requires |payload| + 2 < 0x1_0000
    ensures ParseCounted(Counted(payload) + t) == Some(CountedRest(payload, t))
  {
    Widths();
    var n := |payload| + 2;
    BigEndianRead(n, 2);
    var s := Counted(payload) + t;
    assert s[..2] == ToBigEndian(n, 2);
    assert s[2..n] == payload && s[n..] == t;
  }

  lemma ParsedCounted(s: Data)
    requires ParseCounted(s).Some?
    ensures var c := ParseCounted(s).value;
            |c.payload| + 2 < 0x1_0000 && s == Counted(c.payload) + c.rest
  {
    Widths();
    BigEndianWritten(s[..2]);
    var length := BigEndian(s[..2]);
    assert s == s[..2] + s[2..length] + s[length..];
  }

  // ---------------------------------------------------------------------------
  // Entropy data, both ways
  // ---------------------------------------------------------------------------

  /** `s` is where entropy data stops: the end, or a marker that is neither stuffing nor a restart. */
  predicate StopsEntropy(s: Data) {
    s == [] || (ParseMarker(s).Some? && ParseMarker(s).value.code != 0x00 && !IsRestart(ParseMarker(s).value.code))
  }

  lemma {:induction false} EntropyParses(units: seq<Unit>, t: Data)
    requires forall u | u in units :: UnitOk(u)
    requires StopsEntropy(t)
    ensures ParseEntropy(EncodeUnits(units) + t) == Some(EntropyRest(units, t))
  {
    if units == [] {
      assert EncodeUnits(units) + t == t;
      if t != [] {
        ParsedMarker(t);
      }
    } else {
      var u, more := units[0], EncodeUnits(units[1..]) + t;
      assert u in units;
      EntropyParses(units[1..], t);
      Associate(EncodeUnit(u), EncodeUnits(units[1..]), t);
      UnitParses(u, more);
      assert [u] + units[1..] == units;
    }
  }

  lemma UnitParses(u: Unit, more: Data)
    requires UnitOk(u)
    ensures ParseEntropy(EncodeUnit(u) + more) == Prepend(u, ParseEntropy(more))
  {
    match u
    case Plain(b) => assert ([b] + more)[1..] == more;
    case Stuffed(fill) => MarkerParses(fill, 0x00, more);
    case Restart(fill, k) => MarkerParses(fill, 0xD0 + k, more);
  }

  lemma {:induction false} ParsedEntropy(s: Data)
    requires ParseEntropy(s).Some?
    ensures var e := ParseEntropy(s).value;
            && (forall u :: u in e.units ==> UnitOk(u))
            && s == EncodeUnits(e.units) + e.rest
            && StopsEntropy(e.rest)
    decreases |s|
  {
    if s != [] {
      var rest, u;
      if s[0] != 0xFF {
        rest, u := s[1..], Plain(s[0]);
      } else {
        ParsedMarker(s);
        var m := ParseMarker(s).value;
        rest, u := m.rest, if m.code == 0x00 then Stuffed(m.fill) else Restart(m.fill, if IsRestart(m.code) then m.code - 0xD0 else 0);
        if m.code != 0x00 && !IsRestart(m.code) {
          assert EncodeUnits([]) + s == s;
          return;
        }
      }
      ParsedEntropy(rest);
      var e := ParseEntropy(rest).value;
      assert ([u] + e.units)[1..] == e.units;
      assert s == EncodeUnit(u) + rest;
      Associate(EncodeUnit(u), EncodeUnits(e.units), e.rest);
    }
  }

  // ---------------------------------------------------------------------------
  // Items, both ways
  // ---------------------------------------------------------------------------

  /** The code of the first marker of an encoded list of items. */
  function FirstCode(items: seq<Item>): Byte {
    if items == [] then 0xD9
    else
      match items[0]
      case Standalone(_, code) => code
      case Segment(_, code, _) => code
      case Scan(_, _, _) => 0xDA
  }

  lemma FirstMarker(items: seq<Item>, eoiFill: nat, t: Data)
    requires ItemsOk(items)
    ensures var m := ParseMarker(EncodeItems(items, eoiFill) + t);
            m.Some? && m.value.code == FirstCode(items)
  {
    if items == [] {
      MarkerParses(eoiFill, 0xD9, t);
    } else {
      var item, more := items[0], EncodeItems(items[1..], eoiFill);
      assert item in items;
      Associate(EncodeItem(item), more, t);
      match item
      case Standalone(fill, code) => MarkerParses(fill, code, more + t);
      case Segment(fill, code, payload) =>
        Associate(Marker(fill, code), Counted(payload), more + t);
        MarkerParses(fill, code, Counted(payload) + (more + t));
      case Scan(fill, header, entropy) =>
        Associate(Marker(fill, 0xDA), Counted(header), EncodeUnits(entropy));
        Associate(Marker(fill, 0xDA), Counted(header) + EncodeUnits(entropy), more + t);
        MarkerParses(fill, 0xDA, (Counted(header) + EncodeUnits(entropy)) + (more + t));
    }
  }

  lemma ItemParses(item: Item, rest: Data)
    requires ItemOk(item)
    requires item.Scan? ==> StopsEntropy(rest)
    ensures ParseItems(EncodeItem(item) + rest) == PrependItem(item, ParseItems(rest))
  {
    match item
    case Standalone(fill, code) =>
      MarkerParses(fill, code, rest);
    case Segment(fill, code, payload) =>
      Associate(Marker(fill, code), Counted(payload), rest);
      MarkerParses(fill, code, Counted(payload) + rest);
      CountedParses(payload, rest);
      SegmentStep(EncodeItem(item) + rest, fill, code, Counted(payload) + rest, payload, rest);
    case Scan(fill, header, entropy) =>
      var data := EncodeUnits(entropy) + rest;
      ScanAssociates(fill, header, entropy, rest);
      MarkerParses(fill, 0xDA, Counted(header) + data);
      CountedParses(header, data);
      EntropyParses(entropy, rest);
      ScanStep(EncodeItem(item) + rest, fill, Counted(header) + data, header, data, entropy, rest);
  }

  lemma SegmentStep(s: Data, fill: nat, code: Byte, counted: Data, payload: Data, rest: Data)
    requires ParseMarker(s) == Some(Marked(fill, code, counted)) && IsSegment(code)
    requires ParseCounted(counted) == Some(CountedRest(payload, rest))
    ensures ParseItems(s) == PrependItem(Segment(fill, code, payload), ParseItems(rest))
  {
  }

  lemma ScanStep(s: Data, fill: nat, counted: Data, header: Data, data: Data, entropy: seq<Unit>, rest: Data)
    requires ParseMarker(s) == Some(Marked(fill, 0xDA, counted))
    requires ParseCounted(counted) == Some(CountedRest(header, data))
    requires ParseEntropy(data) == Some(EntropyRest(entropy, rest))
    ensures ParseItems(s) == PrependItem(Scan(fill, header, entropy), ParseItems(rest))
  {
  }

  lemma ScanAssociates(fill: nat, header: Data, entropy: seq<Unit>, rest: Data)
    requires forall u | u in entropy :: UnitOk(u)
    ensures Marker(fill, 0xDA) + Counted(header) + EncodeUnits(entropy) + rest
            == Marker(fill, 0xDA) + (Counted(header) + (EncodeUnits(entropy) + rest))
  {
    Associate(Marker(fill, 0xDA) + Counted(header), EncodeUnits(entropy), rest);
    Associate(Marker(fill, 0xDA), Counted(header), EncodeUnits(entropy) + rest);
  }

  lemma ItemsOkTail(items: seq<Item>)
    requires ItemsOk(items) && items != []
    ensures ItemOk(items[0]) && ItemsOk(items[1..])
    ensures items[0].Scan? ==> FirstCode(items[1..]) != 0x00 && !IsRestart(FirstCode(items[1..]))
  {
    var more := items[1..];
    assert items[0] in items;
    assert forall i :: 0 <= i < |more| ==> more[i] == items[i + 1];
    if more != [] {
      assert more[0] in more && items[1] in items;
    }
  }

  /** An encoded image parses back to itself, and nothing may follow its EOI. */
  lemma {:induction false} ItemsParse(items: seq<Item>, eoiFill: nat, t: Data)
    requires ItemsOk(items)
    ensures ParseItems(EncodeItems(items, eoiFill) + t) == if t == [] then Some(Image(items, eoiFill)) else None
  {
    if items == [] {
      MarkerParses(eoiFill, 0xD9, t);
    } else {
      var more := items[1..];
      ItemsOkTail(items);
      ItemsParse(more, eoiFill, t);
      FirstMarker(more, eoiFill, t);
      Associate(EncodeItem(items[0]), EncodeItems(more, eoiFill), t);
      ItemParses(items[0], EncodeItems(more, eoiFill) + t);
      assert [items[0]] + more == items;
    }
  }

  /** What a parsed image is worth: it is well formed and encodes the bytes it came from. */
  ghost predicate Faithful(image: Image, s: Data) {
    ItemsOk(image.items) && EncodeItems(image.items, image.eoiFill) == s
  }

  lemma PrependFaithful(item: Item, image: Image, s: Data, rest: Data)
    requires ItemOk(item) && Faithful(image, rest) && s == EncodeItem(item) + rest
    requires item.Scan? ==> StopsEntropy(rest)
    ensures Faithful(Image([item] + image.items, image.eoiFill), s)
  {
    var items := [item] + image.items;
    assert items[1..] == image.items;
    if item.Scan? && image.items != [] {
      FirstMarker(image.items, image.eoiFill, []);
      assert rest + [] == rest;
      assert items[1].Standalone? ==> !IsRestart(items[1].code);
    }
    forall i | 0 < i < |items|
      ensures items[i - 1].Scan? && items[i].Standalone? ==> !IsRestart(items[i].code)
    {
      if i > 1 {
        assert items[i - 1] == image.items[i - 2] && items[i] == image.items[i - 1];
      }
    }
  }

  lemma {:induction false} ParsedItems(s: Data)
    requires ParseItems(s).Some?
    ensures Faithful(ParseItems(s).value, s)
    decreases |s|
  {
    var m := ParseMarker(s).value;
    ParsedMarker(s);
    if m.code == 0xD9 {
      assert Marker(m.fill, 0xD9) + [] == Marker(m.fill, 0xD9);
    } else if IsStandalone(m.code) {
      ParsedItems(m.rest);
      PrependFaithful(Standalone(m.fill, m.code), ParseItems(m.rest).value, s, m.rest);
    } else {
      ParsedCounted(m.rest);
      var c := ParseCounted(m.rest).value;
      if m.code != 0xDA {
        ParsedItems(c.rest);
        Associate(Marker(m.fill, m.code), Counted(c.payload), c.rest);
        PrependFaithful(Segment(m.fill, m.code, c.payload), ParseItems(c.rest).value, s, c.rest);
      } else {
        ParsedEntropy(c.rest);
        var e := ParseEntropy(c.rest).value;
        ParsedItems(e.rest);
        ScanAssociates(m.fill, c.payload, e.units, e.rest);
        PrependFaithful(Scan(m.fill, c.payload, e.units), ParseItems(e.rest).value, s, e.rest);
      }
    }
  }

  // ---------------------------------------------------------------------------
  // The accepted language
  // ---------------------------------------------------------------------------

  lemma EncodedLength(items: seq<Item>, eoiFill: nat)
    requires ItemsOk(items)
    ensures 2 <= |EncodeItems(items, eoiFill)|
  {
    if items != [] {
      ItemsOkTail(items);
    }
  }

  /** The parser accepts exactly the encodings of well-formed images, and is inverse to the encoder. */
  lemma ParseJpegExactly(data: Data, image: Image)
    ensures ParseJpeg(data) == Some(image) <==> ItemsOk(image.items) && data == EncodeJpeg(image)
  {
    if ParseJpeg(data) == Some(image) {
      ParsedItems(data[2..]);
      assert data == data[..2] + data[2..];
    }
    if ItemsOk(image.items) && data == EncodeJpeg(image) {
      var body := EncodeItems(image.items, image.eoiFill);
      ItemsParse(image.items, image.eoiFill, []);
      EncodedLength(image.items, image.eoiFill);
      DropPrefix(SOI, body);
      assert body + [] == body;
    }
  }

  /** A byte string encodes at most one image, and no accepted string extends another. */
  lemma JpegPrefixFree(a: Image, b: Image, t: Data)
    requires ItemsOk(a.items) && ItemsOk(b.items) && EncodeJpeg(a) + t == EncodeJpeg(b)
    ensures t == [] && a == b
  {
    var x, y := EncodeItems(a.items, a.eoiFill), EncodeItems(b.items, b.eoiFill);
    ItemsParse(a.items, a.eoiFill, t);
    ItemsParse(b.items, b.eoiFill, []);
    Associate(SOI, x, t);
    DropPrefix(SOI, x + t);
    DropPrefix(SOI, y);
    assert y + [] == y;
  }

  lemma ParsesIsJpeg(data: Data)
    ensures ParseJpeg(data).Some? <==> IsJpeg(data)
  {
    forall image: Image
      ensures ParseJpeg(data) == Some(image) <==> ItemsOk(image.items) && data == EncodeJpeg(image)
    {
      ParseJpegExactly(data, image);
    }
  }
}
