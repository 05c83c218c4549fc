/** Reading an image's size from the head of its file (scripts/week4_cloud/run_bagel_workload_manifest.py:41-84), and
    what the JPEG scan accepts.  Markers and segments are those of ITU-T T.81: B.1.1.2 (markers and fill bytes), B.1.1.4
    (marker segments) and B.2.2 (frame header). */
module JpegScan {
  import opened Options

  type Byte = x: int | 0 <= x < 256

  datatype Size = Size(width: nat, height: nat)

  const HEAD := 65536

  const PNG: seq<Byte> := [0x89, 0x50, 0x4E, 0x47, 0x0D, 0x0A, 0x1A, 0x0A]
  const RIFF: seq<Byte> := [0x52, 0x49, 0x46, 0x46]
  const WEBP: seq<Byte> := [0x57, 0x45, 0x42, 0x50]
  const VP8X: seq<Byte> := [0x56, 0x50, 0x38, 0x58]
  const SOI: seq<Byte> := [0xFF, 0xD8]

  // ----- bytes

  /** Python's `s[i:j]`: clamped, never an error. */
  function Slice(s: seq<Byte>, i: nat, j: nat): seq<Byte>
    requires i <= j
  {
    if |s| <= i then [] else if |s| < j then s[i..] else s[i..j]
  }

  function BigEndian(s: seq<Byte>): nat {
    if s == [] then 0 else BigEndian(s[..|s| - 1]) * 256 + s[|s| - 1]
  }

  function LittleEndian(s: seq<Byte>): nat {
    if s == [] then 0 else s[0] + 256 * LittleEndian(s[1..])
  }

  predicate FrameMarker(m: Byte) {
    0xC0 <= m <= 0xCF && m != 0xC4 && m != 0xC8 && m != 0xCC
  }

  // ----- specification of the scan

  /** The marker whose code starts at `i`, fill bytes skipped, and where it ends. */
  function MarkerAt(data: seq<Byte>, i: nat): (r: (Byte, nat))
    requires i < |data|
    ensures i < r.1 <= |data|
    decreases |data| - i
  {
    if data[i] == 0xFF && i + 1 < |data| then MarkerAt(data, i + 1) else (data[i], i + 1)
  }

  function SizeAt(data: seq<Byte>, at: nat): Size {
    Size(BigEndian(Slice(data, at + 5, at + 7)), BigEndian(Slice(data, at + 3, at + 5)))
  }

  function Scan(data: seq<Byte>, offset: nat): Option<Size>
    decreases |data| - offset
  {
    if |data| <= offset + 9 then None
    else if data[offset] != 0xFF then Scan(data, offset + 1)
    else
      var (marker, at) := MarkerAt(data, offset + 1);
      if marker == 0xD8 || marker == 0xD9 then Scan(data, at)
      else if |data| < at + 2 then None
      else
        var length := BigEndian(data[at..at + 2]);
        if length < 2 || |data| < at + length then None
        else if FrameMarker(marker) then Some(SizeAt(data, at))
        else Scan(data, at + length)
  }

  predicate StartsWith(s: seq<Byte>, prefix: seq<Byte>) {
    |prefix| <= |s| && s[..|prefix|] == prefix
  }

  function Head(file: seq<Byte>): seq<Byte> {
    if |file| <= HEAD then file else file[..HEAD]
  }

  function Dimensions(file: seq<Byte>): Option<Size> {
    var data := Head(file);
    if StartsWith(data, PNG) && 24 <= |data| then Some(Size(BigEndian(data[16..20]), BigEndian(data[20..24])))
    else if StartsWith(data, RIFF) && 30 <= |data| && data[8..12] == WEBP && data[12..16] == VP8X then
      Some(Size(1 + LittleEndian(data[24..27]), 1 + LittleEndian(data[27..30])))
    else if StartsWith(data, SOI) then Scan(data, 2)
    else None
  }

  // ----- the program

  method ScanJpeg(data: seq<Byte>) returns (size: Option<Size>)
    ensures size == Scan(data, 2)
  {
    var offset: nat := 2;
    while offset + 9 < |data|
      invariant Scan(data, 2) == Scan(data, offset)
      decreases |data| - offset
    {
      if data[offset] != 0xFF {
        offset := offset + 1;
        continue;
      }
      ghost var start := offset;
      var marker := data[offset + 1];
      offset := offset + 2;
      while marker == 0xFF && offset < |data|
        invariant start + 2 <= offset <= |data| && marker == data[offset - 1]
        invariant MarkerAt(data, start + 1) == MarkerAt(data, offset - 1)
      {
        marker := data[offset];
        offset := offset + 1;
      }
      assert MarkerAt(data, start + 1) == (marker, offset);
      if marker == 0xD8 || marker == 0xD9 {
        continue;
      }
      if |data| < offset + 2 {
        break;
      }
      var length := BigEndian(data[offset..offset + 2]);
      if length < 2 || |data| < offset + length {
        break;
      }
      if FrameMarker(marker) {
        var height := BigEndian(Slice(data, offset + 3, offset + 5));
        var width := BigEndian(Slice(data, offset + 5, offset + 7));
        return Some(Size(width, height));
      }
      offset := offset + length;
    }
    return None;
  }

  method ImageDimensions(file: seq<Byte>) returns (size: Option<Size>)
    ensures size == Dimensions(file)
  {
    var data := Head(file);
    if StartsWith(data, PNG) && 24 <= |data| {
      return Some(Size(BigEndian(data[16..20]), BigEndian(data[20..24])));
    }
    if StartsWith(data, RIFF) && 30 <= |data| && data[8..12] == WEBP {
      if data[12..16] == VP8X {
        return Some(Size(1 + LittleEndian(data[24..27]), 1 + LittleEndian(data[27..30])));
      }
    }
    if StartsWith(data, SOI) {
      size := ScanJpeg(data);
      return;
    }
    return None;
  }

  // ----- the format

  /** What may stand between SOI and the frame header, as the scan understands it: a stray byte, a start or end of
      image, or a segment with a length, the latter two behind any number of fill bytes. */
  datatype Item =
    | Stray(byte: Byte)
    | Image(fill: nat, marker: Byte)
    | Segment(fill: nat, marker: Byte, body: seq<Byte>)

  /** What follows a segment's marker begins with its own length. */
  predicate SelfSized(body: seq<Byte>) {
    2 <= |body| && BigEndian(body[..2]) == |body|
  }

  predicate Plain(item: Item) {
    match item
    case Stray(byte) => byte != 0xFF
    case Image(_, marker) => marker == 0xD8 || marker == 0xD9
    case Segment(_, marker, body) =>
      marker != 0xFF && marker != 0xD8 && marker != 0xD9 && !FrameMarker(marker) && SelfSized(body)
  }

  /** A marker behind fill bytes. */
  function MarkerBytes(fill: nat, marker: Byte): (s: seq<Byte>)
    ensures |s| == fill + 2
  {
    if fill == 0 then [0xFF, marker] else [0xFF] + MarkerBytes(fill - 1, marker)
  }

  function ItemBytes(item: Item): seq<Byte> {
    match item
    case Stray(byte) => [byte]
    case Image(fill, marker) => MarkerBytes(fill, marker)
    case Segment(fill, marker, body) => MarkerBytes(fill, marker) + body
  }

  function Bytes(items: seq<Item>): seq<Byte> {
    if items == [] then [] else ItemBytes(items[0]) + Bytes(items[1..])
  }

  predicate AllPlain(items: seq<Item>) {
    forall i :: 0 <= i < |items| ==> Plain(items[i])
  }

  /** A number in `count` bytes, most significant first. */
  function Digits(n: nat, count: nat): (s: seq<Byte>)
    ensures |s| == count
    decreases count, n
  {
    if count == 0 then [] else Digits(n / 256, count - 1) + [n % 256]
  }

  /** A frame header: sample precision, height, width, number of components, three bytes for each. */
  datatype Frame = Frame(marker: Byte, precision: Byte, height: nat, width: nat, components: seq<(Byte, Byte, Byte)>) {
    predicate Valid() { FrameMarker(marker) && height < 65536 && width < 65536 && 1 <= |components| <= 255 }
  }

  function ComponentBytes(components: seq<(Byte, Byte, Byte)>): (s: seq<Byte>)
    ensures |s| == 3 * |components|
  {
    if components == [] then []
    else [components[0].0, components[0].1, components[0].2] + ComponentBytes(components[1..])
  }

  function FrameBody(f: Frame): (s: seq<Byte>)
    requires f.Valid()
    ensures |s| == 8 + 3 * |f.components|
  {
    Digits(8 + 3 * |f.components|, 2)
    + [f.precision] + Digits(f.height, 2) + Digits(f.width, 2) + [|f.components|] + ComponentBytes(f.components)
  }

  // ----- the scan reads exactly that format

  /** `s` stands in `data` at `i`. */
  predicate Stands(data: seq<Byte>, i: nat, s: seq<Byte>)
    decreases s
  {
    if s == [] then i <= |data| else i < |data| && data[i] == s[0] && Stands(data, i + 1, s[1..])
  }

  lemma {:induction false} StandsAsSlice(data: seq<Byte>, i: nat, s: seq<Byte>)
    ensures Stands(data, i, s) <==> i + |s| <= |data| && data[i..i + |s|] == s
    decreases s
  {
    if s != [] {
      StandsAsSlice(data, i + 1, s[1..]);
      assert s == [s[0]] + s[1..];
      if i + |s| <= |data| {
        assert data[i..i + |s|] == [data[i]] + data[i + 1..i + |s|];
      }
    }
  }

  lemma StandsPointwise(data: seq<Byte>, i: nat, s: seq<Byte>)
    ensures Stands(data, i, s) <==> i + |s| <= |data| && forall k :: 0 <= k < |s| ==> data[i + k] == s[k]
  {
    StandsAsSlice(data, i, s);
    if i + |s| <= |data| {
      var part := data[i..i + |s|];
      assert forall k :: 0 <= k < |s| ==> part[k] == data[i + k];
    }
  }

  lemma {:induction false} StandsApart(data: seq<Byte>, i: nat, a: seq<Byte>, b: seq<Byte>)
    ensures Stands(data, i, a + b) <==> Stands(data, i, a) && Stands(data, i + |a|, b)
    decreases a
  {
    if a == [] {
      assert a + b == b;
      StandsAsSlice(data, i, b);
    } else {
      assert (a + b)[1..] == a[1..] + b;
      StandsApart(data, i + 1, a[1..], b);
    }
  }

  lemma TwoBytesRead(s: seq<Byte>)
    requires |s| == 2
    ensures BigEndian(s) == s[0] as int * 256 + s[1] as int < 65536
  {
    assert s[..1] == [s[0]];
    assert BigEndian(s[..1]) == s[0] by { assert s[..1][..0] == []; }
  }

  lemma TwoDigits(n: nat)
    requires n < 65536
    ensures Digits(n, 2) == [n / 256, n % 256]
  {
    assert Digits(n / 256, 1) == Digits(n / 256 / 256, 0) + [n / 256 % 256];
  }

  lemma TwoBytesRoundTrip(n: nat)
    requires n < 65536
    ensures BigEndian(Digits(n, 2)) == n
  {
    TwoDigits(n);
    TwoBytesRead(Digits(n, 2));
  }

  /** A marker stands behind fill bytes exactly where the scan finds it. */
  lemma {:induction false} MarkerStands(data: seq<Byte>, offset: nat, fill: nat, marker: Byte)
    requires marker != 0xFF
    ensures Stands(data, offset, MarkerBytes(fill, marker)) <==>
      && offset + fill + 2 <= |data|
      && data[offset] == 0xFF && MarkerAt(data, offset + 1) == (marker, offset + fill + 2)
    decreases fill
  {
    if fill == 0 {
      StandsPointwise(data, offset, [0xFF, marker]);
    } else {
      assert MarkerBytes(fill, marker)[1..] == MarkerBytes(fill - 1, marker);
      MarkerStands(data, offset + 1, fill - 1, marker);
    }
  }

  lemma {:induction false} MarkerEndsLater(data: seq<Byte>, offset: nat)
    requires offset + 1 < |data|
    ensures var (marker, at) := MarkerAt(data, offset + 1);
      offset + 2 <= at && (marker == 0xFF ==> at == |data|)
    decreases |data| - offset
  {
    if data[offset + 1] == 0xFF && offset + 2 < |data| {
      MarkerEndsLater(data, offset + 1);
    }
  }

  lemma MarkerBeforeRest(data: seq<Byte>, offset: nat, fill: nat, marker: Byte, rest: seq<Byte>)
    requires marker != 0xFF
    ensures var at := offset + fill + 2;
      Stands(data, offset, MarkerBytes(fill, marker) + rest) <==>
        at <= |data| && data[offset] == 0xFF && MarkerAt(data, offset + 1) == (marker, at) && Stands(data, at, rest)
  {
    StandsApart(data, offset, MarkerBytes(fill, marker), rest);
    MarkerStands(data, offset, fill, marker);
  }

  // ----- items as the scan reads them

  function Width(item: Item): nat {
    match item
    case Stray(_) => 1
    case Image(fill, _) => fill + 2
    case Segment(fill, _, body) => fill + 2 + |body|
  }

  /** The scan, at `i`, reads a segment's marker and the bytes of its body. */
  predicate ReadsSegment(data: seq<Byte>, i: nat, fill: nat, marker: Byte, body: seq<Byte>) {
    && i + fill + 2 <= |data|
    && data[i] == 0xFF && MarkerAt(data, i + 1) == (marker, i + fill + 2)
    && Stands(data, i + fill + 2, body)
  }

  /** The scan, at `i`, reads this item. */
  predicate ReadsItem(data: seq<Byte>, i: nat, item: Item) {
    && Plain(item)
    && match item
       case Stray(byte) => i < |data| && data[i] == byte
       case Image(fill, marker) => ReadsSegment(data, i, fill, marker, [])
       case Segment(fill, marker, body) => ReadsSegment(data, i, fill, marker, body)
  }

  lemma ItemBeforeRest(data: seq<Byte>, i: nat, item: Item, rest: seq<Byte>)
    requires Plain(item)
    ensures |ItemBytes(item) + rest| == Width(item) + |rest|
    ensures Stands(data, i, ItemBytes(item) + rest) <==> ReadsItem(data, i, item) && Stands(data, i + Width(item), rest)
  {
    StandsApart(data, i, ItemBytes(item), rest);
    match item
    case Stray(byte) =>
    case Image(fill, marker) => MarkerStands(data, i, fill, marker);
    case Segment(fill, marker, body) => MarkerBeforeRest(data, i, fill, marker, body);
  }

  predicate ReadsItems(data: seq<Byte>, i: nat, items: seq<Item>, end: nat)
    decreases items
  {
    if items == [] then i == end <= |data|
    else ReadsItem(data, i, items[0]) && ReadsItems(data, i + Width(items[0]), items[1..], end)
  }

  lemma FirstItemIsRead(data: seq<Byte>, i: nat, items: seq<Item>)
    requires items != [] && Plain(items[0]) && Stands(data, i, Bytes(items))
    ensures ReadsItem(data, i, items[0]) && Stands(data, i + Width(items[0]), Bytes(items[1..]))
    ensures |Bytes(items)| == Width(items[0]) + |Bytes(items[1..])|
  {
    ItemBeforeRest(data, i, items[0], Bytes(items[1..]));
  }

  lemma {:induction false} ItemsThatStandAreRead(data: seq<Byte>, i: nat, items: seq<Item>, end: nat)
    requires AllPlain(items) && Stands(data, i, Bytes(items)) && end == i + |Bytes(items)|
    ensures ReadsItems(data, i, items, end)
    decreases items
  {
    if items != [] {
      FirstItemIsRead(data, i, items);
      assert forall k :: 0 <= k < |items[1..]| ==> items[1..][k] == items[k + 1];
      ItemsThatStandAreRead(data, i + Width(items[0]), items[1..], end);
    }
  }

  lemma FirstItemStands(data: seq<Byte>, i: nat, items: seq<Item>)
    requires items != [] && ReadsItem(data, i, items[0]) && Stands(data, i + Width(items[0]), Bytes(items[1..]))
    ensures Plain(items[0]) && Stands(data, i, Bytes(items))
    ensures |Bytes(items)| == Width(items[0]) + |Bytes(items[1..])|
  {
    ItemBeforeRest(data, i, items[0], Bytes(items[1..]));
  }

  lemma {:induction false} ItemsReadStand(data: seq<Byte>, i: nat, items: seq<Item>, end: nat)
    requires ReadsItems(data, i, items, end)
    ensures AllPlain(items) && end == i + |Bytes(items)| && Stands(data, i, Bytes(items))
    decreases items
  {
    if items != [] {
      ItemsReadStand(data, i + Width(items[0]), items[1..], end);
      FirstItemStands(data, i, items);
      assert forall k :: 0 < k < |items| ==> items[k] == items[1..][k - 1];
    }
  }

  lemma {:induction false} ItemsEndLater(data: seq<Byte>, i: nat, items: seq<Item>, end: nat)
    requires ReadsItems(data, i, items, end)
    ensures i <= end <= |data|
    decreases items
  {
    if items != [] {
      ItemsEndLater(data, i + Width(items[0]), items[1..], end);
    }
  }

  lemma LengthIsRead(data: seq<Byte>, at: nat, body: seq<Byte>)
    requires SelfSized(body) && Stands(data, at, body)
    ensures at + |body| <= |data| && BigEndian(data[at..at + 2]) == |body|
  {
    StandsAsSlice(data, at, body);
    assert data[at..at + 2] == data[at..at + |body|][..2];
  }

  /** The scan steps over whatever is not a frame header. */
  lemma ScanSkipsItem(data: seq<Byte>, i: nat, item: Item)
    requires ReadsItem(data, i, item) && i + 9 < |data|
    ensures Scan(data, i) == Scan(data, i + Width(item))
  {
    if item.Segment? {
      LengthIsRead(data, i + item.fill + 2, item.body);
    }
  }

  lemma {:induction false} ScanSkipsItems(data: seq<Byte>, i: nat, items: seq<Item>, end: nat)
    requires ReadsItems(data, i, items, end) && end + 9 < |data|
    ensures Scan(data, i) == Scan(data, end)
    decreases items
  {
    if items != [] {
      ItemsEndLater(data, i + Width(items[0]), items[1..], end);
      ScanSkipsItem(data, i, items[0]);
      ScanSkipsItems(data, i + Width(items[0]), items[1..], end);
    }
  }

  /** The frame segment: it starts more than nine bytes before the end. */
  predicate FrameAt(data: seq<Byte>, at: nat, fill: nat, marker: Byte, body: seq<Byte>) {
    FrameMarker(marker) && SelfSized(body) && at + 9 < |data| && Stands(data, at, MarkerBytes(fill, marker) + body)
  }

  lemma ScanReturnsFrame(data: seq<Byte>, at: nat, fill: nat, marker: Byte, body: seq<Byte>)
    requires FrameAt(data, at, fill, marker, body)
    ensures Scan(data, at) == Some(SizeAt(data, at + fill + 2))
  {
    MarkerBeforeRest(data, at, fill, marker, body);
    LengthIsRead(data, at + fill + 2, body);
  }

  /** What the scan reads at an offset when it goes on to find a size: an item to step over, or the frame. */
  datatype Found = Skipped(item: Item) | Header(fill: nat, marker: Byte, body: seq<Byte>)

  predicate Reads(data: seq<Byte>, i: nat, found: Found) {
    match found
    case Skipped(item) => ReadsItem(data, i, item)
    case Header(fill, marker, body) => FrameAt(data, i, fill, marker, body)
  }

  lemma FindSegment(data: seq<Byte>, i: nat, m: Byte, at: nat) returns (body: seq<Byte>)
    requires i + 2 <= at && at + 2 <= |data|
    requires data[i] == 0xFF && MarkerAt(data, i + 1) == (m, at)
    requires 2 <= BigEndian(data[at..at + 2]) <= |data| - at
    ensures SelfSized(body) && ReadsSegment(data, i, at - 2 - i, m, body)
  {
    body := data[at..at + BigEndian(data[at..at + 2])];
    assert body[..2] == data[at..at + 2];
    StandsAsSlice(data, at, body);
  }

  lemma WhatScanReads(data: seq<Byte>, i: nat) returns (found: Found)
    requires Scan(data, i).Some?
    ensures i + 9 < |data| && Reads(data, i, found)
  {
    if data[i] != 0xFF {
      found := Skipped(Stray(data[i]));
      return;
    }
    MarkerEndsLater(data, i);
    var (m, at) := MarkerAt(data, i + 1);
    if m == 0xD8 || m == 0xD9 {
      found := Skipped(Image(at - 2 - i, m));
      return;
    }
    var body := FindSegment(data, i, m, at);
    if FrameMarker(m) {
      MarkerBeforeRest(data, i, at - 2 - i, m, body);
      found := Header(at - 2 - i, m, body);
    } else {
      found := Skipped(Segment(at - 2 - i, m, body));
    }
  }

  /** Any items, then the frame segment, at `at`. */
  ghost predicate FrameFoundAt(
      data: seq<Byte>, offset: nat, items: seq<Item>, at: nat, fill: nat, marker: Byte, body: seq<Byte>)
  {
    && AllPlain(items) && Stands(data, offset, Bytes(items)) && at == offset + |Bytes(items)|
    && FrameAt(data, at, fill, marker, body)
  }

  lemma ScanPassesItems(data: seq<Byte>, offset: nat, items: seq<Item>, at: nat)
    requires AllPlain(items) && Stands(data, offset, Bytes(items)) && at == offset + |Bytes(items)| && at + 9 < |data|
    ensures Scan(data, offset) == Scan(data, at)
  {
    ItemsThatStandAreRead(data, offset, items, at);
    ScanSkipsItems(data, offset, items, at);
  }

  lemma ScanFindsFrame(data: seq<Byte>, offset: nat, items: seq<Item>, at: nat, fill: nat, marker: Byte,
      body: seq<Byte>)
    requires FrameFoundAt(data, offset, items, at, fill, marker, body)
    ensures Scan(data, offset) == Some(SizeAt(data, at + fill + 2))
  {
    ScanPassesItems(data, offset, items, at);
    ScanReturnsFrame(data, at, fill, marker, body);
  }

  /** A scan that finds a size read the data as such items followed by such a segment. */
  lemma {:induction false} ScanReadsItemsAndFrame(data: seq<Byte>, offset: nat)
    returns (items: seq<Item>, at: nat, fill: nat, marker: Byte, body: seq<Byte>)
    requires Scan(data, offset).Some?
    ensures ReadsItems(data, offset, items, at) && FrameAt(data, at, fill, marker, body)
    decreases |data| - offset
  {
    var found := WhatScanReads(data, offset);
    match found
    case Header(f, m, b) => items, at, fill, marker, body := [], offset, f, m, b;
    case Skipped(item) =>
      ScanSkipsItem(data, offset, item);
      items, at, fill, marker, body := ScanReadsItemsAndFrame(data, offset + Width(item));
      assert ([item] + items)[1..] == items;
      items := [item] + items;
  }

  lemma ScanFindsOnlyFrames(data: seq<Byte>, offset: nat)
    returns (items: seq<Item>, at: nat, fill: nat, marker: Byte, body: seq<Byte>)
    requires Scan(data, offset).Some?
    ensures FrameFoundAt(data, offset, items, at, fill, marker, body)
  {
    items, at, fill, marker, body := ScanReadsItemsAndFrame(data, offset);
    ItemsReadStand(data, offset, items, at);
  }

  lemma JpegGoesToTheScan(file: seq<Byte>)
    requires StartsWith(Head(file), SOI)
    ensures Dimensions(file) == Scan(Head(file), 2)
  {
    var data := Head(file);
    assert data[0] == data[..2][0] == 0xFF;
  }

  /** So a JPEG file gets a size exactly when its head is SOI, any such items and a frame segment, and the size is the
      one that stands in that segment. */
  lemma SizedExactlyWhen(file: seq<Byte>, size: Size)
    requires StartsWith(Head(file), SOI)
    ensures Dimensions(file) == Some(size) <==>
      exists items: seq<Item>, at: nat, fill: nat, marker: Byte, body: seq<Byte> ::
        FrameFoundAt(Head(file), 2, items, at, fill, marker, body) && size == SizeAt(Head(file), at + fill + 2)
  {
    var data := Head(file);
    JpegGoesToTheScan(file);
    if Scan(data, 2) == Some(size) {
      var items, at, fill, marker, body := ScanFindsOnlyFrames(data, 2);
      ScanFindsFrame(data, 2, items, at, fill, marker, body);
    }
    forall items: seq<Item>, at: nat, fill: nat, marker: Byte, body: seq<Byte> |
      FrameFoundAt(data, 2, items, at, fill, marker, body) ensures Scan(data, 2) == Some(SizeAt(data, at + fill + 2))
    {
      ScanFindsFrame(data, 2, items, at, fill, marker, body);
    }
  }

  // ----- round trip

  /** SOI, any segments with lengths that are not frame headers, each behind any number of fill bytes, then a frame
      header inside the first 65536 bytes: the size is the header's, whatever follows. */
  lemma FrameHeaderRoundTrip(items: seq<Item>, fill: nat, f: Frame, rest: seq<Byte>)
    requires AllPlain(items) && f.Valid()
    requires |SOI + Bytes(items) + (MarkerBytes(fill, f.marker) + FrameBody(f))| <= HEAD
    ensures Dimensions(SOI + Bytes(items) + (MarkerBytes(fill, f.marker) + FrameBody(f)) + rest)
      == Some(Size(f.width, f.height))
  {
    var head := SOI + Bytes(items) + (MarkerBytes(fill, f.marker) + FrameBody(f));
    var file := head + rest;
    assert Head(file)[..|head|] == head;
    StandsAsSlice(Head(file), 0, head);
    ScanFindsHeader(Head(file), items, fill, f);
    assert Head(file)[..2] == head[..2] == SOI;
    JpegGoesToTheScan(file);
  }

  lemma ScanFindsHeader(data: seq<Byte>, items: seq<Item>, fill: nat, f: Frame)
    requires AllPlain(items) && f.Valid()
    requires Stands(data, 0, SOI + Bytes(items) + (MarkerBytes(fill, f.marker) + FrameBody(f)))
    ensures Scan(data, 2) == Some(Size(f.width, f.height))
  {
    var at, frame := 2 + |Bytes(items)|, MarkerBytes(fill, f.marker) + FrameBody(f);
    StandsApart(data, 0, SOI + Bytes(items), frame);
    StandsApart(data, 0, SOI, Bytes(items));
    StandsAsSlice(data, at, frame);
    FrameBodyIsSelfSized(f);
    ScanFindsFrame(data, 2, items, at, fill, f.marker, FrameBody(f));
    FrameSize(data, at, fill, f);
  }

  lemma FrameBodyIsSelfSized(f: Frame)
    requires f.Valid()
    ensures SelfSized(FrameBody(f))
  {
    assert FrameBody(f)[..2] == Digits(8 + 3 * |f.components|, 2);
    TwoBytesRoundTrip(8 + 3 * |f.components|);
  }

  lemma SliceOfSlice(data: seq<Byte>, i: nat, n: nat, j: nat, k: nat)
    requires i + n <= |data| && j <= k <= n
    ensures data[i..i + n][j..k] == data[i + j..i + k]
  {
    var part := data[i..i + n];
    forall m | 0 <= m < k - j ensures part[j..k][m] == data[i + j..i + k][m] {
      assert part[j + m] == data[i + (j + m)];
    }
  }

  lemma FrameSize(data: seq<Byte>, at: nat, fill: nat, f: Frame)
    requires f.Valid() && Stands(data, at, MarkerBytes(fill, f.marker) + FrameBody(f))
    ensures SizeAt(data, at + fill + 2) == Size(f.width, f.height)
  {
    StandsApart(data, at, MarkerBytes(fill, f.marker), FrameBody(f));
    var s, body := at + fill + 2, FrameBody(f);
    StandsAsSlice(data, s, body);
    SliceOfSlice(data, s, |body|, 3, 5);
    SliceOfSlice(data, s, |body|, 5, 7);
    SizeInBody(f);
    TwoBytesRoundTrip(f.height);
    TwoBytesRoundTrip(f.width);
  }

  lemma SizeInBody(f: Frame)
    requires f.Valid()
    ensures FrameBody(f)[3..5] == Digits(f.height, 2) && FrameBody(f)[5..7] == Digits(f.width, 2)
  {
  }

  // ----- markers the scan does not know

  /** T.81 knows more markers without a length (TEM, 0x01, and RST0 to RST7) than the scan does.  The scan takes the two
      bytes that follow such a one for a length; when they begin another marker that is more than any file is likely to
      have left, and the scan ends. */
  lemma BareMarkerEndsTheScan(data: seq<Byte>, i: nat, fill: nat, bare: Byte)
    requires i + 9 < |data| && i + fill + 4 <= |data|
    requires bare == 0x01 || 0xD0 <= bare <= 0xD7
    requires data[i] == 0xFF && MarkerAt(data, i + 1) == (bare, i + fill + 2)
    requires data[i + fill + 2] == 0xFF && |data| < i + fill + 2 + 0xFF00 + data[i + fill + 3] as int
    ensures Scan(data, i) == None
  {
    TwoBytesRead(data[i + fill + 2..i + fill + 4]);
  }

  /** The byte after the first 0xFF of a marker. */
  function SecondByte(fill: nat, marker: Byte): Byte {
    if fill == 0 then marker else 0xFF
  }

  lemma FirstBytes(fill: nat, marker: Byte, rest: seq<Byte>)
    ensures (MarkerBytes(fill, marker) + rest)[0] == 0xFF
    ensures (MarkerBytes(fill, marker) + rest)[1] == SecondByte(fill, marker)
  {
    if fill > 0 {
      assert MarkerBytes(fill - 1, marker)[0] == 0xFF;
    }
  }

  lemma FrameIsMissed(data: seq<Byte>, i: nat, k: nat, bare: Byte, fill: nat, marker: Byte, body: seq<Byte>)
    requires (bare == 0x01 || 0xD0 <= bare <= 0xD7) && 8 <= |body|
    requires Stands(data, i, MarkerBytes(k, bare) + (MarkerBytes(fill, marker) + body))
    requires |data| < i + k + 2 + 0xFF00 + SecondByte(fill, marker) as int
    ensures i + 9 < |data| && Scan(data, i) == None
  {
    var frame := MarkerBytes(fill, marker) + body;
    MarkerBeforeRest(data, i, k, bare, frame);
    FirstBytes(fill, marker, body);
    StandsPointwise(data, i + k + 2, frame);
    assert data[i + k + 2 + 0] == frame[0] && data[i + k + 2 + 1] == frame[1];
    BareMarkerEndsTheScan(data, i, k, bare);
  }

  /** So behind any plain items a frame header that follows TEM or RSTn is missed, although it is found without that
      marker, whatever comes after it, as long as the head of the file is no longer than the length misread. */
  lemma OtherBareMarkersHideTheFrame(items: seq<Item>, k: nat, bare: Byte, fill: nat, f: Frame, rest: seq<Byte>)
    requires AllPlain(items) && f.Valid() && (bare == 0x01 || 0xD0 <= bare <= 0xD7)
    requires var frame := MarkerBytes(fill, f.marker) + FrameBody(f);
      var missed := SOI + Bytes(items) + (MarkerBytes(k, bare) + frame);
      && |missed| <= HEAD
      && |Head(missed + rest)| < 2 + |Bytes(items)| + k + 2 + 0xFF00 + SecondByte(fill, f.marker) as int
    ensures var frame := MarkerBytes(fill, f.marker) + FrameBody(f);
      && Dimensions(SOI + Bytes(items) + (MarkerBytes(k, bare) + frame) + rest) == None
      && Dimensions(SOI + Bytes(items) + frame + rest) == Some(Size(f.width, f.height))
  {
    var frame := MarkerBytes(fill, f.marker) + FrameBody(f);
    assert Dimensions(SOI + Bytes(items) + frame + rest) == Some(Size(f.width, f.height)) by {
      FrameHeaderRoundTrip(items, fill, f, rest);
    }
    TailStands(items, MarkerBytes(k, bare) + frame, rest);
    var data := Head(SOI + Bytes(items) + (MarkerBytes(k, bare) + frame) + rest);
    var at := 2 + |Bytes(items)|;
    FrameIsMissed(data, at, k, bare, fill, f.marker, FrameBody(f));
    ScanPassesItems(data, 2, items, at);
  }

  lemma TailStands(items: seq<Item>, tail: seq<Byte>, rest: seq<Byte>)
    requires |SOI + Bytes(items) + tail| <= HEAD
    ensures var file := SOI + Bytes(items) + tail + rest;
      && Dimensions(file) == Scan(Head(file), 2)
      && Stands(Head(file), 2, Bytes(items)) && Stands(Head(file), 2 + |Bytes(items)|, tail)
  {
    var head := SOI + Bytes(items) + tail;
    var file := head + rest;
    assert Head(file)[..|head|] == head;
    StandsAsSlice(Head(file), 0, head);
    StandsApart(Head(file), 0, SOI + Bytes(items), tail);
    StandsApart(Head(file), 0, SOI, Bytes(items));
    assert Head(file)[..2] == head[..2] == SOI;
    JpegGoesToTheScan(file);
  }
}
