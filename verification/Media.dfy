/**
 Image dimensions from file bytes (src/providers/media.ts:143-187): the JPEG
 marker walk against the marker segments of ITU-T T.81, and the WebP headers.
 */
module Media {
  import opened Prelude
  import opened Utf8

  type Bytes = seq<Byte>

  datatype Dimensions = Dimensions(width: nat, height: nat)

  function U16BE(s: Bytes, at: nat): (n: nat)
    requires at + 2 <= |s|
    ensures n < 0x10000
  {
    s[at] as int * 256 + s[at + 1] as int
  }

  /** A marker without a length field: SOI, EOI, TEM, RST0 to RST7. */
  predicate Standalone(marker: Byte) {
    marker == 0xd8 || marker == 0xd9 || marker == 0x01 || 0xd0 <= marker <= 0xd7
  }

  /** SOF0 to SOF15 without DHT, JPG and DAC. */
  predicate IsFrame(marker: Byte) {
    0xc0 <= marker <= 0xcf && marker != 0xc4 && marker != 0xc8 && marker != 0xcc
  }

  // ------------------------------------------------------------ the walk

  function SkipFill(s: Bytes): (r: Bytes)
    ensures |r| <= |s| && (r != [] ==> r[0] != 0xff)
    ensures s != [] && s[0] == 0xff ==> |r| < |s|
  {
    if s != [] && s[0] == 0xff then SkipFill(s[1..]) else s
  }

  /** The walk over what is left of the buffer. */
  function Walk(s: Bytes): Option<Dimensions>
    decreases |s|
  {
    if |s| <= 8 then None
    else if s[0] != 0xff then Walk(s[1..])
    else
      var t := SkipFill(s);
      if t == [] then None
      else if Standalone(t[0]) then Walk(t[1..])
      else Segment(t[0], t[1..])
  }

  /** The walk at a length field. */
  function Segment(marker: Byte, body: Bytes): Option<Dimensions>
    decreases |body|, 0
  {
    if |body| < 2 then None
    else
      var length := U16BE(body, 0);
      if length < 2 || length > |body| then None
      else if IsFrame(marker) then
        (if |body| < 7 then None else Some(Dimensions(U16BE(body, 5), U16BE(body, 3))))
      else Walk(body[length..])
  }

  function Whole(buffer: Bytes): Option<Dimensions> {
    if |buffer| < 2 then None else Walk(buffer[2..])
  }

  /** The walk over the whole buffer is what it is from `offset` on. */
  ghost predicate OnCourse(buffer: Bytes, offset: nat) {
    |buffer| >= 2 ==> Whole(buffer) == if offset <= |buffer| then Walk(buffer[offset..]) else None
  }

  /** Only fill bytes lie between `start` and `at`. */
  ghost predicate FillUpTo(buffer: Bytes, start: nat, at: nat) {
    start <= at <= |buffer| && SkipFill(buffer[start..]) == SkipFill(buffer[at..])
  }

  lemma NotMarker(buffer: Bytes, offset: nat)
    requires offset + 8 < |buffer| && buffer[offset] != 0xff && OnCourse(buffer, offset)
    ensures OnCourse(buffer, offset + 1)
  {
    assert buffer[offset..][1..] == buffer[offset + 1..];
  }

  lemma FillByte(buffer: Bytes, start: nat, at: nat)
    requires at < |buffer| && buffer[at] == 0xff && FillUpTo(buffer, start, at)
    ensures FillUpTo(buffer, start, at + 1)
  {
    assert buffer[at..][1..] == buffer[at + 1..];
  }

  /** The walk at a marker `at`, behind the fill bytes from `start` on. */
  lemma WalkHere(buffer: Bytes, start: nat, at: nat)
    requires start + 8 < |buffer| && buffer[start] == 0xff && OnCourse(buffer, start) && FillUpTo(buffer, start, at)
    requires at < |buffer| ==> buffer[at] != 0xff
    ensures at == |buffer| || Standalone(buffer[at]) ==> OnCourse(buffer, at + 1)
    ensures at < |buffer| && !Standalone(buffer[at]) ==> Whole(buffer) == Segment(buffer[at], buffer[at + 1..])
  {
    if at < |buffer| {
      assert buffer[at..][1..] == buffer[at + 1..];
    }
  }

  lemma SegmentHere(buffer: Bytes, marker: Byte, offset: nat)
    requires offset <= |buffer| && Whole(buffer) == Segment(marker, buffer[offset..])
    ensures offset + 2 > |buffer| ==> Whole(buffer) == None
    ensures offset + 2 <= |buffer| ==>
              var length := U16BE(buffer, offset);
              if length < 2 || offset + length > |buffer| then Whole(buffer) == None
              else if !IsFrame(marker) then OnCourse(buffer, offset + length)
              else Whole(buffer) == if offset + 7 > |buffer| then None
                                    else Some(Dimensions(U16BE(buffer, offset + 5), U16BE(buffer, offset + 3)))
  {
    if offset + 2 <= |buffer| {
      var length := U16BE(buffer, offset);
      if offset + length <= |buffer| {
        assert buffer[offset..][length..] == buffer[offset + length..];
      }
    }
  }

  /** `getJpegDimensions`: every index it reads is inside the buffer. */
  method GetJpegDimensions(buffer: Bytes) returns (r: Option<Dimensions>)
    ensures r == if |buffer| < 2 then None else Walk(buffer[2..])
  {
    var offset := 2;
    while offset + 8 < |buffer|
      invariant 2 <= offset && OnCourse(buffer, offset)
      decreases |buffer| - offset
    {
      if buffer[offset] != 0xff {
        NotMarker(buffer, offset);
        offset := offset + 1;
        continue;
      }
      ghost var start := offset;
      while offset < |buffer| && buffer[offset] == 0xff
        invariant start <= offset && FillUpTo(buffer, start, offset)
        invariant offset == start ==> buffer[offset] == 0xff
      {
        FillByte(buffer, start, offset);
        offset := offset + 1;
      }
      WalkHere(buffer, start, offset);
      if offset == |buffer| {
        offset := offset + 1;   // an undefined marker: the walk is over
        continue;
      }
      var marker := buffer[offset];
      offset := offset + 1;
      if Standalone(marker) { continue; }
      SegmentHere(buffer, marker, offset);
      if offset + 2 > |buffer| { return None; }
      var length := U16BE(buffer, offset);
      if length < 2 || offset + length > |buffer| { return None; }
      if IsFrame(marker) {
        if offset + 7 > |buffer| { return None; }
        return Some(Dimensions(U16BE(buffer, offset + 5), U16BE(buffer, offset + 3)));
      }
      offset := offset + length;
    }
    return None;
  }

  // ------------------------------------------------------------ the grammar

  /** `fill`: the fill bytes before the marker's own FF byte. */
  datatype Part =
    | Bare(fill: nat, marker: Byte)
    | Sized(fill: nat, marker: Byte, payload: Bytes)

  /** Markers without a length field, and those of frame headers (table B.1 of T.81). */
  const BARE_MARKERS: seq<int> := [0x01, 0xd0, 0xd1, 0xd2, 0xd3, 0xd4, 0xd5, 0xd6, 0xd7, 0xd8, 0xd9]
  const FRAME_MARKERS: seq<int> := [0xc0, 0xc1, 0xc2, 0xc3, 0xc5, 0xc6, 0xc7, 0xc9, 0xca, 0xcb, 0xcd, 0xce, 0xcf]

  predicate ValidPart(p: Part) {
    match p
    case Bare(_, marker) => marker in BARE_MARKERS
    case Sized(_, marker, payload) =>
      marker != 0xff && marker !in BARE_MARKERS && marker !in FRAME_MARKERS && |payload| + 2 < 0x10000
  }

  function Fill(n: nat): (r: Bytes)
    ensures |r| == n + 1 && forall i :: 0 <= i <= n ==> r[i] == 0xff
  {
    if n == 0 then [0xff] else [0xff] + Fill(n - 1)
  }

  function LengthField(n: nat): Bytes
    requires n < 0x10000
  {
    [n / 256, n % 256]
  }

  function SizedBytes(fill: nat, marker: Byte, payload: Bytes): Bytes
    requires |payload| + 2 < 0x10000
  {
    Fill(fill) + [marker] + LengthField(|payload| + 2) + payload
  }

  function PartBytes(p: Part): Bytes
    requires ValidPart(p)
  {
    match p
    case Bare(fill, marker) => Fill(fill) + [marker]
    case Sized(fill, marker, payload) => SizedBytes(fill, marker, payload)
  }

  /** A frame header: precision, height, width, and what follows in its segment. */
  datatype Frame = Frame(fill: nat, marker: Byte, precision: Byte, height: nat, width: nat, components: Bytes)

  predicate ValidFrame(f: Frame) {
    f.marker in FRAME_MARKERS && f.height < 0x10000 && f.width < 0x10000 && |f.components| + 7 < 0x10000
  }

  function FrameBytes(f: Frame): Bytes
    requires ValidFrame(f)
  {
    SizedBytes(f.fill, f.marker, [f.precision] + LengthField(f.height) + LengthField(f.width) + f.components)
  }

  lemma {:induction false} SkipFillSkips(n: nat, rest: Bytes)
    requires rest != [] ==> rest[0] != 0xff
    ensures SkipFill(Fill(n) + rest) == rest
    decreases n
  {
    assert (Fill(n) + rest)[1..] == if n == 0 then rest else Fill(n - 1) + rest;
    if n > 0 {
      SkipFillSkips(n - 1, rest);
    }
  }

  lemma {:induction false} AllFill(s: Bytes)
    requires forall i :: 0 <= i < |s| ==> s[i] == 0xff
    ensures SkipFill(s) == []
  {
    if s != [] {
      AllFill(s[1..]);
    }
  }

  /** At a marker the walk goes on behind it, or there is too little left. */
  lemma WalkAtMarker(fill: nat, marker: Byte, rest: Bytes)
    requires marker != 0xff
    ensures var s := Fill(fill) + [marker] + rest;
            Walk(s) == if |s| <= 8 then None else if Standalone(marker) then Walk(rest) else Segment(marker, rest)
  {
    var s := Fill(fill) + [marker] + rest;
    assert s == Fill(fill) + ([marker] + rest);
    SkipFillSkips(fill, [marker] + rest);
    assert s[0] == 0xff && ([marker] + rest)[1..] == rest;
  }

  /** A whole part is stepped over. */
  lemma WalkPart(p: Part, rest: Bytes)
    requires ValidPart(p)
    ensures Walk(PartBytes(p) + rest) == Walk(rest)
  {
    match p
    case Bare(fill, marker) => WalkAtMarker(fill, marker, rest);
    case Sized(fill, marker, payload) =>
      var body := LengthField(|payload| + 2) + payload + rest;
      assert PartBytes(p) + rest == Fill(fill) + [marker] + body;
      WalkAtMarker(fill, marker, body);
      assert U16BE(body, 0) == |payload| + 2;
      assert body[|payload| + 2..] == rest;
  }

  lemma WalkFrame(f: Frame, rest: Bytes)
    requires ValidFrame(f)
    ensures Walk(FrameBytes(f) + rest) == Some(Dimensions(f.width, f.height))
  {
    var payload := [f.precision] + LengthField(f.height) + LengthField(f.width) + f.components;
    var body := LengthField(|payload| + 2) + payload + rest;
    assert FrameBytes(f) + rest == Fill(f.fill) + [f.marker] + body;
    WalkAtMarker(f.fill, f.marker, body);
    assert U16BE(body, 0) == |payload| + 2;
    assert body[3..7] == LengthField(f.height) + LengthField(f.width);
    assert U16BE(body, 3) == f.height by { assert body[3] == f.height / 256 && body[4] == f.height % 256; }
    assert U16BE(body, 5) == f.width by { assert body[5] == f.width / 256 && body[6] == f.width % 256; }
  }

  /** A sized segment cut anywhere ends the walk with nothing. */
  lemma CutSegment(fill: nat, marker: Byte, payload: Bytes, n: nat)
    requires marker != 0xff && !Standalone(marker) && |payload| + 2 < 0x10000
    requires n < |SizedBytes(fill, marker, payload)|
    ensures Walk(SizedBytes(fill, marker, payload)[..n]) == None
  {
    var whole := SizedBytes(fill, marker, payload);
    var s := whole[..n];
    if n <= fill + 1 {
      AllFill(s);
    } else {
      var tail := LengthField(|payload| + 2) + payload;
      var body := tail[..n - fill - 2];
      assert whole == Fill(fill) + [marker] + tail;
      assert s == Fill(fill) + [marker] + body;
      WalkAtMarker(fill, marker, body);
      if |body| >= 2 {
        assert body[0] == tail[0] && body[1] == tail[1];
        assert U16BE(body, 0) == |payload| + 2 > |body|;
      }
    }
  }

  lemma CutPart(p: Part, n: nat)
    requires ValidPart(p) && n < |PartBytes(p)|
    ensures Walk(PartBytes(p)[..n]) == None
  {
    match p
    case Bare(fill, marker) => AllFill(PartBytes(p)[..n]);
    case Sized(fill, marker, payload) => CutSegment(fill, marker, payload, n);
  }

  /** What follows SOI: parts, the first frame header, and the rest of the file. */
  function Image(ps: seq<Part>, f: Frame, rest: Bytes): Bytes
    requires (forall p :: p in ps ==> ValidPart(p)) && ValidFrame(f)
  {
    if ps == [] then FrameBytes(f) + rest else PartBytes(ps[0]) + Image(ps[1..], f, rest)
  }

  /** Where the first frame header ends. */
  function FrameEnd(ps: seq<Part>, f: Frame): nat
    requires (forall p :: p in ps ==> ValidPart(p)) && ValidFrame(f)
  {
    if ps == [] then |FrameBytes(f)| else |PartBytes(ps[0])| + FrameEnd(ps[1..], f)
  }

  lemma TakeConcat(a: Bytes, b: Bytes, n: nat)
    requires n <= |a| + |b|
    ensures (a + b)[..n] == if n < |a| then a[..n] else a + b[..n - |a|]
  {
  }

  lemma WalkCutFrame(f: Frame, rest: Bytes, n: nat)
    requires ValidFrame(f) && n <= |FrameBytes(f)| + |rest|
    ensures Walk((FrameBytes(f) + rest)[..n]) == if n >= |FrameBytes(f)| then Some(Dimensions(f.width, f.height)) else None
  {
    var frame := FrameBytes(f);
    TakeConcat(frame, rest, n);
    if n >= |frame| {
      WalkFrame(f, rest[..n - |frame|]);
    } else {
      CutSegment(f.fill, f.marker, [f.precision] + LengthField(f.height) + LengthField(f.width) + f.components, n);
    }
  }

  /** However much of the file was read, the walk gives the dimensions of the
      first frame header when it is wholly there, and nothing before. */
  lemma {:induction false} WalkFindsFrame(ps: seq<Part>, f: Frame, rest: Bytes, n: nat)
    requires (forall p :: p in ps ==> ValidPart(p)) && ValidFrame(f)
    requires n <= |Image(ps, f, rest)|
    ensures Walk(Image(ps, f, rest)[..n]) == if n >= FrameEnd(ps, f) then Some(Dimensions(f.width, f.height)) else None
    decreases |ps|
  {
    if ps == [] {
      WalkCutFrame(f, rest, n);
    } else {
      var first, others := PartBytes(ps[0]), Image(ps[1..], f, rest);
      TakeConcat(first, others, n);
      if n >= |first| {
        WalkPart(ps[0], others[..n - |first|]);
        WalkFindsFrame(ps[1..], f, rest, n - |first|);
      } else {
        CutPart(ps[0], n);
      }
    }
  }

  // ------------------------------------------------------------ WebP

  /** `toString('ascii')` clears the high bit of every byte. */
  function Ascii(s: Bytes): string {
    seq(|s|, i requires 0 <= i < |s| => (s[i] as int % 128) as char)
  }

  /** The four bytes at `at` spell the kind, each with or without its high bit. */
  predicate Spells(s: Bytes, at: nat, kind: string)
    requires at + 4 <= |s| && |kind| == 4
  {
    forall i :: 0 <= i < 4 ==> s[at + i] as int == kind[i] as int || s[at + i] as int == kind[i] as int + 128
  }

  lemma AsciiSpells(s: Bytes, at: nat, kind: string)
    requires at + 4 <= |s| && |kind| == 4 && forall i :: 0 <= i < 4 ==> kind[i] as int < 128
    ensures Ascii(s[at..at + 4]) == kind <==> Spells(s, at, kind)
  {
    var text := Ascii(s[at..at + 4]);
    forall i | 0 <= i < 4 ensures text[i] == kind[i] <==> (s[at + i] as int == kind[i] as int || s[at + i] as int == kind[i] as int + 128) {
      assert s[at..at + 4][i] == s[at + i];
    }
  }

  function U16LE(s: Bytes, at: nat): nat
    requires at + 2 <= |s|
  {
    s[at] as int + s[at + 1] as int * 256
  }

  function U24LE(s: Bytes, at: nat): nat
    requires at + 3 <= |s|
  {
    U16LE(s, at) + s[at + 2] as int * 0x10000
  }

  /** The shifts and masks of the source, over disjoint bits. */
  function GetWebpDimensions(s: Bytes): Option<Dimensions>
    requires |s| >= 30
  {
    var kind := Ascii(s[12..16]);
    if kind == "VP8X" then Some(Dimensions(1 + U24LE(s, 24), 1 + U24LE(s, 27)))
    else if kind == "VP8 " && s[23] == 0x9d && s[24] == 0x01 && s[25] == 0x2a then
      Some(Dimensions(U16LE(s, 26) % 0x4000, U16LE(s, 28) % 0x4000))
    else if kind == "VP8L" && s[20] == 0x2f then
      Some(Dimensions(1 + s[21] as int + s[22] as int % 0x40 * 0x100,
                      1 + s[22] as int / 0x40 + s[23] as int * 4 + s[24] as int % 0x10 * 0x400))
    else None
  }

  function LittleEndian(n: nat, count: nat): (r: Bytes)
    ensures |r| == count
  {
    if count == 0 then [] else [n % 256] + LittleEndian(n / 256, count - 1)
  }

  /** The VP8L header: 14 bits of width - 1, 14 of height - 1, and 4 more. */
  lemma LosslessReadsBack(head: Bytes, rest: Bytes, width: nat, height: nat, more: nat)
    requires |head| == 21 && Spells(head, 12, "VP8L") && head[20] == 0x2f && |rest| >= 5
    requires 1 <= width <= 0x4000 && 1 <= height <= 0x4000 && more < 0x10
    ensures GetWebpDimensions(head + LittleEndian((width - 1) + (height - 1) * 0x4000 + more * 0x1000_0000, 4) + rest) ==
            Some(Dimensions(width, height))
  {
    AsciiSpells(head, 12, "VP8L");
    var n := (width - 1) + (height - 1) * 0x4000 + more * 0x1000_0000;
    var s := head + LittleEndian(n, 4) + rest;
    FourBytes(n);
    assert s[21..25] == LittleEndian(n, 4) && s[12..16] == head[12..16];
    assert s[21] == n % 256 && s[22] == n / 256 % 256 && s[23] == n / 0x10000 % 256 && s[24] == n / 0x100_0000 % 256 by {
      assert s[21..25][0] == s[21] && s[21..25][1] == s[22] && s[21..25][2] == s[23] && s[21..25][3] == s[24];
    }
    Fields(width - 1, height - 1, more);
  }

  lemma FourBytes(n: nat)
    ensures LittleEndian(n, 4) == [n % 256, n / 256 % 256, n / 0x10000 % 256, n / 0x100_0000 % 256]
  {
    assert n / 256 / 256 == n / 0x10000 && n / 0x10000 / 256 == n / 0x100_0000;
    assert LittleEndian(n / 0x100_0000, 1) == [n / 0x100_0000 % 256];
    assert LittleEndian(n / 0x10000, 2) == [n / 0x10000 % 256] + LittleEndian(n / 0x100_0000, 1);
    assert LittleEndian(n / 256, 3) == [n / 256 % 256] + LittleEndian(n / 0x10000, 2);
  }

  lemma Fields(w: nat, h: nat, more: nat)
    requires w < 0x4000 && h < 0x4000 && more < 0x10
    ensures var n := w + h * 0x4000 + more * 0x1000_0000;
            && n % 256 + n / 256 % 256 % 0x40 * 0x100 == w
            && n / 256 % 256 / 0x40 + n / 0x10000 % 256 * 4 + n / 0x100_0000 % 256 % 0x10 * 0x400 == h
  {
    HeaderBytes(w, h, more);
    var n := w + h * 0x4000 + more * 0x1000_0000;
    SharedByte(w / 256, h % 4);
    Digits(h);
    assert n / 256 % 256 % 0x40 == w / 256 && n / 256 % 256 / 0x40 == h % 4;
  }

  lemma Digits(h: nat)
    ensures h % 4 + h / 4 % 256 * 4 + h / 0x400 * 0x400 == h
  {
    assert h / 4 == h / 4 % 256 + 256 * (h / 0x400);
  }

  lemma SharedByte(low: nat, high: nat)
    requires low < 0x40
    ensures (low + high * 0x40) % 0x40 == low && (low + high * 0x40) / 0x40 == high
  {
  }

  lemma HeaderBytes(w: nat, h: nat, more: nat)
    requires w < 0x4000 && h < 0x4000 && more < 0x10
    ensures var n := w + h * 0x4000 + more * 0x1000_0000;
            && n % 256 == w % 256 && n / 256 % 256 == w / 256 + h % 4 * 0x40
            && n / 0x10000 % 256 == h / 4 % 256 && n / 0x100_0000 % 256 % 0x10 == h / 0x400
  {
    var n := w + h * 0x4000 + more * 0x1000_0000;
    var h1, h2 := h / 4 % 256, h / 0x400;
    assert h / 4 == h1 + 256 * h2;
    ByteOf(n, w % 256, w / 256 + h * 0x40 + more * 0x10_0000);
    ByteOf(n / 256, w / 256 + h % 4 * 0x40, h / 4 + more * 0x1000);
    ByteOf(n / 0x10000, h1, h2 + more * 0x10);
    assert n / 0x10000 == n / 256 / 256 && n / 0x100_0000 == n / 0x10000 / 256;
    HighField(h2, more);
  }

  lemma ByteOf(n: nat, low: nat, high: nat)
    requires n == low + 256 * high && low < 256
    ensures n % 256 == low && n / 256 == high
  {
  }

  lemma HighField(h2: nat, more: nat)
    requires h2 < 0x10 && more < 0x10
    ensures (h2 + more * 0x10) % 256 % 0x10 == h2
  {
  }

  /** The VP8 frame header: 14 bits of each dimension, with two bits of scale above. */
  lemma LossyReadsBack(head: Bytes, rest: Bytes, width: nat, height: nat, widthScale: nat, heightScale: nat)
    requires |head| == 26 && Spells(head, 12, "VP8 ") && head[23..26] == [0x9d, 0x01, 0x2a]
    requires width < 0x4000 && height < 0x4000 && widthScale < 4 && heightScale < 4
    ensures GetWebpDimensions(head + LittleEndian(width + widthScale * 0x4000, 2) +
                              LittleEndian(height + heightScale * 0x4000, 2) + rest) == Some(Dimensions(width, height))
  {
    AsciiSpells(head, 12, "VP8 ");
    var w, h := width + widthScale * 0x4000, height + heightScale * 0x4000;
    var s := head + LittleEndian(w, 2) + LittleEndian(h, 2) + rest;
    assert s[12..16] == head[12..16];
    assert s[23] == head[23..26][0] && s[24] == head[23..26][1] && s[25] == head[23..26][2];
    TwoBytesAt(head, w, LittleEndian(h, 2) + rest);
    assert s == head + LittleEndian(w, 2) + (LittleEndian(h, 2) + rest);
    TwoBytesAt(head + LittleEndian(w, 2), h, rest);
  }

  lemma TwoBytesAt(before: Bytes, n: nat, after: Bytes)
    requires n < 0x10000
    ensures U16LE(before + LittleEndian(n, 2) + after, |before|) == n
  {
    var s := before + LittleEndian(n, 2) + after;
    assert s[|before|] == LittleEndian(n, 2)[0] && s[|before| + 1] == LittleEndian(n, 2)[1];
    TwoBytes(n);
  }

  lemma TwoBytes(n: nat)
    requires n < 0x10000
    ensures U16LE(LittleEndian(n, 2), 0) == n
  {
    assert LittleEndian(n, 2) == [n % 256] + LittleEndian(n / 256, 1);
    assert LittleEndian(n / 256, 1) == [n / 256 % 256] + LittleEndian(n / 256 / 256, 0);
  }

  /** Any other header gives nothing. */
  lemma OtherHeadersGiveNothing(s: Bytes)
    requires |s| >= 30
    ensures GetWebpDimensions(s).None? <==>
            && !Spells(s, 12, "VP8X")
            && !(Spells(s, 12, "VP8 ") && s[23..26] == [0x9d, 0x01, 0x2a])
            && !(Spells(s, 12, "VP8L") && s[20] == 0x2f)
  {
    AsciiSpells(s, 12, "VP8X");
    AsciiSpells(s, 12, "VP8 ");
    AsciiSpells(s, 12, "VP8L");
    assert s[23..26] == [s[23], s[24], s[25]];
  }

  /** The VP8X header: 24 bits of each dimension less one. */
  lemma ExtendedReadsBack(head: Bytes, rest: Bytes, width: nat, height: nat)
    requires |head| == 24 && Spells(head, 12, "VP8X")
    requires 1 <= width <= 0x100_0000 && 1 <= height <= 0x100_0000
    ensures GetWebpDimensions(head + LittleEndian(width - 1, 3) + LittleEndian(height - 1, 3) + rest) ==
            Some(Dimensions(width, height))
  {
    AsciiSpells(head, 12, "VP8X");
    var s := head + LittleEndian(width - 1, 3) + LittleEndian(height - 1, 3) + rest;
    assert s[12..16] == head[12..16];
    assert s[24..27] == LittleEndian(width - 1, 3) && s[27..30] == LittleEndian(height - 1, 3);
    ThreeBytes(width - 1);
    ThreeBytes(height - 1);
    assert U24LE(s, 24) == U24LE(s[24..27], 0) && U24LE(s, 27) == U24LE(s[27..30], 0);
  }

  lemma ThreeBytes(n: nat)
    requires n < 0x100_0000
    ensures U24LE(LittleEndian(n, 3), 0) == n
  {
    var r := LittleEndian(n, 3);
    assert r == [n % 256] + LittleEndian(n / 256, 2);
    assert LittleEndian(n / 256, 2) == [n / 256 % 256] + LittleEndian(n / 256 / 256, 1);
    assert r[0] == n % 256 && r[1] == n / 256 % 256 && r[2] == n / 256 / 256 % 256;
  }
}
