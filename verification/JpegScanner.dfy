/** Reading the dimensions of a JPEG file from its markers (app/media_storage.py, 53-85), against the marker syntax
    of sections B.1.1.2 and B.2.2 of ITU-T T.81. */
module JpegScanner {
  import opened Options

  newtype Byte = x: int | 0 <= x < 0x100

  const FILL: Byte := 0xFF
  const SOI: Byte := 0xD8
  const EOI: Byte := 0xD9
  const SOS: Byte := 0xDA

  predicate IsFrameMarker(marker: Byte) {
    marker in {0xC0, 0xC1, 0xC2, 0xC3, 0xC5, 0xC6, 0xC7, 0xC9, 0xCA, 0xCB, 0xCD, 0xCE, 0xCF}
  }

  /** The frame markers of table B.1: all of 0xC0 to 0xCF but those for Huffman tables, arithmetic conditioning and the
      reserved extension. */
  lemma FrameMarkersExactly(marker: Byte)
    ensures IsFrameMarker(marker) <==> 0xC0 <= marker <= 0xCF && marker != 0xC4 && marker != 0xC8 && marker != 0xCC
  {
  }

  datatype Size = Size(width: nat, height: nat)

  function BigEndian(s: seq<Byte>, i: nat): nat
    requires i + 2 <= |s|
  {
    s[i] as int * 0x100 + s[i + 1] as int
  }

  function DropFill(s: seq<Byte>): (r: seq<Byte>)
    ensures |r| <= |s| && (s != [] && s[0] == FILL ==> |r| < |s|)
  {
    if s != [] && s[0] == FILL then DropFill(s[1..]) else s
  }

  /** The size in a frame header, if neither dimension is zero. */
  function SizeAt(segment: seq<Byte>): Option<Size>
    requires |segment| >= 7
  {
    var height, width := BigEndian(segment, 3), BigEndian(segment, 5);
    if width < 1 || height < 1 then None else Some(Size(width, height))
  }

  /** What a marker and the bytes after it tell the scanner: stop, a size, or how many bytes to pass over. */
  datatype Verdict = Stop | Found(size: Size) | Pass(count: nat)

  predicate HoldsSize(marker: Byte, length: nat) {
    IsFrameMarker(marker) && length >= 7
  }

  function Judge(marker: Byte, after: seq<Byte>): (v: Verdict)
    ensures v.Pass? ==> v.count <= |after|
  {
    if marker == SOI || marker == EOI then Pass(0)
    else if marker == SOS || |after| < 2 then Stop
    else
      var length := BigEndian(after, 0);
      if length < 2 || length > |after| then Stop
      else if HoldsSize(marker, length) then if SizeAt(after).Some? then Found(SizeAt(after).value) else Stop
      else Pass(length)
  }

  /** What scanning finds from here on. */
  function Scan(s: seq<Byte>): Option<Size>
    decreases |s|
  {
    if |s| < 4 then None
    else if s[0] != FILL then Scan(s[1..])
    else if DropFill(s) == [] then None
    else
      var after := DropFill(s)[1..];
      var v := Judge(DropFill(s)[0], after);
      if v.Stop? then None else if v.Found? then Some(v.size) else Scan(after[v.count..])
  }

  predicate HasMagic(data: seq<Byte>) {
    |data| >= 12 && data[..3] == [FILL, SOI, FILL] && data[|data| - 2..] == [FILL, EOI]
  }

  lemma DropFillAt(data: seq<Byte>, i: nat)
    requires i < |data| && data[i] == FILL
    ensures DropFill(data[i..]) == DropFill(data[i + 1..])
  {
    assert data[i..][1..] == data[i + 1..];
  }

  /** `jpeg_dimensions`; `None` stands for its two errors. */
  method JpegDimensions(data: seq<Byte>) returns (size: Option<Size>)
    ensures size == if HasMagic(data) then Scan(data[2..]) else None
  {
    if |data| < 12 || data[..3] != [FILL, SOI, FILL] || data[|data| - 2..] != [FILL, EOI] {
      return None;
    }
    var offset := 2;
    while offset + 4 <= |data|
      invariant 2 <= offset <= |data|
      invariant Scan(data[offset..]) == Scan(data[2..])
      decreases |data| - offset
    {
      var verdict, next := ScanOnce(data, offset);
      match verdict {
        case Stop =>
          return None;
        case Found(found) =>
          return Some(found);
        case Pass(_) =>
          offset := next;
      }
    }
    size := None;
  }

  /** What one turn of the outer loop says about the whole scan. */
  ghost predicate Continues(data: seq<Byte>, start: nat, v: Verdict, next: nat) {
    match v
    case Stop => start <= |data| && Scan(data[start..]) == None
    case Found(size) => start <= |data| && Scan(data[start..]) == Some(size)
    case Pass(_) => start < next <= |data| && Scan(data[start..]) == Scan(data[next..])
  }

  /** The body of the outer loop: pass a stray byte, or the fill bytes and what the marker after them says. */
  method ScanOnce(data: seq<Byte>, start: nat) returns (v: Verdict, next: nat)
    requires start + 4 <= |data|
    ensures Continues(data, start, v, next)
  {
    if data[start] != FILL {
      v, next := Pass(0), start + 1;
      StrayContinues(data, start, v, next);
      return;
    }
    var offset := PassFill(data, start);
    v, next := ScanMarker(data, start, offset);
  }

  /** From the marker on. */
  method ScanMarker(data: seq<Byte>, start: nat, offset: nat) returns (v: Verdict, next: nat)
    requires start + 4 <= |data| && data[start] == FILL && start < offset <= |data| && DropFill(data[start..]) == data[offset..]
    requires offset < |data| ==> data[offset] != FILL
    ensures Continues(data, start, v, next)
  {
    next := start + 1;
    if offset == |data| {
      v := Stop;
      EndContinues(data, start, v, next);
      return;
    }
    v := ReadMarker(data, offset + 1, data[offset]);
    if v.Pass? {
      next := offset + 1 + v.count;
    }
    MarkerContinues(data, start, offset + 1, v, next);
  }

  lemma StrayContinues(data: seq<Byte>, start: nat, v: Verdict, next: nat)
    requires start + 4 <= |data| && data[start] != FILL && v == Pass(0) && next == start + 1
    ensures Continues(data, start, v, next)
  {
    ScanStray(data, start);
  }

  lemma EndContinues(data: seq<Byte>, start: nat, v: Verdict, next: nat)
    requires start < |data| && data[start] == FILL && DropFill(data[start..]) == data[|data|..] && v == Stop
    ensures Continues(data, start, v, next)
  {
    ScanEnds(data, start);
  }

  lemma MarkerContinues(data: seq<Byte>, start: nat, offset: nat, v: Verdict, next: nat)
    requires start < offset <= |data| && start + 4 <= |data| && data[start] == FILL
    requires data[offset - 1] != FILL && DropFill(data[start..]) == data[offset - 1..]
    requires v == Judge(data[offset - 1], data[offset..]) && (v.Pass? ==> next == offset + v.count)
    ensures Continues(data, start, v, next)
  {
    ScanAt(data, start, offset, v);
  }

  /** The inner loop: the first byte that is no fill byte, or the end. */
  method PassFill(data: seq<Byte>, start: nat) returns (offset: nat)
    requires start < |data| && data[start] == FILL
    ensures start < offset <= |data| && DropFill(data[start..]) == data[offset..]
    ensures offset < |data| ==> data[offset] != FILL
  {
    offset := start;
    while offset < |data| && data[offset] == FILL
      invariant start <= offset <= |data|
      invariant DropFill(data[offset..]) == DropFill(data[start..])
    {
      DropFillAt(data, offset);
      offset := offset + 1;
    }
    assert data[offset..] == [] || data[offset..][0] != FILL;
  }

  /** The rest of the loop body: by the marker before `offset`, stop, return a size, or move on. */
  method ReadMarker(data: seq<Byte>, offset: nat, marker: Byte) returns (v: Verdict)
    requires offset <= |data|
    ensures v == Judge(marker, data[offset..])
  {
    if marker in {SOI, EOI} {
      return Pass(0);
    }
    if marker == SOS || offset + 2 > |data| {
      return Stop;
    }
    var length := Unsigned(data, offset, 0);
    if length < 2 || offset + length > |data| {
      return Stop;
    }
    if IsFrameMarker(marker) && length >= 7 {
      var height := Unsigned(data, offset, 3);
      var width := Unsigned(data, offset, 5);
      if width < 1 || height < 1 {
        return Stop;
      }
      return Found(Size(width, height));
    }
    v := Pass(length);
  }

  /** `int.from_bytes` of two bytes, `i` after `offset`. */
  method Unsigned(data: seq<Byte>, offset: nat, i: nat) returns (n: nat)
    requires offset + i + 2 <= |data|
    ensures n == BigEndian(data[offset..], i)
  {
    n := data[offset + i] as int * 0x100 + data[offset + i + 1] as int;
  }

  lemma ScanStray(data: seq<Byte>, offset: nat)
    requires offset + 4 <= |data| && data[offset] != FILL
    ensures Scan(data[offset..]) == Scan(data[offset + 1..])
  {
    assert data[offset..][1..] == data[offset + 1..];
  }

  lemma ScanEnds(data: seq<Byte>, start: nat)
    requires start < |data| && data[start] == FILL && DropFill(data[start..]) == []
    ensures Scan(data[start..]) == None
  {
  }

  /** Past the fill bytes, the scan goes by the marker. */
  lemma ScanAt(data: seq<Byte>, start: nat, offset: nat, v: Verdict)
    requires start < offset <= |data| && start + 4 <= |data| && data[start] == FILL
    requires data[offset - 1] != FILL && DropFill(data[start..]) == data[offset - 1..]
    requires v == Judge(data[offset - 1], data[offset..])
    ensures Scan(data[start..]) == if v.Stop? then None else if v.Found? then Some(v.size) else Scan(data[offset + v.count..])
  {
    assert v.Pass? ==> data[offset..][v.count..] == data[offset + v.count..];
    assert data[offset - 1..][1..] == data[offset..];
  }

  /** What may stand before the frame header: a stray byte, a marker without a segment, or a segment with its
      length (any marker but a frame's, or a frame's too short to hold a size). `fill` counts the optional fill
      bytes. */
  datatype Item =
    | Stray(byte: Byte)
    | Bare(fill: nat, marker: Byte)
    | Segment(fill: nat, marker: Byte, body: seq<Byte>)

  datatype Frame = Frame(fill: nat, marker: Byte, precision: Byte, size: Size, components: seq<Byte>)

  predicate ValidItem(item: Item) {
    match item
    case Stray(byte) => byte != FILL
    case Bare(_, marker) => marker == SOI || marker == EOI
    case Segment(_, marker, body) =>
      marker !in {FILL, SOI, EOI, SOS} && |body| + 2 < 0x10000 && (IsFrameMarker(marker) ==> |body| < 5)
  }

  predicate ValidFrame(frame: Frame) {
    && IsFrameMarker(frame.marker) && 1 <= frame.size.width < 0x10000 && 1 <= frame.size.height < 0x10000
    && |frame.components| + 7 < 0x10000
  }

  function Fills(n: nat): (r: seq<Byte>)
    ensures |r| == n
  {
    if n == 0 then [] else [FILL] + Fills(n - 1)
  }

  function Word(n: nat): (r: seq<Byte>)
    requires n < 0x10000
    ensures |r| == 2 && BigEndian(r, 0) == n
  {
    [(n / 0x100) as Byte, (n % 0x100) as Byte]
  }

  function EncodeItem(item: Item): seq<Byte>
    requires ValidItem(item)
  {
    match item
    case Stray(byte) => [byte]
    case Bare(fill, marker) => Fills(fill + 1) + [marker]
    case Segment(fill, marker, body) => Fills(fill + 1) + [marker] + Word(|body| + 2) + body
  }

  function EncodeFrame(frame: Frame): seq<Byte>
    requires ValidFrame(frame)
  {
    Fills(frame.fill + 1) + [frame.marker] + Word(|frame.components| + 7)
      + [frame.precision] + Word(frame.size.height) + Word(frame.size.width) + frame.components
  }

  ghost predicate ValidItems(items: seq<Item>) {
    forall i :: 0 <= i < |items| ==> ValidItem(items[i])
  }

  function EncodeItems(items: seq<Item>): seq<Byte>
    requires ValidItems(items)
  {
    if items == [] then [] else EncodeItem(items[0]) + EncodeItems(items[1..])
  }

  lemma {:induction false} DropFills(n: nat, rest: seq<Byte>)
    requires rest != [] && rest[0] != FILL
    ensures DropFill(Fills(n) + rest) == rest
  {
    if n == 0 {
      assert Fills(0) + rest == rest;
    } else {
      DropFills(n - 1, rest);
      assert (Fills(n) + rest)[1..] == Fills(n - 1) + rest;
    }
  }

  lemma WordAt(n: nat, rest: seq<Byte>)
    requires n < 0x10000
    ensures BigEndian(Word(n) + rest, 0) == n
  {
  }

  /** Past `n` fill bytes, the scan goes by the marker. */
  lemma ScanMarked(n: nat, marker: Byte, after: seq<Byte>)
    requires n > 0 && marker != FILL && n + 1 + |after| >= 4
    ensures var v := Judge(marker, after);
            Scan(Fills(n) + ([marker] + after)) == if v.Stop? then None else if v.Found? then Some(v.size) else Scan(after[v.count..])
  {
    DropFills(n, [marker] + after);
    assert ([marker] + after)[1..] == after;
  }

  /** The scanner steps over every item. */
  lemma ScanSkipsItem(item: Item, rest: seq<Byte>)
    requires ValidItem(item) && |rest| >= 4
    ensures Scan(EncodeItem(item) + rest) == Scan(rest)
  {
    match item
    case Stray(byte) =>
      assert ([byte] + rest)[1..] == rest;
    case Bare(fill, marker) =>
      ScanSkipsBare(fill, marker, rest);
    case Segment(fill, marker, body) =>
      ScanSkipsSegment(fill, marker, body, rest);
  }

  lemma ScanSkipsBare(fill: nat, marker: Byte, rest: seq<Byte>)
    requires ValidItem(Bare(fill, marker)) && |rest| >= 4
    ensures Scan(EncodeItem(Bare(fill, marker)) + rest) == Scan(rest)
  {
    ScanMarked(fill + 1, marker, rest);
    assert rest[0..] == rest;
    Regroup(Fills(fill + 1), [marker], [], [], rest);
    assert [] + ([] + rest) == rest && Fills(fill + 1) + [marker] + [] + [] == Fills(fill + 1) + [marker];
  }

  lemma Regroup(a: seq<Byte>, b: seq<Byte>, c: seq<Byte>, d: seq<Byte>, e: seq<Byte>)
    ensures a + b + c + d + e == a + (b + (c + (d + e)))
  {
  }

  lemma ScanSkipsSegment(fill: nat, marker: Byte, body: seq<Byte>, rest: seq<Byte>)
    requires ValidItem(Segment(fill, marker, body)) && |rest| >= 4
    ensures Scan(EncodeItem(Segment(fill, marker, body)) + rest) == Scan(rest)
  {
    var after := Word(|body| + 2) + (body + rest);
    WordAt(|body| + 2, body + rest);
    ScanMarked(fill + 1, marker, after);
    assert after[|body| + 2..] == rest;
    Regroup(Fills(fill + 1), [marker], Word(|body| + 2), body, rest);
  }

  /** A frame header after its marker. */
  function Header(frame: Frame): seq<Byte>
    requires ValidFrame(frame)
  {
    Word(|frame.components| + 7) + [frame.precision] + Word(frame.size.height) + Word(frame.size.width) + frame.components
  }

  lemma JudgeReadsFrame(frame: Frame, tail: seq<Byte>)
    requires ValidFrame(frame)
    ensures Judge(frame.marker, Header(frame) + tail) == Found(frame.size)
  {
    var after := Header(frame) + tail;
    var length, height, width := Word(|frame.components| + 7), Word(frame.size.height), Word(frame.size.width);
    assert after == length + ([frame.precision] + height + width + frame.components + tail);
    WordAt(|frame.components| + 7, [frame.precision] + height + width + frame.components + tail);
    assert BigEndian(after, 3) == BigEndian(height, 0) && BigEndian(after, 5) == BigEndian(width, 0);
  }

  lemma ScanReadsFrame(frame: Frame, tail: seq<Byte>)
    requires ValidFrame(frame)
    ensures Scan(EncodeFrame(frame) + tail) == Some(frame.size)
  {
    var after := Header(frame) + tail;
    JudgeReadsFrame(frame, tail);
    ScanMarked(frame.fill + 1, frame.marker, after);
    assert EncodeFrame(frame) + tail == Fills(frame.fill + 1) + ([frame.marker] + after);
  }

  lemma {:induction false} ScanReadsEncoding(items: seq<Item>, frame: Frame, tail: seq<Byte>)
    requires ValidItems(items) && ValidFrame(frame)
    ensures Scan(EncodeItems(items) + EncodeFrame(frame) + tail) == Some(frame.size)
    decreases |items|
  {
    if items == [] {
      ScanReadsFrame(frame, tail);
      assert EncodeItems(items) + EncodeFrame(frame) == EncodeFrame(frame);
    } else {
      var rest := EncodeItems(items[1..]) + EncodeFrame(frame) + tail;
      ScanReadsEncoding(items[1..], frame, tail);
      ScanSkipsItem(items[0], rest);
      ItemsCons(items[0], items[1..], items, EncodeFrame(frame), tail);
    }
  }

  lemma ItemsCons(item: Item, more: seq<Item>, items: seq<Item>, frame: seq<Byte>, tail: seq<Byte>)
    requires ValidItem(item) && ValidItems(more) && |items| == |more| + 1 && items[0] == item && items[1..] == more
    ensures ValidItems(items)
    ensures EncodeItems(items) + frame + tail == EncodeItem(item) + (EncodeItems(more) + frame + tail)
  {
    assert forall i :: 0 < i < |items| ==> items[i] == more[i - 1];
    Associative(EncodeItem(item), EncodeItems(more), frame);
    Associative(EncodeItem(item), EncodeItems(more) + frame, tail);
  }

  lemma Associative(a: seq<Byte>, b: seq<Byte>, c: seq<Byte>)
    ensures (a + b) + c == a + (b + c)
  {
  }

  /** How many fill bytes lead, and what follows them. */
  lemma {:induction false} FillsBefore(s: seq<Byte>) returns (n: nat)
    ensures s == Fills(n) + DropFill(s)
    ensures s != [] && s[0] == FILL ==> n > 0
    ensures DropFill(s) != [] ==> DropFill(s)[0] != FILL
    decreases |s|
  {
    if s != [] && s[0] == FILL {
      var m := FillsBefore(s[1..]);
      n := m + 1;
      Associative([FILL], Fills(m), DropFill(s[1..]));
      assert s == [FILL] + s[1..];
    } else {
      n := 0;
    }
  }

  lemma WordOf(s: seq<Byte>, i: nat)
    requires i + 2 <= |s|
    ensures BigEndian(s, i) < 0x10000 && Word(BigEndian(s, i)) == s[i..i + 2]
  {
  }

  /** The scan stands at a frame header with a size. */
  predicate AtFrame(s: seq<Byte>) {
    && s != [] && s[0] == FILL && |DropFill(s)| >= 3
    && HoldsSize(DropFill(s)[0], BigEndian(DropFill(s)[1..], 0))
  }

  /** One step of the scanner undone: an item, or the frame. */
  lemma ItemBefore(s: seq<Byte>) returns (item: Item, rest: seq<Byte>)
    requires Scan(s).Some? && !AtFrame(s)
    ensures ValidItem(item) && s == EncodeItem(item) + rest && Scan(rest) == Scan(s) && |rest| < |s|
  {
    if s[0] != FILL {
      item, rest := Stray(s[0]), s[1..];
    } else {
      var n := FillsBefore(s);
      var marker, after := DropFill(s)[0], DropFill(s)[1..];
      assert s == Fills(n) + ([marker] + after);
      if marker == SOI || marker == EOI {
        item, rest := Bare(n - 1, marker), after;
        assert after[0..] == after;
      } else {
        item, rest := SplitSegment(n, marker, after);
      }
    }
  }

  /** A passed segment read back into its fields. */
  lemma SplitSegment(n: nat, marker: Byte, after: seq<Byte>) returns (item: Item, rest: seq<Byte>)
    requires n > 0 && marker !in {FILL, SOI, EOI} && Judge(marker, after).Pass?
    ensures ValidItem(item) && Fills(n) + ([marker] + after) == EncodeItem(item) + rest && rest == after[Judge(marker, after).count..]
  {
    var length := BigEndian(after, 0);
    WordOf(after, 0);
    item, rest := Segment(n - 1, marker, after[2..length]), after[length..];
    assert after == Word(length) + after[2..length] + rest;
  }

  lemma FrameBefore(s: seq<Byte>) returns (frame: Frame, tail: seq<Byte>)
    requires Scan(s).Some? && AtFrame(s)
    ensures ValidFrame(frame) && s == EncodeFrame(frame) + tail && Scan(s) == Some(frame.size)
  {
    var n := FillsBefore(s);
    var marker, after := DropFill(s)[0], DropFill(s)[1..];
    assert s == Fills(n) + ([marker] + after);
    frame, tail := SplitHeader(n, marker, after);
  }

  /** A frame header read back into its fields. */
  lemma SplitHeader(n: nat, marker: Byte, after: seq<Byte>) returns (frame: Frame, tail: seq<Byte>)
    requires n > 0 && |after| >= 2 && HoldsSize(marker, BigEndian(after, 0)) && Judge(marker, after).Found?
    ensures ValidFrame(frame) && Fills(n) + ([marker] + after) == EncodeFrame(frame) + tail && Judge(marker, after) == Found(frame.size)
  {
    var length, height, width := BigEndian(after, 0), BigEndian(after, 3), BigEndian(after, 5);
    WordOf(after, 0);
    WordOf(after, 3);
    WordOf(after, 5);
    frame := Frame(n - 1, marker, after[2], Size(width, height), after[7..length]);
    tail := after[length..];
    assert after == Word(length) + [after[2]] + Word(height) + Word(width) + after[7..length] + tail;
  }

  /** Whatever the scanner accepts is an encoding: items, then a frame with the size it reports. */
  lemma {:induction false} ScanAcceptsEncodings(s: seq<Byte>) returns (items: seq<Item>, frame: Frame, tail: seq<Byte>)
    requires Scan(s).Some?
    ensures ValidItems(items) && ValidFrame(frame)
    ensures s == EncodeItems(items) + EncodeFrame(frame) + tail && Scan(s) == Some(frame.size)
    decreases |s|
  {
    if AtFrame(s) {
      frame, tail := FrameBefore(s);
      items := [];
      assert s == EncodeItems(items) + EncodeFrame(frame) + tail;
    } else {
      var item, rest := ItemBefore(s);
      var more;
      more, frame, tail := ScanAcceptsEncodings(rest);
      items := [item] + more;
      ItemsCons(item, more, items, EncodeFrame(frame), tail);
    }
  }

  /** The file: start of image, items, frame header, and anything up to the end-of-image marker. */
  ghost predicate IsJpeg(data: seq<Byte>, items: seq<Item>, frame: Frame, tail: seq<Byte>) {
    ValidItems(items) && ValidFrame(frame) && data == [FILL, SOI] + (EncodeItems(items) + EncodeFrame(frame) + tail)
  }

  /** The scanner inverts the encoder and accepts nothing else: a file with the right first and last bytes has this
      size exactly when it is an encoding whose frame header says so. */
  lemma DimensionsInvertEncoding(data: seq<Byte>, size: Size)
    requires HasMagic(data)
    ensures Scan(data[2..]) == Some(size) <==> exists items, frame, tail :: IsJpeg(data, items, frame, tail) && frame.size == size
  {
    if Scan(data[2..]) == Some(size) {
      var items, frame, tail := ScanAcceptsEncodings(data[2..]);
      assert data == data[..3][..2] + data[2..];
      assert IsJpeg(data, items, frame, tail);
    }
    if items, frame, tail :| IsJpeg(data, items, frame, tail) && frame.size == size {
      ScanReadsEncoding(items, frame, tail);
      assert data[2..] == EncodeItems(items) + EncodeFrame(frame) + tail;
    }
  }

  /** An encoder's output: segments with their fill bytes, a frame header, further data, and the end marker. */
  lemma EncoderOutputIsRead(segments: seq<Item>, frame: Frame, scans: seq<Byte>)
    requires ValidItems(segments) && ValidFrame(frame) && forall i :: 0 <= i < |segments| ==> segments[i].Segment?
    ensures var data := [FILL, SOI] + (EncodeItems(segments) + EncodeFrame(frame) + (scans + [FILL, EOI]));
            HasMagic(data) && Scan(data[2..]) == Some(frame.size)
  {
    var end := scans + [FILL, EOI];
    ScanReadsEncoding(segments, frame, end);
    StartsWithFill(segments, frame, end);
    MagicAround(EncodeItems(segments) + EncodeFrame(frame) + end);
  }

  lemma StartsWithFill(segments: seq<Item>, frame: Frame, end: seq<Byte>)
    requires ValidItems(segments) && ValidFrame(frame) && forall i :: 0 <= i < |segments| ==> segments[i].Segment?
    requires |end| >= 2 && end[|end| - 2..] == [FILL, EOI]
    ensures var rest := EncodeItems(segments) + EncodeFrame(frame) + end;
            |rest| >= 10 && rest[0] == FILL && rest[|rest| - 2..] == [FILL, EOI]
  {
    var front := EncodeItems(segments) + EncodeFrame(frame);
    assert EncodeFrame(frame)[0] == FILL;
    if segments != [] {
      assert EncodeItem(segments[0])[0] == FILL;
    }
    assert front[0] == FILL;
    assert (front + end)[|front| + |end| - 2..] == end[|end| - 2..];
  }

  lemma MagicAround(rest: seq<Byte>)
    requires |rest| >= 10 && rest[0] == FILL && rest[|rest| - 2..] == [FILL, EOI]
    ensures HasMagic([FILL, SOI] + rest) && ([FILL, SOI] + rest)[2..] == rest
  {
    var data := [FILL, SOI] + rest;
    assert data[|data| - 2..] == rest[|rest| - 2..];
  }
}
