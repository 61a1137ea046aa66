/** A writer of plain bitmaps, the reference the decoder is held against: what it writes is decoded again. */
module DibRoundTrip {
  import opened Wrappers
  import opened DibMasks
  import opened DibDecoder

  /** An image to be written, as the pixels of its columns and rows. */
  datatype Picture = Picture(width: nat, height: nat, topDown: bool, bpp: nat, pixel: (nat, nat) -> Pixel)

  ghost predicate Writable(p: Picture) {
    0 < p.width <= 20971520 && 0 < p.height <= 20971520 && p.width * p.height <= 20971520 && (p.bpp == 24 || p.bpp == 32)
  }

  /** Byte `k` of a little-endian word. */
  function ByteOf(n: nat, k: nat): Byte {
    (if k == 0 then n else if k == 1 then n / 0x100 else if k == 2 then n / 0x1_0000 else n / 0x100_0000) % 256
  }

  function RawHeight(p: Picture): nat {
    if p.topDown && p.height <= 0x1_0000_0000 then 0x1_0000_0000 - p.height else p.height
  }

  /** The 40 bytes of the header of an uncompressed bitmap. */
  function HeaderByte(p: Picture, i: nat): Byte {
    if i < 4 then ByteOf(40, i)
    else if i < 8 then ByteOf(p.width, i - 4)
    else if i < 12 then ByteOf(RawHeight(p), i - 8)
    else if i < 14 then ByteOf(1, i - 12)
    else if i < 16 then ByteOf(p.bpp, i - 14)
    else 0
  }

  /** Blue, green, red and, in four bytes, alpha; then padding. */
  function PixelByte(p: Picture, row: nat, col: nat): Byte
    requires row < p.height
  {
    var size := if p.bpp == 24 then 3 else 4;
    if col / size >= p.width then 0
    else
      var q := p.pixel(col / size, if p.topDown then row else p.height - 1 - row);
      if col % size == 0 then q.b else if col % size == 1 then q.g else if col % size == 2 then q.r else q.a
  }

  function Row(p: Picture, stride: nat, row: nat): (bytes: Bytes)
    requires row < p.height
    ensures |bytes| == stride && forall col :: 0 <= col < stride ==> bytes[col] == PixelByte(p, row, col)
  {
    seq(stride, col requires 0 <= col => PixelByte(p, row, col))
  }

  /** The first `n` rows. */
  function Rows(p: Picture, stride: nat, n: nat): Bytes
    requires n <= p.height
  {
    if n == 0 then [] else Rows(p, stride, n - 1) + Row(p, stride, n - 1)
  }

  function Header(p: Picture): (bytes: Bytes)
    ensures |bytes| == 40 && forall i :: 0 <= i < 40 ==> bytes[i] == HeaderByte(p, i)
  {
    seq(40, i requires 0 <= i => HeaderByte(p, i))
  }

  function Written(p: Picture): Bytes {
    Header(p) + Rows(p, Stride(p.width, p.bpp), p.height)
  }

  lemma {:induction false} RowsLength(p: Picture, stride: nat, n: nat)
    requires n <= p.height
    ensures |Rows(p, stride, n)| == stride * n
  {
    if n > 0 {
      RowsLength(p, stride, n - 1);
      assert stride * n == stride * (n - 1) + stride;
    }
  }

  lemma {:induction false} RowsAt(p: Picture, stride: nat, n: nat, row: nat, col: nat)
    requires row < n <= p.height && col < stride
    ensures row * stride + col < |Rows(p, stride, n)|
    ensures Rows(p, stride, n)[row * stride + col] == PixelByte(p, row, col)
  {
    RowsLength(p, stride, n - 1);
    if row < n - 1 {
      RowsAt(p, stride, n - 1, row, col);
    } else {
      assert row * stride == stride * (n - 1);
    }
  }

  lemma WordBack(n: nat)
    requires n < 0x1_0000_0000
    ensures ByteOf(n, 0) as int + 0x100 * (ByteOf(n, 1) as int) + 0x1_0000 * (ByteOf(n, 2) as int) + 0x100_0000 * (ByteOf(n, 3) as int) == n
  {
  }

  lemma HeaderRead(d: Bytes, p: Picture)
    requires Writable(p) && |d| >= 40 && forall i :: 0 <= i < 40 ==> d[i] == HeaderByte(p, i)
    ensures U32(d, 0) == 40 && U32(d, 4) == p.width && U32(d, 8) == RawHeight(p) && U16(d, 12) == 1
    ensures U16(d, 14) == p.bpp && U32(d, 16) == 0
  {
    WordBack(40);
    WordBack(p.width);
    WordBack(RawHeight(p));
  }

  // ---------- whole bytes under a mask ----------

  lemma {:induction false} ShiftTwice(v: nat, a: nat, b: nat)
    ensures Shift(v, a + b) == Shift(Shift(v, a), b)
    decreases a
  {
    if a > 0 {
      ShiftTwice(v / 2, a - 1, b);
    }
  }

  lemma ShiftByte(v: nat)
    ensures Shift(v, 8) == v / 256
  {
    assert Shift(v, 8) == Shift(v / 2, 7) == Shift(v / 2 / 2, 6) == Shift(v / 2 / 2 / 2, 5) == Shift(v / 2 / 2 / 2 / 2, 4);
    var w := v / 2 / 2 / 2 / 2;
    assert w == v / 16;
    assert Shift(w, 4) == Shift(w / 2, 3) == Shift(w / 2 / 2, 2) == Shift(w / 2 / 2 / 2, 1) == Shift(w / 2 / 2 / 2 / 2, 0);
  }

  lemma LowPair(v: nat)
    ensures Low(v, 2) == v % 4
  {
    assert Low(v, 2) == 2 * Low(v / 2, 1) + v % 2;
    assert Low(v / 2, 1) == v / 2 % 2;
  }

  lemma LowHalf(v: nat)
    ensures Low(v, 4) == v % 16
  {
    assert Low(v, 4) == 2 * Low(v / 2, 3) + v % 2 && Low(v, 2) == 2 * Low(v / 2, 1) + v % 2;
    assert v / 2 / 2 == v / 4;
    assert Low(v / 2, 3) == 2 * Low(v / 4, 2) + v / 2 % 2 && Low(v / 2, 1) == v / 2 % 2;
    LowPair(v);
    LowPair(v / 4);
    QuarterSplit(v);
  }

  lemma QuarterSplit(v: nat)
    ensures 4 * (v / 4 % 4) + v % 4 == v % 16
  {
  }

  lemma LowSplit(v: nat)
    ensures Low(v, 8) == 16 * Low(v / 16, 4) + Low(v, 4)
  {
    assert v / 2 / 2 == v / 4 && v / 4 / 2 == v / 8 && v / 8 / 2 == v / 16;
    assert Low(v, 8) == 2 * Low(v / 2, 7) + v % 2 && Low(v, 4) == 2 * Low(v / 2, 3) + v % 2;
    assert Low(v / 2, 7) == 2 * Low(v / 4, 6) + v / 2 % 2 && Low(v / 2, 3) == 2 * Low(v / 4, 2) + v / 2 % 2;
    assert Low(v / 4, 6) == 2 * Low(v / 8, 5) + v / 4 % 2 && Low(v / 4, 2) == 2 * Low(v / 8, 1) + v / 4 % 2;
    assert Low(v / 8, 5) == 2 * Low(v / 16, 4) + v / 8 % 2 && Low(v / 8, 1) == v / 8 % 2;
  }

  lemma ModSplit(v: nat)
    ensures 16 * (v / 16 % 16) + v % 16 == v % 256
  {
  }

  lemma LowByte(v: nat)
    ensures Low(v, 8) == v % 256
  {
    LowSplit(v);
    LowHalf(v);
    LowHalf(v / 16);
    ModSplit(v);
  }

  lemma DivSplit(v: nat)
    ensures v / 256 / 256 == v / 0x1_0000 && v / 256 / 256 / 256 == v / 0x100_0000
  {
  }

  lemma FieldOfByte(v: nat)
    ensures Field(v, 0, 8) == v % 256 && Field(v, 8, 8) == v / 256 % 256
    ensures Field(v, 16, 8) == v / 256 / 256 % 256 && Field(v, 24, 8) == v / 256 / 256 / 256 % 256
  {
    LowByte(v);
    ShiftByte(v);
    LowByte(v / 256);
    ShiftTwice(v, 8, 8);
    ShiftByte(v / 256);
    LowByte(v / 256 / 256);
    ShiftTwice(v, 16, 8);
    ShiftByte(v / 256 / 256);
    LowByte(v / 256 / 256 / 256);
  }

  lemma {:induction false} RunOfByte(s: nat)
    requires s == 0 || s == 8 || s == 16 || s == 24
    ensures Run(s, 8) == if s == 0 then 0xff else if s == 8 then 0xff00 else if s == 16 then 0xff_0000 else 0xff00_0000
  {
    OnesTable();
    RunDoubles(8);
    RunDoubles(16);
    RunDoubles(24);
    assert Run(0, 8) == 255;
  }

  lemma RunDoubles(s: nat)
    requires s >= 8
    ensures Run(s, 8) == 256 * Run(s - 8, 8)
  {
    assert Run(s, 8) == 2 * Run(s - 1, 8) == 4 * Run(s - 2, 8) == 8 * Run(s - 3, 8) == 16 * Run(s - 4, 8);
    assert Run(s - 4, 8) == 2 * Run(s - 5, 8) == 4 * Run(s - 6, 8) == 8 * Run(s - 7, 8) == 16 * Run(s - 8, 8);
  }

  /** The plain masks take out the bytes. */
  lemma PlainMasks(v: Word)
    ensures ScaleMask(v, 0xff) == v % 256 && ScaleMask(v, 0xff00) == v / 0x100 % 256
    ensures ScaleMask(v, 0xff_0000) == v / 0x1_0000 % 256 && ScaleMask(v, 0xff00_0000) == v / 0x100_0000 % 256
  {
    FieldOfByte(v);
    DivSplit(v);
    RunOfByte(0);
    RunOfByte(8);
    RunOfByte(16);
    RunOfByte(24);
    ScaleMaskOfRun(v, 0xff, 0, 8);
    ScaleMaskOfRun(v, 0xff00, 8, 8);
    ScaleMaskOfRun(v, 0xff_0000, 16, 8);
    ScaleMaskOfRun(v, 0xff00_0000, 24, 8);
  }

  // ---------- the round trip ----------

  function LayoutOf(p: Picture): Layout {
    Layout(p.width, p.height, p.topDown, p.bpp,
           if p.bpp == 24 then Masks(0, 0, 0, 0) else Masks(0xff_0000, 0xff00, 0xff, 0xff00_0000), 40, Stride(p.width, p.bpp))
  }

  lemma WrittenParses(p: Picture)
    requires Writable(p)
    ensures Parse(Written(p)) == Good(LayoutOf(p)) && Fits(Written(p), LayoutOf(p))
  {
    var d, stride := Written(p), Stride(p.width, p.bpp);
    RowsLength(p, stride, p.height);
    HeaderRead(d, p);
    SizesRead(d, p);
    ParsesAs(d, p);
  }

  lemma SizesRead(d: Bytes, p: Picture)
    requires Writable(p) && |d| >= 40 && U32(d, 4) == p.width && U32(d, 8) == RawHeight(p)
    ensures Signed(U32(d, 4)) == p.width && Signed(U32(d, 8)) == if p.topDown then 0 - p.height else p.height as int
  {
  }

  lemma ParsesAs(d: Bytes, p: Picture)
    requires Writable(p) && |d| >= 40 && U32(d, 0) == 40
    requires Signed(U32(d, 4)) == p.width && Signed(U32(d, 8)) == if p.topDown then 0 - p.height else p.height as int
    requires U16(d, 12) == 1 && U16(d, 14) == p.bpp && U32(d, 16) == 0
    requires |d| == 40 + Stride(p.width, p.bpp) * p.height
    ensures Parse(d) == Good(LayoutOf(p)) && Fits(d, LayoutOf(p))
  {
    assert Acceptable(d);
    ParseMeans(d);
    if p.bpp == 24 {
      NoMasks24(d);
    }
  }

  lemma NoMasks24(d: Bytes)
    requires Parse(d).Good? && Parse(d).layout.bpp == 24
    ensures Parse(d).layout.masks == Masks(0, 0, 0, 0)
  {
  }

  function ByteOfPixel(q: Pixel, c: nat): Byte {
    if c == 0 then q.b else if c == 1 then q.g else if c == 2 then q.r else q.a
  }

  lemma ColumnSplits(x: nat, c: nat)
    ensures c < 3 ==> (x * 3 + c) / 3 == x && (x * 3 + c) % 3 == c
    ensures c < 4 ==> (x * 4 + c) / 4 == x && (x * 4 + c) % 4 == c
  {
  }

  lemma ByteInRow(p: Picture, row: nat, x: nat, c: nat)
    requires Writable(p) && row < p.height && x < p.width && c < p.bpp / 8
    ensures PixelByte(p, row, x * (p.bpp / 8) + c) == ByteOfPixel(p.pixel(x, if p.topDown then row else p.height - 1 - row), c)
  {
    ColumnSplits(x, c);
  }

  lemma BehindHeader(header: Bytes, rows: Bytes, j: nat)
    requires |header| == 40 && j < |rows|
    ensures (header + rows)[40 + j] == rows[j]
  {
  }

  function Place(row: nat, stride: nat, col: nat): nat {
    row * stride + col
  }

  lemma WrittenAt(p: Picture, stride: nat, row: nat, col: nat, j: nat)
    requires row < p.height && col < stride == Stride(p.width, p.bpp) && j == Place(row, stride, col)
    ensures 40 + j < |Written(p)| && Written(p)[40 + j] == PixelByte(p, row, col)
  {
    var rows := Rows(p, stride, p.height);
    assert j < |rows| && rows[j] == PixelByte(p, row, col) by {
      RowsAt(p, stride, p.height, row, col);
    }
    BehindHeader(Header(p), rows, j);
  }

  lemma ColumnInside(p: Picture, x: nat, c: nat)
    requires Writable(p) && x < p.width && c < p.bpp / 8
    ensures x * (p.bpp / 8) + c < Stride(p.width, p.bpp)
  {
    StrideCovers(p.width, x);
  }

  lemma StartOfPixel(l: Layout, x: nat, y: nat, j: nat, c: nat)
    requires y < l.height && l.offset == 40 && j == Place(SourceRow(l, y), l.stride, x * (l.bpp / 8) + c)
    ensures PixelStart(l, x, y) + c == 40 + j
  {
  }

  /** Byte `c` of a pixel is where the layout says. */
  lemma PixelByteAt(p: Picture, x: nat, y: nat, c: nat)
    requires Writable(p) && x < p.width && y < p.height && c < p.bpp / 8
    ensures PixelStart(LayoutOf(p), x, y) + c < |Written(p)|
    ensures Written(p)[PixelStart(LayoutOf(p), x, y) + c] == ByteOfPixel(p.pixel(x, y), c)
  {
    var l := LayoutOf(p);
    var row, col := SourceRow(l, y), x * (p.bpp / 8) + c;
    var j := Place(row, l.stride, col);
    ColumnInside(p, x, c);
    StartOfPixel(l, x, y, j, c);
    WrittenAt(p, l.stride, row, col, j);
    ByteInRow(p, row, x, c);
  }

  lemma LowestByte(b: Byte, rest: nat, v: nat)
    requires v == b as int + 256 * rest
    ensures v % 256 == b && v / 256 == rest
  {
  }

  lemma WordOfBytes(b0: Byte, b1: Byte, b2: Byte, b3: Byte, v: Word)
    requires v == b0 as int + 0x100 * (b1 as int) + 0x1_0000 * (b2 as int) + 0x100_0000 * (b3 as int)
    ensures v % 256 == b0 && v / 0x100 % 256 == b1 && v / 0x1_0000 % 256 == b2 && v / 0x100_0000 % 256 == b3
  {
    var v2: nat := b2 as int + 256 * (b3 as int);
    var v1: nat := b1 as int + 256 * v2;
    LowestByte(b0, v1, v);
    LowestByte(b1, v2, v1);
    LowestByte(b2, b3, v2);
    LowestByte(b3, 0, b3);
    DivSplit(v);
  }

  /** Every pixel is stored as it was written; three bytes have no alpha. */
  lemma WrittenIsStored(p: Picture, x: nat, y: nat)
    requires Writable(p) && x < p.width && y < p.height
    ensures Fits(Written(p), LayoutOf(p))
    ensures Stored(Written(p), LayoutOf(p), x, y) == if p.bpp == 24 then p.pixel(x, y).(a := 255) else p.pixel(x, y)
  {
    WrittenParses(p);
    PixelByteAt(p, x, y, 0);
    PixelByteAt(p, x, y, 1);
    PixelByteAt(p, x, y, 2);
    if p.bpp == 32 {
      PixelByteAt(p, x, y, 3);
      var d, i, q := Written(p), PixelStart(LayoutOf(p), x, y), p.pixel(x, y);
      var v := U32(d, i);
      WordOfBytes(q.b, q.g, q.r, q.a, v);
      PlainMasks(v);
    }
  }

  /** The picture has an alpha somewhere. */
  ghost predicate HasAlpha(p: Picture) {
    exists x: nat, y: nat :: x < p.width && y < p.height && p.pixel(x, y).a != 0
  }

  /**
   Every picture that is written, in three bytes or four, from the top or from the bottom, is decoded to
   itself; its alpha is kept unless it is zero throughout or there was no room for it.
   */
  lemma WrittenIsDecoded(p: Picture, x: nat, y: nat)
    requires Writable(p) && x < p.width && y < p.height
    ensures Parse(Written(p)) == Good(LayoutOf(p)) && Fits(Written(p), LayoutOf(p))
    ensures PixelOf(Written(p), LayoutOf(p), x, y) ==
      if p.bpp == 32 && HasAlpha(p) then p.pixel(x, y) else p.pixel(x, y).(a := 255)
  {
    WrittenParses(p);
    WrittenIsStored(p, x, y);
    if p.bpp == 32 {
      AlphaIsStored(p);
    }
  }

  lemma AlphaIsStored(p: Picture)
    requires Writable(p) && p.bpp == 32
    ensures Fits(Written(p), LayoutOf(p)) && (AnyAlpha(Written(p), LayoutOf(p)) <==> HasAlpha(p))
  {
    WrittenParses(p);
    AlphaCarries(Written(p), LayoutOf(p), p);
  }

  lemma AlphaCarries(d: Bytes, l: Layout, p: Picture)
    requires Writable(p) && p.bpp == 32 && d == Written(p) && l == LayoutOf(p) && Fits(d, l)
    ensures AnyAlpha(d, l) <==> HasAlpha(p)
  {
    forall x: nat, y: nat | x < p.width && y < p.height ensures Stored(d, l, x, y) == p.pixel(x, y) {
      WrittenIsStored(p, x, y);
    }
    if HasAlpha(p) {
      var x: nat, y: nat :| x < p.width && y < p.height && p.pixel(x, y).a != 0;
      assert Stored(d, l, x, y).a != 0;
    }
  }
}
