/** Device-independent bitmaps from the clipboard, decoded to pixels. */
module DibDecoder {
  import opened Wrappers
  import opened DibMasks

  datatype Pixel = Pixel(r: Byte, g: Byte, b: Byte, a: Byte)

  datatype Fault =
    | TooSmall | BadHeaderSize | BadDimensions | OverLimit | BadPlanes | BadCompression | BadDepth
    | MasksTruncated | BadBitfieldHeader | BadPixelOffset | BadStride | PixelsTruncated

  datatype Masks = Masks(r: Word, g: Word, b: Word, a: Word)

  const MAX_PIXELS: nat := 20 * 1024 * 1024
  const RGB: nat := 0
  const BITFIELDS: nat := 3

  function U16(d: Bytes, i: nat): (u: nat)
    requires i + 2 <= |d|
    ensures u < 0x1_0000
  {
    d[i] as int + 0x100 * (d[i + 1] as int)
  }

  function U32(d: Bytes, i: nat): Word
    requires i + 4 <= |d|
  {
    d[i] as int + 0x100 * (d[i + 1] as int) + 0x1_0000 * (d[i + 2] as int) + 0x100_0000 * (d[i + 3] as int)
  }

  function Signed(w: Word): int {
    if w < 0x8000_0000 then w else w - 0x1_0000_0000
  }

  /** Everything the header says about where the pixels are. */
  datatype Layout = Layout(width: nat, height: nat, topDown: bool, bpp: nat, masks: Masks, offset: nat, stride: nat)

  datatype Parsed = Bad(fault: Fault) | Good(layout: Layout)

  /** Rows are padded to four bytes. */
  function Stride(width: nat, bpp: nat): nat {
    (width * bpp + 31) / 32 * 4
  }

  datatype MaskResult = NoMasks(fault: Fault) | Found(masks: Masks, size: nat)

  function MasksOf(d: Bytes, headerSize: nat, bpp: nat, compression: nat): MaskResult
    requires 40 <= headerSize <= |d|
  {
    if bpp != 32 then Found(Masks(0, 0, 0, 0), 0)
    else if compression == RGB then Found(Masks(0xff_0000, 0xff00, 0xff, 0xff00_0000), 0)
    else if headerSize >= 56 then Found(Masks(U32(d, 40), U32(d, 44), U32(d, 48), U32(d, 52)), 0)
    else if headerSize == 40 then
      if |d| < headerSize + 12 then NoMasks(MasksTruncated)
      else Found(Masks(U32(d, 40), U32(d, 44), U32(d, 48), 0), 12)
    else NoMasks(BadBitfieldHeader)
  }

  function ParseSize(d: Bytes, headerSize: nat): Parsed
    requires 40 <= headerSize <= |d|
  {
    var width, rawHeight := Signed(U32(d, 4)), Signed(U32(d, 8));
    if width <= 0 || rawHeight == 0 then Bad(BadDimensions)
    else
      var height := if rawHeight < 0 then -rawHeight else rawHeight;
      if width > MAX_PIXELS || height > MAX_PIXELS || width * height > MAX_PIXELS then Bad(OverLimit)
      else ParseFormat(d, headerSize, width, height, rawHeight < 0)
  }

  function ParseFormat(d: Bytes, headerSize: nat, width: nat, height: nat, topDown: bool): Parsed
    requires 40 <= headerSize <= |d|
  {
    var bpp, compression := U16(d, 14), U32(d, 16);
    if U16(d, 12) != 1 then Bad(BadPlanes)
    else if compression != RGB && compression != BITFIELDS then Bad(BadCompression)
    else if bpp != 24 && bpp != 32 then Bad(BadDepth)
    else
      var m := MasksOf(d, headerSize, bpp, compression);
      if m.NoMasks? then Bad(m.fault)
      else ParsePlace(d, Layout(width, height, topDown, bpp, m.masks, headerSize + m.size, Stride(width, bpp)), compression)
  }

  function ParsePlace(d: Bytes, l: Layout, compression: nat): Parsed {
    if l.offset > |d| then Bad(BadPixelOffset)
    else if l.stride <= 0 || l.stride > |d| then Bad(BadStride)
    else if |d| - l.offset < l.stride * l.height then Bad(PixelsTruncated)
    else if l.bpp == 24 && compression != RGB then Bad(BadCompression)
    else Good(l)
  }

  function Parse(d: Bytes): Parsed {
    if |d| < 40 then Bad(TooSmall)
    else
      var headerSize := U32(d, 0);
      if headerSize < 40 || headerSize > |d| then Bad(BadHeaderSize) else ParseSize(d, headerSize)
  }

  // ---------- pixels ----------

  /** The layout fits the bytes. */
  ghost predicate Fits(d: Bytes, l: Layout) {
    && (l.bpp == 24 || l.bpp == 32) && l.stride == Stride(l.width, l.bpp)
    && l.offset + l.stride * l.height <= |d|
  }

  /** The source row of the image row `y`. */
  function SourceRow(l: Layout, y: nat): nat
    requires y < l.height
  {
    if l.topDown then y else l.height - 1 - y
  }

  function PixelStart(l: Layout, x: nat, y: nat): nat
    requires y < l.height
  {
    l.offset + SourceRow(l, y) * l.stride + x * (l.bpp / 8)
  }

  lemma RowInside(l: Layout, row: nat)
    requires row < l.height
    ensures row * l.stride + l.stride <= l.stride * l.height
  {
    assert (row + 1) * l.stride <= l.height * l.stride;
  }

  lemma StrideCovers(width: nat, x: nat)
    requires x < width
    ensures x * 3 + 3 <= Stride(width, 24) && x * 4 + 4 <= Stride(width, 32)
  {
  }

  /** Every byte of every pixel is inside. */
  lemma PixelInside(d: Bytes, l: Layout, x: nat, y: nat)
    requires Fits(d, l) && x < l.width && y < l.height
    ensures PixelStart(l, x, y) + l.bpp / 8 <= |d|
  {
    RowInside(l, SourceRow(l, y));
    StrideCovers(l.width, x);
  }

  /** The pixel as it is stored. */
  function Stored(d: Bytes, l: Layout, x: nat, y: nat): Pixel
    requires Fits(d, l) && x < l.width && y < l.height
  {
    PixelInside(d, l, x, y);
    var i := PixelStart(l, x, y);
    if l.bpp == 24 then Pixel(d[i + 2], d[i + 1], d[i], 255)
    else
      var v := U32(d, i);
      Pixel(ScaleMask(v, l.masks.r), ScaleMask(v, l.masks.g), ScaleMask(v, l.masks.b),
            if l.masks.a != 0 then ScaleMask(v, l.masks.a) else 255)
  }

  /** Some pixel has an alpha that is not zero. */
  ghost predicate AnyAlpha(d: Bytes, l: Layout)
    requires Fits(d, l)
  {
    exists x: nat, y: nat :: x < l.width && y < l.height && Stored(d, l, x, y).a != 0
  }

  /** An alpha channel that is zero throughout is no alpha channel. */
  ghost function PixelOf(d: Bytes, l: Layout, x: nat, y: nat): Pixel
    requires Fits(d, l) && x < l.width && y < l.height
  {
    var p := Stored(d, l, x, y);
    if l.bpp == 32 && l.masks.a != 0 && !AnyAlpha(d, l) then p.(a := 255) else p
  }

  lemma ParsedFits(d: Bytes)
    requires Parse(d).Good?
    ensures Fits(d, Parse(d).layout) && Parse(d).layout.width > 0 && Parse(d).layout.height > 0
  {
  }

  /** The stride is the least multiple of four that holds a row. */
  lemma StrideIs(width: nat, bpp: nat)
    ensures Stride(width, bpp) % 4 == 0 && 8 * Stride(width, bpp) >= width * bpp
    ensures Stride(width, bpp) > 0 ==> 8 * (Stride(width, bpp) - 4) < width * bpp
  {
    var bits := width * bpp;
    assert Stride(width, bpp) == (bits + 31) / 32 * 4;
  }

  /** Where the pixels start: behind the header, and behind three masks if those follow a short one. */
  ghost function PixelsAt(d: Bytes): nat
    requires |d| >= 40
  {
    U32(d, 0) + if U16(d, 14) == 32 && U32(d, 16) == 3 && U32(d, 0) == 40 then 12 else 0
  }

  ghost function HeightOf(d: Bytes): int
    requires |d| >= 40
  {
    Signed(U32(d, 8))
  }

  ghost function Magnitude(i: int): nat {
    if i < 0 then -i else i
  }

  /** The depth is three bytes without masks, or four without masks, with three behind a short header, or with four in a long one. */
  ghost predicate FormatKnown(d: Bytes)
    requires |d| >= 40
  {
    || (U16(d, 14) == 24 && U32(d, 16) == 0)
    || (U16(d, 14) == 32 && U32(d, 16) == 0)
    || (U16(d, 14) == 32 && U32(d, 16) == 3 && (U32(d, 0) == 40 || U32(d, 0) >= 56))
  }

  /** What the bytes must be like to be decoded. */
  ghost predicate Acceptable(d: Bytes) {
    && |d| >= 40 && 40 <= U32(d, 0) <= |d|
    && Signed(U32(d, 4)) > 0 && HeightOf(d) != 0
    && Signed(U32(d, 4)) * Magnitude(HeightOf(d)) <= 20971520
    && U16(d, 12) == 1 && FormatKnown(d)
    && PixelsAt(d) + Stride(Signed(U32(d, 4)), U16(d, 14)) * Magnitude(HeightOf(d)) <= |d|
  }

  lemma NoLarger(a: nat, b: nat)
    requires a > 0 && b > 0
    ensures a <= a * b && b <= a * b
  {
    assert a * (b - 1) >= 0 && (a - 1) * b >= 0;
    assert a * b == a * (b - 1) + a && a * b == (a - 1) * b + b;
  }

  /** Exactly the acceptable bytes are decoded, and their header says where everything is. */
  lemma ParseMeans(d: Bytes)
    ensures Parse(d).Good? <==> Acceptable(d)
    ensures Parse(d).Good? ==> var l := Parse(d).layout;
      && l.width == Signed(U32(d, 4)) && l.height == Magnitude(HeightOf(d)) && (l.topDown <==> HeightOf(d) < 0)
      && l.bpp == U16(d, 14) && l.offset == PixelsAt(d) && l.stride == Stride(l.width, l.bpp)
      && (l.bpp == 32 && U32(d, 16) == 0 ==> l.masks == Masks(0xff_0000, 0xff00, 0xff, 0xff00_0000))
      && (l.bpp == 32 && U32(d, 16) == 3 ==>
        l.masks == Masks(U32(d, 40), U32(d, 44), U32(d, 48), if U32(d, 0) >= 56 then U32(d, 52) else 0))
  {
    if |d| >= 40 && Signed(U32(d, 4)) > 0 && HeightOf(d) != 0 {
      var width, height := Signed(U32(d, 4)), Magnitude(HeightOf(d));
      NoLarger(width, height);
      StrideCovers(width, 0);
      if U16(d, 14) == 24 || U16(d, 14) == 32 {
        NoLarger(Stride(width, U16(d, 14)), height);
      }
    }
  }

  // ---------- the decoder ----------

  datatype Result = Failed(fault: Fault) | Decoded(pix: array2<Pixel>)

  /** Row `y` of the image holds what is stored for it. */
  ghost predicate RowFilled(pix: array2<Pixel>, d: Bytes, l: Layout, y: nat)
    requires Fits(d, l) && pix.Length0 == l.height && pix.Length1 == l.width && y < l.height
    reads pix
  {
    forall x: nat {:trigger pix[y, x]} :: x < l.width ==> pix[y, x] == Stored(d, l, x, y)
  }

  /** The array is the image: pixel (x, y) is the source pixel of its row, opaque if there is no alpha. */
  ghost predicate Shows(pix: array2<Pixel>, d: Bytes, l: Layout)
    requires Fits(d, l)
    reads pix
  {
    && pix.Length0 == l.height && pix.Length1 == l.width
    && forall x: nat, y: nat {:trigger pix[y, x]} :: x < l.width && y < l.height ==> pix[y, x] == PixelOf(d, l, x, y)
  }

  method FillRow24(pix: array2<Pixel>, d: Bytes, l: Layout, y: nat)
    requires Fits(d, l) && l.bpp == 24 && pix.Length0 == l.height && pix.Length1 == l.width && y < l.height
    modifies pix
    ensures RowFilled(pix, d, l, y)
    ensures forall y': nat {:trigger RowFilled(pix, d, l, y')} ::
      y' < l.height && y' != y && old(RowFilled(pix, d, l, y')) ==> RowFilled(pix, d, l, y')
  {
    var row := l.offset + SourceRow(l, y) * l.stride;
    for x := 0 to l.width
      invariant forall x': nat {:trigger pix[y, x']} :: x' < x ==> pix[y, x'] == Stored(d, l, x', y)
      invariant forall y': nat, x': nat :: y' < l.height && x' < l.width && y' != y ==> pix[y', x'] == old(pix[y', x'])
    {
      PixelInside(d, l, x, y);
      var i := row + x * 3;
      pix[y, x] := Pixel(d[i + 2], d[i + 1], d[i], 255);
    }
  }

  method Fill24BitDIB(pix: array2<Pixel>, d: Bytes, l: Layout)
    requires Fits(d, l) && l.bpp == 24 && pix.Length0 == l.height && pix.Length1 == l.width
    modifies pix
    ensures Shows(pix, d, l)
  {
    for y := 0 to l.height
      invariant forall y': nat :: y' < y ==> RowFilled(pix, d, l, y')
    {
      FillRow24(pix, d, l, y);
    }
    RowsAreStored(pix, d, l);
  }

  lemma RowsAreStored(pix: array2<Pixel>, d: Bytes, l: Layout)
    requires Fits(d, l) && pix.Length0 == l.height && pix.Length1 == l.width
    requires forall y: nat :: y < l.height ==> RowFilled(pix, d, l, y)
    ensures forall x: nat, y: nat {:trigger pix[y, x]} :: x < l.width && y < l.height ==> pix[y, x] == Stored(d, l, x, y)
  {
    forall x: nat, y: nat | x < l.width && y < l.height ensures pix[y, x] == Stored(d, l, x, y) {
      assert RowFilled(pix, d, l, y);
    }
  }

  method FillRow32(pix: array2<Pixel>, d: Bytes, l: Layout, y: nat) returns (any: bool)
    requires Fits(d, l) && l.bpp == 32 && pix.Length0 == l.height && pix.Length1 == l.width && y < l.height
    modifies pix
    ensures RowFilled(pix, d, l, y)
    ensures forall y': nat {:trigger RowFilled(pix, d, l, y')} ::
      y' < l.height && y' != y && old(RowFilled(pix, d, l, y')) ==> RowFilled(pix, d, l, y')
    ensures any <==> l.masks.a != 0 && exists x: nat :: x < l.width && Stored(d, l, x, y).a != 0
  {
    any := false;
    var row := l.offset + SourceRow(l, y) * l.stride;
    for x := 0 to l.width
      invariant forall x': nat {:trigger pix[y, x']} :: x' < x ==> pix[y, x'] == Stored(d, l, x', y)
      invariant forall y': nat, x': nat :: y' < l.height && x' < l.width && y' != y ==> pix[y', x'] == old(pix[y', x'])
      invariant any <==> l.masks.a != 0 && exists x': nat :: x' < x && Stored(d, l, x', y).a != 0
    {
      PixelInside(d, l, x, y);
      var v := U32(d, row + x * 4);
      var a: Byte := 255;
      if l.masks.a != 0 {
        a := ScaleMask(v, l.masks.a);
        if a != 0 {
          any := true;
        }
      }
      pix[y, x] := Pixel(ScaleMask(v, l.masks.r), ScaleMask(v, l.masks.g), ScaleMask(v, l.masks.b), a);
      assert pix[y, x] == Stored(d, l, x, y);
    }
  }

  method FillRows32(pix: array2<Pixel>, d: Bytes, l: Layout) returns (anyAlpha: bool)
    requires Fits(d, l) && l.bpp == 32 && pix.Length0 == l.height && pix.Length1 == l.width
    modifies pix
    ensures forall x: nat, y: nat :: x < l.width && y < l.height ==> pix[y, x] == Stored(d, l, x, y)
    ensures l.masks.a != 0 ==> (anyAlpha <==> AnyAlpha(d, l))
  {
    anyAlpha := false;
    for y := 0 to l.height
      invariant forall y': nat :: y' < y ==> RowFilled(pix, d, l, y')
      invariant anyAlpha ==> AnyAlpha(d, l)
      invariant !anyAlpha && l.masks.a != 0 ==> forall x': nat, y': nat :: x' < l.width && y' < y ==> Stored(d, l, x', y').a == 0
    {
      var any := FillRow32(pix, d, l, y);
      anyAlpha := anyAlpha || any;
    }
    RowsAreStored(pix, d, l);
  }

  method Fill32BitDIB(pix: array2<Pixel>, d: Bytes, l: Layout)
    requires Fits(d, l) && l.bpp == 32 && pix.Length0 == l.height && pix.Length1 == l.width
    modifies pix
    ensures Shows(pix, d, l)
  {
    var anyAlpha := FillRows32(pix, d, l);
    if l.masks.a != 0 && !anyAlpha {
      MakeOpaque(pix);
    }
  }

  method MakeOpaque(pix: array2<Pixel>)
    modifies pix
    ensures forall x: nat, y: nat :: x < pix.Length1 && y < pix.Length0 ==> pix[y, x] == old(pix[y, x]).(a := 255)
  {
    for y := 0 to pix.Length0
      invariant forall x': nat, y': nat :: x' < pix.Length1 && y' < pix.Length0 ==>
        pix[y', x'] == if y' < y then old(pix[y', x']).(a := 255) else old(pix[y', x'])
    {
      for x := 0 to pix.Length1
        invariant forall x': nat, y': nat :: x' < pix.Length1 && y' < pix.Length0 ==>
          pix[y', x'] == if y' < y || (y' == y && x' < x) then old(pix[y', x']).(a := 255) else old(pix[y', x'])
      {
        pix[y, x] := pix[y, x].(a := 255);
      }
    }
  }

  method ImageFromDIB(d: Bytes) returns (r: Result)
    ensures r.Failed? <==> Parse(d).Bad?
    ensures r.Failed? ==> r.fault == Parse(d).fault
    ensures r.Decoded? ==> fresh(r.pix) && Fits(d, Parse(d).layout) && Shows(r.pix, d, Parse(d).layout)
  {
    var parsed := Parse(d);
    if parsed.Bad? {
      return Failed(parsed.fault);
    }
    ParsedFits(d);
    var l := parsed.layout;
    var pix := new Pixel[l.height, l.width]((_, _) => Pixel(0, 0, 0, 0));
    if l.bpp == 24 {
      Fill24BitDIB(pix, d, l);
    } else {
      Fill32BitDIB(pix, d, l);
    }
    return Decoded(pix);
  }
}
