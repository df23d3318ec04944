/** The packed RGB converters: BGR24 to RGB24 (channel swap), straight
    row copies for 24- and 16-bit RGB, and the endian-fixing copies for
    32-bit XRGB and little-endian 16-bit RGB. Only plane 0 of the frame is read. */
module Rgb {
  import opened Raster

  /** The source column whose byte lands in output column c when every
      3-byte pixel has its channel order reversed. */
  function Swap3(c: nat): nat
  {
    3 * (c / 3) + 2 - c % 3
  }

  /** The source column for output column c when every 4-byte pixel has its
      byte order reversed (a 32-bit byte swap). */
  function Swap4(c: nat): nat
  {
    4 * (c / 4) + 3 - c % 4
  }

  /** The source column for output column c when every 2-byte pixel has its
      two bytes exchanged (a 16-bit byte swap). */
  function Swap2(c: nat): nat
  {
    2 * (c / 2) + 1 - c % 2
  }

  /** Each swap keeps the byte inside its own pixel and undoes itself. */
  lemma Swap3Involution(c: nat)
    ensures Swap3(c) / 3 == c / 3 && Swap3(c) % 3 == 2 - c % 3
    ensures Swap3(Swap3(c)) == c
  {
    DivModUnique(Swap3(c), 3, c / 3, 2 - c % 3);
  }

  lemma Swap4Involution(c: nat)
    ensures Swap4(c) / 4 == c / 4 && Swap4(c) % 4 == 3 - c % 4
    ensures Swap4(Swap4(c)) == c
  {
    DivModUnique(Swap4(c), 4, c / 4, 3 - c % 4);
  }

  lemma Swap2Involution(c: nat)
    ensures Swap2(c) / 2 == c / 2 && Swap2(c) % 2 == 1 - c % 2
    ensures Swap2(Swap2(c)) == c
  {
    DivModUnique(Swap2(c), 2, c / 2, 1 - c % 2);
  }

  /** The source rows hold `ext` bytes each and the destination rows too. */
  predicate RowsPre(f: Frame, d: Dest, ext: nat, height: nat, n: nat)
  {
    Covers(f.p0, height, ext) && ext <= d.rb && Fits(d, height, ext, n)
  }

  // ---------------------------------------------------------------------
  // BGR24toRGB24

  function Bgr24Byte(f: Frame, r: nat, c: nat): bv8
  {
    Sample(f.p0, r, Swap3(c))
  }

  function Bgr24Bytes(f: Frame): (nat, nat) -> bv8
  {
    (r: nat, c: nat) => Bgr24Byte(f, r, c)
  }

  function Bgr24Image(f: Frame, d: Dest, width: nat, height: nat, orig: seq<bv8>): seq<bv8>
  {
    Paint(orig, d, height, 3 * width, Bgr24Bytes(f))
  }

  lemma Bgr24Pixel(f: Frame, r: nat, x: nat)
    ensures Bgr24Bytes(f)(r, 3 * x) == Sample(f.p0, r, 3 * x + 2)
    ensures Bgr24Bytes(f)(r, 3 * x + 1) == Sample(f.p0, r, 3 * x + 1)
    ensures Bgr24Bytes(f)(r, 3 * x + 2) == Sample(f.p0, r, 3 * x)
  {
    DivModUnique(3 * x + 1, 3, x, 1);
    DivModUnique(3 * x + 2, 3, x, 2);
  }

  /** Writing pixel x of output row y extends the row's progress by one pixel. */
  lemma Bgr24Step(s: seq<bv8>, s': seq<bv8>, orig: seq<bv8>, f: Frame, d: Dest, width: nat, y: nat, x: nat, p: nat)
    requires Progress(s, orig, d, 3 * width, Bgr24Bytes(f), y, 3 * x, 0)
    requires 3 * width <= d.rb && x < width
    requires p == At(d, y, 3 * x) && p + 3 <= |s|
    requires s' == s[p := Sample(f.p0, y, 3 * x + 2)][p + 1 := Sample(f.p0, y, 3 * x + 1)][p + 2 := Sample(f.p0, y, 3 * x)]
    ensures Progress(s', orig, d, 3 * width, Bgr24Bytes(f), y, 3 * x + 3, 0)
  {
    Bgr24Pixel(f, y, x);
    PaintGroup3(s, s', orig, d, 3 * width, Bgr24Bytes(f), y, 3 * x, p);
  }

  /** The inner loop of BGR24toRGB24 over row y. */
  method Bgr24Row(f: Frame, dst: array<bv8>, d: Dest, width: nat, height: nat, y: nat,
                  o: nat, src: nat, ghost orig: seq<bv8>)
    requires RowsPre(f, d, 3 * width, height, dst.Length) && y < height
    requires o == At(d, y, 0) && src == y * f.p0.stride
    requires Progress(dst[..], orig, d, 3 * width, Bgr24Bytes(f), y, 0, 0)
    modifies dst
    ensures Progress(dst[..], orig, d, 3 * width, Bgr24Bytes(f), y, 3 * width, 0)
  {
    for x := 0 to width
      invariant Progress(dst[..], orig, d, 3 * width, Bgr24Bytes(f), y, 3 * x, 0)
    {
      var x3 := x * 3;
      RowSlot(d, height, 3 * width, dst.Length, y, x3, 3, o);
      PlaneRead(f.p0, height, 3 * width, y, x3, src);
      PlaneRead(f.p0, height, 3 * width, y, x3 + 1, src);
      PlaneRead(f.p0, height, 3 * width, y, x3 + 2, src);
      ghost var s := dst[..];
      dst[o + x3] := f.p0.bytes[src + x3 + 2];
      dst[o + x3 + 1] := f.p0.bytes[src + x3 + 1];
      dst[o + x3 + 2] := f.p0.bytes[src + x3];
      Bgr24Step(s, dst[..], orig, f, d, width, y, x, o + x3);
    }
  }

  /** BGR24toRGB24: every 3-byte pixel of every row with its channels reversed. */
  method BGR24toRGB24(f: Frame, dst: array<bv8>, d: Dest, width: nat, height: nat)
    requires RowsPre(f, d, 3 * width, height, dst.Length)
    modifies dst
    ensures dst[..] == Bgr24Image(f, d, width, height, old(dst[..]))
  {
    var src, srcRB := 0, f.p0.stride;
    var o, rowBytes := d.off, d.rb;
    ghost var orig := dst[..];
    ProgressStart(orig, d, 3 * width, Bgr24Bytes(f));
    for y := 0 to height
      invariant o == At(d, y, 0) && src == y * srcRB
      invariant Progress(dst[..], orig, d, 3 * width, Bgr24Bytes(f), y, 0, 0)
    {
      Bgr24Row(f, dst, d, width, height, y, o, src, orig);
      ProgressAdvance(dst[..], orig, d, 3 * width, Bgr24Bytes(f), y, 0);
      AtNext(d, y, 0);
      MulStep(y, srcRB);
      o := o + rowBytes;
      src := src + srcRB;
    }
    ProgressFinish(dst[..], orig, d, height, 3 * width, Bgr24Bytes(f));
  }

  /** Pixel x of row r: dst[3x] = src[3x + 2], dst[3x + 1] = src[3x + 1], dst[3x + 2] = src[3x]. */
  lemma Bgr24Layout(f: Frame, d: Dest, width: nat, height: nat, orig: seq<bv8>, r: nat, x: nat)
    requires RowsPre(f, d, 3 * width, height, |orig|) && r < height && x < width
    ensures At(d, r, 3 * x + 2) < |orig|
    ensures Bgr24Image(f, d, width, height, orig)[At(d, r, 3 * x)] == Sample(f.p0, r, 3 * x + 2)
    ensures Bgr24Image(f, d, width, height, orig)[At(d, r, 3 * x + 1)] == Sample(f.p0, r, 3 * x + 1)
    ensures Bgr24Image(f, d, width, height, orig)[At(d, r, 3 * x + 2)] == Sample(f.p0, r, 3 * x)
  {
    Bgr24Pixel(f, r, x);
    PaintAt(orig, d, height, 3 * width, Bgr24Bytes(f), r, 3 * x);
    PaintAt(orig, d, height, 3 * width, Bgr24Bytes(f), r, 3 * x + 1);
    PaintAt(orig, d, height, 3 * width, Bgr24Bytes(f), r, 3 * x + 2);
  }

  /** Swapping twice restores the source: the channel swap applied to the
      swapped row gives back the source byte. */
  lemma Bgr24Twice(f: Frame, g: Frame, r: nat, c: nat)
    requires forall k: nat :: Sample(g.p0, r, k) == Bgr24Byte(f, r, k)
    ensures Bgr24Byte(g, r, c) == Sample(f.p0, r, c)
  {
    Swap3Involution(c);
    assert Bgr24Byte(g, r, c) == Bgr24Byte(f, r, Swap3(c));
  }

  // ---------------------------------------------------------------------
  // RGBtoRGB, RGB24toRGB24, RGB16toRGB16

  function CopyByte(f: Frame, r: nat, c: nat): bv8
  {
    Sample(f.p0, r, c)
  }

  function CopyBytes(f: Frame): (nat, nat) -> bv8
  {
    (r: nat, c: nat) => CopyByte(f, r, c)
  }

  /** The first `ext` bytes of every destination row are the first `ext`
      bytes of the same source row. */
  function CopyImage(f: Frame, d: Dest, ext: nat, height: nat, orig: seq<bv8>): seq<bv8>
  {
    Paint(orig, d, height, ext, CopyBytes(f))
  }

  /** RGBtoRGB: one memcpy of width * bytesPerPixel bytes per row; the source
      and destination strides may differ. */
  method RGBtoRGB(f: Frame, dst: array<bv8>, d: Dest, width: nat, height: nat, bytesPerPixel: nat)
    requires RowsPre(f, d, width * bytesPerPixel, height, dst.Length)
    modifies dst
    ensures dst[..] == CopyImage(f, d, width * bytesPerPixel, height, old(dst[..]))
  {
    var src, srcRB := 0, f.p0.stride;
    var o, rowBytes := d.off, d.rb;
    var n := width * bytesPerPixel;
    ghost var orig := dst[..];
    ProgressStart(orig, d, n, CopyBytes(f));
    for y := 0 to height
      invariant o == At(d, y, 0) && src == y * srcRB
      invariant Progress(dst[..], orig, d, n, CopyBytes(f), y, 0, 0)
    {
      if n > 0 {
        RowSlot(d, height, n, dst.Length, y, 0, n, o);
        PlaneRead(f.p0, height, n, y, n - 1, src);
      }
      ghost var s := dst[..];
      MemCopy(dst, o, f.p0.bytes, src, n);
      CopyRow(s, dst[..], orig, d, n, CopyBytes(f), y, o, f.p0, src);
      ProgressAdvance(dst[..], orig, d, n, CopyBytes(f), y, 0);
      AtNext(d, y, 0);
      MulStep(y, srcRB);
      o := o + rowBytes;
      src := src + srcRB;
    }
    ProgressFinish(dst[..], orig, d, height, n, CopyBytes(f));
  }

  method RGB24toRGB24(f: Frame, dst: array<bv8>, d: Dest, width: nat, height: nat)
    requires RowsPre(f, d, width * 3, height, dst.Length)
    modifies dst
    ensures dst[..] == CopyImage(f, d, width * 3, height, old(dst[..]))
  {
    RGBtoRGB(f, dst, d, width, height, 3);
  }

  method RGB16toRGB16(f: Frame, dst: array<bv8>, d: Dest, width: nat, height: nat)
    requires RowsPre(f, d, width * 2, height, dst.Length)
    modifies dst
    ensures dst[..] == CopyImage(f, d, width * 2, height, old(dst[..]))
  {
    RGBtoRGB(f, dst, d, width, height, 2);
  }

  /** Each copied row is the source row, whatever the two strides; bytes
      past width * bytesPerPixel and rows past height keep their values. */
  lemma CopyLayout(f: Frame, d: Dest, ext: nat, height: nat, orig: seq<bv8>, r: nat, c: nat)
    requires RowsPre(f, d, ext, height, |orig|) && r < height && c < ext
    ensures At(d, r, c) < |orig| && CopyImage(f, d, ext, height, orig)[At(d, r, c)] == Sample(f.p0, r, c)
  {
    PaintAt(orig, d, height, ext, CopyBytes(f), r, c);
  }

  // ---------------------------------------------------------------------
  // RGB32toRGB32

  /** Native-endian XRGB32 to big-endian XRGB32: a copy on a big-endian host,
      a byte swap of every 4-byte pixel on a little-endian host. */
  function Rgb32Byte(bigEndianHost: bool, f: Frame, r: nat, c: nat): bv8
  {
    if bigEndianHost then Sample(f.p0, r, c) else Sample(f.p0, r, Swap4(c))
  }

  function Rgb32Bytes(bigEndianHost: bool, f: Frame): (nat, nat) -> bv8
  {
    (r: nat, c: nat) => Rgb32Byte(bigEndianHost, f, r, c)
  }

  function Rgb32Image(bigEndianHost: bool, f: Frame, d: Dest, width: nat, height: nat, orig: seq<bv8>): seq<bv8>
  {
    Paint(orig, d, height, 4 * width, Rgb32Bytes(bigEndianHost, f))
  }

  lemma Rgb32Pixel(f: Frame, r: nat, x: nat)
    ensures Rgb32Bytes(false, f)(r, 4 * x) == Sample(f.p0, r, 4 * x + 3)
    ensures Rgb32Bytes(false, f)(r, 4 * x + 1) == Sample(f.p0, r, 4 * x + 2)
    ensures Rgb32Bytes(false, f)(r, 4 * x + 2) == Sample(f.p0, r, 4 * x + 1)
    ensures Rgb32Bytes(false, f)(r, 4 * x + 3) == Sample(f.p0, r, 4 * x)
  {
    DivModUnique(4 * x + 1, 4, x, 1);
    DivModUnique(4 * x + 2, 4, x, 2);
    DivModUnique(4 * x + 3, 4, x, 3);
  }

  /** Storing the swapped pixel x of row y extends the row's progress by one pixel. */
  lemma Rgb32Step(s: seq<bv8>, s': seq<bv8>, orig: seq<bv8>, f: Frame, d: Dest, width: nat, y: nat, x: nat, p: nat)
    requires Progress(s, orig, d, 4 * width, Rgb32Bytes(false, f), y, 4 * x, 0)
    requires 4 * width <= d.rb && x < width
    requires p == At(d, y, 4 * x) && p + 4 <= |s|
    requires s' == s[p := Sample(f.p0, y, 4 * x + 3)][p + 1 := Sample(f.p0, y, 4 * x + 2)]
                    [p + 2 := Sample(f.p0, y, 4 * x + 1)][p + 3 := Sample(f.p0, y, 4 * x)]
    ensures Progress(s', orig, d, 4 * width, Rgb32Bytes(false, f), y, 4 * x + 4, 0)
  {
    Rgb32Pixel(f, y, x);
    PaintGroup4(s, s', orig, d, 4 * width, Rgb32Bytes(false, f), y, 4 * x, p);
  }

  /** The little-endian inner loop of RGB32toRGB32 over row y: one
      EndianU32_NtoB store per pixel, written here as its four bytes. */
  method Rgb32SwapRow(f: Frame, dst: array<bv8>, d: Dest, width: nat, height: nat, y: nat,
                      o: nat, src: nat, ghost orig: seq<bv8>)
    requires RowsPre(f, d, 4 * width, height, dst.Length) && y < height
    requires o == At(d, y, 0) && src == y * f.p0.stride
    requires Progress(dst[..], orig, d, 4 * width, Rgb32Bytes(false, f), y, 0, 0)
    modifies dst
    ensures Progress(dst[..], orig, d, 4 * width, Rgb32Bytes(false, f), y, 4 * width, 0)
  {
    for x := 0 to width
      invariant Progress(dst[..], orig, d, 4 * width, Rgb32Bytes(false, f), y, 4 * x, 0)
    {
      var x4 := x * 4;
      RowSlot(d, height, 4 * width, dst.Length, y, x4, 4, o);
      PlaneRead(f.p0, height, 4 * width, y, x4, src);
      PlaneRead(f.p0, height, 4 * width, y, x4 + 3, src);
      PlaneRead(f.p0, height, 4 * width, y, x4 + 1, src);
      PlaneRead(f.p0, height, 4 * width, y, x4 + 2, src);
      ghost var s := dst[..];
      dst[o + x4] := f.p0.bytes[src + x4 + 3];
      dst[o + x4 + 1] := f.p0.bytes[src + x4 + 2];
      dst[o + x4 + 2] := f.p0.bytes[src + x4 + 1];
      dst[o + x4 + 3] := f.p0.bytes[src + x4];
      Rgb32Step(s, dst[..], orig, f, d, width, y, x, o + x4);
    }
  }

  /** RGB32toRGB32, with the host byte order as a parameter. */
  method RGB32toRGB32(f: Frame, dst: array<bv8>, d: Dest, width: nat, height: nat, bigEndianHost: bool)
    requires RowsPre(f, d, 4 * width, height, dst.Length)
    modifies dst
    ensures dst[..] == Rgb32Image(bigEndianHost, f, d, width, height, old(dst[..]))
  {
    var src, srcRB := 0, f.p0.stride;
    var o, rowBytes := d.off, d.rb;
    ghost var orig := dst[..];
    ghost var E := Rgb32Bytes(bigEndianHost, f);
    ProgressStart(orig, d, 4 * width, E);
    for y := 0 to height
      invariant o == At(d, y, 0) && src == y * srcRB
      invariant Progress(dst[..], orig, d, 4 * width, E, y, 0, 0)
    {
      if bigEndianHost {
        if width > 0 {
          RowSlot(d, height, 4 * width, dst.Length, y, 0, 4 * width, o);
          PlaneRead(f.p0, height, 4 * width, y, 4 * width - 1, src);
        }
        ghost var s := dst[..];
        MemCopy(dst, o, f.p0.bytes, src, width * 4);
        CopyRow(s, dst[..], orig, d, 4 * width, E, y, o, f.p0, src);
      } else {
        Rgb32SwapRow(f, dst, d, width, height, y, o, src, orig);
      }
      ProgressAdvance(dst[..], orig, d, 4 * width, E, y, 0);
      AtNext(d, y, 0);
      MulStep(y, srcRB);
      o := o + rowBytes;
      src := src + srcRB;
    }
    ProgressFinish(dst[..], orig, d, height, 4 * width, E);
  }

  /** On a little-endian host pixel x of row r is the source pixel with its
      four bytes reversed; on a big-endian host it is the source pixel. */
  lemma Rgb32Layout(bigEndianHost: bool, f: Frame, d: Dest, width: nat, height: nat, orig: seq<bv8>,
                    r: nat, x: nat, t: nat)
    requires RowsPre(f, d, 4 * width, height, |orig|) && r < height && x < width && t < 4
    ensures At(d, r, 4 * x + t) < |orig|
    ensures Rgb32Image(bigEndianHost, f, d, width, height, orig)[At(d, r, 4 * x + t)] ==
            Sample(f.p0, r, if bigEndianHost then 4 * x + t else 4 * x + 3 - t)
  {
    DivModUnique(4 * x + t, 4, x, t);
    PaintAt(orig, d, height, 4 * width, Rgb32Bytes(bigEndianHost, f), r, 4 * x + t);
  }

  // ---------------------------------------------------------------------
  // RGB16LEtoRGB16

  /** Little-endian 16-bit RGB to big-endian: EndianU16_LtoB exchanges the
      two bytes of every pixel whatever the host byte order. */
  function Rgb16LeByte(f: Frame, r: nat, c: nat): bv8
  {
    Sample(f.p0, r, Swap2(c))
  }

  function Rgb16LeBytes(f: Frame): (nat, nat) -> bv8
  {
    (r: nat, c: nat) => Rgb16LeByte(f, r, c)
  }

  function Rgb16LeImage(f: Frame, d: Dest, width: nat, height: nat, orig: seq<bv8>): seq<bv8>
  {
    Paint(orig, d, height, 2 * width, Rgb16LeBytes(f))
  }

  lemma Rgb16LePixel(f: Frame, r: nat, x: nat)
    ensures Rgb16LeBytes(f)(r, 2 * x) == Sample(f.p0, r, 2 * x + 1)
    ensures Rgb16LeBytes(f)(r, 2 * x + 1) == Sample(f.p0, r, 2 * x)
  {
    DivModUnique(2 * x + 1, 2, x, 1);
  }

  lemma Rgb16LeStep(s: seq<bv8>, s': seq<bv8>, orig: seq<bv8>, f: Frame, d: Dest, width: nat, y: nat, x: nat, p: nat)
    requires Progress(s, orig, d, 2 * width, Rgb16LeBytes(f), y, 2 * x, 0)
    requires 2 * width <= d.rb && x < width
    requires p == At(d, y, 2 * x) && p + 2 <= |s|
    requires s' == s[p := Sample(f.p0, y, 2 * x + 1)][p + 1 := Sample(f.p0, y, 2 * x)]
    ensures Progress(s', orig, d, 2 * width, Rgb16LeBytes(f), y, 2 * x + 2, 0)
  {
    Rgb16LePixel(f, y, x);
    PaintGroup2(s, s', orig, d, 2 * width, Rgb16LeBytes(f), y, 2 * x, p);
  }

  /** The inner loop of RGB16LEtoRGB16 over row y: one swapped 16-bit store
      per pixel, written here as its two bytes. */
  method Rgb16LeRow(f: Frame, dst: array<bv8>, d: Dest, width: nat, height: nat, y: nat,
                    o: nat, src: nat, ghost orig: seq<bv8>)
    requires RowsPre(f, d, 2 * width, height, dst.Length) && y < height
    requires o == At(d, y, 0) && src == y * f.p0.stride
    requires Progress(dst[..], orig, d, 2 * width, Rgb16LeBytes(f), y, 0, 0)
    modifies dst
    ensures Progress(dst[..], orig, d, 2 * width, Rgb16LeBytes(f), y, 2 * width, 0)
  {
    for x := 0 to width
      invariant Progress(dst[..], orig, d, 2 * width, Rgb16LeBytes(f), y, 2 * x, 0)
    {
      var x2 := x * 2;
      RowSlot(d, height, 2 * width, dst.Length, y, x2, 2, o);
      PlaneRead(f.p0, height, 2 * width, y, x2, src);
      PlaneRead(f.p0, height, 2 * width, y, x2 + 1, src);
      ghost var s := dst[..];
      dst[o + x2] := f.p0.bytes[src + x2 + 1];
      dst[o + x2 + 1] := f.p0.bytes[src + x2];
      Rgb16LeStep(s, dst[..], orig, f, d, width, y, x, o + x2);
    }
  }

  method RGB16LEtoRGB16(f: Frame, dst: array<bv8>, d: Dest, width: nat, height: nat)
    requires RowsPre(f, d, 2 * width, height, dst.Length)
    modifies dst
    ensures dst[..] == Rgb16LeImage(f, d, width, height, old(dst[..]))
  {
    var src, srcRB := 0, f.p0.stride;
    var o, rowBytes := d.off, d.rb;
    ghost var orig := dst[..];
    ProgressStart(orig, d, 2 * width, Rgb16LeBytes(f));
    for y := 0 to height
      invariant o == At(d, y, 0) && src == y * srcRB
      invariant Progress(dst[..], orig, d, 2 * width, Rgb16LeBytes(f), y, 0, 0)
    {
      Rgb16LeRow(f, dst, d, width, height, y, o, src, orig);
      ProgressAdvance(dst[..], orig, d, 2 * width, Rgb16LeBytes(f), y, 0);
      AtNext(d, y, 0);
      MulStep(y, srcRB);
      o := o + rowBytes;
      src := src + srcRB;
    }
    ProgressFinish(dst[..], orig, d, height, 2 * width, Rgb16LeBytes(f));
  }

  /** Pixel x of row r is the source pixel with its two bytes exchanged. */
  lemma Rgb16LeLayout(f: Frame, d: Dest, width: nat, height: nat, orig: seq<bv8>, r: nat, x: nat)
    requires RowsPre(f, d, 2 * width, height, |orig|) && r < height && x < width
    ensures At(d, r, 2 * x + 1) < |orig|
    ensures Rgb16LeImage(f, d, width, height, orig)[At(d, r, 2 * x)] == Sample(f.p0, r, 2 * x + 1)
    ensures Rgb16LeImage(f, d, width, height, orig)[At(d, r, 2 * x + 1)] == Sample(f.p0, r, 2 * x)
  {
    Rgb16LePixel(f, r, x);
    PaintAt(orig, d, height, 2 * width, Rgb16LeBytes(f), r, 2 * x);
    PaintAt(orig, d, height, 2 * width, Rgb16LeBytes(f), r, 2 * x + 1);
  }
}
