/** The other planar YUV converters: 4:2:2 and 4:1:0 to packed 2vuy, and
    4:2:0 with an alpha plane to packed v408 (U Y V A per pixel). Each
    writes the destination row by row; chroma rows advance every row (4:2:2),
    every fourth row (4:1:0) or every second row (4:2:0 + alpha). */
module YuvPlanar {
  import opened Raster
  import opened Simd
  import opened Yuv420

  // ---------------------------------------------------------------------
  // Y422toY422

  /** Output row r of a 4:2:2 frame: luma row r and chroma row r. */
  function Y422Byte(f: Frame, r: nat, c: nat): bv8
  {
    PairByte(f, r * f.p0.stride, r * f.p1.stride, r * f.p2.stride, c)
  }

  function Y422Bytes(f: Frame): (nat, nat) -> bv8
  {
    (r: nat, c: nat) => Y422Byte(f, r, c)
  }

  function Y422Image(f: Frame, d: Dest, width: nat, height: nat, orig: seq<bv8>): seq<bv8>
  {
    Paint(orig, d, height, Extent2vuy(width), Y422Bytes(f))
  }

  /** Full-height chroma planes of width / 2 columns. */
  predicate Y422Pre(f: Frame, d: Dest, width: nat, height: nat, n: nat)
  {
    Covers(f.p0, height, 2 * (width / 2)) &&
    Covers(f.p1, height, width / 2) && Covers(f.p2, height, width / 2) &&
    Extent2vuy(width) <= d.rb && Fits(d, height, Extent2vuy(width), n)
  }

  /** Group x of output row r: chroma column x of chroma row r, luma
      columns 2x and 2x + 1 of luma row r. */
  lemma Y422Group(f: Frame, r: nat, x: nat)
    ensures Y422Bytes(f)(r, 4 * x) == Sample(f.p1, r, x)
    ensures Y422Bytes(f)(r, 4 * x + 1) == Sample(f.p0, r, 2 * x)
    ensures Y422Bytes(f)(r, 4 * x + 2) == Sample(f.p2, r, x)
    ensures Y422Bytes(f)(r, 4 * x + 3) == Sample(f.p0, r, 2 * x + 1)
  {
    assert (4 * x + 1) / 4 == x && (4 * x + 2) / 4 == x && (4 * x + 3) / 4 == x;
  }

  /** Writing group x of output row y, byte by byte, extends the row's progress by one group. */
  lemma Y422Step(s: seq<bv8>, s': seq<bv8>, orig: seq<bv8>, f: Frame, d: Dest, width: nat, y: nat, x: nat, p: nat)
    requires Progress(s, orig, d, Extent2vuy(width), Y422Bytes(f), y, 4 * x, 0)
    requires Extent2vuy(width) <= d.rb && x < width / 2
    requires p == At(d, y, 4 * x) && p + 4 <= |s|
    requires s' == s[p := Sample(f.p1, y, x)][p + 1 := Sample(f.p0, y, 2 * x)][p + 2 := Sample(f.p2, y, x)][p + 3 := Sample(f.p0, y, 2 * x + 1)]
    ensures Progress(s', orig, d, Extent2vuy(width), Y422Bytes(f), y, 4 * x + 4, 0)
  {
    Y422Group(f, y, x);
    PaintGroup4(s, s', orig, d, Extent2vuy(width), Y422Bytes(f), y, 4 * x, p);
  }

  /** The inner loop of Y422toY422 over output row y. */
  method Y422Row(f: Frame, dst: array<bv8>, d: Dest, width: nat, height: nat, y: nat,
                 o: nat, yc: nat, u: nat, v: nat, ghost orig: seq<bv8>)
    requires Y422Pre(f, d, width, height, dst.Length) && y < height
    requires o == At(d, y, 0) && yc == y * f.p0.stride && u == y * f.p1.stride && v == y * f.p2.stride
    requires Progress(dst[..], orig, d, Extent2vuy(width), Y422Bytes(f), y, 0, 0)
    modifies dst
    ensures Progress(dst[..], orig, d, Extent2vuy(width), Y422Bytes(f), y, Extent2vuy(width), 0)
  {
    for x := 0 to width / 2
      invariant Progress(dst[..], orig, d, Extent2vuy(width), Y422Bytes(f), y, 4 * x, 0)
    {
      var x2, x4 := x * 2, x * 4;
      RowSlot(d, height, Extent2vuy(width), dst.Length, y, x4, 4, o);
      PlaneRead(f.p1, height, width / 2, y, x, u);
      PlaneRead(f.p2, height, width / 2, y, x, v);
      PlaneRead(f.p0, height, 2 * (width / 2), y, x2, yc);
      PlaneRead(f.p0, height, 2 * (width / 2), y, x2 + 1, yc);
      ghost var s := dst[..];
      dst[o + x4] := f.p1.bytes[u + x];
      dst[o + x4 + 1] := f.p0.bytes[yc + x2];
      dst[o + x4 + 2] := f.p2.bytes[v + x];
      dst[o + x4 + 3] := f.p0.bytes[yc + x2 + 1];
      Y422Step(s, dst[..], orig, f, d, width, y, x, o + x4);
    }
  }

  /** Y422toY422: output row y from luma row y and chroma row y. */
  method Y422toY422(f: Frame, dst: array<bv8>, d: Dest, width: nat, height: nat)
    requires Y422Pre(f, d, width, height, dst.Length)
    modifies dst
    ensures dst[..] == Y422Image(f, d, width, height, old(dst[..]))
  {
    var yc, u, v := 0, 0, 0;
    var rY, rU, rV := f.p0.stride, f.p1.stride, f.p2.stride;
    var o, outRB := d.off, d.rb;
    ghost var orig := dst[..];
    ghost var ext := Extent2vuy(width);
    ProgressStart(orig, d, ext, Y422Bytes(f));
    for y := 0 to height
      invariant o == At(d, y, 0) && yc == y * rY && u == y * rU && v == y * rV
      invariant Progress(dst[..], orig, d, ext, Y422Bytes(f), y, 0, 0)
    {
      Y422Row(f, dst, d, width, height, y, o, yc, u, v, orig);
      ProgressAdvance(dst[..], orig, d, ext, Y422Bytes(f), y, 0);
      AtNext(d, y, 0);
      MulStep(y, rY);
      MulStep(y, rU);
      MulStep(y, rV);
      o := o + outRB;
      yc := yc + rY;
      u := u + rU;
      v := v + rV;
    }
    ProgressFinish(dst[..], orig, d, height, ext, Y422Bytes(f));
  }

  /** Every row of the 4:2:2 image carries the chroma of its own row. */
  lemma Y422Layout(f: Frame, d: Dest, width: nat, height: nat, orig: seq<bv8>, r: nat, x: nat)
    requires Y422Pre(f, d, width, height, |orig|) && r < height && x < width / 2
    ensures At(d, r, 4 * x + 3) < |orig|
    ensures Y422Image(f, d, width, height, orig)[At(d, r, 4 * x)] == Sample(f.p1, r, x)
    ensures Y422Image(f, d, width, height, orig)[At(d, r, 4 * x + 1)] == Sample(f.p0, r, 2 * x)
    ensures Y422Image(f, d, width, height, orig)[At(d, r, 4 * x + 2)] == Sample(f.p2, r, x)
    ensures Y422Image(f, d, width, height, orig)[At(d, r, 4 * x + 3)] == Sample(f.p0, r, 2 * x + 1)
  {
    var ext := Extent2vuy(width);
    Y422Group(f, r, x);
    PaintGroupAt(orig, d, height, ext, Y422Bytes(f), r, 4 * x);
  }

  // ---------------------------------------------------------------------
  // Y410toY422

  /** Output row r of a 4:1:0 frame: luma row r, chroma row r / 4; group x
      takes chroma column x / 2. */
  function Y410Byte(f: Frame, r: nat, c: nat): bv8
  {
    var x := c / 4;
    TwoVuy(Sample(f.p1, r / 4, x / 2), Sample(f.p0, r, 2 * x), Sample(f.p2, r / 4, x / 2), Sample(f.p0, r, 2 * x + 1), c % 4)
  }

  function Y410Bytes(f: Frame): (nat, nat) -> bv8
  {
    (r: nat, c: nat) => Y410Byte(f, r, c)
  }

  function Y410Image(f: Frame, d: Dest, width: nat, height: nat, orig: seq<bv8>): seq<bv8>
  {
    Paint(orig, d, height, Extent2vuy(width), Y410Bytes(f))
  }

  /** Chroma planes of (height + 3) / 4 rows and (width / 2 + 1) / 2 columns. */
  predicate Y410Pre(f: Frame, d: Dest, width: nat, height: nat, n: nat)
  {
    Covers(f.p0, height, 2 * (width / 2)) &&
    Covers(f.p1, (height + 3) / 4, (width / 2 + 1) / 2) && Covers(f.p2, (height + 3) / 4, (width / 2 + 1) / 2) &&
    Extent2vuy(width) <= d.rb && Fits(d, height, Extent2vuy(width), n)
  }

  lemma Y410Group(f: Frame, r: nat, x: nat)
    ensures Y410Bytes(f)(r, 4 * x) == Sample(f.p1, r / 4, x / 2)
    ensures Y410Bytes(f)(r, 4 * x + 1) == Sample(f.p0, r, 2 * x)
    ensures Y410Bytes(f)(r, 4 * x + 2) == Sample(f.p2, r / 4, x / 2)
    ensures Y410Bytes(f)(r, 4 * x + 3) == Sample(f.p0, r, 2 * x + 1)
  {
    assert (4 * x + 1) / 4 == x && (4 * x + 2) / 4 == x && (4 * x + 3) / 4 == x;
  }

  /** The chroma offset of row y + 1: one chroma row further after every
      fourth luma row. */
  lemma QuarterStep(y: nat, k: nat)
    ensures ((y + 1) / 4) * k == (y / 4) * k + (if y % 4 == 3 then k else 0)
  {
    if y % 4 == 3 {
      assert (y + 1) / 4 == y / 4 + 1;
    } else {
      assert (y + 1) / 4 == y / 4;
    }
  }

  /** Writing group x of output row y, byte by byte, extends the row's progress by one group. */
  lemma Y410Step(s: seq<bv8>, s': seq<bv8>, orig: seq<bv8>, f: Frame, d: Dest, width: nat, y: nat, x: nat, p: nat)
    requires Progress(s, orig, d, Extent2vuy(width), Y410Bytes(f), y, 4 * x, 0)
    requires Extent2vuy(width) <= d.rb && x < width / 2
    requires p == At(d, y, 4 * x) && p + 4 <= |s|
    requires s' == s[p := Sample(f.p1, y / 4, x / 2)][p + 1 := Sample(f.p0, y, 2 * x)][p + 2 := Sample(f.p2, y / 4, x / 2)][p + 3 := Sample(f.p0, y, 2 * x + 1)]
    ensures Progress(s', orig, d, Extent2vuy(width), Y410Bytes(f), y, 4 * x + 4, 0)
  {
    Y410Group(f, y, x);
    PaintGroup4(s, s', orig, d, Extent2vuy(width), Y410Bytes(f), y, 4 * x, p);
  }

  /** The inner loop of Y410toY422 over output row y. */
  method Y410Row(f: Frame, dst: array<bv8>, d: Dest, width: nat, height: nat, y: nat,
                 o: nat, yc: nat, u: nat, v: nat, ghost orig: seq<bv8>)
    requires Y410Pre(f, d, width, height, dst.Length) && y < height
    requires o == At(d, y, 0) && yc == y * f.p0.stride && u == (y / 4) * f.p1.stride && v == (y / 4) * f.p2.stride
    requires Progress(dst[..], orig, d, Extent2vuy(width), Y410Bytes(f), y, 0, 0)
    modifies dst
    ensures Progress(dst[..], orig, d, Extent2vuy(width), Y410Bytes(f), y, Extent2vuy(width), 0)
  {
    for x := 0 to width / 2
      invariant Progress(dst[..], orig, d, Extent2vuy(width), Y410Bytes(f), y, 4 * x, 0)
    {
      var x2, x4 := x * 2, x * 4;
      RowSlot(d, height, Extent2vuy(width), dst.Length, y, x4, 4, o);
      PlaneRead(f.p1, (height + 3) / 4, (width / 2 + 1) / 2, y / 4, x / 2, u);
      PlaneRead(f.p2, (height + 3) / 4, (width / 2 + 1) / 2, y / 4, x / 2, v);
      PlaneRead(f.p0, height, 2 * (width / 2), y, x2, yc);
      PlaneRead(f.p0, height, 2 * (width / 2), y, x2 + 1, yc);
      ghost var s := dst[..];
      dst[o + x4] := f.p1.bytes[u + x / 2];
      dst[o + x4 + 1] := f.p0.bytes[yc + x2];
      dst[o + x4 + 2] := f.p2.bytes[v + x / 2];
      dst[o + x4 + 3] := f.p0.bytes[yc + x2 + 1];
      Y410Step(s, dst[..], orig, f, d, width, y, x, o + x4);
    }
  }

  /** Y410toY422: the chroma rows advance after every fourth output row. */
  method Y410toY422(f: Frame, dst: array<bv8>, d: Dest, width: nat, height: nat)
    requires Y410Pre(f, d, width, height, dst.Length)
    modifies dst
    ensures dst[..] == Y410Image(f, d, width, height, old(dst[..]))
  {
    var yc, u, v := 0, 0, 0;
    var rY, rU, rV := f.p0.stride, f.p1.stride, f.p2.stride;
    var o, outRB := d.off, d.rb;
    ghost var orig := dst[..];
    ghost var ext := Extent2vuy(width);
    ProgressStart(orig, d, ext, Y410Bytes(f));
    for y := 0 to height
      invariant o == At(d, y, 0) && yc == y * rY && u == (y / 4) * rU && v == (y / 4) * rV
      invariant Progress(dst[..], orig, d, ext, Y410Bytes(f), y, 0, 0)
    {
      Y410Row(f, dst, d, width, height, y, o, yc, u, v, orig);
      ProgressAdvance(dst[..], orig, d, ext, Y410Bytes(f), y, 0);
      AtNext(d, y, 0);
      MulStep(y, rY);
      QuarterStep(y, rU);
      QuarterStep(y, rV);
      o := o + outRB;
      yc := yc + rY;
      if y % 4 == 3 {
        u := u + rU;
        v := v + rV;
      }
    }
    ProgressFinish(dst[..], orig, d, height, ext, Y410Bytes(f));
  }

  /** Group x of row r of the 4:1:0 image carries chroma row r / 4, column x / 2. */
  lemma Y410Layout(f: Frame, d: Dest, width: nat, height: nat, orig: seq<bv8>, r: nat, x: nat)
    requires Y410Pre(f, d, width, height, |orig|) && r < height && x < width / 2
    ensures At(d, r, 4 * x + 3) < |orig|
    ensures Y410Image(f, d, width, height, orig)[At(d, r, 4 * x)] == Sample(f.p1, r / 4, x / 2)
    ensures Y410Image(f, d, width, height, orig)[At(d, r, 4 * x + 1)] == Sample(f.p0, r, 2 * x)
    ensures Y410Image(f, d, width, height, orig)[At(d, r, 4 * x + 2)] == Sample(f.p2, r / 4, x / 2)
    ensures Y410Image(f, d, width, height, orig)[At(d, r, 4 * x + 3)] == Sample(f.p0, r, 2 * x + 1)
  {
    var ext := Extent2vuy(width);
    Y410Group(f, r, x);
    PaintGroupAt(orig, d, height, ext, Y410Bytes(f), r, 4 * x);
  }

  /** 4:1:0 chroma is shared by a 4 x 4 block of luma samples: the two groups
      2m, 2m + 1 of rows 4q .. 4q + 3 all carry the same Cb and Cr. */
  lemma Y410ChromaBlock(f: Frame, r1: nat, r2: nat, x1: nat, x2: nat)
    requires r1 / 4 == r2 / 4 && x1 / 2 == x2 / 2
    ensures Y410Byte(f, r1, 4 * x1) == Y410Byte(f, r2, 4 * x2)
    ensures Y410Byte(f, r1, 4 * x1 + 2) == Y410Byte(f, r2, 4 * x2 + 2)
  {
    Y410Group(f, r1, x1);
    Y410Group(f, r2, x2);
  }

  // ---------------------------------------------------------------------
  // YA420toV408

  /** Output row r, pixel x of a 4:2:0 + alpha frame: U and V of chroma row
      r / 2, column x / 2, and luma and alpha of row r, column x. */
  function V408Byte(f: Frame, r: nat, c: nat): bv8
  {
    var x := c / 4;
    TwoVuy(Sample(f.p1, r / 2, x / 2), Sample(f.p0, r, x), Sample(f.p2, r / 2, x / 2), Sample(f.p3, r, x), c % 4)
  }

  function V408Bytes(f: Frame): (nat, nat) -> bv8
  {
    (r: nat, c: nat) => V408Byte(f, r, c)
  }

  /** A v408 row holds four bytes per pixel. */
  function ExtentV408(width: nat): nat
  {
    4 * width
  }

  function V408Image(f: Frame, d: Dest, width: nat, height: nat, orig: seq<bv8>): seq<bv8>
  {
    Paint(orig, d, height, ExtentV408(width), V408Bytes(f))
  }

  /** Luma and alpha of width columns, chroma of (height + 1) / 2 rows and
      (width + 1) / 2 columns. */
  predicate V408Pre(f: Frame, d: Dest, width: nat, height: nat, n: nat)
  {
    Covers(f.p0, height, width) && Covers(f.p3, height, width) &&
    Covers(f.p1, (height + 1) / 2, (width + 1) / 2) && Covers(f.p2, (height + 1) / 2, (width + 1) / 2) &&
    ExtentV408(width) <= d.rb && Fits(d, height, ExtentV408(width), n)
  }

  lemma V408Pixel(f: Frame, r: nat, x: nat)
    ensures V408Bytes(f)(r, 4 * x) == Sample(f.p1, r / 2, x / 2)
    ensures V408Bytes(f)(r, 4 * x + 1) == Sample(f.p0, r, x)
    ensures V408Bytes(f)(r, 4 * x + 2) == Sample(f.p2, r / 2, x / 2)
    ensures V408Bytes(f)(r, 4 * x + 3) == Sample(f.p3, r, x)
  {
    assert (4 * x + 1) / 4 == x && (4 * x + 2) / 4 == x && (4 * x + 3) / 4 == x;
  }

  /** The chroma offset of row y + 1: one chroma row further after every odd row. */
  lemma HalfStep(y: nat, k: nat)
    ensures ((y + 1) / 2) * k == (y / 2) * k + (if y % 2 == 1 then k else 0)
  {
    if y % 2 == 1 {
      assert (y + 1) / 2 == y / 2 + 1;
    } else {
      assert (y + 1) / 2 == y / 2;
    }
  }

  /** Writing group x of output row y, byte by byte, extends the row's progress by one group. */
  lemma V408Step(s: seq<bv8>, s': seq<bv8>, orig: seq<bv8>, f: Frame, d: Dest, width: nat, y: nat, x: nat, p: nat)
    requires Progress(s, orig, d, ExtentV408(width), V408Bytes(f), y, 4 * x, 0)
    requires ExtentV408(width) <= d.rb && x < width
    requires p == At(d, y, 4 * x) && p + 4 <= |s|
    requires s' == s[p := Sample(f.p1, y / 2, x / 2)][p + 1 := Sample(f.p0, y, x)][p + 2 := Sample(f.p2, y / 2, x / 2)][p + 3 := Sample(f.p3, y, x)]
    ensures Progress(s', orig, d, ExtentV408(width), V408Bytes(f), y, 4 * x + 4, 0)
  {
    V408Pixel(f, y, x);
    PaintGroup4(s, s', orig, d, ExtentV408(width), V408Bytes(f), y, 4 * x, p);
  }

  /** The inner loop of YA420toV408 over output row y. */
  method V408Row(f: Frame, dst: array<bv8>, d: Dest, width: nat, height: nat, y: nat,
                 o: nat, yc: nat, u: nat, v: nat, a: nat, ghost orig: seq<bv8>)
    requires V408Pre(f, d, width, height, dst.Length) && y < height
    requires o == At(d, y, 0) && yc == y * f.p0.stride && a == y * f.p3.stride
    requires u == (y / 2) * f.p1.stride && v == (y / 2) * f.p2.stride
    requires Progress(dst[..], orig, d, ExtentV408(width), V408Bytes(f), y, 0, 0)
    modifies dst
    ensures Progress(dst[..], orig, d, ExtentV408(width), V408Bytes(f), y, ExtentV408(width), 0)
  {
    for x := 0 to width
      invariant Progress(dst[..], orig, d, ExtentV408(width), V408Bytes(f), y, 4 * x, 0)
    {
      RowSlot(d, height, ExtentV408(width), dst.Length, y, x * 4, 4, o);
      PlaneRead(f.p1, (height + 1) / 2, (width + 1) / 2, y / 2, x / 2, u);
      PlaneRead(f.p2, (height + 1) / 2, (width + 1) / 2, y / 2, x / 2, v);
      PlaneRead(f.p0, height, width, y, x, yc);
      PlaneRead(f.p3, height, width, y, x, a);
      ghost var s := dst[..];
      dst[o + x * 4] := f.p1.bytes[u + x / 2];
      dst[o + x * 4 + 1] := f.p0.bytes[yc + x];
      dst[o + x * 4 + 2] := f.p2.bytes[v + x / 2];
      dst[o + x * 4 + 3] := f.p3.bytes[a + x];
      V408Step(s, dst[..], orig, f, d, width, y, x, o + x * 4);
    }
  }

  /** YA420toV408: luma and alpha rows advance every row, chroma rows after
      every odd row. */
  method YA420toV408(f: Frame, dst: array<bv8>, d: Dest, width: nat, height: nat)
    requires V408Pre(f, d, width, height, dst.Length)
    modifies dst
    ensures dst[..] == V408Image(f, d, width, height, old(dst[..]))
  {
    var yc, u, v, a := 0, 0, 0, 0;
    var rY, rU, rV, rA := f.p0.stride, f.p1.stride, f.p2.stride, f.p3.stride;
    var o, outRB := d.off, d.rb;
    ghost var orig := dst[..];
    ghost var ext := ExtentV408(width);
    ProgressStart(orig, d, ext, V408Bytes(f));
    for y := 0 to height
      invariant o == At(d, y, 0) && yc == y * rY && a == y * rA && u == (y / 2) * rU && v == (y / 2) * rV
      invariant Progress(dst[..], orig, d, ext, V408Bytes(f), y, 0, 0)
    {
      V408Row(f, dst, d, width, height, y, o, yc, u, v, a, orig);
      ProgressAdvance(dst[..], orig, d, ext, V408Bytes(f), y, 0);
      AtNext(d, y, 0);
      MulStep(y, rY);
      MulStep(y, rA);
      HalfStep(y, rU);
      HalfStep(y, rV);
      o := o + outRB;
      yc := yc + rY;
      a := a + rA;
      if y % 2 == 1 {
        u := u + rU;
        v := v + rV;
      }
    }
    ProgressFinish(dst[..], orig, d, height, ext, V408Bytes(f));
  }

  /** Pixel x of row r of the v408 image is (U, Y, V, A) with chroma from
      row r / 2, column x / 2. */
  lemma V408Layout(f: Frame, d: Dest, width: nat, height: nat, orig: seq<bv8>, r: nat, x: nat)
    requires V408Pre(f, d, width, height, |orig|) && r < height && x < width
    ensures At(d, r, 4 * x + 3) < |orig|
    ensures V408Image(f, d, width, height, orig)[At(d, r, 4 * x)] == Sample(f.p1, r / 2, x / 2)
    ensures V408Image(f, d, width, height, orig)[At(d, r, 4 * x + 1)] == Sample(f.p0, r, x)
    ensures V408Image(f, d, width, height, orig)[At(d, r, 4 * x + 2)] == Sample(f.p2, r / 2, x / 2)
    ensures V408Image(f, d, width, height, orig)[At(d, r, 4 * x + 3)] == Sample(f.p3, r, x)
  {
    var ext := ExtentV408(width);
    V408Pixel(f, r, x);
    PaintGroupAt(orig, d, height, ext, V408Bytes(f), r, 4 * x);
  }

  /** v408 carries the same samples as the 2vuy output of the 4:2:0
      converter: pixels 2x and 2x + 1 of a v408 row share the U and V that
      group x of the 2vuy row carries, and their Y bytes are its two luma bytes. */
  lemma V408AgreesWithY420(f: Frame, r: nat, x: nat)
    ensures V408Byte(f, r, 8 * x) == Y420Byte(f, r, 4 * x) == V408Byte(f, r, 8 * x + 4)
    ensures V408Byte(f, r, 8 * x + 2) == Y420Byte(f, r, 4 * x + 2) == V408Byte(f, r, 8 * x + 6)
    ensures V408Byte(f, r, 8 * x + 1) == Y420Byte(f, r, 4 * x + 1)
    ensures V408Byte(f, r, 8 * x + 5) == Y420Byte(f, r, 4 * x + 3)
  {
    V408PixelAt(f, r, 2 * x, 8 * x);
    V408PixelAt(f, r, 2 * x + 1, 8 * x + 4);
    Y420GroupAt(f, r, x);
    assert (2 * x + 1) / 2 == x && (2 * x) / 2 == x;
  }

  /** V408Pixel on V408Byte: the four bytes of pixel x, which start at byte column c = 4x. */
  lemma V408PixelAt(f: Frame, r: nat, x: nat, c: nat)
    requires c == 4 * x
    ensures V408Byte(f, r, c) == Sample(f.p1, r / 2, x / 2) && V408Byte(f, r, c + 1) == Sample(f.p0, r, x)
    ensures V408Byte(f, r, c + 2) == Sample(f.p2, r / 2, x / 2) && V408Byte(f, r, c + 3) == Sample(f.p3, r, x)
  {
    V408Pixel(f, r, x);
  }

  /** Y420Group on Y420Byte. */
  lemma Y420GroupAt(f: Frame, r: nat, x: nat)
    ensures Y420Byte(f, r, 4 * x) == Sample(f.p1, r / 2, x) && Y420Byte(f, r, 4 * x + 1) == Sample(f.p0, r, 2 * x)
    ensures Y420Byte(f, r, 4 * x + 2) == Sample(f.p2, r / 2, x) && Y420Byte(f, r, 4 * x + 3) == Sample(f.p0, r, 2 * x + 1)
  {
    Y420Group(f, r, x);
  }
}
