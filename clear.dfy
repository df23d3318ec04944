/** The region clearers: each fills the first bytes of every destination
    row with the black pattern of its pixel format and leaves the rest of
    the buffer alone. */
module Clear {
  import opened Raster
  import opened Yuv420
  import opened YuvPlanar

  // ---------------------------------------------------------------------
  // ClearRGB, ClearRGB32, ClearRGB24, ClearRGB16

  function ZeroBytes(): (nat, nat) -> bv8
  {
    (r: nat, c: nat) => 0
  }

  /** The first `ext` bytes of each of `height` rows set to zero. */
  function ClearRgbImage(d: Dest, ext: nat, height: nat, orig: seq<bv8>): seq<bv8>
  {
    Paint(orig, d, height, ext, ZeroBytes())
  }

  /** The destination holds `height` rows of `ext` bytes. */
  predicate ClearPre(d: Dest, ext: nat, height: nat, n: nat)
  {
    ext <= d.rb && Fits(d, height, ext, n)
  }

  /** ClearRGB: one memset of width * bytesPerPixel zero bytes per row. */
  method ClearRGB(dst: array<bv8>, d: Dest, width: nat, height: nat, bytesPerPixel: nat)
    requires ClearPre(d, width * bytesPerPixel, height, dst.Length)
    modifies dst
    ensures dst[..] == ClearRgbImage(d, width * bytesPerPixel, height, old(dst[..]))
  {
    var o, rowBytes := d.off, d.rb;
    var n := width * bytesPerPixel;
    ghost var orig := dst[..];
    ProgressStart(orig, d, n, ZeroBytes());
    for y := 0 to height
      invariant o == At(d, y, 0)
      invariant Progress(dst[..], orig, d, n, ZeroBytes(), y, 0, 0)
    {
      if n > 0 {
        RowSlot(d, height, n, dst.Length, y, 0, n, o);
      }
      ghost var s := dst[..];
      MemSet(dst, o, 0, n);
      FillRow(s, dst[..], orig, d, n, ZeroBytes(), y, o, 0);
      ProgressAdvance(dst[..], orig, d, n, ZeroBytes(), y, 0);
      AtNext(d, y, 0);
      o := o + rowBytes;
    }
    ProgressFinish(dst[..], orig, d, height, n, ZeroBytes());
  }

  method ClearRGB32(dst: array<bv8>, d: Dest, width: nat, height: nat)
    requires ClearPre(d, width * 4, height, dst.Length)
    modifies dst
    ensures dst[..] == ClearRgbImage(d, width * 4, height, old(dst[..]))
  {
    ClearRGB(dst, d, width, height, 4);
  }

  method ClearRGB24(dst: array<bv8>, d: Dest, width: nat, height: nat)
    requires ClearPre(d, width * 3, height, dst.Length)
    modifies dst
    ensures dst[..] == ClearRgbImage(d, width * 3, height, old(dst[..]))
  {
    ClearRGB(dst, d, width, height, 3);
  }

  method ClearRGB16(dst: array<bv8>, d: Dest, width: nat, height: nat)
    requires ClearPre(d, width * 2, height, dst.Length)
    modifies dst
    ensures dst[..] == ClearRgbImage(d, width * 2, height, old(dst[..]))
  {
    ClearRGB(dst, d, width, height, 2);
  }

  /** Every byte in the cleared region is zero; every other byte keeps its value. */
  lemma ClearRgbLayout(d: Dest, ext: nat, height: nat, orig: seq<bv8>, r: nat, c: nat)
    requires ClearPre(d, ext, height, |orig|) && c < d.rb && At(d, r, c) < |orig|
    ensures ClearRgbImage(d, ext, height, orig)[At(d, r, c)] ==
            if r < height && c < ext then 0 else orig[At(d, r, c)]
  {
    if r < height && c < ext {
      PaintAt(orig, d, height, ext, ZeroBytes(), r, c);
    } else {
      PaintKeeps(orig, d, height, ext, ZeroBytes(), r, c);
    }
  }

  // ---------------------------------------------------------------------
  // ClearV408

  /** Black opaque v408: zero chroma (0x80), black luma (0x10), and 0xEB in
      the alpha byte, which the code comments call opaque. */
  function V408Black(c: nat): bv8
  {
    var t := c % 4;
    if t == 0 || t == 2 then 0x80 else if t == 1 then 0x10 else 0xEB
  }

  function V408BlackBytes(): (nat, nat) -> bv8
  {
    (r: nat, c: nat) => V408Black(c)
  }

  function ClearV408Image(d: Dest, width: nat, height: nat, orig: seq<bv8>): seq<bv8>
  {
    Paint(orig, d, height, 4 * width, V408BlackBytes())
  }

  lemma V408BlackPixel(x: nat)
    ensures V408BlackBytes()(0, 4 * x) == 0x80 && V408BlackBytes()(0, 4 * x + 1) == 0x10
    ensures V408BlackBytes()(0, 4 * x + 2) == 0x80 && V408BlackBytes()(0, 4 * x + 3) == 0xEB
  {
    DivModUnique(4 * x + 1, 4, x, 1);
    DivModUnique(4 * x + 2, 4, x, 2);
    DivModUnique(4 * x + 3, 4, x, 3);
  }

  lemma ClearV408Step(s: seq<bv8>, s': seq<bv8>, orig: seq<bv8>, d: Dest, width: nat, y: nat, x: nat, p: nat)
    requires Progress(s, orig, d, 4 * width, V408BlackBytes(), y, 4 * x, 0)
    requires 4 * width <= d.rb && x < width
    requires p == At(d, y, 4 * x) && p + 4 <= |s|
    requires s' == s[p := 0x80][p + 1 := 0x10][p + 2 := 0x80][p + 3 := 0xEB]
    ensures Progress(s', orig, d, 4 * width, V408BlackBytes(), y, 4 * x + 4, 0)
  {
    V408BlackPixel(x);
    assert V408BlackBytes()(y, 4 * x + 1) == V408BlackBytes()(0, 4 * x + 1);
    assert V408BlackBytes()(y, 4 * x + 2) == V408BlackBytes()(0, 4 * x + 2);
    assert V408BlackBytes()(y, 4 * x + 3) == V408BlackBytes()(0, 4 * x + 3);
    PaintGroup4(s, s', orig, d, 4 * width, V408BlackBytes(), y, 4 * x, p);
  }

  /** ClearV408: four pattern bytes per pixel, width pixels per row. */
  method ClearV408(dst: array<bv8>, d: Dest, width: nat, height: nat)
    requires ClearPre(d, 4 * width, height, dst.Length)
    modifies dst
    ensures dst[..] == ClearV408Image(d, width, height, old(dst[..]))
  {
    var o, rowBytes := d.off, d.rb;
    ghost var orig := dst[..];
    ProgressStart(orig, d, 4 * width, V408BlackBytes());
    for y := 0 to height
      invariant o == At(d, y, 0)
      invariant Progress(dst[..], orig, d, 4 * width, V408BlackBytes(), y, 0, 0)
    {
      for x := 0 to width
        invariant Progress(dst[..], orig, d, 4 * width, V408BlackBytes(), y, 4 * x, 0)
      {
        var x4 := x * 4;
        RowSlot(d, height, 4 * width, dst.Length, y, x4, 4, o);
        ghost var s := dst[..];
        dst[o + x4] := 0x80;
        dst[o + x4 + 1] := 0x10;
        dst[o + x4 + 2] := 0x80;
        dst[o + x4 + 3] := 0xEB;
        ClearV408Step(s, dst[..], orig, d, width, y, x, o + x4);
      }
      ProgressAdvance(dst[..], orig, d, 4 * width, V408BlackBytes(), y, 0);
      AtNext(d, y, 0);
      o := o + rowBytes;
    }
    ProgressFinish(dst[..], orig, d, height, 4 * width, V408BlackBytes());
  }

  // ---------------------------------------------------------------------
  // ClearY422

  /** Black 2vuy: zero chroma (0x80) in the even bytes, black luma (0x10) in the odd ones. */
  function Y422Black(c: nat): bv8
  {
    if c % 2 == 0 then 0x80 else 0x10
  }

  function Y422BlackBytes(): (nat, nat) -> bv8
  {
    (r: nat, c: nat) => Y422Black(c)
  }

  /** A 2vuy row of width pixels holds two bytes per pixel. */
  function ExtentY422Clear(width: nat): nat
  {
    2 * width
  }

  function ClearY422Image(d: Dest, width: nat, height: nat, orig: seq<bv8>): seq<bv8>
  {
    Paint(orig, d, height, ExtentY422Clear(width), Y422BlackBytes())
  }

  lemma ClearY422Step(s: seq<bv8>, s': seq<bv8>, orig: seq<bv8>, d: Dest, width: nat, y: nat, x: nat, p: nat)
    requires Progress(s, orig, d, ExtentY422Clear(width), Y422BlackBytes(), y, 2 * x, 0)
    requires ExtentY422Clear(width) <= d.rb && x < width
    requires p == At(d, y, 2 * x) && p + 2 <= |s|
    requires s' == s[p := 0x80][p + 1 := 0x10]
    ensures Progress(s', orig, d, ExtentY422Clear(width), Y422BlackBytes(), y, 2 * x + 2, 0)
  {
    DivModUnique(2 * x + 1, 2, x, 1);
    PaintGroup2(s, s', orig, d, ExtentY422Clear(width), Y422BlackBytes(), y, 2 * x, p);
  }

  /** ClearY422: two pattern bytes per pixel, width pixels per row. */
  method ClearY422(dst: array<bv8>, d: Dest, width: nat, height: nat)
    requires ClearPre(d, ExtentY422Clear(width), height, dst.Length)
    modifies dst
    ensures dst[..] == ClearY422Image(d, width, height, old(dst[..]))
  {
    var o, rowBytes := d.off, d.rb;
    ghost var orig := dst[..];
    ghost var ext := ExtentY422Clear(width);
    ProgressStart(orig, d, ext, Y422BlackBytes());
    for y := 0 to height
      invariant o == At(d, y, 0)
      invariant Progress(dst[..], orig, d, ext, Y422BlackBytes(), y, 0, 0)
    {
      for x := 0 to width
        invariant Progress(dst[..], orig, d, ext, Y422BlackBytes(), y, 2 * x, 0)
      {
        var x2 := x * 2;
        RowSlot(d, height, ext, dst.Length, y, x2, 2, o);
        ghost var s := dst[..];
        dst[o + x2] := 0x80;
        dst[o + x2 + 1] := 0x10;
        ClearY422Step(s, dst[..], orig, d, width, y, x, o + x2);
      }
      ProgressAdvance(dst[..], orig, d, ext, Y422BlackBytes(), y, 0);
      AtNext(d, y, 0);
      o := o + rowBytes;
    }
    ProgressFinish(dst[..], orig, d, height, ext, Y422BlackBytes());
  }

  // ---------------------------------------------------------------------
  // Properties of the clearers

  /** Clearing twice leaves the buffer as clearing once (for every clearer,
      each of which paints a fixed pattern). */
  lemma ClearY422Twice(d: Dest, width: nat, height: nat, orig: seq<bv8>)
    ensures ClearY422Image(d, width, height, ClearY422Image(d, width, height, orig)) ==
            ClearY422Image(d, width, height, orig)
  {
    PaintTwice(orig, d, height, ExtentY422Clear(width), Y422BlackBytes());
  }

  lemma ClearV408Twice(d: Dest, width: nat, height: nat, orig: seq<bv8>)
    ensures ClearV408Image(d, width, height, ClearV408Image(d, width, height, orig)) ==
            ClearV408Image(d, width, height, orig)
  {
    PaintTwice(orig, d, height, 4 * width, V408BlackBytes());
  }

  lemma ClearRgbTwice(d: Dest, ext: nat, height: nat, orig: seq<bv8>)
    ensures ClearRgbImage(d, ext, height, ClearRgbImage(d, ext, height, orig)) == ClearRgbImage(d, ext, height, orig)
  {
    PaintTwice(orig, d, height, ext, ZeroBytes());
  }

  /** In each cleared v408 row, pixel bytes cycle 0x80, 0x10, 0x80, 0xEB; bytes
      past 4 * width in a row and rows at or beyond height keep their value. */
  lemma ClearV408Layout(d: Dest, width: nat, height: nat, orig: seq<bv8>, r: nat, c: nat)
    requires ClearPre(d, 4 * width, height, |orig|) && c < d.rb && At(d, r, c) < |orig|
    ensures ClearV408Image(d, width, height, orig)[At(d, r, c)] ==
            if r < height && c < 4 * width then (if c % 4 == 1 then 0x10 else if c % 4 == 3 then 0xEB else 0x80)
            else orig[At(d, r, c)]
  {
    if r < height && c < 4 * width {
      PaintAt(orig, d, height, 4 * width, V408BlackBytes(), r, c);
    } else {
      PaintKeeps(orig, d, height, 4 * width, V408BlackBytes(), r, c);
    }
  }

  /** In each cleared 2vuy row, bytes alternate 0x80, 0x10 for 2 * width bytes;
      the rest of the row and rows at or beyond height keep their value. */
  lemma ClearY422Layout(d: Dest, width: nat, height: nat, orig: seq<bv8>, r: nat, c: nat)
    requires ClearPre(d, ExtentY422Clear(width), height, |orig|) && c < d.rb && At(d, r, c) < |orig|
    ensures ClearY422Image(d, width, height, orig)[At(d, r, c)] ==
            if r < height && c < 2 * width then (if c % 2 == 0 then 0x80 else 0x10) else orig[At(d, r, c)]
  {
    if r < height && c < 2 * width {
      PaintAt(orig, d, height, ExtentY422Clear(width), Y422BlackBytes(), r, c);
    } else {
      PaintKeeps(orig, d, height, ExtentY422Clear(width), Y422BlackBytes(), r, c);
    }
  }

  /** The 2vuy black pattern puts 0x80 in the Cb and Cr bytes of every group
      (columns 4x and 4x + 2) and 0x10 in both luma bytes. */
  lemma Y422BlackIs2vuy(x: nat)
    ensures Y422Black(4 * x) == 0x80 && Y422Black(4 * x + 2) == 0x80
    ensures Y422Black(4 * x + 1) == 0x10 && Y422Black(4 * x + 3) == 0x10
  {
    DivModUnique(4 * x + 1, 2, 2 * x, 1);
    DivModUnique(4 * x + 3, 2, 2 * x + 1, 1);
    DivModUnique(4 * x + 2, 2, 2 * x + 1, 0);
  }

  /** Converting a 4:2:0 frame into a cleared 2vuy buffer: inside the 2vuy
      extent the frame's bytes, in the dropped last pixel of an odd width
      the black pattern, beyond the row (or below the frame) the original. */
  lemma ClearThenY420(f: Frame, d: Dest, width: nat, height: nat, orig: seq<bv8>, r: nat, c: nat)
    requires c < d.rb && At(d, r, c) < |orig| && ExtentY422Clear(width) <= d.rb
    ensures Y420Image(f, d, width, height, ClearY422Image(d, width, height, orig))[At(d, r, c)] ==
            if r < height && c < Extent2vuy(width) then Y420Byte(f, r, c)
            else if r < height && c < ExtentY422Clear(width) then Y422Black(c)
            else orig[At(d, r, c)]
  {
    var cleared := ClearY422Image(d, width, height, orig);
    RowCol(d, r, c);
    assert |cleared| == |orig|;
    var i := At(d, r, c);
    assert InRegion(d, i, height, Extent2vuy(width)) <==> r < height && c < Extent2vuy(width);
    assert InRegion(d, i, height, ExtentY422Clear(width)) <==> r < height && c < ExtentY422Clear(width);
  }

  // ---------------------------------------------------------------------
  // A black frame converted over a cleared buffer

  /** Converting a black 4:2:0 frame (luma 0x10, chroma 0x80 wherever the
      converter reads) over a buffer that ClearY422 has cleared leaves the
      cleared buffer as it was: the two black patterns agree. */
  lemma BlackY420OverClear(f: Frame, d: Dest, width: nat, height: nat, orig: seq<bv8>)
    requires forall r: nat, c: nat | r < height && c < 2 * (width / 2) :: Sample(f.p0, r, c) == 0x10
    requires forall r: nat, c: nat | r < (height + 1) / 2 && c < width / 2 ::
               Sample(f.p1, r, c) == 0x80 && Sample(f.p2, r, c) == 0x80
    ensures Y420Image(f, d, width, height, ClearY422Image(d, width, height, orig)) == ClearY422Image(d, width, height, orig)
  {
    forall r: nat, c: nat | r < height && c < Extent2vuy(width) ensures Y420Bytes(f)(r, c) == Y422BlackBytes()(r, c) {
      var x := c / 4;
      assert x < width / 2 && r / 2 < (height + 1) / 2;
      Y420Group(f, r, x);
      Y422BlackIs2vuy(x);
      assert c == 4 * x || c == 4 * x + 1 || c == 4 * x + 2 || c == 4 * x + 3;
    }
    PaintOver(orig, d, height, Extent2vuy(width), Y420Bytes(f), ExtentY422Clear(width), Y422BlackBytes());
  }

  /** The same for a black 4:2:2 frame. */
  lemma BlackY422OverClear(f: Frame, d: Dest, width: nat, height: nat, orig: seq<bv8>)
    requires forall r: nat, c: nat | r < height && c < 2 * (width / 2) :: Sample(f.p0, r, c) == 0x10
    requires forall r: nat, c: nat | r < height && c < width / 2 ::
               Sample(f.p1, r, c) == 0x80 && Sample(f.p2, r, c) == 0x80
    ensures Y422Image(f, d, width, height, ClearY422Image(d, width, height, orig)) == ClearY422Image(d, width, height, orig)
  {
    forall r: nat, c: nat | r < height && c < Extent2vuy(width) ensures Y422Bytes(f)(r, c) == Y422BlackBytes()(r, c) {
      var x := c / 4;
      assert x < width / 2;
      Y422Group(f, r, x);
      Y422BlackIs2vuy(x);
      assert c == 4 * x || c == 4 * x + 1 || c == 4 * x + 2 || c == 4 * x + 3;
    }
    PaintOver(orig, d, height, Extent2vuy(width), Y422Bytes(f), ExtentY422Clear(width), Y422BlackBytes());
  }

  /** The same for a black 4:1:0 frame. */
  lemma BlackY410OverClear(f: Frame, d: Dest, width: nat, height: nat, orig: seq<bv8>)
    requires forall r: nat, c: nat | r < height && c < 2 * (width / 2) :: Sample(f.p0, r, c) == 0x10
    requires forall r: nat, c: nat | r < (height + 3) / 4 && c < (width / 2 + 1) / 2 ::
               Sample(f.p1, r, c) == 0x80 && Sample(f.p2, r, c) == 0x80
    ensures Y410Image(f, d, width, height, ClearY422Image(d, width, height, orig)) == ClearY422Image(d, width, height, orig)
  {
    forall r: nat, c: nat | r < height && c < Extent2vuy(width) ensures Y410Bytes(f)(r, c) == Y422BlackBytes()(r, c) {
      var x := c / 4;
      assert x < width / 2 && x / 2 < (width / 2 + 1) / 2 && r / 4 < (height + 3) / 4;
      Y410Group(f, r, x);
      Y422BlackIs2vuy(x);
      assert c == 4 * x || c == 4 * x + 1 || c == 4 * x + 2 || c == 4 * x + 3;
    }
    PaintOver(orig, d, height, Extent2vuy(width), Y410Bytes(f), ExtentY422Clear(width), Y422BlackBytes());
  }

  /** Converting a black, opaque 4:2:0 frame with alpha (luma 0x10, chroma
      0x80, alpha 0xEB) over a buffer that ClearV408 has cleared leaves the
      cleared buffer as it was. */
  lemma BlackYA420OverClear(f: Frame, d: Dest, width: nat, height: nat, orig: seq<bv8>)
    requires forall r: nat, c: nat | r < height && c < width :: Sample(f.p0, r, c) == 0x10 && Sample(f.p3, r, c) == 0xEB
    requires forall r: nat, c: nat | r < (height + 1) / 2 && c < (width + 1) / 2 ::
               Sample(f.p1, r, c) == 0x80 && Sample(f.p2, r, c) == 0x80
    ensures V408Image(f, d, width, height, ClearV408Image(d, width, height, orig)) == ClearV408Image(d, width, height, orig)
  {
    forall r: nat, c: nat | r < height && c < ExtentV408(width) ensures V408Bytes(f)(r, c) == V408BlackBytes()(r, c) {
      var x := c / 4;
      assert x < width && x / 2 < (width + 1) / 2 && r / 2 < (height + 1) / 2;
      V408Pixel(f, r, x);
      V408BlackPixel(x);
      assert c == 4 * x || c == 4 * x + 1 || c == 4 * x + 2 || c == 4 * x + 3;
    }
    PaintOver(orig, d, height, ExtentV408(width), V408Bytes(f), 4 * width, V408BlackBytes());
  }
}
