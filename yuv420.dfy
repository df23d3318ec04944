/** Planar YUV 4:2:0 to packed 2vuy (Cb Y0 Cr Y1 per two luma samples):
    the scalar converter, the SSE2 converter with its scalar tail, and the
    helper for the unpaired last luma row of an odd-height frame. */
module Yuv420 {
  import opened Raster
  import opened Simd

  /** Byte c of a 2vuy row whose luma starts at plane offset yc and whose
      chroma starts at uc (Cb) and vc (Cr): group c / 4 takes chroma column
      c / 4 and luma columns 2 * (c / 4) and 2 * (c / 4) + 1. */
  function PairByte(f: Frame, yc: nat, uc: nat, vc: nat, c: nat): bv8
  {
    var x := c / 4;
    TwoVuy(Byte(f.p1, uc + x), Byte(f.p0, yc + 2 * x), Byte(f.p2, vc + x), Byte(f.p0, yc + 2 * x + 1), c % 4)
  }

  /** Output row r of a 4:2:0 frame: luma row r, chroma row r / 2. */
  function Y420Byte(f: Frame, r: nat, c: nat): bv8
  {
    PairByte(f, r * f.p0.stride, (r / 2) * f.p1.stride, (r / 2) * f.p2.stride, c)
  }

  function Y420Bytes(f: Frame): (nat, nat) -> bv8
  {
    (r: nat, c: nat) => Y420Byte(f, r, c)
  }

  /** Bytes of each output row written by a 2vuy converter: one 4-byte group
      per pair of luma columns, so an odd last luma column is dropped. */
  function Extent2vuy(width: nat): nat
  {
    4 * (width / 2)
  }

  /** The destination after a 4:2:0 conversion: all `height` rows (the
      row pairs and, for odd heights, the last row) hold their 2vuy bytes. */
  function Y420Image(f: Frame, d: Dest, width: nat, height: nat, orig: seq<bv8>): seq<bv8>
  {
    Paint(orig, d, height, Extent2vuy(width), Y420Bytes(f))
  }

  /** What the converters read and write: luma rows of 2 * (width / 2) bytes,
      (height + 1) / 2 chroma rows of width / 2 bytes, and a destination
      whose rows hold Extent2vuy(width) bytes each. */
  predicate Y420Pre(f: Frame, d: Dest, width: nat, height: nat, n: nat)
  {
    Covers(f.p0, height, 2 * (width / 2)) &&
    Covers(f.p1, (height + 1) / 2, width / 2) && Covers(f.p2, (height + 1) / 2, width / 2) &&
    Extent2vuy(width) <= d.rb && Fits(d, height, Extent2vuy(width), n)
  }

  /** Group x of output row r holds chroma column x of chroma row r / 2 and
      luma columns 2x, 2x + 1 of luma row r. */
  lemma Y420Group(f: Frame, r: nat, x: nat)
    ensures Y420Bytes(f)(r, 4 * x) == Sample(f.p1, r / 2, x)
    ensures Y420Bytes(f)(r, 4 * x + 1) == Sample(f.p0, r, 2 * x)
    ensures Y420Bytes(f)(r, 4 * x + 2) == Sample(f.p2, r / 2, x)
    ensures Y420Bytes(f)(r, 4 * x + 3) == Sample(f.p0, r, 2 * x + 1)
  {
    assert (4 * x + 1) / 4 == x && (4 * x + 2) / 4 == x && (4 * x + 3) / 4 == x;
  }

  /** Group x of output rows 2y and 2y + 1 share chroma column x of chroma
      row y. */
  lemma Y420GroupPair(f: Frame, y: nat, x: nat)
    ensures Y420Bytes(f)(2 * y, 4 * x) == Sample(f.p1, y, x)
    ensures Y420Bytes(f)(2 * y, 4 * x + 1) == Sample(f.p0, 2 * y, 2 * x)
    ensures Y420Bytes(f)(2 * y, 4 * x + 2) == Sample(f.p2, y, x)
    ensures Y420Bytes(f)(2 * y, 4 * x + 3) == Sample(f.p0, 2 * y, 2 * x + 1)
    ensures Y420Bytes(f)(2 * y + 1, 4 * x) == Sample(f.p1, y, x)
    ensures Y420Bytes(f)(2 * y + 1, 4 * x + 1) == Sample(f.p0, 2 * y + 1, 2 * x)
    ensures Y420Bytes(f)(2 * y + 1, 4 * x + 2) == Sample(f.p2, y, x)
    ensures Y420Bytes(f)(2 * y + 1, 4 * x + 3) == Sample(f.p0, 2 * y + 1, 2 * x + 1)
  {
    Y420Group(f, 2 * y, x);
    Y420Group(f, 2 * y + 1, x);
    assert (2 * y + 1) / 2 == y && (2 * y) / 2 == y;
  }

  /** Writing group x of the output rows 2y and 2y + 1 from chroma row y and
      luma rows 2y, 2y + 1 extends the progress of the row pair by one group. */
  lemma Y420PairStep(s: seq<bv8>, s': seq<bv8>, orig: seq<bv8>, f: Frame, d: Dest, width: nat, y: nat, x: nat,
                      p0: nat, p1: nat, cb: bv8, cr: bv8, l0: bv8, l1: bv8, m0: bv8, m1: bv8)
    requires Progress(s, orig, d, Extent2vuy(width), Y420Bytes(f), 2 * y, 4 * x, 4 * x)
    requires Extent2vuy(width) <= d.rb && x < width / 2
    requires p0 == At(d, 2 * y, 4 * x) && p1 == At(d, 2 * y + 1, 4 * x) && p0 + 4 <= p1 && p1 + 4 <= |s|
    requires cb == Sample(f.p1, y, x) && cr == Sample(f.p2, y, x)
    requires l0 == Sample(f.p0, 2 * y, 2 * x) && l1 == Sample(f.p0, 2 * y, 2 * x + 1)
    requires m0 == Sample(f.p0, 2 * y + 1, 2 * x) && m1 == Sample(f.p0, 2 * y + 1, 2 * x + 1)
    requires s' == s[p0 := cb][p1 := cb][p0 + 1 := l0][p1 + 1 := m0]
                    [p0 + 2 := cr][p1 + 2 := cr][p0 + 3 := l1][p1 + 3 := m1]
    ensures Progress(s', orig, d, Extent2vuy(width), Y420Bytes(f), 2 * y, 4 * x + 4, 4 * x + 4)
  {
    Y420GroupPair(f, y, x);
    PaintGroupPair(s, s', orig, d, Extent2vuy(width), Y420Bytes(f), 2 * y, 4 * x, p0, p1,
                   cb, l0, cr, l1, cb, m0, cr, m1);
  }

  /** One pass of the row-pair loop, from the plane bytes it reads to the
      progress it makes. */
  lemma Y420Pass(s: seq<bv8>, s': seq<bv8>, orig: seq<bv8>, f: Frame, d: Dest, width: nat, height: nat,
                 y: nat, x: nat, yc: nat, yc2: nat, u: nat, v: nat,
                 p0: nat, p1: nat, cb: bv8, cr: bv8, l0: bv8, l1: bv8, m0: bv8, m1: bv8)
    requires Y420Pre(f, d, width, height, |s|) && y < height / 2 && x < width / 2
    requires Progress(s, orig, d, Extent2vuy(width), Y420Bytes(f), 2 * y, 4 * x, 4 * x)
    requires yc == (2 * y) * f.p0.stride && yc2 == yc + f.p0.stride
    requires u == y * f.p1.stride && v == y * f.p2.stride
    requires p0 == At(d, 2 * y, 4 * x) && p1 == At(d, 2 * y + 1, 4 * x) && p0 + 4 <= p1 && p1 + 4 <= |s|
    requires u + x < |f.p1.bytes| && v + x < |f.p2.bytes|
    requires yc + 2 * x + 1 < |f.p0.bytes| && yc2 + 2 * x + 1 < |f.p0.bytes|
    requires cb == f.p1.bytes[u + x] && cr == f.p2.bytes[v + x]
    requires l0 == f.p0.bytes[yc + 2 * x] && l1 == f.p0.bytes[yc + 2 * x + 1]
    requires m0 == f.p0.bytes[yc2 + 2 * x] && m1 == f.p0.bytes[yc2 + 2 * x + 1]
    requires s' == s[p0 := cb][p1 := cb][p0 + 1 := l0][p1 + 1 := m0]
                    [p0 + 2 := cr][p1 + 2 := cr][p0 + 3 := l1][p1 + 3 := m1]
    ensures Progress(s', orig, d, Extent2vuy(width), Y420Bytes(f), 2 * y, 4 * x + 4, 4 * x + 4)
  {
    Y420Reads(f, width, height, y, x, yc, yc2, u, v);
    Y420PairStep(s, s', orig, f, d, width, y, x, p0, p1, cb, cr, l0, l1, m0, m1);
  }

  /** The stores of one pass of the row-pair loop: group bytes a0..a3 at p0
      (row 2y) and b0..b3 at p1 (row 2y + 1), alternating between the rows. */
  method StorePair(dst: array<bv8>, p0: nat, p1: nat, a0: bv8, a1: bv8, a2: bv8, a3: bv8,
                   b0: bv8, b1: bv8, b2: bv8, b3: bv8)
    requires p0 + 4 <= dst.Length && p1 + 4 <= dst.Length
    modifies dst
    ensures dst[..] == old(dst[..])[p0 := a0][p1 := b0][p0 + 1 := a1][p1 + 1 := b1]
                                  [p0 + 2 := a2][p1 + 2 := b2][p0 + 3 := a3][p1 + 3 := b3]
  {
    dst[p0] := a0;
    dst[p1] := b0;
    dst[p0 + 1] := a1;
    dst[p1 + 1] := b1;
    dst[p0 + 2] := a2;
    dst[p1 + 2] := b2;
    dst[p0 + 3] := a3;
    dst[p1 + 3] := b3;
  }

  /** The samples a pass of the row-pair loop reads for group x of row pair y
      (luma rows at offsets yc and yc2, chroma rows at u and v) lie inside
      the planes. */
  lemma Y420Reads(f: Frame, width: nat, height: nat, y: nat, x: nat, yc: nat, yc2: nat, u: nat, v: nat)
    requires Covers(f.p0, height, 2 * (width / 2))
    requires Covers(f.p1, (height + 1) / 2, width / 2) && Covers(f.p2, (height + 1) / 2, width / 2)
    requires y < height / 2 && x < width / 2
    requires yc == (2 * y) * f.p0.stride && yc2 == yc + f.p0.stride
    requires u == y * f.p1.stride && v == y * f.p2.stride
    ensures yc + 2 * x + 1 < |f.p0.bytes| && yc2 + 2 * x + 1 < |f.p0.bytes|
    ensures u + x < |f.p1.bytes| && v + x < |f.p2.bytes|
    ensures f.p1.bytes[u + x] == Sample(f.p1, y, x) && f.p2.bytes[v + x] == Sample(f.p2, y, x)
    ensures f.p0.bytes[yc + 2 * x] == Sample(f.p0, 2 * y, 2 * x)
    ensures f.p0.bytes[yc + 2 * x + 1] == Sample(f.p0, 2 * y, 2 * x + 1)
    ensures f.p0.bytes[yc2 + 2 * x] == Sample(f.p0, 2 * y + 1, 2 * x)
    ensures f.p0.bytes[yc2 + 2 * x + 1] == Sample(f.p0, 2 * y + 1, 2 * x + 1)
  {
    assert yc2 == (2 * y + 1) * f.p0.stride;
    CoversAt(f.p0, height, 2 * (width / 2), 2 * y, 2 * x + 1);
    CoversAt(f.p0, height, 2 * (width / 2), 2 * y + 1, 2 * x + 1);
    CoversAt(f.p1, (height + 1) / 2, width / 2, y, x);
    CoversAt(f.p2, (height + 1) / 2, width / 2, y, x);
  }

  /** Y420toY422_lastrow: one 2vuy row from one luma row and one chroma row. */
  method Y420toY422LastRow(dst: array<bv8>, o: nat, f: Frame, yc: nat, uc: nat, vc: nat, halfWidth: nat)
    requires o + 4 * halfWidth <= dst.Length
    requires halfWidth > 0 ==> yc + 2 * halfWidth <= |f.p0.bytes| &&
                               uc + halfWidth <= |f.p1.bytes| && vc + halfWidth <= |f.p2.bytes|
    modifies dst
    ensures forall i | 0 <= i < dst.Length ::
      dst[i] == if o <= i < o + 4 * halfWidth then PairByte(f, yc, uc, vc, i - o) else old(dst[i])
  {
    for x := 0 to halfWidth
      invariant forall i | 0 <= i < dst.Length ::
        dst[i] == if o <= i < o + 4 * x then PairByte(f, yc, uc, vc, i - o) else old(dst[i])
    {
      var x4, x2 := x * 4, x * 2;
      dst[o + x4] := f.p1.bytes[uc + x];
      dst[o + x4 + 1] := f.p0.bytes[yc + x2];
      dst[o + x4 + 2] := f.p2.bytes[vc + x];
      dst[o + x4 + 3] := f.p0.bytes[yc + x2 + 1];
    }
  }

  /** The last-row helper, called for an odd height, paints row height - 1
      (luma row height - 1, chroma row height / 2) and completes the image. */
  method HandleLastRow(f: Frame, dst: array<bv8>, d: Dest, width: nat, height: nat, o: nat, yc: nat, uc: nat, vc: nat,
                       ghost orig: seq<bv8>)
    requires Y420Pre(f, d, width, height, dst.Length)
    requires o == At(d, 2 * (height / 2), 0) && yc == (2 * (height / 2)) * f.p0.stride
    requires uc == (height / 2) * f.p1.stride && vc == (height / 2) * f.p2.stride
    requires Progress(dst[..], orig, d, Extent2vuy(width), Y420Bytes(f), 2 * (height / 2), 0, 0)
    modifies dst
    ensures dst[..] == Y420Image(f, d, width, height, orig)
  {
    var ext := Extent2vuy(width);
    if height % 2 == 1 && width / 2 > 0 {
      var r := height - 1;
      FitsAt(d, height, ext, dst.Length, r, ext - 1);
      CoversAt(f.p0, height, 2 * (width / 2), r, 2 * (width / 2) - 1);
      CoversAt(f.p1, (height + 1) / 2, width / 2, height / 2, width / 2 - 1);
      CoversAt(f.p2, (height + 1) / 2, width / 2, height / 2, width / 2 - 1);
      ghost var s := dst[..];
      Y420toY422LastRow(dst, o, f, yc, uc, vc, width / 2);
      Y420LastRowDone(s, dst[..], orig, f, d, width, height, o, yc, uc, vc);
    } else if height % 2 == 1 {
      ProgressAdvance(dst[..], orig, d, ext, Y420Bytes(f), height - 1, 0);
      ProgressFinish(dst[..], orig, d, height, ext, Y420Bytes(f));
    } else {
      ProgressFinish(dst[..], orig, d, height, ext, Y420Bytes(f));
    }
  }

  /** The last row written by Y420toY422_lastrow completes the image of an
      odd-height frame. */
  lemma Y420LastRowDone(s: seq<bv8>, s': seq<bv8>, orig: seq<bv8>, f: Frame, d: Dest, width: nat, height: nat,
                        o: nat, yc: nat, uc: nat, vc: nat)
    requires Y420Pre(f, d, width, height, |s|) && height % 2 == 1
    requires o == At(d, height - 1, 0) && yc == (height - 1) * f.p0.stride
    requires uc == (height / 2) * f.p1.stride && vc == (height / 2) * f.p2.stride
    requires Progress(s, orig, d, Extent2vuy(width), Y420Bytes(f), height - 1, 0, 0)
    requires o + Extent2vuy(width) <= |s| && |s'| == |s|
    requires forall i | 0 <= i < |s| ::
      s'[i] == if o <= i < o + 4 * (width / 2) then PairByte(f, yc, uc, vc, i - o) else s[i]
    ensures s' == Y420Image(f, d, width, height, orig)
  {
    var ext, r := Extent2vuy(width), height - 1;
    assert r / 2 == height / 2;
    assert forall i | o <= i < o + ext :: s'[i] == Y420Byte(f, r, i - o);
    PaintRun(s, s', orig, d, ext, Y420Bytes(f), r, 0, 0, false, ext);
    ProgressAdvance(s', orig, d, ext, Y420Bytes(f), r, 0);
    ProgressFinish(s', orig, d, height, ext, Y420Bytes(f));
  }

  /** The inner loop of Y420toY422_x86_scalar, and the tail loop of
      Y420toY422_sse2 (which starts at group `from`): group by group, output
      rows 2y (at o) and 2y + 1 (at o2) from luma rows 2y (at yc), 2y + 1
      (at yc2) and chroma row y (at u and v). */
  method Y420RowPair(f: Frame, dst: array<bv8>, d: Dest, width: nat, height: nat, y: nat, from: nat,
                     o: nat, o2: nat, yc: nat, yc2: nat, u: nat, v: nat, ghost orig: seq<bv8>)
    requires Y420Pre(f, d, width, height, dst.Length) && y < height / 2 && from <= width / 2
    requires o == At(d, 2 * y, 0) && o2 == At(d, 2 * y + 1, 0)
    requires yc == (2 * y) * f.p0.stride && yc2 == yc + f.p0.stride
    requires u == y * f.p1.stride && v == y * f.p2.stride
    requires Progress(dst[..], orig, d, Extent2vuy(width), Y420Bytes(f), 2 * y, 4 * from, 4 * from)
    modifies dst
    ensures Progress(dst[..], orig, d, Extent2vuy(width), Y420Bytes(f), 2 * y, Extent2vuy(width), Extent2vuy(width))
  {
    for x := from to width / 2
      invariant Progress(dst[..], orig, d, Extent2vuy(width), Y420Bytes(f), 2 * y, 4 * x, 4 * x)
    {
      var x4, x2 := x * 4, x * 2;
      PairSlots(d, height, Extent2vuy(width), dst.Length, 2 * y, x4, 4, o, o2);
      Y420Reads(f, width, height, y, x, yc, yc2, u, v);
      ghost var s := dst[..];
      var cb, cr := f.p1.bytes[u + x], f.p2.bytes[v + x];
      var l0, l1, m0, m1 := f.p0.bytes[yc + x2], f.p0.bytes[yc + x2 + 1], f.p0.bytes[yc2 + x2], f.p0.bytes[yc2 + x2 + 1];
      StorePair(dst, o + x4, o2 + x4, cb, l0, cr, l1, cb, m0, cr, m1);
      Y420Pass(s, dst[..], orig, f, d, width, height, y, x, yc, yc2, u, v, o + x4, o2 + x4, cb, cr, l0, l1, m0, m1);
    }
  }

  /** Y420toY422_x86_scalar: each pass of the outer loop writes the output row
      pair 2y, 2y + 1 from luma rows 2y, 2y + 1 and chroma row y. */
  method Y420toY422Scalar(f: Frame, dst: array<bv8>, d: Dest, width: nat, height: nat)
    requires Y420Pre(f, d, width, height, dst.Length)
    modifies dst
    ensures dst[..] == Y420Image(f, d, width, height, old(dst[..]))
  {
    var yc, u, v := 0, 0, 0;
    var rY, rU, rV := f.p0.stride, f.p1.stride, f.p2.stride;
    var halfheight, halfwidth := height / 2, width / 2;
    var o, outRB := d.off, d.rb;
    ghost var orig := dst[..];
    ghost var ext := Extent2vuy(width);
    ghost var E := Y420Bytes(f);
    ProgressStart(orig, d, ext, E);
    for y := 0 to halfheight
      invariant o == At(d, 2 * y, 0) && yc == (2 * y) * rY && u == y * rU && v == y * rV
      invariant Progress(dst[..], orig, d, ext, E, 2 * y, 0, 0)
    {
      var o2, yc2 := o + outRB, yc + rY;
      AtNext(d, 2 * y, 0);
      Y420RowPair(f, dst, d, width, height, y, 0, o, o2, yc, yc2, u, v, orig);
      ProgressAdvance(dst[..], orig, d, ext, E, 2 * y, ext);
      ProgressAdvance(dst[..], orig, d, ext, E, 2 * y + 1, 0);
      AtNext(d, 2 * y + 1, 0);
      MulStep(y, rY);
      MulStep(y, rU);
      MulStep(y, rV);
      o := o + outRB * 2;
      yc := yc + rY * 2;
      u := u + rU;
      v := v + rV;
    }
    HandleLastRow(f, dst, d, width, height, o, yc, u, v, orig);
  }

  // ---------------------------------------------------------------------
  // What the 4:2:0 image holds

  /** Row pair y, group x: both output rows carry Cb and Cr of chroma row y,
      column x, and each row its own luma columns 2x and 2x + 1. */
  lemma Y420Layout(f: Frame, d: Dest, width: nat, height: nat, orig: seq<bv8>, y: nat, x: nat, r: nat)
    requires Y420Pre(f, d, width, height, |orig|) && y < height / 2 && x < width / 2
    requires r == 2 * y || r == 2 * y + 1
    ensures At(d, r, 4 * x + 3) < |orig|
    ensures Y420Image(f, d, width, height, orig)[At(d, r, 4 * x)] == Sample(f.p1, y, x)
    ensures Y420Image(f, d, width, height, orig)[At(d, r, 4 * x + 1)] == Sample(f.p0, r, 2 * x)
    ensures Y420Image(f, d, width, height, orig)[At(d, r, 4 * x + 2)] == Sample(f.p2, y, x)
    ensures Y420Image(f, d, width, height, orig)[At(d, r, 4 * x + 3)] == Sample(f.p0, r, 2 * x + 1)
  {
    var ext := Extent2vuy(width);
    assert r / 2 == y;
    Y420Group(f, r, x);
    PaintGroupAt(orig, d, height, ext, Y420Bytes(f), r, 4 * x);
  }

  /** Chroma is shared by the two rows of a pair. */
  lemma Y420PairChroma(f: Frame, d: Dest, width: nat, height: nat, orig: seq<bv8>, y: nat, x: nat)
    requires Y420Pre(f, d, width, height, |orig|) && y < height / 2 && x < width / 2
    ensures At(d, 2 * y, 4 * x + 3) < |orig| && At(d, 2 * y + 1, 4 * x + 3) < |orig|
    ensures Y420Image(f, d, width, height, orig)[At(d, 2 * y, 4 * x)] ==
            Y420Image(f, d, width, height, orig)[At(d, 2 * y + 1, 4 * x)]
    ensures Y420Image(f, d, width, height, orig)[At(d, 2 * y, 4 * x + 2)] ==
            Y420Image(f, d, width, height, orig)[At(d, 2 * y + 1, 4 * x + 2)]
  {
    Y420Layout(f, d, width, height, orig, y, x, 2 * y);
    Y420Layout(f, d, width, height, orig, y, x, 2 * y + 1);
    var img := Y420Image(f, d, width, height, orig);
    assert img[At(d, 2 * y, 4 * x)] == Sample(f.p1, y, x) == img[At(d, 2 * y + 1, 4 * x)];
    assert img[At(d, 2 * y, 4 * x + 2)] == Sample(f.p2, y, x) == img[At(d, 2 * y + 1, 4 * x + 2)];
  }

  /** For an odd height the unpaired row height - 1 is written from luma row
      height - 1 and chroma row height / 2. */
  lemma Y420OddLastRow(f: Frame, d: Dest, width: nat, height: nat, orig: seq<bv8>, x: nat)
    requires Y420Pre(f, d, width, height, |orig|) && height % 2 == 1 && x < width / 2
    ensures At(d, height - 1, 4 * x + 3) < |orig|
    ensures Y420Image(f, d, width, height, orig)[At(d, height - 1, 4 * x)] == Sample(f.p1, height / 2, x)
    ensures Y420Image(f, d, width, height, orig)[At(d, height - 1, 4 * x + 1)] == Sample(f.p0, height - 1, 2 * x)
    ensures Y420Image(f, d, width, height, orig)[At(d, height - 1, 4 * x + 2)] == Sample(f.p2, height / 2, x)
    ensures Y420Image(f, d, width, height, orig)[At(d, height - 1, 4 * x + 3)] == Sample(f.p0, height - 1, 2 * x + 1)
  {
    var ext, r := Extent2vuy(width), height - 1;
    assert r / 2 == height / 2;
    Y420Group(f, r, x);
    PaintGroupAt(orig, d, height, ext, Y420Bytes(f), r, 4 * x);
  }

  /** No row at or beyond `height` and no column at or beyond 4 * (width / 2)
      (an odd last luma column and the row padding) is written. */
  lemma Y420Untouched(f: Frame, d: Dest, width: nat, height: nat, orig: seq<bv8>, r: nat, c: nat)
    requires c < d.rb && At(d, r, c) < |orig| && (r >= height || c >= Extent2vuy(width))
    ensures Y420Image(f, d, width, height, orig)[At(d, r, c)] == orig[At(d, r, c)]
  {
    PaintKeeps(orig, d, height, Extent2vuy(width), Y420Bytes(f), r, c);
  }
}
