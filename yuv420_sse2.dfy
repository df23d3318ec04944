/** Y420toY422_sse2: the vector loop converts 32 luma columns (16 chroma
    columns, 64 output bytes) of a row pair per pass with four unpacks and
    eight 16-byte stores; the scalar loop finishes the row pair and the
    last-row helper handles an odd height. It paints the same image as the
    scalar converter. */
module Yuv420Sse2 {
  import opened Raster
  import opened Simd
  import opened Yuv420

  /** Number of vector passes per row pair (vWidth). */
  function VecPasses(width: nat): nat
  {
    width / 32
  }

  /** The vector passes stay inside the 2vuy row: 16 groups per pass. */
  lemma VecPassesFit(width: nat)
    ensures 16 * VecPasses(width) <= width / 2
    ensures 64 * VecPasses(width) <= Extent2vuy(width)
  {
    var q := width / 32;
    assert width == 32 * q + width % 32;
    DivModUnique(width, 2, 16 * q + (width % 32) / 2, (width % 32) % 2);
  }

  /** Byte c = 4g + t of output row r is byte t of the 2vuy group built
      from chroma column g and luma columns 2g, 2g + 1. */
  lemma Y420GroupByte(f: Frame, r: nat, c: nat, g: nat, t: nat, cb: bv8, y0: bv8, cr: bv8, y1: bv8)
    requires t < 4 && c == 4 * g + t
    requires cb == Sample(f.p1, r / 2, g) && cr == Sample(f.p2, r / 2, g)
    requires y0 == Sample(f.p0, r, 2 * g) && y1 == Sample(f.p0, r, 2 * g + 1)
    ensures TwoVuy(cb, y0, cr, y1, t) == Y420Byte(f, r, c)
  {
    DivModUnique(c, 4, g, t);
  }

  /** The group of chroma vector position cb and luma vector position l
      (luma vector lv starting at luma column lcol) is group 16x + cb of
      output row r. */
  lemma GroupFromVecs(f: Frame, r: nat, cr: nat, x: nat, uv: seq<bv8>, vv: seq<bv8>, lv: seq<bv8>,
                      lb: nat, lcol: nat, cb: nat, l: nat, t: nat, c: nat)
    requires IsVec(uv) && IsVec(vv) && IsVec(lv)
    requires cb < 16 && l + 1 < 16 && t < 4
    requires cr == r / 2 && 2 * cb == lb + l && c == 4 * (16 * x + cb) + t && lcol == 32 * x + lb
    requires forall k | 0 <= k < 16 :: uv[k] == Sample(f.p1, cr, 16 * x + k)
    requires forall k | 0 <= k < 16 :: vv[k] == Sample(f.p2, cr, 16 * x + k)
    requires forall k | 0 <= k < 16 :: lv[k] == Sample(f.p0, r, lcol + k)
    ensures TwoVuy(uv[cb], lv[l], vv[cb], lv[l + 1], t) == Y420Byte(f, r, c)
  {
    var g := 16 * x + cb;
    assert lcol + l == 2 * g && lcol + l + 1 == 2 * g + 1;
    Y420GroupByte(f, r, c, g, t, uv[cb], lv[l], vv[cb], lv[l + 1]);
  }

  /** Lane j of output vector 4x + q of output row r in vector pass x,
      where uv and vv hold chroma columns 16x .. 16x + 15 of chroma row r / 2
      and lo, hi luma columns 32x .. 32x + 31 of luma row r. */
  lemma Y420Lane(f: Frame, r: nat, cr: nat, x: nat, uv: seq<bv8>, vv: seq<bv8>, lo: seq<bv8>, hi: seq<bv8>,
                 q: nat, c: nat, j: nat)
    requires q < 4 && j < 16 && c == 64 * x + 16 * q
    requires IsVec(uv) && IsVec(vv) && IsVec(lo) && IsVec(hi)
    requires cr == r / 2
    requires forall k | 0 <= k < 16 :: uv[k] == Sample(f.p1, cr, 16 * x + k)
    requires forall k | 0 <= k < 16 :: vv[k] == Sample(f.p2, cr, 16 * x + k)
    requires forall k | 0 <= k < 16 :: lo[k] == Sample(f.p0, r, 32 * x + k)
    requires forall k | 0 <= k < 16 :: hi[k] == Sample(f.p0, r, 32 * x + 16 + k)
    ensures Pack2vuy(uv, vv, lo, hi, q)[j] == Y420Byte(f, r, c + j)
  {
    if q == 0 {
      Y420Lane0(f, r, cr, x, uv, vv, lo, hi, q, c, j);
    } else if q == 1 {
      Y420Lane1(f, r, cr, x, uv, vv, lo, hi, q, c, j);
    } else if q == 2 {
      Y420Lane2(f, r, cr, x, uv, vv, lo, hi, q, c, j);
    } else {
      Y420Lane3(f, r, cr, x, uv, vv, lo, hi, q, c, j);
    }
  }

  /** Y420Lane for output vector q = 0. */
  lemma Y420Lane0(f: Frame, r: nat, cr: nat, x: nat, uv: seq<bv8>, vv: seq<bv8>, lo: seq<bv8>, hi: seq<bv8>,
                  q: nat, c: nat, j: nat)
    requires q == 0 && j < 16 && c == 64 * x + 16 * q
    requires IsVec(uv) && IsVec(vv) && IsVec(lo) && IsVec(hi)
    requires cr == r / 2
    requires forall k | 0 <= k < 16 :: uv[k] == Sample(f.p1, cr, 16 * x + k)
    requires forall k | 0 <= k < 16 :: vv[k] == Sample(f.p2, cr, 16 * x + k)
    requires forall k | 0 <= k < 16 :: lo[k] == Sample(f.p0, r, 32 * x + k)
    requires forall k | 0 <= k < 16 :: hi[k] == Sample(f.p0, r, 32 * x + 16 + k)
    ensures Pack2vuy(uv, vv, lo, hi, q)[j] == Y420Byte(f, r, c + j)
  {
    var g, t := j / 4, j % 4;
    assert Pack2vuy(uv, vv, lo, hi, q) == UnpackLo(UnpackLo(uv, vv), lo);
    LaneLoLo(uv, vv, lo, j);
    GroupFromVecs(f, r, cr, x, uv, vv, lo, 0, 32 * x, g, 2 * g, t, c + j);
  }

  /** Y420Lane for output vector q = 1. */
  lemma Y420Lane1(f: Frame, r: nat, cr: nat, x: nat, uv: seq<bv8>, vv: seq<bv8>, lo: seq<bv8>, hi: seq<bv8>,
                  q: nat, c: nat, j: nat)
    requires q == 1 && j < 16 && c == 64 * x + 16 * q
    requires IsVec(uv) && IsVec(vv) && IsVec(lo) && IsVec(hi)
    requires cr == r / 2
    requires forall k | 0 <= k < 16 :: uv[k] == Sample(f.p1, cr, 16 * x + k)
    requires forall k | 0 <= k < 16 :: vv[k] == Sample(f.p2, cr, 16 * x + k)
    requires forall k | 0 <= k < 16 :: lo[k] == Sample(f.p0, r, 32 * x + k)
    requires forall k | 0 <= k < 16 :: hi[k] == Sample(f.p0, r, 32 * x + 16 + k)
    ensures Pack2vuy(uv, vv, lo, hi, q)[j] == Y420Byte(f, r, c + j)
  {
    var g, t := j / 4, j % 4;
    assert Pack2vuy(uv, vv, lo, hi, q) == UnpackHi(UnpackLo(uv, vv), lo);
    LaneHiLo(uv, vv, lo, j);
    GroupFromVecs(f, r, cr, x, uv, vv, lo, 0, 32 * x, 4 + g, 8 + 2 * g, t, c + j);
  }

  /** Y420Lane for output vector q = 2. */
  lemma Y420Lane2(f: Frame, r: nat, cr: nat, x: nat, uv: seq<bv8>, vv: seq<bv8>, lo: seq<bv8>, hi: seq<bv8>,
                  q: nat, c: nat, j: nat)
    requires q == 2 && j < 16 && c == 64 * x + 16 * q
    requires IsVec(uv) && IsVec(vv) && IsVec(lo) && IsVec(hi)
    requires cr == r / 2
    requires forall k | 0 <= k < 16 :: uv[k] == Sample(f.p1, cr, 16 * x + k)
    requires forall k | 0 <= k < 16 :: vv[k] == Sample(f.p2, cr, 16 * x + k)
    requires forall k | 0 <= k < 16 :: lo[k] == Sample(f.p0, r, 32 * x + k)
    requires forall k | 0 <= k < 16 :: hi[k] == Sample(f.p0, r, 32 * x + 16 + k)
    ensures Pack2vuy(uv, vv, lo, hi, q)[j] == Y420Byte(f, r, c + j)
  {
    var g, t := j / 4, j % 4;
    assert Pack2vuy(uv, vv, lo, hi, q) == UnpackLo(UnpackHi(uv, vv), hi);
    LaneLoHi(uv, vv, hi, j);
    GroupFromVecs(f, r, cr, x, uv, vv, hi, 16, 32 * x + 16, 8 + g, 2 * g, t, c + j);
  }

  /** Y420Lane for output vector q = 3. */
  lemma Y420Lane3(f: Frame, r: nat, cr: nat, x: nat, uv: seq<bv8>, vv: seq<bv8>, lo: seq<bv8>, hi: seq<bv8>,
                  q: nat, c: nat, j: nat)
    requires q == 3 && j < 16 && c == 64 * x + 16 * q
    requires IsVec(uv) && IsVec(vv) && IsVec(lo) && IsVec(hi)
    requires cr == r / 2
    requires forall k | 0 <= k < 16 :: uv[k] == Sample(f.p1, cr, 16 * x + k)
    requires forall k | 0 <= k < 16 :: vv[k] == Sample(f.p2, cr, 16 * x + k)
    requires forall k | 0 <= k < 16 :: lo[k] == Sample(f.p0, r, 32 * x + k)
    requires forall k | 0 <= k < 16 :: hi[k] == Sample(f.p0, r, 32 * x + 16 + k)
    ensures Pack2vuy(uv, vv, lo, hi, q)[j] == Y420Byte(f, r, c + j)
  {
    var g, t := j / 4, j % 4;
    assert Pack2vuy(uv, vv, lo, hi, q) == UnpackHi(UnpackHi(uv, vv), hi);
    LaneHiHi(uv, vv, hi, j);
    GroupFromVecs(f, r, cr, x, uv, vv, hi, 16, 32 * x + 16, 12 + g, 8 + 2 * g, t, c + j);
  }

  /** A 16-byte load from row `row`, column col of a plane (starting at the
      plane offset off of that row) holds the samples col .. col + 15. */
  lemma VecLoad(p: Plane, row: nat, col: nat, off: nat, vec: seq<bv8>)
    requires off == row * p.stride && off + col + 16 <= |p.bytes|
    requires vec == p.bytes[off + col .. off + col + 16]
    ensures IsVec(vec) && forall k | 0 <= k < 16 :: vec[k] == Sample(p, row, col + k)
  {
  }

  /** The 16-byte loads of vector pass x over row pair y lie inside the planes. */
  lemma Y420VecBounds(f: Frame, width: nat, height: nat, y: nat, x: nat, yc: nat, yc2: nat, u: nat, v: nat)
    requires Covers(f.p0, height, 2 * (width / 2))
    requires Covers(f.p1, (height + 1) / 2, width / 2) && Covers(f.p2, (height + 1) / 2, width / 2)
    requires y < height / 2 && x < VecPasses(width)
    requires yc == (2 * y) * f.p0.stride && yc2 == yc + f.p0.stride
    requires u == y * f.p1.stride && v == y * f.p2.stride
    ensures yc2 == (2 * y + 1) * f.p0.stride && (2 * y + 1) / 2 == y && (2 * y) / 2 == y
    ensures yc + 32 * x + 32 <= |f.p0.bytes| && yc2 + 32 * x + 32 <= |f.p0.bytes|
    ensures u + 16 * x + 16 <= |f.p1.bytes| && v + 16 * x + 16 <= |f.p2.bytes|
  {
    VecPassesFit(width);
    assert yc2 == (2 * y + 1) * f.p0.stride;
    CoversAt(f.p0, height, 2 * (width / 2), 2 * y, 32 * x + 31);
    CoversAt(f.p0, height, 2 * (width / 2), 2 * y + 1, 32 * x + 31);
    CoversAt(f.p1, (height + 1) / 2, width / 2, y, 16 * x + 15);
    CoversAt(f.p2, (height + 1) / 2, width / 2, y, 16 * x + 15);
  }

  /** Output vector 4x + q of output row r holds the row's 2vuy bytes
      64x + 16q .. 64x + 16q + 15, when lo and hi are the luma loads of row
      r (at plane offset yoff) and uv, vv the chroma loads of chroma row
      y = r / 2 (at offsets u and v). */
  lemma PassVecBytes(f: Frame, r: nat, y: nat, x: nat, q: nat, c: nat, yoff: nat, u: nat, v: nat,
                     uv: seq<bv8>, vv: seq<bv8>, lo: seq<bv8>, hi: seq<bv8>)
    requires q < 4 && y == r / 2 && c == 64 * x + 16 * q
    requires yoff == r * f.p0.stride && yoff + 32 * x + 32 <= |f.p0.bytes|
    requires u == y * f.p1.stride && u + 16 * x + 16 <= |f.p1.bytes|
    requires v == y * f.p2.stride && v + 16 * x + 16 <= |f.p2.bytes|
    requires lo == f.p0.bytes[yoff + 32 * x .. yoff + 32 * x + 16]
    requires hi == f.p0.bytes[yoff + 32 * x + 16 .. yoff + 32 * x + 32]
    requires uv == f.p1.bytes[u + 16 * x .. u + 16 * x + 16] && vv == f.p2.bytes[v + 16 * x .. v + 16 * x + 16]
    ensures forall j | 0 <= j < 16 :: Pack2vuy(uv, vv, lo, hi, q)[j] == Y420Byte(f, r, c + j)
  {
    VecLoad(f.p0, r, 32 * x, yoff, lo);
    VecLoad(f.p0, r, 32 * x + 16, yoff, hi);
    VecLoad(f.p1, y, 16 * x, u, uv);
    VecLoad(f.p2, y, 16 * x, v, vv);
    forall j | 0 <= j < 16
      ensures Pack2vuy(uv, vv, lo, hi, q)[j] == Y420Byte(f, r, c + j)
    {
      Y420Lane(f, r, y, x, uv, vv, lo, hi, q, c, j);
    }
  }

  /** A 16-byte store of the row's bytes c .. c + 15 at p, in the form the
      progress lemmas take it. */
  lemma VecRun(s: seq<bv8>, s': seq<bv8>, f: Frame, r: nat, c: nat, vec: seq<bv8>, p: nat)
    requires IsVec(vec) && p + 16 <= |s| && s' == s[..p] + vec + s[p + 16..]
    requires forall j | 0 <= j < 16 :: vec[j] == Y420Byte(f, r, c + j)
    ensures |s'| == |s|
    ensures forall i | p <= i < p + 16 :: s'[i] == Y420Bytes(f)(r, c + (i - p))
    ensures forall i | 0 <= i < |s| && !(p <= i < p + 16) :: s'[i] == s[i]
  {
    forall i | p <= i < p + 16
      ensures s'[i] == Y420Bytes(f)(r, c + (i - p))
    {
      assert s'[i] == vec[i - p];
    }
  }

  /** The bytes a store of output vector 4x + q of output row r at p writes:
      the row's 2vuy bytes c .. c + 15, and nothing else. */
  lemma Y420StoreBytes(s: seq<bv8>, s': seq<bv8>, f: Frame, r: nat, y: nat, x: nat, q: nat, c: nat,
                       yoff: nat, u: nat, v: nat, uv: seq<bv8>, vv: seq<bv8>, lo: seq<bv8>, hi: seq<bv8>, p: nat)
    requires q < 4 && y == r / 2 && c == 64 * x + 16 * q
    requires yoff == r * f.p0.stride && yoff + 32 * x + 32 <= |f.p0.bytes|
    requires u == y * f.p1.stride && u + 16 * x + 16 <= |f.p1.bytes|
    requires v == y * f.p2.stride && v + 16 * x + 16 <= |f.p2.bytes|
    requires lo == f.p0.bytes[yoff + 32 * x .. yoff + 32 * x + 16]
    requires hi == f.p0.bytes[yoff + 32 * x + 16 .. yoff + 32 * x + 32]
    requires uv == f.p1.bytes[u + 16 * x .. u + 16 * x + 16] && vv == f.p2.bytes[v + 16 * x .. v + 16 * x + 16]
    requires p + 16 <= |s| && s' == s[..p] + Pack2vuy(uv, vv, lo, hi, q) + s[p + 16..]
    ensures |s'| == |s|
    ensures forall i | p <= i < p + 16 :: s'[i] == Y420Bytes(f)(r, c + (i - p))
    ensures forall i | 0 <= i < |s| && !(p <= i < p + 16) :: s'[i] == s[i]
  {
    PassVecBytes(f, r, y, x, q, c, yoff, u, v, uv, vv, lo, hi);
    VecRun(s, s', f, r, c, Pack2vuy(uv, vv, lo, hi, q), p);
  }

  /** Storing output vector 4x + q of output row r (2y when second is
      false, 2y + 1 when it is true) extends that row's progress by 16
      bytes; lo and hi are that row's luma loads at plane offset yoff, uv and
      vv the chroma loads of chroma row y at offsets u and v. */
  lemma Y420StoreStep(s: seq<bv8>, s': seq<bv8>, orig: seq<bv8>, f: Frame, d: Dest, width: nat,
                      y: nat, x: nat, q: nat, second: bool, k0: nat, k1: nat,
                      yoff: nat, u: nat, v: nat, uv: seq<bv8>, vv: seq<bv8>, lo: seq<bv8>, hi: seq<bv8>, p: nat)
    requires Progress(s, orig, d, Extent2vuy(width), Y420Bytes(f), 2 * y, k0, k1)
    requires Extent2vuy(width) <= d.rb && x < VecPasses(width) && q < 4
    requires (if second then k1 else k0) == 64 * x + 16 * q
    requires yoff == (if second then 2 * y + 1 else 2 * y) * f.p0.stride && yoff + 32 * x + 32 <= |f.p0.bytes|
    requires u == y * f.p1.stride && u + 16 * x + 16 <= |f.p1.bytes|
    requires v == y * f.p2.stride && v + 16 * x + 16 <= |f.p2.bytes|
    requires lo == f.p0.bytes[yoff + 32 * x .. yoff + 32 * x + 16]
    requires hi == f.p0.bytes[yoff + 32 * x + 16 .. yoff + 32 * x + 32]
    requires uv == f.p1.bytes[u + 16 * x .. u + 16 * x + 16] && vv == f.p2.bytes[v + 16 * x .. v + 16 * x + 16]
    requires p == At(d, if second then 2 * y + 1 else 2 * y, 64 * x + 16 * q) && p + 16 <= |s|
    requires s' == s[..p] + Pack2vuy(uv, vv, lo, hi, q) + s[p + 16..]
    ensures Progress(s', orig, d, Extent2vuy(width), Y420Bytes(f), 2 * y,
                     if second then k0 else k0 + 16, if second then k1 + 16 else k1)
  {
    VecPassesFit(width);
    var r, c := (if second then 2 * y + 1 else 2 * y), 64 * x + 16 * q;
    Y420StoreBytes(s, s', f, r, y, x, q, c, yoff, u, v, uv, vv, lo, hi, p);
    PaintRunAt(s, s', orig, d, Extent2vuy(width), Y420Bytes(f), 2 * y, k0, k1, second, 16, r, c, p);
  }

  /** The four stores of vector pass x into one output row of row pair y
      (the first row, or the second when `second`), from the chroma pairs
      cl, ch and the luma vectors lo, hi of that row. */
  method Y420VecStores(dst: array<bv8>, p: nat, cl: seq<bv8>, ch: seq<bv8>, lo: seq<bv8>, hi: seq<bv8>,
                       ghost f: Frame, ghost d: Dest, ghost width: nat, ghost y: nat, ghost x: nat,
                       ghost second: bool, ghost k0: nat, ghost k1: nat, ghost yoff: nat, ghost u: nat,
                       ghost v: nat, ghost uv: seq<bv8>, ghost vv: seq<bv8>, ghost orig: seq<bv8>)
    requires Progress(dst[..], orig, d, Extent2vuy(width), Y420Bytes(f), 2 * y, k0, k1)
    requires Extent2vuy(width) <= d.rb && x < VecPasses(width)
    requires (if second then k1 else k0) == 64 * x
    requires yoff == (if second then 2 * y + 1 else 2 * y) * f.p0.stride && yoff + 32 * x + 32 <= |f.p0.bytes|
    requires u == y * f.p1.stride && u + 16 * x + 16 <= |f.p1.bytes|
    requires v == y * f.p2.stride && v + 16 * x + 16 <= |f.p2.bytes|
    requires lo == f.p0.bytes[yoff + 32 * x .. yoff + 32 * x + 16]
    requires hi == f.p0.bytes[yoff + 32 * x + 16 .. yoff + 32 * x + 32]
    requires uv == f.p1.bytes[u + 16 * x .. u + 16 * x + 16] && vv == f.p2.bytes[v + 16 * x .. v + 16 * x + 16]
    requires cl == UnpackLo(uv, vv) && ch == UnpackHi(uv, vv)
    requires p == At(d, if second then 2 * y + 1 else 2 * y, 64 * x) && p + 64 <= dst.Length
    modifies dst
    ensures Progress(dst[..], orig, d, Extent2vuy(width), Y420Bytes(f), 2 * y,
                     if second then k0 else k0 + 64, if second then k1 + 64 else k1)
  {
    PackFromChroma(uv, vv, lo, hi, cl, ch);
    ghost var s := dst[..];
    Stream(dst, p, UnpackLo(cl, lo));
    Y420StoreStep(s, dst[..], orig, f, d, width, y, x, 0, second, k0, k1, yoff, u, v, uv, vv, lo, hi, p);
    s := dst[..];
    Stream(dst, p + 16, UnpackHi(cl, lo));
    Y420StoreStep(s, dst[..], orig, f, d, width, y, x, 1, second, if second then k0 else k0 + 16,
                  if second then k1 + 16 else k1, yoff, u, v, uv, vv, lo, hi, p + 16);
    s := dst[..];
    Stream(dst, p + 32, UnpackLo(ch, hi));
    Y420StoreStep(s, dst[..], orig, f, d, width, y, x, 2, second, if second then k0 else k0 + 32,
                  if second then k1 + 32 else k1, yoff, u, v, uv, vv, lo, hi, p + 32);
    s := dst[..];
    Stream(dst, p + 48, UnpackHi(ch, hi));
    Y420StoreStep(s, dst[..], orig, f, d, width, y, x, 3, second, if second then k0 else k0 + 48,
                  if second then k1 + 48 else k1, yoff, u, v, uv, vv, lo, hi, p + 48);
  }

  /** The vector loop of Y420toY422_sse2 over row pair y: pass x loads luma
      vectors 2x and 2x + 1 of both luma rows and chroma vector x, and stores
      output vectors 4x .. 4x + 3 of both output rows. */
  method Y420VecRowPair(f: Frame, dst: array<bv8>, d: Dest, width: nat, height: nat, y: nat,
                        o: nat, o2: nat, yc: nat, yc2: nat, u: nat, v: nat, ghost orig: seq<bv8>)
    requires Y420Pre(f, d, width, height, dst.Length) && y < height / 2
    requires o == At(d, 2 * y, 0) && o2 == At(d, 2 * y + 1, 0)
    requires yc == (2 * y) * f.p0.stride && yc2 == yc + f.p0.stride
    requires u == y * f.p1.stride && v == y * f.p2.stride
    requires Progress(dst[..], orig, d, Extent2vuy(width), Y420Bytes(f), 2 * y, 0, 0)
    modifies dst
    ensures Progress(dst[..], orig, d, Extent2vuy(width), Y420Bytes(f), 2 * y,
                     64 * VecPasses(width), 64 * VecPasses(width))
  {
    VecPassesFit(width);
    for x := 0 to VecPasses(width)
      invariant Progress(dst[..], orig, d, Extent2vuy(width), Y420Bytes(f), 2 * y, 64 * x, 64 * x)
    {
      var x2, x4 := x * 2, x * 4;
      Y420VecBounds(f, width, height, y, x, yc, yc2, u, v);
      var tmpY, tmpY3 := f.p0.bytes[yc + 16 * x2 .. yc + 16 * x2 + 16], f.p0.bytes[yc + 16 * x2 + 16 .. yc + 16 * x2 + 32];
      var tmpY2, tmpY4 := f.p0.bytes[yc2 + 16 * x2 .. yc2 + 16 * x2 + 16], f.p0.bytes[yc2 + 16 * x2 + 16 .. yc2 + 16 * x2 + 32];
      var tmpU, tmpV := f.p1.bytes[u + 16 * x .. u + 16 * x + 16], f.p2.bytes[v + 16 * x .. v + 16 * x + 16];
      var chromaL, chromaH := UnpackLo(tmpU, tmpV), UnpackHi(tmpU, tmpV);
      PairSlots(d, height, Extent2vuy(width), dst.Length, 2 * y, 64 * x, 64, o, o2);
      Y420VecStores(dst, o + 16 * x4, chromaL, chromaH, tmpY, tmpY3, f, d, width, y, x, false,
                    64 * x, 64 * x, yc, u, v, tmpU, tmpV, orig);
      Y420VecStores(dst, o2 + 16 * x4, chromaL, chromaH, tmpY2, tmpY4, f, d, width, y, x, true,
                    64 * x + 64, 64 * x, yc2, u, v, tmpU, tmpV, orig);
    }
  }

  /** Y420toY422_sse2. The aligned luma loads need 16-byte aligned luma rows,
      which the dispatcher guarantees by choosing this converter only for a
      luma stride that is a multiple of 16. */
  method Y420toY422Sse2(f: Frame, dst: array<bv8>, d: Dest, width: nat, height: nat)
    requires Y420Pre(f, d, width, height, dst.Length) && f.p0.stride % 16 == 0
    modifies dst
    ensures dst[..] == Y420Image(f, d, width, height, old(dst[..]))
  {
    var yc, u, v := 0, 0, 0;
    var rY, rU, rV := f.p0.stride, f.p1.stride, f.p2.stride;
    var halfwidth, halfheight := width / 2, height / 2;
    var vWidth := VecPasses(width);
    var o, outRB := d.off, d.rb;
    ghost var orig := dst[..];
    ghost var ext := Extent2vuy(width);
    ghost var E := Y420Bytes(f);
    VecPassesFit(width);
    ProgressStart(orig, d, ext, E);
    for y := 0 to halfheight
      invariant o == At(d, 2 * y, 0) && yc == (2 * y) * rY && u == y * rU && v == y * rV
      invariant Progress(dst[..], orig, d, ext, E, 2 * y, 0, 0)
    {
      var o2, yc2 := o + outRB, yc + rY;
      AtNext(d, 2 * y, 0);
      Y420VecRowPair(f, dst, d, width, height, y, o, o2, yc, yc2, u, v, orig);
      assert 4 * (vWidth * 16) == 64 * vWidth;
      Y420RowPair(f, dst, d, width, height, y, vWidth * 16, o, o2, yc, yc2, u, v, orig);
      ProgressAdvance(dst[..], orig, d, ext, E, 2 * y, ext);
      ProgressAdvance(dst[..], orig, d, ext, E, 2 * y + 1, 0);
      AtNext(d, 2 * y + 1, 0);
      MulStep(y, rY);
      MulStep(y, rU);
      MulStep(y, rV);
      o := o + outRB * 2;
      yc := yc + rY * 2;
      u := u + rU;
      v := v + rV;
    }
    HandleLastRow(f, dst, d, width, height, o, yc, u, v, orig);
  }

  /** The SSE2 and the scalar converter give the same destination bytes for
      the same frame and the same initial destination. */
  method Sse2MatchesScalar(f: Frame, init: seq<bv8>, d: Dest, width: nat, height: nat)
    returns (fast: seq<bv8>, slow: seq<bv8>)
    requires Y420Pre(f, d, width, height, |init|) && f.p0.stride % 16 == 0
    ensures fast == slow && slow == Y420Image(f, d, width, height, init)
  {
    var a := new bv8[|init|](i requires 0 <= i < |init| => init[i]);
    var b := new bv8[|init|](i requires 0 <= i < |init| => init[i]);
    assert a[..] == init && b[..] == init;
    Y420toY422Sse2(f, a, d, width, height);
    Y420toY422Scalar(f, b, d, width, height);
    fast, slow := a[..], b[..];
  }
}
