/** The SSE2 operations the 4:2:0 fast path uses, on 16-byte vectors
    (an __m128i is modelled as its 16 bytes, lowest address first). */
module Simd {

  /** A 16-byte vector. */
  predicate IsVec(v: seq<bv8>)
  {
    |v| == 16
  }

  /** _mm_unpacklo_epi8: interleave the low 8 bytes of a and b, a first. */
  function UnpackLo(a: seq<bv8>, b: seq<bv8>): (r: seq<bv8>)
    requires IsVec(a) && IsVec(b)
    ensures IsVec(r)
  {
    seq(16, i requires 0 <= i < 16 => if i % 2 == 0 then a[i / 2] else b[i / 2])
  }

  /** _mm_unpackhi_epi8: interleave the high 8 bytes of a and b, a first. */
  function UnpackHi(a: seq<bv8>, b: seq<bv8>): (r: seq<bv8>)
    requires IsVec(a) && IsVec(b)
    ensures IsVec(r)
  {
    seq(16, i requires 0 <= i < 16 => if i % 2 == 0 then a[8 + i / 2] else b[8 + i / 2])
  }

  /** unpacklo puts byte k of a at 2k and byte k of b at 2k + 1, for k < 8. */
  lemma UnpackLoPairs(a: seq<bv8>, b: seq<bv8>, k: nat)
    requires IsVec(a) && IsVec(b) && k < 8
    ensures UnpackLo(a, b)[2 * k] == a[k] && UnpackLo(a, b)[2 * k + 1] == b[k]
  {
  }

  /** unpackhi puts byte 8 + k of a at 2k and byte 8 + k of b at 2k + 1, for k < 8. */
  lemma UnpackHiPairs(a: seq<bv8>, b: seq<bv8>, k: nat)
    requires IsVec(a) && IsVec(b) && k < 8
    ensures UnpackHi(a, b)[2 * k] == a[8 + k] && UnpackHi(a, b)[2 * k + 1] == b[8 + k]
  {
  }

  /** Byte t of a 2vuy group (Cb, Y0, Cr, Y1). */
  function TwoVuy(u: bv8, y0: bv8, v: bv8, y1: bv8, t: nat): bv8
  {
    if t == 0 then u else if t == 1 then y0 else if t == 2 then v else y1
  }

  /** Output vector q (0..3) of one vector pass over one 2vuy row: chroma
      vectors u, v interleaved into chroma pairs, then pairs interleaved with
      the luma vectors lo (luma 0..15) and hi (luma 16..31). */
  function Pack2vuy(u: seq<bv8>, v: seq<bv8>, lo: seq<bv8>, hi: seq<bv8>, q: nat): (r: seq<bv8>)
    requires IsVec(u) && IsVec(v) && IsVec(lo) && IsVec(hi)
    ensures IsVec(r)
  {
    if q == 0 then UnpackLo(UnpackLo(u, v), lo)
    else if q == 1 then UnpackHi(UnpackLo(u, v), lo)
    else if q == 2 then UnpackLo(UnpackHi(u, v), hi)
    else UnpackHi(UnpackHi(u, v), hi)
  }

  /** The four output vectors of a pass, from the chroma pairs
      cl = unpacklo(u, v) and ch = unpackhi(u, v). */
  lemma PackFromChroma(u: seq<bv8>, v: seq<bv8>, lo: seq<bv8>, hi: seq<bv8>, cl: seq<bv8>, ch: seq<bv8>)
    requires IsVec(u) && IsVec(v) && IsVec(lo) && IsVec(hi)
    requires cl == UnpackLo(u, v) && ch == UnpackHi(u, v)
    ensures Pack2vuy(u, v, lo, hi, 0) == UnpackLo(cl, lo) && Pack2vuy(u, v, lo, hi, 1) == UnpackHi(cl, lo)
    ensures Pack2vuy(u, v, lo, hi, 2) == UnpackLo(ch, hi) && Pack2vuy(u, v, lo, hi, 3) == UnpackHi(ch, hi)
  {
  }

  /** Lanes of unpacklo(unpacklo(u, v), l): groups of chroma 0..3 with luma 0..7. */
  lemma LaneLoLo(u: seq<bv8>, v: seq<bv8>, l: seq<bv8>, j: nat)
    requires IsVec(u) && IsVec(v) && IsVec(l) && j < 16
    ensures UnpackLo(UnpackLo(u, v), l)[j] == TwoVuy(u[0 + j / 4], l[2 * (j / 4)], v[0 + j / 4], l[2 * (j / 4) + 1], j % 4)
  {
    match j
      case 0 =>
      case 1 =>
      case 2 =>
      case 3 =>
      case 4 =>
      case 5 =>
      case 6 =>
      case 7 =>
      case 8 =>
      case 9 =>
      case 10 =>
      case 11 =>
      case 12 =>
      case 13 =>
      case 14 =>
      case _ =>
  }

  /** Lanes of unpackhi(unpacklo(u, v), l): groups of chroma 4..7 with luma 8..15. */
  lemma LaneHiLo(u: seq<bv8>, v: seq<bv8>, l: seq<bv8>, j: nat)
    requires IsVec(u) && IsVec(v) && IsVec(l) && j < 16
    ensures UnpackHi(UnpackLo(u, v), l)[j] == TwoVuy(u[4 + j / 4], l[8 + 2 * (j / 4)], v[4 + j / 4], l[8 + 2 * (j / 4) + 1], j % 4)
  {
    match j
      case 0 =>
      case 1 =>
      case 2 =>
      case 3 =>
      case 4 =>
      case 5 =>
      case 6 =>
      case 7 =>
      case 8 =>
      case 9 =>
      case 10 =>
      case 11 =>
      case 12 =>
      case 13 =>
      case 14 =>
      case _ =>
  }

  /** Lanes of unpacklo(unpackhi(u, v), l): groups of chroma 8..11 with luma 0..7 of l. */
  lemma LaneLoHi(u: seq<bv8>, v: seq<bv8>, l: seq<bv8>, j: nat)
    requires IsVec(u) && IsVec(v) && IsVec(l) && j < 16
    ensures UnpackLo(UnpackHi(u, v), l)[j] == TwoVuy(u[8 + j / 4], l[2 * (j / 4)], v[8 + j / 4], l[2 * (j / 4) + 1], j % 4)
  {
    match j
      case 0 =>
      case 1 =>
      case 2 =>
      case 3 =>
      case 4 =>
      case 5 =>
      case 6 =>
      case 7 =>
      case 8 =>
      case 9 =>
      case 10 =>
      case 11 =>
      case 12 =>
      case 13 =>
      case 14 =>
      case _ =>
  }

  /** Lanes of unpackhi(unpackhi(u, v), l): groups of chroma 12..15 with luma 8..15 of l. */
  lemma LaneHiHi(u: seq<bv8>, v: seq<bv8>, l: seq<bv8>, j: nat)
    requires IsVec(u) && IsVec(v) && IsVec(l) && j < 16
    ensures UnpackHi(UnpackHi(u, v), l)[j] == TwoVuy(u[12 + j / 4], l[8 + 2 * (j / 4)], v[12 + j / 4], l[8 + 2 * (j / 4) + 1], j % 4)
  {
    match j
      case 0 =>
      case 1 =>
      case 2 =>
      case 3 =>
      case 4 =>
      case 5 =>
      case 6 =>
      case 7 =>
      case 8 =>
      case 9 =>
      case 10 =>
      case 11 =>
      case 12 =>
      case 13 =>
      case 14 =>
      case _ =>
  }

  /** _mm_stream_si128: store the 16 bytes of v at dst[p .. p + 16]. */
  method Stream(dst: array<bv8>, p: nat, v: seq<bv8>)
    requires IsVec(v) && p + 16 <= dst.Length
    modifies dst
    ensures dst[..] == old(dst[..])[..p] + v + old(dst[..])[p + 16..]
  {
    forall j | 0 <= j < 16 {
      dst[p + j] := v[j];
    }
    assert dst[..] == old(dst[..])[..p] + v + old(dst[..])[p + 16..];
  }
}
