/** Shared row-iteration helpers: source planes, destination descriptors, and
    the "painted image" that every converter and clearer produces.

    A destination byte at array index i belongs to row (i - off) / rb and
    column (i - off) % rb.  A converter writes `ext` bytes of each of `rows`
    rows and nothing else; `Paint` is the array content that results. */
module Raster {

  /** One source plane: the bytes the decoder owns and its row stride
      (an AVFrame's data[k] and linesize[k]). */
  datatype Plane = Plane(bytes: seq<bv8>, stride: nat)

  /** A decoded frame: up to four planes (data[0..3] / linesize[0..3]).
      Planar YUV uses p0 = luma, p1 = Cb, p2 = Cr, p3 = alpha; packed RGB uses p0 only. */
  datatype Frame = Frame(p0: Plane, p1: Plane, p2: Plane, p3: Plane)

  /** Destination descriptor: base offset into the caller's array and its row bytes. */
  datatype Dest = Dest(off: nat, rb: nat)

  /** Byte i of a plane; reads past the end (which no converter performs under
      its precondition) yield 0 so that the specification functions are total. */
  function Byte(p: Plane, i: nat): bv8
  {
    if i < |p.bytes| then p.bytes[i] else 0
  }

  /** The sample at row r, byte column c of a plane. */
  function Sample(p: Plane, r: nat, c: nat): bv8
  {
    Byte(p, r * p.stride + c)
  }

  /** The plane holds at least `rows` rows of `cols` readable bytes. */
  predicate Covers(p: Plane, rows: nat, cols: nat)
  {
    rows == 0 || cols == 0 || (rows - 1) * p.stride + cols <= |p.bytes|
  }

  /** Array index of row r, column c of the destination. */
  function At(d: Dest, r: nat, c: nat): nat
  {
    d.off + r * d.rb + c
  }

  function RowOf(d: Dest, i: nat): nat
    requires d.rb > 0 && d.off <= i
  {
    (i - d.off) / d.rb
  }

  function ColOf(d: Dest, i: nat): nat
    requires d.rb > 0 && d.off <= i
  {
    (i - d.off) % d.rb
  }

  /** The destination array of length n holds `rows` rows of `ext` bytes. */
  predicate Fits(d: Dest, rows: nat, ext: nat, n: nat)
  {
    rows == 0 || ext == 0 || At(d, rows - 1, ext - 1) < n
  }

  /** Index i lies in the first `ext` bytes of one of the first `rows` rows. */
  predicate InRegion(d: Dest, i: nat, rows: nat, ext: nat)
  {
    d.rb > 0 && d.off <= i && RowOf(d, i) < rows && ColOf(d, i) < ext
  }

  /** The destination after writing E(r, c) at row r < rows, column c < ext,
      starting from `orig`; every other byte keeps its value. */
  function Paint(orig: seq<bv8>, d: Dest, rows: nat, ext: nat, E: (nat, nat) -> bv8): (s: seq<bv8>)
    ensures |s| == |orig|
  {
    seq(|orig|, i requires 0 <= i < |orig| =>
      if InRegion(d, i, rows, ext) then E(RowOf(d, i), ColOf(d, i)) else orig[i])
  }

  /** Loop progress: rows below `full` are complete, row `full` has its first
      k0 bytes and row `full + 1` its first k1 bytes. */
  predicate Done(d: Dest, i: nat, ext: nat, full: nat, k0: nat, k1: nat)
  {
    d.rb > 0 && d.off <= i &&
    ((RowOf(d, i) < full && ColOf(d, i) < ext) ||
     (RowOf(d, i) == full && ColOf(d, i) < k0) ||
     (RowOf(d, i) == full + 1 && ColOf(d, i) < k1))
  }

  /** Byte i of s, under its own name so that the progress invariant below is
      only instantiated where a proof asks for it. */
  function Cell(s: seq<bv8>, i: nat): bv8
    requires i < |s|
  {
    s[i]
  }

  /** s is orig with exactly the bytes that `Done` names painted. */
  ghost predicate Progress(s: seq<bv8>, orig: seq<bv8>, d: Dest, ext: nat, E: (nat, nat) -> bv8,
                           full: nat, k0: nat, k1: nat)
  {
    |s| == |orig| &&
    forall i | 0 <= i < |s| ::
      Cell(s, i) == if Done(d, i, ext, full, k0, k1) then E(RowOf(d, i), ColOf(d, i)) else orig[i]
  }

  // ---------------------------------------------------------------------
  // Arithmetic on indices

  lemma DivModUnique(n: int, m: int, q: int, rem: int)
    requires m > 0 && 0 <= rem < m && n == q * m + rem
    ensures n / m == q && n % m == rem
  {
    var q', r' := n / m, n % m;
    assert n == q' * m + r';
    if q' < q {
      assert (q - q') * m == r' - rem;
      MulAtLeast(q - q', m);
    } else if q < q' {
      assert (q' - q) * m == rem - r';
      MulAtLeast(q' - q, m);
    }
  }

  lemma MulAtLeast(a: int, m: int)
    requires a >= 1 && m > 0
    ensures a * m >= m
  {
  }

  lemma MulLe(a: nat, b: nat, k: nat)
    requires a <= b
    ensures a * k <= b * k
  {
  }

  /** Offsets of row y + 1 and row 2(y + 1) from those of rows y and 2y. */
  lemma MulStep(y: nat, k: nat)
    ensures (y + 1) * k == y * k + k && (2 * (y + 1)) * k == (2 * y) * k + k * 2
  {
  }

  /** Row r, column c < rb really is the byte At(d, r, c). */
  lemma RowCol(d: Dest, r: nat, c: nat)
    requires c < d.rb
    ensures RowOf(d, At(d, r, c)) == r && ColOf(d, At(d, r, c)) == c
  {
    DivModUnique(r * d.rb + c, d.rb, r, c);
  }

  /** Every index at or after the base is some row and column. */
  lemma AtRowCol(d: Dest, i: nat)
    requires d.rb > 0 && d.off <= i
    ensures ColOf(d, i) < d.rb && i == At(d, RowOf(d, i), ColOf(d, i))
  {
  }

  /** The next row of the same column is one stride further. */
  lemma AtNext(d: Dest, r: nat, c: nat)
    ensures At(d, r + 1, c) == At(d, r, c) + d.rb
  {
    assert (r + 1) * d.rb == r * d.rb + d.rb;
  }

  /** Under Fits, every written byte is inside the array. */
  lemma FitsAt(d: Dest, rows: nat, ext: nat, n: nat, r: nat, c: nat)
    requires Fits(d, rows, ext, n) && r < rows && c < ext
    ensures At(d, r, c) < n
  {
    MulLe(r, rows - 1, d.rb);
  }

  /** The w bytes from column c of rows r and r + 1 (which start at o and o2)
      lie inside the array, the first run entirely before the second. */
  lemma PairSlots(d: Dest, rows: nat, ext: nat, n: nat, r: nat, c: nat, w: nat, o: nat, o2: nat)
    requires Fits(d, rows, ext, n) && ext <= d.rb && r + 1 < rows && 0 < w && c + w <= ext
    requires o == At(d, r, 0) && o2 == At(d, r + 1, 0)
    ensures At(d, r, c) == o + c && At(d, r + 1, c) == o2 + c
    ensures o + c + w <= o2 && o2 + c + w <= n
  {
    AtNext(d, r, 0);
    FitsAt(d, rows, ext, n, r + 1, c + w - 1);
  }

  /** The w bytes from column c of row r (which starts at o) lie inside the array. */
  lemma RowSlot(d: Dest, rows: nat, ext: nat, n: nat, r: nat, c: nat, w: nat, o: nat)
    requires Fits(d, rows, ext, n) && r < rows && 0 < w && c + w <= ext
    requires o == At(d, r, 0)
    ensures At(d, r, c) == o + c && o + c + w <= n
  {
    FitsAt(d, rows, ext, n, r, c + w - 1);
  }

  /** Under Covers, every sample a converter reads is inside the plane. */
  lemma CoversAt(p: Plane, rows: nat, cols: nat, r: nat, c: nat)
    requires Covers(p, rows, cols) && r < rows && c < cols
    ensures r * p.stride + c < |p.bytes|
  {
    MulLe(r, rows - 1, p.stride);
  }

  /** A read at plane offset off + c, with off the start of row r, is the
      sample at row r, column c, and lies inside the plane. */
  lemma PlaneRead(p: Plane, rows: nat, cols: nat, r: nat, c: nat, off: nat)
    requires Covers(p, rows, cols) && r < rows && c < cols && off == r * p.stride
    ensures off + c < |p.bytes| && p.bytes[off + c] == Sample(p, r, c)
  {
    CoversAt(p, rows, cols, r, c);
  }

  // ---------------------------------------------------------------------
  // The C library's block operations

  /** memcpy(dst + o, src + from, n). */
  method MemCopy(dst: array<bv8>, o: nat, src: seq<bv8>, from: nat, n: nat)
    requires n > 0 ==> o + n <= dst.Length && from + n <= |src|
    modifies dst
    ensures forall i | 0 <= i < dst.Length ::
      dst[i] == if o <= i < o + n then src[from + (i - o)] else old(dst[i])
  {
    forall i | o <= i < o + n {
      dst[i] := src[from + (i - o)];
    }
  }

  /** memset(dst + o, b, n). */
  method MemSet(dst: array<bv8>, o: nat, b: bv8, n: nat)
    requires n > 0 ==> o + n <= dst.Length
    modifies dst
    ensures forall i | 0 <= i < dst.Length :: dst[i] == if o <= i < o + n then b else old(dst[i])
  {
    forall i | o <= i < o + n {
      dst[i] := b;
    }
  }

  /** Copying `ext` bytes of source row y (at plane offset yoff) to the start
      of output row y completes that row, when the row's expected bytes are
      the source row's bytes. */
  lemma CopyRow(s: seq<bv8>, s': seq<bv8>, orig: seq<bv8>, d: Dest, ext: nat, E: (nat, nat) -> bv8,
                y: nat, p: nat, src: Plane, yoff: nat)
    requires Progress(s, orig, d, ext, E, y, 0, 0) && ext <= d.rb
    requires p == At(d, y, 0) && (ext > 0 ==> p + ext <= |s|) && |s'| == |s|
    requires yoff == y * src.stride && (ext > 0 ==> yoff + ext <= |src.bytes|)
    requires forall c | 0 <= c < ext :: E(y, c) == Sample(src, y, c)
    requires forall i | 0 <= i < |s| :: s'[i] == if p <= i < p + ext then src.bytes[yoff + (i - p)] else s[i]
    ensures Progress(s', orig, d, ext, E, y, ext, 0)
  {
    if ext == 0 {
      assert s' == s;
    } else {
      forall i | p <= i < p + ext ensures s'[i] == E(y, 0 + (i - p)) {
        assert E(y, i - p) == Sample(src, y, i - p);
      }
      PaintRunAt(s, s', orig, d, ext, E, y, 0, 0, false, ext, y, 0, p);
    }
  }

  /** Setting the first `ext` bytes of output row y to b completes that row,
      when every expected byte of the row is b. */
  lemma FillRow(s: seq<bv8>, s': seq<bv8>, orig: seq<bv8>, d: Dest, ext: nat, E: (nat, nat) -> bv8,
                y: nat, p: nat, b: bv8)
    requires Progress(s, orig, d, ext, E, y, 0, 0) && ext <= d.rb
    requires p == At(d, y, 0) && (ext > 0 ==> p + ext <= |s|) && |s'| == |s|
    requires forall c | 0 <= c < ext :: E(y, c) == b
    requires forall i | 0 <= i < |s| :: s'[i] == if p <= i < p + ext then b else s[i]
    ensures Progress(s', orig, d, ext, E, y, ext, 0)
  {
    if ext == 0 {
      assert s' == s;
    } else {
      forall i | p <= i < p + ext ensures s'[i] == E(y, 0 + (i - p)) {
        assert E(y, i - p) == b;
      }
      PaintRunAt(s, s', orig, d, ext, E, y, 0, 0, false, ext, y, 0, p);
    }
  }

  // ---------------------------------------------------------------------
  // What the painted image holds

  /** Inside the region, the image holds E. */
  lemma PaintAt(orig: seq<bv8>, d: Dest, rows: nat, ext: nat, E: (nat, nat) -> bv8, r: nat, c: nat)
    requires ext <= d.rb && Fits(d, rows, ext, |orig|) && r < rows && c < ext
    ensures At(d, r, c) < |orig|
    ensures Paint(orig, d, rows, ext, E)[At(d, r, c)] == E(r, c)
  {
    FitsAt(d, rows, ext, |orig|, r, c);
    RowCol(d, r, c);
  }

  /** The four bytes of a group at column k of row r, as PaintAt states one. */
  lemma PaintGroupAt(orig: seq<bv8>, d: Dest, rows: nat, ext: nat, E: (nat, nat) -> bv8, r: nat, k: nat)
    requires ext <= d.rb && Fits(d, rows, ext, |orig|) && r < rows && k + 4 <= ext
    ensures At(d, r, k + 3) < |orig|
    ensures Paint(orig, d, rows, ext, E)[At(d, r, k)] == E(r, k)
    ensures Paint(orig, d, rows, ext, E)[At(d, r, k + 1)] == E(r, k + 1)
    ensures Paint(orig, d, rows, ext, E)[At(d, r, k + 2)] == E(r, k + 2)
    ensures Paint(orig, d, rows, ext, E)[At(d, r, k + 3)] == E(r, k + 3)
  {
    PaintAt(orig, d, rows, ext, E, r, k);
    PaintAt(orig, d, rows, ext, E, r, k + 1);
    PaintAt(orig, d, rows, ext, E, r, k + 2);
    PaintAt(orig, d, rows, ext, E, r, k + 3);
  }

  /** Outside the region the image keeps the original: the padding columns
      [ext, rb) of every row, and every row at or beyond `rows`. */
  lemma PaintKeeps(orig: seq<bv8>, d: Dest, rows: nat, ext: nat, E: (nat, nat) -> bv8, r: nat, c: nat)
    requires c < d.rb && At(d, r, c) < |orig| && (r >= rows || c >= ext)
    ensures Paint(orig, d, rows, ext, E)[At(d, r, c)] == orig[At(d, r, c)]
  {
    RowCol(d, r, c);
    assert !InRegion(d, At(d, r, c), rows, ext);
  }

  /** Painting a smaller region with bytes that agree with an earlier, larger
      painting leaves that painting as it was. */
  lemma PaintOver(orig: seq<bv8>, d: Dest, rows: nat, ext1: nat, E1: (nat, nat) -> bv8, ext2: nat, E2: (nat, nat) -> bv8)
    requires ext1 <= ext2
    requires forall r: nat, c: nat | r < rows && c < ext1 :: E1(r, c) == E2(r, c)
    ensures Paint(Paint(orig, d, rows, ext2, E2), d, rows, ext1, E1) == Paint(orig, d, rows, ext2, E2)
  {
    var under := Paint(orig, d, rows, ext2, E2);
    var over := Paint(under, d, rows, ext1, E1);
    forall i | 0 <= i < |orig| ensures over[i] == under[i] {
      if InRegion(d, i, rows, ext1) {
        assert E1(RowOf(d, i), ColOf(d, i)) == E2(RowOf(d, i), ColOf(d, i));
      }
    }
  }

  /** Painting the same bytes twice gives the image of painting them once. */
  lemma PaintTwice(orig: seq<bv8>, d: Dest, rows: nat, ext: nat, E: (nat, nat) -> bv8)
    ensures Paint(Paint(orig, d, rows, ext, E), d, rows, ext, E) == Paint(orig, d, rows, ext, E)
  {
    var once := Paint(orig, d, rows, ext, E);
    var twice := Paint(once, d, rows, ext, E);
    forall i | 0 <= i < |orig| ensures twice[i] == once[i] {
    }
  }

  // ---------------------------------------------------------------------
  // Loop bookkeeping

  lemma ProgressStart(orig: seq<bv8>, d: Dest, ext: nat, E: (nat, nat) -> bv8)
    ensures Progress(orig, orig, d, ext, E, 0, 0, 0)
  {
  }

  lemma ProgressFinish(s: seq<bv8>, orig: seq<bv8>, d: Dest, rows: nat, ext: nat, E: (nat, nat) -> bv8)
    requires Progress(s, orig, d, ext, E, rows, 0, 0)
    ensures s == Paint(orig, d, rows, ext, E)
  {
    forall i | 0 <= i < |s| ensures s[i] == Paint(orig, d, rows, ext, E)[i] {
      assert Cell(s, i) == s[i];
      assert Done(d, i, ext, rows, 0, 0) == InRegion(d, i, rows, ext);
    }
  }

  /** A complete row `full` moves the progress to the next row. */
  lemma ProgressAdvance(s: seq<bv8>, orig: seq<bv8>, d: Dest, ext: nat, E: (nat, nat) -> bv8, full: nat, k1: nat)
    requires Progress(s, orig, d, ext, E, full, ext, k1)
    ensures Progress(s, orig, d, ext, E, full + 1, k1, 0)
  {
    forall i | 0 <= i < |s|
      ensures Done(d, i, ext, full, ext, k1) == Done(d, i, ext, full + 1, k1, 0)
    {
    }
  }

  /** The bytes of row r from column k on, up to k + m <= rb, are the
      contiguous indices [At(d, r, k), At(d, r, k) + m). */
  lemma RunIndices(d: Dest, r: nat, k: nat, m: nat, i: nat)
    requires k + m <= d.rb && d.off <= i
    ensures d.rb > 0 ==> ((RowOf(d, i) == r && k <= ColOf(d, i) < k + m) <==> At(d, r, k) <= i < At(d, r, k) + m)
    ensures At(d, r, k) <= i < At(d, r, k) + m ==> RowOf(d, i) == r && ColOf(d, i) == k + (i - At(d, r, k))
  {
    if d.rb > 0 {
      AtRowCol(d, i);
      if At(d, r, k) <= i < At(d, r, k) + m {
        RowCol(d, r, k + (i - At(d, r, k)));
      }
    }
  }

  /** Extending the progress of one row by m adds exactly that run of indices. */
  lemma DoneGrow(d: Dest, ext: nat, full: nat, k0: nat, k1: nat, second: bool, m: nat, i: nat)
    requires ext <= d.rb && (if second then k1 else k0) + m <= ext
    ensures var r, k := (if second then full + 1 else full), (if second then k1 else k0);
      Done(d, i, ext, full, if second then k0 else k0 + m, if second then k1 + m else k1) <==>
      (Done(d, i, ext, full, k0, k1) || (d.off <= i && At(d, r, k) <= i < At(d, r, k) + m))
  {
    var r, k := (if second then full + 1 else full), (if second then k1 else k0);
    if d.off <= i {
      RunIndices(d, r, k, m, i);
    }
  }

  /** Writing the next m bytes of row full (second == false) or row full + 1
      (second == true) with their E values extends that row's progress by m. */
  lemma PaintRun(s: seq<bv8>, s': seq<bv8>, orig: seq<bv8>, d: Dest, ext: nat, E: (nat, nat) -> bv8,
                 full: nat, k0: nat, k1: nat, second: bool, m: nat)
    requires Progress(s, orig, d, ext, E, full, k0, k1) && ext <= d.rb
    requires (if second then k1 else k0) + m <= ext
    requires |s'| == |s|
    requires var r, k := (if second then full + 1 else full), (if second then k1 else k0);
      At(d, r, k) + m <= |s| &&
      (forall i | At(d, r, k) <= i < At(d, r, k) + m :: s'[i] == E(r, k + (i - At(d, r, k)))) &&
      (forall i | 0 <= i < |s| && !(At(d, r, k) <= i < At(d, r, k) + m) :: s'[i] == s[i])
    ensures Progress(s', orig, d, ext, E, full,
                     if second then k0 else k0 + m, if second then k1 + m else k1)
  {
    var r, k := (if second then full + 1 else full), (if second then k1 else k0);
    var p := At(d, r, k);
    var n0, n1 := (if second then k0 else k0 + m), (if second then k1 + m else k1);
    forall i | 0 <= i < |s'|
      ensures Cell(s', i) == if Done(d, i, ext, full, n0, n1) then E(RowOf(d, i), ColOf(d, i)) else orig[i]
    {
      assert Cell(s, i) == s[i];
      DoneGrow(d, ext, full, k0, k1, second, m, i);
      if p <= i < p + m {
        RunIndices(d, r, k, m, i);
      }
    }
  }

  /** PaintRun with the written row r, its column k and the run's first
      index p named by the caller. */
  lemma PaintRunAt(s: seq<bv8>, s': seq<bv8>, orig: seq<bv8>, d: Dest, ext: nat, E: (nat, nat) -> bv8,
                   full: nat, k0: nat, k1: nat, second: bool, m: nat, r: nat, k: nat, p: nat)
    requires Progress(s, orig, d, ext, E, full, k0, k1) && ext <= d.rb
    requires r == (if second then full + 1 else full) && k == (if second then k1 else k0) && k + m <= ext
    requires p == At(d, r, k) && p + m <= |s| && |s'| == |s|
    requires forall i | p <= i < p + m :: s'[i] == E(r, k + (i - p))
    requires forall i | 0 <= i < |s| && !(p <= i < p + m) :: s'[i] == s[i]
    ensures Progress(s', orig, d, ext, E, full,
                     if second then k0 else k0 + m, if second then k1 + m else k1)
  {
    PaintRun(s, s', orig, d, ext, E, full, k0, k1, second, m);
  }

  /** Writing the next byte of row full (second == false) or row full + 1
      (second == true) with its E value extends that row's progress by one. */
  lemma PaintByte(s: seq<bv8>, s': seq<bv8>, orig: seq<bv8>, d: Dest, ext: nat, E: (nat, nat) -> bv8,
                  full: nat, k0: nat, k1: nat, second: bool)
    requires Progress(s, orig, d, ext, E, full, k0, k1) && ext <= d.rb
    requires var r, k := (if second then full + 1 else full), (if second then k1 else k0);
      k < ext && At(d, r, k) < |s| && s' == s[At(d, r, k) := E(r, k)]
    ensures Progress(s', orig, d, ext, E, full,
                     if second then k0 else k0 + 1, if second then k1 + 1 else k1)
  {
    PaintRun(s, s', orig, d, ext, E, full, k0, k1, second, 1);
  }

  /** Writing one 4-byte group at column k of both rows full and full + 1,
      byte by byte and alternating between the rows. */
  lemma PaintGroupPair(s: seq<bv8>, s': seq<bv8>, orig: seq<bv8>, d: Dest, ext: nat, E: (nat, nat) -> bv8,
                       full: nat, k: nat, p0: nat, p1: nat,
                       a0: bv8, a1: bv8, a2: bv8, a3: bv8, b0: bv8, b1: bv8, b2: bv8, b3: bv8)
    requires Progress(s, orig, d, ext, E, full, k, k) && ext <= d.rb && k + 4 <= ext
    requires p0 == At(d, full, k) && p1 == At(d, full + 1, k) && p1 + 4 <= |s|
    requires a0 == E(full, k) && a1 == E(full, k + 1) && a2 == E(full, k + 2) && a3 == E(full, k + 3)
    requires b0 == E(full + 1, k) && b1 == E(full + 1, k + 1) && b2 == E(full + 1, k + 2) && b3 == E(full + 1, k + 3)
    requires s' == s[p0 := a0][p1 := b0][p0 + 1 := a1][p1 + 1 := b1]
                    [p0 + 2 := a2][p1 + 2 := b2][p0 + 3 := a3][p1 + 3 := b3]
    ensures Progress(s', orig, d, ext, E, full, k + 4, k + 4)
  {
    AtNext(d, full, k);
    var t0 := s;
    var t1 := s[p0 := a0][p1 := b0];
    var t2 := t1[p0 + 1 := a1][p1 + 1 := b1];
    var t3 := t2[p0 + 2 := a2][p1 + 2 := b2];
    PaintPairByte(t0, t1, orig, d, ext, E, full, k, p0, p1, a0, b0);
    PaintPairByte(t1, t2, orig, d, ext, E, full, k + 1, p0 + 1, p1 + 1, a1, b1);
    PaintPairByte(t2, t3, orig, d, ext, E, full, k + 2, p0 + 2, p1 + 2, a2, b2);
    PaintPairByte(t3, s', orig, d, ext, E, full, k + 3, p0 + 3, p1 + 3, a3, b3);
  }

  /** Writing column k of both rows full and full + 1. */
  lemma PaintPairByte(s: seq<bv8>, s': seq<bv8>, orig: seq<bv8>, d: Dest, ext: nat, E: (nat, nat) -> bv8,
                      full: nat, k: nat, p0: nat, p1: nat, a: bv8, b: bv8)
    requires Progress(s, orig, d, ext, E, full, k, k) && ext <= d.rb && k < ext
    requires p0 == At(d, full, k) && p1 == At(d, full + 1, k) && p1 < |s|
    requires a == E(full, k) && b == E(full + 1, k)
    requires s' == s[p0 := a][p1 := b]
    ensures Progress(s', orig, d, ext, E, full, k + 1, k + 1)
  {
    AtNext(d, full, k);
    var t1 := s[p0 := a];
    PaintByte(s, t1, orig, d, ext, E, full, k, k, false);
    PaintByte(t1, s', orig, d, ext, E, full, k + 1, k, true);
  }

  /** Writing one group of four bytes at column k of row `full`, in order. */
  lemma PaintGroup4(s: seq<bv8>, s': seq<bv8>, orig: seq<bv8>, d: Dest, ext: nat, E: (nat, nat) -> bv8,
                    full: nat, k: nat, p: nat)
    requires Progress(s, orig, d, ext, E, full, k, 0) && ext <= d.rb && k + 4 <= ext
    requires p == At(d, full, k) && p + 4 <= |s|
    requires s' == s[p := E(full, k)][p + 1 := E(full, k + 1)][p + 2 := E(full, k + 2)][p + 3 := E(full, k + 3)]
    ensures Progress(s', orig, d, ext, E, full, k + 4, 0)
  {
    forall i | p <= i < p + 4 ensures s'[i] == E(full, k + (i - p)) {
      assert i == p || i == p + 1 || i == p + 2 || i == p + 3;
    }
    PaintRunAt(s, s', orig, d, ext, E, full, k, 0, false, 4, full, k, p);
  }

  /** Writing one group of three bytes at column k of row `full`, in order. */
  lemma PaintGroup3(s: seq<bv8>, s': seq<bv8>, orig: seq<bv8>, d: Dest, ext: nat, E: (nat, nat) -> bv8,
                    full: nat, k: nat, p: nat)
    requires Progress(s, orig, d, ext, E, full, k, 0) && ext <= d.rb && k + 3 <= ext
    requires p == At(d, full, k) && p + 3 <= |s|
    requires s' == s[p := E(full, k)][p + 1 := E(full, k + 1)][p + 2 := E(full, k + 2)]
    ensures Progress(s', orig, d, ext, E, full, k + 3, 0)
  {
    forall i | p <= i < p + 3 ensures s'[i] == E(full, k + (i - p)) {
      assert i == p || i == p + 1 || i == p + 2;
    }
    PaintRunAt(s, s', orig, d, ext, E, full, k, 0, false, 3, full, k, p);
  }

  /** Writing one group of two bytes at column k of row `full`, in order. */
  lemma PaintGroup2(s: seq<bv8>, s': seq<bv8>, orig: seq<bv8>, d: Dest, ext: nat, E: (nat, nat) -> bv8,
                    full: nat, k: nat, p: nat)
    requires Progress(s, orig, d, ext, E, full, k, 0) && ext <= d.rb && k + 2 <= ext
    requires p == At(d, full, k) && p + 2 <= |s|
    requires s' == s[p := E(full, k)][p + 1 := E(full, k + 1)]
    ensures Progress(s', orig, d, ext, E, full, k + 2, 0)
  {
    forall i | p <= i < p + 2 ensures s'[i] == E(full, k + (i - p)) {
      assert i == p || i == p + 1;
    }
    PaintRunAt(s, s', orig, d, ext, E, full, k, 0, false, 2, full, k, p);
  }
}
