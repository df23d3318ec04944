# Perian colour conversions, modelled in Dafny

This project models `ColorConversions.c` from Perian. That file is the
pixel-format conversion engine: it turns a decoded FFmpeg frame into the
layout a QuickTime buffer expects, and it paints an empty buffer black.

It has four parts:

- **Planar YUV to packed converters.**
  - 4:2:0 to 2vuy, in three pieces: the scalar one, the SSE2 one (with its scalar tail loop) and the helper for the last luma row of an odd-height frame.
  - 4:2:2 to 2vuy and 4:1:0 to 2vuy.
  - 4:2:0 with alpha to v408.
- **RGB converters.**
  - A 24-bit channel swap.
  - Straight row copies.
  - A 32-bit byte-reversing copy and a 16-bit byte-swapping copy.
- **Clearers.** They fill the first bytes of each destination row with a fixed pattern.
- **Two dispatch functions.**
  - `ColorConversionDstForPixFmt` gives the destination layout tag for a decoder pixel format.
  - `ColorConversionFindFor` picks the `{convert, clear}` pair.

## How the model is built

**Frames and buffers.**
- A frame (`Raster.Frame`) holds up to four planes. Each is a `Raster.Plane`: a byte sequence plus its stride.
- The destination is an `array<bv8>` that every converter writes in place. A `Raster.Dest` gives the array offset of row 0 and the row stride (`rowBytes` / `outRB`).
- The C pointer bumps (`o += outRB`, `yc += rY*2`, `u += rU` on every second or fourth row) become loop variables. Each one is held equal to a row index times a stride by a loop invariant.

**What each converter is proved to produce.**
- Every converter and clearer is a `method` with the loops of the C code. Each one ensures `dst[..] == <Format>Image(...)`.
- Each image is `Raster.Paint(orig, d, rows, ext, E)`: byte `E(r, c)` at row `r < rows`, column `c < ext`, and the original byte everywhere else.
- So each method says two things: exactly which bytes it writes (the first `ext` bytes of the first `rows` rows), and what each written byte is.
- The loops keep `Raster.Progress`: the bytes written so far are painted, and the rest are untouched.
- For each converter, a Layout lemma restates the image pixel by pixel in the terms the source uses: which plane, row and column each output byte comes from.

**The SSE2 converter.**
- An `__m128i` is a 16-byte sequence. `_mm_unpacklo_epi8` and `_mm_unpackhi_epi8` are the interleaves `Simd.UnpackLo` and `Simd.UnpackHi`. `_mm_stream_si128` is a 16-byte store (`Simd.Stream`).
- The SSE2 converter is proved to produce the same image as the scalar one.

**Dispatch.**
- `ColorConversionFuncs` is a class with the two fields; `FindFor` assigns them.
- The function pointers become the datatypes `Converter` and `Clearer`. A field that no call has set yet is `None`.

## Model

| member | source | states |
|---|---|---|
| Yuv420.Y420toY422LastRow | ColorConversions.c:40-52 | writes exactly `4*halfWidth` bytes from `o`; group x is (Cb[x], Y[2x], Cr[x], Y[2x+1]) from the given luma and chroma rows; all other bytes are unchanged |
| Yuv420.HandleLastRow | ColorConversions.c:54 | for an odd height, writing row `height-1` from luma row `height-1` and chroma row `height/2` completes the 4:2:0 image; for an even height nothing more is written |
| Yuv420.Y420LastRowDone | ColorConversions.c:54 | the bytes written by the last-row helper complete the image of an odd-height frame |
| Yuv420.Y420RowPair | ColorConversions.c:122-130 | the inner loop (starting at a given group) completes output rows 2y and 2y+1 |
| Yuv420.StorePair | ColorConversions.c:124-129 | the eight stores of one pass, alternating between the two rows: the buffer after them is the buffer before, with those eight bytes updated in that order |
| Yuv420.Y420Pass | ColorConversions.c:123-129 | one pass from the plane bytes it reads (Cb[x], Cr[x], luma 2x and 2x+1 of both rows) extends the progress of the row pair by one group |
| Yuv420.Y420PairStep | ColorConversions.c:124-129 | the eight bytes of group x, written into rows 2y and 2y+1, are the expected 2vuy bytes |
| Yuv420.Y420GroupPair | ColorConversions.c:124-129 | the bytes of group x in rows 2y and 2y+1 are Cb[y][x], Y[r][2x], Cr[y][x], Y[r][2x+1] |
| Yuv420.Y420Group | ColorConversions.c:124-129 | group x of output row r takes chroma row r/2, column x, and luma row r, columns 2x and 2x+1 |
| Yuv420.Y420Reads | ColorConversions.c:114-135 | the stepped luma and chroma offsets of row pair y address samples inside the planes, and those samples are the ones at (2y, 2x), (2y+1, 2x) and chroma (y, x) |
| Yuv420.Y420toY422Scalar | ColorConversions.c:112-139 | the buffer afterwards is the 4:2:0 image: rows `< height`, bytes `< 4*(width/2)` of each row hold 2vuy from luma row r and chroma row r/2; every other byte is unchanged |
| Yuv420.Y420Layout | ColorConversions.c:119-136 | for row pair y < height/2 and x < width/2, both rows carry Cb[y][x] and Cr[y][x] at bytes 4x and 4x+2, and their own luma 2x and 2x+1 at bytes 4x+1 and 4x+3 |
| Yuv420.Y420PairChroma | ColorConversions.c:124-127 | the two rows of a pair hold identical chroma bytes |
| Yuv420.Y420OddLastRow | ColorConversions.c:38-54 | for an odd height, row height-1 holds luma row height-1 and chroma row height/2 |
| Yuv420.Y420Untouched | ColorConversions.c:116-138 | no byte at a row `>= height` or a column `>= 4*(width/2)` is changed, so a trailing odd luma column is dropped |
| Simd.UnpackLoPairs | ColorConversions.c:79 | `_mm_unpacklo_epi8`: bytes 2k and 2k+1 are byte k of the first and of the second argument, for k < 8 |
| Simd.UnpackHiPairs | ColorConversions.c:80 | `_mm_unpackhi_epi8`: bytes 2k and 2k+1 are byte 8+k of the first and of the second argument, for k < 8 |
| Simd.PackFromChroma | ColorConversions.c:78-85 | the four stored vectors are unpacklo/unpackhi of chroma_l with luma `yv[x2]` and of chroma_h with `yv[x2+1]` |
| Simd.LaneLoLo | ColorConversions.c:82 | byte j of `unpacklo(unpacklo(u, v), y)` is byte j%4 of the 2vuy group (u[j/4], y[2(j/4)], v[j/4], y[2(j/4)+1]) |
| Simd.LaneHiLo | ColorConversions.c:83 | the same for `unpackhi(unpacklo(u, v), y)`, with u and v from index 4 + j/4 and luma from 8 + 2(j/4) |
| Simd.LaneLoHi | ColorConversions.c:84 | the same for `unpacklo(unpackhi(u, v), y3)`, with u and v from index 8 + j/4 |
| Simd.LaneHiHi | ColorConversions.c:85 | the same for `unpackhi(unpackhi(u, v), y3)`, with u and v from index 12 + j/4 |
| Simd.Stream | ColorConversions.c:82-90 | `_mm_stream_si128`: the 16 bytes at p become the vector; all other bytes are unchanged |
| Yuv420Sse2.VecPassesFit | ColorConversions.c:66-93 | the `width/32` vector passes cover groups `[0, 16*(width/32))` and that stays within `width/2`, so the tail loop starting at `vWidth*16` covers the rest |
| Yuv420Sse2.Y420Lane | ColorConversions.c:76-90 | byte j of stored vector q of pass x is the expected 2vuy byte at column 64x + 16q + j |
| Yuv420Sse2.Y420Lane0 | ColorConversions.c:82-87 | vector 0 of a pass holds the expected bytes |
| Yuv420Sse2.Y420Lane1 | ColorConversions.c:83-88 | vector 1 of a pass holds the expected bytes |
| Yuv420Sse2.Y420Lane2 | ColorConversions.c:84-89 | vector 2 of a pass holds the expected bytes |
| Yuv420Sse2.Y420Lane3 | ColorConversions.c:85-90 | vector 3 of a pass holds the expected bytes |
| Yuv420Sse2.GroupFromVecs | ColorConversions.c:76-80 | a byte of a pass's output group, read from the loaded vectors, is the expected byte |
| Yuv420Sse2.Y420GroupByte | ColorConversions.c:76-90 | the expected byte at column c of a row is the 2vuy byte of group c/4 built from the row's samples |
| Yuv420Sse2.VecLoad | ColorConversions.c:76-78 | a 16-byte load at offset k of a plane row is the row's samples k..k+15 |
| Yuv420Sse2.Y420VecBounds | ColorConversions.c:76-78 | the six 16-byte loads of pass x (two from each luma row of the pair, one from each chroma plane) lie inside their planes, and the second luma row starts one luma stride after the first |
| Yuv420Sse2.PassVecBytes | ColorConversions.c:76-90 | byte j of packed vector q of pass x over output row r is the 2vuy image byte of row r at column 64x+16q+j |
| Yuv420Sse2.VecRun | ColorConversions.c:82-90 | a stored vector whose bytes are the expected bytes extends the progress of its row by 16 bytes |
| Yuv420Sse2.Y420StoreBytes | ColorConversions.c:82-90 | the vector stored at each of the four slots of a row holds that slot's expected bytes |
| Yuv420Sse2.Y420StoreStep | ColorConversions.c:82-90 | storing one vector at the next slot keeps the progress invariant |
| Yuv420Sse2.Y420VecStores | ColorConversions.c:82-90 | the four stores of one row in one pass paint that row's next 64 bytes |
| Yuv420Sse2.Y420VecRowPair | ColorConversions.c:73-91 | the vector loop completes bytes `[0, 64*(width/32))` of both rows of pair y |
| Yuv420Sse2.Y420toY422Sse2 | ColorConversions.c:61-110 | with the luma stride a multiple of 16, the buffer afterwards is exactly the image the scalar converter produces |
| Yuv420Sse2.Sse2MatchesScalar | ColorConversions.c:61-139 | running both 4:2:0 converters on copies of one buffer gives equal buffers, both equal to the 4:2:0 image |
| YuvPlanar.Y422Group | ColorConversions.c:254-259 | group x of a 4:2:2 row takes chroma row r, column x, and luma columns 2x and 2x+1 |
| YuvPlanar.Y422Step | ColorConversions.c:255-259 | the four stores of group x extend the row's progress by four bytes |
| YuvPlanar.Y422Row | ColorConversions.c:254-260 | the inner loop completes the first `4*(width/2)` bytes of row y |
| YuvPlanar.Y422toY422 | ColorConversions.c:247-267 | the buffer afterwards is the 4:2:2 image: all rows from chroma row y; other bytes unchanged |
| YuvPlanar.Y422Layout | ColorConversions.c:253-260 | row r, group x is (Cb[r][x], Y[r][2x], Cr[r][x], Y[r][2x+1]) |
| YuvPlanar.Y410Group | ColorConversions.c:276-281 | group x of a 4:1:0 row takes chroma row r/4, column x/2 |
| YuvPlanar.QuarterStep | ColorConversions.c:287-290 | bumping the chroma offsets when `y % 4 == 3` keeps them equal to `((y+1)/4) * stride` |
| YuvPlanar.Y410Step | ColorConversions.c:277-281 | the four stores of group x extend the row's progress by four bytes |
| YuvPlanar.Y410Row | ColorConversions.c:276-282 | the inner loop completes the first `4*(width/2)` bytes of row y |
| YuvPlanar.Y410toY422 | ColorConversions.c:269-292 | the buffer afterwards is the 4:1:0 image; other bytes unchanged |
| YuvPlanar.Y410Layout | ColorConversions.c:275-291 | row r, group x is (Cb[r/4][x/2], Y[r][2x], Cr[r/4][x/2], Y[r][2x+1]) |
| YuvPlanar.Y410ChromaBlock | ColorConversions.c:276-291 | two groups in the same 4-row, 2-group block carry the same chroma bytes |
| YuvPlanar.V408Pixel | ColorConversions.c:150-155 | pixel x of v408 row r is (U[r/2][x/2], Y[r][x], V[r/2][x/2], A[r][x]) in the expected bytes |
| YuvPlanar.HalfStep | ColorConversions.c:160-163 | bumping the chroma offsets after odd rows keeps them equal to `((y+1)/2) * stride` |
| YuvPlanar.V408Step | ColorConversions.c:151-154 | the four stores of pixel x extend the row's progress by four bytes |
| YuvPlanar.V408Row | ColorConversions.c:150-155 | the inner loop completes the first `4*width` bytes of row y |
| YuvPlanar.YA420toV408 | ColorConversions.c:143-165 | the buffer afterwards is the v408 image: `4*width` bytes per row; other bytes unchanged |
| YuvPlanar.V408Layout | ColorConversions.c:149-164 | in the image, pixel x of row r is (U[r/2][x/2], Y[r][x], V[r/2][x/2], A[r][x]) |
| YuvPlanar.V408AgreesWithY420 | ColorConversions.c:150-155 | v408 pixels 2x and 2x+1 carry the chroma and the two luma bytes of 2vuy group x of the same frame |
| YuvPlanar.V408PixelAt | ColorConversions.c:151-154 | the four expected v408 bytes at columns 4x to 4x+3 are Cb and Cr of chroma row r/2, column x/2, and luma and alpha of row r, column x, in that order (Cb, Y, Cr, A) |
| YuvPlanar.Y420GroupAt | ColorConversions.c:124-129 | the expected 2vuy byte at column 4x+t is byte t of group x |
| Rgb.Swap3Involution | ColorConversions.c:178-180 | the 24-bit channel mirror keeps the pixel, reverses the byte within it, and is its own inverse |
| Rgb.Swap4Involution | ColorConversions.c:200 | the 32-bit byte reversal keeps the pixel, reverses the byte within it, and is its own inverse |
| Rgb.Swap2Involution | ColorConversions.c:240 | the 16-bit byte swap keeps the pixel, swaps the two bytes within it, and is its own inverse |
| Rgb.Bgr24Pixel | ColorConversions.c:178-180 | the expected bytes of pixel x are source bytes 3x+2, 3x+1, 3x |
| Rgb.Bgr24Step | ColorConversions.c:178-180 | the three stores of pixel x extend the row's progress by three bytes |
| Rgb.Bgr24Row | ColorConversions.c:175-181 | the inner loop completes the first `3*width` bytes of row y |
| Rgb.BGR24toRGB24 | ColorConversions.c:167-185 | the buffer afterwards is the swapped image; other bytes unchanged |
| Rgb.Bgr24Layout | ColorConversions.c:176-181 | dst[3x] = src[3x+2], dst[3x+1] = src[3x+1], dst[3x+2] = src[3x] in every row |
| Rgb.Bgr24Twice | ColorConversions.c:178-180 | swapping a swapped row gives back the original row |
| Rgb.RGBtoRGB | ColorConversions.c:208-220 | the buffer afterwards is the first `width*bytesPerPixel` bytes of each source row copied to each destination row, whatever the two strides; other bytes unchanged |
| Rgb.RGB24toRGB24 | ColorConversions.c:222-225 | RGBtoRGB with 3 bytes per pixel |
| Rgb.RGB16toRGB16 | ColorConversions.c:227-230 | RGBtoRGB with 2 bytes per pixel |
| Rgb.CopyLayout | ColorConversions.c:215 | byte c < ext of destination row r is byte c of source row r |
| Rgb.Rgb32Pixel | ColorConversions.c:200 | on a little-endian host the expected bytes of pixel x are source bytes 4x+3, 4x+2, 4x+1, 4x |
| Rgb.Rgb32Step | ColorConversions.c:200 | the four byte stores of one pixel extend the row's progress by four bytes |
| Rgb.Rgb32SwapRow | ColorConversions.c:198-200 | the little-endian inner loop completes the first `4*width` bytes of row y |
| Rgb.RGB32toRGB32 | ColorConversions.c:188-206 | the buffer afterwards is the 32-bit image: on a big-endian host a row copy, otherwise each 4-byte pixel reversed; other bytes unchanged |
| Rgb.Rgb32Layout | ColorConversions.c:194-200 | output byte t of pixel x is source byte 4x+t (big-endian host) or 4x+3-t (little-endian host) |
| Rgb.Rgb16LeStep | ColorConversions.c:240 | the two byte stores of one pixel extend the row's progress by two bytes |
| Rgb.Rgb16LePixel | ColorConversions.c:240 | the expected bytes of pixel x are source bytes 2x+1, 2x |
| Rgb.Rgb16LeRow | ColorConversions.c:240-241 | the inner loop completes the first `2*width` bytes of row y |
| Rgb.RGB16LEtoRGB16 | ColorConversions.c:232-245 | the buffer afterwards has each 16-bit pixel byte-swapped; other bytes unchanged |
| Rgb.Rgb16LeLayout | ColorConversions.c:240-241 | dst[2x] = src[2x+1], dst[2x+1] = src[2x] in every row |
| Raster.MemCopy | ColorConversions.c:215 | `memcpy`: the n bytes at o become the source bytes; all other bytes are unchanged |
| Raster.MemSet | ColorConversions.c:299 | `memset`: the n bytes at o become b; all other bytes are unchanged |
| Raster.Paint | ColorConversions.c:119-136 | the image of a converter or clearer has the length of the buffer |
| Raster.PaintKeeps | ColorConversions.c:294-303 | every image keeps the padding bytes `[ext, rowBytes)` of every row and every row at or beyond the height |
| Raster.PaintOver | ColorConversions.c:294-352 | painting a smaller region with bytes that agree with an earlier, larger painting leaves that painting unchanged |
| Raster.PaintTwice | ColorConversions.c:294-352 | painting an image twice gives the same result as painting it once |
| Clear.ClearRGB | ColorConversions.c:294-303 | the buffer afterwards has `width*bytesPerPixel` zero bytes at the start of each row; other bytes unchanged |
| Clear.ClearRGB32 | ColorConversions.c:305-308 | ClearRGB with 4 bytes per pixel |
| Clear.ClearRGB24 | ColorConversions.c:310-313 | ClearRGB with 3 bytes per pixel |
| Clear.ClearRGB16 | ColorConversions.c:315-318 | ClearRGB with 2 bytes per pixel |
| Clear.ClearRgbLayout | ColorConversions.c:298-302 | a byte in the first `ext` bytes of a row below the height is zero after clearing; every other byte keeps its value |
| Clear.V408BlackPixel | ColorConversions.c:327-330 | each v408 black pixel is 0x80, 0x10, 0x80, 0xEB |
| Clear.ClearV408Step | ColorConversions.c:327-330 | the four stores of pixel x extend the row's progress by four bytes |
| Clear.ClearV408 | ColorConversions.c:320-336 | the buffer afterwards is the v408 black image: `4*width` bytes per row; other bytes unchanged |
| Clear.ClearV408Layout | ColorConversions.c:322-335 | a cleared byte is 0x80, 0x10, 0x80, 0xEB by column mod 4 inside `4*width` bytes of the rows below the height; every other byte keeps its value |
| Clear.ClearY422Step | ColorConversions.c:345-347 | the two stores of pixel x extend the row's progress by two bytes |
| Clear.ClearY422 | ColorConversions.c:338-352 | the buffer afterwards is the 2vuy black image: `2*width` bytes per row; other bytes unchanged |
| Clear.ClearY422Layout | ColorConversions.c:340-351 | a cleared byte is 0x80 (even column) or 0x10 (odd column) inside `2*width` bytes of the rows below the height; every other byte keeps its value |
| Clear.ClearY422Twice | ColorConversions.c:338-352 | clearing a 2vuy buffer twice gives the same buffer as clearing it once |
| Clear.ClearV408Twice | ColorConversions.c:320-336 | the same for v408 |
| Clear.ClearRgbTwice | ColorConversions.c:294-303 | the same for RGB |
| Clear.Y422BlackIs2vuy | ColorConversions.c:345-347 | the 2vuy black pattern has zero chroma (0x80) in both chroma bytes of every group and black luma (0x10) in both luma bytes |
| Clear.BlackY420OverClear | ColorConversions.c:380-392 | converting a black 4:2:0 frame (luma 0x10, chroma 0x80 wherever the converter reads) over a buffer that `ClearY422` cleared leaves the cleared buffer unchanged |
| Clear.BlackY422OverClear | ColorConversions.c:421-424 | the same for a black 4:2:2 frame and `Y422toY422` |
| Clear.BlackY410OverClear | ColorConversions.c:417-419 | the same for a black 4:1:0 frame and `Y410toY422` |
| Clear.BlackYA420OverClear | ColorConversions.c:426-428 | converting a black, opaque 4:2:0 frame with alpha (luma 0x10, chroma 0x80, alpha 0xEB) over a buffer that `ClearV408` cleared leaves the cleared buffer unchanged |
| Clear.ClearThenY420 | ColorConversions.c:338-352 | clearing and then converting a 4:2:0 frame leaves: the frame's 2vuy bytes inside `4*(width/2)`; the black pattern in the last two bytes of an odd width; the original elsewhere |
| Dispatch.DstForPixFmt | ColorConversions.c:354-375 | the tag is k24RGB exactly for BGR24 and RGB24, k32ARGB exactly for RGB32, 2vuy exactly for YUV410P, YUV420P and YUV422P, and 0 otherwise |
| Dispatch.ColorConversionFuncs.constructor | ColorConversions.c:377 | stands for the caller's zero-filled struct that `ColorConversionFindFor` receives: both function pointers are NULL, written `None` |
| Dispatch.FindFor | ColorConversions.c:377-435 | returns noErr for the handled formats and paramErr otherwise; sets `clear` and `convert` as the switch does; leaves `convert` alone for a 4:2:0 format without a frame; changes nothing for an unhandled format |
| Dispatch.UnhandledKeepsFuncs | ColorConversions.c:431-432 | an unhandled format leaves both fields as they were, and a format is handled iff it sets the clearer |
| Dispatch.HandledSetsFuncs | ColorConversions.c:379-392 | for a handled format, the converter stays unset exactly when the format is 4:2:0 and there is no frame |
| Dispatch.Sse2ExactlyForAlignedStride | ColorConversions.c:386-391 | the SSE2 converter is chosen iff the format is 4:2:0 and the luma stride is a multiple of 16; the scalar converter is chosen iff the format is 4:2:0 and it is not |
| Dispatch.ChoiceConsistent | ColorConversions.c:377-435 | whenever both are chosen, the converter and the clearer write the same destination layout |
| Dispatch.DstAgreesWithFindFor | ColorConversions.c:354-435 | a format with a nonzero tag is handled, and its clearer (and its converter once chosen) write the layout that tag names |
| Dispatch.HandledWithoutTag | ColorConversions.c:354-435 | the handled formats without a tag are exactly YUVJ420P, YUVJ422P and YUVA420P |

## Left out

- `Playlist.h`: it holds only Objective-C interface declarations, with no behaviour.
- `_mm_stream_si128` is modelled as an ordinary store. Non-temporal cache behaviour and memory ordering are a concurrency concern.
- Pointer alignment for the aligned `__m128i` loads of the SSE2 converter is not modelled as address arithmetic. It appears only as the precondition that the luma stride is a multiple of 16, the condition the dispatcher checks.
- The `_mm_stream_si128` stores of the SSE2 converter (ColorConversions.c:82-90) need a 16-byte-aligned destination address and an `outRB` that is a multiple of 16. The dispatcher checks neither, and the model does not require either.
- The 32-bit and 16-bit stores of `RGB32toRGB32` and `RGB16LEtoRGB16` (`oRow[x] = EndianU32_NtoB(iRow[x])`) are modelled byte by byte. The values are the same. The single wide store is not modelled.
- Source planes are read-only byte sequences, not arrays. Callers outside this file pass a QuickTime buffer distinct from the frame's planes; aliasing between them is not modelled.
- Every converter and clearer requires the row extent it writes to be at most the destination's row bytes (`ext <= d.rb` in `Yuv420.Y420Pre`, `Rgb.RowsPre`, `Clear.ClearPre` and the other `Pre` predicates). The C accepts a smaller `rowBytes`; its rows then overlap and the later store wins. That case is not modelled.
- Strides are `nat`. C allows negative `linesize` and `rowBytes` for bottom-up images; those are not modelled.
- `int` index arithmetic overflow is not modelled.
- Host endianness is a `bigEndianHost` parameter of `RGB32toRGB32`, in place of the `#ifdef __BIG_ENDIAN__` at ColorConversions.c:195.
- The `#error UNKNOWN ARCHITECTURE` branch, `FASTCALL`, `likely`/`unlikely` and the includes are compilation details. The model is the x86 build.
- `RGB16LEtoRGB16`: `EndianU16_LtoB` (ColorConversions.c:240) exchanges the two bytes whatever the host byte order, so the model swaps unconditionally and takes no host parameter.
- `RGB16LEtoRGB16`, `RGB16toRGB16` and `ClearRGB16` are modelled but cannot be reached from dispatch, because the RGB555 cases are commented out (ColorConversions.c:357-359, 409-416). `Dispatch.PixelFormat` keeps RGB555LE and RGB555BE, and they take the default branch as in the code.
- The inner loops of the converters are written as row methods (`Y420RowPair`, `Y422Row`, and so on) called once per row. The stores of one group of the 4:2:0 loop are in `StorePair`. The order of the stores is kept.
- `ColorConversionFindFor`'s `qtPixFmt` argument is unused by the code and is carried unused.
- `AVFrame` is reduced to its four data pointers and line sizes. `OSType` tags are `nat` constants.
- `Dispatch.DstForPixFmt` returns 0 for YUVJ420P, YUVJ422P and YUVA420P. That is what the code does, even though `ColorConversionFindFor` handles those formats.
