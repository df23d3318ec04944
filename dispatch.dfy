/** Choosing a conversion: the destination layout for a decoder pixel
    format, and the converter and clearer pair for it. The choice is made
    on x86 (i386 or x86_64), where the 4:2:0 converter is the SSE2 one when
    the luma stride of the first frame is a multiple of 16. */
module Dispatch {
  import opened Raster

  /** The decoder pixel formats the dispatchers distinguish; every other
      format (and the RGB555 ones, whose cases are commented out) takes the
      default branch. */
  datatype PixelFormat =
    | YUV420P | YUVJ420P | YUV422P | YUVJ422P | YUV410P | YUVA420P
    | BGR24 | RGB24 | RGB32 | RGB555LE | RGB555BE
    | OtherFormat(id: nat)

  /** Destination layout tags (four-character codes). */
  const k24RGBPixelFormat: nat := 0x18
  const k32ARGBPixelFormat: nat := 0x20
  const k2vuyPixelFormat: nat := 0x32767579   // '2vuy'
  const k4444YpCbCrA8PixelFormat: nat := 0x76343038   // 'v408'

  /** Status codes. */
  const noErr: int := 0
  const paramErr: int := -50

  /** ColorConversionDstForPixFmt: the layout tag for a format, 0 when the
      format has no tag here. */
  function DstForPixFmt(fmt: PixelFormat): (tag: nat)
    ensures tag == 0 || tag == k24RGBPixelFormat || tag == k32ARGBPixelFormat || tag == k2vuyPixelFormat
    ensures tag == k24RGBPixelFormat <==> fmt == BGR24 || fmt == RGB24
    ensures tag == k32ARGBPixelFormat <==> fmt == RGB32
    ensures tag == k2vuyPixelFormat <==> fmt == YUV410P || fmt == YUV420P || fmt == YUV422P
  {
    match fmt
      case BGR24 => k24RGBPixelFormat
      case RGB24 => k24RGBPixelFormat
      case RGB32 => k32ARGBPixelFormat
      case YUV410P => k2vuyPixelFormat
      case YUV420P => k2vuyPixelFormat
      case YUV422P => k2vuyPixelFormat
      case _ => 0
  }

  /** The converters a ColorConversionFuncs can hold. */
  datatype Converter =
    | Y420toY422Scalar | Y420toY422Sse2 | Y422toY422 | Y410toY422 | YA420toV408
    | BGR24toRGB24 | RGB32toRGB32 | RGB24toRGB24

  /** The clearers a ColorConversionFuncs can hold. */
  datatype Clearer = ClearY422 | ClearV408 | ClearRGB24 | ClearRGB32

  /** The layout each converter writes, read off the image its method
      ensures: Y420Image, Y422Image and Y410Image are 2vuy, V408Image is
      v408, the RGB images keep the source's byte order. The table is
      written by inspection; nothing below derives it from those images. */
  function ConverterLayout(c: Converter): nat
  {
    match c
      case Y420toY422Scalar => k2vuyPixelFormat
      case Y420toY422Sse2 => k2vuyPixelFormat
      case Y422toY422 => k2vuyPixelFormat
      case Y410toY422 => k2vuyPixelFormat
      case YA420toV408 => k4444YpCbCrA8PixelFormat
      case BGR24toRGB24 => k24RGBPixelFormat
      case RGB32toRGB32 => k32ARGBPixelFormat
      case RGB24toRGB24 => k24RGBPixelFormat
  }

  /** The layout each clearer writes (ClearY422Image is 2vuy, ClearV408Image
      v408, ClearRgbImage the RGB layout of its bytes per pixel), written by
      inspection as above. */
  function ClearerLayout(c: Clearer): nat
  {
    match c
      case ClearY422 => k2vuyPixelFormat
      case ClearV408 => k4444YpCbCrA8PixelFormat
      case ClearRGB24 => k24RGBPixelFormat
      case ClearRGB32 => k32ARGBPixelFormat
  }

  /** The formats ColorConversionFindFor has a case for. */
  predicate Handled(fmt: PixelFormat)
  {
    fmt.YUV420P? || fmt.YUVJ420P? || fmt.BGR24? || fmt.RGB32? || fmt.RGB24? ||
    fmt.YUV410P? || fmt.YUV422P? || fmt.YUVJ422P? || fmt.YUVA420P?
  }

  /** The `convert` field after ColorConversionFindFor, given its value
      before: the 4:2:0 formats pick a converter only when a frame is at hand. */
  function ChosenConvert(fmt: PixelFormat, picture: Option<Frame>, before: Option<Converter>): Option<Converter>
  {
    match fmt
      case YUV420P | YUVJ420P =>
        if picture.None? then before
        else if picture.value.p0.stride % 16 != 0 then Some(Y420toY422Scalar)
        else Some(Y420toY422Sse2)
      case BGR24 => Some(BGR24toRGB24)
      case RGB32 => Some(RGB32toRGB32)
      case RGB24 => Some(RGB24toRGB24)
      case YUV410P => Some(Y410toY422)
      case YUV422P | YUVJ422P => Some(Y422toY422)
      case YUVA420P => Some(YA420toV408)
      case _ => before
  }

  /** The `clear` field after ColorConversionFindFor, given its value before. */
  function ChosenClear(fmt: PixelFormat, before: Option<Clearer>): Option<Clearer>
  {
    match fmt
      case YUV420P | YUVJ420P | YUV410P | YUV422P | YUVJ422P => Some(ClearY422)
      case BGR24 | RGB24 => Some(ClearRGB24)
      case RGB32 => Some(ClearRGB32)
      case YUVA420P => Some(ClearV408)
      case _ => before
  }

  datatype Option<T> = None | Some(value: T)

  /** ColorConversionFuncs: the chosen { convert, clear } pair; None stands
      for a field no call has set yet. */
  class ColorConversionFuncs {
    var convert: Option<Converter>
    var clear: Option<Clearer>

    constructor ()
      ensures convert == None && clear == None
    {
      convert := None;
      clear := None;
    }
  }

  /** ColorConversionFindFor. The destination format argument is not used
      by the code either. */
  method FindFor(funcs: ColorConversionFuncs, fmt: PixelFormat, picture: Option<Frame>, qtPixFmt: nat)
    returns (err: int)
    modifies funcs
    ensures err == (if Handled(fmt) then noErr else paramErr)
    ensures funcs.convert == ChosenConvert(fmt, picture, old(funcs.convert))
    ensures funcs.clear == ChosenClear(fmt, old(funcs.clear))
  {
    match fmt {
      case YUVJ420P | YUV420P =>
        funcs.clear := Some(ClearY422);
        if picture.Some? {
          if picture.value.p0.stride % 16 != 0 {
            funcs.convert := Some(Y420toY422Scalar);
          } else {
            funcs.convert := Some(Y420toY422Sse2);
          }
        }
      case BGR24 =>
        funcs.clear := Some(ClearRGB24);
        funcs.convert := Some(BGR24toRGB24);
      case RGB32 =>
        funcs.clear := Some(ClearRGB32);
        funcs.convert := Some(RGB32toRGB32);
      case RGB24 =>
        funcs.clear := Some(ClearRGB24);
        funcs.convert := Some(RGB24toRGB24);
      case YUV410P =>
        funcs.clear := Some(ClearY422);
        funcs.convert := Some(Y410toY422);
      case YUVJ422P | YUV422P =>
        funcs.clear := Some(ClearY422);
        funcs.convert := Some(Y422toY422);
      case YUVA420P =>
        funcs.clear := Some(ClearV408);
        funcs.convert := Some(YA420toV408);
      case _ =>
        return paramErr;
    }
    return noErr;
  }

  // ---------------------------------------------------------------------
  // Properties of the choice

  /** An unhandled format changes neither field; a handled one always sets
      the clearer, so a handled format is one that fills an empty clearer. */
  lemma UnhandledKeepsFuncs(fmt: PixelFormat, picture: Option<Frame>, cv: Option<Converter>, cl: Option<Clearer>)
    ensures !Handled(fmt) ==> ChosenConvert(fmt, picture, cv) == cv && ChosenClear(fmt, cl) == cl
    ensures Handled(fmt) <==> ChosenClear(fmt, None).Some?
  {
  }

  /** The converter is left unset exactly for a 4:2:0 format without a frame. */
  lemma HandledSetsFuncs(fmt: PixelFormat, picture: Option<Frame>)
    requires Handled(fmt)
    ensures ChosenConvert(fmt, picture, None).None? <==> (fmt == YUV420P || fmt == YUVJ420P) && picture.None?
  {
  }

  /** The SSE2 converter is chosen exactly for a 4:2:0 format with a frame
      whose luma stride is a multiple of 16 (its aligned loads need it), and
      the scalar one exactly when that stride is not. */
  lemma Sse2ExactlyForAlignedStride(fmt: PixelFormat, f: Frame, cv: Option<Converter>)
    requires cv != Some(Y420toY422Sse2) && cv != Some(Y420toY422Scalar)
    ensures ChosenConvert(fmt, Some(f), cv) == Some(Y420toY422Sse2) <==>
            (fmt == YUV420P || fmt == YUVJ420P) && f.p0.stride % 16 == 0
    ensures ChosenConvert(fmt, Some(f), cv) == Some(Y420toY422Scalar) <==>
            (fmt == YUV420P || fmt == YUVJ420P) && f.p0.stride % 16 != 0
  {
  }

  /** The chosen clearer and converter write the same layout. */
  lemma ChoiceConsistent(fmt: PixelFormat, picture: Option<Frame>, cv: Option<Converter>, cl: Option<Clearer>)
    requires Handled(fmt) && !((fmt == YUV420P || fmt == YUVJ420P) && picture.None?)
    ensures ChosenConvert(fmt, picture, cv).Some? && ChosenClear(fmt, cl).Some?
    ensures ConverterLayout(ChosenConvert(fmt, picture, cv).value) == ClearerLayout(ChosenClear(fmt, cl).value)
  {
  }

  /** Where ColorConversionDstForPixFmt names a layout, ColorConversionFindFor
      succeeds and its clearer (and converter, once chosen) write that layout. */
  lemma DstAgreesWithFindFor(fmt: PixelFormat, picture: Option<Frame>, cv: Option<Converter>, cl: Option<Clearer>)
    requires DstForPixFmt(fmt) != 0
    ensures Handled(fmt) && ChosenClear(fmt, cl).Some?
    ensures ClearerLayout(ChosenClear(fmt, cl).value) == DstForPixFmt(fmt)
    ensures picture.Some? || fmt != YUV420P ==>
            ChosenConvert(fmt, picture, cv).Some? &&
            ConverterLayout(ChosenConvert(fmt, picture, cv).value) == DstForPixFmt(fmt)
  {
  }

  /** The reverse does not hold: the full-range formats YUVJ420P, YUVJ422P
      and the alpha format YUVA420P have converters but no layout tag. */
  lemma HandledWithoutTag(fmt: PixelFormat)
    ensures Handled(fmt) && DstForPixFmt(fmt) == 0 <==> fmt == YUVJ420P || fmt == YUVJ422P || fmt == YUVA420P
  {
  }
}
