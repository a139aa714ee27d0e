/**
 * BootloaderDisplay::Init of the intel-i915 driver: describe the display the
 * bootloader left behind, or a fixed fallback when the bootloader
 * framebuffer cannot be queried.
 *
 * zx_bootloader_fb_get_info is an input (its outcome); the pixel-format
 * constants are an enumeration.
 */
module BootloaderDisplay {
  import opened KernelObjects

  /** The ZX_PIXEL_FORMAT_* values; Unrecognized stands for any other value. */
  datatype PixelFormat =
    | Rgb565 | RgbX888 | Argb8888 | Rgb332 | Rgb2220 | Mono1 | Mono8
    | Unrecognized(code: uint32)

  datatype DisplayFlag = HwFramebuffer

  /** zx_display_info_t. */
  datatype DisplayInfo = DisplayInfo(
    format: PixelFormat,
    width: uint32,
    height: uint32,
    stride: uint32,
    pixelsize: uint32,
    flags: set<DisplayFlag>)

  /** What zx_bootloader_fb_get_info reports: ZX_OK with the geometry, or a failure. */
  datatype Probe =
    | ProbeOk(format: PixelFormat, width: uint32, height: uint32, stride: uint32)
    | ProbeFailed(status: int)

  /** The geometry used when the probe fails: half of 2560x1700, in RGB 565. */
  const FALLBACK_WIDTH: uint32 := 2560 / 2
  const FALLBACK_HEIGHT: uint32 := 1700 / 2
  const FALLBACK_STRIDE: uint32 := 2560 / 2

  /** Bytes per pixel of the recognised formats; None for any other. */
  function PixelSize(f: PixelFormat): (r: Option<uint32>)
    ensures r.None? <==> f.Unrecognized?
    ensures f == Rgb565 ==> r == Some(2)
    ensures f == RgbX888 || f == Argb8888 ==> r == Some(4)
    ensures f in {Rgb332, Rgb2220, Mono1, Mono8} ==> r == Some(1)
  {
    match f
    case Rgb565 => Some(2)
    case RgbX888 | Argb8888 => Some(4)
    case Rgb332 | Rgb2220 | Mono1 | Mono8 => Some(1)
    case Unrecognized(_) => None
  }

  /**
   * BootloaderDisplay::Init, given the probe's outcome and the record `di`
   * as the caller passed it. Returns the record afterwards and whether Init
   * succeeded. Geometry comes from the probe or the fallback, the flags are
   * set to the hardware-framebuffer flag on every path, and pixelsize is
   * assigned only for a recognised format; an unrecognised one fails and
   * leaves the caller's pixelsize as it was.
   */
  function Init(probe: Probe, di: DisplayInfo): (r: (DisplayInfo, bool))
    ensures probe.ProbeOk? ==>
      && r.0.format == probe.format && r.0.width == probe.width
      && r.0.height == probe.height && r.0.stride == probe.stride
    ensures probe.ProbeFailed? ==>
      && r.0.format == Rgb565 && r.0.width == 1280 && r.0.height == 850 && r.0.stride == 1280
    ensures r.0.flags == {HwFramebuffer}
    ensures r.1 <==> !r.0.format.Unrecognized?
    ensures r.1 ==> Some(r.0.pixelsize) == PixelSize(r.0.format)
    ensures !r.1 ==> r.0.pixelsize == di.pixelsize
  {
    var di := if probe.ProbeOk?
      then di.(format := probe.format, width := probe.width, height := probe.height, stride := probe.stride)
      else di.(format := Rgb565, width := FALLBACK_WIDTH, height := FALLBACK_HEIGHT, stride := FALLBACK_STRIDE);
    var di := di.(flags := {HwFramebuffer});
    match PixelSize(di.format)
    case Some(size) => (di.(pixelsize := size), true)
    case None => (di, false)
  }

  /** The fallback path always succeeds, with two bytes per pixel. */
  lemma FallbackSucceeds(status: int, di: DisplayInfo)
    ensures Init(ProbeFailed(status), di).1
    ensures Init(ProbeFailed(status), di).0.pixelsize == 2
  {
  }
}
