/** Per-frame render-target selection, fallback-format negotiation and the
    reported geometry (libretro.c: `ScanlineRenderedCallback`,
    `retro_get_system_av_info`, `SetGeometry`).

    The host answers two questions the bridge cannot answer itself: whether it
    accepts a pixel format as the session's fallback, and whether it lends a
    framebuffer for the current frame (and in which format). Both answers are
    parameters here. The function pointers of the C code become a `Strategy`
    value: the colour packer paired with the scanline writer. */
module Video {
  import opened Base
  import opened Colour

  /** The internal fallback framebuffer is 320 pixels wide and 480 rows tall. */
  const FramebufferWidth: nat := 320
  const FramebufferHeight: nat := 480

  /** The two scanline writers: 16-bit or 32-bit destination pixels. */
  datatype Writer = Bits16 | Bits32

  function BytesPerPixel(w: Writer): nat
  {
    match w
    case Bits16 => 2
    case Bits32 => 4
  }

  /** Byte length of one row of the fallback framebuffer in the writer's view. */
  function FallbackPitch(w: Writer): nat
  {
    FramebufferWidth * BytesPerPixel(w)
  }

  /** The colour packer installed as the engine's colour callback, and the
      scanline writer installed beside it. */
  datatype Strategy = Strategy(colour: PixelFormat, writer: Writer)

  /** The packer and the writer agree on the pixel width: XRGB8888 entries
      live in the 32-bit view and are copied by the 32-bit writer, the two
      16-bit formats by the 16-bit writer. */
  predicate WidthConsistent(s: Strategy)
  {
    (s.colour == XRGB8888) == (s.writer == Bits32)
  }

  /** The pair installed for a host format (libretro.c:390-403, 1030-1044). */
  function StrategyFor(f: PixelFormat): (s: Strategy)
    ensures s.colour == f && WidthConsistent(s)
  {
    match f
    case RGB1555 => Strategy(RGB1555, Bits16)
    case XRGB8888 => Strategy(XRGB8888, Bits32)
    case RGB565 => Strategy(RGB565, Bits16)
  }

  /** The format of a framebuffer the host lends: one of the three the
      bridge supports, or anything else. */
  datatype HostFormat = Supported(format: PixelFormat) | Unsupported(code: int)

  /** The host's reply to the request for this frame's framebuffer. */
  datatype FramebufferReply = NoFramebuffer | Framebuffer(format: HostFormat, pitch: nat)

  predicate Usable(reply: FramebufferReply)
  {
    reply.Framebuffer? && reply.format.Supported?
  }

  datatype Target = HostBuffer | FallbackBuffer

  /** The bridge's video state: the negotiated fallback pair, the pair
      currently installed, the buffer and pitch scanlines are written to,
      and the latched screen size. */
  datatype VideoState = VideoState(
    fallback: Strategy,
    active: Strategy,
    target: Target,
    pitch: nat,
    width: nat,
    height: nat)
  {
    /** Both pairs are width-consistent, and the fallback buffer is always
        addressed with its own row length for the installed writer. */
    predicate Valid()
    {
      && WidthConsistent(fallback)
      && WidthConsistent(active)
      && (target == FallbackBuffer ==> pitch == FallbackPitch(active.writer))
    }
  }

  // ---------------------------------------------------------------------
  // Target selection at scanline 0 (libretro.c:367-427)
  // ---------------------------------------------------------------------

  /** A usable host framebuffer is adopted with its own pitch and the pair
      for its format; otherwise the fallback buffer is used with the
      negotiated fallback pair and the fallback row length. The screen size
      reported by the engine is latched either way. */
  function SelectTarget(v: VideoState, reply: FramebufferReply, width: nat, height: nat): (r: VideoState)
    ensures r.fallback == v.fallback && r.width == width && r.height == height
    ensures Usable(reply) ==>
      r.target == HostBuffer && r.pitch == reply.pitch && r.active == StrategyFor(reply.format.format)
    ensures !Usable(reply) ==>
      r.target == FallbackBuffer && r.active == v.fallback && r.pitch == FallbackPitch(v.fallback.writer)
    ensures WidthConsistent(v.fallback) ==> r.Valid()
  {
    if Usable(reply) then
      v.(active := StrategyFor(reply.format.format), target := HostBuffer,
         pitch := reply.pitch, width := width, height := height)
    else
      v.(active := v.fallback, target := FallbackBuffer,
         pitch := FallbackPitch(v.fallback.writer), width := width, height := height)
  }

  /** The pair installed for each host format, spelled out. */
  lemma HostFormatPairs(v: VideoState, pitch: nat, width: nat, height: nat)
    ensures SelectTarget(v, Framebuffer(Supported(RGB1555), pitch), width, height).active == Strategy(RGB1555, Bits16)
    ensures SelectTarget(v, Framebuffer(Supported(XRGB8888), pitch), width, height).active == Strategy(XRGB8888, Bits32)
    ensures SelectTarget(v, Framebuffer(Supported(RGB565), pitch), width, height).active == Strategy(RGB565, Bits16)
  {
  }

  /** One row handed to the installed writer: the byte offset of the row in
      the target, and the pixel range to convert. */
  datatype RowWrite = RowWrite(target: Target, offset: nat, writer: Writer, line: nat, left: nat, right: nat)

  datatype ScanlineStep = ScanlineStep(video: VideoState, write: Option<RowWrite>)

  /** `ScanlineRenderedCallback`: at scanline 0 the target is chosen and the
      size latched; afterwards the row is written only when it lies below
      the latched height, at `pitch * scanline` bytes into the target. */
  function ScanlineRendered(v: VideoState, scanline: nat, left: nat, right: nat,
                            width: nat, height: nat, reply: FramebufferReply): (r: ScanlineStep)
    ensures scanline != 0 ==> r.video == v
    ensures scanline == 0 ==> r.video == SelectTarget(v, reply, width, height)
    ensures r.write.Some? <==> scanline < r.video.height
    ensures r.write.Some? ==> r.write.value == RowWrite(r.video.target, r.video.pitch * scanline,
                                                        r.video.active.writer, scanline, left, right)
    ensures v.Valid() ==> r.video.Valid()
  {
    var w := if scanline == 0 then SelectTarget(v, reply, width, height) else v;
    if scanline < w.height then
      ScanlineStep(w, Some(RowWrite(w.target, w.pitch * scanline, w.active.writer, scanline, left, right)))
    else
      ScanlineStep(w, None)
  }

  /** Width and height change only at scanline 0, and a scanline at or past
      the latched height writes nothing. */
  lemma LatchOnlyAtLineZero(v: VideoState, scanline: nat, left: nat, right: nat,
                            width: nat, height: nat, reply: FramebufferReply)
    requires scanline > 0 && scanline >= v.height
    ensures ScanlineRendered(v, scanline, left, right, width, height, reply) == ScanlineStep(v, None)
  {
  }

  /** Writes into the fallback buffer stay inside its 320 x 480 pixels when
      the latched height is at most 480 and `right` at most 320, which the
      code itself does not check. */
  lemma FallbackWriteInBounds(v: VideoState, scanline: nat, left: nat, right: nat,
                              width: nat, height: nat, reply: FramebufferReply)
    requires v.Valid()
    requires right <= FramebufferWidth
    requires ScanlineRendered(v, scanline, left, right, width, height, reply).video.height <= FramebufferHeight
    requires ScanlineRendered(v, scanline, left, right, width, height, reply).write.Some?
    requires ScanlineRendered(v, scanline, left, right, width, height, reply).write.value.target == FallbackBuffer
    ensures var wr := ScanlineRendered(v, scanline, left, right, width, height, reply).write.value;
            wr.offset + BytesPerPixel(wr.writer) * wr.right
              <= FramebufferHeight * FallbackPitch(wr.writer)
  {
    var r := ScanlineRendered(v, scanline, left, right, width, height, reply);
    var wr := r.write.value;
    var pitch := FallbackPitch(wr.writer);
    assert r.video.pitch == pitch;
    assert scanline + 1 <= FramebufferHeight;
    assert BytesPerPixel(wr.writer) * wr.right <= pitch;
    calc {
      wr.offset + BytesPerPixel(wr.writer) * wr.right;
    <= pitch * scanline + pitch;
    == pitch * (scanline + 1);
    <= { MulMonotone(pitch, scanline + 1, FramebufferHeight); }
      pitch * FramebufferHeight;
    }
  }

  lemma MulMonotone(a: nat, b: nat, c: nat)
    requires b <= c
    ensures a * b <= a * c
  {
  }

  /** Without the height bound the guard admits a row past the buffer: an
      engine report of 481 rows lets scanline 480 be written one full row
      past the end of the 16-bit fallback buffer. */
  lemma FallbackBoundNeedsHeightLimit()
    ensures
      var v := VideoState(Strategy(RGB565, Bits16), Strategy(RGB565, Bits16), FallbackBuffer, 640, 320, 481);
      var r := ScanlineRendered(v, 480, 0, 320, 320, 481, NoFramebuffer);
      r.write.Some? && r.write.value.offset + 2 * 320 > FramebufferHeight * FallbackPitch(Bits16)
  {
  }

  // ---------------------------------------------------------------------
  // Fallback negotiation (libretro.c:1027-1050)
  // ---------------------------------------------------------------------

  /** The order in which the host is offered a fallback format. 0RGB1555 is
      the host's default and is installed without asking. */
  const PreferenceOrder: seq<PixelFormat> := [RGB565, XRGB8888, RGB1555]

  /** Whether the host takes a format, given its answers to the two questions. */
  predicate Accepted(f: PixelFormat, accepts565: bool, accepts8888: bool)
  {
    match f
    case RGB565 => accepts565
    case XRGB8888 => accepts8888
    case RGB1555 => true
  }

  function Rank(f: PixelFormat): (i: nat)
    ensures i < |PreferenceOrder| && PreferenceOrder[i] == f
  {
    match f
    case RGB565 => 0
    case XRGB8888 => 1
    case RGB1555 => 2
  }

  /** The negotiated fallback pair and the formats the host was asked about,
      in order. */
  datatype Negotiation = Negotiation(fallback: Strategy, asked: seq<PixelFormat>)

  /** The first format in `PreferenceOrder` the host accepts becomes the
      fallback; every format before it was offered and refused. */
  function NegotiateFallback(accepts565: bool, accepts8888: bool): (n: Negotiation)
    ensures WidthConsistent(n.fallback)
    ensures Accepted(n.fallback.colour, accepts565, accepts8888)
    ensures forall i | 0 <= i < Rank(n.fallback.colour) :: !Accepted(PreferenceOrder[i], accepts565, accepts8888)
    ensures n.asked == PreferenceOrder[..if accepts565 then 1 else 2]
  {
    if accepts565 then
      Negotiation(StrategyFor(RGB565), [RGB565])
    else if accepts8888 then
      Negotiation(StrategyFor(XRGB8888), [RGB565, XRGB8888])
    else
      Negotiation(StrategyFor(RGB1555), [RGB565, XRGB8888])
  }

  // ---------------------------------------------------------------------
  // Geometry (libretro.c:1007-1018)
  // ---------------------------------------------------------------------

  /** The float quotient 320 / height, exactly; a height of 0 gives the
      float's positive infinity. */
  datatype Aspect = Ratio(value: real) | Infinite

  datatype Geometry = Geometry(baseWidth: nat, baseHeight: nat, maxWidth: nat, maxHeight: nat, aspect: Aspect)

  /** Interlace Mode 2 (a height of 448 or more) is squished back to the
      shape of a single field unless the tall-interlace option is set. */
  predicate Squished(height: nat, tall: bool)
  {
    !tall && height >= 448
  }

  /** `SetGeometry`: the base size is the latched size and the maximum the
      fallback buffer's. The aspect ratio times the height is 320, or 640
      for a squished interlaced screen; the width takes no part in it. */
  function SetGeometry(width: nat, height: nat, tall: bool): (g: Geometry)
    ensures g.baseWidth == width && g.baseHeight == height
    ensures g.maxWidth == FramebufferWidth && g.maxHeight == FramebufferHeight
    ensures height == 0 <==> g.aspect == Infinite
    ensures height > 0 ==> g.aspect.value * (height as real) == (if Squished(height, tall) then 640.0 else 320.0)
  {
    var aspect :=
      if height == 0 then Infinite
      else if Squished(height, tall) then Ratio(320.0 / (height as real) * 2.0)
      else Ratio(320.0 / (height as real));
    Geometry(width, height, FramebufferWidth, FramebufferHeight, aspect)
  }

  /** A squished interlaced screen reports the same aspect ratio as a
      screen of half its height; in particular 320 x 448 reports what
      320 x 224 does. */
  lemma SquishMatchesHalfHeight(width: nat, height: nat, tall: bool)
    requires 448 <= height < 896 && height % 2 == 0
    ensures SetGeometry(width, height, false).aspect == SetGeometry(width, height / 2, tall).aspect
  {
    var g := SetGeometry(width, height, false);
    var h := SetGeometry(width, height / 2, tall);
    assert g.aspect.value * (height as real) == 640.0;
    assert h.aspect.value * ((height / 2) as real) == 320.0;
    assert (height as real) == 2.0 * ((height / 2) as real);
  }

  /** With the tall-interlace option on, the ratio is 320 / height at every height. */
  lemma TallNeverSquishes(width: nat, height: nat)
    requires height > 0
    ensures SetGeometry(width, height, true).aspect == Ratio(320.0 / (height as real))
  {
  }

  // ---------------------------------------------------------------------
  // retro_get_system_av_info (libretro.c:1020-1057)
  // ---------------------------------------------------------------------

  /** The frame rate is the engine's PAL or NTSC rate; its value comes from
      an engine header and is not modelled. */
  datatype Timing = PalTiming | NtscTiming

  datatype AvInfo = AvInfo(geometry: Geometry, timing: Timing)

  datatype AvInfoResult = AvInfoResult(video: VideoState, info: AvInfo, asked: seq<PixelFormat>)

  /** Negotiates the fallback pair, resets the latched size to 320 x 224 and
      reports geometry and timing. The installed pair, the target and the
      pitch are left as they are until the next scanline 0. */
  function GetSystemAvInfo(v: VideoState, pal: bool, tall: bool, accepts565: bool, accepts8888: bool): (r: AvInfoResult)
    ensures r.video.fallback == NegotiateFallback(accepts565, accepts8888).fallback
    ensures r.asked == NegotiateFallback(accepts565, accepts8888).asked
    ensures r.video.width == 320 && r.video.height == 224
    ensures r.video.active == v.active && r.video.target == v.target && r.video.pitch == v.pitch
    ensures r.info.geometry == SetGeometry(320, 224, tall)
    ensures r.info.timing == (if pal then PalTiming else NtscTiming)
    ensures v.Valid() ==> r.video.Valid()
  {
    var n := NegotiateFallback(accepts565, accepts8888);
    var w := v.(fallback := n.fallback, width := 320, height := 224);
    AvInfoResult(w, AvInfo(SetGeometry(w.width, w.height, tall), if pal then PalTiming else NtscTiming), n.asked)
  }
}
