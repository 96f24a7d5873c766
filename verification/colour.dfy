/** Palette-entry conversion (libretro.c, the three `ColourUpdatedCallback_*`
    functions). The engine reports a colour as 0BGR4444: red in bits 0-3,
    green in bits 4-7, blue in bits 8-11. Each conversion widens the three
    4-bit channels by replicating their top bits into the new low bits and
    packs them into one of the three host pixel formats. */
module Colour {

  /** The three host pixel formats the bridge can produce. `RGB1555` is the
      host's "0RGB1555" (bit 15 clear). */
  datatype PixelFormat = RGB1555 | XRGB8888 | RGB565

  /** 16 colours, 4 palette lines, 3 brightness levels. */
  const PaletteSize: nat := 16 * 4 * 3

  // ---------------------------------------------------------------------
  // Channel extraction
  // ---------------------------------------------------------------------

  function Red(colour: bv32): (c: bv8)
    ensures c < 16
  {
    (colour & 0xF) as bv8
  }

  function Green(colour: bv32): (c: bv8)
    ensures c < 16
  {
    ((colour >> 4) & 0xF) as bv8
  }

  function Blue(colour: bv32): (c: bv8)
    ensures c < 16
  {
    ((colour >> 8) & 0xF) as bv8
  }

  // ---------------------------------------------------------------------
  // Channel widening by top-bit replication
  // ---------------------------------------------------------------------

  /** 4 bits to 5 bits. The result is the 4-bit channel followed by its top
      bit, which is the nearest 5-bit value to c * 31 / 15. */
  function Widen5(c: bv8): (r: bv8)
    requires c < 16
    ensures r < 32
    ensures r >> 1 == c && r & 1 == c >> 3
  {
    (c << 1) | (c >> 3)
  }

  /** 4 bits to 6 bits (the green channel of RGB565). The result is the
      channel followed by its top two bits, within one unit of c * 63 / 15. */
  function Widen6(c: bv8): (r: bv8)
    requires c < 16
    ensures r < 64
    ensures r >> 2 == c && r & 3 == c >> 2
  {
    (c << 2) | (c >> 2)
  }

  /** 4 bits to 8 bits: the channel written twice, which is exactly c * 255 / 15. */
  function Widen8(c: bv8): (r: bv8)
    requires c < 16
    ensures r >> 4 == c && r & 0xF == c
  {
    (c << 4) | (c >> 0)
  }

  /** How close replication comes to exact scaling: the 5-bit result is
      c * 31 / 15 rounded to nearest, the 6-bit result lies within one unit
      of c * 63 / 15, and the 8-bit result is exactly c * 255 / 15. */
  lemma WideningApproximatesScaling(c: bv8)
    requires c < 16
    ensures Widen5(c) as bv16 == (62 * (c as bv16) + 15) / 30
    ensures 15 * (Widen6(c) as bv16) < 63 * (c as bv16) + 15
    ensures 63 * (c as bv16) < 15 * (Widen6(c) as bv16) + 15
    ensures Widen8(c) as bv16 == (c as bv16) * 0x11
  {
  }

  /** Widening keeps black black, takes full intensity to full scale, and
      keeps distinct intensities distinct and in order. */
  lemma WideningIsMonotone(a: bv8, b: bv8)
    requires a < b < 16
    ensures Widen5(a) < Widen5(b) && Widen6(a) < Widen6(b) && Widen8(a) < Widen8(b)
    ensures Widen5(0) == 0 && Widen6(0) == 0 && Widen8(0) == 0
    ensures Widen5(15) == 0x1F && Widen6(15) == 0x3F && Widen8(15) == 0xFF
  {
  }

  // ---------------------------------------------------------------------
  // The three packers
  // ---------------------------------------------------------------------

  /** `ColourUpdatedCallback_0RGB1555`: red in bits 10-14, green in 5-9,
      blue in 0-4, bit 15 clear. */
  function To0RGB1555(colour: bv32): (p: bv16)
    ensures p >> 15 == 0
    ensures (p >> 10) & 0x1F == Widen5(Red(colour)) as bv16
    ensures (p >> 5) & 0x1F == Widen5(Green(colour)) as bv16
    ensures p & 0x1F == Widen5(Blue(colour)) as bv16
  {
    ((Widen5(Red(colour)) as bv16) << 10)
    | ((Widen5(Green(colour)) as bv16) << 5)
    | ((Widen5(Blue(colour)) as bv16) << 0)
  }

  /** `ColourUpdatedCallback_RGB565`: red in bits 11-15, green in 5-10,
      blue in 0-4. */
  function ToRGB565(colour: bv32): (p: bv16)
    ensures p >> 11 == Widen5(Red(colour)) as bv16
    ensures (p >> 5) & 0x3F == Widen6(Green(colour)) as bv16
    ensures p & 0x1F == Widen5(Blue(colour)) as bv16
  {
    ((Widen5(Red(colour)) as bv16) << 11)
    | ((Widen6(Green(colour)) as bv16) << 5)
    | ((Widen5(Blue(colour)) as bv16) << 0)
  }

  /** `ColourUpdatedCallback_XRGB8888`: red in bits 16-23, green in 8-15,
      blue in 0-7, the top byte clear. */
  function ToXRGB8888(colour: bv32): (p: bv32)
    ensures p >> 24 == 0
    ensures (p >> 16) & 0xFF == Widen8(Red(colour)) as bv32
    ensures (p >> 8) & 0xFF == Widen8(Green(colour)) as bv32
    ensures p & 0xFF == Widen8(Blue(colour)) as bv32
  {
    ((Widen8(Red(colour)) as bv32) << 16)
    | ((Widen8(Green(colour)) as bv32) << 8)
    | ((Widen8(Blue(colour)) as bv32) << 0)
  }

  /** Only the low twelve bits of the engine's colour take part. */
  lemma ConversionIgnoresHighBits(colour: bv32)
    ensures To0RGB1555(colour) == To0RGB1555(colour & 0xFFF)
    ensures ToRGB565(colour) == ToRGB565(colour & 0xFFF)
    ensures ToXRGB8888(colour) == ToXRGB8888(colour & 0xFFF)
  {
    LowBitsKeepChannels(colour);
    SameChannelsSamePixel(colour, colour & 0xFFF);
  }

  lemma LowBitsKeepChannels(colour: bv32)
    ensures Red(colour) == Red(colour & 0xFFF)
    ensures Green(colour) == Green(colour & 0xFFF)
    ensures Blue(colour) == Blue(colour & 0xFFF)
  {
  }

  /** The packers see the colour only through its three channels. */
  lemma SameChannelsSamePixel(a: bv32, b: bv32)
    requires Red(a) == Red(b) && Green(a) == Green(b) && Blue(a) == Blue(b)
    ensures To0RGB1555(a) == To0RGB1555(b)
    ensures ToRGB565(a) == ToRGB565(b)
    ensures ToXRGB8888(a) == ToXRGB8888(b)
  {
    SameChannels0RGB1555(a, b);
    SameChannelsRGB565(a, b);
    SameChannelsXRGB8888(a, b);
  }

  lemma SameChannels0RGB1555(a: bv32, b: bv32)
    requires Red(a) == Red(b) && Green(a) == Green(b) && Blue(a) == Blue(b)
    ensures To0RGB1555(a) == To0RGB1555(b)
  {
  }

  lemma SameChannelsRGB565(a: bv32, b: bv32)
    requires Red(a) == Red(b) && Green(a) == Green(b) && Blue(a) == Blue(b)
    ensures ToRGB565(a) == ToRGB565(b)
  {
  }

  lemma SameChannelsXRGB8888(a: bv32, b: bv32)
    requires Red(a) == Red(b) && Green(a) == Green(b) && Blue(a) == Blue(b)
    ensures ToXRGB8888(a) == ToXRGB8888(b)
  {
  }

  /** Black and white land on the extremes of every format. */
  lemma ConversionExtremes()
    ensures To0RGB1555(0) == 0 && ToRGB565(0) == 0 && ToXRGB8888(0) == 0
    ensures To0RGB1555(0xFFF) == 0x7FFF && ToRGB565(0xFFF) == 0xFFFF && ToXRGB8888(0xFFF) == 0xFFFFFF
  {
  }

  // ---------------------------------------------------------------------
  // The palette table
  // ---------------------------------------------------------------------

  /** The 192-entry table, as its 16-bit and 32-bit views. The C union that
      overlays the two views is not modelled: each view is its own sequence. */
  datatype Palette = Palette(u16: seq<bv16>, u32: seq<bv32>) {
    predicate Valid() {
      |u16| == PaletteSize && |u32| == PaletteSize
    }
  }

  /** The colour-updated callback currently installed for `format` writes
      entry `index` of the view that format uses and nothing else. */
  function ColourUpdated(p: Palette, format: PixelFormat, index: nat, colour: bv32): (q: Palette)
    requires p.Valid() && index < PaletteSize
    ensures q.Valid()
    ensures forall k | 0 <= k < PaletteSize && k != index :: q.u16[k] == p.u16[k] && q.u32[k] == p.u32[k]
    ensures format == RGB1555 ==> q.u16[index] == To0RGB1555(colour) && q.u32 == p.u32
    ensures format == RGB565 ==> q.u16[index] == ToRGB565(colour) && q.u32 == p.u32
    ensures format == XRGB8888 ==> q.u32[index] == ToXRGB8888(colour) && q.u16 == p.u16
  {
    match format
    case RGB1555 => p.(u16 := p.u16[index := To0RGB1555(colour)])
    case RGB565 => p.(u16 := p.u16[index := ToRGB565(colour)])
    case XRGB8888 => p.(u32 := p.u32[index := ToXRGB8888(colour)])
  }
}
