/** Fixed-width integer types of the controller and the colour of one pixel.
    The strip packs a colour into a word 0xRRGGBB; the model keeps the three
    channels and proves that packing is a bijection onto 24-bit words, so a
    pixel reads as the word 0 exactly when it is black. */
module Colors {

  /** `uint8_t` */
  type Byte = x: int | 0 <= x < 0x100
  /** `uint16_t` */
  type U16 = x: int | 0 <= x < 0x1_0000
  /** `unsigned long` on the target, 32 bits wide */
  type U32 = x: int | 0 <= x < 0x1_0000_0000
  /** A colour as the strip packs it: 0xRRGGBB */
  type Word24 = x: int | 0 <= x < 0x100_0000

  /** A pixel colour, one byte per channel. */
  datatype Rgb = Rgb(red: Byte, green: Byte, blue: Byte)

  /** The off pixel. */
  const BLACK: Rgb := Rgb(0, 0, 0)

  /** `strip.Color(r, g, b)`: red in the high byte, blue in the low byte.
      Only black packs to the word 0 that `getPixelColor` is compared with. */
  function Pack(c: Rgb): (w: Word24)
    ensures w == 0 <==> c == BLACK
  {
    c.red * 0x1_0000 + c.green * 0x100 + c.blue
  }

  /** The shifts and masks at the top of `adjustBrightness`. */
  function Unpack(w: Word24): Rgb
  {
    Rgb((w / 0x1_0000) % 0x100, (w / 0x100) % 0x100, w % 0x100)
  }

  /** Unpacking a packed colour gives back its three channels. */
  lemma UnpackPack(c: Rgb)
    ensures Unpack(Pack(c)) == c
  {
    var w := Pack(c);
    assert w == (c.red * 0x100 + c.green) * 0x100 + c.blue;
    assert w / 0x100 == c.red * 0x100 + c.green;
    assert w / 0x1_0000 == c.red;
  }

  /** Every 24-bit word is the packing of its own three channels. */
  lemma PackUnpack(w: Word24)
    ensures Pack(Unpack(w)) == w
  {
    var hi := w / 0x100;
    var r, g, b := hi / 0x100, hi % 0x100, w % 0x100;
    assert w == hi * 0x100 + b;
    assert hi == r * 0x100 + g;
    assert w / 0x1_0000 == r;
    assert Unpack(w) == Rgb(r, g, b);
    assert w == r * 0x1_0000 + g * 0x100 + b;
  }

  /** Sum of the three channels: how much light the pixel emits. */
  function Intensity(c: Rgb): nat
  {
    c.red + c.green + c.blue
  }

  /** `ch * level`, spelled out as repeated addition: the solver then meets a
      nonlinear term only in the lemmas below, never where a scaled colour is
      merely used. */
  function Product(ch: Byte, level: Byte): nat
    decreases level
  {
    if level == 0 then 0 else ch + Product(ch, level - 1)
  }

  lemma {:induction false} ProductIsMultiplication(ch: Byte, level: Byte)
    ensures Product(ch, level) == ch * level
    decreases level
  {
    if level > 0 {
      ProductIsMultiplication(ch, level - 1);
      assert ch * level == ch + ch * (level - 1);
    }
  }

  /** One channel scaled by `level / 255`, truncated towards zero: the integer
      stand-in for `static_cast<uint8_t>(ch * (level / 255.0))`. */
  function Scale(ch: Byte, level: Byte): Byte
  {
    ScaleBounds(ch, level);
    Product(ch, level) / 255
  }

  lemma ScaleBounds(ch: Byte, level: Byte)
    ensures Product(ch, level) <= ch * 255
    ensures level == 255 ==> Product(ch, level) == ch * 255
    ensures level < 255 ==> Product(ch, level) <= ch * 254
  {
    ProductIsMultiplication(ch, level);
    MulMonotone(ch, level, 255);
    if level < 255 {
      MulMonotone(ch, level, 254);
    }
  }

  lemma MulMonotone(ch: int, lo: int, hi: int)
    requires 0 <= ch && lo <= hi
    ensures ch * lo <= ch * hi
  {
    assert ch * (hi - lo) >= 0;
  }

  /** Scaling computes `ch * level / 255`: it never raises a channel, keeps
      it at full level, clears it at level 0, and below full level strictly
      lowers every lit channel. */
  lemma ScaleDims(ch: Byte, level: Byte)
    ensures Scale(ch, level) == ch * level / 255
    ensures Scale(ch, level) <= ch
    ensures ch == 0 || level == 0 ==> Scale(ch, level) == 0
    ensures level == 255 ==> Scale(ch, level) == ch
    ensures 0 < ch && level < 255 ==> Scale(ch, level) < ch
  {
    ScaleBounds(ch, level);
    ProductIsMultiplication(ch, level);
  }

  /** `adjustBrightness`: the colour rescaled to `level` out of 255, channel by
      channel, each truncated. Rescaling raises no channel, keeps
      black black, turns every colour black at level 0, is the identity at
      level 255, and below level 255 strictly dims every colour that is not
      black. */
  function AdjustBrightness(c: Rgb, level: Byte): (r: Rgb)
    ensures r.red <= c.red && r.green <= c.green && r.blue <= c.blue
    ensures c == BLACK || level == 0 ==> r == BLACK
    ensures level == 255 ==> r == c
    ensures c != BLACK && level < 255 ==> Intensity(r) < Intensity(c)
  {
    ScaleDims(c.red, level);
    ScaleDims(c.green, level);
    ScaleDims(c.blue, level);
    Rgb(Scale(c.red, level), Scale(c.green, level), Scale(c.blue, level))
  }
}
