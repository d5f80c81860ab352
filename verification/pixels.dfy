/** RGBA pixels and the on/off classification the converter applies to each. */
module Pixels {
  import opened PyInt

  /** One 8-bit colour channel, as PIL reports it for an RGBA image. */
  type Channel = c: int | 0 <= c < 256

  datatype Pixel = Pixel(r: Channel, g: Channel, b: Channel, a: Channel)

  /** Opaque or not, the one colour that counts as background. */
  predicate IsPureWhite(p: Pixel)
  {
    p.r == 255 && p.g == 255 && p.b == 255
  }

  /** The bit a pixel contributes to its byte: 1 ("on", drawn black on the
      display) when the pixel is not fully transparent and at least one
      colour channel is below 255. */
  function Classify(p: Pixel): (bit: Bit)
    ensures bit == 1 <==> p.a > 0 && !IsPureWhite(p)
  {
    if p.a > 0 && (p.r < 255 || p.g < 255 || p.b < 255) then 1 else 0
  }

  /** Near-white is not white: (254, 254, 254) opaque is drawn black, so the
      threshold is an exact match on pure white, not a luminance cut-off; and
      a fully transparent pixel is off whatever its colour. */
  lemma NearWhiteIsOn(c: Channel, alpha: Channel)
    requires c < 255 && alpha > 0
    ensures Classify(Pixel(c, c, c, alpha)) == 1
    ensures Classify(Pixel(255, 255, 255, alpha)) == 0
    ensures forall r: Channel, g: Channel, b: Channel :: Classify(Pixel(r, g, b, 0)) == 0
  {
  }
}
