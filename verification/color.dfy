/** The colour conversions of src/style/color.rs: a 24-bit RGB value that
    converts to the colour types of embedded-graphics. A binary display
    lights a pixel only for white; the 15- and 16-bit formats keep the top
    bits of each 8-bit channel. */
module Color {
  newtype u8 = x: int | 0 <= x < 0x100
  newtype u5 = x: int | 0 <= x < 0x20
  newtype u6 = x: int | 0 <= x < 0x40

  /** A 24-bit RGB colour. */
  datatype Rgb = Rgb(r: u8, g: u8, b: u8)

  const WHITE: Rgb := Rgb(255, 255, 255)

  datatype BinaryColor = Off | On
  datatype Rgb888 = Rgb888(r: u8, g: u8, b: u8)
  datatype Rgb555 = Rgb555(r: u5, g: u5, b: u5)
  datatype Rgb565 = Rgb565(r: u5, g: u6, b: u5)

  /** A pixel is on exactly for white, off for every other colour. */
  function ToBinaryColor(c: Rgb): (r: BinaryColor)
    ensures r == On <==> c == WHITE
  {
    if c == Rgb(255, 255, 255) then On else Off
  }

  /** The same colour in embedded-graphics' 24-bit type. */
  function ToRgb888(c: Rgb): (r: Rgb888)
    ensures Rgb(r.r, r.g, r.b) == c
  {
    Rgb888(c.r, c.g, c.b)
  }

  /** Each channel keeps its top five bits (`>> 3`, a division by 8). */
  function ToRgb555(c: Rgb): (r: Rgb555)
    ensures r.r as int * 8 <= c.r as int < r.r as int * 8 + 8
    ensures r.g as int * 8 <= c.g as int < r.g as int * 8 + 8
    ensures r.b as int * 8 <= c.b as int < r.b as int * 8 + 8
  {
    Rgb555((c.r / 8) as u5, (c.g / 8) as u5, (c.b / 8) as u5)
  }

  /** Red and blue keep their top five bits (`>> 3`), green its top six
      (`>> 2`, a division by 4). */
  function ToRgb565(c: Rgb): (r: Rgb565)
    ensures r.r as int * 8 <= c.r as int < r.r as int * 8 + 8
    ensures r.g as int * 4 <= c.g as int < r.g as int * 4 + 4
    ensures r.b as int * 8 <= c.b as int < r.b as int * 8 + 8
  {
    Rgb565((c.r / 8) as u5, (c.g / 4) as u6, (c.b / 8) as u5)
  }

  /** The 24-bit conversion loses nothing: distinct colours stay distinct. */
  lemma Rgb888Lossless(c: Rgb, d: Rgb)
    ensures ToRgb888(c) == ToRgb888(d) <==> c == d
  {
  }

  /** A 15-bit colour widened to 24 bits (its channels shifted back up)
      converts back to itself: the conversion keeps all the information a
      15-bit colour can hold. */
  lemma Rgb555RoundTrip(x: Rgb555)
    ensures ToRgb555(Rgb(x.r as u8 * 8, x.g as u8 * 8, x.b as u8 * 8)) == x
  {
  }

  /** The same for a 16-bit colour, green shifted by two. */
  lemma Rgb565RoundTrip(x: Rgb565)
    ensures ToRgb565(Rgb(x.r as u8 * 8, x.g as u8 * 4, x.b as u8 * 8)) == x
  {
  }

  /** The narrower formats keep the order of channel intensities. */
  lemma ConversionsKeepOrder(c: Rgb, d: Rgb)
    requires c.r <= d.r && c.g <= d.g && c.b <= d.b
    ensures ToRgb555(c).r <= ToRgb555(d).r && ToRgb555(c).g <= ToRgb555(d).g && ToRgb555(c).b <= ToRgb555(d).b
    ensures ToRgb565(c).r <= ToRgb565(d).r && ToRgb565(c).g <= ToRgb565(d).g && ToRgb565(c).b <= ToRgb565(d).b
  {
  }

  /** White lights a binary pixel and is full intensity in every format. */
  lemma WhiteIsFullIntensity()
    ensures ToBinaryColor(WHITE) == On
    ensures ToRgb888(WHITE) == Rgb888(255, 255, 255)
    ensures ToRgb555(WHITE) == Rgb555(31, 31, 31)
    ensures ToRgb565(WHITE) == Rgb565(31, 63, 31)
  {
  }
}
