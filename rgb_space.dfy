/** The colour scale of the LED strip: a load level in 0..1020 mapped piecewise linearly onto
    red -> magenta -> blue -> cyan -> green. */
module RgbSpaces {
  import opened Wrappers
  import Decimal
  import CompositeErrors

  newtype uint8 = x: int | 0 <= x < 0x100
  newtype uint16 = x: int | 0 <= x < 0x1_0000

  const RGB_MIN: uint8 := 0
  const RGB_MAX: uint8 := 255
  const SPACE_MIN: uint16 := 0
  const SPACE_MAX: uint16 := 1020
  const TRESHOLD_INC_B_STILL_R: uint16 := 255
  const TRESHOLD_DSC_R_STILL_B: uint16 := 510
  const TRESHOLD_INC_G_STILL_R: uint16 := 765

  /** A point of the colour scale. */
  datatype RgbSpace = RgbSpace(rgbValue: uint16)

  /** The three colour components. */
  datatype Rgb = Rgb(red: uint8, green: uint8, blue: uint8)

  /** Go's uint16 subtraction, which wraps around modulo 2^16. */
  function Sub16(a: uint16, b: uint16): uint16 {
    ((a as int - b as int) % 0x1_0000) as uint16
  }

  /** Go's conversion uint8(x) of a uint16, which keeps the low eight bits. */
  function ToUint8(x: uint16): uint8 {
    (x as int % 0x100) as uint8
  }

  /** The text of the error for an out-of-range value. */
  function OutOfRangeDescription(rgbValue: uint16): string {
    "Specified color value is out of range <0, 1020>: " + Decimal.NatToString(rgbValue as nat)
  }

  /** The constructor: a point of the scale for a value in 0..1020, and otherwise the
      composite error (id 1) that names the value, stamped with the clock reading `now`. */
  function NewRgbSpace(rgbValue: uint16, now: string): (r: Result<RgbSpace, string>)
    ensures r.Success? <==> rgbValue <= SPACE_MAX
    ensures r.Success? ==> r.value.rgbValue == rgbValue
    ensures r.Failure? ==>
      r.error == CompositeErrors.Message([CompositeErrors.ErrorEntry(1, OutOfRangeDescription(rgbValue), now)])
  {
    if SPACE_MIN <= rgbValue && rgbValue <= SPACE_MAX then
      Success(RgbSpace(rgbValue))
    else
      var err := CompositeErrors.Evaluated([CompositeErrors.ErrorEntry(1, OutOfRangeDescription(rgbValue), now)]);
      Failure(err.value)
  }

  /** The components of a point, computed with Go's unsigned arithmetic and conversions. */
  function ColorComponents(s: RgbSpace): Rgb {
    var v := s.rgbValue;
    if v <= TRESHOLD_INC_B_STILL_R then
      Rgb(RGB_MAX, RGB_MIN, ToUint8(v))
    else if v <= TRESHOLD_DSC_R_STILL_B then
      Rgb(ToUint8(Sub16(TRESHOLD_DSC_R_STILL_B, v)), RGB_MIN, RGB_MAX)
    else if v <= TRESHOLD_INC_G_STILL_R then
      Rgb(RGB_MIN, ToUint8(Sub16(v, TRESHOLD_DSC_R_STILL_B)), RGB_MAX)
    else
      Rgb(RGB_MIN, RGB_MAX, ToUint8(Sub16(SPACE_MAX, v)))
  }

  /** The intended piecewise linear map on integers, with no wrap-around or truncation. */
  function Ideal(v: int): (int, int, int) {
    if v <= 255 then (255, 0, v)
    else if v <= 510 then (510 - v, 0, 255)
    else if v <= 765 then (0, v - 510, 255)
    else (0, 255, 1020 - v)
  }

  function AsTriple(c: Rgb): (int, int, int) {
    (c.red as int, c.green as int, c.blue as int)
  }

  /** For every value the constructor accepts, the unsigned conversions never wrap: the
      components are exactly the piecewise linear map. */
  lemma ComponentsExact(v: uint16)
    requires v <= SPACE_MAX
    ensures AsTriple(ColorComponents(RgbSpace(v))) == Ideal(v as int)
  {
  }

  /** The two ends of the scale are pure red and pure green. */
  lemma Endpoints()
    ensures ColorComponents(RgbSpace(0)) == Rgb(255, 0, 0)
    ensures ColorComponents(RgbSpace(1020)) == Rgb(0, 255, 0)
  {
  }

  /** Every accepted colour is fully saturated: one component is 255 and another is 0. */
  lemma Saturated(v: uint16)
    requires v <= SPACE_MAX
    ensures var c := ColorComponents(RgbSpace(v));
            (c.red == 255 || c.green == 255 || c.blue == 255) &&
            (c.red == 0 || c.green == 0 || c.blue == 0)
  {
  }

  function Dist(a: uint8, b: uint8): int {
    if a <= b then b as int - a as int else a as int - b as int
  }

  /** Neighbouring values differ by one step in exactly one component: the scale is continuous. */
  lemma Continuous(v: uint16)
    requires v < SPACE_MAX
    ensures var c := ColorComponents(RgbSpace(v));
            var d := ColorComponents(RgbSpace(v + 1));
            Dist(c.red, d.red) + Dist(c.green, d.green) + Dist(c.blue, d.blue) == 1
  {
    ComponentsExact(v);
    ComponentsExact(v + 1);
  }

  /** Reads a value back from its colour; None for a colour that is not on the scale. */
  function ValueOf(c: Rgb): (v: Option<uint16>)
    ensures v.Some? ==> v.value <= SPACE_MAX
  {
    if c.red == 255 && c.green == 0 then Some(c.blue as int as uint16)
    else if c.green == 0 && c.blue == 255 then Some((510 - c.red as int) as uint16)
    else if c.red == 0 && c.blue == 255 then Some((510 + c.green as int) as uint16)
    else if c.red == 0 && c.green == 255 then Some((1020 - c.blue as int) as uint16)
    else None
  }

  /** The map is one-to-one on 0..1020: the value is recovered from its colour. */
  lemma ValueOfColorComponents(v: uint16)
    requires v <= SPACE_MAX
    ensures ValueOf(ColorComponents(RgbSpace(v))) == Some(v)
  {
    ComponentsExact(v);
    var c := ColorComponents(RgbSpace(v));
    var x := v as int;
    if x <= 255 {
      assert c.red == 255 && c.green == 0 && c.blue as int == x;
    } else if x <= 510 {
      assert c.red as int == 510 - x && c.green == 0 && c.blue == 255;
    } else if x <= 765 {
      assert c.red == 0 && c.green as int == x - 510 && c.blue == 255;
    } else {
      assert c.red == 0 && c.green == 255 && c.blue as int == 1020 - x;
    }
  }

  /** ... and every colour on the scale comes from exactly that value. */
  lemma ColorComponentsOfValue(c: Rgb)
    requires ValueOf(c).Some?
    ensures ColorComponents(RgbSpace(ValueOf(c).value)) == c
  {
    var v := ValueOf(c).value;
    ComponentsExact(v);
    var t := AsTriple(ColorComponents(RgbSpace(v)));
    assert t == Ideal(v as int);
    if c.red == 255 && c.green == 0 {
      assert v as int == c.blue as int;
    } else if c.green == 0 && c.blue == 255 {
      assert v as int == 510 - c.red as int;
    } else if c.red == 0 && c.blue == 255 {
      assert v as int == 510 + c.green as int;
    } else {
      assert v as int == 1020 - c.blue as int;
    }
    assert t == AsTriple(c);
  }

  /** Values above the range are refused, and would wrap around if converted anyway. */
  lemma AboveRangeWraps()
    ensures NewRgbSpace(1021, "t").Failure?
    ensures ColorComponents(RgbSpace(1021)) == Rgb(0, 255, 255)
  {
  }
}
