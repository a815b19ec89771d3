/** Colour values and the quantisers of termpixels/color.py that reduce a
    24-bit colour to the 16-colour and 256-colour terminal palettes. */
module Colors {

  /** One 8-bit colour component. */
  type Channel = c: int | 0 <= c <= 255

  /** A colour compared by its three components. */
  datatype Color = Color(r: Channel, g: Channel, b: Channel)

  const White := Color(255, 255, 255)
  const Black := Color(0, 0, 0)

  function Bit(set_: bool): nat { if set_ then 1 else 0 }

  /** `color_to_16`: bits 1, 2 and 4 are set by a red, green or blue component
      above 63, and 8 is added for a bright colour. */
  function ColorTo16(c: Color): (n: int)
    ensures 0 <= n < 16
    ensures c == Black ==> n == 0
    ensures n % 2 == 1 <==> c.r > 63
    ensures (n / 2) % 2 == 1 <==> c.g > 63
    ensures (n / 4) % 2 == 1 <==> c.b > 63
    ensures n >= 8 <==> c.r + c.g + c.b >= 127 * 3
  {
    if c.r == c.g == c.b == 0 then 0
    else
      var bright := c.r + c.g + c.b >= 127 * 3;
      Bit(c.r > 63) + 2 * Bit(c.g > 63) + 4 * Bit(c.b > 63) + (if bright then 8 else 0)
  }

  /** `int(c / 256 * 6)`: the float division is exact for 0..255, so this is
      the floor of 6c/256. */
  function Scale6(c: Channel): (s: int)
    ensures 0 <= s <= 5
  {
    6 * c / 256
  }

  /** `int(c / 256 * 24)`, exact in the same way. */
  function Scale24(c: Channel): (s: int)
    ensures 0 <= s <= 23
  {
    24 * c / 256
  }

  predicate IsGrey(c: Color) { c.r == c.g == c.b }

  /** The components 0..5 of an index of the 6x6x6 cube 16..231. */
  function CubeRed(n: int): int { (n - 16) / 36 }
  function CubeGreen(n: int): int { ((n - 16) / 6) % 6 }
  function CubeBlue(n: int): int { (n - 16) % 6 }

  /** `color_to_256`: greys go to the 24-step ramp 232..255 (white to 231),
      every other colour to the 6x6x6 cube, whose coordinates can be read back. */
  function ColorTo256(c: Color): (n: int)
    ensures IsGrey(c) && c.r == 255 ==> n == 231
    ensures IsGrey(c) && c.r < 255 ==> 232 <= n <= 255 && n - 232 == Scale24(c.r)
    ensures !IsGrey(c) ==> 16 <= n <= 231
    ensures !IsGrey(c) ==> CubeRed(n) == Scale6(c.r) && CubeGreen(n) == Scale6(c.g) && CubeBlue(n) == Scale6(c.b)
  {
    if c.r == c.g == c.b then
      if c.r == 255 then 231 else 232 + Scale24(c.r)
    else
      CubeDecodes(Scale6(c.r), Scale6(c.g), Scale6(c.b));
      16 + Scale6(c.b) + Scale6(c.g) * 6 + Scale6(c.r) * 6 * 6
  }

  lemma CubeDecodes(r: int, g: int, b: int)
    requires 0 <= r <= 5 && 0 <= g <= 5 && 0 <= b <= 5
    ensures var n := 16 + b + g * 6 + r * 6 * 6;
      CubeRed(n) == r && CubeGreen(n) == g && CubeBlue(n) == b
  {
    var k := b + g * 6 + r * 36;
    assert k == (g + r * 6) * 6 + b;
    assert k / 6 == g + r * 6;
    assert k % 6 == b;
    assert (g + r * 6) % 6 == g;
    assert k / 36 == r;
  }

  /** Two cube indices are equal exactly when the three scaled components are. */
  lemma CubeIndexInjective(c: Color, d: Color)
    requires !IsGrey(c) && !IsGrey(d)
    ensures ColorTo256(c) == ColorTo256(d) <==>
            (Scale6(c.r), Scale6(c.g), Scale6(c.b)) == (Scale6(d.r), Scale6(d.g), Scale6(d.b))
  {
  }

  /** A darker grey never gets a lighter ramp entry. */
  lemma {:induction false} GreyRampMonotone(a: Channel, b: Channel)
    requires a <= b < 255
    ensures ColorTo256(Color(a, a, a)) <= ColorTo256(Color(b, b, b))
  {
    assert 24 * a <= 24 * b;
  }


  /** The rough colours of the unit tests of `color_to_16`. */
  lemma ColorTo16Examples()
    ensures ColorTo16(Black) == 0
    ensures ColorTo16(Color(100, 0, 0)) == 1
    ensures ColorTo16(Color(0, 100, 0)) == 2
    ensures ColorTo16(Color(0, 0, 100)) == 4
    ensures ColorTo16(White) == 15
  {
  }

  /** The test's RGB colours of `color_to_256`; black goes to 232, the first
      ramp entry, not to cube entry 16. */
  lemma ColorTo256Examples()
    ensures ColorTo256(Color(255, 0, 0)) == 196
    ensures ColorTo256(Color(0, 255, 0)) == 46
    ensures ColorTo256(Color(0, 0, 255)) == 21
    ensures ColorTo256(Color(127, 127, 255)) == 105
    ensures ColorTo256(White) == 231
    ensures ColorTo256(Black) == 232
    ensures ColorTo256(Color(204, 204, 204)) == 251
  {
  }
}
