/**
  Colour-space helpers and harmony generators of the palette builder
  (src/lib/colorUtils.ts): the hex validity check, the hex/RGB codec,
  the RGB to HSL conversion, the black-or-white contrast decision and the
  generators of tints, shades and hue harmonies.

  Numbers that JavaScript keeps as doubles are `real` here; nothing is
  claimed bit for bit about floating point. `hslToHex` is not given a
  definition: the generators take it as a parameter of type `HslToHex`.
 */
module ColorUtils {
  import opened Wrappers

  // ---------------------------------------------------------------------
  // Hex digits
  // ---------------------------------------------------------------------

  /** `[0-9A-Fa-f]`, the digit class of both regular expressions. */
  predicate IsHexDigit(c: char) {
    '0' <= c <= '9' || 'a' <= c <= 'f' || 'A' <= c <= 'F'
  }

  predicate AllHexDigits(s: string) {
    forall i :: 0 <= i < |s| ==> IsHexDigit(s[i])
  }

  /** A digit as `Number.prototype.toString(16)` writes it: `0-9a-f`. */
  predicate IsLowerHexDigit(c: char) {
    '0' <= c <= '9' || 'a' <= c <= 'f'
  }

  /** The value `parseInt(_, 16)` gives one digit, in either case. */
  function DigitValue(c: char): (v: nat)
    requires IsHexDigit(c)
    ensures v < 16
  {
    if '0' <= c <= '9' then c as int - '0' as int
    else if 'a' <= c <= 'f' then c as int - 'a' as int + 10
    else c as int - 'A' as int + 10
  }

  /** The lower-case digit of a value below 16. */
  function DigitChar(v: nat): (c: char)
    requires v < 16
    ensures IsLowerHexDigit(c) && DigitValue(c) == v
  {
    if v < 10 then ('0' as int + v) as char else ('a' as int + v - 10) as char
  }

  /** ASCII lower-casing of a hex digit. */
  function LowerDigit(c: char): char {
    if 'A' <= c <= 'F' then (c as int - 'A' as int + 'a' as int) as char else c
  }

  function LowerDigits(s: string): (t: string)
    ensures |t| == |s| && forall i :: 0 <= i < |s| ==> t[i] == LowerDigit(s[i])
  {
    seq(|s|, i requires 0 <= i < |s| => LowerDigit(s[i]))
  }

  // ---------------------------------------------------------------------
  // isValidHex
  // ---------------------------------------------------------------------

  /** `/^#([A-Fa-f0-9]{6}|[A-Fa-f0-9]{3})$/`: a `#` and then exactly six or
      exactly three hex digits. */
  predicate IsValidHex(s: string) {
    (|s| == 7 || |s| == 4) && s[0] == '#' && AllHexDigits(s[1..])
  }

  // ---------------------------------------------------------------------
  // hexToRgb
  // ---------------------------------------------------------------------

  /** A colour as three channel numbers. */
  datatype Rgb = Rgb(r: int, g: int, b: int)

  predicate InByteRange(c: Rgb) {
    0 <= c.r <= 255 && 0 <= c.g <= 255 && 0 <= c.b <= 255
  }

  /** The six digits captured by `/^#?([a-f\d]{2})([a-f\d]{2})([a-f\d]{2})$/i`,
      or `None` when the pattern does not match. */
  function CapturedDigits(hex: string): (d: Option<string>)
    ensures d.Some? ==> |d.value| == 6 && AllHexDigits(d.value)
  {
    var body := if |hex| == 7 && hex[0] == '#' then hex[1..] else hex;
    if |body| == 6 && AllHexDigits(body) then Some(body) else None
  }

  /** `parseInt` of a two-digit capture group. */
  function PairValue(hi: char, lo: char): (v: nat)
    requires IsHexDigit(hi) && IsHexDigit(lo)
    ensures v <= 255
  {
    16 * DigitValue(hi) + DigitValue(lo)
  }

  /** hexToRgb: the three channels of a matching string, `(0, 0, 0)` for
      anything else. */
  function HexToRgb(hex: string): (c: Rgb)
    ensures InByteRange(c)
  {
    match CapturedDigits(hex)
    case None => Rgb(0, 0, 0)
    case Some(d) => Rgb(PairValue(d[0], d[1]), PairValue(d[2], d[3]), PairValue(d[4], d[5]))
  }

  /** The leading `#` is optional for hexToRgb, while isValidHex insists on it;
      a valid three-digit colour is not understood by hexToRgb and reads as
      black, and so does every string that is neither form. */
  lemma HexToRgbAcceptedForms(hex: string)
    ensures |hex| == 6 && AllHexDigits(hex) ==>
              !IsValidHex(hex) && HexToRgb(hex) == HexToRgb("#" + hex)
    ensures IsValidHex(hex) && |hex| == 4 ==> HexToRgb(hex) == Rgb(0, 0, 0)
    ensures !(|hex| == 6 && AllHexDigits(hex)) && !(IsValidHex(hex) && |hex| == 7) ==>
              HexToRgb(hex) == Rgb(0, 0, 0)
  {
    if |hex| == 6 && AllHexDigits(hex) {
      assert ("#" + hex)[1..] == hex;
    }
    if |hex| == 7 && hex[0] == '#' {
      assert IsValidHex(hex) <==> AllHexDigits(hex[1..]);
    }
  }

  // ---------------------------------------------------------------------
  // rgbToHex
  // ---------------------------------------------------------------------

  /** `x.toString(16)` of a non-negative integer: its hex digits, most
      significant first, without leading zeros. */
  function HexString(x: nat): (s: string)
    decreases x
  {
    if x < 16 then [DigitChar(x)] else HexString(x / 16) + [DigitChar(x % 16)]
  }

  /** `x.toString(16)` of any integer. */
  function NumberToHex(x: int): string {
    if x < 0 then "-" + HexString(-x) else HexString(x)
  }

  /** The `hex.length === 1 ? "0" + hex : hex` step. */
  function PadTwo(s: string): string {
    if |s| == 1 then "0" + s else s
  }

  /** One channel of rgbToHex: its `toString(16)`, padded to two characters
      when it has one. */
  function ChannelHex(x: int): string {
    PadTwo(NumberToHex(x))
  }

  /** rgbToHex: `#` and the three channels. There is no clamping. */
  function RgbToHex(r: int, g: int, b: int): string {
    "#" + ChannelHex(r) + ChannelHex(g) + ChannelHex(b)
  }

  /** A channel in [0, 255] becomes exactly two lower-case digits, high digit first. */
  lemma ChannelDigits(x: int)
    requires 0 <= x <= 255
    ensures ChannelHex(x) == [DigitChar(x / 16), DigitChar(x % 16)]
  {
    if x >= 16 {
      assert HexString(x / 16) == [DigitChar(x / 16)];
    }
  }

  /** The two digits of a channel read back as that channel. */
  lemma ChannelPairValue(x: int)
    requires 0 <= x <= 255
    ensures PairValue(DigitChar(x / 16), DigitChar(x % 16)) == x
  {
  }

  /** hexToRgb of a `#` and six digits reads the three digit pairs. */
  lemma HexToRgbOfSix(s: string)
    requires |s| == 7 && s[0] == '#' && AllHexDigits(s[1..])
    ensures HexToRgb(s) == Rgb(PairValue(s[1], s[2]), PairValue(s[3], s[4]), PairValue(s[5], s[6]))
  {
    assert CapturedDigits(s) == Some(s[1..]);
  }

  /** For channels in [0, 255], rgbToHex gives `#` and six lower-case digits;
      the string passes isValidHex and hexToRgb reads back the same channels. */
  lemma {:induction false} RgbToHexRoundTrip(r: int, g: int, b: int)
    requires InByteRange(Rgb(r, g, b))
    ensures |RgbToHex(r, g, b)| == 7 && RgbToHex(r, g, b)[0] == '#'
    ensures forall i :: 1 <= i < 7 ==> IsLowerHexDigit(RgbToHex(r, g, b)[i])
    ensures IsValidHex(RgbToHex(r, g, b))
    ensures HexToRgb(RgbToHex(r, g, b)) == Rgb(r, g, b)
  {
    RgbToHexShape(r, g, b);
    var t := ['#', DigitChar(r / 16), DigitChar(r % 16), DigitChar(g / 16),
              DigitChar(g % 16), DigitChar(b / 16), DigitChar(b % 16)];
    LowerSixValid(t);
    HexToRgbOfSix(t);
    ChannelPairValue(r);
    ChannelPairValue(g);
    ChannelPairValue(b);
  }

  /** rgbToHex of byte channels, character by character. */
  lemma RgbToHexShape(r: int, g: int, b: int)
    requires InByteRange(Rgb(r, g, b))
    ensures RgbToHex(r, g, b) == ['#', DigitChar(r / 16), DigitChar(r % 16), DigitChar(g / 16),
                                  DigitChar(g % 16), DigitChar(b / 16), DigitChar(b % 16)]
  {
    ChannelDigits(r);
    ChannelDigits(g);
    ChannelDigits(b);
  }

  /** `#` and six lower-case digits form a valid six-digit hex. */
  lemma LowerSixValid(t: string)
    requires |t| == 7 && t[0] == '#'
    requires forall i :: 1 <= i < 7 ==> IsLowerHexDigit(t[i])
    ensures AllHexDigits(t[1..]) && IsValidHex(t)
  {
    assert forall i :: 0 <= i < 6 ==> t[1..][i] == t[i + 1];
  }

  /** The other direction: a six-digit isValidHex string survives
      hexToRgb followed by rgbToHex up to the case of its letters. */
  lemma {:induction false} HexToRgbRoundTrip(hex: string)
    requires IsValidHex(hex) && |hex| == 7
    ensures RgbToHex(HexToRgb(hex).r, HexToRgb(hex).g, HexToRgb(hex).b) == "#" + LowerDigits(hex[1..])
  {
    var d := hex[1..];
    assert CapturedDigits(hex) == Some(d);
    RgbToHexOfPairs(d);
  }

  /** rgbToHex of the three pairs of six digits writes those digits back,
      lower-cased. */
  lemma RgbToHexOfPairs(d: string)
    requires |d| == 6 && AllHexDigits(d)
    ensures RgbToHex(PairValue(d[0], d[1]), PairValue(d[2], d[3]), PairValue(d[4], d[5])) == "#" + LowerDigits(d)
  {
    PairDigits(d[0], d[1]);
    PairDigits(d[2], d[3]);
    PairDigits(d[4], d[5]);
    RgbToHexOfChannels(PairValue(d[0], d[1]), PairValue(d[2], d[3]), PairValue(d[4], d[5]), LowerDigits(d));
  }

  /** rgbToHex of byte channels whose digits spell out `t`. */
  lemma RgbToHexOfChannels(r: int, g: int, b: int, t: string)
    requires InByteRange(Rgb(r, g, b)) && |t| == 6
    requires DigitChar(r / 16) == t[0] && DigitChar(r % 16) == t[1]
    requires DigitChar(g / 16) == t[2] && DigitChar(g % 16) == t[3]
    requires DigitChar(b / 16) == t[4] && DigitChar(b % 16) == t[5]
    ensures RgbToHex(r, g, b) == "#" + t
  {
    RgbToHexShape(r, g, b);
    assert "#" + t == ['#', t[0], t[1], t[2], t[3], t[4], t[5]];
  }

  /** The two digits rgbToHex writes for a parsed pair are the pair's own
      digits, lower-cased. */
  lemma PairDigits(hi: char, lo: char)
    requires IsHexDigit(hi) && IsHexDigit(lo)
    ensures DigitChar(PairValue(hi, lo) / 16) == LowerDigit(hi)
    ensures DigitChar(PairValue(hi, lo) % 16) == LowerDigit(lo)
  {
    var v := PairValue(hi, lo);
    assert v / 16 == DigitValue(hi) && v % 16 == DigitValue(lo);
    DigitOfValue(hi);
    DigitOfValue(lo);
  }

  lemma DigitOfValue(c: char)
    requires IsHexDigit(c)
    ensures DigitChar(DigitValue(c)) == LowerDigit(c)
  {
  }

  /** No clamping: a channel above 255 gives a string isValidHex rejects. */
  lemma RgbToHexDoesNotClamp()
    ensures !IsValidHex(RgbToHex(256, 0, 0))
  {
    assert HexString(256 / 16) == HexString(16 / 16) + [DigitChar(0)];
    assert |PadTwo(NumberToHex(256))| == 3;
  }

  // ---------------------------------------------------------------------
  // getContrastColor
  // ---------------------------------------------------------------------

  /** getContrastColor: black text on a colour whose weighted brightness
      `(299 r + 587 g + 114 b) / 1000` exceeds 128, white text otherwise. */
  function GetContrastColor(hex: string): string {
    var c := HexToRgb(hex);
    var brightness := (c.r * 299 + c.g * 587 + c.b * 114) as real / 1000.0;
    if brightness > 128.0 then "#000000" else "#ffffff"
  }

  /** The decision is an integer threshold on the weighted sum; a string
      hexToRgb does not understand reads as black and gets white text. */
  lemma ContrastThreshold(hex: string)
    ensures GetContrastColor(hex) == "#000000" || GetContrastColor(hex) == "#ffffff"
    ensures var c := HexToRgb(hex);
            GetContrastColor(hex) == "#000000" <==> 299 * c.r + 587 * c.g + 114 * c.b > 128000
    ensures CapturedDigits(hex).None? ==> GetContrastColor(hex) == "#ffffff"
  {
    var c := HexToRgb(hex);
    var n := c.r * 299 + c.g * 587 + c.b * 114;
    assert n as real / 1000.0 > 128.0 <==> n > 128000;
    assert "#000000" != "#ffffff" by { assert "#000000"[1] != "#ffffff"[1]; }
  }

  // ---------------------------------------------------------------------
  // hexToHsl
  // ---------------------------------------------------------------------

  /** A colour as hue in degrees and saturation and lightness in percent. */
  datatype Hsl = Hsl(h: int, s: int, l: int)

  /** `Math.round`: halves round up. */
  function Round(x: real): int {
    (x + 0.5).Floor
  }

  function Max3(a: real, b: real, c: real): (m: real)
    ensures (m == a || m == b || m == c) && a <= m && b <= m && c <= m
  {
    if a >= b && a >= c then a else if b >= c then b else c
  }

  function Min3(a: real, b: real, c: real): (m: real)
    ensures (m == a || m == b || m == c) && m <= a && m <= b && m <= c
  {
    if a <= b && a <= c then a else if b <= c then b else c
  }

  /** The hue, saturation and lightness hexToHsl computes as fractions of
      one turn and of one, before they are scaled and rounded. */
  datatype Fractions = Fractions(h: real, s: real, l: real)

  /** Lines 27-54 of hexToHsl: normalise the channels, take max, min and
      their difference; a grey (`diff == 0`) keeps hue and saturation 0;
      otherwise the `switch (max)` picks the first channel equal to the
      maximum, red before green before blue. */
  function HslFractions(c: Rgb): Fractions
    requires InByteRange(c)
  {
    var rN := c.r as real / 255.0;
    var gN := c.g as real / 255.0;
    var bN := c.b as real / 255.0;
    var mx := Max3(rN, gN, bN);
    var mn := Min3(rN, gN, bN);
    var diff := mx - mn;
    var l := (mx + mn) / 2.0;
    if diff == 0.0 then Fractions(0.0, 0.0, l)
    else
      var s := if l > 0.5 then diff / (2.0 - mx - mn) else diff / (mx + mn);
      var h :=
        if mx == rN then (gN - bN) / diff + (if gN < bN then 6.0 else 0.0)
        else if mx == gN then (bN - rN) / diff + 2.0
        else if mx == bN then (rN - gN) / diff + 4.0
        else 0.0;
      Fractions(h / 6.0, s, l)
  }

  /** hexToHsl: the fractions scaled to degrees and percent and rounded. */
  function HexToHsl(hex: string): Hsl {
    var f := HslFractions(HexToRgb(hex));
    Hsl(Round(f.h * 360.0), Round(f.s * 100.0), Round(f.l * 100.0))
  }

  /** A quotient whose numerator lies within the positive denominator. */
  lemma QuotientBounds(a: real, d: real)
    requires d > 0.0 && -d <= a <= d
    ensures -1.0 <= a / d <= 1.0
    ensures a < 0.0 ==> a / d < 0.0
    ensures a >= 0.0 ==> a / d >= 0.0
  {
    var q := a / d;
    assert q * d == a;
  }

  /** Rounding keeps a value inside integer bounds. */
  lemma RoundBounds(x: real, hi: int)
    requires 0.0 <= x <= hi as real
    ensures 0 <= Round(x) <= hi
  {
  }

  lemma {:induction false} FractionBounds(c: Rgb)
    requires InByteRange(c)
    ensures var f := HslFractions(c);
            && 0.0 <= f.h < 1.0 && 0.0 <= f.s <= 1.0 && 0.0 <= f.l <= 1.0
            && (c.r == c.g == c.b ==> f.h == 0.0 && f.s == 0.0)
  {
    var rN := c.r as real / 255.0;
    var gN := c.g as real / 255.0;
    var bN := c.b as real / 255.0;
    var mx := Max3(rN, gN, bN);
    var mn := Min3(rN, gN, bN);
    var diff := mx - mn;
    var l := (mx + mn) / 2.0;
    if diff != 0.0 {
      if l > 0.5 {
        QuotientBounds(diff, 2.0 - mx - mn);
      } else {
        QuotientBounds(diff, mx + mn);
      }
      if mx == rN {
        QuotientBounds(gN - bN, diff);
      } else if mx == gN {
        QuotientBounds(bN - rN, diff);
      } else {
        QuotientBounds(rN - gN, diff);
      }
    }
  }

  /** hexToHsl gives h in [0, 360] and s, l in [0, 100]; a grey has hue and
      saturation 0, and a string hexToRgb does not understand is black. */
  lemma {:induction false} HexToHslBounds(hex: string)
    ensures var hsl := HexToHsl(hex);
            && 0 <= hsl.h <= 360 && 0 <= hsl.s <= 100 && 0 <= hsl.l <= 100
    ensures var c := HexToRgb(hex);
            c.r == c.g == c.b ==> HexToHsl(hex).h == 0 && HexToHsl(hex).s == 0
    ensures CapturedDigits(hex).None? ==> HexToHsl(hex) == Hsl(0, 0, 0)
  {
    var c := HexToRgb(hex);
    var f := HslFractions(c);
    FractionBounds(c);
    RoundBounds(f.h * 360.0, 360);
    RoundBounds(f.s * 100.0, 100);
    RoundBounds(f.l * 100.0, 100);
  }

  /** The upper bound 360 is reached: for `#ff0001` the hue fraction is
      `(6 - 1/255) / 6`, which is 359.76 degrees and rounds to 360. */
  lemma Hue360Reachable()
    ensures HexToHsl("#ff0001") == Hsl(360, 100, 50)
  {
    HexToRgbOfSix("#ff0001");
    assert HexToRgb("#ff0001") == Rgb(255, 0, 1);
    var f := HslFractions(Rgb(255, 0, 1));
    assert f.h == (-(1.0 / 255.0) / 1.0 + 6.0) / 6.0;
  }

  // ---------------------------------------------------------------------
  // hslToHex
  // ---------------------------------------------------------------------

  /** hslToHex(h, s, l). It is not defined here: every generator takes it
      as a parameter, so nothing below depends on its arithmetic. */
  type HslToHex = (real, real, real) -> string

  /** Unscaled channel values. */
  datatype UnitRgb = UnitRgb(r: real, g: real, b: real)

  /** Lines 71-85 of hslToHex: the 60-degree sector of the hue decides which
      channel gets the chroma `c`, which the intermediate `x` and which 0.
      A hue outside [0, 360) matches no branch and all three stay 0. */
  function SectorChannels(h: real, c: real, x: real): UnitRgb {
    if 0.0 <= h < 60.0 then UnitRgb(c, x, 0.0)
    else if 60.0 <= h < 120.0 then UnitRgb(x, c, 0.0)
    else if 120.0 <= h < 180.0 then UnitRgb(0.0, c, x)
    else if 180.0 <= h < 240.0 then UnitRgb(0.0, x, c)
    else if 240.0 <= h < 300.0 then UnitRgb(x, 0.0, c)
    else if 300.0 <= h < 360.0 then UnitRgb(c, 0.0, x)
    else UnitRgb(0.0, 0.0, 0.0)
  }

  /** Inside [0, 360) one channel gets the chroma and one gets 0; outside,
      no branch is taken and the colour is grey whatever the chroma. */
  lemma SectorCoverage(h: real, c: real, x: real)
    ensures var u := SectorChannels(h, c, x);
            0.0 <= h < 360.0 ==> (u.r == c || u.g == c || u.b == c) && (u.r == 0.0 || u.g == 0.0 || u.b == 0.0)
    ensures !(0.0 <= h < 360.0) ==> SectorChannels(h, c, x) == UnitRgb(0.0, 0.0, 0.0)
  {
  }

  // ---------------------------------------------------------------------
  // Hue arithmetic
  // ---------------------------------------------------------------------

  /** JavaScript's `%` on integers: the remainder has the dividend's sign. */
  function JsRem(a: int, n: int): int
    requires n > 0
  {
    if a >= 0 then a % n else -((-a) % n)
  }

  /** Hue of step `i` (from -2 to 2) of generateAnalogous. */
  function AnalogousHue(h: int, i: int): int {
    JsRem(h + i * 30 + 360, 360)
  }

  /** Hue of the second colour of generateComplementary. */
  function ComplementaryHue(h: int): int {
    JsRem(h + 180, 360)
  }

  /** Hue of step `i` (from 0 to 2) of generateTriadic. */
  function TriadicHue(h: int, i: int): int {
    JsRem(h + i * 120, 360)
  }

  /** hexToHsl's bounds: what the generators may assume of their base. */
  predicate InHslRange(c: Hsl) {
    0 <= c.h <= 360 && 0 <= c.s <= 100 && 0 <= c.l <= 100
  }

  /** Every harmony hue of a base in range lies in [0, 360), so hslToHex
      always takes one of its branches for it, and it is the base hue turned
      by the offset, modulo 360. */
  lemma HarmonyHues(c: Hsl)
    requires InHslRange(c)
    ensures forall i :: -2 <= i <= 2 ==>
              0 <= AnalogousHue(c.h, i) < 360 && (AnalogousHue(c.h, i) - c.h - 30 * i) % 360 == 0
    ensures 0 <= ComplementaryHue(c.h) < 360 && (ComplementaryHue(c.h) - c.h - 180) % 360 == 0
    ensures forall i :: 0 <= i <= 2 ==>
              0 <= TriadicHue(c.h, i) < 360 && (TriadicHue(c.h, i) - c.h - 120 * i) % 360 == 0
  {
    forall i | -2 <= i <= 2
      ensures 0 <= AnalogousHue(c.h, i) < 360 && (AnalogousHue(c.h, i) - c.h - 30 * i) % 360 == 0
    {
      HueTurn(c.h, i * 30 + 360, 30 * i);
    }
    HueTurn(c.h, 180, 180);
    forall i | 0 <= i <= 2
      ensures 0 <= TriadicHue(c.h, i) < 360 && (TriadicHue(c.h, i) - c.h - 120 * i) % 360 == 0
    {
      HueTurn(c.h, i * 120, 120 * i);
    }
  }

  /** Turning hue `h` by `offset` degrees with JavaScript's `% 360` gives a
      hue in [0, 360) that is `h` turned by `turn`, when the offset and the
      turn differ by whole turns. */
  lemma HueTurn(h: int, offset: int, turn: int)
    requires 0 <= h + offset && (offset - turn) % 360 == 0
    ensures 0 <= JsRem(h + offset, 360) < 360
    ensures (JsRem(h + offset, 360) - h - turn) % 360 == 0
  {
    var a := h + offset;
    TurnedHue(a);
    var k := (offset - turn) / 360 - a / 360;
    assert offset - turn == 360 * ((offset - turn) / 360);
    assert JsRem(a, 360) - h - turn == 360 * k;
    WholeTurns(k);
  }

  /** Whole turns are 0 modulo 360. */
  lemma WholeTurns(k: int)
    ensures (360 * k) % 360 == 0
  {
  }

  /** A non-negative hue sum reduced by JavaScript's `% 360` lands in
      [0, 360) and differs from the sum by whole turns. */
  lemma TurnedHue(a: int)
    requires a >= 0
    ensures 0 <= JsRem(a, 360) < 360 && JsRem(a, 360) == a - 360 * (a / 360)
  {
  }

  // ---------------------------------------------------------------------
  // generateTints, generateShades
  // ---------------------------------------------------------------------

  function MinReal(a: real, b: real): real {
    if a <= b then a else b
  }

  function MaxReal(a: real, b: real): real {
    if a >= b then a else b
  }

  /** Number of iterations of `for (let i = 0; i < count; i++)`. */
  function Steps(count: int): nat {
    if count < 0 then 0 else count
  }

  /** The step fraction `i / (count - 1)` of both generators. */
  function StepRatio(i: int, count: int): real
    requires count != 1
  {
    i as real / (count - 1) as real
  }

  /** Lightness of tint `i`: `min(100, l + (100 - l) * (i / (count - 1)))`. */
  function TintLightness(l: int, i: int, count: int): real
    requires count != 1
  {
    MinReal(100.0, l as real + (100 - l) as real * StepRatio(i, count))
  }

  /** Lightness of shade `i`: `max(0, l - l * (i / (count - 1)))`. */
  function ShadeLightness(l: int, i: int, count: int): real
    requires count != 1
  {
    MaxReal(0.0, l as real - l as real * StepRatio(i, count))
  }

  /** What generateTints returns for a base of HSL `c`: its hue and
      saturation, stepped lightness. */
  function Tints(toHex: HslToHex, c: Hsl, count: int): seq<string>
    requires count != 1
  {
    seq(Steps(count), i requires 0 <= i < Steps(count) =>
      toHex(c.h as real, c.s as real, TintLightness(c.l, i, count)))
  }

  /** What generateShades returns for a base of HSL `c`. */
  function Shades(toHex: HslToHex, c: Hsl, count: int): seq<string>
    requires count != 1
  {
    seq(Steps(count), i requires 0 <= i < Steps(count) =>
      toHex(c.h as real, c.s as real, ShadeLightness(c.l, i, count)))
  }

  /** generateTints. `count == 1` divides 0 by 0 in the source. */
  method GenerateTints(toHex: HslToHex, baseHex: string, count: int) returns (tints: seq<string>)
    requires count != 1
    ensures tints == Tints(toHex, HexToHsl(baseHex), count)
  {
    var c := HexToHsl(baseHex);
    tints := FillTints(toHex, c, count);
  }

  /** The loop of generateTints, once the base is converted to HSL. */
  method FillTints(toHex: HslToHex, c: Hsl, count: int) returns (tints: seq<string>)
    requires count != 1
    ensures tints == Tints(toHex, c, count)
  {
    tints := [];
    var i := 0;
    while i < count
      invariant 0 <= i <= Steps(count)
      invariant |tints| == i
      invariant forall k :: 0 <= k < i ==>
        tints[k] == toHex(c.h as real, c.s as real, TintLightness(c.l, k, count))
    {
      var lightness := c.l as real + (100 - c.l) as real * (i as real / (count - 1) as real);
      assert MinReal(100.0, lightness) == TintLightness(c.l, i, count);
      tints := tints + [toHex(c.h as real, c.s as real, MinReal(100.0, lightness))];
      i := i + 1;
    }
  }

  /** generateShades. */
  method GenerateShades(toHex: HslToHex, baseHex: string, count: int) returns (shades: seq<string>)
    requires count != 1
    ensures shades == Shades(toHex, HexToHsl(baseHex), count)
  {
    var c := HexToHsl(baseHex);
    shades := FillShades(toHex, c, count);
  }

  /** The loop of generateShades, once the base is converted to HSL. */
  method FillShades(toHex: HslToHex, c: Hsl, count: int) returns (shades: seq<string>)
    requires count != 1
    ensures shades == Shades(toHex, c, count)
  {
    shades := [];
    var i := 0;
    while i < count
      invariant 0 <= i <= Steps(count)
      invariant |shades| == i
      invariant forall k :: 0 <= k < i ==>
        shades[k] == toHex(c.h as real, c.s as real, ShadeLightness(c.l, k, count))
    {
      var lightness := c.l as real - c.l as real * (i as real / (count - 1) as real);
      assert MaxReal(0.0, lightness) == ShadeLightness(c.l, i, count);
      shades := shades + [toHex(c.h as real, c.s as real, MaxReal(0.0, lightness))];
      i := i + 1;
    }
  }

  /** The step fraction lies in [0, 1] and grows with the step. */
  lemma StepFraction(i: int, j: int, count: int)
    requires 0 <= i <= j < count && count >= 2
    ensures 0.0 <= StepRatio(i, count) <= StepRatio(j, count) <= 1.0
  {
    var d := (count - 1) as real;
    QuotientBounds(i as real, d);
    QuotientBounds(j as real, d);
    DivMonotone(i as real, j as real, d);
  }

  /** The step fraction is 0 at the first step and 1 at the last. */
  lemma StepEnds(count: int)
    requires count >= 2
    ensures StepRatio(0, count) == 0.0 && StepRatio(count - 1, count) == 1.0
  {
    var d := (count - 1) as real;
    assert (d / d) * d == d;
  }

  /** Dividing by a positive number keeps the order. */
  lemma DivMonotone(x: real, y: real, d: real)
    requires d > 0.0 && x <= y
    ensures x / d <= y / d
  {
  }

  /** Scaling by a non-negative factor keeps [0, 1] fractions in order. */
  lemma ScaleMonotone(a: real, x: real, y: real)
    requires a >= 0.0 && 0.0 <= x <= y <= 1.0
    ensures 0.0 <= a * x <= a * y <= a
  {
  }

  /** Tint lightness climbs with the step, from l to 100. */
  lemma TintLightnessOrder(l: int, i: int, j: int, count: int)
    requires 0 <= l <= 100 && 0 <= i <= j < count && count >= 2
    ensures l as real <= TintLightness(l, i, count) <= TintLightness(l, j, count) <= 100.0
    ensures TintLightness(l, 0, count) == l as real
    ensures TintLightness(l, count - 1, count) == 100.0
  {
    var a := (100 - l) as real;
    StepFraction(i, j, count);
    StepEnds(count);
    ScaleMonotone(a, StepRatio(i, count), StepRatio(j, count));
    assert a * StepRatio(0, count) == 0.0;
    assert a * StepRatio(count - 1, count) == a;
  }

  /** Shade lightness falls with the step, from l to 0. */
  lemma ShadeLightnessOrder(l: int, i: int, j: int, count: int)
    requires 0 <= l <= 100 && 0 <= i <= j < count && count >= 2
    ensures 0.0 <= ShadeLightness(l, j, count) <= ShadeLightness(l, i, count) <= l as real
    ensures ShadeLightness(l, 0, count) == l as real
    ensures ShadeLightness(l, count - 1, count) == 0.0
  {
    var a := l as real;
    StepFraction(i, j, count);
    StepEnds(count);
    ScaleMonotone(a, StepRatio(i, count), StepRatio(j, count));
    assert a * StepRatio(0, count) == 0.0;
    assert a * StepRatio(count - 1, count) == a;
  }

  /** For count >= 2 there are `count` tints of the base hue and saturation;
      the first has the base lightness, the last lightness 100, and the
      lightness never falls from one tint to the next. */
  lemma {:induction false} TintSteps(toHex: HslToHex, c: Hsl, count: int)
    requires InHslRange(c) && count >= 2
    ensures |Tints(toHex, c, count)| == count
    ensures Tints(toHex, c, count)[0] == toHex(c.h as real, c.s as real, c.l as real)
    ensures Tints(toHex, c, count)[count - 1] == toHex(c.h as real, c.s as real, 100.0)
    ensures forall i, j :: 0 <= i <= j < count ==>
              c.l as real <= TintLightness(c.l, i, count) <= TintLightness(c.l, j, count) <= 100.0
  {
    TintLightnessOrder(c.l, 0, 0, count);
    forall i, j | 0 <= i <= j < count
      ensures c.l as real <= TintLightness(c.l, i, count) <= TintLightness(c.l, j, count) <= 100.0
    {
      TintLightnessOrder(c.l, i, j, count);
    }
  }

  /** For count >= 2 there are `count` shades of the base hue and saturation;
      the first has the base lightness, the last lightness 0, and the
      lightness never rises from one shade to the next. */
  lemma {:induction false} ShadeSteps(toHex: HslToHex, c: Hsl, count: int)
    requires InHslRange(c) && count >= 2
    ensures |Shades(toHex, c, count)| == count
    ensures Shades(toHex, c, count)[0] == toHex(c.h as real, c.s as real, c.l as real)
    ensures Shades(toHex, c, count)[count - 1] == toHex(c.h as real, c.s as real, 0.0)
    ensures forall i, j :: 0 <= i <= j < count ==>
              0.0 <= ShadeLightness(c.l, j, count) <= ShadeLightness(c.l, i, count) <= c.l as real
  {
    ShadeLightnessOrder(c.l, 0, 0, count);
    forall i, j | 0 <= i <= j < count
      ensures 0.0 <= ShadeLightness(c.l, j, count) <= ShadeLightness(c.l, i, count) <= c.l as real
    {
      ShadeLightnessOrder(c.l, i, j, count);
    }
  }

  // ---------------------------------------------------------------------
  // generateAnalogous, generateComplementary, generateTriadic
  // ---------------------------------------------------------------------

  /** What generateAnalogous returns: hues -60, -30, 0, +30, +60 degrees from
      the base, in that order, with the base saturation and lightness. */
  function Analogous(toHex: HslToHex, c: Hsl): seq<string> {
    seq(5, k requires 0 <= k < 5 => toHex(AnalogousHue(c.h, k - 2) as real, c.s as real, c.l as real))
  }

  /** What generateTriadic returns: hues 0, 120 and 240 degrees from the base. */
  function Triadic(toHex: HslToHex, c: Hsl): seq<string> {
    seq(3, k requires 0 <= k < 3 => toHex(TriadicHue(c.h, k) as real, c.s as real, c.l as real))
  }

  /** generateAnalogous. */
  method GenerateAnalogous(toHex: HslToHex, baseHex: string) returns (analogous: seq<string>)
    ensures analogous == Analogous(toHex, HexToHsl(baseHex))
  {
    var c := HexToHsl(baseHex);
    analogous := [];
    var i := -2;
    while i <= 2
      invariant -2 <= i <= 3
      invariant |analogous| == i + 2
      invariant forall k :: 0 <= k < i + 2 ==>
        analogous[k] == toHex(AnalogousHue(c.h, k - 2) as real, c.s as real, c.l as real)
    {
      var hue := JsRem(c.h + i * 30 + 360, 360);
      assert hue == AnalogousHue(c.h, i);
      analogous := analogous + [toHex(hue as real, c.s as real, c.l as real)];
      i := i + 1;
    }
  }

  /** generateTriadic. */
  method GenerateTriadic(toHex: HslToHex, baseHex: string) returns (triadic: seq<string>)
    ensures triadic == Triadic(toHex, HexToHsl(baseHex))
  {
    var c := HexToHsl(baseHex);
    triadic := [];
    var i := 0;
    while i < 3
      invariant 0 <= i <= 3
      invariant |triadic| == i
      invariant forall k :: 0 <= k < i ==>
        triadic[k] == toHex(TriadicHue(c.h, k) as real, c.s as real, c.l as real)
    {
      var hue := JsRem(c.h + i * 120, 360);
      assert hue == TriadicHue(c.h, i);
      triadic := triadic + [toHex(hue as real, c.s as real, c.l as real)];
      i := i + 1;
    }
  }

  /** generateComplementary: the base string exactly as given, then the
      colour opposite it on the hue circle. */
  function GenerateComplementary(toHex: HslToHex, baseHex: string): seq<string> {
    var c := HexToHsl(baseHex);
    [baseHex, toHex(ComplementaryHue(c.h) as real, c.s as real, c.l as real)]
  }

  /** A base at hue 360, which hexToHsl can return (Hue360Reachable):
      generateTints and generateShades pass 360 on unchanged, so each of
      their colours reaches hslToHex with a hue that matches none of its
      branches (SectorCoverage); the harmonies reduce it modulo 360 instead
      (HarmonyHues). */
  lemma FullTurnHue(toHex: HslToHex, c: Hsl, count: int)
    requires c.h == 360 && count != 1
    ensures forall i :: 0 <= i < |Tints(toHex, c, count)| ==>
              Tints(toHex, c, count)[i] == toHex(360.0, c.s as real, TintLightness(c.l, i, count))
    ensures forall i :: 0 <= i < |Shades(toHex, c, count)| ==>
              Shades(toHex, c, count)[i] == toHex(360.0, c.s as real, ShadeLightness(c.l, i, count))
  {
  }

  /** generateComplementary returns two colours: the base string verbatim and
      the colour at the opposite hue, which lies in [0, 360). */
  lemma {:induction false} ComplementaryPair(toHex: HslToHex, baseHex: string)
    ensures var c := HexToHsl(baseHex);
            var r := GenerateComplementary(toHex, baseHex);
            && |r| == 2 && r[0] == baseHex
            && 0 <= ComplementaryHue(c.h) < 360 && (ComplementaryHue(c.h) - c.h - 180) % 360 == 0
            && r[1] == toHex(ComplementaryHue(c.h) as real, c.s as real, c.l as real)
  {
    HexToHslBounds(baseHex);
    HarmonyHues(HexToHsl(baseHex));
  }
}
