/** The colour picker's conversions between `#rrggbb` strings and red/green/blue components. */
module ColorCodec {
  import opened DrawingTypes

  datatype Rgb = Rgb(r: int, g: int, b: int)

  predicate IsHexDigit(c: char)
  {
    '0' <= c <= '9' || 'a' <= c <= 'f' || 'A' <= c <= 'F'
  }

  predicate AllHex(s: string)
  {
    forall i :: 0 <= i < |s| ==> IsHexDigit(s[i])
  }

  /** The strings the colour pattern accepts: an optional `#`, then exactly six hex digits of
      either case, and nothing else. */
  predicate IsHexColor(s: string)
  {
    || (|s| == 6 && AllHex(s))
    || (|s| == 7 && s[0] == '#' && AllHex(s[1..]))
  }

  function HexValue(c: char): (v: int)
    requires IsHexDigit(c)
    ensures 0 <= v < 16
  {
    if '0' <= c <= '9' then c as int - '0' as int
    else if 'a' <= c <= 'f' then c as int - 'a' as int + 10
    else c as int - 'A' as int + 10
  }

  /** The base-16 value of a two-digit pair. */
  function PairValue(hi: char, lo: char): (v: int)
    requires IsHexDigit(hi) && IsHexDigit(lo)
    ensures 0 <= v <= 255
  {
    16 * HexValue(hi) + HexValue(lo)
  }

  /** The string with one leading `#` removed, if it has one. */
  function WithoutHash(s: string): string
  {
    if |s| > 0 && s[0] == '#' then s[1..] else s
  }

  /** `hexToRgb`: the three components of an accepted colour string, or nothing. */
  function HexToRgb(hex: string): (c: Option<Rgb>)
    ensures c.Some? <==> IsHexColor(hex)
    ensures c.Some? ==> 0 <= c.value.r <= 255 && 0 <= c.value.g <= 255 && 0 <= c.value.b <= 255
  {
    var d := WithoutHash(hex);
    if |d| == 6 && AllHex(d) then
      Some(Rgb(PairValue(d[0], d[1]), PairValue(d[2], d[3]), PairValue(d[4], d[5])))
    else None
  }

  /** The colour the sliders show: the parsed brush colour, black when it does not parse. */
  function CurrentRgb(brushColor: string): (c: Rgb)
    ensures IsHexColor(brushColor) ==> Some(c) == HexToRgb(brushColor)
    ensures !IsHexColor(brushColor) ==> c == Rgb(0, 0, 0)
    ensures 0 <= c.r <= 255 && 0 <= c.g <= 255 && 0 <= c.b <= 255
  {
    match HexToRgb(brushColor)
    case Some(c) => c
    case None => Rgb(0, 0, 0)
  }

  /** A lowercase hex digit. */
  function DigitChar(v: int): (c: char)
    requires 0 <= v < 16
    ensures IsHexDigit(c) && HexValue(c) == v && !('A' <= c <= 'F')
  {
    if v < 10 then ('0' as int + v) as char else ('a' as int + v - 10) as char
  }

  /** `Number.prototype.toString(16)` on a non-negative integer: lowercase digits, no leading zero. */
  function NatToHex(n: nat): (s: string)
    ensures |s| >= 1 && AllHex(s)
    ensures n < 16 <==> |s| == 1
    ensures 16 <= n < 256 <==> |s| == 2
  {
    if n < 16 then [DigitChar(n)] else NatToHex(n / 16) + [DigitChar(n % 16)]
  }

  /** `toString(16)` on an integer: a minus sign before the digits of a negative one. */
  function IntToHex(x: int): (h: string)
    ensures |h| >= 1
    ensures x < 0 <==> h[0] == '-'
    ensures x >= 0 ==> AllHex(h) && (x < 16 <==> |h| == 1)
    ensures x < 0 ==> AllHex(h[1..]) && |h| >= 2
  {
    if x < 0 then "-" + NatToHex(-x) else NatToHex(x)
  }

  /** One component as `rgbToHex` writes it: padded with a zero when `toString(16)` gave one
      character. */
  function Component(x: int): (s: string)
    ensures |s| >= 2
    ensures x >= 0 ==> AllHex(s)
    ensures 0 <= x < 256 ==> |s| == 2
    ensures x >= 256 ==> |s| >= 3
    ensures x < 0 ==> s[0] == '-'
  {
    var h := IntToHex(x);
    if |h| == 1 then "0" + h else h
  }

  /** `rgbToHex`: a `#` and the three components; a component above 255 makes it longer than seven
      characters. */
  function RgbToHex(r: int, g: int, b: int): (s: string)
    ensures |s| >= 7 && s[0] == '#'
    ensures r >= 256 || g >= 256 || b >= 256 ==> |s| > 7
  {
    "#" + Component(r) + Component(g) + Component(b)
  }

  /** A component in 0..255 is written as exactly two lowercase digits, high then low. */
  lemma ComponentDigits(x: int)
    requires 0 <= x <= 255
    ensures Component(x) == [DigitChar(x / 16), DigitChar(x % 16)]
  {
    if x >= 16 {
      assert NatToHex(x / 16) == [DigitChar(x / 16)];
    }
  }

  /** The seven characters written for components in 0..255. */
  function HexChars(r: int, g: int, b: int): (s: string)
    requires 0 <= r <= 255 && 0 <= g <= 255 && 0 <= b <= 255
  {
    ['#', DigitChar(r / 16), DigitChar(r % 16), DigitChar(g / 16), DigitChar(g % 16), DigitChar(b / 16), DigitChar(b % 16)]
  }

  lemma RgbToHexChars(r: int, g: int, b: int)
    requires 0 <= r <= 255 && 0 <= g <= 255 && 0 <= b <= 255
    ensures RgbToHex(r, g, b) == HexChars(r, g, b)
  {
    ComponentDigits(r);
    ComponentDigits(g);
    ComponentDigits(b);
  }

  /** The seven characters are `#` and six lowercase hex digits. */
  lemma HexCharsFormat(r: int, g: int, b: int)
    requires 0 <= r <= 255 && 0 <= g <= 255 && 0 <= b <= 255
    ensures var s := HexChars(r, g, b);
      |s| == 7 && s[0] == '#' && IsHexColor(s) && forall i :: 1 <= i < 7 ==> !('A' <= s[i] <= 'F')
  {
    var s := HexChars(r, g, b);
    assert s[1..] == [s[1], s[2], s[3], s[4], s[5], s[6]];
  }

  /** For components in 0..255 the colour string is `#` and six lowercase hex digits. */
  lemma RgbToHexFormat(r: int, g: int, b: int)
    requires 0 <= r <= 255 && 0 <= g <= 255 && 0 <= b <= 255
    ensures var s := RgbToHex(r, g, b);
      |s| == 7 && s[0] == '#' && IsHexColor(s)
      && forall i :: 1 <= i < 7 ==> !('A' <= s[i] <= 'F')
  {
    RgbToHexChars(r, g, b);
    HexCharsFormat(r, g, b);
  }

  /** The two digits of a component read back as the component. */
  lemma PairOfDigits(x: int)
    requires 0 <= x <= 255
    ensures PairValue(DigitChar(x / 16), DigitChar(x % 16)) == x
  {
  }

  /** Formatting then parsing gives back the components, for components in 0..255. */
  lemma RgbRoundTrip(r: int, g: int, b: int)
    requires 0 <= r <= 255 && 0 <= g <= 255 && 0 <= b <= 255
    ensures HexToRgb(RgbToHex(r, g, b)) == Some(Rgb(r, g, b))
  {
    RgbToHexChars(r, g, b);
    RgbToHexFormat(r, g, b);
    PairOfDigits(r);
    PairOfDigits(g);
    PairOfDigits(b);
    var s := HexChars(r, g, b);
    var d := WithoutHash(s);
    assert d == s[1..];
    assert d[0] == DigitChar(r / 16) && d[1] == DigitChar(r % 16);
    assert d[2] == DigitChar(g / 16) && d[3] == DigitChar(g % 16);
    assert d[4] == DigitChar(b / 16) && d[5] == DigitChar(b % 16);
  }

  function ToLower(c: char): char
  {
    if 'A' <= c <= 'F' then (c as int - 'A' as int + 'a' as int) as char else c
  }

  function LowerHex(s: string): (r: string)
    ensures |r| == |s| && forall i :: 0 <= i < |s| ==> r[i] == ToLower(s[i])
  {
    seq(|s|, i requires 0 <= i < |s| => ToLower(s[i]))
  }

  /** The lowercase digit of a hex digit's value is the digit in lowercase. */
  lemma DigitOfValue(c: char)
    requires IsHexDigit(c)
    ensures DigitChar(HexValue(c)) == ToLower(c)
  {
  }

  /** The high and low digits of a pair's value are the pair's digits. */
  lemma DigitsOfPair(hi: char, lo: char)
    requires IsHexDigit(hi) && IsHexDigit(lo)
    ensures PairValue(hi, lo) / 16 == HexValue(hi) && PairValue(hi, lo) % 16 == HexValue(lo)
  {
  }

  /** A pair's value is written back as the pair in lowercase. */
  lemma ComponentOfPair(hi: char, lo: char)
    requires IsHexDigit(hi) && IsHexDigit(lo)
    ensures Component(PairValue(hi, lo)) == [ToLower(hi), ToLower(lo)]
  {
    ComponentDigits(PairValue(hi, lo));
    DigitsOfPair(hi, lo);
    DigitOfValue(hi);
    DigitOfValue(lo);
  }

  /** The lowercase form of six digits, as three pairs. */
  lemma LowerHexPairs(d: string)
    requires |d| == 6
    ensures LowerHex(d) == [ToLower(d[0]), ToLower(d[1])] + [ToLower(d[2]), ToLower(d[3])] + [ToLower(d[4]), ToLower(d[5])]
  {
  }

  /** Six hex digits read as three components are written back as the digits in lowercase. */
  lemma DigitsRoundTrip(d: string)
    requires |d| == 6 && AllHex(d)
    ensures RgbToHex(PairValue(d[0], d[1]), PairValue(d[2], d[3]), PairValue(d[4], d[5])) == "#" + LowerHex(d)
  {
    ComponentOfPair(d[0], d[1]);
    ComponentOfPair(d[2], d[3]);
    ComponentOfPair(d[4], d[5]);
    LowerHexPairs(d);
  }

  /** Parsing then formatting gives the accepted string's digits in lowercase after one `#`. */
  lemma HexRoundTrip(hex: string)
    requires IsHexColor(hex)
    ensures var c := HexToRgb(hex).value;
      RgbToHex(c.r, c.g, c.b) == "#" + LowerHex(WithoutHash(hex))
  {
    var d := WithoutHash(hex);
    assert |d| == 6 && AllHex(d) by {
      if |hex| == 6 {
        assert IsHexDigit(hex[0]);
      }
    }
    DigitsRoundTrip(d);
  }

  /** The three-digit shorthand is not accepted, so the sliders show black for it. */
  lemma ShorthandShowsBlack()
    ensures HexToRgb("#fff") == None && CurrentRgb("#fff") == Rgb(0, 0, 0)
  {
  }

  /** A component outside 0..255 is not written as two digits: -1 gives "-1", 256 gives "100". */
  lemma OutOfRangeComponents()
    ensures Component(-1) == "-1" && Component(256) == "100"
  {
    assert NatToHex(1) == "1";
    assert NatToHex(16) == NatToHex(1) + [DigitChar(0)];
    assert NatToHex(256) == NatToHex(16) + [DigitChar(0)];
  }
}
