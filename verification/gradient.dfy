/**
 The string-building part of `dynamic_color_map` in fractal_name.py: a nine-stop
 gradient of `#RRGGBB` strings, five derived from `base_color = sum % 256`
 and formatted with Python's `02x` (two lower-case hex digits), followed by
 four fixed colours.
 */
module Gradient {
  import opened Folds

  /** A colour as three 8-bit channels. */
  datatype Rgb = Rgb(red: int, green: int, blue: int)

  /** The hex digits `02x` writes, in order of value. */
  const LowerHexDigits: string := "0123456789abcdef"

  /** The four stops that do not depend on the name: steel blue, sky blue,
      dark navy and lavender. */
  const FixedStops: seq<string> := ["#4682B4", "#87CEEB", "#00008B", "#E6E6FA"]

  /** A hex digit of either case. */
  predicate IsHexDigit(c: char) {
    ('0' <= c <= '9') || ('a' <= c <= 'f') || ('A' <= c <= 'F')
  }

  /** The value of one hex digit of either case. */
  function HexValue(c: char): (v: int)
    requires IsHexDigit(c)
    ensures 0 <= v < 16
  {
    if '0' <= c <= '9' then c as int - '0' as int
    else if 'a' <= c <= 'f' then c as int - 'a' as int + 10
    else c as int - 'A' as int + 10
  }

  /** The lower-case hex digit of value d. */
  function HexDigit(d: int): (c: char)
    requires 0 <= d < 16
    ensures IsHexDigit(c) && !('A' <= c <= 'F')
    ensures HexValue(c) == d
  {
    LowerHexDigits[d]
  }

  /** Python's `format(v, "02x")` for 0 <= v < 256: exactly two lower-case hex
      digits, whose value is v. */
  function Hex2(v: int): (s: string)
    requires 0 <= v < 256
    ensures |s| == 2 && IsHexDigit(s[0]) && IsHexDigit(s[1])
    ensures !('A' <= s[0] <= 'F') && !('A' <= s[1] <= 'F')
    ensures ParseHex2(s) == v
  {
    [HexDigit(v / 16), HexDigit(v % 16)]
  }

  /** Reads two hex digits as one byte. */
  function ParseHex2(s: string): (v: int)
    requires |s| == 2 && IsHexDigit(s[0]) && IsHexDigit(s[1])
    ensures 0 <= v < 256
  {
    16 * HexValue(s[0]) + HexValue(s[1])
  }

  /** A `#RRGGBB` colour string. */
  predicate IsColor(s: string) {
    |s| == 7 && s[0] == '#' && forall k :: 1 <= k < 7 ==> IsHexDigit(s[k])
  }

  /** The channels a `#RRGGBB` string denotes. */
  function ParseColor(s: string): (c: Rgb)
    requires IsColor(s)
    ensures 0 <= c.red < 256 && 0 <= c.green < 256 && 0 <= c.blue < 256
  {
    Rgb(ParseHex2(s[1..3]), ParseHex2(s[3..5]), ParseHex2(s[5..7]))
  }

  /** `base_color`: the sum of the numbers modulo 256 (Python's `%` with a
      positive divisor is never negative). */
  function BaseColor(ns: seq<int>): (b: int)
    ensures 0 <= b < 256
  {
    Sum(ns) % 256
  }

  /** The base colour of the empty list is 0, and appending x advances it by
      x modulo 256: it follows the running sum of the numbers. */
  lemma BaseColorAppend(ns: seq<int>, x: int)
    ensures BaseColor([]) == 0
    ensures BaseColor(ns + [x]) == (BaseColor(ns) + x) % 256
  {
    SumAppend(ns, [x]);
    assert Sum([x]) == x;
    ModShift(Sum(ns), x, 256);
  }

  /** The blue channel of a colour string is written in lower-case digits, as `02x` writes it. */
  predicate LowerCaseBlue(s: string)
    requires IsColor(s)
  {
    IsLowerHexDigit(s[5]) && IsLowerHexDigit(s[6])
  }

  /** `#RRGG`: the part of a colour string before its blue channel. */
  predicate IsRedGreenPrefix(p: string) {
    |p| == 5 && p[0] == '#' && forall k :: 1 <= k < 5 ==> IsHexDigit(p[k])
  }

  /** A colour string made of a fixed `#RRGG` prefix and a formatted blue channel v. */
  function WithBlue(p: string, v: int): (s: string)
    requires IsRedGreenPrefix(p)
    requires 0 <= v < 256
    ensures IsColor(s)
    ensures ParseColor(s) == Rgb(ParseHex2(p[1..3]), ParseHex2(p[3..5]), v)
    ensures LowerCaseBlue(s)
  {
    var s := p + Hex2(v);
    assert s[1..3] == p[1..3] && s[3..5] == p[3..5] && s[5..7] == Hex2(v);
    s
  }

  /** Stop k (0 <= k < 5) of the gradient for base colour b: the blue channel
      is b shifted by the stop's offset, the red and green channels are fixed
      except for stop 0, whose red channel is half the base colour. */
  function DerivedStop(k: int, b: int): (s: string)
    requires 0 <= k < 5 && 0 <= b < 256
    ensures IsColor(s)
    ensures k == 0 ==> ParseColor(s) == Rgb(b / 2, 0x00, b)
    ensures k == 1 ==> ParseColor(s) == Rgb(0x4B, 0x00, (b + 80) % 256)
    ensures k == 2 ==> ParseColor(s) == Rgb(0x6A, 0x0D, (b + 60) % 256)
    ensures k == 3 ==> ParseColor(s) == Rgb(0x80, 0x00, (b + 40) % 256)
    ensures k == 4 ==> ParseColor(s) == Rgb(0x00, 0x00, (b + 100) % 256)
    ensures LowerCaseBlue(s)
  {
    PrefixChannels();
    if k == 0 then
      var red := "#" + Hex2(b / 2) + "00";
      assert red[1..3] == Hex2(b / 2) && red[3..5] == "00";
      WithBlue(red, b)
    else if k == 1 then WithBlue("#4B00", (b + 80) % 256)
    else if k == 2 then WithBlue("#6A0D", (b + 60) % 256)
    else if k == 3 then WithBlue("#8000", (b + 40) % 256)
    else WithBlue("#0000", (b + 100) % 256)
  }

  /** The nine stops of `gradient_colors`: valid colour strings whose channels
      are the offsets `dynamic_color_map` adds to the base colour, then the fixed stops. */
  function GradientColors(ns: seq<int>): (g: seq<string>)
    ensures |g| == 9
    ensures forall k :: 0 <= k < |g| ==> IsColor(g[k])
    ensures g[5..] == FixedStops
    ensures ParseColor(g[0]) == Rgb(BaseColor(ns) / 2, 0, BaseColor(ns))
    ensures ParseColor(g[1]) == Rgb(0x4B, 0x00, (BaseColor(ns) + 80) % 256)
    ensures ParseColor(g[2]) == Rgb(0x6A, 0x0D, (BaseColor(ns) + 60) % 256)
    ensures ParseColor(g[3]) == Rgb(0x80, 0x00, (BaseColor(ns) + 40) % 256)
    ensures ParseColor(g[4]) == Rgb(0x00, 0x00, (BaseColor(ns) + 100) % 256)
    ensures forall k :: 0 <= k < 5 ==> LowerCaseBlue(g[k])
  {
    var b := BaseColor(ns);
    FixedStopsAreColors();
    [DerivedStop(0, b), DerivedStop(1, b), DerivedStop(2, b), DerivedStop(3, b), DerivedStop(4, b)]
      + FixedStops
  }

  /** The four fixed stops are well-formed colour strings. */
  lemma FixedStopsAreColors()
    ensures forall k :: 0 <= k < |FixedStops| ==> IsColor(FixedStops[k])
  {
  }

  /** The fixed red and green channels of stops 2 to 5. */
  lemma PrefixChannels()
    ensures IsRedGreenPrefix("#4B00") && ParseHex2("#4B00"[1..3]) == 0x4B && ParseHex2("#4B00"[3..5]) == 0x00
    ensures IsRedGreenPrefix("#6A0D") && ParseHex2("#6A0D"[1..3]) == 0x6A && ParseHex2("#6A0D"[3..5]) == 0x0D
    ensures IsRedGreenPrefix("#8000") && ParseHex2("#8000"[1..3]) == 0x80 && ParseHex2("#8000"[3..5]) == 0x00
    ensures IsRedGreenPrefix("#0000") && ParseHex2("#0000"[1..3]) == 0x00 && ParseHex2("#0000"[3..5]) == 0x00
  {
  }

  /** A lower-case hex digit. */
  predicate IsLowerHexDigit(c: char) {
    ('0' <= c <= '9') || ('a' <= c <= 'f')
  }

  /** Formatting is onto the two-digit lower-case strings: reading such a string
      and formatting the value again gives the same string back. */
  lemma Hex2RoundTrip(s: string)
    requires |s| == 2 && IsLowerHexDigit(s[0]) && IsLowerHexDigit(s[1])
    ensures Hex2(ParseHex2(s)) == s
  {
    var v := ParseHex2(s);
    assert v / 16 == HexValue(s[0]) && v % 16 == HexValue(s[1]);
    HexDigitRoundTrip(s[0]);
    HexDigitRoundTrip(s[1]);
  }

  /** Every lower-case hex digit is the one `HexDigit` writes for its value. */
  lemma HexDigitRoundTrip(c: char)
    requires IsLowerHexDigit(c)
    ensures HexDigit(HexValue(c)) == c
  {
  }

  /** The gradient depends on the numbers only through their sum modulo 256,
      and distinct base colours give distinct gradients. */
  lemma GradientDeterminedByBase(a: seq<int>, b: seq<int>)
    ensures GradientColors(a) == GradientColors(b) <==> BaseColor(a) == BaseColor(b)
  {
    if GradientColors(a) == GradientColors(b) {
      assert ParseColor(GradientColors(a)[0]).blue == BaseColor(a);
    }
  }
}
