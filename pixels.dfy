/**
 * Pixel values of the raster: four bytes (red, green, blue, alpha), the
 * colour-name parser, pixel equality and the byte arithmetic of the
 * difference composition mode.
 */
module Pixels {

  /** png::byte: an unsigned 8-bit value. */
  type Byte = b: int | 0 <= b < 256

  /** png::basic_rgba_pixel<png::byte>. */
  datatype Pixel = Pixel(red: Byte, green: Byte, blue: Byte, alpha: Byte)

  const TRANSPARENT := Pixel(0, 0, 0, 0)
  const BLACK := Pixel(0, 0, 0, 255)
  const WHITE := Pixel(255, 255, 255, 255)
  const RED := Pixel(255, 0, 0, 255)
  const GREEN := Pixel(0, 255, 0, 255)
  const BLUE := Pixel(0, 0, 255, 255)

  /** Success with a value, or the message of the exception the operation throws. */
  datatype Outcome<T> = Success(value: T) | Failure(error: string)

  function Abs(x: int): nat
  {
    if x < 0 then -x else x
  }

  // ---------------------------------------------------------------------------
  // Pixel comparison

  /** operator== on pixels: the four channels compared one after the other. */
  function PixelEquals(colorA: Pixel, colorB: Pixel): (r: bool)
    ensures r <==> colorA == colorB
  {
    if colorA.red != colorB.red then false
    else if colorA.green != colorB.green then false
    else if colorA.blue != colorB.blue then false
    else if colorA.alpha != colorB.alpha then false
    else true
  }

  /** operator!= on pixels, written out channel by channel with its own early exits. */
  function PixelNotEquals(colorA: Pixel, colorB: Pixel): (r: bool)
    ensures r <==> !PixelEquals(colorA, colorB)
  {
    if colorA.red != colorB.red then true
    else if colorA.green != colorB.green then true
    else if colorA.blue != colorB.blue then true
    else if colorA.alpha != colorB.alpha then true
    else false
  }

  /** The relation image comparison uses: red, green and blue agree, alpha is ignored. */
  predicate SameRGB(p: Pixel, q: Pixel)
  {
    p.red == q.red && p.green == q.green && p.blue == q.blue
  }

  /** Pixel equality counts alpha where image comparison does not. */
  lemma AlphaOnlyDifference(p: Pixel, alpha: Byte)
    requires alpha != p.alpha
    ensures SameRGB(p, p.(alpha := alpha))
    ensures !PixelEquals(p, p.(alpha := alpha))
  {
  }

  // ---------------------------------------------------------------------------
  // Difference composition

  /** brightness: the sum of the three colour channels. */
  function Brightness(pix: Pixel): (b: nat)
    ensures b <= 765
  {
    pix.red + pix.green + pix.blue
  }

  /** A pixel has brightness 0 exactly when its three colour channels are 0. */
  lemma BrightnessZero(pix: Pixel)
    ensures Brightness(pix) == 0 <==> pix.red == 0 && pix.green == 0 && pix.blue == 0
  {
  }

  /**
   * An int in [0, 512) stored into a PixByte: the value less 256 once it no
   * longer fits in a byte.
   */
  function StoreByte(x: nat): (r: Byte)
    requires x < 512
    ensures r == x % 256
  {
    if x < 256 then x else x - 256
  }

  /**
   * difference on bytes: value - subtractor when that is not negative, otherwise
   * 256 - diff (at most 511) stored into a byte.
   */
  function ByteDifference(value: Byte, subtractor: Byte): (r: Byte)
    ensures r == Abs(value - subtractor)
  {
    var diff := value - subtractor;
    if diff < 0 then StoreByte(256 - diff) else diff
  }

  /** difference on pixels: the byte difference of each colour channel, alpha taken from `value`. */
  function PixelDifference(value: Pixel, subtractor: Pixel): (r: Pixel)
    ensures r.red == Abs(value.red - subtractor.red)
    ensures r.green == Abs(value.green - subtractor.green)
    ensures r.blue == Abs(value.blue - subtractor.blue)
    ensures r.alpha == value.alpha
  {
    Pixel(ByteDifference(value.red, subtractor.red),
          ByteDifference(value.green, subtractor.green),
          ByteDifference(value.blue, subtractor.blue),
          value.alpha)
  }

  /**
   * The pixel the difference mode writes over `orig` when drawing `src`: the
   * brighter pixel is the minuend, `src` when neither is strictly brighter.
   */
  function DifferenceBlend(orig: Pixel, src: Pixel): (r: Pixel)
    ensures r.red == Abs(orig.red - src.red)
    ensures r.green == Abs(orig.green - src.green)
    ensures r.blue == Abs(orig.blue - src.blue)
    ensures r.alpha == if Brightness(orig) > Brightness(src) then orig.alpha else src.alpha
  {
    if Brightness(orig) > Brightness(src) then PixelDifference(orig, src) else PixelDifference(src, orig)
  }

  /** Over a pixel whose colour channels are all zero the difference mode copies the source exactly. */
  lemma DifferenceOverBlack(orig: Pixel, src: Pixel)
    requires orig.red == 0 && orig.green == 0 && orig.blue == 0
    ensures DifferenceBlend(orig, src) == src
  {
  }

  /** Drawing a pixel whose colour channels are all zero in difference mode keeps the colour underneath. */
  lemma DifferenceUnderBlack(orig: Pixel, src: Pixel)
    requires src.red == 0 && src.green == 0 && src.blue == 0
    ensures SameRGB(DifferenceBlend(orig, src), orig)
  {
  }

  /** The colour channels of the blend do not depend on the drawing order, and blending a pixel with itself gives black. */
  lemma DifferenceSymmetric(p: Pixel, q: Pixel)
    ensures SameRGB(DifferenceBlend(p, q), DifferenceBlend(q, p))
    ensures Brightness(DifferenceBlend(p, p)) == 0
  {
  }

  // ---------------------------------------------------------------------------
  // Colour names

  /** isspace in the C locale. */
  predicate IsSpace(c: char)
  {
    c == ' ' || 9 <= c as int <= 13
  }

  predicate IsHexDigit(c: char)
  {
    '0' <= c <= '9' || 'a' <= c <= 'f' || 'A' <= c <= 'F'
  }

  predicate AllHexDigits(s: string)
  {
    forall i :: 0 <= i < |s| ==> IsHexDigit(s[i])
  }

  function HexDigitValue(c: char): (v: nat)
    requires IsHexDigit(c)
    ensures v < 16
  {
    if '0' <= c <= '9' then (c as int) - ('0' as int)
    else if 'a' <= c <= 'f' then (c as int) - ('a' as int) + 10
    else (c as int) - ('A' as int) + 10
  }

  /** The number written by a string of hexadecimal digits, most significant first. */
  function HexValue(s: string): nat
    requires AllHexDigits(s)
  {
    if |s| == 0 then 0 else HexValue(s[..|s| - 1]) * 16 + HexDigitValue(s[|s| - 1])
  }

  function Pow16(n: nat): nat
  {
    if n == 0 then 1 else 16 * Pow16(n - 1)
  }

  /** The number of leading hexadecimal digits. */
  function HexPrefixLength(s: string): (n: nat)
    ensures n <= |s|
    ensures AllHexDigits(s[..n])
    ensures n < |s| ==> !IsHexDigit(s[n])
  {
    if |s| == 0 || !IsHexDigit(s[0]) then 0
    else
      var n := 1 + HexPrefixLength(s[1..]);
      assert s[..n] == [s[0]] + s[1..][..n - 1];
      n
  }

  function SkipSpaces(s: string): (t: string)
    ensures |t| <= |s| && t == s[|s| - |t|..]
    ensures |t| > 0 ==> !IsSpace(t[0])
  {
    if |s| > 0 && IsSpace(s[0]) then SkipSpaces(s[1..]) else s
  }

  /** ULONG_MAX + 1 for a 64-bit unsigned long. */
  const ULONG_RANGE: nat := 0x1_0000_0000_0000_0000

  /**
   * std::stoul(s, nullptr, 16): leading white space, an optional sign and an
   * optional 0x prefix, then the longest run of hexadecimal digits; no digit is
   * an invalid_argument, a value above ULONG_MAX an out_of_range, and a minus
   * sign negates the value modulo 2^64.
   */
  function StoulHex(s: string): (r: Outcome<nat>)
    ensures r.Success? ==> r.value < ULONG_RANGE
  {
    var t := SkipSpaces(s);
    var negative := |t| > 0 && t[0] == '-';
    var u := if |t| > 0 && (t[0] == '-' || t[0] == '+') then t[1..] else t;
    var v := if |u| >= 3 && u[0] == '0' && (u[1] == 'x' || u[1] == 'X') && IsHexDigit(u[2]) then u[2..] else u;
    var n := HexPrefixLength(v);
    if n == 0 then Failure("stoul")
    else
      var m := HexValue(v[..n]);
      if m >= ULONG_RANGE then Failure("stoul")
      else Success(if negative then (ULONG_RANGE - m) % ULONG_RANGE else m)
  }

  /**
   * convertColor: "#" followed by exactly six characters parsed as one hexadecimal
   * number, whose third byte `(value >> 16) & 0xff` becomes red, green and blue
   * alike with alpha 255; or one of six colour names; anything else throws.
   */
  function ConvertColor(color: string): Outcome<Pixel>
  {
    if |color| > 0 && color[0] == '#' then
      var valueCode := color[1..];
      if |valueCode| != 6 then Failure("unknown color format: " + color)
      else match StoulHex(valueCode)
        case Failure(e) => Failure(e)
        case Success(value) =>
          var channel := (value / 0x1_0000) % 0x100;
          Success(Pixel(channel, channel, channel, 255))
    else if color == "red" then Success(RED)
    else if color == "green" then Success(GREEN)
    else if color == "blue" then Success(BLUE)
    else if color == "black" then Success(BLACK)
    else if color == "white" then Success(WHITE)
    else if color == "transparent" then Success(TRANSPARENT)
    else Failure("unknown color: " + color)
  }

  predicate IsColorName(color: string)
  {
    color in {"red", "green", "blue", "black", "white", "transparent"}
  }

  lemma ConvertColorNames()
    ensures ConvertColor("red") == Success(Pixel(255, 0, 0, 255))
    ensures ConvertColor("green") == Success(Pixel(0, 255, 0, 255))
    ensures ConvertColor("blue") == Success(Pixel(0, 0, 255, 255))
    ensures ConvertColor("black") == Success(Pixel(0, 0, 0, 255))
    ensures ConvertColor("white") == Success(Pixel(255, 255, 255, 255))
    ensures ConvertColor("transparent") == Success(Pixel(0, 0, 0, 0))
  {
  }

  /** Without a leading '#', only the six names convert; everything else is an error. */
  lemma ConvertColorUnknownName(color: string)
    requires |color| == 0 || color[0] != '#'
    ensures ConvertColor(color).Success? <==> IsColorName(color)
  {
  }

  /** A '#' code whose length after the '#' is not six is rejected. */
  lemma ConvertColorBadLength(color: string)
    requires |color| > 0 && color[0] == '#' && |color| != 7
    ensures ConvertColor(color) == Failure("unknown color format: " + color)
  {
  }

  lemma {:induction false} HexValueBound(s: string)
    requires AllHexDigits(s)
    ensures HexValue(s) < Pow16(|s|)
    decreases |s|
  {
    if |s| > 0 {
      HexValueBound(s[..|s| - 1]);
    }
  }

  lemma ShiftDigit(x: int, p: int, y: int, d: int)
    ensures (x * p + y) * 16 + d == x * (16 * p) + (y * 16 + d)
  {
  }

  /** HexValue of a concatenation: the first part shifted by four bits per digit of the second. */
  lemma {:induction false} HexValueAppend(a: string, b: string)
    requires AllHexDigits(a) && AllHexDigits(b)
    ensures AllHexDigits(a + b)
    ensures HexValue(a + b) == HexValue(a) * Pow16(|b|) + HexValue(b)
    decreases |b|
  {
    if |b| == 0 {
      assert a + b == a;
    } else {
      var b' := b[..|b| - 1];
      var d := HexDigitValue(b[|b| - 1]);
      assert (a + b)[..|a + b| - 1] == a + b';
      assert (a + b)[|a + b| - 1] == b[|b| - 1];
      HexValueAppend(a, b');
      assert HexValue(a + b) == HexValue(a + b') * 16 + d;
      assert HexValue(b) == HexValue(b') * 16 + d;
      ShiftDigit(HexValue(a), Pow16(|b'|), HexValue(b'), d);
    }
  }

  /** A string of hexadecimal digits is its own longest hexadecimal prefix. */
  lemma {:induction false} HexPrefixAll(s: string)
    requires AllHexDigits(s)
    ensures HexPrefixLength(s) == |s|
    decreases |s|
  {
    if |s| > 0 {
      HexPrefixAll(s[1..]);
    }
  }

  /** stoul in base 16 of six hexadecimal digits is their value. */
  lemma StoulHexDigits(code: string)
    requires |code| == 6 && AllHexDigits(code)
    ensures StoulHex(code) == Success(HexValue(code))
  {
    assert IsHexDigit(code[0]) && IsHexDigit(code[1]);
    assert !IsSpace(code[0]) && code[0] != '-' && code[0] != '+' && code[1] != 'x' && code[1] != 'X';
    assert SkipSpaces(code) == code;
    assert code[..|code|] == code;
    HexPrefixAll(code);
    HexValueBound(code);
    assert Pow16(6) == 0x100_0000;
  }

  /** The third byte of hi * 2^16 + lo, for hi below 2^8 and lo below 2^16, is hi. */
  lemma ThirdByte(v: nat, hi: nat, lo: nat)
    requires hi < 0x100 && lo < 0x1_0000 && v == hi * 0x1_0000 + lo
    ensures (v / 0x1_0000) % 0x100 == hi
  {
    assert v / 0x1_0000 == hi;
  }

  /** A '#' code of six characters that stoul accepts converts to the grey of its third byte. */
  lemma ConvertColorHexCode(color: string, value: nat)
    requires |color| == 7 && color[0] == '#' && StoulHex(color[1..]) == Success(value)
    ensures ConvertColor(color) == Success(Pixel((value / 0x1_0000) % 0x100, (value / 0x1_0000) % 0x100, (value / 0x1_0000) % 0x100, 255))
  {
  }

  /** The value of six hexadecimal digits, split after the first two. */
  lemma SixDigitsSplit(code: string)
    requires |code| == 6 && AllHexDigits(code)
    ensures AllHexDigits(code[..2]) && AllHexDigits(code[2..])
    ensures HexValue(code) == HexValue(code[..2]) * 0x1_0000 + HexValue(code[2..])
    ensures HexValue(code[..2]) < 0x100 && HexValue(code[2..]) < 0x1_0000
  {
    var hi, lo := code[..2], code[2..];
    assert hi + lo == code;
    HexValueAppend(hi, lo);
    assert Pow16(2) == 0x100 && Pow16(4) == 0x1_0000;
    HexValueBound(hi);
    HexValueBound(lo);
  }

  /**
   * "#RRGGBB" with six hexadecimal digits: the three colour channels all take
   * the value of the RR digits, and alpha is 255.
   */
  lemma ConvertColorHexGrey(color: string)
    requires |color| == 7 && color[0] == '#' && AllHexDigits(color[1..])
    ensures AllHexDigits(color[1..3]) && HexValue(color[1..3]) < 256
    ensures ConvertColor(color) == Success(Pixel(HexValue(color[1..3]), HexValue(color[1..3]), HexValue(color[1..3]), 255))
  {
    var code := color[1..];
    assert code[..2] == color[1..3];
    StoulHexDigits(code);
    SixDigitsSplit(code);
    var value := HexValue(code);
    ConvertColorHexCode(color, value);
    ThirdByte(value, HexValue(code[..2]), HexValue(code[2..]));
  }

  /** Two hexadecimal digits: the first times 16 plus the second. */
  lemma HexValueTwo(s: string)
    requires |s| == 2 && AllHexDigits(s)
    ensures HexValue(s) == HexDigitValue(s[0]) * 16 + HexDigitValue(s[1])
  {
    var first := s[..1];
    assert first[..0] == [] && first[0] == s[0];
    assert s[..|s| - 1] == first;
    assert HexValue(first) == HexDigitValue(s[0]);
  }

  /** The digits of a '#' code whose red, green and blue pairs repeat the digits r, g and b. */
  lemma PairedCodeDigits(color: string, r: char, g: char, b: char)
    requires IsHexDigit(r) && IsHexDigit(g) && IsHexDigit(b) && color == ['#', r, r, g, g, b, b]
    ensures |color| == 7 && color[0] == '#' && AllHexDigits(color[1..])
    ensures HexValue(color[1..3]) == HexDigitValue(r) * 16 + HexDigitValue(r)
  {
    HexValueTwo(color[1..3]);
  }

  /** The chessboard's base colour "#666666" is the grey (0x66, 0x66, 0x66) with alpha 255. */
  lemma ConvertColorGrey666(color: string)
    requires color == "#666666"
    ensures ConvertColor(color) == Success(Pixel(0x66, 0x66, 0x66, 255))
  {
    PairedCodeDigits(color, '6', '6', '6');
    ConvertColorHexGrey(color);
  }

  /** "#00ff00" converts to black, not to green: only the RR digits count. */
  lemma ConvertColorGreenCode(color: string)
    requires color == "#00ff00"
    ensures ConvertColor(color) == Success(Pixel(0, 0, 0, 255))
  {
    PairedCodeDigits(color, '0', 'f', '0');
    ConvertColorHexGrey(color);
  }
}
