/**
 * Conversion of a "#RRGGBB" colour string into the (blue, green, red)
 * triple OpenCV draws with.  All leading '#' characters are stripped; a
 * remainder whose length is not six gives plain green (0, 255, 0); otherwise
 * each pair of characters is read as a base-16 integer literal, with the
 * leniency of Python's int(text, 16): surrounding white space and a leading
 * sign are accepted, anything else that is not a hex digit is an error.
 */
module HexColor {
  import opened Wrappers

  datatype Bgr = Bgr(b: int, g: int, r: int)

  /** The error int(text, 16) raises on a pair that is not a base-16 literal. */
  datatype ConversionError = InvalidLiteral(text: string)

  /** The colour returned for a string of the wrong length. */
  const Fallback: Bgr := Bgr(0, 255, 0)

  /** The value of a hexadecimal digit of either case. */
  function HexDigit(c: char): Option<nat>
  {
    if '0' <= c <= '9' then Some(c as nat - '0' as nat)
    else if 'a' <= c <= 'f' then Some(c as nat - 'a' as nat + 10)
    else if 'A' <= c <= 'F' then Some(c as nat - 'A' as nat + 10)
    else None
  }

  predicate IsHexDigit(c: char)
  {
    HexDigit(c).Some?
  }

  /** The characters Python's str.isspace() accepts, which int() strips from both ends. */
  predicate IsSpace(c: char)
  {
    ('\U{9}' <= c <= '\U{d}') || ('\U{1c}' <= c <= '\U{20}') || c == '\U{85}' || c == '\U{a0}'
    || c == '\U{1680}' || ('\U{2000}' <= c <= '\U{200a}') || c == '\U{2028}' || c == '\U{2029}'
    || c == '\U{202f}' || c == '\U{205f}' || c == '\U{3000}'
  }

  /**
   * int(pair, 16) for a two-character string: two hex digits, one hex digit
   * with white space before or after it, or a sign followed by a hex digit.
   * A lone "0x" prefix has no digits after it and fails like any other text.
   */
  function ParsePair(pair: string): (r: Result<int, ConversionError>)
    requires |pair| == 2
    ensures r.Success? ==> PairValue(r.value)
    ensures r.Success? && r.value < 0 ==> pair[0] == '-'
    ensures r.Success? ==> IsHexDigit(pair[0]) || IsHexDigit(pair[1])
    ensures IsHexDigit(pair[0]) && IsHexDigit(pair[1]) ==> r.Success? && IsByte(r.value)
    ensures r.Failure? ==> r.error == InvalidLiteral(pair)
  {
    var c0, c1 := pair[0], pair[1];
    if IsHexDigit(c0) && IsHexDigit(c1) then Success(16 * HexDigit(c0).value + HexDigit(c1).value)
    else if IsSpace(c0) && IsHexDigit(c1) then Success(HexDigit(c1).value)
    else if IsHexDigit(c0) && IsSpace(c1) then Success(HexDigit(c0).value)
    else if c0 == '+' && IsHexDigit(c1) then Success(HexDigit(c1).value)
    else if c0 == '-' && IsHexDigit(c1) then Success(0 - HexDigit(c1).value as int)
    else Failure(InvalidLiteral(pair))
  }

  /** The values a two-character literal can have: a signed digit down to -15, two digits up to 255. */
  predicate PairValue(v: int)
  {
    -15 <= v < 256
  }

  /** The string with every leading occurrence of c removed, as str.lstrip(c). */
  function LStrip(s: string, c: char): (t: string)
    ensures |t| <= |s| && t == s[|s| - |t|..]
    ensures forall i :: 0 <= i < |s| - |t| ==> s[i] == c
    ensures t == [] || t[0] != c
  {
    if |s| > 0 && s[0] == c then LStrip(s[1..], c) else s
  }

  /** _hex_to_bgr: strip the '#' characters, check the length, read the red, green and blue pairs. */
  function HexToBgr(colorHex: string): (r: Result<Bgr, ConversionError>)
    ensures |LStrip(colorHex, '#')| != 6 ==> r == Success(Fallback)
    ensures r.Failure? ==> var hex := LStrip(colorHex, '#');
      && |hex| == 6
      && (r.error == InvalidLiteral(hex[0..2]) || r.error == InvalidLiteral(hex[2..4]) || r.error == InvalidLiteral(hex[4..6]))
    ensures r.Success? ==> PairValues(r.value)
  {
    var hex := LStrip(colorHex, '#');
    if |hex| != 6 then Success(Fallback) else FromDigits(hex)
  }

  /** The three pairs of a six-character string read as red, green and blue; the first bad pair is the error. */
  function FromDigits(hex: string): (c: Result<Bgr, ConversionError>)
    requires |hex| == 6
    ensures c.Success? <==> ParsePair(hex[0..2]).Success? && ParsePair(hex[2..4]).Success? && ParsePair(hex[4..6]).Success?
    ensures c.Success? ==> PairValues(c.value)
    ensures c.Failure? ==> c.error == InvalidLiteral(hex[0..2]) || c.error == InvalidLiteral(hex[2..4]) || c.error == InvalidLiteral(hex[4..6])
  {
    var r := ParsePair(hex[0..2]);
    if r.Failure? then Failure(r.error)
    else
      var g := ParsePair(hex[2..4]);
      if g.Failure? then Failure(g.error)
      else
        var b := ParsePair(hex[4..6]);
        if b.Failure? then Failure(b.error)
        else Success(Bgr(b.value, g.value, r.value))
  }

  predicate PairValues(c: Bgr)
  {
    PairValue(c.b) && PairValue(c.g) && PairValue(c.r)
  }

  // ---------------------------------------------------------------
  // Formatting, the inverse direction
  // ---------------------------------------------------------------

  predicate IsByte(v: int)
  {
    0 <= v < 256
  }

  predicate InRange(c: Bgr)
  {
    IsByte(c.b) && IsByte(c.g) && IsByte(c.r)
  }

  /** The lower-case hexadecimal digit of a value below 16. */
  function DigitChar(d: nat): (c: char)
    requires d < 16
    ensures HexDigit(c) == Some(d)
    ensures c != '#'
  {
    if d < 10 then ('0' as nat + d) as char else ('a' as nat + d - 10) as char
  }

  /** Two hexadecimal digits of a byte. */
  function HexByte(v: int): (s: string)
    requires IsByte(v)
    ensures |s| == 2 && IsHexDigit(s[0]) && IsHexDigit(s[1]) && s[0] != '#'
  {
    [DigitChar(v / 16), DigitChar(v % 16)]
  }

  /** The "#rrggbb" spelling of a colour. */
  function Format(c: Bgr): (s: string)
    requires InRange(c)
    ensures |s| == 7 && s[0] == '#'
  {
    "#" + HexByte(c.r) + HexByte(c.g) + HexByte(c.b)
  }

  // ---------------------------------------------------------------
  // Properties
  // ---------------------------------------------------------------

  /** Reading back the two digits of a byte gives the byte. */
  lemma ParseHexByte(v: int)
    requires IsByte(v)
    ensures ParsePair(HexByte(v)) == Success(v)
  {
    var s := HexByte(v);
    assert HexDigit(s[0]) == Some(v / 16);
    assert HexDigit(s[1]) == Some(v % 16);
  }

  /** Stripping the '#' from a formatted colour leaves its six digits. */
  lemma StripFormatted(c: Bgr)
    requires InRange(c)
    ensures LStrip(Format(c), '#') == HexByte(c.r) + HexByte(c.g) + HexByte(c.b)
  {
    var digits := HexByte(c.r) + HexByte(c.g) + HexByte(c.b);
    assert Format(c) == "#" + digits;
    assert Format(c)[1..] == digits;
    assert digits[0] != '#';
  }

  /** Any colour with byte components survives formatting and conversion unchanged. */
  lemma {:induction false} FormatRoundTrip(c: Bgr)
    requires InRange(c)
    ensures HexToBgr(Format(c)) == Success(c)
  {
    StripFormatted(c);
    var hex := HexByte(c.r) + HexByte(c.g) + HexByte(c.b);
    assert hex[0..2] == HexByte(c.r);
    assert hex[2..4] == HexByte(c.g);
    assert hex[4..6] == HexByte(c.b);
    ParseHexByte(c.r);
    ParseHexByte(c.g);
    ParseHexByte(c.b);
  }

  /** Extra leading '#' characters change nothing. */
  lemma {:induction false} ExtraHashesIgnored(s: string)
    ensures HexToBgr("#" + s) == HexToBgr(s)
  {
    assert ("#" + s)[1..] == s;
  }

  /** After the '#' are stripped, a length other than six gives the fallback colour whatever the characters. */
  lemma WrongLengthFallsBack(colorHex: string)
    requires |LStrip(colorHex, '#')| != 6
    ensures HexToBgr(colorHex) == Success(Fallback)
  {
  }

  /**
   * Six hex digits always convert, every component is a byte, and formatting
   * the result gives back the digits, folded to lower case.
   */
  lemma {:induction false} SixDigitsConvert(colorHex: string)
    requires |LStrip(colorHex, '#')| == 6
    requires forall i :: 0 <= i < 6 ==> IsHexDigit(LStrip(colorHex, '#')[i])
    ensures HexToBgr(colorHex).Success? && InRange(HexToBgr(colorHex).value)
    ensures forall i :: 0 <= i < 6 ==> Format(HexToBgr(colorHex).value)[i + 1] == LowerChar(LStrip(colorHex, '#')[i])
  {
    DigitsConvert(LStrip(colorHex, '#'));
  }

  lemma DigitsConvert(hex: string)
    requires |hex| == 6
    requires forall i :: 0 <= i < 6 ==> IsHexDigit(hex[i])
    ensures FromDigits(hex).Success? && InRange(FromDigits(hex).value)
    ensures forall i :: 0 <= i < 6 ==> Format(FromDigits(hex).value)[i + 1] == LowerChar(hex[i])
  {
    PairAt(hex, 0);
    PairAt(hex, 2);
    PairAt(hex, 4);
    var c := Bgr(ParsePair(hex[4..6]).value, ParsePair(hex[2..4]).value, ParsePair(hex[0..2]).value);
    assert FromDigits(hex) == Success(c);
    FormatSpells(c, hex);
  }

  /** A colour whose components spell the six digits formats to those digits after the '#'. */
  lemma FormatSpells(c: Bgr, hex: string)
    requires InRange(c) && |hex| == 6
    requires HexByte(c.r) == [LowerChar(hex[0]), LowerChar(hex[1])]
    requires HexByte(c.g) == [LowerChar(hex[2]), LowerChar(hex[3])]
    requires HexByte(c.b) == [LowerChar(hex[4]), LowerChar(hex[5])]
    ensures forall i :: 0 <= i < 6 ==> Format(c)[i + 1] == LowerChar(hex[i])
  {
    assert Format(c)[1..] == HexByte(c.r) + HexByte(c.g) + HexByte(c.b);
  }

  /** The pair starting at k reads as a byte whose digits are the pair in lower case. */
  lemma PairAt(hex: string, k: nat)
    requires k + 2 <= |hex| && IsHexDigit(hex[k]) && IsHexDigit(hex[k + 1])
    ensures ParsePair(hex[k..k + 2]).Success?
    ensures IsByte(ParsePair(hex[k..k + 2]).value)
    ensures HexByte(ParsePair(hex[k..k + 2]).value) == [LowerChar(hex[k]), LowerChar(hex[k + 1])]
  {
    assert hex[k..k + 2] == [hex[k], hex[k + 1]];
    DigitPair(hex[k], hex[k + 1]);
  }

  /** Upper-case hex letters folded to lower case; other characters kept. */
  function LowerChar(ch: char): char
  {
    if 'A' <= ch <= 'F' then (ch as nat - 'A' as nat + 'a' as nat) as char else ch
  }

  /** Two hex digits read as a byte that formats back to the same digits in lower case. */
  lemma DigitPair(c0: char, c1: char)
    requires IsHexDigit(c0) && IsHexDigit(c1)
    ensures ParsePair([c0, c1]).Success?
    ensures IsByte(ParsePair([c0, c1]).value)
    ensures HexByte(ParsePair([c0, c1]).value) == [LowerChar(c0), LowerChar(c1)]
  {
    var d0, d1 := HexDigit(c0).value, HexDigit(c1).value;
    var v := 16 * d0 + d1;
    assert v / 16 == d0 && v % 16 == d1;
    assert DigitChar(d0) == LowerChar(c0);
    assert DigitChar(d1) == LowerChar(c1);
  }

  /** One leading '#' before a string that does not start with '#' is all lstrip removes. */
  lemma StripOneHash(s: string)
    requires |s| > 0 && s[0] != '#'
    ensures LStrip("#" + s, '#') == s
  {
    assert ("#" + s)[1..] == s;
  }

  /** The centre marker colour "#e63946" is red 230, green 57, blue 70. */
  lemma CenterColorExample()
    ensures HexToBgr("#e63946") == Success(Bgr(70, 57, 230))
  {
    StripOneHash("e63946");
    CenterColorDigits();
  }

  lemma CenterColorDigits()
    ensures FromDigits("e63946") == Success(Bgr(70, 57, 230))
  {
    assert "e63946"[0..2] == "e6";
    assert "e63946"[2..4] == "39";
    assert "e63946"[4..6] == "46";
  }

  /** A pair that is not a base-16 literal is an error rather than a colour. */
  lemma NonHexPairExample()
    ensures HexToBgr("#gg0000") == Failure(InvalidLiteral("gg"))
  {
    StripOneHash("gg0000");
    assert "gg0000"[0..2] == "gg";
  }

  /** A signed pair is accepted and gives a negative component. */
  lemma SignedPairExample()
    ensures HexToBgr("#-10000") == Success(Bgr(0, 0, -1))
  {
    StripOneHash("-10000");
    SignedPairDigits();
  }

  lemma SignedPairDigits()
    ensures FromDigits("-10000") == Success(Bgr(0, 0, -1))
  {
    assert "-10000"[0..2] == "-1";
    assert "-10000"[2..4] == "00";
    assert "-10000"[4..6] == "00";
  }
}
