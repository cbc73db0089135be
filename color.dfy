/** `hexToRgb`: turns a colour written as `#rrggbb` (the `#` optional, the
    digits in either case) into its three components; anything else is black. */
module Color {

  datatype Rgb = Rgb(r: int, g: int, b: int)

  predicate IsHexDigit(c: char)
  {
    ('0' <= c <= '9') || ('a' <= c <= 'f') || ('A' <= c <= 'F')
  }

  /** The value of one hexadecimal digit, as `parseInt(_, 16)` reads it. */
  function DigitValue(c: char): (v: int)
    requires IsHexDigit(c)
    ensures 0 <= v < 16
  {
    if '0' <= c <= '9' then c as int - '0' as int
    else if 'a' <= c <= 'f' then c as int - 'a' as int + 10
    else c as int - 'A' as int + 10
  }

  /** The value of two hexadecimal digits, most significant first. */
  function PairValue(hi: char, lo: char): (v: int)
    requires IsHexDigit(hi) && IsHexDigit(lo)
    ensures 0 <= v <= 255
  {
    16 * DigitValue(hi) + DigitValue(lo)
  }

  predicate AllHex(s: string)
  {
    forall i :: 0 <= i < |s| ==> IsHexDigit(s[i])
  }

  /** The language of `/^#?([a-f\d]{2})([a-f\d]{2})([a-f\d]{2})$/i`. */
  predicate MatchesColorPattern(s: string)
  {
    (|s| == 7 && s[0] == '#' && AllHex(s[1..])) || (|s| == 6 && AllHex(s))
  }

  /** The part of `s` after an optional leading `#` of a seven-character string. */
  function Digits(s: string): string
  {
    if |s| == 7 && s[0] == '#' then s[1..] else s
  }

  /** `hexToRgb(hex)`. */
  function HexToRgb(hex: string): (c: Rgb)
    ensures 0 <= c.r <= 255 && 0 <= c.g <= 255 && 0 <= c.b <= 255
    ensures !MatchesColorPattern(hex) ==> c == Rgb(0, 0, 0)
    ensures MatchesColorPattern(hex) ==>
      var d := Digits(hex);
      c == Rgb(PairValue(d[0], d[1]), PairValue(d[2], d[3]), PairValue(d[4], d[5]))
  {
    var d := Digits(hex);
    if |d| == 6 && AllHex(d) then
      Rgb(PairValue(d[0], d[1]), PairValue(d[2], d[3]), PairValue(d[4], d[5]))
    else
      Rgb(0, 0, 0)
  }

  /** Lower-cases the ASCII letters of `s`. */
  function ToLower(s: string): (r: string)
    ensures |r| == |s|
    ensures forall i :: 0 <= i < |s| ==>
      r[i] == if 'A' <= s[i] <= 'Z' then (s[i] as int + 32) as char else s[i]
  {
    if s == [] then []
    else [if 'A' <= s[0] <= 'Z' then (s[0] as int + 32) as char else s[0]] + ToLower(s[1..])
  }

  /** The lower-case hexadecimal digit for `v`. */
  function HexChar(v: int): (c: char)
    requires 0 <= v < 16
    ensures IsHexDigit(c) && DigitValue(c) == v
  {
    if v < 10 then ('0' as int + v) as char else ('a' as int + v - 10) as char
  }

  /** The `#rrggbb` form a colour input reports, with lower-case digits. */
  function FormatHex(c: Rgb): (s: string)
    requires 0 <= c.r <= 255 && 0 <= c.g <= 255 && 0 <= c.b <= 255
    ensures |s| == 7 && s[0] == '#'
  {
    ['#', HexChar(c.r / 16), HexChar(c.r % 16), HexChar(c.g / 16), HexChar(c.g % 16),
     HexChar(c.b / 16), HexChar(c.b % 16)]
  }

  /** The leading `#` is optional: `"#rrggbb"` and `"rrggbb"` parse alike
      (whenever `s` does not itself start with `#`). */
  lemma HashIsOptional(s: string)
    requires s == [] || s[0] != '#'
    ensures HexToRgb("#" + s) == HexToRgb(s)
  {
    var h := "#" + s;
    assert h[1..] == s;
    if |s| == 7 {
      assert !IsHexDigit(h[0]);
    }
  }

  /** The match is case-insensitive: upper- and lower-case digits agree. */
  lemma CaseInsensitive(s: string)
    ensures HexToRgb(ToLower(s)) == HexToRgb(s)
  {
    var l := ToLower(s);
    forall i | 0 <= i < |s| && IsHexDigit(s[i])
      ensures IsHexDigit(l[i]) && DigitValue(l[i]) == DigitValue(s[i])
    {
    }
    forall i | 0 <= i < |s| && IsHexDigit(l[i])
      ensures IsHexDigit(s[i])
    {
    }
    if |s| == 7 {
      assert (l[0] == '#') == (s[0] == '#');
      assert AllHex(l[1..]) == AllHex(s[1..]) by {
        if AllHex(s[1..]) {
          forall i | 0 <= i < 6 ensures IsHexDigit(l[1..][i]) { assert IsHexDigit(s[1..][i]); }
        }
        if AllHex(l[1..]) {
          forall i | 0 <= i < 6 ensures IsHexDigit(s[1..][i]) { assert IsHexDigit(l[1..][i]); }
        }
      }
    }
    if |s| == 6 {
      assert AllHex(l) == AllHex(s);
    }
  }

  /** Formatting a colour and parsing it back gives the colour. */
  lemma ParseFormat(c: Rgb)
    requires 0 <= c.r <= 255 && 0 <= c.g <= 255 && 0 <= c.b <= 255
    ensures HexToRgb(FormatHex(c)) == c
  {
    var s := FormatHex(c);
    assert AllHex(s[1..]);
  }

  /** Parsing a well-formed colour and formatting it again gives its digits
      in lower case, behind a `#`. */
  lemma FormatParse(s: string)
    requires MatchesColorPattern(s)
    ensures FormatHex(HexToRgb(s)) == "#" + ToLower(Digits(s))
  {
    var d := Digits(s);
    assert |d| == 6 && AllHex(d);
    var l := ToLower(d);
    forall i | 0 <= i < 6 ensures HexChar(DigitValue(d[i])) == l[i] {
      assert IsHexDigit(d[i]);
    }
    var c := HexToRgb(s);
    assert c.r / 16 == DigitValue(d[0]) && c.r % 16 == DigitValue(d[1]);
    assert c.g / 16 == DigitValue(d[2]) && c.g % 16 == DigitValue(d[3]);
    assert c.b / 16 == DigitValue(d[4]) && c.b % 16 == DigitValue(d[5]);
  }
}
