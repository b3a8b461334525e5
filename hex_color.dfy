/**
 * The colour helpers of the home page: `hexToRgb` reads a `#rrggbb` colour through
 * `parseInt(…, 16)` and 32-bit shifts and masks, and `rgbToHex` writes each component as two
 * lower-case hex digits. Numbers are integers; `parseInt` is exact here (see the README).
 */
module HexColor {
  import opened Js
  import opened Wrappers

  /** The components of a colour. */
  datatype Rgb = Rgb(r: int, g: int, b: int)

  // ---------------------------------------------------------------------------------------
  // Hex digits
  // ---------------------------------------------------------------------------------------

  /** The value of a hex digit of either case; `None` for any other character. */
  function DigitValue(c: char): (v: Option<nat>)
    ensures v.Some? ==> v.value < 16
  {
    if '0' <= c <= '9' then Some(c as int - '0' as int)
    else if 'a' <= c <= 'f' then Some(c as int - 'a' as int + 10)
    else if 'A' <= c <= 'F' then Some(c as int - 'A' as int + 10)
    else None
  }

  predicate IsHexDigit(c: char)
  {
    DigitValue(c).Some?
  }

  predicate IsLowerHexDigit(c: char)
  {
    '0' <= c <= '9' || 'a' <= c <= 'f'
  }

  /** The digit `Number.prototype.toString(16)` writes for `d`. */
  function HexChar(d: nat): (c: char)
    requires d < 16
    ensures IsLowerHexDigit(c) && DigitValue(c) == Some(d)
  {
    if d < 10 then ('0' as int + d) as char else ('a' as int + d - 10) as char
  }

  /** Writing a digit's value back gives the digit in lower case. */
  lemma HexCharOfDigit(c: char)
    requires IsHexDigit(c)
    ensures HexChar(DigitValue(c).value) == LowerChar(c)
  {
  }

  /** The digit value, reading a non-digit as 0. */
  function Digit(c: char): nat
  {
    if IsHexDigit(c) then DigitValue(c).value else 0
  }

  /** The number a run of hex digits denotes, most significant first. */
  function HexValue(digits: string): nat
  {
    if digits == [] then 0
    else 16 * HexValue(digits[..|digits| - 1]) + Digit(digits[|digits| - 1])
  }

  /** The longest prefix of `s` that is made of hex digits. */
  function HexRun(s: string): (r: string)
    ensures |r| <= |s| && r == s[..|r|]
    ensures forall i :: 0 <= i < |r| ==> IsHexDigit(r[i])
    ensures |r| < |s| ==> !IsHexDigit(s[|r|])
  {
    if s == [] || !IsHexDigit(s[0]) then [] else [s[0]] + HexRun(s[1..])
  }

  // ---------------------------------------------------------------------------------------
  // hexToRgb
  // ---------------------------------------------------------------------------------------

  /** `s.replace(c, '')` with a string pattern: only the first occurrence goes. */
  function RemoveFirst(s: string, c: char): (r: string)
    ensures c !in s ==> r == s
    ensures c in s ==> |r| == |s| - 1
  {
    if s == [] then []
    else if s[0] == c then s[1..]
    else [s[0]] + RemoveFirst(s[1..], c)
  }

  /** The text before the first `c` and the text after it are kept, in order. */
  lemma {:induction false} RemoveFirstAt(p: string, c: char, q: string)
    requires c !in p
    ensures RemoveFirst(p + [c] + q, c) == p + q
  {
    var w := p + [c] + q;
    if p == [] {
      assert w == [c] + q;
      assert w[1..] == q;
    } else {
      assert w[0] == p[0] && p[0] != c;
      assert w[1..] == p[1..] + [c] + q;
      assert c !in p[1..];
      RemoveFirstAt(p[1..], c, q);
      assert RemoveFirst(w, c) == [p[0]] + (p[1..] + q);
      assert [p[0]] + p[1..] == p;
      AppendAssociative([p[0]], p[1..], q);
    }
  }

  /**
   * `parseInt(s, 16)`: leading white space, an optional sign and an optional `0x`/`0X` are
   * skipped, then the longest run of hex digits is read; `None` stands for `NaN`, when there is
   * no digit.
   */
  function ParseInt16(s: string): (r: Option<int>)
    ensures r.None? <==>
      HexRun(StripPrefix(StripSign(TrimStart(s)))) == []
  {
    var t := TrimStart(s);
    var negative := |t| > 0 && t[0] == '-';
    var digits := HexRun(StripPrefix(StripSign(t)));
    var magnitude: int := HexValue(digits);
    if digits == [] then None else Some(if negative then -magnitude else magnitude)
  }

  function StripSign(t: string): string
  {
    if |t| > 0 && (t[0] == '-' || t[0] == '+') then t[1..] else t
  }

  function StripPrefix(u: string): string
  {
    if |u| >= 2 && u[0] == '0' && (u[1] == 'x' || u[1] == 'X') then u[2..] else u
  }

  const TwoTo32 := 0x1_0000_0000

  /**
   * `hexToRgb`: the shifts see the parsed number as a 32-bit integer (`NaN` as 0), and each
   * mask keeps one byte of it.
   */
  function HexToRgb(hex: string): (c: Rgb)
    ensures 0 <= c.r < 256 && 0 <= c.g < 256 && 0 <= c.b < 256
  {
    Unmask(ParseInt16(RemoveFirst(hex, '#')))
  }

  /** `(n >> 16) & 255`, `(n >> 8) & 255` and `n & 255` on the parsed number. */
  function Unmask(n: Option<int>): (c: Rgb)
    ensures 0 <= c.r < 256 && 0 <= c.g < 256 && 0 <= c.b < 256
    ensures n.None? ==> c == Rgb(0, 0, 0)
  {
    var bits := if n.None? then 0 else n.value % TwoTo32;
    Rgb((bits / 0x1_0000) % 256, (bits / 0x100) % 256, bits % 256)
  }

  // ---------------------------------------------------------------------------------------
  // rgbToHex
  // ---------------------------------------------------------------------------------------

  function NatToHex(n: nat): (s: string)
    ensures |s| >= 1
  {
    if n < 16 then [HexChar(n)] else NatToHex(n / 16) + [HexChar(n % 16)]
  }

  /** `c.toString(16)` for an integer. */
  function ToHex(c: int): string
  {
    if c < 0 then "-" + NatToHex(-c) else NatToHex(c)
  }

  /** `s.padStart(2, '0')`. */
  function Pad2(s: string): string
  {
    if |s| >= 2 then s else if |s| == 1 then "0" + s else "00"
  }

  /** `rgbToHex`. */
  function RgbToHex(r: int, g: int, b: int): string
  {
    "#" + Pad2(ToHex(r)) + Pad2(ToHex(g)) + Pad2(ToHex(b))
  }

  /** A component in 0..255 is written as exactly its two hex digits. */
  lemma ByteDigits(c: int)
    requires 0 <= c < 256
    ensures Pad2(ToHex(c)) == [HexChar(c / 16), HexChar(c % 16)]
  {
    if c >= 16 {
      assert (c / 16) < 16;
      assert NatToHex(c / 16) == [HexChar(c / 16)];
    } else {
      assert c / 16 == 0 && c % 16 == c;
      assert HexChar(0) == '0';
    }
  }

  /** The six digits `rgbToHex` writes for three components in 0..255. */
  function Digits(r: int, g: int, b: int): (s: string)
    requires 0 <= r < 256 && 0 <= g < 256 && 0 <= b < 256
    ensures |s| == 6
  {
    [HexChar(r / 16), HexChar(r % 16), HexChar(g / 16), HexChar(g % 16), HexChar(b / 16), HexChar(b % 16)]
  }

  lemma RgbToHexIsDigits(r: int, g: int, b: int)
    requires 0 <= r < 256 && 0 <= g < 256 && 0 <= b < 256
    ensures RgbToHex(r, g, b) == "#" + Digits(r, g, b)
  {
    ByteDigits(r);
    ByteDigits(g);
    ByteDigits(b);
  }

  /** For components in 0..255 the output is `#` and six lower-case hex digits. */
  lemma RgbToHexFormat(r: int, g: int, b: int)
    requires 0 <= r < 256 && 0 <= g < 256 && 0 <= b < 256
    ensures var s := RgbToHex(r, g, b);
      |s| == 7 && s[0] == '#' && forall i :: 1 <= i < 7 ==> IsLowerHexDigit(s[i])
  {
    RgbToHexIsDigits(r, g, b);
  }

  /** Six digits denote the three bytes their pairs denote. */
  lemma SixDigitValue(s: string)
    requires |s| == 6
    ensures HexValue(s) == PairByte(s[0], s[1]) * 0x1_0000 + PairByte(s[2], s[3]) * 0x100 + PairByte(s[4], s[5])
  {
    assert s[..5][..4] == s[..4] && s[..4][..3] == s[..3] && s[..3][..2] == s[..2];
    assert s[..2][..1] == s[..1] && s[..1][..0] == [];
    var v1 := Digit(s[0]);
    var v2 := 16 * v1 + Digit(s[1]);
    var v3 := 16 * v2 + Digit(s[2]);
    var v4 := 16 * v3 + Digit(s[3]);
    var v5 := 16 * v4 + Digit(s[4]);
    assert HexValue(s[..1]) == v1;
    assert HexValue(s[..2]) == v2;
    assert HexValue(s[..3]) == v3;
    assert HexValue(s[..4]) == v4;
    assert HexValue(s[..5]) == v5;
    assert HexValue(s) == 16 * v5 + Digit(s[5]);
  }

  /** A string of hex digits is read whole. */
  lemma {:induction false} HexRunAll(s: string)
    requires forall i :: 0 <= i < |s| ==> IsHexDigit(s[i])
    ensures HexRun(s) == s
  {
    if s != [] {
      HexRunAll(s[1..]);
    }
  }

  /** `parseInt` reads six hex digits as the number they denote. */
  lemma ParseSixDigits(s: string)
    requires |s| == 6 && forall i :: 0 <= i < 6 ==> IsHexDigit(s[i])
    ensures ParseInt16(s) == Some(HexValue(s))
  {
    assert !IsWhitespace(s[0]);
    assert TrimStart(s) == s;
    assert StripSign(s) == s;
    assert StripPrefix(s) == s by { assert !(s[1] == 'x' || s[1] == 'X'); }
    HexRunAll(s);
  }

  /** Three bytes packed into one number come apart again under the shifts and masks. */
  lemma Unpack(r: int, g: int, b: int, n: int)
    requires 0 <= r < 256 && 0 <= g < 256 && 0 <= b < 256
    requires n == r * 0x1_0000 + g * 0x100 + b
    ensures Unmask(Some(n)) == Rgb(r, g, b)
  {
    assert 0 <= n < TwoTo32;
    assert n % TwoTo32 == n;
    assert n / 0x1_0000 == r;
    assert n / 0x100 == r * 0x100 + g;
    assert (r * 0x100 + g) % 256 == g;
  }

  /** The digits written for a component denote it. */
  lemma DigitsValue(r: int, g: int, b: int)
    requires 0 <= r < 256 && 0 <= g < 256 && 0 <= b < 256
    ensures HexValue(Digits(r, g, b)) == r * 0x1_0000 + g * 0x100 + b
  {
    var d := Digits(r, g, b);
    SixDigitValue(d);
    assert Digit(d[0]) == r / 16 && Digit(d[1]) == r % 16;
    assert Digit(d[2]) == g / 16 && Digit(d[3]) == g % 16;
    assert Digit(d[4]) == b / 16 && Digit(d[5]) == b % 16;
  }

  /** `hexToRgb` of `#` and six hex digits unmasks the number the digits denote. */
  lemma HashDigitsParse(d: string)
    requires |d| == 6 && forall i :: 0 <= i < 6 ==> IsHexDigit(d[i])
    ensures HexToRgb("#" + d) == Unmask(Some(HexValue(d)))
  {
    RemoveFirstAt([], '#', d);
    assert [] + ['#'] + d == "#" + d;
    ParseSixDigits(d);
  }

  /** `hexToRgb` reads the digits `rgbToHex` writes as the number they denote. */
  lemma WrittenDigitsParse(r: int, g: int, b: int)
    requires 0 <= r < 256 && 0 <= g < 256 && 0 <= b < 256
    ensures HexToRgb("#" + Digits(r, g, b)) == Unmask(Some(HexValue(Digits(r, g, b))))
    ensures HexValue(Digits(r, g, b)) == r * 0x1_0000 + g * 0x100 + b
  {
    var d := Digits(r, g, b);
    assert IsHexDigit(d[0]) && IsHexDigit(d[1]) && IsHexDigit(d[2]) && IsHexDigit(d[3]) && IsHexDigit(d[4]) && IsHexDigit(d[5]);
    HashDigitsParse(d);
    DigitsValue(r, g, b);
  }

  /** `hexToRgb(rgbToHex(r, g, b))` gives back the components. */
  lemma RgbRoundTrip(r: int, g: int, b: int)
    requires 0 <= r < 256 && 0 <= g < 256 && 0 <= b < 256
    ensures HexToRgb(RgbToHex(r, g, b)) == Rgb(r, g, b)
  {
    RgbToHexIsDigits(r, g, b);
    WrittenDigitsParse(r, g, b);
    Unpack(r, g, b, HexValue(Digits(r, g, b)));
  }

  /** A pair of digits denotes a byte, and writing that byte gives the pair back in lower case. */
  lemma PairRoundTrip(hi: char, lo: char)
    requires IsHexDigit(hi) && IsHexDigit(lo)
    ensures 0 <= PairByte(hi, lo) < 256
    ensures Pad2(ToHex(PairByte(hi, lo))) == [LowerChar(hi), LowerChar(lo)]
  {
    var c := PairByte(hi, lo);
    ByteDigits(c);
    assert c / 16 == Digit(hi) && c % 16 == Digit(lo);
    HexCharOfDigit(hi);
    HexCharOfDigit(lo);
  }

  /** The bytes `hexToRgb` reads from `#` and six hex digits: one per pair of digits. */
  function PairByte(hi: char, lo: char): int
  {
    16 * Digit(hi) + Digit(lo)
  }

  lemma HashDigitsBytes(s: string)
    requires |s| == 6 && forall i :: 0 <= i < 6 ==> IsHexDigit(s[i])
    ensures HexToRgb("#" + s) == Rgb(PairByte(s[0], s[1]), PairByte(s[2], s[3]), PairByte(s[4], s[5]))
  {
    HashDigitsParse(s);
    SixDigitValue(s);
    Unpack(PairByte(s[0], s[1]), PairByte(s[2], s[3]), PairByte(s[4], s[5]), HexValue(s));
  }

  /** Writing the bytes of six hex digits gives the digits back in lower case. */
  lemma PairsWritten(s: string)
    requires |s| == 6 && forall i :: 0 <= i < 6 ==> IsHexDigit(s[i])
    ensures RgbToHex(PairByte(s[0], s[1]), PairByte(s[2], s[3]), PairByte(s[4], s[5])) == "#" + Lower(s)
  {
    var x, y, z := PairByte(s[0], s[1]), PairByte(s[2], s[3]), PairByte(s[4], s[5]);
    PairRoundTrip(s[0], s[1]);
    PairRoundTrip(s[2], s[3]);
    PairRoundTrip(s[4], s[5]);
    ByteDigits(x);
    ByteDigits(y);
    ByteDigits(z);
    RgbToHexIsDigits(x, y, z);
    var l := [LowerChar(s[0]), LowerChar(s[1]), LowerChar(s[2]), LowerChar(s[3]), LowerChar(s[4]), LowerChar(s[5])];
    assert Lower(s) == l;
    assert Digits(x, y, z) == l;
  }

  /** `rgbToHex(hexToRgb('#rrggbb'))` is the input with its digits in lower case. */
  lemma HexRoundTrip(s: string)
    requires |s| == 6 && forall i :: 0 <= i < 6 ==> IsHexDigit(s[i])
    ensures var c := HexToRgb("#" + s); RgbToHex(c.r, c.g, c.b) == "#" + Lower(s)
  {
    HashDigitsBytes(s);
    PairsWritten(s);
  }

  /** One leading `#` is ignored: the colour is read from the text after it. */
  lemma OnlyFirstHashRemoved(s: string)
    requires '#' !in s
    ensures HexToRgb("#" + s) == HexToRgb(s) == Unmask(ParseInt16(s))
  {
    LeadingHashRemoved(s);
  }

  /** `replace('#', '')` drops a leading `#` and leaves text without one alone. */
  lemma LeadingHashRemoved(s: string)
    requires '#' !in s
    ensures RemoveFirst("#" + s, '#') == s && RemoveFirst(s, '#') == s
  {
    var w := "#" + s;
    assert w[0] == '#';
    assert w[1..] == s;
  }

  /** Only the first `#` is dropped: a second one stops the parse, which then yields black. */
  lemma DoubleHashReadsBlack()
    ensures HexToRgb("##112233") == Rgb(0, 0, 0)
  {
    var w := "##112233";
    assert w[0] == '#';
    var t := w[1..];
    assert RemoveFirst(w, '#') == t;
    assert t[0] == '#';
    HashStopsParse(t);
  }

  /** Text that starts with `#` has no digits where `parseInt` looks for them: `NaN`. */
  lemma HashStopsParse(t: string)
    requires |t| > 0 && t[0] == '#'
    ensures ParseInt16(t).None?
  {
    assert !IsWhitespace(t[0]);
    assert TrimStart(t) == t;
    assert StripSign(t) == t;
    assert StripPrefix(t) == t;
    assert !IsHexDigit(t[0]);
  }

  /** The parse stops at the first character that is not a hex digit. */
  lemma ParseStopsAtNonDigit()
    ensures ParseInt16("12zz56") == Some(0x12)
  {
    var s := "12zz56";
    assert !IsWhitespace(s[0]) && s[0] != '-' && s[0] != '+' && s[1] != 'x' && s[1] != 'X';
    assert TrimStart(s) == s && StripSign(s) == s && StripPrefix(s) == s;
    assert HexRun(s) == "12" by {
      assert !IsHexDigit(s[2]);
      assert HexRun(s[2..]) == [];
      assert s[1..][1..] == s[2..];
    }
    assert HexValue("12") == 0x12 by { assert "12"[..1] == "1"; }
  }

  /** The shifts see a negative number in two's complement: `-1` reads as white. */
  lemma NegativeWraps()
    ensures Unmask(Some(-1)) == Rgb(255, 255, 255)
  {
    assert -1 % TwoTo32 == 0xFFFF_FFFF;
  }
}
