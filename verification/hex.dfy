/**
 * Channel bytes and their two-digit hexadecimal text: `ColorToHex` and
 * `RGBToHex` (XamlStyles/code.ts:129-142), with the decoder that inverts them.
 */
module Hex {
  import opened Wrappers
  import Casing
  import Concat

  /** A colour channel after `BeautifyColor` has rounded it to 0..255. */
  type Byte = b: int | 0 <= b < 256

  predicate IsHexDigit(c: char) {
    '0' <= c <= '9' || 'a' <= c <= 'f' || 'A' <= c <= 'F'
  }

  predicate IsUpperHexDigit(c: char) {
    '0' <= c <= '9' || 'A' <= c <= 'F'
  }

  predicate IsLowerHexDigit(c: char) {
    '0' <= c <= '9' || 'a' <= c <= 'f'
  }

  predicate AllHexDigits(s: string) {
    forall i :: 0 <= i < |s| ==> IsHexDigit(s[i])
  }

  function DigitValue(c: char): (v: nat)
    requires IsHexDigit(c)
    ensures v < 16
  {
    if '0' <= c <= '9' then c as int - '0' as int
    else if 'a' <= c <= 'f' then c as int - 'a' as int + 10
    else c as int - 'A' as int + 10
  }

  /** The digit `Number.prototype.toString(16)` writes for d. */
  function LowerDigit(d: nat): (c: char)
    requires d < 16
    ensures IsLowerHexDigit(c) && IsHexDigit(c) && DigitValue(c) == d
  {
    if d < 10 then ('0' as int + d) as char else ('a' as int + d - 10) as char
  }

  function UpperDigit(d: nat): (c: char)
    requires d < 16
    ensures IsUpperHexDigit(c) && IsHexDigit(c) && DigitValue(c) == d
  {
    if d < 10 then ('0' as int + d) as char else ('A' as int + d - 10) as char
  }

  /** The number a string of hexadecimal digits denotes, most significant first. */
  function HexValue(s: string): nat
    requires AllHexDigits(s)
  {
    if |s| == 0 then 0 else HexValue(s[..|s| - 1]) * 16 + DigitValue(s[|s| - 1])
  }

  /**
   * `Number(n).toString(16)` for a non-negative integer: lower-case digits
   * without leading zeros, denoting n.
   */
  function ToBase16(n: nat): (r: string)
    ensures |r| >= 1
    ensures forall i :: 0 <= i < |r| ==> IsLowerHexDigit(r[i])
    ensures AllHexDigits(r) && HexValue(r) == n
    ensures |r| > 1 ==> r[0] != '0'
    ensures n < 16 ==> |r| == 1
    ensures 16 <= n < 256 ==> |r| == 2
    decreases n
  {
    if n < 16 then [LowerDigit(n)]
    else
      var r := ToBase16(n / 16) + [LowerDigit(n % 16)];
      assert r[..|r| - 1] == ToBase16(n / 16);
      r
  }

  /** Upper-casing a string of hexadecimal digits keeps the number it denotes. */
  lemma {:induction false} UpperKeepsValue(s: string)
    requires AllHexDigits(s)
    ensures AllHexDigits(Casing.ToUpper(s))
    ensures HexValue(Casing.ToUpper(s)) == HexValue(s)
    decreases |s|
  {
    var u := Casing.ToUpper(s);
    if |s| > 0 {
      assert Casing.ToUpper(s[..|s| - 1]) == u[..|u| - 1];
      UpperKeepsValue(s[..|s| - 1]);
    }
  }

  /**
   * `ColorToHex`: the base-16 text of the byte, padded with "0" when it has one
   * digit, then upper-cased. The result is exactly two upper-case digits
   * that denote b.
   */
  function ColorToHex(b: Byte): (r: string)
    ensures |r| == 2
    ensures forall i :: 0 <= i < |r| ==> IsUpperHexDigit(r[i])
    ensures AllHexDigits(r) && HexValue(r) == b
  {
    var hex := ToBase16(b);
    var padded := if |hex| < 2 then "0" + hex else hex;
    assert padded[..1] == "0" ==> HexValue(padded[..1]) == 0;
    UpperKeepsValue(padded);
    Casing.ToUpper(padded)
  }

  /** An independent definition: high nibble, then low nibble, in upper case. */
  lemma ColorToHexNibbles(b: Byte)
    ensures ColorToHex(b) == [UpperDigit(b / 16), UpperDigit(b % 16)]
  {
    var r := ColorToHex(b);
    HexValueOfTwo(r);
    UpperDigitUnique(r[0], b / 16);
    UpperDigitUnique(r[1], b % 16);
  }

  lemma HexValueOfTwo(s: string)
    requires |s| == 2 && AllHexDigits(s)
    ensures HexValue(s) == DigitValue(s[0]) * 16 + DigitValue(s[1])
  {
    assert s[..1][..0] == [];
    assert HexValue(s[..1]) == DigitValue(s[0]);
  }

  /** Full intensity is written "FF" and none "00". */
  lemma ColorToHexExamples()
    ensures ColorToHex(255) == "FF" && ColorToHex(0) == "00"
  {
    ColorToHexNibbles(255);
    ColorToHexNibbles(0);
  }

  lemma UpperDigitUnique(c: char, d: nat)
    requires d < 16 && IsUpperHexDigit(c) && DigitValue(c) == d
    ensures c == UpperDigit(d)
  {
  }

  /** Reads two hexadecimal digits as a byte. */
  function HexByte(s: string): (r: Option<Byte>)
    ensures r.Some? <==> |s| == 2 && AllHexDigits(s)
    ensures r.Some? ==> r.value == DigitValue(s[0]) * 16 + DigitValue(s[1])
  {
    if |s| == 2 && AllHexDigits(s) then
      HexValueOfTwo(s);
      Some(HexValue(s))
    else None
  }

  /** Decoding the two digits of `ColorToHex(b)` gives back b. */
  lemma HexByteRoundTrip(b: Byte)
    ensures HexByte(ColorToHex(b)) == Some(b)
  {
  }

  /** Distinct bytes get distinct hex text. */
  lemma ColorToHexInjective(a: Byte, b: Byte)
    ensures ColorToHex(a) == ColorToHex(b) <==> a == b
  {
    HexByteRoundTrip(a);
    HexByteRoundTrip(b);
  }

  /** Several channels written one after the other, two digits each. */
  function HexBytes(bs: seq<Byte>): (s: string)
    ensures |s| == 2 * |bs|
  {
    if |bs| == 0 then [] else ColorToHex(bs[0]) + HexBytes(bs[1..])
  }

  /** Reads n two-digit bytes off the front of s, returning them and the rest. */
  function ParseHexBytes(n: nat, s: string): (r: Option<(seq<Byte>, string)>)
    ensures r.Some? ==> |r.value.0| == n && |s| >= 2 * n && r.value.1 == s[2 * n..]
  {
    if n == 0 then Some(([], s))
    else if |s| < 2 then None
    else
      var b :- HexByte(s[..2]);
      var more :- ParseHexBytes(n - 1, s[2..]);
      assert s[2..][2 * (n - 1)..] == s[2 * n..];
      Some(([b] + more.0, more.1))
  }

  lemma HexBytesCons(bs: seq<Byte>, rest: string)
    requires |bs| > 0
    ensures HexBytes(bs) + rest == ColorToHex(bs[0]) + (HexBytes(bs[1..]) + rest)
  {
    Concat.Assoc3(ColorToHex(bs[0]), HexBytes(bs[1..]), rest);
  }

  lemma ParseHexBytesStep(b: Byte, n: nat, text: string, tailText: string, more: (seq<Byte>, string))
    requires text == ColorToHex(b) + tailText
    requires ParseHexBytes(n, tailText) == Some(more)
    ensures ParseHexBytes(n + 1, text) == Some(([b] + more.0, more.1))
  {
    assert text[..2] == ColorToHex(b);
    assert text[2..] == tailText;
    HexByteRoundTrip(b);
  }

  /** Reading back `|bs|` bytes from their hex text gives the bytes and leaves what followed. */
  lemma {:induction false} HexBytesRoundTrip(bs: seq<Byte>, rest: string)
    ensures ParseHexBytes(|bs|, HexBytes(bs) + rest) == Some((bs, rest))
    decreases |bs|
  {
    if |bs| > 0 {
      HexBytesRoundTrip(bs[1..], rest);
      HexBytesCons(bs, rest);
      ParseHexBytesStep(bs[0], |bs| - 1, HexBytes(bs) + rest, HexBytes(bs[1..]) + rest, (bs[1..], rest));
      assert [bs[0]] + bs[1..] == bs;
    } else {
      assert HexBytes(bs) + rest == rest;
    }
  }


  /** `RGBToHex`: "#" followed by red, green and blue, two digits each. */
  function RgbToHex(red: Byte, green: Byte, blue: Byte): (r: string)
    ensures |r| == 7 && r[0] == '#'
    ensures HexByte(r[1..3]) == Some(red)
    ensures HexByte(r[3..5]) == Some(green)
    ensures HexByte(r[5..7]) == Some(blue)
    ensures forall i :: 1 <= i < 7 ==> IsUpperHexDigit(r[i])
  {
    var r := "#" + ColorToHex(red) + ColorToHex(green) + ColorToHex(blue);
    assert r[1..3] == ColorToHex(red);
    assert r[3..5] == ColorToHex(green);
    assert r[5..7] == ColorToHex(blue);
    HexByteRoundTrip(red);
    HexByteRoundTrip(green);
    HexByteRoundTrip(blue);
    r
  }
}
