/**
 * The encodings under a device token and a ring file: base64url without
 * padding (RFC 4648 section 5), hexadecimal, UTF-8, and JSON strings and
 * integers as encoding/json prints and reads them (RFC 8259 sections 6 and 7).
 */
module Codec {
  import opened Common
  import opened Text

  type Byte = n: int | 0 <= n < 256

  // ---------- base64url ----------

  type Sextet = n: int | 0 <= n < 64

  function Symbol(v: Sextet): char {
    if v < 26 then 'A' + v as char
    else if v < 52 then 'a' + (v - 26) as char
    else if v < 62 then '0' + (v - 52) as char
    else if v == 62 then '-'
    else '_'
  }

  function SymbolValue(c: char): Option<Sextet> {
    if 'A' <= c <= 'Z' then Some((c - 'A') as int)
    else if 'a' <= c <= 'z' then Some(26 + (c - 'a') as int)
    else if '0' <= c <= '9' then Some(52 + (c - '0') as int)
    else if c == '-' then Some(62)
    else if c == '_' then Some(63)
    else None
  }

  // The four six-bit slices of three bytes.
  function Slice0(b0: Byte): Sextet { b0 as int / 4 }

  function Slice1(b0: Byte, b1: Byte): Sextet { b0 as int % 4 * 16 + b1 / 16 }

  function Slice2(b1: Byte, b2: Byte): Sextet { b1 as int % 16 * 4 + b2 / 64 }

  function Slice3(b2: Byte): Sextet { b2 as int % 64 }

  /** Three bytes as four six-bit values; one or two left-over bytes, padded with zeros, as two or three. */
  function Sextets(b: seq<Byte>): seq<Sextet> {
    if |b| == 0 then []
    else if |b| == 1 then [Slice0(b[0]), Slice1(b[0], 0)]
    else if |b| == 2 then [Slice0(b[0]), Slice1(b[0], b[1]), Slice2(b[1], 0)]
    else [Slice0(b[0]), Slice1(b[0], b[1]), Slice2(b[1], b[2]), Slice3(b[2])] + Sextets(b[3..])
  }

  function FirstByte(x: Sextet, y: Sextet): Byte { x as int * 4 + y / 16 }

  function SecondByte(y: Sextet, z: Sextet): Byte { y as int % 16 * 16 + z / 4 }

  function ThirdByte(z: Sextet, w: Sextet): Byte { z as int % 4 * 64 + w }

  /** The inverse; the spare bits of a short last group are ignored, a single left-over value is an error. */
  function Unsextets(v: seq<Sextet>): Option<seq<Byte>> {
    if |v| == 0 then Some([])
    else if |v| == 1 then None
    else if |v| == 2 then Some([FirstByte(v[0], v[1])])
    else if |v| == 3 then Some([FirstByte(v[0], v[1]), SecondByte(v[1], v[2])])
    else
      var rest := Unsextets(v[4..]);
      if rest.None? then None
      else Some([FirstByte(v[0], v[1]), SecondByte(v[1], v[2]), ThirdByte(v[2], v[3])] + rest.value)
  }

  function Symbols(v: seq<Sextet>): string {
    if v == [] then "" else [Symbol(v[0])] + Symbols(v[1..])
  }

  /** The decoder skips line breaks wherever they stand and rejects any other foreign character. */
  function Values(s: string): Option<seq<Sextet>> {
    if s == "" then Some([])
    else
      var rest := Values(s[1..]);
      if s[0] in {'\r', '\n'} then rest
      else if rest.None? || SymbolValue(s[0]).None? then None
      else Some([SymbolValue(s[0]).value] + rest.value)
  }

  function Base64(b: seq<Byte>): string {
    Symbols(Sextets(b))
  }

  function Unbase64(s: string): Option<seq<Byte>> {
    var v := Values(s);
    if v.None? then None else Unsextets(v.value)
  }

  lemma SymbolRoundTrip(v: Sextet)
    ensures SymbolValue(Symbol(v)) == Some(v)
    ensures Symbol(v) !in {'.', '\r', '\n'}
  {
  }

  lemma {:induction false} SymbolsRoundTrip(v: seq<Sextet>)
    ensures Values(Symbols(v)) == Some(v)
    ensures '.' !in Symbols(v)
  {
    if v != [] {
      SymbolRoundTrip(v[0]);
      SymbolsRoundTrip(v[1..]);
      assert Symbols(v)[1..] == Symbols(v[1..]);
      assert v == [v[0]] + v[1..];
    }
  }

  lemma ThreeBytes(b0: Byte, b1: Byte, b2: Byte)
    ensures FirstByte(Slice0(b0), Slice1(b0, b1)) == b0
    ensures SecondByte(Slice1(b0, b1), Slice2(b1, b2)) == b1
    ensures ThirdByte(Slice2(b1, b2), Slice3(b2)) == b2
  {
  }

  lemma WholeGroup(b: seq<Byte>, tail: seq<Sextet>, rest: seq<Byte>)
    requires |b| == 3 && Unsextets(tail) == Some(rest)
    ensures Unsextets([Slice0(b[0]), Slice1(b[0], b[1]), Slice2(b[1], b[2]), Slice3(b[2])] + tail) == Some(b + rest)
  {
    var v := [Slice0(b[0]), Slice1(b[0], b[1]), Slice2(b[1], b[2]), Slice3(b[2])];
    ThreeBytes(b[0], b[1], b[2]);
    assert (v + tail)[4..] == tail;
    assert b == [b[0], b[1], b[2]];
  }

  lemma OneLeft(b0: Byte)
    ensures Unsextets([Slice0(b0), Slice1(b0, 0)]) == Some([b0])
  {
    assert FirstByte(Slice0(b0), Slice1(b0, 0)) == b0;
  }

  lemma TwoLeft(b0: Byte, b1: Byte)
    ensures Unsextets([Slice0(b0), Slice1(b0, b1), Slice2(b1, 0)]) == Some([b0, b1])
  {
    ThreeBytes(b0, b1, 0);
  }

  lemma {:induction false} SextetsRoundTrip(b: seq<Byte>)
    ensures Unsextets(Sextets(b)) == Some(b)
  {
    if |b| == 1 {
      OneLeft(b[0]);
      assert b == [b[0]];
    } else if |b| == 2 {
      TwoLeft(b[0], b[1]);
      assert b == [b[0], b[1]];
    } else if |b| >= 3 {
      SextetsRoundTrip(b[3..]);
      WholeGroup(b[..3], Sextets(b[3..]), b[3..]);
      assert b == b[..3] + b[3..];
    }
  }

  /** base64url decoding inverts encoding, and the encoding has no '.'. */
  lemma Base64RoundTrip(b: seq<Byte>)
    ensures Unbase64(Base64(b)) == Some(b)
    ensures '.' !in Base64(b)
  {
    SymbolsRoundTrip(Sextets(b));
    SextetsRoundTrip(b);
  }

  const UPPER := "ABCDEFGHIJKLMNOPQRSTUVWXYZ"
  const LOWER := "abcdefghijklmnopqrstuvwxyz"
  const DIGITS := "0123456789"

  /** Table 2 of RFC 4648. */
  const BASE64URL := UPPER + LOWER + DIGITS + "-_"

  lemma AlphabetOrder()
    ensures forall i :: 0 <= i < 26 ==> UPPER[i] == 'A' + i as char && LOWER[i] == 'a' + i as char
    ensures forall i :: 0 <= i < 10 ==> DIGITS[i] == '0' + i as char
  {
  }

  lemma SymbolIsFromTable(v: Sextet)
    ensures |BASE64URL| == 64 && Symbol(v) == BASE64URL[v]
  {
    AlphabetOrder();
  }

  lemma {:induction false} SymbolsFromTable(v: seq<Sextet>)
    ensures |Symbols(v)| == |v| && forall i :: 0 <= i < |v| ==> Symbols(v)[i] == BASE64URL[v[i]]
  {
    if v != [] {
      SymbolIsFromTable(v[0]);
      SymbolsFromTable(v[1..]);
    }
  }

  /** Byte k, zero past the end. */
  function Padded(b: seq<Byte>, k: nat): Byte {
    if k < |b| then b[k] else 0
  }

  /** The six bits of b from bit 6 * i on, most significant first: a window of two bytes, shifted. */
  function SixBits(b: seq<Byte>, i: nat): Sextet {
    var k := 6 * i / 8;
    var shift := match 6 * i % 8 case 0 => 1024 case 2 => 256 case 4 => 64 case _ => 16;
    (Padded(b, k) as int * 256 + Padded(b, k + 1)) / shift % 64
  }

  lemma WindowAt0(x: nat, y: nat)
    requires x < 256 && y < 256
    ensures (x * 256 + y) / 1024 % 64 == x / 4
  {
    assert x * 256 + y == x / 4 * 1024 + (x % 4 * 256 + y);
  }

  lemma WindowAt6(x: nat, y: nat)
    requires x < 256 && y < 256
    ensures (x * 256 + y) / 16 % 64 == x % 4 * 16 + y / 16
  {
    assert (x * 256 + y) / 16 == x * 16 + y / 16;
    assert x * 16 + y / 16 == x / 4 * 64 + (x % 4 * 16 + y / 16);
  }

  lemma WindowAt4(x: nat, y: nat)
    requires x < 256 && y < 256
    ensures (x * 256 + y) / 64 % 64 == x % 16 * 4 + y / 64
  {
    assert (x * 256 + y) / 64 == x * 4 + y / 64;
    assert x * 4 + y / 64 == x / 16 * 64 + (x % 16 * 4 + y / 64);
  }

  lemma WindowAt2(x: nat, y: nat)
    requires x < 256 && y < 256
    ensures (x * 256 + y) / 256 % 64 == x % 64
  {
    assert (x * 256 + y) / 256 == x;
  }

  lemma SixBitsOf(b: seq<Byte>)
    ensures var x, y, z := Padded(b, 0), Padded(b, 1), Padded(b, 2);
            && SixBits(b, 0) == Slice0(x) && SixBits(b, 1) == Slice1(x, y)
            && SixBits(b, 2) == Slice2(y, z) && SixBits(b, 3) == Slice3(z)
  {
    WindowAt0(Padded(b, 0), Padded(b, 1));
    WindowAt6(Padded(b, 0), Padded(b, 1));
    WindowAt4(Padded(b, 1), Padded(b, 2));
    WindowAt2(Padded(b, 2), Padded(b, 3));
  }

  lemma FirstSextets(b: seq<Byte>)
    ensures var x, y, z := Padded(b, 0), Padded(b, 1), Padded(b, 2);
            && (|b| >= 1 ==> |Sextets(b)| >= 2 && Sextets(b)[0] == Slice0(x) && Sextets(b)[1] == Slice1(x, y))
            && (|b| >= 2 ==> |Sextets(b)| >= 3 && Sextets(b)[2] == Slice2(y, z))
            && (|b| >= 3 ==> |Sextets(b)| >= 4 && Sextets(b)[3] == Slice3(z))
  {
  }

  lemma LaterSixBits(b: seq<Byte>, i: nat)
    requires |b| >= 3 && i >= 4
    ensures SixBits(b, i) == SixBits(b[3..], i - 4)
  {
    assert 6 * i / 8 == 6 * (i - 4) / 8 + 3 && 6 * i % 8 == 6 * (i - 4) % 8;
  }

  lemma {:induction false} SextetsAreBits(b: seq<Byte>)
    ensures |Sextets(b)| == (4 * |b| + 2) / 3
    ensures forall i :: 0 <= i < |Sextets(b)| ==> Sextets(b)[i] == SixBits(b, i)
  {
    if b != [] {
      SixBitsOf(b);
      FirstSextets(b);
      if |b| >= 3 {
        SextetsAreBits(b[3..]);
        forall i | 4 <= i < |Sextets(b)|
          ensures Sextets(b)[i] == SixBits(b, i)
        {
          LaterSixBits(b, i);
        }
      }
    }
  }

  /** The encoding is the standard one: character i is the table's for bits 6 * i to 6 * i + 5. */
  lemma Base64IsStandard(b: seq<Byte>)
    ensures |Base64(b)| == (4 * |b| + 2) / 3
    ensures forall i :: 0 <= i < |Base64(b)| ==> Base64(b)[i] == BASE64URL[SixBits(b, i)]
  {
    SextetsAreBits(b);
    SymbolsFromTable(Sextets(b));
  }

  predicate IsBreak(c: char) {
    c == '\r' || c == '\n'
  }

  /** The symbols of s, without line breaks. */
  function WithoutBreaks(s: string): string {
    if s == "" then "" else (if IsBreak(s[0]) then "" else [s[0]]) + WithoutBreaks(s[1..])
  }

  lemma TableValue(c: char)
    ensures SymbolValue(c).Some? <==> c in BASE64URL
    ensures SymbolValue(c).Some? ==> BASE64URL[SymbolValue(c).value] == c
  {
    if SymbolValue(c).Some? {
      SymbolIsFromTable(SymbolValue(c).value);
    } else if i :| 0 <= i < |BASE64URL| && BASE64URL[i] == c {
      SymbolIsFromTable(i);
      SymbolRoundTrip(i);
    }
  }

  lemma {:induction false} ValuesOfTable(s: string)
    ensures Values(s).Some? <==> forall c :: c in s ==> IsBreak(c) || c in BASE64URL
    ensures Values(s).Some? ==> Symbols(Values(s).value) == WithoutBreaks(s)
  {
    if s != "" {
      ValuesOfTable(s[1..]);
      TableValue(s[0]);
      assert s == [s[0]] + s[1..];
      if Values(s).Some? && !IsBreak(s[0]) {
        var v := SymbolValue(s[0]).value;
        SymbolIsFromTable(v);
        assert Values(s).value == [v] + Values(s[1..]).value;
      }
    }
  }

  lemma FourFewer(n: nat)
    requires n >= 4
    ensures (n - 4) % 4 == n % 4
  {
  }

  lemma {:induction false} UnsextetsIff(v: seq<Sextet>)
    ensures Unsextets(v).Some? <==> |v| % 4 != 1
  {
    if |v| >= 4 {
      UnsextetsIff(v[4..]);
      FourFewer(|v|);
    }
  }

  /** The decoder takes line breaks anywhere and otherwise the table's characters only, but not one left over. */
  lemma DecodesIff(s: string)
    ensures Unbase64(s).Some? <==>
            (forall c :: c in s ==> IsBreak(c) || c in BASE64URL) && |WithoutBreaks(s)| % 4 != 1
    ensures Unbase64(WithoutBreaks(s)) == Unbase64(s) || Unbase64(s).None?
  {
    ValuesOfTable(s);
    if Values(s).Some? {
      UnsextetsIff(Values(s).value);
      SymbolsFromTable(Values(s).value);
      SymbolsRoundTrip(Values(s).value);
    }
  }

  // ---------- hexadecimal ----------

  function HexDigit(v: nat): char
    requires v < 16
  {
    if v < 10 then '0' + v as char else 'a' + (v - 10) as char
  }

  /** The value of a hex digit of either case, 16 for any other character. */
  function HexValue(c: char): (v: nat)
    ensures v <= 16
  {
    if '0' <= c <= '9' then (c - '0') as int
    else if 'a' <= c <= 'f' then 10 + (c - 'a') as int
    else if 'A' <= c <= 'F' then 10 + (c - 'A') as int
    else 16
  }

  function Hex(b: seq<Byte>): string {
    if b == [] then "" else [HexDigit(b[0] / 16), HexDigit(b[0] % 16)] + Hex(b[1..])
  }

  function Unhex(s: string): Option<seq<Byte>> {
    if s == "" then Some([])
    else if |s| == 1 || HexValue(s[0]) == 16 || HexValue(s[1]) == 16 then None
    else
      var rest := Unhex(s[2..]);
      if rest.None? then None else Some([HexValue(s[0]) * 16 + HexValue(s[1])] + rest.value)
  }

  lemma HexDigitRoundTrip(v: nat)
    requires v < 16
    ensures HexValue(HexDigit(v)) == v
  {
  }

  lemma {:induction false} HexRoundTrip(b: seq<Byte>)
    ensures Unhex(Hex(b)) == Some(b) && |Hex(b)| == 2 * |b|
  {
    if b != [] {
      HexRoundTrip(b[1..]);
      HexDigitRoundTrip(b[0] / 16);
      HexDigitRoundTrip(b[0] % 16);
      assert Hex(b)[2..] == Hex(b[1..]);
      assert b == [b[0]] + b[1..];
    }
  }

  const HEX_DIGITS := "0123456789abcdef"

  lemma HexDigitIsFromTable(v: nat)
    requires v < 16
    ensures HexDigit(v) == HEX_DIGITS[v]
  {
  }

  /** Two lower-case digits a byte, the high half first. */
  lemma {:induction false} HexIsStandard(b: seq<Byte>)
    ensures |Hex(b)| == 2 * |b|
    ensures forall i :: 0 <= i < |b| ==>
              Hex(b)[2 * i] == HEX_DIGITS[b[i] / 16] && Hex(b)[2 * i + 1] == HEX_DIGITS[b[i] % 16]
  {
    if b != [] {
      HexIsStandard(b[1..]);
      HexDigitIsFromTable(b[0] / 16);
      HexDigitIsFromTable(b[0] % 16);
      forall i | 1 <= i < |b|
        ensures Hex(b)[2 * i] == Hex(b[1..])[2 * (i - 1)] && Hex(b)[2 * i + 1] == Hex(b[1..])[2 * (i - 1) + 1]
      {
        assert Hex(b) == [HexDigit(b[0] / 16), HexDigit(b[0] % 16)] + Hex(b[1..]);
      }
    }
  }

  /** Digits of either case, in pairs. */
  lemma {:induction false} UnhexIff(s: string)
    ensures Unhex(s).Some? <==> |s| % 2 == 0 && forall c :: c in s ==> c in "0123456789abcdefABCDEF"
    decreases |s|
  {
    if |s| >= 2 {
      UnhexIff(s[2..]);
      HexValueIff(s[0]);
      HexValueIff(s[1]);
      assert s == [s[0], s[1]] + s[2..];
    } else if |s| == 1 {
      assert |s| % 2 == 1;
    }
  }

  lemma {:induction false} UnhexHalves(s: string)
    requires Unhex(s).Some?
    ensures |s| == 2 * |Unhex(s).value|
    decreases |s|
  {
    if s != "" {
      UnhexHalves(s[2..]);
    }
  }

  lemma HexValueIff(c: char)
    ensures HexValue(c) < 16 <==> c in "0123456789abcdefABCDEF"
  {
  }

  // ---------- UTF-8 ----------

  function Utf8Char(c: char): seq<Byte> {
    var n := c as int;
    if n < 0x80 then [n]
    else if n < 0x800 then [0xC0 + n / 64, 0x80 + n % 64]
    else if n < 0x10000 then [0xE0 + n / 4096, 0x80 + n / 64 % 64, 0x80 + n % 64]
    else [0xF0 + n / 262144, 0x80 + n / 4096 % 64, 0x80 + n / 64 % 64, 0x80 + n % 64]
  }

  function Utf8(s: string): seq<Byte> {
    if s == "" then [] else Utf8Char(s[0]) + Utf8(s[1..])
  }

  predicate Continuation(b: Byte) {
    0x80 <= b < 0xC0
  }

  predicate Scalar(n: int) {
    0 <= n < 0xD800 || 0xE000 <= n < 0x110000
  }

  /** The first character and its length in bytes; None for anything malformed or overlong. */
  function FirstChar(b: seq<Byte>): Option<(char, nat)>
    requires b != []
    ensures FirstChar(b).Some? ==> 1 <= FirstChar(b).value.1 <= |b|
  {
    if b[0] < 0x80 then Some((b[0] as char, 1))
    else if 0xC0 <= b[0] < 0xE0 && |b| >= 2 && Continuation(b[1]) then
      var n: int := (b[0] as int - 0xC0) * 64 + (b[1] as int - 0x80);
      if n >= 0x80 then Some((n as char, 2)) else None
    else if 0xE0 <= b[0] < 0xF0 && |b| >= 3 && Continuation(b[1]) && Continuation(b[2]) then
      var n: int := (b[0] as int - 0xE0) * 4096 + (b[1] as int - 0x80) * 64 + (b[2] as int - 0x80);
      if n >= 0x800 && Scalar(n) then Some((n as char, 3)) else None
    else if 0xF0 <= b[0] < 0xF8 && |b| >= 4 && Continuation(b[1]) && Continuation(b[2]) && Continuation(b[3]) then
      var n: int := (b[0] as int - 0xF0) * 262144 + (b[1] as int - 0x80) * 4096 + (b[2] as int - 0x80) * 64
                    + (b[3] as int - 0x80);
      if n >= 0x10000 && Scalar(n) then Some((n as char, 4)) else None
    else None
  }

  function Unutf8(b: seq<Byte>): Option<string> {
    if b == [] then Some("")
    else
      var f := FirstChar(b);
      if f.None? then None
      else
        var rest := Unutf8(b[f.value.1..]);
        if rest.None? then None else Some([f.value.0] + rest.value)
  }

  /** The bytes of one character by Table 3-6 of the Unicode Standard: lead byte, six bits a continuation byte. */
  lemma Utf8IsStandard(c: char)
    ensures var n, b := c as int, Utf8Char(c);
            && (n < 0x80 ==> b == [n])
            && (0x80 <= n < 0x800 ==> |b| == 2 && 0xC2 <= b[0] < 0xE0)
            && (0x800 <= n < 0x10000 ==> |b| == 3 && 0xE0 <= b[0] < 0xF0)
            && (0x10000 <= n ==> |b| == 4 && 0xF0 <= b[0] < 0xF5)
            && (forall i :: 1 <= i < |b| ==> 0x80 <= b[i] < 0xC0)
            && (|b| == 2 ==> n == (b[0] as int - 0xC0) * 64 + (b[1] as int - 0x80))
            && (|b| == 3 ==> n == (b[0] as int - 0xE0) * 4096 + (b[1] as int - 0x80) * 64 + (b[2] as int - 0x80))
            && (|b| == 4 ==> n == (b[0] as int - 0xF0) * 262144 + (b[1] as int - 0x80) * 4096
                                  + (b[2] as int - 0x80) * 64 + (b[3] as int - 0x80))
  {
    BaseSixtyFour(c as int);
    assert c as int < 0x110000;
  }

  /** The digits of n in base 64. */
  lemma BaseSixtyFour(n: nat)
    ensures n == n / 4096 * 4096 + n / 64 % 64 * 64 + n % 64
    ensures n == n / 262144 * 262144 + n / 4096 % 64 * 4096 + n / 64 % 64 * 64 + n % 64
  {
    assert n / 4096 == n / 262144 * 64 + n / 4096 % 64;
    assert n / 64 == n / 4096 * 64 + n / 64 % 64;
    assert n == n / 64 * 64 + n % 64;
  }

  lemma FirstOfTwo(c: char, b: seq<Byte>)
    requires 0x80 <= c as int < 0x800 && |b| >= 2 && b[..2] == Utf8Char(c)
    ensures FirstChar(b) == Some((c, 2))
  {
    var n := c as int;
    assert b[0] == Utf8Char(c)[0] && b[1] == Utf8Char(c)[1];
    assert n == n / 64 * 64 + n % 64;
  }

  lemma FirstOfThree(c: char, b: seq<Byte>)
    requires 0x800 <= c as int < 0x10000 && |b| >= 3 && b[..3] == Utf8Char(c)
    ensures FirstChar(b) == Some((c, 3))
  {
    assert b[0] == Utf8Char(c)[0] && b[1] == Utf8Char(c)[1] && b[2] == Utf8Char(c)[2];
    BaseSixtyFour(c as int);
  }

  lemma FirstOfFour(c: char, b: seq<Byte>)
    requires 0x10000 <= c as int && |b| >= 4 && b[..4] == Utf8Char(c)
    ensures FirstChar(b) == Some((c, 4))
  {
    assert b[0] == Utf8Char(c)[0] && b[1] == Utf8Char(c)[1] && b[2] == Utf8Char(c)[2] && b[3] == Utf8Char(c)[3];
    BaseSixtyFour(c as int);
  }

  lemma FirstCharRoundTrip(c: char, rest: seq<Byte>)
    ensures FirstChar(Utf8Char(c) + rest) == Some((c, |Utf8Char(c)|))
  {
    var n := c as int;
    var b := Utf8Char(c) + rest;
    assert b[..|Utf8Char(c)|] == Utf8Char(c);
    if n < 0x80 {
      assert b[0] == n;
    } else if n < 0x800 {
      FirstOfTwo(c, b);
    } else if n < 0x10000 {
      FirstOfThree(c, b);
    } else {
      FirstOfFour(c, b);
    }
  }

  lemma {:induction false} Utf8RoundTrip(s: string)
    ensures Unutf8(Utf8(s)) == Some(s)
  {
    if s != "" {
      var head, rest := Utf8Char(s[0]), Utf8(s[1..]);
      FirstCharRoundTrip(s[0], rest);
      Utf8RoundTrip(s[1..]);
      assert (head + rest)[|head|..] == rest;
      assert s == [s[0]] + s[1..];
    }
  }

  /** The first character is encoded by exactly the bytes read for it: nothing overlong, no surrogate. */
  lemma FirstCharIsCanonical(b: seq<Byte>)
    requires b != [] && FirstChar(b).Some?
    ensures b[..FirstChar(b).value.1] == Utf8Char(FirstChar(b).value.0)
  {
    var (c, n) := FirstChar(b).value;
    if n == 2 {
      CharOfTwo(b[0], b[1]);
    } else if n == 3 {
      CharOfThree(b[0], b[1], b[2]);
    } else if n == 4 {
      CharOfFour(b[0], b[1], b[2], b[3]);
    }
  }

  lemma CharOfTwo(x: Byte, y: Byte)
    requires 0xC0 <= x < 0xE0 && Continuation(y)
    ensures var n := (x as int - 0xC0) * 64 + (y as int - 0x80); n < 0x800 && 0xC0 + n / 64 == x && 0x80 + n % 64 == y
  {
  }

  lemma CharOfThree(x: Byte, y: Byte, z: Byte)
    requires 0xE0 <= x < 0xF0 && Continuation(y) && Continuation(z)
    ensures var n := (x as int - 0xE0) * 4096 + (y as int - 0x80) * 64 + (z as int - 0x80);
            n < 0x10000 && 0xE0 + n / 4096 == x && 0x80 + n / 64 % 64 == y && 0x80 + n % 64 == z
  {
    var n := (x as int - 0xE0) * 4096 + (y as int - 0x80) * 64 + (z as int - 0x80);
    assert n / 64 == (x as int - 0xE0) * 64 + (y as int - 0x80);
  }

  lemma CharOfFour(w: Byte, x: Byte, y: Byte, z: Byte)
    requires 0xF0 <= w < 0xF8 && Continuation(x) && Continuation(y) && Continuation(z)
    ensures var n := (w as int - 0xF0) * 262144 + (x as int - 0x80) * 4096 + (y as int - 0x80) * 64 + (z as int - 0x80);
            && 0xF0 + n / 262144 == w && 0x80 + n / 4096 % 64 == x && 0x80 + n / 64 % 64 == y && 0x80 + n % 64 == z
  {
    var n := (w as int - 0xF0) * 262144 + (x as int - 0x80) * 4096 + (y as int - 0x80) * 64 + (z as int - 0x80);
    assert n / 64 == (w as int - 0xF0) * 4096 + (x as int - 0x80) * 64 + (y as int - 0x80);
    assert n / 4096 == (w as int - 0xF0) * 64 + (x as int - 0x80);
  }

  lemma Utf8OfCons(c: char, rest: string)
    ensures Utf8([c] + rest) == Utf8Char(c) + Utf8(rest)
  {
    assert ([c] + rest)[1..] == rest;
  }

  lemma FirstAndRest(b: seq<Byte>) returns (c: char, n: nat, rest: string)
    requires b != [] && Unutf8(b).Some?
    ensures 1 <= n <= |b| && b[..n] == Utf8Char(c)
    ensures Unutf8(b[n..]) == Some(rest) && Unutf8(b).value == [c] + rest
  {
    FirstCharIsCanonical(b);
    c, n := FirstChar(b).value.0, FirstChar(b).value.1;
    rest := Unutf8(b[n..]).value;
  }

  /** What decodes is the encoding of what it decodes to. */
  lemma {:induction false} DecodedUtf8IsCanonical(b: seq<Byte>)
    requires Unutf8(b).Some?
    ensures Utf8(Unutf8(b).value) == b
    decreases |b|
  {
    if b != [] {
      var c, n, rest := FirstAndRest(b);
      DecodedUtf8IsCanonical(b[n..]);
      Utf8OfCons(c, rest);
      assert b == b[..n] + b[n..];
    }
  }

  // ---------- JSON strings ----------

  function HexFour(n: nat): string
    requires n < 0x10000
  {
    [HexDigit(n / 4096), HexDigit(n / 256 % 16), HexDigit(n / 16 % 16), HexDigit(n % 16)]
  }

  /** One character inside quotes, as json.Marshal writes it (HTML-safe). */
  function QuotedChar(c: char): string {
    if c == '"' then ['\\', '"']
    else if c == '\\' then ['\\', '\\']
    else if c == '\U{08}' then ['\\', 'b']
    else if c == '\U{0C}' then ['\\', 'f']
    else if c == '\n' then ['\\', 'n']
    else if c == '\r' then ['\\', 'r']
    else if c == '\t' then ['\\', 't']
    else if c < '\U{20}' || c in {'<', '>', '&', '\U{2028}', '\U{2029}'} then ['\\', 'u'] + HexFour(c as int)
    else [c]
  }

  function Quoted(s: string): string {
    if s == "" then "" else QuotedChar(s[0]) + Quoted(s[1..])
  }

  predicate NeedsNoEscape(c: char) {
    c >= ' ' && c !in "\"\\<>&\U{2028}\U{2029}"
  }

  /** What needs no escape prints as itself; the rest prints as section 7 of RFC 8259 lists it. */
  lemma QuotedIsStandard(c: char)
    ensures NeedsNoEscape(c) ==> QuotedChar(c) == [c]
    ensures QuotedChar('"') == "\\\"" && QuotedChar('\\') == "\\\\"
    ensures QuotedChar('\n') == "\\n" && QuotedChar('\r') == "\\r" && QuotedChar('\t') == "\\t"
    ensures QuotedChar('<') == "\\u003c" && QuotedChar('>') == "\\u003e" && QuotedChar('&') == "\\u0026"
    ensures QuotedChar('\U{08}') == "\\b" && QuotedChar('\U{0C}') == "\\f" && QuotedChar('\U{1F}') == "\\u001f"
    ensures QuotedChar('\U{2028}') == "\\u2028" && QuotedChar('\U{2029}') == "\\u2029"
  {
  }

  /** A string of such characters prints as itself. */
  lemma {:induction false} PlainTextPrintsAsItself(s: string)
    requires forall i :: 0 <= i < |s| ==> NeedsNoEscape(s[i])
    ensures Quoted(s) == s
  {
    if s != "" {
      QuotedIsStandard(s[0]);
      assert s == [s[0]] + s[1..];
      PlainTextPrintsAsItself(s[1..]);
    }
  }

  function ReadHexFour(s: string): Option<nat>
    requires |s| >= 4
    ensures ReadHexFour(s).Some? ==> ReadHexFour(s).value < 0x10000
  {
    var a, b, c, d := HexValue(s[0]), HexValue(s[1]), HexValue(s[2]), HexValue(s[3]);
    if a == 16 || b == 16 || c == 16 || d == 16 then None else Some(a * 4096 + b * 256 + c * 16 + d)
  }

  /** The character after a backslash and what it stands for: (character, length of the escape body). */
  function ReadEscape(s: string): Option<(char, nat)>
    requires s != ""
    ensures ReadEscape(s).Some? ==> 1 <= ReadEscape(s).value.1 <= |s|
  {
    match s[0]
    case '"' => Some(('"', 1))
    case '\\' => Some(('\\', 1))
    case '/' => Some(('/', 1))
    case 'b' => Some(('\U{08}', 1))
    case 'f' => Some(('\U{0C}', 1))
    case 'n' => Some(('\n', 1))
    case 'r' => Some(('\r', 1))
    case 't' => Some(('\t', 1))
    case 'u' =>
      if |s| < 5 || ReadHexFour(s[1..]).None? then None
      else
        var n := ReadHexFour(s[1..]).value;
        Some((if Scalar(n) then n as char else '\U{FFFD}', 5))
    case _ => None
  }

  /** Reads up to the closing quote: the string and what follows the quote. */
  function ReadString(s: string): Option<(string, string)>
    ensures ReadString(s).Some? ==> |ReadString(s).value.1| < |s|
  {
    if s == "" || s[0] < '\U{20}' then None
    else if s[0] == '"' then Some(("", s[1..]))
    else if s[0] == '\\' then
      if |s| < 2 || ReadEscape(s[1..]).None? then None
      else
        var (c, n) := ReadEscape(s[1..]).value;
        var rest := ReadString(s[1 + n..]);
        if rest.None? then None else Some(([c] + rest.value.0, rest.value.1))
    else
      var rest := ReadString(s[1..]);
      if rest.None? then None else Some(([s[0]] + rest.value.0, rest.value.1))
  }

  lemma FourNibbles(n: nat)
    requires n < 0x10000
    ensures n / 4096 < 16 && n == n / 4096 * 4096 + n / 256 % 16 * 256 + n / 16 % 16 * 16 + n % 16
  {
    assert n == n / 16 * 16 + n % 16;
    assert n / 16 == n / 256 * 16 + n / 16 % 16;
    assert n / 256 == n / 4096 * 16 + n / 256 % 16;
  }

  lemma HexFourRoundTrip(n: nat, tail: string)
    requires n < 0x10000
    ensures ReadHexFour(HexFour(n) + tail) == Some(n)
  {
    FourNibbles(n);
    HexDigitRoundTrip(n / 4096);
    HexDigitRoundTrip(n / 256 % 16);
    HexDigitRoundTrip(n / 16 % 16);
    HexDigitRoundTrip(n % 16);
  }

  /** c in front of what was read. */
  function Prepend(c: char, r: Option<(string, string)>): Option<(string, string)> {
    if r.None? then None else Some(([c] + r.value.0, r.value.1))
  }

  lemma ReadPlainChar(c: char, tail: string)
    requires QuotedChar(c) == [c]
    ensures ReadString([c] + tail) == Prepend(c, ReadString(tail))
  {
    assert ([c] + tail)[1..] == tail;
  }

  lemma ReadEscaped(c: char, n: nat, body: string, tail: string)
    requires body != "" && ReadEscape(body) == Some((c, n)) && body[n..] == tail
    ensures ReadString(['\\'] + body) == Prepend(c, ReadString(tail))
  {
    var s := ['\\'] + body;
    assert s[1..] == body && s[1 + n..] == tail;
  }

  /** The two-character escapes. */
  lemma ReadShortEscape(c: char, tail: string)
    requires |QuotedChar(c)| == 2
    ensures ReadString(QuotedChar(c) + tail) == Prepend(c, ReadString(tail))
  {
    var body := [QuotedChar(c)[1]] + tail;
    assert body[0] == QuotedChar(c)[1] && body[1..] == tail;
    assert QuotedChar(c) + tail == ['\\'] + body;
    assert ReadEscape(body) == Some((c, 1));
    ReadEscaped(c, 1, body, tail);
  }

  /** The six-character escapes. */
  lemma ReadLongEscape(c: char, tail: string)
    requires c as int < 0x10000
    ensures ReadString(['\\', 'u'] + HexFour(c as int) + tail) == Prepend(c, ReadString(tail))
  {
    var hex := HexFour(c as int);
    var body := ['u'] + hex + tail;
    HexFourRoundTrip(c as int, tail);
    assert body[1..] == hex + tail && body[5..] == tail;
    assert ['\\', 'u'] + hex + tail == ['\\'] + body;
    ReadEscaped(c, 5, body, tail);
  }

  lemma QuotedCharForms(c: char)
    ensures var q := QuotedChar(c);
            |q| == 2 || (c as int < 0x10000 && q == ['\\', 'u'] + HexFour(c as int)) || q == [c]
  {
  }

  lemma ReadQuotedChar(c: char, tail: string)
    ensures ReadString(QuotedChar(c) + tail) == Prepend(c, ReadString(tail))
  {
    QuotedCharForms(c);
    if |QuotedChar(c)| == 2 {
      ReadShortEscape(c, tail);
    } else if QuotedChar(c) == [c] {
      ReadPlainChar(c, tail);
    } else {
      ReadLongEscape(c, tail);
    }
  }

  lemma ClosingQuote(tail: string)
    ensures ReadString("\"" + tail) == Some(("", tail))
  {
    assert ("\"" + tail)[1..] == tail;
  }

  /** Reading back a printed string gives the string and exactly the rest. */
  lemma {:induction false} StringRoundTrip(s: string, tail: string)
    ensures ReadString(Quoted(s) + "\"" + tail) == Some((s, tail))
  {
    if s == "" {
      ClosingQuote(tail);
      assert Quoted(s) + "\"" + tail == "\"" + tail;
    } else {
      var rest := Quoted(s[1..]) + "\"" + tail;
      StringRoundTrip(s[1..], tail);
      ReadQuotedChar(s[0], rest);
      assert Quoted(s) + "\"" + tail == QuotedChar(s[0]) + rest by {
        Regroup(QuotedChar(s[0]), Quoted(s[1..]), "\"", tail);
      }
      assert s == [s[0]] + s[1..];
    }
  }

  lemma Regroup(a: string, b: string, c: string, d: string)
    ensures a + b + c + d == a + (b + c + d)
  {
  }

  // ---------- JSON integers ----------

  predicate IsInt64(n: int) {
    -0x8000_0000_0000_0000 <= n < 0x8000_0000_0000_0000
  }

  function PrintInt(n: int): string {
    if n < 0 then "-" + Decimal(-n) else Decimal(n)
  }

  predicate IsDigit(c: char) {
    '0' <= c <= '9'
  }

  /** The leading digits of s. */
  function DigitRun(s: string): (r: string)
    ensures |r| <= |s| && r == s[..|r|]
    ensures forall i :: 0 <= i < |r| ==> IsDigit(r[i])
    ensures |r| < |s| ==> !IsDigit(s[|r|])
  {
    if s != "" && IsDigit(s[0]) then [s[0]] + DigitRun(s[1..]) else ""
  }

  function DigitValue(c: char): nat
    requires IsDigit(c)
  {
    (c - '0') as int
  }

  function DigitsValue(s: string): nat
    requires forall i :: 0 <= i < |s| ==> IsDigit(s[i])
  {
    if s == "" then 0 else DigitsValue(s[..|s| - 1]) * 10 + DigitValue(s[|s| - 1])
  }

  /** A natural number with no leading zero, and what follows it. */
  function ReadNat(s: string): Option<(nat, string)> {
    var run := DigitRun(s);
    if run == "" || (run[0] == '0' && |run| > 1) then None else Some((DigitsValue(run), s[|run|..]))
  }

  /** An int64, and what follows it. */
  function ReadInt(s: string): Option<(int, string)> {
    var negative := s != "" && s[0] == '-';
    var r := ReadNat(if negative then s[1..] else s);
    if r.None? then None
    else
      var n: int := if negative then -(r.value.0 as int) else r.value.0;
      if IsInt64(n) then Some((n, r.value.1)) else None
  }

  lemma {:induction false} DecimalDigits(n: nat)
    ensures Decimal(n) != "" && forall i :: 0 <= i < |Decimal(n)| ==> IsDigit(Decimal(n)[i])
    ensures DigitsValue(Decimal(n)) == n
    ensures Decimal(n)[0] == '0' ==> |Decimal(n)| == 1
    ensures n > 0 ==> Decimal(n)[0] != '0'
  {
    if n >= 10 {
      DecimalDigits(n / 10);
      var d := Decimal(n);
      assert d[..|d| - 1] == Decimal(n / 10);
    } else {
      assert [Digit(n)][..0] == "";
    }
  }

  lemma DigitIsFromTable(c: char)
    requires IsDigit(c)
    ensures DigitValue(c) < 10 && DIGITS[DigitValue(c)] == c
  {
    AlphabetOrder();
  }

  /** Decimal digits that add up to the number, most significant first, no leading zero; a minus sign in front. */
  lemma IntIsStandard(n: nat)
    ensures var d := PrintInt(n);
            && d != "" && (forall i :: 0 <= i < |d| ==> d[i] in DIGITS)
            && (forall i :: 0 <= i < |d| ==> IsDigit(d[i])) && DigitsValue(d) == n
            && (d[0] == '0' ==> n == 0 && |d| == 1)
    ensures n > 0 ==> PrintInt(-(n as int)) == "-" + PrintInt(n)
  {
    DecimalDigits(n);
    var d := PrintInt(n);
    forall i | 0 <= i < |d|
      ensures d[i] in DIGITS
    {
      DigitIsFromTable(d[i]);
    }
  }

  lemma {:induction false} DigitRunStops(d: string, tail: string)
    requires forall i :: 0 <= i < |d| ==> IsDigit(d[i])
    requires tail == "" || !IsDigit(tail[0])
    ensures DigitRun(d + tail) == d
  {
    if d == "" {
      assert d + tail == tail;
    } else {
      DigitRunStops(d[1..], tail);
      assert (d + tail)[1..] == d[1..] + tail;
    }
  }

  lemma NatRoundTrip(n: nat, tail: string)
    requires tail == "" || !IsDigit(tail[0])
    ensures ReadNat(Decimal(n) + tail) == Some((n, tail))
    ensures (Decimal(n) + tail)[0] != '-'
  {
    var d := Decimal(n);
    DecimalDigits(n);
    DigitRunStops(d, tail);
    assert IsDigit(d[0]) && (d + tail)[0] == d[0];
    assert (d + tail)[|d|..] == tail;
  }

  lemma ReadMinus(d: string, m: nat, tail: string)
    requires ReadNat(d + tail) == Some((m, tail)) && IsInt64(-(m as int))
    ensures ReadInt("-" + d + tail) == Some((-(m as int), tail))
  {
    assert ("-" + d + tail)[1..] == d + tail;
  }

  lemma ReadPlain(s: string, m: nat, tail: string)
    requires s != "" && s[0] != '-' && ReadNat(s) == Some((m, tail)) && IsInt64(m)
    ensures ReadInt(s) == Some((m as int, tail))
  {
  }

  lemma IntRoundTrip(n: int, tail: string)
    requires IsInt64(n) && (tail == "" || !IsDigit(tail[0]))
    ensures ReadInt(PrintInt(n) + tail) == Some((n, tail))
  {
    var m: nat := if n < 0 then -n else n;
    NatRoundTrip(m, tail);
    if n < 0 {
      ReadMinus(Decimal(m), m, tail);
    } else {
      ReadPlain(Decimal(m) + tail, m, tail);
    }
  }
}
