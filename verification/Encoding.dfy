/**
 Hexadecimal and base64 (sections 8 and 4 of RFC 4648) as the client's key conversions
 use them (client/internal/wireguard/wireguard.go).
 */
module Encoding {
  import opened Basics

  // ------------------------------------------------------------------ hexadecimal

  function HexDigit(n: int): char
    requires 0 <= n < 16
  {
    if n < 10 then ('0' as int + n) as char else ('a' as int + (n - 10)) as char
  }

  /** Digits of either case. */
  function HexValue(c: char): Option<int> {
    if '0' <= c <= '9' then Some(c as int - '0' as int)
    else if 'a' <= c <= 'f' then Some(c as int - 'a' as int + 10)
    else if 'A' <= c <= 'F' then Some(c as int - 'A' as int + 10)
    else None
  }

  function HexEncode(bs: seq<byte>): string {
    if bs == [] then "" else [HexDigit(bs[0] / 16), HexDigit(bs[0] % 16)] + HexEncode(bs[1..])
  }

  function HexDecode(s: string): Option<seq<byte>> {
    if s == "" then Some([])
    else if |s| == 1 || HexValue(s[0]).None? || HexValue(s[1]).None? then None
    else
      var rest := HexDecode(s[2..]);
      if rest.None? then None else Some([Pair(HexValue(s[0]).value, HexValue(s[1]).value)] + rest.value)
  }

  function Pair(hi: int, lo: int): byte {
    (hi * 16 + lo) % 256
  }

  lemma HexByte(b: byte)
    ensures HexValue(HexDigit(b / 16)) == Some(b / 16) && HexValue(HexDigit(b % 16)) == Some(b % 16)
    ensures Pair(b / 16, b % 16) == b
  {
  }

  /** Decoding hexadecimal inverts encoding it. */
  lemma {:induction false} HexRoundTrip(bs: seq<byte>)
    ensures HexDecode(HexEncode(bs)) == Some(bs)
  {
    if bs != [] {
      HexRoundTrip(bs[1..]);
      HexByte(bs[0]);
      assert HexEncode(bs)[2..] == HexEncode(bs[1..]);
      assert [bs[0]] + bs[1..] == bs;
    }
  }

  /** Hexadecimal text is made of hexadecimal digits. */
  lemma {:induction false} HexText(bs: seq<byte>)
    ensures forall c | c in HexEncode(bs) :: HexValue(c).Some?
  {
    if bs != [] {
      HexText(bs[1..]);
      HexByte(bs[0]);
    }
  }

  // ----------------------------------------------------------------------- base64

  function Letter(n: int): char
    requires 0 <= n < 64
  {
    if n < 26 then ('A' as int + n) as char
    else if n < 52 then ('a' as int + (n - 26)) as char
    else if n < 62 then ('0' as int + (n - 52)) as char
    else if n == 62 then '+' else '/'
  }

  function LetterValue(c: char): Option<int> {
    if 'A' <= c <= 'Z' then Some(c as int - 'A' as int)
    else if 'a' <= c <= 'z' then Some(c as int - 'a' as int + 26)
    else if '0' <= c <= '9' then Some(c as int - '0' as int + 52)
    else if c == '+' then Some(62)
    else if c == '/' then Some(63)
    else None
  }

  lemma LetterInverse(n: int)
    requires 0 <= n < 64
    ensures LetterValue(Letter(n)) == Some(n) && Letter(n) != '='
    ensures Letter(n) != '\n' && Letter(n) != '\r'
  {
  }

  /** Three bytes as four letters. */
  function Quad(a: byte, b: byte, c: byte): string {
    [Letter(a / 4), Letter(a % 4 * 16 + b / 16), Letter(b % 16 * 4 + c / 64), Letter(c % 64)]
  }

  function Base64Encode(bs: seq<byte>): string {
    if bs == [] then ""
    else if |bs| == 1 then Quad(bs[0], 0, 0)[..2] + "=="
    else if |bs| == 2 then Quad(bs[0], bs[1], 0)[..3] + "="
    else Quad(bs[0], bs[1], bs[2]) + Base64Encode(bs[3..])
  }

  function First(v: int, w: int): byte {
    (v * 4 + w / 16) % 256
  }

  function Second(w: int, x: int): byte {
    (w % 16 * 16 + x / 4) % 256
  }

  function Third(x: int, y: int): byte {
    (x % 4 * 64 + y) % 256
  }

  /** Whole groups of four; padding only at the very end, and its spare bits are not looked at. */
  function DecodeGroups(s: string): Option<seq<byte>> {
    if s == "" then Some([])
    else if |s| < 4 || LetterValue(s[0]).None? || LetterValue(s[1]).None? then None
    else
      var v, w := LetterValue(s[0]).value, LetterValue(s[1]).value;
      if s[2..] == "==" then Some([First(v, w)])
      else if LetterValue(s[2]).None? then None
      else
        var x := LetterValue(s[2]).value;
        if s[3..] == "=" then Some([First(v, w), Second(w, x)])
        else if LetterValue(s[3]).None? then None
        else
          var rest := DecodeGroups(s[4..]);
          if rest.None? then None
          else Some([First(v, w), Second(w, x), Third(x, LetterValue(s[3]).value)] + rest.value)
  }

  function StripNewlines(s: string): string {
    if s == "" then ""
    else if s[0] == '\n' || s[0] == '\r' then StripNewlines(s[1..])
    else [s[0]] + StripNewlines(s[1..])
  }

  /** Go's standard decoder skips line breaks anywhere in its input. */
  function Base64Decode(s: string): Option<seq<byte>> {
    DecodeGroups(StripNewlines(s))
  }

  lemma {:induction false} StripNothing(s: string)
    requires '\n' !in s && '\r' !in s
    ensures StripNewlines(s) == s
  {
    if s != "" {
      StripNothing(s[1..]);
      assert [s[0]] + s[1..] == s;
    }
  }

  lemma Split16(h: int, l: int)
    requires 0 <= l < 16
    ensures (h * 16 + l) / 16 == h && (h * 16 + l) % 16 == l
  {
  }

  lemma Split4(h: int, l: int)
    requires 0 <= l < 4
    ensures (h * 4 + l) / 4 == h && (h * 4 + l) % 4 == l
  {
  }

  lemma FirstInverse(a: byte, b: byte)
    ensures First(a / 4, a % 4 * 16 + b / 16) == a
  {
    Split16(a % 4, b / 16);
  }

  lemma SecondInverse(a: byte, b: byte, c: byte)
    ensures Second(a % 4 * 16 + b / 16, b % 16 * 4 + c / 64) == b
  {
    Split16(a % 4, b / 16);
    Split4(b % 16, c / 64);
  }

  lemma ThirdInverse(b: byte, c: byte)
    ensures Third(b % 16 * 4 + c / 64, c % 64) == c
  {
    Split4(b % 16, c / 64);
  }

  lemma QuadLetters(a: byte, b: byte, c: byte)
    ensures var q := Quad(a, b, c);
      && |q| == 4 && '=' !in q
      && LetterValue(q[0]) == Some(a / 4) && LetterValue(q[1]) == Some(a % 4 * 16 + b / 16)
      && LetterValue(q[2]) == Some(b % 16 * 4 + c / 64) && LetterValue(q[3]) == Some(c % 64)
  {
    LetterInverse(a / 4);
    LetterInverse(a % 4 * 16 + b / 16);
    LetterInverse(b % 16 * 4 + c / 64);
    LetterInverse(c % 64);
  }

  lemma QuadInverse(a: byte, b: byte, c: byte, rest: string)
    ensures DecodeGroups(Quad(a, b, c) + rest) ==
            if DecodeGroups(rest).None? then None else Some([a, b, c] + DecodeGroups(rest).value)
  {
    var q := Quad(a, b, c);
    QuadLetters(a, b, c);
    FirstInverse(a, b);
    SecondInverse(a, b, c);
    ThirdInverse(b, c);
    var s := q + rest;
    assert s[0] == q[0] && s[1] == q[1] && s[2] == q[2] && s[3] == q[3];
    assert s[2..][0] == s[2] && s[3..][0] == s[3];
    assert s[4..] == rest;
  }

  lemma PaddedInverse(a: byte, b: byte)
    ensures DecodeGroups(Quad(a, 0, 0)[..2] + "==") == Some([a])
    ensures DecodeGroups(Quad(a, b, 0)[..3] + "=") == Some([a, b])
  {
    LetterInverse(a / 4);
    LetterInverse(a % 4 * 16);
    LetterInverse(a % 4 * 16 + b / 16);
    LetterInverse(b % 16 * 4);
    FirstInverse(a, 0);
    FirstInverse(a, b);
    SecondInverse(a, b, 0);
    assert (Quad(a, 0, 0)[..2] + "==")[2..] == "==";
    var s := Quad(a, b, 0)[..3] + "=";
    assert s[2..][0] == s[2] && s[3..] == "=";
  }

  lemma {:induction false} EncodeDecodesInGroups(bs: seq<byte>)
    ensures DecodeGroups(Base64Encode(bs)) == Some(bs)
  {
    if |bs| == 1 {
      PaddedInverse(bs[0], 0);
      assert bs == [bs[0]];
    } else if |bs| == 2 {
      PaddedInverse(bs[0], bs[1]);
      assert bs == [bs[0], bs[1]];
    } else if |bs| > 2 {
      EncodeDecodesInGroups(bs[3..]);
      QuadInverse(bs[0], bs[1], bs[2], Base64Encode(bs[3..]));
      assert [bs[0], bs[1], bs[2]] + bs[3..] == bs;
    }
  }

  lemma QuadText(a: byte, b: byte, c: byte)
    ensures '\n' !in Quad(a, b, c) && '\r' !in Quad(a, b, c)
  {
    LetterInverse(a / 4);
    LetterInverse(a % 4 * 16 + b / 16);
    LetterInverse(b % 16 * 4 + c / 64);
    LetterInverse(c % 64);
  }

  lemma {:induction false} EncodedHasNoBreaks(bs: seq<byte>)
    ensures '\n' !in Base64Encode(bs) && '\r' !in Base64Encode(bs)
  {
    if |bs| == 1 {
      QuadText(bs[0], 0, 0);
    } else if |bs| == 2 {
      QuadText(bs[0], bs[1], 0);
    } else if |bs| > 2 {
      QuadText(bs[0], bs[1], bs[2]);
      EncodedHasNoBreaks(bs[3..]);
    }
  }

  /** Decoding base64 inverts encoding it, for every byte string. */
  lemma Base64RoundTrip(bs: seq<byte>)
    ensures Base64Decode(Base64Encode(bs)) == Some(bs)
  {
    EncodeDecodesInGroups(bs);
    EncodedHasNoBreaks(bs);
    StripNothing(Base64Encode(bs));
  }

  // The test vectors of section 10 of RFC 4648; hexadecimal is written in lower case.

  const FOOBAR: seq<byte> := [102, 111, 111, 98, 97, 114]

  lemma Base64Vectors()
    ensures Base64Encode(FOOBAR) == "Zm9vYmFy"
    ensures Base64Encode(FOOBAR[..5]) == "Zm9vYmE="
    ensures Base64Encode(FOOBAR[..4]) == "Zm9vYg=="
    ensures LetterValue('+') == Some(62) && LetterValue('/') == Some(63) && LetterValue('5') == Some(57)
  {
    assert Quad(102, 111, 111) == "Zm9v" && Quad(98, 97, 114) == "YmFy";
    var bar: seq<byte> := [98, 97, 114];
    assert FOOBAR[3..] == bar && FOOBAR[..5][3..] == [98, 97] && FOOBAR[..4][3..] == [98];
    assert Base64Encode(bar) == "YmFy" by {
      assert bar[3..] == [];
    }
    assert Quad(98, 97, 0)[..3] == "YmE" && Quad(98, 0, 0)[..2] == "Yg";
  }

  lemma HexVector()
    ensures HexEncode(FOOBAR[..3]) == "666f6f"
  {
    var bs := FOOBAR[..3];
    var two, one := bs[1..], bs[1..][1..];
    assert bs[0] == 102 && two == [111, 111] && one == [111] && one[1..] == [];
    assert HexEncode(one) == "6f";
    assert HexEncode(two) == "6f" + HexEncode(one);
    assert HexEncode(bs) == "66" + HexEncode(two);
  }
}
