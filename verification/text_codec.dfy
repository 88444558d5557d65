/** The two text codecs of the .NET runtime the bridge relies on:
    `Encoding.UTF8` and `Convert.To/FromBase64String` (the alphabet and
    padding of section 4 of RFC 4648). */
module TextCodec {
  import opened Wrappers
  import opened Strs

  type Byte = b: int | 0 <= b < 256

  // ---------------------------------------------------------------------
  // UTF-8

  /** The bytes of one Unicode scalar value. */
  function EncodeChar(c: char): (r: seq<Byte>)
    ensures 1 <= |r| <= 4
    ensures (c as int < 0x80) <==> |r| == 1
  {
    var n := c as int;
    if n < 0x80 then [n]
    else if n < 0x800 then [0xC0 + n / 64, 0x80 + n % 64]
    else if n < 0x10000 then [0xE0 + n / 4096, 0x80 + (n / 64) % 64, 0x80 + n % 64]
    else [0xF0 + n / 262144, 0x80 + (n / 4096) % 64, 0x80 + (n / 64) % 64, 0x80 + n % 64]
  }

  /** `Encoding.UTF8.GetBytes`. */
  function Utf8(s: string): (r: seq<Byte>)
    ensures |s| <= |r| <= 4 * |s|
    decreases |s|
  {
    if |s| == 0 then [] else EncodeChar(s[0]) + Utf8(s[1..])
  }

  lemma {:induction false} Utf8Append(a: string, b: string)
    ensures Utf8(a + b) == Utf8(a) + Utf8(b)
    decreases |a|
  {
    if |a| == 0 {
      assert a + b == b;
    } else {
      assert (a + b)[0] == a[0];
      assert (a + b)[1..] == a[1..] + b;
      Utf8Append(a[1..], b);
    }
  }

  predicate IsAscii(s: string) {
    forall i :: 0 <= i < |s| ==> s[i] as int < 0x80
  }

  /** ASCII text is one byte per character. */
  lemma {:induction false} Utf8Ascii(s: string)
    requires IsAscii(s)
    ensures |Utf8(s)| == |s|
    ensures forall i :: 0 <= i < |s| ==> Utf8(s)[i] == s[i] as int
    decreases |s|
  {
    if |s| > 0 {
      assert IsAscii(s[1..]) by {
        forall i | 0 <= i < |s[1..]| ensures s[1..][i] as int < 0x80 {
          assert s[1..][i] == s[i + 1];
        }
      }
      Utf8Ascii(s[1..]);
      forall i | 0 <= i < |s| ensures Utf8(s)[i] == s[i] as int {
        if i > 0 { assert s[i] == s[1..][i - 1]; }
      }
    }
  }

  predicate IsCont(b: Byte) { 0x80 <= b < 0xC0 }

  predicate IsScalar(n: int) { 0 <= n < 0xD800 || 0xE000 <= n < 0x11_0000 }

  /** The scalar value a decoded sequence stands for, if it is one that the
      sequence's length may encode (no overlong form, no surrogate). */
  function Scalar(n: int, lo: int): Option<char> {
    if lo <= n && IsScalar(n) then Some(n as char) else None
  }

  /** The first character of a byte sequence and the number of bytes it
      takes; None for an invalid sequence. */
  function DecodeFirst(bs: seq<Byte>): (r: Option<(char, nat)>)
    requires |bs| > 0
    ensures r.Some? ==> 1 <= r.value.1 <= |bs|
  {
    var b0 := bs[0] as int;
    if b0 < 0x80 then Some((b0 as char, 1))
    else if 0xC0 <= b0 < 0xE0 && |bs| >= 2 && IsCont(bs[1]) then
      var c :- Scalar((b0 - 0xC0) * 64 + (bs[1] as int - 0x80), 0x80);
      Some((c, 2))
    else if 0xE0 <= b0 < 0xF0 && |bs| >= 3 && IsCont(bs[1]) && IsCont(bs[2]) then
      var c :- Scalar((b0 - 0xE0) * 4096 + (bs[1] as int - 0x80) * 64 + (bs[2] as int - 0x80), 0x800);
      Some((c, 3))
    else if 0xF0 <= b0 < 0xF8 && |bs| >= 4 && IsCont(bs[1]) && IsCont(bs[2]) && IsCont(bs[3]) then
      var c :- Scalar((b0 - 0xF0) * 262144 + (bs[1] as int - 0x80) * 4096 + (bs[2] as int - 0x80) * 64
                      + (bs[3] as int - 0x80), 0x1_0000);
      Some((c, 4))
    else None
  }

  const InvalidUtf8 := "Invalid UTF-8 byte sequence."

  /** `Encoding.UTF8.GetString`, strict: an invalid sequence is an error
      here, where the runtime would substitute U+FFFD. */
  function Utf8Decode(bs: seq<Byte>): (r: Result<string>)
    decreases |bs|
  {
    if |bs| == 0 then Ok("")
    else
      match DecodeFirst(bs)
      case None => Err(InvalidUtf8)
      case Some((c, k)) =>
        var rest :- Utf8Decode(bs[k..]);
        Ok([c] + rest)
  }

  lemma DecodeTwoBytes(n: int, rest: seq<Byte>)
    requires 0x80 <= n < 0x800
    ensures var bs := [0xC0 + n / 64, 0x80 + n % 64] + rest;
            (bs[0] as int - 0xC0) * 64 + (bs[1] as int - 0x80) == n && IsCont(bs[1])
  {
  }

  lemma DecodeThreeBytes(n: int, rest: seq<Byte>)
    requires 0x800 <= n < 0x10000
    ensures var bs := [0xE0 + n / 4096, 0x80 + (n / 64) % 64, 0x80 + n % 64] + rest;
            (bs[0] as int - 0xE0) * 4096 + (bs[1] as int - 0x80) * 64 + (bs[2] as int - 0x80) == n
            && IsCont(bs[1]) && IsCont(bs[2])
  {
  }

  lemma DecodeFourBytes(n: int, rest: seq<Byte>)
    requires 0x10000 <= n < 0x11_0000
    ensures var bs := [0xF0 + n / 262144, 0x80 + (n / 4096) % 64, 0x80 + (n / 64) % 64, 0x80 + n % 64] + rest;
            (bs[0] as int - 0xF0) * 262144 + (bs[1] as int - 0x80) * 4096 + (bs[2] as int - 0x80) * 64
              + (bs[3] as int - 0x80) == n
            && 0xF0 <= bs[0] < 0xF8 && IsCont(bs[1]) && IsCont(bs[2]) && IsCont(bs[3])
  {
  }

  lemma DecodeEncodedChar(c: char, rest: seq<Byte>)
    ensures DecodeFirst(EncodeChar(c) + rest) == Some((c, |EncodeChar(c)|))
  {
    var n := c as int;
    if n < 0x80 {
    } else if n < 0x800 {
      DecodeTwoBytes(n, rest);
    } else if n < 0x10000 {
      DecodeThreeBytes(n, rest);
    } else {
      DecodeFourBytes(n, rest);
    }
  }

  /** Decoding the UTF-8 bytes of a text gives the text back. */
  lemma {:induction false} Utf8RoundTrip(s: string)
    ensures Utf8Decode(Utf8(s)) == Ok(s)
    decreases |s|
  {
    if |s| > 0 {
      var e := EncodeChar(s[0]);
      DecodeEncodedChar(s[0], Utf8(s[1..]));
      assert Utf8(s) == e + Utf8(s[1..]);
      assert Utf8(s)[|e|..] == Utf8(s[1..]);
      Utf8RoundTrip(s[1..]);
      assert [s[0]] + s[1..] == s;
    }
  }

  // ---------------------------------------------------------------------
  // Base64

  /** The character of a 6-bit value: A-Z, a-z, 0-9, '+', '/'. */
  function Sextet(k: int): (c: char)
    requires 0 <= k < 64
  {
    if k < 26 then ('A' as int + k) as char
    else if k < 52 then ('a' as int + (k - 26)) as char
    else if k < 62 then ('0' as int + (k - 52)) as char
    else if k == 62 then '+' else '/'
  }

  /** The 6-bit value of an alphabet character. */
  function ValueOf(c: char): (r: Option<int>)
    ensures r.Some? ==> 0 <= r.value < 64
  {
    if 'A' <= c <= 'Z' then Some(c as int - 'A' as int)
    else if 'a' <= c <= 'z' then Some(c as int - 'a' as int + 26)
    else if '0' <= c <= '9' then Some(c as int - '0' as int + 52)
    else if c == '+' then Some(62)
    else if c == '/' then Some(63)
    else None
  }

  lemma ValueOfSextet(k: int)
    requires 0 <= k < 64
    ensures ValueOf(Sextet(k)) == Some(k)
    ensures Sextet(k) != '='
  {
  }

  const Pad := '='

  predicate IsBase64Char(c: char) { ValueOf(c).Some? || c == Pad }

  /** `Convert.ToBase64String`: each group of three bytes becomes four
      characters; a final group of one or two bytes is padded with '='. */
  function Encode(bs: seq<Byte>): (r: string)
    ensures |r| == 4 * ((|bs| + 2) / 3)
    ensures forall i :: 0 <= i < |r| ==> IsBase64Char(r[i])
    decreases |bs|
  {
    if |bs| == 0 then ""
    else if |bs| == 1 then
      ValueOfSextet(bs[0] / 4);
      ValueOfSextet(bs[0] % 4 * 16);
      [Sextet(bs[0] / 4), Sextet(bs[0] % 4 * 16), Pad, Pad]
    else if |bs| == 2 then
      ValueOfSextet(bs[0] / 4);
      ValueOfSextet(bs[0] % 4 * 16 + bs[1] / 16);
      ValueOfSextet(bs[1] % 16 * 4);
      [Sextet(bs[0] / 4), Sextet(bs[0] % 4 * 16 + bs[1] / 16), Sextet(bs[1] % 16 * 4), Pad]
    else
      var q := Quad(bs[0], bs[1], bs[2]);
      q + Encode(bs[3..])
  }

  /** Four characters for three bytes. */
  function Quad(b0: Byte, b1: Byte, b2: Byte): (r: string)
    ensures |r| == 4 && forall i :: 0 <= i < 4 ==> ValueOf(r[i]).Some?
  {
    ValueOfSextet(b0 / 4);
    ValueOfSextet(b0 % 4 * 16 + b1 / 16);
    ValueOfSextet(b1 % 16 * 4 + b2 / 64);
    ValueOfSextet(b2 % 64);
    [Sextet(b0 / 4), Sextet(b0 % 4 * 16 + b1 / 16), Sextet(b1 % 16 * 4 + b2 / 64), Sextet(b2 % 64)]
  }

  const BadBase64 := "The input is not a valid Base-64 string as it contains a non-base 64 character, more than two padding characters, or an illegal character among the padding characters."

  function Digit(c: char): Result<int> {
    match ValueOf(c)
    case Some(v) => Ok(v)
    case None => Err(BadBase64)
  }

  /** The characters `Convert.FromBase64String` skips wherever they are. */
  predicate IsBase64Space(c: char) { c == ' ' || c == '\t' || c == '\r' || c == '\n' }

  /** `Convert.FromBase64String`: the white space is skipped, and what is
      left is decoded group by group. */
  function Decode(s: string): (r: Result<seq<Byte>>)
    ensures |Strip(s, IsBase64Space)| % 4 != 0 ==> r.Err?
    ensures r.Err? ==> r.msg == BadBase64
  {
    DecodeGroups(Strip(s, IsBase64Space))
  }

  /** The decoding of text without white space: groups of four
      characters, padding only in the last group. */
  function DecodeGroups(s: string): (r: Result<seq<Byte>>)
    ensures |s| % 4 != 0 ==> r.Err?
    ensures r.Err? ==> r.msg == BadBase64
    decreases |s|
  {
    if |s| == 0 then Ok([])
    else if |s| < 4 then Err(BadBase64)
    else
      var a :- Digit(s[0]);
      var b :- Digit(s[1]);
      if |s| == 4 && s[2] == Pad && s[3] == Pad then Ok([a * 4 + b / 16])
      else
        var c :- Digit(s[2]);
        if |s| == 4 && s[3] == Pad then Ok([a * 4 + b / 16, b % 16 * 16 + c / 4])
        else
          var d :- Digit(s[3]);
          var rest :- DecodeGroups(s[4..]);
          Ok([a * 4 + b / 16, b % 16 * 16 + c / 4, c % 4 * 64 + d] + rest)
  }

  lemma QuadBits(b0: Byte, b1: Byte, b2: Byte)
    ensures (b0 / 4) * 4 + (b0 % 4 * 16 + b1 / 16) / 16 == b0
    ensures (b0 % 4 * 16 + b1 / 16) % 16 * 16 + (b1 % 16 * 4 + b2 / 64) / 4 == b1
    ensures (b1 % 16 * 4 + b2 / 64) % 4 * 64 + b2 % 64 == b2
  {
  }

  lemma DecodeOne(b0: Byte)
    ensures DecodeGroups(Encode([b0])) == Ok([b0])
  {
    ValueOfSextet(b0 / 4);
    ValueOfSextet(b0 % 4 * 16);
  }

  lemma DecodeTwo(b0: Byte, b1: Byte)
    ensures DecodeGroups(Encode([b0, b1])) == Ok([b0, b1])
  {
    ValueOfSextet(b0 / 4);
    ValueOfSextet(b0 % 4 * 16 + b1 / 16);
    ValueOfSextet(b1 % 16 * 4);
    QuadBits(b0, b1, 0);
  }

  /** A full group in front of more text decodes to its three bytes in
      front of what the rest decodes to. */
  lemma DecodeQuad(b0: Byte, b1: Byte, b2: Byte, t: string)
    ensures DecodeGroups(Quad(b0, b1, b2) + t) ==
            (match DecodeGroups(t) case Ok(rest) => Ok([b0, b1, b2] + rest) case Err(m) => Err(m))
  {
    var s := Quad(b0, b1, b2) + t;
    ValueOfSextet(b0 / 4);
    ValueOfSextet(b0 % 4 * 16 + b1 / 16);
    ValueOfSextet(b1 % 16 * 4 + b2 / 64);
    ValueOfSextet(b2 % 64);
    QuadBits(b0, b1, b2);
    assert s[4..] == t;
  }

  /** The groups of an encoding decode to the bytes encoded. */
  lemma {:induction false} GroupsRoundTrip(bs: seq<Byte>)
    ensures DecodeGroups(Encode(bs)) == Ok(bs)
    decreases |bs|
  {
    if |bs| == 0 {
    } else if |bs| == 1 {
      DecodeOne(bs[0]);
      assert [bs[0]] == bs;
    } else if |bs| == 2 {
      DecodeTwo(bs[0], bs[1]);
      assert [bs[0], bs[1]] == bs;
    } else {
      assert Encode(bs) == Quad(bs[0], bs[1], bs[2]) + Encode(bs[3..]);
      DecodeQuad(bs[0], bs[1], bs[2], Encode(bs[3..]));
      GroupsRoundTrip(bs[3..]);
      assert [bs[0], bs[1], bs[2]] + bs[3..] == bs;
    }
  }

  /** Decoding what was encoded gives the bytes back. */
  lemma Base64RoundTrip(bs: seq<Byte>)
    ensures Decode(Encode(bs)) == Ok(bs)
  {
    var e := Encode(bs);
    assert forall i :: 0 <= i < |e| ==> !IsBase64Space(e[i]) by {
      forall i | 0 <= i < |e| ensures !IsBase64Space(e[i]) {
        assert IsBase64Char(e[i]);
      }
    }
    GroupsRoundTrip(bs);
  }

  /** A space, tab or line break anywhere in the text changes nothing. */
  lemma DecodeSkipsSpace(a: string, c: char, b: string)
    requires IsBase64Space(c)
    ensures Decode(a + [c] + b) == Decode(a + b)
  {
    assert [c][1..] == [];
    assert Strip([c], IsBase64Space) == [];
    StripAppend(a + [c], b, IsBase64Space);
    StripAppend(a, [c], IsBase64Space);
    StripAppend(a, b, IsBase64Space);
    assert Strip(a + [c], IsBase64Space) == Strip(a, IsBase64Space);
    assert Strip(a + [c] + b, IsBase64Space) == Strip(a + b, IsBase64Space);
  }

  /** Base64 text is ASCII. */
  lemma EncodedIsAscii(bs: seq<Byte>)
    ensures IsAscii(Encode(bs))
  {
    var s := Encode(bs);
    forall i | 0 <= i < |s| ensures s[i] as int < 0x80 {
      assert IsBase64Char(s[i]);
    }
  }
}
