/** Numbers as the bridge sees them.  Floating-point values are opaque:
    a finite double is the text it was read from (equal texts denote equal
    values), with the two IEEE specials the code distinguishes.  Integers
    follow .NET's 32-bit `int`. */
module Num {
  import opened Wrappers
  import opened Strs

  datatype Double = Finite(text: string) | PosInf | NaN

  /** `Double.MaxValue` and `-Double.MaxValue`, as tokens. */
  const MaxValue: Double := Finite("1.7976931348623157E+308")
  const MinusMaxValue: Double := Finite("-1.7976931348623157E+308")
  const Zero: Double := Finite("0")

  /** The text `double.ToString()` produces; for a finite value this is its
      token. */
  function Show(d: Double): string {
    match d
    case Finite(t) => t
    case PosInf => "Infinity"
    case NaN => "NaN"
  }

  /** `int.ToString()`. */
  function ShowInt(n: int): string {
    if n < 0 then "-" + NatToString(-n) else NatToString(n)
  }

  /** `double.Parse(s)`: the value the runtime's parser assigns to `s`.
      Parse failures of malformed numerals are not modelled. */
  function ParseDouble(s: string): Double {
    Finite(s)
  }

  const IntMin: int := -0x8000_0000
  const IntMax: int := 0x7FFF_FFFF

  predicate IsInt32(x: int) { IntMin <= x <= IntMax }

  /** Unchecked 32-bit arithmetic (C#'s default): the value modulo 2^32,
      read as a signed number. */
  function Wrap32(x: int): (r: int)
    ensures IsInt32(r)
    ensures (r - x) % 0x1_0000_0000 == 0
    ensures IsInt32(x) ==> r == x
  {
    (x + 0x8000_0000) % 0x1_0000_0000 - 0x8000_0000
  }

  /** The value of a non-empty string of decimal digits. */
  function DigitsValue(s: string): nat
    requires forall i :: 0 <= i < |s| ==> IsDigit(s[i])
  {
    if |s| == 0 then 0
    else
      assert IsDigit(s[|s| - 1]);
      10 * DigitsValue(s[..|s| - 1]) + (s[|s| - 1] as int - '0' as int)
  }

  predicate AllDigits(s: string) {
    |s| > 0 && forall i :: 0 <= i < |s| ==> IsDigit(s[i])
  }

  /** The white space `int.Parse` skips around a number: the space and
      the controls U+0009 to U+000D. */
  predicate IsNumberSpace(c: char) { c == ' ' || '\t' <= c <= '\r' }

  predicate IsNul(c: char) { c == '\0' }

  /** The text `int.Parse` reads as a numeral: trailing NUL characters are
      ignored, then the white space on both sides. */
  function NumberBody(s: string): string {
    TrimStart(TrimEnd(TrimEnd(s, IsNul), IsNumberSpace), IsNumberSpace)
  }

  const FormatError := "Input string was not in a correct format."
  const OverflowError := "Value was either too large or too small for an Int32."

  /** A numeral: an optional sign followed by decimal digits whose value
      fits in 32 bits. */
  function IntNumeral(s: string): (r: Result<int>)
    ensures r.Ok? ==> IsInt32(r.value)
    ensures r.Ok? ==> |s| > 0 && (AllDigits(s) || ((s[0] == '-' || s[0] == '+') && AllDigits(s[1..])))
    ensures r.Err? ==> r.msg == FormatError || r.msg == OverflowError
  {
    if |s| > 0 && (s[0] == '-' || s[0] == '+') && AllDigits(s[1..]) then
      var v: int := if s[0] == '-' then -(DigitsValue(s[1..]) as int) else DigitsValue(s[1..]);
      if IsInt32(v) then Ok(v) else Err(OverflowError)
    else if AllDigits(s) then
      var v := DigitsValue(s);
      if IsInt32(v) then Ok(v) else Err(OverflowError)
    else Err(FormatError)
  }

  /** `int.Parse(s)`, and `Convert.ToInt32(string)`: leading white space,
      an optional sign, decimal digits, trailing white space and trailing
      NULs; a value outside 32 bits or any other text throws. */
  function ParseInt(s: string): (r: Result<int>)
    ensures r.Ok? ==> IsInt32(r.value)
    ensures var t := NumberBody(s);
            r.Ok? ==> |t| > 0 && (AllDigits(t) || ((t[0] == '-' || t[0] == '+') && AllDigits(t[1..])))
    ensures r.Err? ==> r.msg == FormatError || r.msg == OverflowError
  {
    IntNumeral(NumberBody(s))
  }

  lemma {:induction false} DigitsValueOfNatToString(n: nat)
    ensures DigitsValue(NatToString(n)) == n
    decreases n
  {
    if n >= 10 {
      var s := NatToString(n);
      assert s[..|s| - 1] == NatToString(n / 10);
      DigitsValueOfNatToString(n / 10);
    }
  }

  /** Every 32-bit int reads back from its printed form. */
  lemma IntNumeralOfShowInt(n: int)
    requires IsInt32(n)
    ensures IntNumeral(ShowInt(n)) == Ok(n)
  {
    if n < 0 {
      var m := NatToString(-n);
      assert ShowInt(n) == "-" + m;
      assert ("-" + m)[0] == '-' && ("-" + m)[1..] == m;
      assert AllDigits(m);
      DigitsValueOfNatToString(-n);
    } else {
      var m := NatToString(n);
      assert ShowInt(n) == m;
      assert IsDigit(m[0]) && AllDigits(m);
      DigitsValueOfNatToString(n);
    }
  }

  /** A text whose ends are neither white space nor NUL is read as it is. */
  lemma NumberBodyUntrimmed(s: string)
    requires |s| > 0 && !IsNumberSpace(s[0]) && !IsNumberSpace(s[|s| - 1]) && !IsNul(s[|s| - 1])
    ensures NumberBody(s) == s
  {
  }

  /** A printed 32-bit int parses back to itself whatever white space
      surrounds it and whatever NULs follow. */
  lemma ParseIntPadded(pre: string, n: int, post: string, nuls: string)
    requires IsInt32(n)
    requires forall i :: 0 <= i < |pre| ==> IsNumberSpace(pre[i])
    requires forall i :: 0 <= i < |post| ==> IsNumberSpace(post[i])
    requires forall i :: 0 <= i < |nuls| ==> IsNul(nuls[i])
    ensures ParseInt(pre + ShowInt(n) + post + nuls) == Ok(n)
  {
    var d := ShowInt(n);
    assert |d| > 0 && !IsNumberSpace(d[0]) && IsDigit(d[|d| - 1]) by {
      if n < 0 { assert d[1..] == NatToString(-n); }
    }
    var x := pre + d + post;
    TrimEndPast(x, nuls, IsNul);
    assert !IsNul(x[|x| - 1]) by {
      if |post| > 0 { assert x[|x| - 1] == post[|post| - 1]; } else { assert x[|x| - 1] == d[|d| - 1]; }
    }
    assert TrimEnd(x, IsNul) == x;
    TrimEndPast(pre + d, post, IsNumberSpace);
    assert (pre + d)[|pre + d| - 1] == d[|d| - 1];
    assert TrimEnd(pre + d, IsNumberSpace) == pre + d;
    TrimStartPast(pre, d, IsNumberSpace);
    assert TrimStart(d, IsNumberSpace) == d;
    IntNumeralOfShowInt(n);
  }

  /** A text that prints a 32-bit int parses back to that int. */
  lemma ParseIntOfPrinted(s: string, n: int)
    requires IsInt32(n) && s == ShowInt(n)
    ensures ParseInt(s) == Ok(n)
  {
    ParseIntPadded("", n, "", "");
    assert "" + ShowInt(n) + "" + "" == s;
  }

  /** `Convert.ToInt32(double)` on a value written as an integer numeral
      in range: that integer; infinities and NaN throw.  Fractional values
      are not rounded here (they throw). */
  function ToInt32(d: Double): (r: Result<int>)
    ensures r.Ok? ==> d.Finite? && IsInt32(r.value)
    ensures d.Finite? ==> r == IntNumeral(d.text)
    ensures !d.Finite? ==> r == Err(OverflowError)
  {
    match d
    case Finite(t) => IntNumeral(t)
    case _ => Err(OverflowError)
  }

  /** A 32-bit int written as a double's token converts back to itself. */
  lemma ToInt32OfShowInt(n: int)
    requires IsInt32(n)
    ensures ToInt32(Finite(ShowInt(n))) == Ok(n)
  {
    IntNumeralOfShowInt(n);
  }
}
