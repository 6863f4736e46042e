/**
 * strconv.Atoi as the handlers use it, on a platform whose int is 64 bits
 * wide: an optional '+' or '-', then one or more ASCII decimal digits, and a
 * value that fits the int type.  Anything else is a parse failure.
 */
module Strconv {
  import opened Wrappers
  import opened KeyCodec

  const MinInt: int := -0x8000_0000_0000_0000
  const MaxInt: int := 0x7fff_ffff_ffff_ffff

  predicate IsSign(c: char) {
    c == '+' || c == '-'
  }

  /** The shape Atoi accepts, regardless of magnitude. */
  predicate IntegerSyntax(s: string) {
    (|s| > 0 && AllDigits(s)) || (|s| > 1 && IsSign(s[0]) && AllDigits(s[1..]))
  }

  /** Sign and digits, without any bound on the magnitude. */
  function ParseInteger(s: string): (r: Option<int>)
    ensures r.Some? <==> IntegerSyntax(s)
  {
    if |s| > 0 && IsSign(s[0]) then
      if |s| > 1 && AllDigits(s[1..]) then
        var v: int := ReadDecimal(s[1..]);
        Some(if s[0] == '-' then -v else v)
      else None
    else if |s| > 0 && AllDigits(s) then Some(ReadDecimal(s))
    else None
  }

  function Atoi(s: string): (r: Option<int>)
    ensures r.Some? ==> IntegerSyntax(s) && MinInt <= r.value <= MaxInt
    ensures !IntegerSyntax(s) ==> r.None?
    ensures IntegerSyntax(s) && MinInt <= ParseInteger(s).value <= MaxInt ==> r == ParseInteger(s)
    ensures IntegerSyntax(s) && !(MinInt <= ParseInteger(s).value <= MaxInt) ==> r.None?
  {
    match ParseInteger(s)
    case Some(v) => if MinInt <= v <= MaxInt then Some(v) else None
    case None => None
  }

  /** Reading a rendered integer back gives the integer, whatever the width. */
  lemma FormatDecimalRoundTrip(n: int, width: nat)
    ensures ParseInteger(FormatDecimal(n, width)) == Some(n)
  {
    if n < 0 {
      NegativeRoundTrip(n, width);
    } else {
      NonNegativeRoundTrip(n, width);
    }
  }

  lemma NegativeRoundTrip(n: int, width: nat)
    requires n < 0
    ensures ParseInteger(FormatDecimal(n, width)) == Some(n)
  {
    var d := ZeroPad(-n, width - 1);
    ZeroPadReadsBack(-n, width - 1);
    var s := "-" + d;
    assert FormatDecimal(n, width) == s;
    assert s[0] == '-' && s[1..] == d;
    ParseSigned(s);
  }

  lemma NonNegativeRoundTrip(n: int, width: nat)
    requires n >= 0
    ensures ParseInteger(FormatDecimal(n, width)) == Some(n)
  {
    var s := ZeroPad(n, width);
    ZeroPadReadsBack(n, width);
    assert FormatDecimal(n, width) == s;
    assert |s| > 0 && IsDigit(s[0]) && !IsSign(s[0]);
    assert ParseInteger(s) == Some(ReadDecimal(s));
  }

  /**
   * Any digit string, bare or behind a sign, parses as its value: "+5" is 5,
   * and "-0" and "-00" are 0.
   */
  lemma SignedDigits(d: string)
    requires |d| > 0 && AllDigits(d)
    ensures ParseInteger(d) == Some(ReadDecimal(d) as int)
    ensures ParseInteger("+" + d) == Some(ReadDecimal(d) as int)
    ensures ParseInteger("-" + d) == Some(0 - ReadDecimal(d) as int)
  {
    assert !IsSign(d[0]) by { assert IsDigit(d[0]); }
    SignedParse('+', d);
    SignedParse('-', d);
  }

  lemma SignedParse(c: char, d: string)
    requires IsSign(c) && |d| > 0 && AllDigits(d)
    ensures ParseInteger([c] + d) == Some(if c == '-' then 0 - ReadDecimal(d) as int else ReadDecimal(d))
  {
    var s := [c] + d;
    assert s[1..] == d;
    ParseSigned(s);
  }

  /** A sign followed by digits parses as the digits' value, negated behind '-'. */
  lemma ParseSigned(s: string)
    requires |s| > 1 && IsSign(s[0]) && AllDigits(s[1..])
    ensures ParseInteger(s) == Some(if s[0] == '-' then 0 - ReadDecimal(s[1..]) as int else ReadDecimal(s[1..]))
  {
  }

  /** Non-canonical spellings Go's Atoi accepts, and shapes it refuses. */
  lemma AtoiScenario()
    ensures Atoi("+5") == Some(5)
    ensures Atoi("-0") == Some(0) && Atoi("-00") == Some(0)
    ensures Atoi("007") == Some(7)
    ensures Atoi("+") == None && Atoi("") == None && Atoi("5x") == None
  {
    SignedDigits("5");
    SignedDigits("0");
    SignedDigits("00");
    assert "5"[..0] == "" && "0"[..0] == "" && "00"[..1] == "0";
    assert "007"[..2] == "00" && "00"[..1] == "0" && "0"[..0] == "";
    assert !AllDigits("5x") by { assert !IsDigit("5x"[1]); }
  }

  /** Atoi accepts a rendered integer exactly when it lies in the int range. */
  lemma AtoiFormatRoundTrip(n: int, width: nat)
    ensures Atoi(FormatDecimal(n, width)) == if MinInt <= n <= MaxInt then Some(n) else None
  {
    FormatDecimalRoundTrip(n, width);
  }

  /** Distinct ids never share a key, for any ids, negative or wide. */
  lemma Pad13Injective(a: int, b: int)
    ensures Pad13(a) == Pad13(b) <==> a == b
  {
    FormatDecimalRoundTrip(a, KeyWidth);
    FormatDecimalRoundTrip(b, KeyWidth);
  }
}
