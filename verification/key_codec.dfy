/**
 * The fixed-width secondary key: Go's fmt.Sprintf("%013d", n), the decimal
 * digit reader that undoes it, and Go's byte-wise string order.
 */
module KeyCodec {

  predicate IsDigit(c: char) {
    '0' <= c <= '9'
  }

  predicate AllDigits(s: string) {
    forall i :: 0 <= i < |s| ==> IsDigit(s[i])
  }

  function DigitValue(c: char): (d: nat)
    requires IsDigit(c)
    ensures d < 10
  {
    c as int - '0' as int
  }

  function DigitChar(d: nat): (c: char)
    requires d < 10
    ensures IsDigit(c) && DigitValue(c) == d
  {
    (d + '0' as int) as char
  }

  function Pow10(k: nat): (p: nat)
    ensures p >= 1
  {
    if k == 0 then 1 else 10 * Pow10(k - 1)
  }

  /** The value of a string of decimal digits, most significant digit first. */
  function ReadDecimal(s: string): (v: nat)
    requires AllDigits(s)
    ensures v < Pow10(|s|)
  {
    if |s| == 0 then 0 else ReadDecimal(s[..|s| - 1]) * 10 + DigitValue(s[|s| - 1])
  }

  /** The shortest decimal rendering of m ("0" for zero), as Go prints it. */
  function Digits(m: nat): (s: string)
    ensures |s| >= 1 && AllDigits(s) && ReadDecimal(s) == m
    ensures |s| > 1 ==> s[0] != '0'
  {
    if m < 10 then [DigitChar(m)] else Digits(m / 10) + [DigitChar(m % 10)]
  }

  function Zeros(k: nat): string {
    seq(k, _ => '0')
  }

  /** m with at least prec digits, zero-filled on the left; nothing is ever cut. */
  function ZeroPad(m: nat, prec: int): string {
    var d := Digits(m);
    if |d| < prec then Zeros(prec - |d|) + d else d
  }

  /**
   * Go's "%0<width>d": the sign, when there is one, takes one of the width's
   * places and the digits are zero-filled to the rest; a value that needs
   * more places than width is printed in full.  With width 0 this is "%d".
   */
  function FormatDecimal(n: int, width: nat): string {
    if n < 0 then "-" + ZeroPad(-n, width - 1) else ZeroPad(n, width)
  }

  const KeyWidth: nat := 13

  /** fmt.Sprintf("%013d", n), the rendering of every secondaryId. */
  function Pad13(n: int): string {
    FormatDecimal(n, KeyWidth)
  }

  /**
   * Go's `<` on strings: byte-wise lexicographic order.  On UTF-8 text this
   * is the order of code points, which is how chars compare here.
   */
  predicate LexLess(s: string, t: string)
    ensures LexLess(s, t) ==> s != t
  {
    if |s| == 0 then |t| != 0
    else if |t| == 0 then false
    else if s[0] != t[0] then s[0] < t[0]
    else LexLess(s[1..], t[1..])
  }

  lemma {:induction false} ReadDecimalLeadingZeros(k: nat, s: string)
    requires AllDigits(s)
    ensures AllDigits(Zeros(k) + s) && ReadDecimal(Zeros(k) + s) == ReadDecimal(s)
    decreases |s|
  {
    var z := Zeros(k);
    if |s| == 0 {
      assert z + s == z;
      ZerosReadAsZero(k);
    } else {
      var init := s[..|s| - 1];
      ReadDecimalLeadingZeros(k, init);
      assert (z + s)[..|z + s| - 1] == z + init;
    }
  }

  lemma {:induction false} ZerosReadAsZero(k: nat)
    ensures AllDigits(Zeros(k)) && ReadDecimal(Zeros(k)) == 0
  {
    if k > 0 {
      ZerosReadAsZero(k - 1);
      assert Zeros(k)[..k - 1] == Zeros(k - 1);
    }
  }

  /** A digit string fits in k places exactly when its value is below 10^k. */
  lemma {:induction false} DigitsLength(m: nat, k: nat)
    requires k >= 1
    ensures |Digits(m)| <= k <==> m < Pow10(k)
    decreases m
  {
    if m < 10 {
      Pow10AtLeastTen(k);
    } else if k == 1 {
      assert |Digits(m)| == |Digits(m / 10)| + 1;
    } else {
      DigitsLength(m / 10, k - 1);
      assert |Digits(m)| == |Digits(m / 10)| + 1;
      assert m / 10 < Pow10(k - 1) <==> m < 10 * Pow10(k - 1);
    }
  }

  lemma {:induction false} Pow10AtLeastTen(k: nat)
    requires k >= 1
    ensures Pow10(k) >= 10
  {
    if k > 1 {
      Pow10AtLeastTen(k - 1);
    }
  }

  /** ZeroPad keeps the value, yields only digits and is as wide as prec or the value needs. */
  lemma ZeroPadReadsBack(m: nat, prec: int)
    ensures AllDigits(ZeroPad(m, prec)) && ReadDecimal(ZeroPad(m, prec)) == m
    ensures |ZeroPad(m, prec)| == if prec > |Digits(m)| then prec else |Digits(m)|
  {
    var d := Digits(m);
    if |d| < prec {
      ReadDecimalLeadingZeros(prec - |d|, d);
    }
  }

  /**
   * Width of a rendered key: exactly 13 for 0 <= n < 10^13 and for
   * -10^12 < n < 0, wider otherwise.
   */
  lemma Pad13Width(n: int)
    ensures n >= 0 ==> (|Pad13(n)| == KeyWidth <==> n < Pow10(KeyWidth))
    ensures n < 0 ==> (|Pad13(n)| == KeyWidth <==> -n < Pow10(KeyWidth - 1))
    ensures |Pad13(n)| >= KeyWidth
  {
    if n >= 0 {
      ZeroPadReadsBack(n, KeyWidth);
      DigitsLength(n, KeyWidth);
    } else {
      ZeroPadReadsBack(-n, KeyWidth - 1);
      DigitsLength(-n, KeyWidth - 1);
    }
  }

  /** For 0 <= n < 10^13 the key is 13 decimal digits that read back as n. */
  lemma Pad13Digits(n: int)
    requires 0 <= n < Pow10(KeyWidth)
    ensures |Pad13(n)| == KeyWidth && AllDigits(Pad13(n)) && ReadDecimal(Pad13(n)) == n
  {
    Pad13Width(n);
    ZeroPadReadsBack(n, KeyWidth);
  }

  lemma {:induction false} LexLessSnoc(s: string, t: string, a: char, b: char)
    requires |s| == |t|
    ensures LexLess(s + [a], t + [b]) <==> LexLess(s, t) || (s == t && a < b)
    decreases |s|
  {
    if |s| > 0 {
      assert (s + [a])[1..] == s[1..] + [a];
      assert (t + [b])[1..] == t[1..] + [b];
      if s[0] == t[0] {
        LexLessSnoc(s[1..], t[1..], a, b);
        assert s == t <==> s[1..] == t[1..] by {
          if s[1..] == t[1..] {
            assert s == [s[0]] + s[1..] && t == [t[0]] + t[1..];
          }
        }
      }
    }
  }

  /**
   * On digit strings of one length, byte-wise order is numeric order and
   * equal values mean equal strings.
   */
  lemma {:induction false} DigitStringOrder(s: string, t: string)
    requires |s| == |t| && AllDigits(s) && AllDigits(t)
    ensures LexLess(s, t) <==> ReadDecimal(s) < ReadDecimal(t)
    ensures s == t <==> ReadDecimal(s) == ReadDecimal(t)
    decreases |s|
  {
    if |s| > 0 {
      var n := |s| - 1;
      var s', t' := s[..n], t[..n];
      DigitStringOrder(s', t');
      LexLessSnoc(s', t', s[n], t[n]);
      assert s == s' + [s[n]] && t == t' + [t[n]];
      assert s[n] < t[n] <==> DigitValue(s[n]) < DigitValue(t[n]);
      assert s[n] == t[n] <==> DigitValue(s[n]) == DigitValue(t[n]);
    }
  }

  /** For ids in 0 <= a, b < 10^13, Go's string order on their keys is the ids' numeric order. */
  lemma Pad13Order(a: int, b: int)
    requires 0 <= a < Pow10(KeyWidth) && 0 <= b < Pow10(KeyWidth)
    ensures LexLess(Pad13(a), Pad13(b)) <==> a < b
  {
    Pad13Digits(a);
    Pad13Digits(b);
    DigitStringOrder(Pad13(a), Pad13(b));
  }
}
