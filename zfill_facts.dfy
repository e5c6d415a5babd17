/** `str.zfill` keeps the integer a string denotes. */
module ZFillFacts {
  import opened PyStr
  import opened PyStrFacts

  /**
   * Padding an integer literal with `zfill` keeps its sign and the number
   * its digits denote, so `int(s.zfill(w)) == int(s)` by ParseIntOfDigitRun:
   * for any `s` that `int` accepts and that has no surrounding whitespace,
   * the padded string starts with the same sign (if any) and continues
   * with a digit run of the same value.
   */
  lemma ZFillKeepsValue(s: string, width: nat)
    requires ParseInt(s).Some? && Strip(s) == s
    ensures var n := if HasSign(s) then 1 else 0;
      var r := ZFill(s, width);
      n <= |s| <= |r| && r[..n] == s[..n] && IsDigitRun(r[n..]) && DigitsValue(r[n..]) == DigitsValue(s[n..])
  {
    SignedDigitRun(s);
    var sign := if HasSign(s) then [s[0]] else [];
    assert s == sign + s[|sign|..];
    ZFillKeepsDigits(sign, s[|sign|..], width);
  }

  /** The signed-run form of ZFillKeepsValue. */
  lemma ZFillKeepsDigits(sign: string, digits: string, width: nat)
    requires IsDigitRun(digits)
    requires sign == [] || sign == "-" || sign == "+"
    ensures var r := ZFill(sign + digits, width);
      |sign| <= |r| && r[..|sign|] == sign && IsDigitRun(r[|sign|..]) && DigitsValue(r[|sign|..]) == DigitsValue(digits)
  {
    var s := sign + digits;
    var r := ZFill(s, width);
    if |s| < width {
      var k := width - |s|;
      var padded := Zeros(k) + digits;
      assert IsDigitRun(padded) && DigitsValue(padded) == DigitsValue(digits) by {
        PaddedDigitRun(k, digits);
        DigitsValueZeros(k, digits);
      }
      assert r == sign + padded by {
        ZFillOfSignedRun(sign, digits, width);
      }
      assert r[..|sign|] == sign && r[|sign|..] == padded;
    } else {
      assert r[..|sign|] == sign && r[|sign|..] == digits;
    }
  }

  /** Padding puts the zeros between the sign, if any, and the digits. */
  lemma ZFillOfSignedRun(sign: string, digits: string, width: nat)
    requires IsDigitRun(digits)
    requires sign == [] || sign == "-" || sign == "+"
    requires |sign + digits| < width
    ensures ZFill(sign + digits, width) == sign + (Zeros(width - |sign + digits|) + digits)
  {
    var s := sign + digits;
    if sign == [] {
      assert s == digits && !HasSign(s);
    } else {
      assert HasSign(s) && s[1..] == digits && [s[0]] == sign;
    }
  }
}
