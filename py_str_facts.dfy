/** Facts about the Python string builtins modelled in PyStr. */
module PyStrFacts {
  import opened Wrappers
  import opened PyStr

  /** The decimal rendering of a natural number is a digit run denoting it. */
  lemma {:induction false} NaturalDecimalDenotes(n: nat)
    ensures IsDigitRun(NaturalDecimal(n)) && DigitsValue(NaturalDecimal(n)) == n
    ensures forall i :: 0 <= i < |NaturalDecimal(n)| ==> IsDigit(NaturalDecimal(n)[i])
  {
    var s := NaturalDecimal(n);
    if n >= 10 {
      NaturalDecimalDenotes(n / 10);
      assert s[..|s| - 1] == NaturalDecimal(n / 10);
    }
  }

  /** Stripping the front removes only whitespace and leaves a suffix that does not start with it. */
  lemma {:induction false} StripLeftSuffix(s: string)
    ensures var r := StripLeft(s);
      |r| <= |s| && r == s[|s| - |r|..] && (r != [] ==> !IsIntSpace(r[0]))
    ensures var r := StripLeft(s);
      forall k :: 0 <= k < |s| - |r| ==> IsIntSpace(s[k])
  {
    if s != [] && IsIntSpace(s[0]) {
      var t := s[1..];
      StripLeftSuffix(t);
      var n := |s| - |StripLeft(s)|;
      forall k | 1 <= k < n
        ensures IsIntSpace(s[k])
      {
        assert s[k] == t[k - 1];
      }
    }
  }

  /** Stripping the back removes only whitespace and leaves a prefix that does not end with it. */
  lemma {:induction false} StripRightPrefix(s: string)
    ensures var r := StripRight(s);
      |r| <= |s| && r == s[..|r|] && (r != [] ==> !IsIntSpace(r[|r| - 1]))
    ensures var r := StripRight(s);
      forall k :: |r| <= k < |s| ==> IsIntSpace(s[k])
  {
    if s != [] && IsIntSpace(s[|s| - 1]) {
      var t := s[..|s| - 1];
      StripRightPrefix(t);
      var n := |StripRight(s)|;
      forall k | n <= k < |s| - 1
        ensures IsIntSpace(s[k])
      {
        assert s[k] == t[k];
      }
    }
  }

  /**
   * What `int()` reads is a slice of `s` that neither starts nor ends with
   * whitespace, and everything cut off before and after it is whitespace.
   */
  lemma StripSlice(s: string)
    ensures var r := Strip(s);
      var i := |s| - |StripLeft(s)|;
      0 <= i && i + |r| <= |s| && r == s[i..i + |r|]
    ensures var r := Strip(s);
      var i := |s| - |StripLeft(s)|;
      (forall k :: 0 <= k < i ==> IsIntSpace(s[k])) && (forall k :: i + |r| <= k < |s| ==> IsIntSpace(s[k]))
    ensures var r := Strip(s);
      r != [] ==> !IsIntSpace(r[0]) && !IsIntSpace(r[|r| - 1])
  {
    var l := StripLeft(s);
    var r := StripRight(l);
    var i := |s| - |l|;
    StripLeftSuffix(s);
    StripRightPrefix(l);
    assert l == s[i..];
    assert r == l[..|r|];
    assert r == s[i..i + |r|];
    forall k | i + |r| <= k < |s|
      ensures IsIntSpace(s[k])
    {
      assert s[k] == l[k - i];
    }
  }

  /** A string that neither starts nor ends with whitespace is its own strip. */
  lemma StripUnspaced(s: string)
    requires s != [] && !IsIntSpace(s[0]) && !IsIntSpace(s[|s| - 1])
    ensures Strip(s) == s
  {
    assert StripLeft(s) == s;
  }

  /** `int` reads a bare digit run, or one after a sign, as the number it denotes. */
  lemma ParseIntOfDigitRun(sign: string, d: string)
    requires IsDigitRun(d)
    requires sign == [] || sign == "-" || sign == "+"
    ensures ParseInt(sign + d) == Some(if sign == "-" then -DigitsValue(d) else DigitsValue(d))
  {
    var t := sign + d;
    assert t[|t| - 1] == d[|d| - 1];
    assert t[0] == if sign == [] then d[0] else sign[0];
    StripUnspaced(t);
    var signed := t[0] == '-' || t[0] == '+';
    assert signed <==> sign != [];
    assert (if signed then t[1..] else t) == d;
    assert t[0] == '-' <==> sign == "-";
  }

  /** `int(str(n)) == n`: reading back a rendered integer gives that integer. */
  lemma ParseIntDecimal(n: int)
    ensures ParseInt(Decimal(n)) == Some(n)
  {
    var m := if n < 0 then -n else n;
    NaturalDecimalDenotes(m);
    if n < 0 {
      ParseIntOfDigitRun("-", NaturalDecimal(m));
    } else {
      ParseIntOfDigitRun([], NaturalDecimal(m));
      assert [] + NaturalDecimal(m) == NaturalDecimal(m);
    }
  }

  /** Leading zeros do not change the value of a digit run. */
  lemma {:induction false} DigitsValueZeros(k: nat, d: string)
    ensures DigitsValue(Zeros(k) + d) == DigitsValue(d)
    decreases |d|, k
  {
    if d == [] {
      assert Zeros(k) + d == Zeros(k);
      if k > 0 {
        assert Zeros(k)[..k - 1] == Zeros(k - 1);
        DigitsValueZeros(k - 1, []);
        assert Zeros(k - 1) + [] == Zeros(k - 1);
      }
    } else {
      var z := Zeros(k) + d;
      assert z[..|z| - 1] == Zeros(k) + d[..|d| - 1];
      DigitsValueZeros(k, d[..|d| - 1]);
    }
  }

  /** Zero-padding a digit run in front gives a digit run again. */
  lemma PaddedDigitRun(k: nat, d: string)
    requires IsDigitRun(d)
    ensures IsDigitRun(Zeros(k) + d)
  {
    var z := Zeros(k) + d;
    assert forall i :: 0 <= i < |z| ==> z[i] == if i < k then '0' else d[i - k];
    forall i: nat | i + 1 < |z|
      ensures UnderscoreBeforeDigit(z, i)
    {
      if i >= k {
        assert UnderscoreBeforeDigit(d, i - k);
      }
    }
  }

  /** What `int` accepts, once stripped, is a digit run behind an optional sign. */
  lemma SignedDigitRun(s: string)
    requires ParseInt(s).Some? && Strip(s) == s
    ensures s != [] && IsDigitRun(if HasSign(s) then s[1..] else s)
  {
    var t := Strip(s);
    assert t != [] && IsDigitRun(if t[0] == '-' || t[0] == '+' then t[1..] else t);
    assert t == s;
  }
}
