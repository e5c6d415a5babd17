/**
 * The two Python string builtins that parse.py applies to XML attribute
 * text: `int(s)` for coordinates and `s.zfill(width)` for page indexes,
 * with `str(n)` as the partner of `int`.
 */
module PyStr {
  import opened Wrappers

  /**
   * The whitespace `int()` ignores at both ends of its text: the ASCII
   * space and tab, line feed, vertical tab, form feed and carriage return,
   * and every non-ASCII character `str.isspace()` accepts. The ASCII
   * separators U+001C to U+001F, which `str.isspace()` also accepts, are not
   * skipped: `int()` rejects a text that holds one.
   */
  predicate IsIntSpace(c: char)
  {
    var n := c as int;
    (9 <= n <= 13) || n == 32 || n == 0x85 || n == 0xA0 || n == 0x1680
    || (0x2000 <= n <= 0x200A) || n == 0x2028 || n == 0x2029 || n == 0x202F
    || n == 0x205F || n == 0x3000
  }

  predicate IsDigit(c: char)
  {
    '0' <= c <= '9'
  }

  /** `s` without the leading whitespace `int()` ignores. */
  function StripLeft(s: string): string
  {
    if s != [] && IsIntSpace(s[0]) then StripLeft(s[1..]) else s
  }

  /** `s` without the trailing whitespace `int()` ignores. */
  function StripRight(s: string): string
  {
    if s != [] && IsIntSpace(s[|s| - 1]) then StripRight(s[..|s| - 1]) else s
  }

  /** The text `int()` reads: `s` without the surrounding whitespace it ignores. */
  function Strip(s: string): string
  {
    StripRight(StripLeft(s))
  }

  /** The character after position `i` is a digit whenever the one at `i` is an underscore. */
  predicate UnderscoreBeforeDigit(d: string, i: nat)
    requires i + 1 < |d|
  {
    d[i] == '_' ==> IsDigit(d[i + 1])
  }

  /** Decimal digits, with single underscores allowed only between two digits. */
  predicate IsDigitRun(d: string)
  {
    |d| > 0 && IsDigit(d[0]) && IsDigit(d[|d| - 1])
    && (forall i :: 0 <= i < |d| ==> IsDigit(d[i]) || d[i] == '_')
    && (forall i: nat :: i + 1 < |d| ==> UnderscoreBeforeDigit(d, i))
  }

  /** The number a digit run denotes, underscores skipped. */
  function DigitsValue(d: string): int
  {
    if d == [] then 0
    else if d[|d| - 1] == '_' then DigitsValue(d[..|d| - 1])
    else DigitsValue(d[..|d| - 1]) * 10 + (d[|d| - 1] as int - '0' as int)
  }

  /**
   * `int(s)` for a string: surrounding whitespace ignored, an optional sign,
   * then a decimal digit run; anything else raises ValueError (None here).
   */
  function ParseInt(s: string): Option<int>
  {
    var t := Strip(s);
    if t == [] then None
    else
      var digits := if t[0] == '-' || t[0] == '+' then t[1..] else t;
      if IsDigitRun(digits) then Some(if t[0] == '-' then -DigitsValue(digits) else DigitsValue(digits))
      else None
  }

  function DigitChar(d: nat): char
    requires d < 10
  {
    ('0' as int + d) as char
  }

  /** `str(n)` for a natural number. */
  function NaturalDecimal(n: nat): string
  {
    if n < 10 then [DigitChar(n)] else NaturalDecimal(n / 10) + [DigitChar(n % 10)]
  }

  /** `str(n)`. */
  function Decimal(n: int): string
  {
    if n < 0 then "-" + NaturalDecimal(-n) else NaturalDecimal(n)
  }

  /** `k` zero characters. */
  function Zeros(k: nat): (z: string)
    ensures |z| == k
    ensures forall i :: 0 <= i < k ==> z[i] == '0'
  {
    seq(k, _ => '0')
  }

  predicate HasSign(s: string)
  {
    s != [] && (s[0] == '+' || s[0] == '-')
  }

  /**
   * `s.zfill(width)`: a string shorter than `width` is padded on the left
   * with '0' up to `width`, and a leading sign stays in front of the zeros;
   * a string already `width` long or longer is returned unchanged.
   */
  function ZFill(s: string, width: nat): (r: string)
    ensures |r| == if |s| >= width then |s| else width
    ensures |s| >= width ==> r == s
    ensures !HasSign(s) ==>
      r[|r| - |s|..] == s && forall i :: 0 <= i < |r| - |s| ==> r[i] == '0'
    ensures HasSign(s) ==>
      r[0] == s[0] && r[|r| - |s| + 1..] == s[1..] && forall i :: 1 <= i < |r| - |s| + 1 ==> r[i] == '0'
  {
    if |s| >= width then s
    else if HasSign(s) then [s[0]] + Zeros(width - |s|) + s[1..]
    else Zeros(width - |s|) + s
  }
}
