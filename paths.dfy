/**
 * The parts of Python's `posixpath` that the converters rely on to name
 * their files: `basename`, `splitext`, `join`, plus `str.lower` and
 * `str.split(sep)[0]`.
 */
module Paths {

  const Sep: char := '/'
  const ExtSep: char := '.'

  /** `s.rfind(c)`: the index of the last `c` in `s`, or -1 when there is none. */
  function RFind(s: string, c: char): (i: int)
    ensures -1 <= i < |s|
    ensures 0 <= i ==> s[i] == c
    ensures forall k :: i < k < |s| ==> s[k] != c
  {
    if s == [] then -1
    else if s[|s| - 1] == c then |s| - 1
    else RFind(s[..|s| - 1], c)
  }

  /** `s.split(c)[0]`: the longest prefix of `s` that holds no `c`. */
  function BeforeFirst(s: string, c: char): (r: string)
    ensures |r| <= |s| && r == s[..|r|]
    ensures c !in r
    ensures |r| < |s| ==> s[|r|] == c
  {
    if s == [] then []
    else if s[0] == c then []
    else [s[0]] + BeforeFirst(s[1..], c)
  }

  /** `os.path.basename(p)`: what follows the last separator. */
  function Basename(p: string): (b: string)
    ensures |b| <= |p| && b == p[|p| - |b|..]
    ensures Sep !in b
    ensures |b| < |p| ==> p[|p| - |b| - 1] == Sep
  {
    p[RFind(p, Sep) + 1..]
  }

  /**
   * `os.path.splitext(p)`: the extension starts at the last dot of the last
   * path component, unless everything before that dot in the component is
   * dots too (so ".jpg" and "..jpg" have no extension).
   */
  function SplitExt(p: string): (parts: (string, string))
    ensures parts.0 + parts.1 == p
    ensures parts.1 == [] || (parts.1[0] == ExtSep && ExtSep !in parts.1[1..] && Sep !in parts.1)
  {
    var sepIndex := RFind(p, Sep);
    var dotIndex := RFind(p, ExtSep);
    if sepIndex < dotIndex && exists k :: sepIndex < k < dotIndex && p[k] != ExtSep then
      (p[..dotIndex], p[dotIndex..])
    else
      (p, [])
  }

  /** `os.path.join(a, b)` for two components. */
  function Join(a: string, b: string): string
  {
    if |b| > 0 && b[0] == Sep then b
    else if a == [] || a[|a| - 1] == Sep then a + b
    else a + [Sep] + b
  }

  function LowerChar(c: char): char
  {
    if 'A' <= c <= 'Z' then (c as int - 'A' as int + 'a' as int) as char else c
  }

  /** `s.lower()` restricted to the ASCII letters. */
  function Lower(s: string): (r: string)
    ensures |r| == |s|
    ensures forall i :: 0 <= i < |s| ==> r[i] == LowerChar(s[i])
  {
    seq(|s|, i requires 0 <= i < |s| => LowerChar(s[i]))
  }

  /** Lower-casing works character by character from the front. */
  lemma LowerCons(c: char, s: string)
    ensures Lower([c] + s) == [LowerChar(c)] + Lower(s)
  {
    assert Lower([c] + s)[1..] == Lower(s);
  }

  /** A file name joined onto any directory is that path's basename again. */
  lemma JoinBasename(dir: string, name: string)
    requires name != [] && Sep !in name
    ensures Basename(Join(dir, name)) == name
  {
    var p := Join(dir, name);
    var j := |p| - |name|;
    assert p[j..] == name;
    assert forall k :: j <= k < |p| ==> p[k] == name[k - j];
    if j > 0 {
      assert p[j - 1] == Sep;
    }
  }

  /** A file named `stem.ext` splits into exactly that stem and ".ext". */
  lemma SplitExtOfStem(stem: string, ext: string)
    requires Sep !in stem && Sep !in ext && ExtSep !in ext
    requires exists k :: 0 <= k < |stem| && stem[k] != ExtSep
    ensures SplitExt(stem + [ExtSep] + ext) == (stem, [ExtSep] + ext)
  {
    var p := stem + [ExtSep] + ext;
    assert forall k :: 0 <= k < |stem| ==> p[k] == stem[k];
    assert forall k :: |stem| < k < |p| ==> p[k] == ext[k - |stem| - 1];
    assert p[|stem|] == ExtSep;
    var dotIndex := RFind(p, ExtSep);
    assert dotIndex == |stem|;
    var k :| 0 <= k < |stem| && stem[k] != ExtSep;
    assert p[k] == stem[k];
    assert p[..dotIndex] == stem;
    assert p[dotIndex..] == [ExtSep] + ext;
  }

  /** A file name without any dot has no extension. */
  lemma SplitExtNoDot(name: string)
    requires ExtSep !in name
    ensures SplitExt(name) == (name, [])
  {
  }
}
