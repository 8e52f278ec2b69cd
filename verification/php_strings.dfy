/**
 * The string primitives the validator leans on: PHP's `substr_compare`
 * (as the PHP runtime implements it on top of a bounded binary compare),
 * the `str_ends_with` polyfill built from it, `rtrim($path, '/')`, and the
 * `dir . '/' . name` join used to build file paths.
 */
module PhpStrings {
  import opened Wrappers

  function Min(a: int, b: int): int { if a <= b then a else b }

  function Max(a: int, b: int): int { if a >= b then a else b }

  /** The first `n` characters of `s`, or all of `s` when it is shorter. */
  function Prefix(s: string, n: nat): string { s[..Min(n, |s|)] }

  /** `needle` is a (case-sensitive, exact) suffix of `haystack`; the empty string is a suffix of everything. */
  predicate IsSuffix(needle: string, haystack: string)
  {
    |needle| <= |haystack| && haystack[|haystack| - |needle|..] == needle
  }

  /**
   * C's `memcmp` over the first `n` characters: zero exactly when those
   * characters agree, otherwise the difference at the first mismatch.
   */
  function Memcmp(a: string, b: string, n: nat): (r: int)
    requires n <= |a| && n <= |b|
    ensures r == 0 <==> a[..n] == b[..n]
    decreases n
  {
    if n == 0 then 0
    else if a[0] != b[0] then
      assert a[..n][0] != b[..n][0];
      a[0] as int - b[0] as int
    else
      var r := Memcmp(a[1..], b[1..], n - 1);
      assert a[..n] == [a[0]] + a[1..][..n - 1];
      assert b[..n] == [b[0]] + b[1..][..n - 1];
      r
  }

  /**
   * The runtime's bounded binary compare: compare at most `length`
   * characters; when those agree, the string that ran out first is smaller.
   */
  function BinaryStrncmp(s1: string, s2: string, length: nat): (r: int)
    ensures r == 0 <==> Prefix(s1, length) == Prefix(s2, length)
  {
    var common := Min(length, Min(|s1|, |s2|));
    var c := Memcmp(s1, s2, common);
    if c != 0 then
      assert Prefix(s1, length)[..common] == s1[..common];
      assert Prefix(s2, length)[..common] == s2[..common];
      c
    else
      var d := Min(length, |s1|) - Min(length, |s2|);
      assert d == 0 ==> Prefix(s1, length) == s1[..common] && Prefix(s2, length) == s2[..common];
      d
  }

  /**
   * PHP's `substr_compare($haystack, $needle, $offset)` with no length
   * argument. A negative offset counts from the end and is clamped to the
   * start of the haystack; an offset past the end is PHP's `false`, here `None`.
   */
  function SubstrCompare(haystack: string, needle: string, offset: int): (r: Option<int>)
    ensures r.None? <==> offset > |haystack|
    ensures -|haystack| <= offset < 0 ==>
              (r == Some(0) <==> haystack[|haystack| + offset..] == needle)
  {
    var start := if offset < 0 then Max(|haystack| + offset, 0) else offset;
    if start > |haystack| then None
    else
      var cmpLen := Max(|needle|, |haystack| - start);
      var tail := haystack[start..];
      var c := BinaryStrncmp(tail, needle, cmpLen);
      assert Prefix(tail, cmpLen) == tail;
      Some(c)
  }

  /**
   * The `str_ends_with` polyfill: an empty needle always matches, otherwise
   * the last `|needle|` characters of the haystack are compared with the needle.
   */
  function IsStringEndsWith(haystack: string, needle: string): (b: bool)
    ensures b <==> IsSuffix(needle, haystack)
  {
    |needle| == 0 || SubstrCompare(haystack, needle, -|needle|) == Some(0)
  }

  /** `rtrim($s, '/')`: drop every trailing slash. */
  function RTrimSlashes(s: string): (r: string)
    ensures |r| <= |s| && r == s[..|r|]
    ensures |r| == 0 || r[|r| - 1] != '/'
    ensures forall i :: |r| <= i < |s| ==> s[i] == '/'
    decreases |s|
  {
    if |s| > 0 && s[|s| - 1] == '/' then RTrimSlashes(s[..|s| - 1]) else s
  }

  /** The `dir . '/' . name` join of the two file-path builders. */
  function JoinPath(dir: string, name: string): (r: string)
    ensures |r| == |dir| + 1 + |name|
    ensures r[..|dir|] == dir && r[|dir|] == '/' && r[|dir| + 1..] == name
  {
    dir + "/" + name
  }

  /** Index of the last `/` in `p`, if any. */
  function LastSlash(p: string): (r: Option<nat>)
    ensures r.Some? ==> r.value < |p| && p[r.value] == '/'
    ensures r.Some? ==> forall i :: r.value < i < |p| ==> p[i] != '/'
    ensures r.None? <==> '/' !in p
    decreases |p|
  {
    if |p| == 0 then None
    else if p[|p| - 1] == '/' then Some(|p| - 1)
    else
      var r := LastSlash(p[..|p| - 1]);
      assert p == p[..|p| - 1] + [p[|p| - 1]];
      r
  }

  /** Split a path at its last slash into directory part and entry name. */
  function SplitPath(p: string): Option<(string, string)>
  {
    match LastSlash(p)
    case None => None
    case Some(i) => Some((p[..i], p[i + 1..]))
  }

  /** A joined path splits back into the directory and the name, for any name without a slash. */
  lemma SplitJoinPath(dir: string, name: string)
    requires '/' !in name
    ensures SplitPath(JoinPath(dir, name)) == Some((dir, name))
  {
    var p := JoinPath(dir, name);
    assert p[|dir|] == '/';
    assert forall i :: |dir| < i < |p| ==> p[i] == name[i - |dir| - 1];
    var ls := LastSlash(p);
    assert ls == Some(|dir|);
    assert p[..|dir|] == dir;
    assert p[|dir| + 1..] == name;
  }

  /** A suffix of a name stays a suffix after anything is put in front of it. */
  lemma SuffixSurvivesPrefixing(suffix: string, front: string, name: string)
    requires IsSuffix(suffix, name)
    ensures IsSuffix(suffix, front + name)
  {
    var p := front + name;
    assert p[|p| - |suffix|..] == name[|name| - |suffix|..];
  }
}
