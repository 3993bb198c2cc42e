/**
 * The few operations of Go's `strings` and `path/filepath` packages that the
 * catalog service relies on, written out on `string` (`seq<char>`):
 * `HasPrefix`, `Index`, `Contains`, `Cut`, `ToLower` and `filepath.Ext`.
 */
module Strings {

  predicate HasPrefix(s: string, prefix: string) {
    |prefix| <= |s| && s[..|prefix|] == prefix
  }

  /** strings.HasPrefix: `s` is `prefix` followed by some text. */
  lemma HasPrefixIffSplit(s: string, prefix: string)
    ensures HasPrefix(s, prefix) <==> exists rest :: s == prefix + rest
  {
    if HasPrefix(s, prefix) {
      assert s == prefix + s[|prefix|..];
    }
    if exists rest :: s == prefix + rest {
      var rest :| s == prefix + rest;
      assert s[..|prefix|] == prefix;
    }
  }

  predicate HasSuffix(s: string, suffix: string) {
    |suffix| <= |s| && s[|s| - |suffix|..] == suffix
  }

  /** `sub` occurs in `s` starting at position `i`. */
  predicate OccursAt(s: string, sub: string, i: nat) {
    i + |sub| <= |s| && s[i..i + |sub|] == sub
  }

  /** strings.Index: the first position at which `sep` occurs in `s`, or -1. */
  function Index(s: string, sep: string): (r: int)
    ensures r == -1 || (r >= 0 && OccursAt(s, sep, r))
  {
    IndexFrom(s, sep, 0)
  }

  function IndexFrom(s: string, sep: string, from: nat): (r: int)
    requires from <= |s| + 1
    ensures r == -1 || (from <= r && OccursAt(s, sep, r))
    decreases |s| + 1 - from
  {
    if from + |sep| > |s| then -1
    else if s[from..from + |sep|] == sep then from
    else IndexFrom(s, sep, from + 1)
  }

  /** IndexFrom finds the first occurrence at or after `from`; -1 means there is none. */
  lemma {:induction false} IndexFromIsFirst(s: string, sep: string, from: nat)
    requires from <= |s| + 1
    ensures forall i: nat :: from <= i < (if IndexFrom(s, sep, from) < 0 then |s| + 1 else IndexFrom(s, sep, from)) ==>
      !OccursAt(s, sep, i)
    decreases |s| + 1 - from
  {
    if from + |sep| <= |s| && s[from..from + |sep|] != sep {
      IndexFromIsFirst(s, sep, from + 1);
    }
  }

  /** Index finds the first occurrence; -1 means `sep` occurs nowhere. */
  lemma IndexIsFirst(s: string, sep: string)
    ensures forall i: nat :: i < (if Index(s, sep) < 0 then |s| + 1 else Index(s, sep)) ==> !OccursAt(s, sep, i)
  {
    IndexFromIsFirst(s, sep, 0);
  }

  /** strings.Contains. */
  predicate Contains(s: string, sub: string) {
    Index(s, sub) >= 0
  }

  /** An occurrence of `sub` at any position makes `s` contain it. */
  lemma ContainsAt(s: string, sub: string, i: nat)
    requires OccursAt(s, sub, i)
    ensures Contains(s, sub)
  {
    IndexIsFirst(s, sub);
  }

  /** strings.Contains: `sub` is contained in `s` exactly when it occurs at some position. */
  lemma ContainsIffOccurs(s: string, sub: string)
    ensures Contains(s, sub) <==> exists i: nat :: OccursAt(s, sub, i)
  {
    if exists i: nat :: OccursAt(s, sub, i) {
      var i: nat :| OccursAt(s, sub, i);
      ContainsAt(s, sub, i);
    }
  }

  /** A substring of a string is a substring of every string that has it as a prefix. */
  lemma {:induction false} ContainsExtend(a: string, b: string, sub: string)
    requires Contains(a, sub)
    ensures Contains(a + b, sub)
  {
    var i := Index(a, sub);
    assert (a + b)[i..i + |sub|] == a[i..i + |sub|];
    ContainsAt(a + b, sub, i);
  }

  /**
   * strings.Cut: the text before and after the first occurrence of `sep`,
   * and whether there was one; without one, `(s, "", false)`.
   */
  function Cut(s: string, sep: string): (r: (string, string, bool))
    ensures r.2 <==> Contains(s, sep)
    ensures r.2 ==> s == r.0 + sep + r.1
    ensures !r.2 ==> r == (s, "", false)
  {
    var i := Index(s, sep);
    if i >= 0 then
      assert s == s[..i] + sep + s[i + |sep|..];
      (s[..i], s[i + |sep|..], true)
    else
      (s, "", false)
  }

  /** Cut splits at the first occurrence: the text before it holds none. */
  lemma CutIsFirst(s: string, sep: string)
    ensures forall i: nat :: i < |Cut(s, sep).0| && Cut(s, sep).2 ==> !OccursAt(s, sep, i)
  {
    IndexIsFirst(s, sep);
  }

  /** With the separator at the very start, Cut returns everything after it. */
  lemma CutAtStart(s: string, sep: string)
    requires HasPrefix(s, sep)
    ensures Cut(s, sep) == ("", s[|sep|..], true)
  {
    assert OccursAt(s, sep, 0);
  }

  /** ASCII case folding; other characters are left as they are. */
  function LowerChar(c: char): char {
    if 'A' <= c <= 'Z' then (c as int + 32) as char else c
  }

  /** strings.ToLower, restricted to ASCII letters. */
  function ToLower(s: string): (r: string)
    ensures |r| == |s|
    ensures forall i :: 0 <= i < |s| ==> r[i] == LowerChar(s[i])
  {
    seq(|s|, i requires 0 <= i < |s| => LowerChar(s[i]))
  }

  /** Some '/' stands in `path` strictly after position `k` and before `n`. */
  predicate SeparatorBetween(path: string, k: int, n: int)
    requires n <= |path|
  {
    exists j :: k < j < n && 0 <= j && path[j] == '/'
  }

  /** A string without upper-case ASCII letters is its own lower case. */
  lemma LowerCaseUnchanged(s: string)
    requires forall i :: 0 <= i < |s| ==> !('A' <= s[i] <= 'Z')
    ensures ToLower(s) == s
  {
  }

  /**
   * filepath.Ext: the suffix of `path` that starts at the last '.' of its
   * final element, or "" when that element has no '.'.
   */
  function Ext(path: string): (r: string)
    ensures r != "" ==> r[0] == '.' && HasSuffix(path, r)
    ensures r != "" ==> forall j :: 1 <= j < |r| ==> r[j] != '.' && r[j] != '/'
    ensures r == "" ==> forall k :: 0 <= k < |path| && path[k] == '.' ==> SeparatorBetween(path, k, |path|)
  {
    ExtBefore(path, |path|)
  }

  /** Ext's backward scan, looking at `path[..n]` only. */
  function ExtBefore(path: string, n: nat): (r: string)
    requires n <= |path|
    ensures r != "" ==> r[0] == '.' && |path| - n < |r| && HasSuffix(path, r)
    ensures r != "" ==> forall j :: |path| - |r| < j < n ==> path[j] != '.' && path[j] != '/'
    ensures r == "" ==> forall k :: 0 <= k < n && path[k] == '.' ==> SeparatorBetween(path, k, n)
  {
    if n == 0 then ""
    else if path[n - 1] == '/' then ""
    else if path[n - 1] == '.' then path[n - 1..]
    else ExtBefore(path, n - 1)
  }

  /** A name that ends in `.x` (with no '.' or '/' in `x`) has extension `.x`. */
  lemma ExtOfSuffix(name: string, ext: string)
    requires |ext| > 0 && ext[0] == '.' && HasSuffix(name, ext)
    requires forall j :: 1 <= j < |ext| ==> ext[j] != '.' && ext[j] != '/'
    ensures Ext(name) == ext
  {
    var k := |name| - |ext|;
    assert name[k] == '.';
  }
}
