/**
 * The Python `str` operations the core relies on, over `seq<char>`:
 * `pat in s`, `s.index(pat)`, `s.startswith(p)` and `s.replace(pat, rep)`.
 */
module Strings {
  import opened Wrappers

  /** `pat` occurs in `s` starting at index `i`. */
  predicate OccursAt(pat: string, s: string, i: int)
  {
    0 <= i && i + |pat| <= |s| && s[i..i + |pat|] == pat
  }

  /** Python's `pat in s`. */
  predicate Contains(s: string, pat: string)
  {
    exists i :: 0 <= i <= |s| && OccursAt(pat, s, i)
  }

  /** Python's `s.startswith(p)`. */
  predicate StartsWith(s: string, p: string)
  {
    |p| <= |s| && s[..|p|] == p
  }

  /** The first index at or after `i` where `pat` occurs in `s`. */
  function FindFrom(s: string, pat: string, i: nat): (r: Option<nat>)
    requires i <= |s|
    ensures r.Some? ==> i <= r.value && OccursAt(pat, s, r.value)
    ensures r.Some? ==> forall j :: i <= j < r.value ==> !OccursAt(pat, s, j)
    ensures r.None? ==> forall j :: i <= j <= |s| ==> !OccursAt(pat, s, j)
    decreases |s| - i
  {
    if OccursAt(pat, s, i) then Some(i)
    else if i == |s| then None
    else FindFrom(s, pat, i + 1)
  }

  /**
   * The lowest index where `pat` occurs in `s`, the value of Python's
   * `s.find(pat)` / `s.index(pat)`; `None` where `find` returns -1 and
   * `index` raises `ValueError`.
   */
  function Find(s: string, pat: string): (r: Option<nat>)
    ensures r.Some? <==> Contains(s, pat)
    ensures r.Some? ==> OccursAt(pat, s, r.value)
    ensures r.Some? ==> forall j :: 0 <= j < r.value ==> !OccursAt(pat, s, j)
  {
    FindFrom(s, pat, 0)
  }

  /**
   * Python's `s.replace(pat, rep)`: scans left to right and replaces every
   * non-overlapping occurrence of `pat`, resuming the scan after each one.
   */
  function Replace(s: string, pat: string, rep: string): (r: string)
    requires |pat| > 0
    ensures |rep| <= |pat| ==> |r| <= |s|
    ensures |rep| == |pat| ==> |r| == |s|
    decreases |s|
  {
    if |s| < |pat| then s
    else if s[..|pat|] == pat then rep + Replace(s[|pat|..], pat, rep)
    else [s[0]] + Replace(s[1..], pat, rep)
  }

  /** An occurrence in `c + s` that starts past `c` is an occurrence in `s`, and back. */
  lemma OccursInTail(c: string, s: string, pat: string, i: int)
    requires i >= |c|
    ensures OccursAt(pat, c + s, i) <==> OccursAt(pat, s, i - |c|)
  {
    if i + |pat| <= |c + s| {
      assert s[i - |c|..i - |c| + |pat|] == (c + s)[i..i + |pat|];
    }
  }

  /** A string in which `pat` does not occur is left unchanged by `replace`. */
  lemma {:induction false} ReplaceAbsent(s: string, pat: string, rep: string)
    requires |pat| > 0
    requires !Contains(s, pat)
    ensures Replace(s, pat, rep) == s
    decreases |s|
  {
    if |s| < |pat| {
    } else {
      assert !OccursAt(pat, s, 0);
      assert s[..|pat|] != pat;
      if Contains(s[1..], pat) {
        var i :| 0 <= i <= |s[1..]| && OccursAt(pat, s[1..], i);
        assert s[i + 1..i + 1 + |pat|] == s[1..][i..i + |pat|];
        assert OccursAt(pat, s, i + 1);
        assert false;
      }
      ReplaceAbsent(s[1..], pat, rep);
      assert s == [s[0]] + s[1..];
    }
  }

  /** Replacing one character by another maps the string character by character. */
  lemma {:induction false} ReplaceChar(s: string, a: char, b: char)
    ensures |Replace(s, [a], [b])| == |s|
    ensures forall k :: 0 <= k < |s| ==>
      Replace(s, [a], [b])[k] == (if s[k] == a then b else s[k])
    decreases |s|
  {
    if |s| == 0 {
    } else {
      ReplaceChar(s[1..], a, b);
      var t := Replace(s[1..], [a], [b]);
      if s[..1] == [a] {
        assert Replace(s, [a], [b]) == [b] + t;
      } else {
        assert Replace(s, [a], [b]) == [s[0]] + t;
      }
    }
  }

  /** A pattern holding a character that `s` lacks does not occur in `s`. */
  lemma AbsentByChar(s: string, pat: string, k: nat)
    requires k < |pat| && pat[k] !in s
    ensures !Contains(s, pat)
  {
  }

  /** A string that starts with `pat` and has no later occurrence gets exactly one replacement, at the front. */
  lemma ReplaceLeadingOnly(s: string, pat: string, rep: string)
    requires |pat| > 0 && StartsWith(s, pat) && !Contains(s[|pat|..], pat)
    ensures Replace(s, pat, rep) == rep + s[|pat|..]
  {
    ReplaceAbsent(s[|pat|..], pat, rep);
  }

  /** `replace` copies a leading part of the text at which no occurrence starts. */
  lemma {:induction false} ReplaceSkipsPrefix(x: string, y: string, pat: string, rep: string)
    requires |pat| > 0
    requires forall i :: 0 <= i < |x| ==> !OccursAt(pat, x + y, i)
    ensures Replace(x + y, pat, rep) == x + Replace(y, pat, rep)
    decreases |x|
  {
    if x == [] {
      assert x + y == y;
    } else {
      var s := x + y;
      var tail := x[1..] + y;
      assert s == [x[0]] + tail;
      forall i | 0 <= i < |x[1..]|
        ensures !OccursAt(pat, tail, i)
      {
        OccursInTail([x[0]], tail, pat, i + 1);
      }
      ReplaceSkipsPrefix(x[1..], y, pat, rep);
      if |s| >= |pat| {
        assert !OccursAt(pat, s, 0);
        assert Replace(s, pat, rep) == [s[0]] + Replace(tail, pat, rep);
      }
    }
  }

  /** An occurrence in `t` is one in `c + t`. */
  lemma ContainsInTail(c: string, t: string, pat: string)
    requires Contains(t, pat)
    ensures Contains(c + t, pat)
  {
    var i :| 0 <= i <= |t| && OccursAt(pat, t, i);
    OccursInTail(c, t, pat, i + |c|);
  }
}
