/** The optional value returned by a search that may find nothing. */
module Wrappers {
  datatype Option<+T> = None | Some(value: T)
}

/**
 * Python string primitives used by the extractor: the character classes of
 * `\s`, `\d` and `[A-Za-z]`, str.strip, str.lower, `in`, str.replace with an
 * empty replacement, str.split(sep), str.split() and str.split(maxsplit=1),
 * and " ".join.
 */
module Text {

  /** Python's str.isspace(); `\s` in a str pattern, strip() and split() all use this set. */
  predicate IsWs(c: char) {
    ('\t' <= c <= '\r') || ('\U{1C}' <= c <= '\U{1F}') || c == ' '
    || c == '\U{85}' || c == '\U{A0}' || c == '\U{1680}'
    || ('\U{2000}' <= c <= '\U{200A}') || c == '\U{2028}' || c == '\U{2029}'
    || c == '\U{202F}' || c == '\U{205F}' || c == '\U{3000}'
  }

  predicate NotWs(c: char) { !IsWs(c) }

  /** `\d`, restricted to the ASCII digits */
  predicate IsDigit(c: char) { '0' <= c <= '9' }

  /** `[A-Z]` */
  predicate IsUpper(c: char) { 'A' <= c <= 'Z' }

  /** `[A-Za-z]` */
  predicate IsLetter(c: char) { 'A' <= c <= 'Z' || 'a' <= c <= 'z' }

  /** `[A-Za-z\s]` */
  predicate IsLetterOrWs(c: char) { IsLetter(c) || IsWs(c) }

  /** `.`: everything but a line feed */
  predicate NotNewline(c: char) { c != '\n' }

  /** Every character of s[lo..hi] satisfies p. */
  predicate All(s: string, lo: nat, hi: nat, p: char -> bool) {
    lo <= hi <= |s| && forall k :: lo <= k < hi ==> p(s[k])
  }

  /** The length of the longest run of characters satisfying p that starts at i. */
  function Span(s: string, i: nat, p: char -> bool): (n: nat)
    requires i <= |s|
    ensures All(s, i, i + n, p)
    ensures i + n == |s| || !p(s[i + n])
    decreases |s| - i
  {
    if i < |s| && p(s[i]) then 1 + Span(s, i + 1, p) else 0
  }

  /** A run that is followed by a character outside the class is the whole span. */
  lemma SpanExact(s: string, i: nat, j: nat, p: char -> bool)
    requires All(s, i, j, p)
    requires j == |s| || !p(s[j])
    ensures j == i + Span(s, i, p)
  {
  }

  /** The first index in [lo, hi) whose element satisfies p, or hi when there is none. */
  function FirstWhere<T>(xs: seq<T>, lo: nat, hi: nat, p: T -> bool): (k: nat)
    requires lo <= hi <= |xs|
    ensures lo <= k <= hi
    ensures k < hi ==> p(xs[k])
    ensures forall j {:trigger p(xs[j])} :: lo <= j < k ==> !p(xs[j])
    decreases hi - lo
  {
    if lo == hi then hi
    else if p(xs[lo]) then lo
    else FirstWhere(xs, lo + 1, hi, p)
  }

  /** str.rstrip() */
  function TrimEnd(s: string): (r: string)
    ensures |r| <= |s| && r == s[..|r|]
    ensures r == [] || !IsWs(r[|r| - 1])
    ensures All(s, |r|, |s|, IsWs)
    decreases |s|
  {
    if s != [] && IsWs(s[|s| - 1]) then TrimEnd(s[..|s| - 1]) else s
  }

  /** Where str.strip() makes its result start. */
  function StripStart(s: string): nat
    ensures StripStart(s) <= |s|
  {
    Span(s, 0, IsWs)
  }

  /** s has no leading or trailing whitespace. */
  predicate Trimmed(s: string) {
    s == [] || (!IsWs(s[0]) && !IsWs(s[|s| - 1]))
  }

  /** str.strip() */
  function Strip(s: string): (r: string)
    ensures StripStart(s) + |r| <= |s|
    ensures r == s[StripStart(s)..StripStart(s) + |r|]
    ensures Trimmed(r)
    ensures All(s, 0, StripStart(s), IsWs) && All(s, StripStart(s) + |r|, |s|, IsWs)
  {
    var a := StripStart(s);
    var r := TrimEnd(s[a..]);
    assert forall k :: a + |r| <= k < |s| ==> s[k] == s[a..][k - a];
    r
  }

  /** `not s.strip()`: s is empty or made only of whitespace. */
  predicate Blank(s: string)
    decreases |s|
  {
    s == [] || (IsWs(s[0]) && Blank(s[1..]))
  }

  /** A blank string is whitespace throughout. */
  lemma {:induction false} BlankAll(s: string)
    ensures Blank(s) <==> All(s, 0, |s|, IsWs)
    decreases |s|
  {
    if s != [] {
      BlankAll(s[1..]);
      assert forall k :: 1 <= k < |s| ==> s[k] == s[1..][k - 1];
    }
  }

  /** str.strip() gives "" exactly for blank strings. */
  lemma StripEmptyIff(s: string)
    ensures Strip(s) == [] <==> Blank(s)
  {
    BlankAll(s);
    var a := StripStart(s);
    if Strip(s) == [] {
      assert All(s, 0, a, IsWs) && All(s, a, |s|, IsWs);
    } else {
      assert s[a] == Strip(s)[0];
    }
  }

  /** str.strip() leaves a string without surrounding whitespace as it is. */
  lemma StripOfStripped(s: string)
    requires Trimmed(s)
    ensures Strip(s) == s
  {
    if s != [] {
      assert StripStart(s) == 0;
    }
  }

  /** str.strip() only removes characters: one absent from s is absent from the result. */
  lemma StripKeepsOut(s: string, c: char)
    requires c !in s
    ensures c !in Strip(s)
  {
    var r := Strip(s);
    forall k | 0 <= k < |r| ensures r[k] != c {
      assert r[k] == s[StripStart(s) + k];
    }
  }

  /** The first index in [lo, hi) satisfying p is k when nothing before k does and k does (or k is hi). */
  lemma FirstWhereIs<T>(xs: seq<T>, lo: nat, hi: nat, p: T -> bool, k: nat)
    requires lo <= k <= hi <= |xs|
    requires k < hi ==> p(xs[k])
    requires forall j {:trigger p(xs[j])} :: lo <= j < k ==> !p(xs[j])
    ensures FirstWhere(xs, lo, hi, p) == k
  {
  }

  /** Concatenation is associative. */
  lemma AppendAssoc<T>(a: seq<T>, b: seq<T>, c: seq<T>)
    ensures a + b + c == a + (b + c)
  {
  }

  /** The first part of a five-part concatenation splits off from the other four. */
  lemma AppendAssoc5<T>(a: seq<T>, b: seq<T>, c: seq<T>, d: seq<T>, e: seq<T>)
    ensures a + b + c + d + e == a + (b + c + d + e)
  {
    AppendAssoc(a, b, c);
    AppendAssoc(a, b + c, d);
    AppendAssoc(a, b + c + d, e);
  }

  /** str.lower() on one character (ASCII letters only) */
  function LowerChar(c: char): char {
    if 'A' <= c <= 'Z' then (c as int + 32) as char else c
  }

  /** str.lower() */
  function Lower(s: string): (r: string)
    ensures |r| == |s|
    ensures forall k :: 0 <= k < |s| ==> r[k] == LowerChar(s[k])
  {
    seq(|s|, k requires 0 <= k < |s| => LowerChar(s[k]))
  }

  /** needle occurs in hay starting at index i */
  predicate OccursAt(hay: string, needle: string, i: nat) {
    i + |needle| <= |hay| && hay[i..i + |needle|] == needle
  }

  /** Python's `needle in hay` on strings */
  predicate Contains(hay: string, needle: string) {
    exists i :: 0 <= i <= |hay| && OccursAt(hay, needle, i)
  }

  /** s.replace(pat, ""): every occurrence of pat, found left to right without overlap, is dropped. */
  function RemoveAll(s: string, pat: string): (r: string)
    requires pat != []
    ensures |r| <= |s|
    decreases |s|
  {
    if |s| < |pat| then s
    else if s[..|pat|] == pat then RemoveAll(s[|pat|..], pat)
    else [s[0]] + RemoveAll(s[1..], pat)
  }

  /** Replacing a pattern that does not occur changes nothing. */
  lemma {:induction false} RemoveAllAbsent(s: string, pat: string)
    requires pat != []
    requires !Contains(s, pat)
    ensures RemoveAll(s, pat) == s
    decreases |s|
  {
    if |s| >= |pat| {
      assert !OccursAt(s, pat, 0);
      if Contains(s[1..], pat) {
        var i :| 0 <= i <= |s[1..]| && OccursAt(s[1..], pat, i);
        assert s[1..][i..i + |pat|] == s[i + 1..i + 1 + |pat|];
        assert OccursAt(s, pat, i + 1);
      }
      RemoveAllAbsent(s[1..], pat);
      assert [s[0]] + s[1..] == s;
    }
  }

  /** An occurrence at the start is dropped whole, and the replacement goes on right after it. */
  lemma RemoveAllLeading(pat: string, s: string)
    requires pat != []
    ensures RemoveAll(pat + s, pat) == RemoveAll(s, pat)
  {
    assert (pat + s)[..|pat|] == pat;
    assert (pat + s)[|pat|..] == s;
  }

  /** Text in which no occurrence starts is kept as it is, and the replacement goes on after it. */
  lemma {:induction false} RemoveAllPrefix(a: string, s: string, pat: string)
    requires pat != []
    requires forall k :: 0 <= k < |a| ==> !OccursAt(a + s, pat, k)
    ensures RemoveAll(a + s, pat) == a + RemoveAll(s, pat)
    decreases |a|
  {
    var t := a + s;
    if a == [] {
      assert t == s;
    } else if |t| < |pat| {
      assert |s| < |pat|;
    } else {
      assert !OccursAt(t, pat, 0);
      assert t[1..] == a[1..] + s;
      forall k | 0 <= k < |a[1..]|
        ensures !OccursAt(a[1..] + s, pat, k)
      {
        assert !OccursAt(t, pat, k + 1);
        if k + |pat| <= |t[1..]| {
          assert t[1..][k..k + |pat|] == t[k + 1..k + 1 + |pat|];
        }
      }
      RemoveAllPrefix(a[1..], s, pat);
      assert [a[0]] + a[1..] == a;
      AppendAssoc([a[0]], a[1..], RemoveAll(s, pat));
    }
  }

  /** A header fragment in front of a job title: "Job title Clerk" loses "Job title" and keeps the rest. */
  lemma RemoveHeaderExample(pat: string, rest: string)
    requires pat == "Job title" && rest == " Clerk"
    ensures RemoveAll(pat + rest, pat) == " Clerk"
  {
    RemoveAllLeading(pat, rest);
    assert |rest| < |pat|;
  }

  /** str.split(sep) for a one-character separator */
  function SplitOn(s: string, sep: char): (parts: seq<string>)
    ensures |parts| >= 1
    decreases |s|
  {
    if s == [] then [[]]
    else
      var rest := SplitOn(s[1..], sep);
      if s[0] == sep then [[]] + rest else [[s[0]] + rest[0]] + rest[1..]
  }

  /** sep.join(parts) */
  function JoinOn(parts: seq<string>, sep: char): string
    decreases |parts|
  {
    if parts == [] then []
    else if |parts| == 1 then parts[0]
    else parts[0] + [sep] + JoinOn(parts[1..], sep)
  }

  /** Splitting and joining with the same separator gives the string back, and no part holds the separator. */
  lemma {:induction false} SplitOnJoin(s: string, sep: char)
    ensures JoinOn(SplitOn(s, sep), sep) == s
    ensures forall k :: 0 <= k < |SplitOn(s, sep)| ==> sep !in SplitOn(s, sep)[k]
    decreases |s|
  {
    if s != [] {
      var rest := SplitOn(s[1..], sep);
      SplitOnJoin(s[1..], sep);
      var parts := SplitOn(s, sep);
      if s[0] == sep {
        assert parts == [[]] + rest;
        assert parts[1..] == rest;
        assert JoinOn(parts, sep) == [] + [sep] + JoinOn(rest, sep);
      } else {
        assert parts == [[s[0]] + rest[0]] + rest[1..];
        if |rest| == 1 {
          assert JoinOn(parts, sep) == [s[0]] + rest[0];
          assert JoinOn(rest, sep) == rest[0];
        } else {
          assert parts[1..] == rest[1..];
          assert JoinOn(rest, sep) == rest[0] + [sep] + JoinOn(rest[1..], sep);
          assert JoinOn(parts, sep) == [s[0]] + rest[0] + [sep] + JoinOn(rest[1..], sep);
        }
        assert [s[0]] + s[1..] == s;
        forall k | 0 <= k < |parts|
          ensures sep !in parts[k]
        {
          if k > 0 {
            assert parts[k] == rest[k];
          }
        }
      }
    }
  }

  /** str.split(sep) yields at least two parts exactly when sep occurs. */
  lemma {:induction false} SplitOnCount(s: string, sep: char)
    ensures |SplitOn(s, sep)| >= 2 <==> sep in s
    decreases |s|
  {
    if s != [] {
      SplitOnCount(s[1..], sep);
      assert s == [s[0]] + s[1..];
    }
  }

  /** str.split() with no argument: the maximal runs of non-whitespace characters */
  function Words(s: string): (ws: seq<string>)
    ensures forall k :: 0 <= k < |ws| ==> ws[k] != [] && All(ws[k], 0, |ws[k]|, NotWs)
    decreases |s|
  {
    var a := Span(s, 0, IsWs);
    if a == |s| then []
    else
      var n := Span(s, a, NotWs);
      assert All(s[a..a + n], 0, n, NotWs);
      [s[a..a + n]] + Words(s[a + n..])
  }

  /** str.split() yields no word exactly when the text is all whitespace. */
  lemma WordsEmptyIff(s: string)
    ensures Words(s) == [] <==> All(s, 0, |s|, IsWs)
  {
    var a := Span(s, 0, IsWs);
    if a == |s| {
      assert All(s, 0, |s|, IsWs);
    } else {
      assert !IsWs(s[a]);
    }
  }

  /**
   * After leading whitespace, the first word is the whole run of
   * non-whitespace characters, and the words of the rest follow it.
   * Together with WordsEmptyIff this fixes Words on every text.
   */
  lemma WordsCons(pre: string, w: string, rest: string)
    requires All(pre, 0, |pre|, IsWs)
    requires w != [] && All(w, 0, |w|, NotWs)
    requires rest == [] || IsWs(rest[0])
    ensures Words(pre + w + rest) == [w] + Words(rest)
  {
    var s := pre + w + rest;
    var a := |pre|;
    var n := |w|;
    ConcatParts(s, pre, w, rest);
    AllOfSlice(s, 0, a, IsWs);
    AllOfSlice(s, a, a + n, NotWs);
    assert s[a] == w[0];
    SpanExact(s, 0, a, IsWs);
    assert a + n == |s| || s[a + n] == rest[0];
    SpanExact(s, a, a + n, NotWs);
    WordsStep(s, a, n);
  }

  /** One step of Words: the first word and the words after it. */
  lemma {:induction false} WordsStep(s: string, a: nat, n: nat)
    requires a == Span(s, 0, IsWs) && a < |s| && n == Span(s, a, NotWs)
    ensures Words(s) == [s[a..a + n]] + Words(s[a + n..])
  {
  }

  /** The three parts of a concatenation are its slices. */
  lemma ConcatParts(s: string, x: string, y: string, z: string)
    requires s == x + y + z
    ensures s[0..|x|] == x && s[|x|..|x| + |y|] == y && s[|x| + |y|..] == z
  {
  }

  /** A property of every character of a slice holds at the same places of the whole text. */
  lemma AllOfSlice(s: string, i: nat, j: nat, p: char -> bool)
    requires i <= j <= |s| && All(s[i..j], 0, j - i, p)
    ensures All(s, i, j, p)
  {
    forall k | i <= k < j ensures p(s[k]) { assert s[k] == s[i..j][k - i]; }
  }

  /** str.split(maxsplit=1): the first word, then the rest after the whitespace that follows it */
  function SplitOnce(s: string): (parts: seq<string>)
    ensures |parts| <= 2
    ensures forall k :: 0 <= k < |parts| ==> parts[k] != []
    ensures |parts| >= 1 ==> All(parts[0], 0, |parts[0]|, NotWs)
    ensures |parts| == 2 ==> !IsWs(parts[1][0])
  {
    var a := Span(s, 0, IsWs);
    if a == |s| then []
    else
      var n := Span(s, a, NotWs);
      var b := a + n + Span(s, a + n, IsWs);
      assert All(s[a..a + n], 0, n, NotWs);
      if b == |s| then [s[a..a + n]] else [s[a..a + n], s[b..]]
  }

  /** On a stripped string holding a space, split(maxsplit=1) cuts at the first whitespace run, and the second part starts after the whole run. */
  lemma SplitOnceAtSpace(s: string)
    requires ' ' in s
    requires !IsWs(s[0]) && !IsWs(s[|s| - 1])
    ensures |SplitOnce(s)| == 2
    ensures exists b :: |SplitOnce(s)[0]| < b < |s| && All(s, |SplitOnce(s)[0]|, b, IsWs) && !IsWs(s[b])
                        && s == SplitOnce(s)[0] + s[|SplitOnce(s)[0]|..b] + SplitOnce(s)[1]
  {
    var n, b := SplitOnceCut(s);
    assert s == s[..n] + s[n..b] + s[b..];
  }

  /** Where SplitOnce cuts a stripped string holding a space: the first word ends at n, the second starts at b. */
  lemma SplitOnceCut(s: string) returns (n: nat, b: nat)
    requires ' ' in s
    requires !IsWs(s[0]) && !IsWs(s[|s| - 1])
    ensures n < b < |s| && All(s, n, b, IsWs) && !IsWs(s[b])
    ensures SplitOnce(s) == [s[..n], s[b..]]
  {
    assert Span(s, 0, IsWs) == 0;
    n := Span(s, 0, NotWs);
    assert n < |s| && !NotWs(s[n]) by {
      var w :| 0 <= w < |s| && s[w] == ' ';
      assert !NotWs(s[w]);
    }
    b := n + Span(s, n, IsWs);
    assert n < b < |s| by {
      assert IsWs(s[n]);
      assert All(s, n, b, IsWs) && n <= |s| - 1 && !IsWs(s[|s| - 1]);
    }
  }
}
