/**
 * The contribution anchor of app.py:210,
 *   re.search(r'(\d{2}/\d{2}/\d{4})\s+(.+?)\s+\$?([\d,]+\.\d{2})', line),
 * and the name clean-up of app.py:219.  A match is described by the
 * positions of its parts; AnchorSearch returns the match Python's
 * backtracking engine reports: the leftmost one, and among those the one
 * with the longest `\s+` before the name and then the shortest name.
 */
module AnchorRegex {
  import opened Wrappers
  import opened Text
  import opened Patterns

  /**
   * One way the anchor pattern can match: group 1 is s[start..start+10],
   * group 2 is s[nameStart..nameEnd], group 3 is s[amountStart..amountEnd];
   * the `\s+` after the name ends at gapEnd, and a `$` sits at gapEnd when
   * amountStart == gapEnd + 1.
   */
  datatype AnchorMatch = AnchorMatch(start: nat, nameStart: nat, nameEnd: nat, gapEnd: nat, amountStart: nat, amountEnd: nat)

  /** The three captured groups of an anchor line */
  datatype AnchorFields = AnchorFields(date: string, rawName: string, rawAmount: string)

  predicate IsDigitOrComma(c: char) { IsDigit(c) || c == ',' }

  /** `[\d,]+\.\d{2}` matches all of s[a..z]. */
  predicate AmountAt(s: string, a: nat, z: nat) {
    a + 4 <= z <= |s| && All(s, a, z - 3, IsDigitOrComma)
    && s[z - 3] == '.' && IsDigit(s[z - 2]) && IsDigit(s[z - 1])
  }

  /** `\s+\$?([\d,]+\.\d{2})` matches s[e..z], its `\s+` ending at g and its group starting at a. */
  predicate IsTail(s: string, e: nat, g: nat, a: nat, z: nat) {
    e < g <= a && All(s, e, g, IsWs)
    && (a == g || (a == g + 1 && g < |s| && s[g] == '$'))
    && AmountAt(s, a, z)
  }

  /** m is a match of the whole anchor pattern in s. */
  predicate IsAnchorMatch(s: string, m: AnchorMatch) {
    DateAt(s, m.start) && m.start + 10 < m.nameStart < m.nameEnd
    && All(s, m.start + 10, m.nameStart, IsWs)
    && All(s, m.nameStart, m.nameEnd, NotNewline)
    && IsTail(s, m.nameEnd, m.gapEnd, m.amountStart, m.amountEnd)
  }

  /**
   * Python's backtracking engine tries m1 before m2: an earlier start first,
   * then a longer greedy `\s+` (a later name start), then a shorter lazy name.
   */
  predicate TriedBefore(m1: AnchorMatch, m2: AnchorMatch) {
    m1.start < m2.start
    || (m1.start == m2.start && m1.nameStart > m2.nameStart)
    || (m1.start == m2.start && m1.nameStart == m2.nameStart && m1.nameEnd < m2.nameEnd)
  }

  /** The tail after a name ending at e; the greedy runs leave it at most one way to match. */
  function TailAt(s: string, e: nat): (r: Option<(nat, nat, nat)>)
    requires e <= |s|
    ensures r.Some? ==> IsTail(s, e, r.value.0, r.value.1, r.value.2)
    ensures forall g: nat, a: nat, z: nat :: IsTail(s, e, g, a, z) ==> r == Some((g, a, z))
  {
    var g := e + Span(s, e, IsWs);
    var a := if g < |s| && s[g] == '$' then g + 1 else g;
    var d := Span(s, a, IsDigitOrComma);
    var r := if g > e && d > 0 && a + d + 3 <= |s| && s[a + d] == '.' && IsDigit(s[a + d + 1]) && IsDigit(s[a + d + 2])
      then Some((g, a, a + d + 3)) else None;
    TailExact(s, e, g, a, d, r);
    r
  }

  /** The greedy runs g, a and d give the only way the tail can match at e, and it matches when ".dd" follows them. */
  lemma TailExact(s: string, e: nat, g: nat, a: nat, d: nat, r: Option<(nat, nat, nat)>)
    requires e <= |s| && g == e + Span(s, e, IsWs)
    requires a == if g < |s| && s[g] == '$' then g + 1 else g
    requires a <= |s| && d == Span(s, a, IsDigitOrComma)
    requires r == if g > e && d > 0 && a + d + 3 <= |s| && s[a + d] == '.' && IsDigit(s[a + d + 1]) && IsDigit(s[a + d + 2])
      then Some((g, a, a + d + 3)) else None
    ensures r.Some? ==> IsTail(s, e, r.value.0, r.value.1, r.value.2)
    ensures forall g': nat, a': nat, z': nat :: IsTail(s, e, g', a', z') ==> r == Some((g', a', z'))
  {
    TailUnique(s, e, g, a, d);
    if r.Some? {
      TailSound(s, e, g, a, d);
    }
    forall g': nat, a': nat, z': nat | IsTail(s, e, g', a', z')
      ensures r == Some((g', a', z'))
    {
      assert g' == g && a' == a && z' == a + d + 3;
      assert AmountAt(s, a, a + d + 3);
    }
  }

  /** When the runs found by TailAt are followed by ".dd", they form a tail match. */
  lemma TailSound(s: string, e: nat, g: nat, a: nat, d: nat)
    requires e <= |s| && g == e + Span(s, e, IsWs)
    requires a == if g < |s| && s[g] == '$' then g + 1 else g
    requires a <= |s| && d == Span(s, a, IsDigitOrComma)
    requires g > e && d > 0 && a + d + 3 <= |s| && s[a + d] == '.' && IsDigit(s[a + d + 1]) && IsDigit(s[a + d + 2])
    ensures IsTail(s, e, g, a, a + d + 3)
  {
    assert All(s, e, g, IsWs);
    assert All(s, a, a + d, IsDigitOrComma);
  }

  lemma TailUnique(s: string, e: nat, g: nat, a: nat, d: nat)
    requires e <= |s| && g == e + Span(s, e, IsWs)
    requires a == if g < |s| && s[g] == '$' then g + 1 else g
    requires d == Span(s, a, IsDigitOrComma)
    ensures forall g': nat, a': nat, z': nat :: IsTail(s, e, g', a', z') ==> g' == g && a' == a && z' == a + d + 3
  {
    forall g': nat, a': nat, z': nat | IsTail(s, e, g', a', z')
      ensures g' == g && a' == a && z' == a + d + 3
    {
      assert IsDigitOrComma(s[a']);
      SpanExact(s, a', z' - 3, IsDigitOrComma);
    }
  }

  /**
   * The lazy `(.+?)`: the first end e >= from at which the rest of the
   * pattern (fits) matches, unless a line feed at s[e - 1] stops the name first.
   */
  function LazyNameEnd(s: string, from: nat, fits: nat -> bool): Option<nat>
    requires 1 <= from
    decreases |s| + 1 - from
  {
    if from > |s| || s[from - 1] == '\n' then None
    else if fits(from) then Some(from)
    else LazyNameEnd(s, from + 1, fits)
  }

  /** A lazy end is a name end: the rest matches there and no line feed lies in the name. */
  lemma {:induction false} LazyNameEndSound(s: string, ns: nat, from: nat, fits: nat -> bool)
    requires ns < from && All(s, ns, from - 1, NotNewline)
    ensures LazyNameEnd(s, from, fits).Some? ==>
      from <= LazyNameEnd(s, from, fits).value <= |s| && All(s, ns, LazyNameEnd(s, from, fits).value, NotNewline)
      && fits(LazyNameEnd(s, from, fits).value)
    decreases |s| + 1 - from
  {
    if from <= |s| && s[from - 1] != '\n' && !fits(from) {
      LazyNameEndSound(s, ns, from + 1, fits);
    }
  }

  /** The lazy name is the shortest: every end e from `from` on where the rest matches bounds it. */
  lemma {:induction false} LazyNameEndFirst(s: string, ns: nat, from: nat, e: nat, fits: nat -> bool)
    requires ns < from <= e <= |s| && All(s, ns, e, NotNewline) && fits(e)
    ensures LazyNameEnd(s, from, fits).Some? && LazyNameEnd(s, from, fits).value <= e
    decreases |s| + 1 - from
  {
    assert NotNewline(s[from - 1]);
    if !fits(from) {
      LazyNameEndFirst(s, ns, from + 1, e, fits);
    }
  }

  /** The tail matches after a name ending at e. */
  function TailFits(s: string): nat -> bool {
    (e: nat) => e <= |s| && TailAt(s, e).Some?
  }

  /** Where the shortest name starting at ns ends, if any name starting there is followed by the tail. */
  function NameEnd(s: string, ns: nat): (r: Option<nat>)
    requires ns <= |s|
    ensures r.Some? ==> ns < r.value <= |s| && All(s, ns, r.value, NotNewline) && TailAt(s, r.value).Some?
    ensures forall e :: ns < e <= |s| && All(s, ns, e, NotNewline) && TailAt(s, e).Some? ==> r.Some? && r.value <= e
  {
    var fits := TailFits(s);
    LazyNameEndSound(s, ns, ns + 1, fits);
    NameEndFirst(s, ns, fits);
    LazyNameEnd(s, ns + 1, fits)
  }

  /** Every end e past ns where fits holds, with no line feed in s[ns..e], bounds the lazy end. */
  lemma NameEndFirst(s: string, ns: nat, fits: nat -> bool)
    requires ns <= |s|
    ensures forall e :: ns < e <= |s| && All(s, ns, e, NotNewline) && fits(e) ==>
      LazyNameEnd(s, ns + 1, fits).Some? && LazyNameEnd(s, ns + 1, fits).value <= e
  {
    forall e | ns < e <= |s| && All(s, ns, e, NotNewline) && fits(e)
      ensures LazyNameEnd(s, ns + 1, fits).Some? && LazyNameEnd(s, ns + 1, fits).value <= e
    {
      LazyNameEndFirst(s, ns, ns + 1, e, fits);
    }
  }

  /** The greedy `\s+` before the name: name starts are tried from hi down to lo. */
  function GreedyNameStart(s: string, lo: nat, hi: nat): (r: Option<(nat, nat)>)
    requires hi <= |s|
    ensures r.Some? ==> lo <= r.value.0 <= hi && NameEnd(s, r.value.0) == Some(r.value.1)
    ensures r.Some? ==> forall n :: r.value.0 < n <= hi ==> NameEnd(s, n).None?
    ensures r.None? ==> forall n :: lo <= n <= hi ==> NameEnd(s, n).None?
    decreases hi
  {
    if hi < lo then None
    else match NameEnd(s, hi)
      case Some(e) => Some((hi, e))
      case None => if hi == 0 then None else GreedyNameStart(s, lo, hi - 1)
  }

  /**
   * The match Python reports among those starting at p: there is one exactly
   * when the pattern matches at p, and every other match at p is tried after it.
   */
  function AnchorAt(s: string, p: nat): (r: Option<AnchorMatch>)
    ensures r.Some? ==> IsAnchorMatch(s, r.value) && r.value.start == p
    ensures forall m :: IsAnchorMatch(s, m) && m.start == p ==> r.Some? && (m == r.value || TriedBefore(r.value, m))
  {
    if !DateAt(s, p) || Span(s, p + 10, IsWs) == 0 then
      MatchesNeedGap(s, p);
      None
    else
      AnchorWithFirst(s, p, p + 10 + Span(s, p + 10, IsWs));
      AnchorWith(s, p, GreedyNameStart(s, p + 11, p + 10 + Span(s, p + 10, IsWs)))
  }

  /** The match at p built from the greedy name start and lazy name end g, with the tail after the name. */
  function AnchorWith(s: string, p: nat, g: Option<(nat, nat)>): (r: Option<AnchorMatch>)
    requires g.Some? ==> g.value.1 <= |s| && TailAt(s, g.value.1).Some?
    ensures r.Some? <==> g.Some?
    ensures r.Some? ==> r.value.start == p && r.value.nameStart == g.value.0 && r.value.nameEnd == g.value.1
  {
    match g
    case None => None
    case Some((ns, e)) =>
      var t := TailAt(s, e).value;
      Some(AnchorMatch(p, ns, e, t.0, t.1, t.2))
  }

  /** The first match at a start position from p on. */
  function AnchorSearchFrom(s: string, p: nat): (r: Option<AnchorMatch>)
    ensures r.Some? ==> IsAnchorMatch(s, r.value) && p <= r.value.start
    ensures r.Some? ==> forall m :: IsAnchorMatch(s, m) && p <= m.start ==> m == r.value || TriedBefore(r.value, m)
    ensures r.None? ==> forall m :: IsAnchorMatch(s, m) ==> m.start < p
    decreases |s| + 1 - p
  {
    if p + 10 > |s| then None
    else match AnchorAt(s, p)
      case Some(m) => Some(m)
      case None => AnchorSearchFrom(s, p + 1)
  }

  /** re.search with the anchor pattern: the match Python reports, or None when the pattern does not occur. */
  function AnchorSearch(s: string): (r: Option<AnchorMatch>)
    ensures r.Some? ==> IsAnchorMatch(s, r.value)
    ensures r.Some? ==> forall m :: IsAnchorMatch(s, m) ==> m == r.value || TriedBefore(r.value, m)
    ensures r.None? ==> forall m :: !IsAnchorMatch(s, m)
  {
    AnchorSearchFrom(s, 0)
  }

  /** date_match.group(1), group(2) and group(3) */
  function AnchorCaptures(line: string): (r: Option<AnchorFields>)
    ensures r.Some? ==> |r.value.date| == 10 && DateAt(r.value.date, 0)
    ensures r.Some? ==> r.value.rawName != [] && AmountAt(r.value.rawAmount, 0, |r.value.rawAmount|)
    ensures r.None? <==> AnchorSearch(line).None?
  {
    var r := AnchorSearch(line);
    if r.None? then None
    else
      var m := r.value;
      SliceKeepsShapes(line, m);
      Some(AnchorFields(line[m.start..m.start + 10], line[m.nameStart..m.nameEnd], line[m.amountStart..m.amountEnd]))
  }

  /** Cut out of the line, group 1 is still a date and group 3 still an amount. */
  lemma SliceKeepsShapes(line: string, m: AnchorMatch)
    requires IsAnchorMatch(line, m)
    ensures |line[m.start..m.start + 10]| == 10 && DateAt(line[m.start..m.start + 10], 0)
    ensures line[m.nameStart..m.nameEnd] != []
    ensures AmountAt(line[m.amountStart..m.amountEnd], 0, m.amountEnd - m.amountStart)
  {
    var t := line[m.amountStart..m.amountEnd];
    forall k | 0 <= k < |t| - 3 ensures IsDigitOrComma(t[k]) {
      assert t[k] == line[m.amountStart + k];
    }
  }

  /**
   * The skip loop (app.py:378) and the data window (app.py:303) look for the
   * next record with `\d{2}/\d{2}/\d{4}\s+.*?\d+\.\d{2}` instead of the
   * anchor pattern. On a line without a line feed, every anchor match whose
   * amount has a digit just before the point is found by that test too.
   */
  lemma AnchorMatchIsShaped(s: string, m: AnchorMatch)
    requires IsAnchorMatch(s, m) && '\n' !in s
    requires IsDigit(s[m.amountEnd - 4])
    ensures AnchorShaped(s)
  {
    var j := m.amountEnd - 4;
    forall k | m.nameStart <= k < j
      ensures NotNewline(s[k])
    {
      assert s[k] in s;
    }
    assert All(s, m.nameStart, j, NotNewline);
    assert DecimalAt(s, j);
  }

  /**
   * The converse fails: an amount group such as ",.00" has no digit before
   * the point, so its line is a contribution for the anchor pattern but not
   * for the next-record test.
   */
  lemma CommaAmountNotShaped(s: string)
    requires s == "01/02/2024 Bob ,.00"
    ensures IsAnchorMatch(s, AnchorMatch(0, 11, 14, 15, 15, 19))
    ensures !AnchorShaped(s)
  {
    assert s[15] == ',' && s[16] == '.' && s[17] == '0' && s[18] == '0';
    forall j | 0 <= j <= |s|
      ensures !DecimalAt(s, j)
    {
      // the only point is at 16, and a comma stands before it
      assert j + 1 < |s| && s[j + 1] == '.' ==> j == 15;
    }
  }

  /** A ",.00" amount group does not keep the line from passing the next-record test when a decimal follows. */
  lemma CommaAmountLaterDecimal(s: string)
    requires s == "01/02/2024 Bob ,.00 1.23"
    ensures IsAnchorMatch(s, AnchorMatch(0, 11, 14, 15, 15, 19))
    ensures AnchorShaped(s)
  {
    assert DateAt(s, 0) && All(s, 10, 11, IsWs) && All(s, 11, 20, NotNewline) && DecimalAt(s, 20);
    assert All(s, 14, 15, IsWs) && All(s, 15, 16, IsDigitOrComma) && AmountAt(s, 15, 19);
  }

  const IdMarker: string := "(ID#:"

  predicate NotCloseOrNewline(c: char) { c != ')' && c != '\n' }

  /**
   * re.sub(r'\(ID#:.*?\)', '', s): scanning left to right, each "(ID#:"
   * followed, without a line feed in between, by a ")" is dropped together
   * with everything up to that first ")".
   */
  function RemoveIdSegments(s: string): (r: string)
    ensures |r| <= |s|
    decreases |s|
  {
    if s == [] then []
    else if OccursAt(s, IdMarker, 0) && 5 + Span(s, 5, NotCloseOrNewline) < |s| && s[5 + Span(s, 5, NotCloseOrNewline)] == ')'
    then RemoveIdSegments(s[5 + Span(s, 5, NotCloseOrNewline) + 1..])
    else [s[0]] + RemoveIdSegments(s[1..])
  }

  /** A name without the "(ID#:" marker is kept as it is. */
  lemma {:induction false} RemoveIdSegmentsAbsent(s: string)
    requires !Contains(s, IdMarker)
    ensures RemoveIdSegments(s) == s
    decreases |s|
  {
    if s != [] {
      assert !OccursAt(s, IdMarker, 0);
      if Contains(s[1..], IdMarker) {
        var i :| 0 <= i <= |s[1..]| && OccursAt(s[1..], IdMarker, i);
        assert s[1..][i..i + 5] == s[i + 1..i + 6];
        assert OccursAt(s, IdMarker, i + 1);
      }
      RemoveIdSegmentsAbsent(s[1..]);
      assert [s[0]] + s[1..] == s;
    }
  }

  /** A leading "(ID#:...)" segment is dropped whole and the scan resumes after its ")". */
  lemma RemoveIdSegmentsLeading(body: string, rest: string)
    requires ')' !in body && '\n' !in body
    ensures RemoveIdSegments(IdMarker + body + ")" + rest) == RemoveIdSegments(rest)
  {
    var s := IdMarker + body + ")" + rest;
    assert OccursAt(s, IdMarker, 0);
    assert All(s, 5, 5 + |body|, NotCloseOrNewline) by {
      forall k | 5 <= k < 5 + |body| ensures NotCloseOrNewline(s[k]) {
        assert s[k] == body[k - 5];
      }
    }
    SpanExact(s, 5, 5 + |body|, NotCloseOrNewline);
    assert s[5 + |body| + 1..] == rest;
  }

  /** Text in which no "(ID#:" marker starts is kept as it is, and the scan goes on after it. */
  lemma {:induction false} RemoveIdSegmentsPrefix(a: string, s: string)
    requires forall k :: 0 <= k < |a| ==> !OccursAt(a + s, IdMarker, k)
    ensures RemoveIdSegments(a + s) == a + RemoveIdSegments(s)
    decreases |a|
  {
    if a == [] {
      assert a + s == s;
    } else {
      var t := a + s;
      assert !OccursAt(t, IdMarker, 0);
      assert RemoveIdSegments(t) == [t[0]] + RemoveIdSegments(t[1..]);
      assert t[1..] == a[1..] + s;
      forall k | 0 <= k < |a[1..]|
        ensures !OccursAt(a[1..] + s, IdMarker, k)
      {
        assert !OccursAt(t, IdMarker, k + 1);
        if k + 5 <= |t[1..]| {
          assert t[1..][k..k + 5] == t[k + 1..k + 6];
        }
      }
      RemoveIdSegmentsPrefix(a[1..], s);
      assert [a[0]] + a[1..] == a;
      AppendAssoc([a[0]], a[1..], RemoveIdSegments(s));
    }
  }

  /** A "(ID#:" that is never closed by a ")" is kept, as is everything else in such a name. */
  lemma {:induction false} RemoveIdSegmentsNoClose(s: string)
    requires ')' !in s
    ensures RemoveIdSegments(s) == s
    decreases |s|
  {
    if s != [] {
      if OccursAt(s, IdMarker, 0) {
        var n := 5 + Span(s, 5, NotCloseOrNewline);
        assert n < |s| ==> s[n] in s;
      }
      RemoveIdSegmentsNoClose(s[1..]);
      assert [s[0]] + s[1..] == s;
    }
  }

  /** A name followed by its ID segment, the case app.py:219 is written for: the segment goes, the name stays. */
  lemma RemoveIdSegmentsTrailing(name: string, body: string, rest: string)
    requires '(' !in name && ')' !in body && '\n' !in body
    ensures RemoveIdSegments(name + IdMarker + body + ")" + rest) == name + RemoveIdSegments(rest)
  {
    AppendAssoc5(name, IdMarker, body, ")", rest);
    var t := name + (IdMarker + body + ")" + rest);
    forall k | 0 <= k < |name|
      ensures !OccursAt(t, IdMarker, k)
    {
      if k + 5 <= |t| {
        assert t[k..k + 5][0] == t[k] == name[k] != '(';
      }
    }
    RemoveIdSegmentsPrefix(name, IdMarker + body + ")" + rest);
    RemoveIdSegmentsLeading(body, rest);
  }

  /** An ordinary parenthesis before the segment stays: "Bo (Jr) (ID#:7)" becomes "Bo (Jr) ". */
  lemma RemoveIdSegmentsExample(name: string, body: string)
    requires name == "Bo (Jr) " && body == "7"
    ensures RemoveIdSegments(name + IdMarker + body + ")") == "Bo (Jr) "
  {
    var t := name + (IdMarker + body + ")");
    assert name + IdMarker + body + ")" == t;
    forall k | 0 <= k < |name|
      ensures !OccursAt(t, IdMarker, k)
    {
      if k + 5 <= |t| {
        assert t[k..k + 5][0] == t[k] && t[k..k + 5][1] == t[k + 1];
      }
    }
    RemoveIdSegmentsPrefix(name, IdMarker + body + ")");
    assert IdMarker + body + ")" == IdMarker + body + ")" + [];
    RemoveIdSegmentsLeading(body, []);
  }

  /** The recorded contributor name: the captured name without ID segments, stripped. */
  function CleanName(rawName: string): (r: string)
    ensures Trimmed(r)
    ensures |r| <= |rawName|
  {
    Strip(RemoveIdSegments(rawName))
  }

  /** A match at p needs a date at p and whitespace after it. */
  lemma MatchesNeedGap(s: string, p: nat)
    ensures forall m :: IsAnchorMatch(s, m) && m.start == p ==> DateAt(s, p) && Span(s, p + 10, IsWs) > 0
  {
    forall m | IsAnchorMatch(s, m) && m.start == p
      ensures DateAt(s, p) && Span(s, p + 10, IsWs) > 0
    {
      MatchParts(s, p, m);
    }
  }

  /**
   * Past a date at p and the maximal whitespace run s[p+10..hi], the match
   * built from the greedy name start is the first match at p.
   */
  lemma AnchorWithFirst(s: string, p: nat, hi: nat)
    requires DateAt(s, p) && p + 10 < hi <= |s| && All(s, p + 10, hi, IsWs) && (hi == |s| || !IsWs(s[hi]))
    ensures AnchorWith(s, p, GreedyNameStart(s, p + 11, hi)).Some? ==> IsAnchorMatch(s, AnchorWith(s, p, GreedyNameStart(s, p + 11, hi)).value) && AnchorWith(s, p, GreedyNameStart(s, p + 11, hi)).value.start == p
    ensures forall m :: IsAnchorMatch(s, m) && m.start == p ==> AnchorWith(s, p, GreedyNameStart(s, p + 11, hi)).Some? && (m == AnchorWith(s, p, GreedyNameStart(s, p + 11, hi)).value || TriedBefore(AnchorWith(s, p, GreedyNameStart(s, p + 11, hi)).value, m))
  {
    AnchorWithSound(s, p, hi);
    forall m | IsAnchorMatch(s, m) && m.start == p
      ensures AnchorWith(s, p, GreedyNameStart(s, p + 11, hi)).Some? && (m == AnchorWith(s, p, GreedyNameStart(s, p + 11, hi)).value || TriedBefore(AnchorWith(s, p, GreedyNameStart(s, p + 11, hi)).value, m))
    {
      NameStartInGap(s, p, hi, m);
      AnchorWithCovers(s, p, hi, m);
    }
  }

  /** The match built from the greedy name start in s[p+11..hi] is a match at p. */
  lemma AnchorWithSound(s: string, p: nat, hi: nat)
    requires DateAt(s, p) && p + 10 < hi <= |s| && All(s, p + 10, hi, IsWs)
    ensures AnchorWith(s, p, GreedyNameStart(s, p + 11, hi)).Some? ==> IsAnchorMatch(s, AnchorWith(s, p, GreedyNameStart(s, p + 11, hi)).value) && AnchorWith(s, p, GreedyNameStart(s, p + 11, hi)).value.start == p
  {
  }

  /** A match at p starts its name inside the maximal whitespace run s[p+10..hi], or right after it. */
  lemma NameStartInGap(s: string, p: nat, hi: nat, m: AnchorMatch)
    requires IsAnchorMatch(s, m) && m.start == p
    requires p + 10 < hi <= |s| && (hi == |s| || !IsWs(s[hi]))
    ensures m.nameStart <= hi
  {
  }

  /** Any match m at p whose name starts by hi is the match built from the greedy name start, or is tried after it. */
  lemma AnchorWithCovers(s: string, p: nat, hi: nat, m: AnchorMatch)
    requires IsAnchorMatch(s, m) && m.start == p && m.nameStart <= hi <= |s|
    ensures AnchorWith(s, p, GreedyNameStart(s, p + 11, hi)).Some? && (m == AnchorWith(s, p, GreedyNameStart(s, p + 11, hi)).value || TriedBefore(AnchorWith(s, p, GreedyNameStart(s, p + 11, hi)).value, m))
  {
    MatchParts(s, p, m);
    GreedyCovers(s, p + 11, hi, m.nameStart, m.nameEnd);
    var r := GreedyNameStart(s, p + 11, hi);
    var ns, e := r.value.0, r.value.1;
    var t := TailAt(s, e).value;
    AnchorWithTail(s, p, ns, e, t);
    FirstOrEarlier(m, p, ns, e, t);
  }

  /** A match at p: a date and whitespace come first, its name starts after them, and its tail is the one TailAt finds. */
  lemma MatchParts(s: string, p: nat, m: AnchorMatch)
    requires IsAnchorMatch(s, m) && m.start == p
    ensures DateAt(s, p) && Span(s, p + 10, IsWs) > 0 && p + 11 <= m.nameStart
    ensures TailAt(s, m.nameEnd) == Some((m.gapEnd, m.amountStart, m.amountEnd))
  {
    assert IsWs(s[p + 10]);
  }

  /**
   * A match at p whose name starts no later than ns, and ends no earlier
   * than e when it starts at ns, is the match (p, ns, e, t) or tried after it.
   */
  lemma FirstOrEarlier(m: AnchorMatch, p: nat, ns: nat, e: nat, t: (nat, nat, nat))
    requires m.start == p && ns >= m.nameStart && (ns == m.nameStart ==> e <= m.nameEnd)
    requires e == m.nameEnd ==> t == (m.gapEnd, m.amountStart, m.amountEnd)
    ensures m == AnchorMatch(p, ns, e, t.0, t.1, t.2) || TriedBefore(AnchorMatch(p, ns, e, t.0, t.1, t.2), m)
  {
  }

  /**
   * When a name s[n0..e0] with a tail after it starts between lo and hi, the
   * greedy search finds a start no earlier than n0, and at n0 itself an end
   * no later than e0.
   */
  lemma GreedyCovers(s: string, lo: nat, hi: nat, n0: nat, e0: nat)
    requires hi <= |s| && lo <= n0 <= hi && n0 < e0 <= |s|
    requires All(s, n0, e0, NotNewline) && TailAt(s, e0).Some?
    ensures GreedyNameStart(s, lo, hi).Some?
    ensures GreedyNameStart(s, lo, hi).value.0 >= n0
    ensures GreedyNameStart(s, lo, hi).value.0 == n0 ==> GreedyNameStart(s, lo, hi).value.1 <= e0
  {
    assert NameEnd(s, n0).Some? && NameEnd(s, n0).value <= e0;
  }

  /** The match built from a name s[ns..e] carries the tail after e. */
  lemma AnchorWithTail(s: string, p: nat, ns: nat, e: nat, t: (nat, nat, nat))
    requires e <= |s| && TailAt(s, e) == Some(t)
    ensures AnchorWith(s, p, Some((ns, e))) == Some(AnchorMatch(p, ns, e, t.0, t.1, t.2))
  {
  }
}
