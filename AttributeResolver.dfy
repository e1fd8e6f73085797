/**
 * Occupation and employer of a contribution (app.py:293-358): the window of
 * lines after the address, cut short at the next line that looks like a
 * contribution; the candidate lines in it; how one or two candidates become
 * the two fields; and the removal of column-header fragments.
 */
module AttributeResolver {
  import opened Text
  import opened Patterns
  import opened LineClassifier
  import opened AddressParse

  /** search_end starts as min(i + 15, len(lines)) */
  const DataWindow: nat := 15

  /** the next contribution is looked for up to min(i + 20, len(lines)) */
  const NextAnchorWindow: nat := 20

  function Min(a: nat, b: nat): nat {
    if a <= b then a else b
  }

  /**
   * search_end: min(i + 15, len) lowered to the first line from searchStart
   * on, below min(i + 20, len), that looks like the next contribution.
   */
  function SearchEnd(lines: seq<string>, i: nat, searchStart: nat): (r: nat)
    ensures r <= i + DataWindow && r <= |lines|
    ensures forall j {:trigger AnchorShaped(lines[j])} :: searchStart <= j < r ==> !AnchorShaped(lines[j])
    ensures r < Min(i + DataWindow, |lines|) ==> searchStart <= r && AnchorShaped(lines[r])
  {
    var base := Min(i + DataWindow, |lines|);
    var hi := Min(i + NextAnchorWindow, |lines|);
    if searchStart < hi then
      var k := FirstWhere(lines, searchStart, hi, AnchorShaped);
      if k < hi then Min(base, k) else base
    else base
  }

  /** The loop of app.py:298-303, which stops at the first next-contribution line. */
  method FindSearchEnd(lines: seq<string>, i: nat, searchStart: nat) returns (searchEnd: nat)
    ensures searchEnd == SearchEnd(lines, i, searchStart)
  {
    searchEnd := Min(i + DataWindow, |lines|);
    var hi := Min(i + NextAnchorWindow, |lines|);
    var j := searchStart;
    while j < hi
      invariant searchStart <= j
      invariant searchStart < hi ==> j <= hi && forall k {:trigger AnchorShaped(lines[k])} :: searchStart <= k < j ==> !AnchorShaped(lines[k])
      invariant searchEnd == Min(i + DataWindow, |lines|)
    {
      if AnchorShaped(lines[j]) {
        FirstWhereIs(lines, searchStart, hi, AnchorShaped, j);
        searchEnd := Min(searchEnd, j);
        return;
      }
      j := j + 1;
    }
    if searchStart < hi {
      FirstWhereIs(lines, searchStart, hi, AnchorShaped, hi);
    }
  }

  /** The four filters of app.py:310-325: the line is kept as a possible occupation or employer. */
  predicate IsCandidate(text: string, addressLines: seq<string>) {
    !ShouldSkipLine(text)
    && !(addressLines != [] && text in addressLines)
    && !(HasDate(text) && HasDecimal(text))
    && !HasCommaAndStateDigit(text)
  }

  /** The lines of [lo, hi) that satisfy keep, in order. */
  function Filter(lines: seq<string>, lo: nat, hi: nat, keep: string -> bool): seq<string>
    requires hi <= |lines|
    decreases hi
  {
    if hi <= lo then []
    else Filter(lines, lo, hi - 1, keep) + (if keep(lines[hi - 1]) then [lines[hi - 1]] else [])
  }

  /** A line is kept exactly when it satisfies keep and sits in [lo, hi). */
  lemma {:induction false} FilterMembers(lines: seq<string>, lo: nat, hi: nat, keep: string -> bool, text: string)
    requires hi <= |lines|
    ensures text in Filter(lines, lo, hi, keep) <==> keep(text) && exists j :: lo <= j < hi && lines[j] == text
    decreases hi
  {
    if hi > lo {
      FilterMembers(lines, lo, hi - 1, keep, text);
      if keep(text) && (exists j :: lo <= j < hi && lines[j] == text) {
        var j :| lo <= j < hi && lines[j] == text;
        if j < hi - 1 {
          assert lo <= j < hi - 1 && lines[j] == text;
        }
      }
    }
  }

  /** The four filters as one test. */
  function KeepCandidate(addressLines: seq<string>): string -> bool {
    text => IsCandidate(text, addressLines)
  }

  /** potential_data_lines: the lines of [lo, hi) that pass the filters, in order. */
  function Candidates(lines: seq<string>, lo: nat, hi: nat, addressLines: seq<string>): seq<string>
    requires hi <= |lines|
  {
    Filter(lines, lo, hi, KeepCandidate(addressLines))
  }

  /** A line is a candidate exactly when it passes the filters and sits in the window. */
  lemma CandidatesMembers(lines: seq<string>, lo: nat, hi: nat, addressLines: seq<string>, text: string)
    requires hi <= |lines|
    ensures text in Candidates(lines, lo, hi, addressLines) <==>
      IsCandidate(text, addressLines) && exists j :: lo <= j < hi && lines[j] == text
  {
    FilterMembers(lines, lo, hi, KeepCandidate(addressLines), text);
  }

  /** The body of the loop of app.py:306-327: each filter that rejects the line moves on to the next one. */
  method KeepLine(testLine: string, addressLines: seq<string>) returns (keep: bool)
    ensures keep == IsCandidate(testLine, addressLines)
  {
    if ShouldSkipLine(testLine) {
      return false;
    }
    if addressLines != [] && testLine in addressLines {
      return false;
    }
    if HasDate(testLine) && HasDecimal(testLine) {
      return false;
    }
    if ',' in testLine && HasStateDigit(testLine) {
      return false;
    }
    return true;
  }

  /** The loop of app.py:306-327. */
  method GatherCandidates(lines: seq<string>, searchStart: nat, searchEnd: nat, addressLines: seq<string>)
    returns (potentialDataLines: seq<string>)
    requires searchEnd <= |lines|
    ensures potentialDataLines == Candidates(lines, searchStart, searchEnd, addressLines)
  {
    potentialDataLines := [];
    var j := searchStart;
    while j < searchEnd
      invariant searchStart <= j
      invariant searchStart < searchEnd ==> j <= searchEnd && potentialDataLines == Candidates(lines, searchStart, j, addressLines)
      invariant searchStart >= searchEnd ==> potentialDataLines == []
    {
      var testLine := lines[j];
      var keep := KeepLine(testLine, addressLines);
      if keep {
        potentialDataLines := potentialDataLines + [testLine];
      }
      j := j + 1;
    }
  }

  /** No address-shaped line ever becomes a candidate. */
  lemma AddressLineNeverCandidate(text: string, addressLines: seq<string>)
    requires IsAddressLine(text)
    ensures !IsCandidate(text, addressLines)
  {
    AddressShapesAreSkipped(text);
  }

  /**
   * The membership test of app.py:316 never decides anything: when every
   * collected line is an address line, dropping it keeps the same candidates.
   */
  lemma MembershipTestRedundant(text: string, addressLines: seq<string>)
    requires forall k :: 0 <= k < |addressLines| ==> IsAddressLine(addressLines[k])
    ensures IsCandidate(text, addressLines) <==> IsCandidate(text, [])
  {
    if text in addressLines {
      AddressShapesAreSkipped(text);
    }
  }

  /** Occupation and employer before clean-up (app.py:329-342). */
  function SelectFields(candidates: seq<string>): (string, string) {
    if |candidates| == 1 then
      var dataLine := candidates[0];
      if ' ' in dataLine then
        var parts := SplitOnce(dataLine);
        if |parts| == 2 then (parts[0], parts[1]) else (NoData, NoData)
      else (dataLine, NoData)
    else if |candidates| >= 2 then (candidates[0], candidates[1])
    else (NoData, NoData)
  }

  /**
   * No candidate leaves both fields "No Data"; two or more give the first
   * two lines; a single trimmed line with a space is cut at its first
   * whitespace run into a one-word occupation and the employer; one without
   * a space is the occupation alone.
   */
  lemma SelectFieldsCases(candidates: seq<string>)
    ensures candidates == [] ==> SelectFields(candidates) == (NoData, NoData)
    ensures |candidates| >= 2 ==> SelectFields(candidates) == (candidates[0], candidates[1])
    ensures |candidates| == 1 && ' ' !in candidates[0] ==> SelectFields(candidates) == (candidates[0], NoData)
    ensures |candidates| == 1 && ' ' in candidates[0] && Trimmed(candidates[0]) ==>
      var (occupation, employer) := SelectFields(candidates);
      occupation != [] && employer != [] && All(occupation, 0, |occupation|, NotWs)
      && exists b :: |occupation| < b < |candidates[0]| && All(candidates[0], |occupation|, b, IsWs)
                     && !IsWs(candidates[0][b]) && candidates[0] == occupation + candidates[0][|occupation|..b] + employer
  {
    if |candidates| == 1 && ' ' in candidates[0] && Trimmed(candidates[0]) {
      SplitOnceAtSpace(candidates[0]);
    }
  }

  /** The header-pattern loop of app.py:345-349 for one field: each pattern removed, then stripped, while the field is non-empty. */
  function StripHeaders(field: string, patterns: seq<string>): string
    requires forall k :: 0 <= k < |patterns| ==> patterns[k] != []
    decreases |patterns|
  {
    if patterns == [] then field
    else StripHeaders(if field != [] then Strip(RemoveAll(field, patterns[0])) else field, patterns[1..])
  }

  /** app.py:351-358: "(", ")", "()" and "" become "No Data". */
  function Finalize(field: string): string {
    if field in ["()", "(", ")", NoData] || field == [] then NoData else field
  }

  lemma HeaderPatternsNonEmpty()
    ensures forall k :: 0 <= k < |HeaderPatterns| ==> HeaderPatterns[k] != []
  {
  }

  /** The final value of one field. */
  function CleanField(field: string): string {
    HeaderPatternsNonEmpty();
    Finalize(StripHeaders(field, HeaderPatterns))
  }

  /** Once stripped by the first pattern, the field stays trimmed. */
  lemma {:induction false} StripHeadersTrimmed(field: string, patterns: seq<string>)
    requires forall k :: 0 <= k < |patterns| ==> patterns[k] != []
    requires patterns != [] || Trimmed(field)
    ensures Trimmed(StripHeaders(field, patterns))
    decreases |patterns|
  {
    if patterns != [] {
      var next := if field != [] then Strip(RemoveAll(field, patterns[0])) else field;
      StripHeadersTrimmed(next, patterns[1..]);
    }
  }

  /** Every recorded occupation and employer is non-empty, trimmed, and none of "(", ")", "()". */
  lemma CleanFieldFacts(field: string)
    ensures var r := CleanField(field);
      r != [] && Trimmed(r) && r != "(" && r != ")" && r != "()"
  {
    HeaderPatternsNonEmpty();
    StripHeadersTrimmed(field, HeaderPatterns);
    FinalizeFacts(StripHeaders(field, HeaderPatterns));
  }

  lemma FinalizeFacts(field: string)
    requires Trimmed(field)
    ensures var r := Finalize(field);
      r != [] && Trimmed(r) && r != "(" && r != ")" && r != "()"
  {
    assert Trimmed(NoData);
  }

  /** A field still at "No Data" goes through clean-up unchanged: no header fragment occurs in it. */
  lemma CleanFieldKeepsNoData(field: string)
    requires field == NoData
    ensures CleanField(field) == field
  {
    HeaderPatternsNonEmpty();
    NoDataFreeOfHeaders();
    assert Trimmed(field);
    AbsentHeadersKept(field, HeaderPatterns);
    FinalizeKeepsNoData(field);
  }

  lemma FinalizeKeepsNoData(field: string)
    requires field == NoData
    ensures Finalize(field) == field
  {
  }

  /** Of the header fragments only "Date" is short enough to fit in "No Data", and it does not occur there. */
  lemma NoDataFreeOfHeaders()
    ensures forall k :: 0 <= k < |HeaderPatterns| ==> !Contains(NoData, HeaderPatterns[k])
  {
    forall k | 0 <= k < |HeaderPatterns|
      ensures !Contains(NoData, HeaderPatterns[k])
    {
      if k == 4 {
        forall i | 0 <= i <= |NoData|
          ensures !OccursAt(NoData, "Date", i)
        {
          if i + 4 <= 7 {
            assert NoData[i] != 'D' || NoData[i + 3] != 'e';
          }
        }
      }
    }
  }

  /** A trimmed field in which no pattern occurs comes through the pattern loop unchanged. */
  lemma {:induction false} AbsentHeadersKept(field: string, patterns: seq<string>)
    requires forall k :: 0 <= k < |patterns| ==> patterns[k] != [] && !Contains(field, patterns[k])
    requires Trimmed(field)
    ensures StripHeaders(field, patterns) == field
    decreases |patterns|
  {
    if patterns != [] {
      RemoveAllAbsent(field, patterns[0]);
      StripOfStripped(field);
      AbsentHeadersKept(field, patterns[1..]);
    }
  }

  /** The clean-up loop of app.py:345-358, run over both fields together. */
  method CleanFields(occupation: string, employer: string) returns (occ: string, emp: string)
    ensures occ == CleanField(occupation) && emp == CleanField(employer)
  {
    HeaderPatternsNonEmpty();
    occ, emp := StripBoth(occupation, employer, HeaderPatterns);
    if occ in ["()", "(", ")", NoData] {
      occ := NoData;
    }
    if emp in ["()", "(", ")", NoData] {
      emp := NoData;
    }
    if occ == [] {
      occ := NoData;
    }
    if emp == [] {
      emp := NoData;
    }
  }

  /** The pattern loop of app.py:345-349: one pass over the patterns, each removed from both non-empty fields. */
  method StripBoth(occupation: string, employer: string, patterns: seq<string>) returns (occ: string, emp: string)
    requires forall k :: 0 <= k < |patterns| ==> patterns[k] != []
    ensures occ == StripHeaders(occupation, patterns) && emp == StripHeaders(employer, patterns)
  {
    occ, emp := occupation, employer;
    for k := 0 to |patterns|
      invariant StripHeaders(occ, patterns[k..]) == StripHeaders(occupation, patterns)
      invariant StripHeaders(emp, patterns[k..]) == StripHeaders(employer, patterns)
    {
      var pattern := patterns[k];
      assert patterns[k..][1..] == patterns[k + 1..];
      if occ != [] {
        occ := Strip(RemoveAll(occ, pattern));
      }
      if emp != [] {
        emp := Strip(RemoveAll(emp, pattern));
      }
    }
    assert patterns[|patterns|..] == [];
  }
}
