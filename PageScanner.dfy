/**
 * The scan of one page's lines (app.py:203-384): a cursor walks the lines;
 * at each anchor line a contribution record is built from the anchor's
 * groups, the address lines after it and the occupation/employer window,
 * and the cursor jumps past the record.
 */
module PageScanner {
  import opened Wrappers
  import opened Text
  import opened Patterns
  import opened LineClassifier
  import opened AnchorRegex
  import opened AddressParse
  import opened AddressCollector
  import opened AttributeResolver

  /** One row of the output table */
  datatype Contribution = Contribution(
    date: string, name: string, city: string, state: string, zip: string,
    amount: string, occupation: string, employer: string, page: nat)

  /** the cursor looks for the next contribution below min(i + 10, len(lines)) */
  const SkipWindow: nat := 10

  function Max(a: nat, b: nat): nat {
    if a >= b then a else b
  }

  /**
   * Where the cursor goes after the record at i with addressCount address
   * lines: the first line from i + max(1, addressCount + 1) on, below
   * min(i + 10, len), that looks like a contribution; otherwise
   * i + max(1, addressCount + 1).
   */
  function NextCursor(lines: seq<string>, i: nat, addressCount: nat): (r: nat)
    ensures var skip := Max(1, addressCount + 1);
      i + skip <= r
      && (forall j {:trigger AnchorShaped(lines[j])} :: i + skip <= j < r && j < |lines| ==> !AnchorShaped(lines[j]))
      && (r == i + skip || (r < Min(i + SkipWindow, |lines|) && AnchorShaped(lines[r])))
      && ((exists j {:trigger AnchorShaped(lines[j])} :: i + skip <= j < Min(i + SkipWindow, |lines|) && AnchorShaped(lines[j]))
          ==> r < Min(i + SkipWindow, |lines|) && AnchorShaped(lines[r]))
  {
    var skip := Max(1, addressCount + 1);
    var hi := Min(i + SkipWindow, |lines|);
    if i + skip < hi then
      var k := FirstWhere(lines, i + skip, hi, AnchorShaped);
      if k < hi then k else i + skip
    else i + skip
  }

  /** The loop of app.py:374-382, returning skip_amount. */
  method SkipAhead(lines: seq<string>, i: nat, addressCount: nat) returns (skipAmount: nat)
    ensures i + skipAmount == NextCursor(lines, i, addressCount)
  {
    skipAmount := Max(1, addressCount + 1);
    var hi := Min(i + SkipWindow, |lines|);
    var j := i + skipAmount;
    while j < hi
      invariant i + skipAmount <= j
      invariant skipAmount == Max(1, addressCount + 1)
      invariant i + skipAmount < hi ==> j <= hi && forall k {:trigger AnchorShaped(lines[k])} :: i + skipAmount <= k < j ==> !AnchorShaped(lines[k])
    {
      if AnchorShaped(lines[j]) {
        FirstWhereIs(lines, i + skipAmount, hi, AnchorShaped, j);
        skipAmount := j - i;
        return;
      }
      j := j + 1;
    }
    if i + skipAmount < hi {
      FirstWhereIs(lines, i + skipAmount, hi, AnchorShaped, hi);
    }
  }

  /** potential_data_lines of the record at i whose address lines are addressLines (app.py:294-327). */
  function WindowCandidates(lines: seq<string>, i: nat, addressLines: seq<string>): seq<string> {
    var searchStart := i + |addressLines| + 1;
    Candidates(lines, searchStart, SearchEnd(lines, i, searchStart), addressLines)
  }

  /** Occupation and employer chosen from the candidates and cleaned (app.py:329-358). */
  function FieldsOf(candidates: seq<string>): (string, string) {
    var fields := SelectFields(candidates);
    (CleanField(fields.0), CleanField(fields.1))
  }

  /** Occupation and employer of the record at i whose address lines are addressLines (app.py:294-358). */
  function FieldsAt(lines: seq<string>, i: nat, addressLines: seq<string>): (string, string) {
    FieldsOf(WindowCandidates(lines, i, addressLines))
  }

  /** The record built at the anchor line i whose groups are f: the dictionary of app.py:360-371. */
  function RecordAt(lines: seq<string>, i: nat, page: nat, f: AnchorFields): Contribution
    requires i < |lines|
  {
    var addressLines := AddressRun(lines, i);
    var place := PlaceOf(addressLines);
    var fields := FieldsAt(lines, i, addressLines);
    Contribution(f.date, CleanName(f.rawName), place.city, place.state, place.zip,
                 "$" + f.rawAmount, fields.0, fields.1, page)
  }

  /** Where the cursor goes from line i: past the record at an anchor line, else to the next line. */
  function Advance(lines: seq<string>, i: nat): (r: nat)
    requires i < |lines|
    ensures i < r <= |lines| && r <= i + SkipWindow - 1
  {
    if AnchorCaptures(lines[i]).Some? then
      CursorBounds(lines, i);
      NextCursor(lines, i, |AddressRun(lines, i)|)
    else i + 1
  }

  /** After a record the cursor moves forward by 1 to 9 lines and stays within the page. */
  lemma CursorBounds(lines: seq<string>, i: nat)
    requires i < |lines|
    ensures var r := NextCursor(lines, i, |AddressRun(lines, i)|);
      i < r <= |lines| && r <= i + SkipWindow - 1
  {
    AddressRunFacts(lines, i);
  }

  /** The records of the scan from cursor i to the end of the page. */
  function ScanFrom(lines: seq<string>, i: nat, page: nat): seq<Contribution>
    decreases |lines| - i
  {
    if i >= |lines| then []
    else
      var rest := ScanFrom(lines, Advance(lines, i), page);
      match AnchorCaptures(lines[i])
      case Some(f) => [RecordAt(lines, i, page, f)] + rest
      case None => rest
  }

  /** app.py:294-327: the window after the address lines and its candidate lines. */
  method GatherWindow(lines: seq<string>, i: nat, addressLines: seq<string>) returns (potentialDataLines: seq<string>)
    ensures potentialDataLines == WindowCandidates(lines, i, addressLines)
  {
    var searchStart := i + |addressLines| + 1;
    var searchEnd := FindSearchEnd(lines, i, searchStart);
    potentialDataLines := GatherCandidates(lines, searchStart, searchEnd, addressLines);
  }

  /** app.py:329-358: the two fields picked from the candidates and cleaned up. */
  method ResolveFields(potentialDataLines: seq<string>) returns (occupation: string, employer: string)
    ensures (occupation, employer) == FieldsOf(potentialDataLines)
  {
    var fields := SelectFields(potentialDataLines);
    occupation, employer := CleanFields(fields.0, fields.1);
  }

  /** The body of app.py:205-384 at an anchor line: the record and the new cursor. */
  method ParseContribution(lines: seq<string>, i: nat, page: nat, f: AnchorFields) returns (record: Contribution, next: nat)
    requires i < |lines|
    ensures record == RecordAt(lines, i, page, f)
    ensures next == NextCursor(lines, i, |AddressRun(lines, i)|)
  {
    var name := CleanName(f.rawName);
    var amount := "$" + f.rawAmount;
    var addressLines := CollectAddressLines(lines, i);
    var place := PlaceOf(addressLines);
    var potentialDataLines := GatherWindow(lines, i, addressLines);
    var occupation, employer := ResolveFields(potentialDataLines);
    record := Contribution(f.date, name, place.city, place.state, place.zip, amount, occupation, employer, page);
    var skipAmount := SkipAhead(lines, i, |addressLines|);
    next := i + skipAmount;
  }

  /** One step of the scan: the record at line i, if any, then the scan from where the cursor goes. */
  lemma ScanFromStep(lines: seq<string>, i: nat, page: nat)
    requires i < |lines|
    ensures AnchorCaptures(lines[i]).Some? ==>
      ScanFrom(lines, i, page)
      == [RecordAt(lines, i, page, AnchorCaptures(lines[i]).value)]
         + ScanFrom(lines, NextCursor(lines, i, |AddressRun(lines, i)|), page)
    ensures AnchorCaptures(lines[i]).None? ==> ScanFrom(lines, i, page) == ScanFrom(lines, i + 1, page)
  {
  }

  /** One pass of the loop body of app.py:205-384 at cursor i: the records it appends and the new cursor. */
  method ScanStep(lines: seq<string>, i: nat, page: nat) returns (emitted: seq<Contribution>, next: nat)
    requires i < |lines|
    ensures i < next <= |lines| && |emitted| <= 1
    ensures ScanFrom(lines, i, page) == emitted + ScanFrom(lines, next, page)
  {
    var line := lines[i];
    var dateMatch := AnchorCaptures(line);
    if dateMatch.Some? {
      var record;
      record, next := ParseContribution(lines, i, page, dateMatch.value);
      emitted := [record];
      CursorBounds(lines, i);
      ScanFromStep(lines, i, page);
    } else {
      emitted := [];
      next := i + 1;
      ScanFromStep(lines, i, page);
    }
  }

  /** The while loop of app.py:203-384 over one page's lines. */
  method ScanPage(lines: seq<string>, page: nat) returns (records: seq<Contribution>)
    ensures records == ScanFrom(lines, 0, page)
  {
    records := [];
    var i := 0;
    while i < |lines|
      invariant records + ScanFrom(lines, i, page) == ScanFrom(lines, 0, page)
      decreases |lines| - i
    {
      var emitted, next := ScanStep(lines, i, page);
      AppendAssoc(records, emitted, ScanFrom(lines, next, page));
      records := records + emitted;
      i := next;
    }
  }

  /** A cleaned occupation or employer: never empty, trimmed, and not a bare parenthesis. */
  predicate CleanValue(s: string) {
    s != [] && Trimmed(s) && s != "(" && s != ")" && s != "()"
  }

  /** Both fields of every record are clean values. */
  lemma FieldsAtClean(lines: seq<string>, i: nat, addressLines: seq<string>)
    ensures CleanValue(FieldsAt(lines, i, addressLines).0) && CleanValue(FieldsAt(lines, i, addressLines).1)
  {
    var fields := SelectFields(WindowCandidates(lines, i, addressLines));
    CleanFieldFacts(fields.0);
    CleanFieldFacts(fields.1);
  }

  /** The place of a record: state and zip set together, no comma in the city, all "No Data" without address lines. */
  lemma PlaceOfFacts(addressLines: seq<string>)
    ensures var p := PlaceOf(addressLines);
      (p.state == NoData <==> p.zip == NoData) && ',' !in p.city
      && (addressLines == [] ==> p == Place(NoData, NoData, NoData))
  {
  }

  /**
   * The anchor's groups in a record: the date group as it is, the amount
   * group behind a "$", and the name group without its ID segments,
   * stripped; the page number is the one given.
   */
  lemma RecordGroups(lines: seq<string>, i: nat, page: nat)
    requires i < |lines| && AnchorCaptures(lines[i]).Some?
    ensures var f := AnchorCaptures(lines[i]).value;
      var r := RecordAt(lines, i, page, f);
      r.date == f.date && |r.date| == 10 && DateAt(r.date, 0)
      && r.amount == "$" + f.rawAmount && AmountAt(r.amount, 1, |r.amount|)
      && r.name == Strip(RemoveIdSegments(f.rawName)) && Trimmed(r.name)
      && r.page == page
  {
    var f := AnchorCaptures(lines[i]).value;
    assert RecordAt(lines, i, page, f).amount == "$" + f.rawAmount;
    AmountBehindDollar(f.rawAmount);
  }

  /** The place in a record: state and zip set together, no comma in the city, "No Data" when no address line follows. */
  lemma RecordPlace(lines: seq<string>, i: nat, page: nat)
    requires i < |lines| && AnchorCaptures(lines[i]).Some?
    ensures var r := RecordAt(lines, i, page, AnchorCaptures(lines[i]).value);
      (r.state == NoData <==> r.zip == NoData) && ',' !in r.city
      && (AddressRun(lines, i) == [] ==> r.city == NoData && r.state == NoData && r.zip == NoData)
  {
    PlaceOfFacts(AddressRun(lines, i));
  }

  /** The occupation and employer in a record are clean values. */
  lemma RecordFields(lines: seq<string>, i: nat, page: nat)
    requires i < |lines| && AnchorCaptures(lines[i]).Some?
    ensures var r := RecordAt(lines, i, page, AnchorCaptures(lines[i]).value);
      CleanValue(r.occupation) && CleanValue(r.employer)
  {
    FieldsAtClean(lines, i, AddressRun(lines, i));
  }

  /** Putting "$" in front of an amount group shifts its shape by one. */
  lemma AmountBehindDollar(raw: string)
    requires AmountAt(raw, 0, |raw|)
    ensures AmountAt("$" + raw, 1, |"$" + raw|)
  {
    var s := "$" + raw;
    assert forall k :: 1 <= k <= |raw| ==> s[k] == raw[k - 1];
  }

  /** r is the record the scan builds at the anchor line j. */
  predicate BuiltAt(lines: seq<string>, j: nat, page: nat, r: Contribution) {
    j < |lines| && AnchorCaptures(lines[j]).Some?
    && r == RecordAt(lines, j, page, AnchorCaptures(lines[j]).value)
  }

  /** The scan emits at most one record per line. */
  lemma {:induction false} ScanFromLength(lines: seq<string>, i: nat, page: nat)
    requires i <= |lines|
    ensures |ScanFrom(lines, i, page)| <= |lines| - i
    decreases |lines| - i
  {
    if i < |lines| {
      var next := Advance(lines, i);
      ScanFromLength(lines, next, page);
      assert |ScanFrom(lines, i, page)| <= 1 + |ScanFrom(lines, next, page)| by {
        ScanFromStep(lines, i, page);
      }
    }
  }

  lemma {:induction false} ScanFromRecords(lines: seq<string>, i: nat, page: nat)
    ensures forall r :: r in ScanFrom(lines, i, page) ==> exists j :: i <= j && BuiltAt(lines, j, page, r)
    decreases |lines| - i
  {
    if i < |lines| {
      var next := Advance(lines, i);
      ScanFromRecords(lines, next, page);
      var rest := ScanFrom(lines, next, page);
      forall r | r in ScanFrom(lines, i, page)
        ensures exists j :: i <= j && BuiltAt(lines, j, page, r)
      {
        if r !in rest {
          ScanFromStep(lines, i, page);
          assert BuiltAt(lines, i, page, r);
        }
      }
    }
  }

  /** A stretch of lines without anchor lines yields no record. */
  lemma {:induction false} NoAnchorNoRecords(lines: seq<string>, i: nat, page: nat)
    requires forall j :: i <= j < |lines| ==> AnchorCaptures(lines[j]).None?
    ensures ScanFrom(lines, i, page) == []
    decreases |lines| - i
  {
    if i < |lines| {
      ScanFromStep(lines, i, page);
      NoAnchorNoRecords(lines, i + 1, page);
    }
  }
}
