/**
 * The document loop of extract_schedule_a1_from_pdf (app.py:184-397): every
 * page's text is gated on the schedule's title, split into stripped
 * non-empty lines and scanned; the records of all pages are then
 * de-duplicated. A page's text is given as a string, "" standing for a page
 * without text.
 */
module Extraction {
  import opened Text
  import opened AnchorRegex
  import opened PageScanner
  import opened Dedup

  /** The two markers of a Schedule A1 page. */
  const TitleMarker: string := "MONETARY POLITICAL CONTRIBUTIONS"
  const ScheduleMarker: string := "Schedule A1"

  /** app.py:198: the page is scanned when its text mentions either marker. */
  predicate IsSchedulePage(text: string) {
    Contains(text, TitleMarker) || Contains(text, ScheduleMarker)
  }

  /** The stripped pieces of parts that are not empty, in order. */
  function NonEmptyStripped(parts: seq<string>): seq<string>
    decreases |parts|
  {
    if parts == [] then []
    else
      var rest := NonEmptyStripped(parts[1..]);
      if Strip(parts[0]) != [] then [Strip(parts[0])] + rest else rest
  }

  /** app.py:201: [line.strip() for line in text.split('\n') if line.strip()] */
  function PageLines(text: string): seq<string> {
    NonEmptyStripped(SplitOn(text, '\n'))
  }

  /** Every kept line is non-empty, has no surrounding white space and is not blank. */
  lemma {:induction false} NonEmptyStrippedFacts(parts: seq<string>)
    ensures forall k :: 0 <= k < |NonEmptyStripped(parts)| ==>
      NonEmptyStripped(parts)[k] != [] && Trimmed(NonEmptyStripped(parts)[k]) && !Blank(NonEmptyStripped(parts)[k])
    ensures |NonEmptyStripped(parts)| <= |parts|
    decreases |parts|
  {
    if parts != [] {
      NonEmptyStrippedFacts(parts[1..]);
      StripEmptyIff(parts[0]);
      var line := Strip(parts[0]);
      if line != [] {
        assert !Blank(line) by {
          StripOfStripped(line);
          StripEmptyIff(line);
        }
      }
    }
  }

  /**
   * A line of a page is never empty, never blank and never starts or ends
   * with white space, so the blank-line branch of the address loop
   * (app.py:240-244) is never taken on a page's lines.
   */
  lemma PageLinesFacts(text: string)
    ensures forall k :: 0 <= k < |PageLines(text)| ==>
      PageLines(text)[k] != [] && Trimmed(PageLines(text)[k]) && !Blank(PageLines(text)[k])
  {
    NonEmptyStrippedFacts(SplitOn(text, '\n'));
  }

  /** The records of page number pageNum (counted from 0) whose text is text. */
  function PageRecords(text: string, pageNum: nat): seq<Contribution> {
    if text == [] then []
    else if IsSchedulePage(text) then ScanFrom(PageLines(text), 0, pageNum + 1)
    else []
  }

  /** all_contributions after the pages of the document, before de-duplication. */
  function AllRecords(pages: seq<string>): seq<Contribution>
    decreases |pages|
  {
    if pages == [] then []
    else AllRecords(pages[..|pages| - 1]) + PageRecords(pages[|pages| - 1], |pages| - 1)
  }

  /** The page loop of app.py:184-384: for each page with text, the gate, the lines and the scan. */
  method CollectRecords(pages: seq<string>) returns (allContributions: seq<Contribution>)
    ensures allContributions == AllRecords(pages)
  {
    allContributions := [];
    for pageNum := 0 to |pages|
      invariant allContributions == AllRecords(pages[..pageNum])
    {
      var text := pages[pageNum];
      assert pages[..pageNum + 1][..pageNum] == pages[..pageNum];
      if text != [] && IsSchedulePage(text) {
        var lines := PageLines(text);
        var records := ScanPage(lines, pageNum + 1);
        allContributions := allContributions + records;
      }
    }
    assert pages[..|pages|] == pages;
  }

  /** extract_schedule_a1_from_pdf on a document whose pages' texts are pages. */
  method ExtractSchedule(pages: seq<string>) returns (uniqueContributions: seq<Contribution>)
    ensures uniqueContributions == Unique(AllRecords(pages))
  {
    var allContributions := CollectRecords(pages);
    uniqueContributions := Deduplicate(allContributions);
  }

  /** A page without either marker contributes nothing, whatever its lines. */
  lemma OtherPagesIgnored(text: string, pageNum: nat)
    requires !IsSchedulePage(text)
    ensures PageRecords(text, pageNum) == []
  {
  }

  /** Every record of a page carries that page's number counted from 1, and the page passed the gate. */
  lemma PageRecordsPage(text: string, pageNum: nat)
    ensures forall r :: r in PageRecords(text, pageNum) ==> r.page == pageNum + 1
    ensures PageRecords(text, pageNum) != [] ==> IsSchedulePage(text)
  {
    if text != [] && IsSchedulePage(text) {
      var lines := PageLines(text);
      ScanFromRecords(lines, 0, pageNum + 1);
      forall r | r in PageRecords(text, pageNum)
        ensures r.page == pageNum + 1
      {
        var j :| 0 <= j && BuiltAt(lines, j, pageNum + 1, r);
      }
    }
  }

  /** The page a record of the document comes from: r is a record of page k. */
  lemma {:induction false} PageOf(pages: seq<string>, r: Contribution) returns (k: nat)
    requires r in AllRecords(pages)
    ensures k < |pages| && r in PageRecords(pages[k], k)
    decreases |pages|
  {
    var last := |pages| - 1;
    var init := pages[..last];
    if r in AllRecords(init) {
      k := PageOf(init, r);
      assert init[k] == pages[k];
    } else {
      k := last;
    }
  }

  /**
   * Every record of the document comes from a page that passed the gate,
   * and its page number is the page's position counted from 1.
   */
  lemma AllRecordsPages(pages: seq<string>)
    ensures forall r :: r in AllRecords(pages) ==>
      1 <= r.page <= |pages| && IsSchedulePage(pages[r.page - 1])
  {
    forall r | r in AllRecords(pages)
      ensures 1 <= r.page <= |pages| && IsSchedulePage(pages[r.page - 1])
    {
      var k := PageOf(pages, r);
      RecordOfPage(pages, k, r);
    }
  }

  /** A record of page k carries the number k + 1, and page k passed the gate. */
  lemma RecordOfPage(pages: seq<string>, k: nat, r: Contribution)
    requires k < |pages| && r in PageRecords(pages[k], k)
    ensures 1 <= r.page <= |pages| && IsSchedulePage(pages[r.page - 1])
  {
    PageRecordsPage(pages[k], k);
    assert r.page - 1 == k;
  }

  /** A document without a schedule page yields no record. */
  lemma {:induction false} NoSchedulePageNoRecords(pages: seq<string>)
    requires forall k :: 0 <= k < |pages| ==> !IsSchedulePage(pages[k])
    ensures AllRecords(pages) == [] && Unique(AllRecords(pages)) == []
    decreases |pages|
  {
    if pages != [] {
      var init := pages[..|pages| - 1];
      assert forall k :: 0 <= k < |init| ==> init[k] == pages[k];
      NoSchedulePageNoRecords(init);
      OtherPagesIgnored(pages[|pages| - 1], |pages| - 1);
    }
  }

  /**
   * What the extractor returns: records of schedule pages only, numbered by
   * their page, no two with the same date, name and amount, and every key
   * of the document's records still present.
   */
  lemma ExtractedRecords(pages: seq<string>)
    ensures forall t :: 0 <= t < |Unique(AllRecords(pages))| ==>
      var r := Unique(AllRecords(pages))[t];
      r in AllRecords(pages) && 1 <= r.page <= |pages| && IsSchedulePage(pages[r.page - 1])
    ensures forall s, t :: 0 <= s < t < |Unique(AllRecords(pages))| ==>
      KeyOf(Unique(AllRecords(pages))[s]) != KeyOf(Unique(AllRecords(pages))[t])
    ensures KeySet(Unique(AllRecords(pages))) == KeySet(AllRecords(pages))
  {
    var all := AllRecords(pages);
    AllRecordsPages(pages);
    KeptIndicesFacts(all);
    UniqueDistinct(all);
    UniqueKeys(all);
  }
}
