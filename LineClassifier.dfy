/**
 * Line classification (app.py:61-129 and the address tests at app.py:249-263):
 * footer and header noise, the lines skipped when looking for an occupation
 * or employer, and the four shapes of a mailing-address line.
 */
module LineClassifier {
  import opened Text
  import opened Patterns

  /** Footer fragments, matched without regard to case */
  const FooterPatterns: seq<string> := [
    "provided by Texas Ethics Commission",
    "www.ethics.state.tx.us",
    "Version V1.1",
    "Forms provided by",
    "Texas Ethics Commission"
  ]

  /** Column-header fragments of the schedule form, matched case-sensitively */
  const HeaderPatterns: seq<string> := [
    "Full name of contributor",
    "out-of-state PAC",
    "ID#:_________________________",
    "Amount of Contribution ($)",
    "Date",
    "Contributor address",
    "Principal occupation",
    "Job title",
    "See Instructions",
    "Employer",
    "SCHEDULE",
    "MONETARY POLITICAL CONTRIBUTIONS"
  ]

  /** is_footer_text: some footer fragment occurs in the text, ignoring case. */
  predicate IsFooterText(text: string)
    ensures IsFooterText(text) ==> text != []
  {
    text != [] && exists k :: 0 <= k < |FooterPatterns| && Contains(Lower(text), Lower(FooterPatterns[k]))
  }

  /** is_header_text: some header fragment occurs in the text, with its case. */
  predicate IsHeaderText(text: string)
    ensures IsHeaderText(text) ==> text != []
  {
    text != [] && exists k :: 0 <= k < |HeaderPatterns| && Contains(text, HeaderPatterns[k])
  }

  /** should_skip_line: the line is blank, noise, a page marker or looks like part of an address. */
  predicate ShouldSkipLine(text: string)
    ensures Blank(text) ==> ShouldSkipLine(text)
  {
    StripEmptyIff(text);
    text == [] || Strip(text) == []
    || IsFooterText(text) || IsHeaderText(text)
    || IsPageNumber(text) || IsReportStamp(text) || IsPageOf(text)
    || StartsWithStreetNumber(text) || IsCityState(text) || StartsWithStateZip(text)
  }

  /** app.py:250: a comma and a two-letter state followed by a digit ("Austin, TX 78701") */
  predicate HasCommaAndStateDigit(text: string) {
    ',' in text && HasStateDigit(text)
  }

  /** The four address tests of app.py:249-263, in the order the loop tries them. */
  const AddressTests: seq<string -> bool> := [HasCommaAndStateDigit, StartsWithStreetNumber, IsCityState, StartsWithStateZip]

  /** A line is an address line when one of the four tests holds. */
  predicate IsAddressLine(text: string) {
    exists k :: 0 <= k < |AddressTests| && AddressTests[k](text)
  }

  /** The address test is the disjunction of the four patterns. */
  lemma AddressLineIff(text: string)
    ensures IsAddressLine(text) <==>
      HasCommaAndStateDigit(text) || StartsWithStreetNumber(text) || IsCityState(text) || StartsWithStateZip(text)
  {
    if HasCommaAndStateDigit(text) { assert AddressTests[0](text); }
    if StartsWithStreetNumber(text) { assert AddressTests[1](text); }
    if IsCityState(text) { assert AddressTests[2](text); }
    if StartsWithStateZip(text) { assert AddressTests[3](text); }
  }

  predicate NotAddressLine(text: string) { !IsAddressLine(text) }

  /** Equal lower-case forms are classified alike: footer detection ignores case. */
  lemma FooterIgnoresCase(s: string, t: string)
    requires Lower(s) == Lower(t)
    ensures IsFooterText(s) <==> IsFooterText(t)
  {
    assert |s| == |Lower(s)| == |t|;
  }

  /** Header detection keeps case: "Date" is a header line, "date" is not. */
  lemma HeaderKeepsCase()
    ensures IsHeaderText("Date") && !IsHeaderText("date")
  {
    assert OccursAt("Date", HeaderPatterns[4], 0);
    forall k | 0 <= k < |HeaderPatterns|
      ensures !Contains("date", HeaderPatterns[k])
    {
      if k == 4 {
        forall i | 0 <= i <= 4
          ensures !OccursAt("date", "Date", i)
        {
          if i == 0 {
            assert "date"[0] != "Date"[0];
          }
        }
      }
    }
  }

  /** A line that strips to nothing is never an address line, so the blank branch of the address loop acts like a non-address line. */
  lemma BlankIsNotAddress(text: string)
    requires Blank(text)
    ensures !IsAddressLine(text)
  {
    BlankAll(text);
    assert forall c :: IsDigit(c) || IsUpper(c) || IsLetter(c) ==> !IsWs(c);
  }

  /** Apart from the comma test, every address shape is also a line should_skip_line skips. */
  lemma AddressShapesAreSkipped(text: string)
    requires IsAddressLine(text)
    ensures HasCommaAndStateDigit(text) || ShouldSkipLine(text)
  {
  }

  /** The example lines named beside the tests of should_skip_line (app.py:113-126) are all skipped. */
  lemma SkippedExamples(page: string, stamp: string, count: string, street: string, cityState: string, stateZip: string)
    requires page == "1.0" && stamp == "Sch: 1/5 Rpt: 4/23" && count == "3 of 23"
    requires street == "123 Main St" && cityState == "Austin, TX" && stateZip == "TX 77027"
    ensures IsPageNumber(page) && ShouldSkipLine(page)
    ensures IsReportStamp(stamp) && ShouldSkipLine(stamp)
    ensures IsPageOf(count) && ShouldSkipLine(count)
    ensures StartsWithStreetNumber(street) && ShouldSkipLine(street)
    ensures IsCityState(cityState) && ShouldSkipLine(cityState)
    ensures StartsWithStateZip(stateZip) && ShouldSkipLine(stateZip)
  {
    PageNumberExample(page);
    StampExample(stamp);
    CountExample(count);
    StreetExample(street);
    CityStateExample(cityState);
    StateZipExample(stateZip);
  }

  lemma PageNumberExample(page: string)
    requires page == "1.0"
    ensures IsPageNumber(page) && ShouldSkipLine(page)
  {
    assert All(page, 0, 1, IsDigit) && page[1] == '.' && All(page, 2, 3, IsDigit) && EndsAt(page, 3);
  }

  lemma StampExample(stamp: string)
    requires stamp == "Sch: 1/5 Rpt: 4/23"
    ensures IsReportStamp(stamp) && ShouldSkipLine(stamp)
  {
    assert OccursAt(stamp, "Sch:", 0) && OccursAt(stamp, "Rpt:", 9) && All(stamp, 4, 9, NotNewline);
  }

  lemma CountExample(count: string)
    requires count == "3 of 23"
    ensures IsPageOf(count) && ShouldSkipLine(count)
  {
    assert All(count, 0, 1, IsDigit) && OccursAt(count, " of ", 1) && All(count, 5, 7, IsDigit) && EndsAt(count, 7);
  }

  lemma StreetExample(street: string)
    requires street == "123 Main St"
    ensures StartsWithStreetNumber(street) && ShouldSkipLine(street)
  {
    assert All(street, 0, 3, IsDigit) && All(street, 3, 4, IsWs) && IsLetter(street[4]);
  }

  lemma CityStateExample(cityState: string)
    requires cityState == "Austin, TX"
    ensures IsCityState(cityState) && ShouldSkipLine(cityState)
  {
    assert All(cityState, 0, 6, IsLetterOrWs) && cityState[6] == ',' && All(cityState, 7, 8, IsWs);
    assert IsUpper(cityState[8]) && IsUpper(cityState[9]) && EndsAt(cityState, 10);
  }

  lemma StateZipExample(stateZip: string)
    requires stateZip == "TX 77027"
    ensures StartsWithStateZip(stateZip) && ShouldSkipLine(stateZip)
  {
    assert All(stateZip, 2, 3, IsWs) && All(stateZip, 3, 8, IsDigit);
  }
}
