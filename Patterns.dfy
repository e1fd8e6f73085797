/**
 * The regular expressions app.py only tests for a match (re.match anchored at
 * the start, or re.search anywhere in the line), each written as the
 * existence of the positions at which its parts would match.
 */
module Patterns {
  import opened Text

  /** Python's `$` without MULTILINE: the end of the string, or just before a final line feed. */
  predicate EndsAt(s: string, e: nat) {
    e == |s| || (e + 1 == |s| && s[e] == '\n')
  }

  /** `\d{2}/\d{2}/\d{4}` matches s[p..p+10]. */
  predicate DateAt(s: string, p: nat) {
    p + 10 <= |s|
    && IsDigit(s[p]) && IsDigit(s[p + 1]) && s[p + 2] == '/'
    && IsDigit(s[p + 3]) && IsDigit(s[p + 4]) && s[p + 5] == '/'
    && IsDigit(s[p + 6]) && IsDigit(s[p + 7]) && IsDigit(s[p + 8]) && IsDigit(s[p + 9])
  }

  /** `\d\.\d{2}` matches s[j..j+4]: where `\d+\.\d{2}` can end its digit run. */
  predicate DecimalAt(s: string, j: nat) {
    j + 4 <= |s| && IsDigit(s[j]) && s[j + 1] == '.' && IsDigit(s[j + 2]) && IsDigit(s[j + 3])
  }

  /** re.search(r'\d{2}/\d{2}/\d{4}', s) */
  predicate HasDate(s: string) {
    exists p :: 0 <= p <= |s| && DateAt(s, p)
  }

  /** re.search(r'\d+\.\d{2}', s); a longer digit run before the point changes nothing. */
  predicate HasDecimal(s: string) {
    exists j :: 0 <= j <= |s| && DecimalAt(s, j)
  }

  /**
   * re.search(r'\d{2}/\d{2}/\d{4}\s+.*?\d+\.\d{2}', s): a date, whitespace up
   * to w, then anything but a line feed up to the digit at j that ends a
   * `\d+` followed by `.` and two digits.
   */
  predicate AnchorShaped(s: string) {
    exists p, w, j :: 0 <= p <= |s| && 0 <= w <= j <= |s|
      && DateAt(s, p) && p + 10 < w && All(s, p + 10, w, IsWs)
      && All(s, w, j, NotNewline) && DecimalAt(s, j)
  }

  /** re.search(r'[A-Z]{2}\s+\d', s) */
  predicate HasStateDigit(s: string) {
    exists p, q :: 0 <= p <= |s| && 0 <= q < |s|
      && p + 2 < q && IsUpper(s[p]) && IsUpper(s[p + 1]) && All(s, p + 2, q, IsWs) && IsDigit(s[q])
  }

  /** re.match(r'^\d+\.\d+$', s): a page number such as "1.0" */
  predicate IsPageNumber(s: string) {
    exists k, e :: 0 < k <= |s| && 0 <= e <= |s|
      && k + 1 < e && All(s, 0, k, IsDigit) && s[k] == '.' && All(s, k + 1, e, IsDigit) && EndsAt(s, e)
  }

  /** re.match(r'^Sch:.*Rpt:', s): a report stamp such as "Sch: 1/5 Rpt: 4/23" */
  predicate IsReportStamp(s: string) {
    OccursAt(s, "Sch:", 0)
    && exists j :: 4 <= j <= |s| && OccursAt(s, "Rpt:", j) && All(s, 4, j, NotNewline)
  }

  /** re.match(r'^\d+ of \d+$', s): a page count such as "3 of 23" */
  predicate IsPageOf(s: string) {
    exists k, e :: 0 < k <= |s| && 0 <= e <= |s|
      && k + 4 < e && All(s, 0, k, IsDigit) && OccursAt(s, " of ", k) && All(s, k + 4, e, IsDigit) && EndsAt(s, e)
  }

  /** re.match(r'^\d+\s+[A-Za-z]', s): a street line such as "123 Main St" */
  predicate StartsWithStreetNumber(s: string) {
    exists k, w :: 0 < k < w < |s| && All(s, 0, k, IsDigit) && All(s, k, w, IsWs) && IsLetter(s[w])
  }

  /** re.match(r'^[A-Za-z\s]+,\s*[A-Z]{2}$', s): "City, ST" without a zip code */
  predicate IsCityState(s: string) {
    exists k, w :: 0 < k < w && w + 2 <= |s|
      && All(s, 0, k, IsLetterOrWs) && s[k] == ',' && All(s, k + 1, w, IsWs)
      && IsUpper(s[w]) && IsUpper(s[w + 1]) && EndsAt(s, w + 2)
  }

  /** re.match(r'^[A-Z]{2}\s+\d{5}', s): "ST 12345" at the start of a line */
  predicate StartsWithStateZip(s: string) {
    exists w :: 2 < w <= |s| && IsUpper(s[0]) && IsUpper(s[1]) && All(s, 2, w, IsWs) && All(s, w, w + 5, IsDigit)
  }
}
