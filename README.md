# Schedule A1 contribution parser — a Dafny model

This project models the parser at the heart of the Texas Ethics PDF
Extractor (`app.py`). The parser reads the text of each page of a
campaign-finance report and returns the rows of Schedule A1, "Monetary
Political Contributions". It covers:

- **Line classification**: footer and header fragments, lines that are
  skipped when looking for an occupation or employer, and the four shapes
  of an address line (`LineClassifier`, `Patterns`).
- **The anchor line**: a date, a contributor name and an amount found on
  one line by a regular expression. The model gives the capture groups
  Python's backtracking engine reports, and the removal of `(ID#:…)`
  segments from the name (`AnchorRegex`).
- **Address collection**: up to five address lines after the anchor, and
  the city, state and zip parsed out of them (`AddressCollector`,
  `AddressParse`).
- **Occupation and employer**: the search window, cut short at the next
  contribution-like line; its candidate lines; the choice between one and
  two candidates; and the removal of header fragments
  (`AttributeResolver`).
- **The page scan**: a cursor loop that emits one record per anchor and
  skips ahead past it (`PageScanner`).
- **The document**: the page gate, the line split, the loop over the
  pages, and de-duplication on (Date, Contributor Name, Amount)
  (`Extraction`, `Dedup`).

The source's loops are Dafny methods with loop invariants:

- the address loop;
- the window search;
- the candidate filter;
- the header clean-up;
- the skip-ahead loop;
- the page loop;
- the document loop;
- the seen-set de-duplication.

Each method is proved equal to a specification function. The lemmas about
those functions state what the parser promises.

### How the regular expressions are modelled

- A pattern used only to decide whether a line matches is the existence of the
  positions where its parts match.
- A pattern whose groups are read (`app.py:210` and `app.py:277`) has three
  parts:
  - a predicate saying what a match is;
  - a search function;
  - lemmas proving that the search returns the match Python reports: it
    is a match, it is the leftmost one, and at that position it is the one
    the greedy and lazy quantifiers try first.
- `\s` is the set of characters `str.isspace` accepts; `str.strip` and
  `str.split` use the same set.
- `.` excludes the line feed.
- `$` matches at the end of the string or just before a final line feed.

## Model

| member | source | states |
|---|---|---|
| LineClassifier.IsFooterText | app.py:86-94 | a footer match needs a non-empty text |
| LineClassifier.FooterIgnoresCase | app.py:86-94 | two texts with the same lower-case form are both footers or both not |
| LineClassifier.IsHeaderText | app.py:96-103 | a header match needs a non-empty text |
| LineClassifier.HeaderKeepsCase | app.py:96-103 | "Date" is a header line and "date" is not: header fragments are matched with their case |
| LineClassifier.ShouldSkipLine | app.py:105-129 | every empty or whitespace-only line is skipped |
| LineClassifier.SkippedExamples | app.py:113-126 | the example lines named in should_skip_line ("1.0", "Sch: 1/5 Rpt: 4/23", "3 of 23", "123 Main St", "Austin, TX", "TX 77027") each match their pattern and are skipped |
| LineClassifier.AddressLineIff | app.py:249-263 | a line is an address line exactly when one of the four address patterns matches it |
| LineClassifier.BlankIsNotAddress | app.py:240-263 | a blank line matches none of the four address patterns |
| LineClassifier.AddressShapesAreSkipped | app.py:250-262 | an address line either has a comma and a state followed by a digit, or is a line should_skip_line skips |
| LineClassifier.HasCommaAndStateDigit | app.py:250 | pattern 1 of the address tests: a comma somewhere and `[A-Z]{2}\s+\d` somewhere in the line |
| LineClassifier.IsAddressLine | app.py:247-263 | the elif chain of the four address tests as one test: some test of the list holds |
| LineClassifier.PageNumberExample | app.py:113 | "1.0" matches `^\d+\.\d+$` and is skipped |
| LineClassifier.StampExample | app.py:115 | "Sch: 1/5 Rpt: 4/23" matches `^Sch:.*Rpt:` and is skipped |
| LineClassifier.CountExample | app.py:117 | "3 of 23" matches `^\d+ of \d+$` and is skipped |
| LineClassifier.StreetExample | app.py:122 | "123 Main St" matches `^\d+\s+[A-Za-z]` and is skipped |
| LineClassifier.CityStateExample | app.py:124 | "Austin, TX" matches `^[A-Za-z\s]+,\s*[A-Z]{2}$` and is skipped |
| LineClassifier.StateZipExample | app.py:126 | "TX 77027" matches `^[A-Z]{2}\s+\d{5}` and is skipped |
| Patterns.EndsAt | app.py:113 | `$` without MULTILINE: the end of the string or the position just before a final line feed |
| Patterns.DateAt | app.py:210 | `\d{2}/\d{2}/\d{4}` matches the ten characters from a position |
| Patterns.DecimalAt | app.py:320 | `\d\.\d{2}` matches four characters from a position, the only part of `\d+\.\d{2}` a search needs |
| Patterns.HasDate | app.py:320 | `re.search(r'\d{2}/\d{2}/\d{4}', line)` finds a match |
| Patterns.HasDecimal | app.py:320 | `re.search(r'\d+\.\d{2}', line)` finds a match |
| Patterns.AnchorShaped | app.py:301 | the next-contribution test (also app.py:378): a date, a whitespace run, then characters other than a line feed up to `\d+\.\d{2}` |
| Patterns.HasStateDigit | app.py:250 | `re.search(r'[A-Z]{2}\s+\d', line)` finds a match |
| Patterns.IsPageNumber | app.py:113 | `re.match(r'^\d+\.\d+$', text)` succeeds |
| Patterns.IsReportStamp | app.py:115 | `re.match(r'^Sch:.*Rpt:', text)` succeeds, with no line feed between the two markers |
| Patterns.IsPageOf | app.py:117 | `re.match(r'^\d+ of \d+$', text)` succeeds |
| Patterns.StartsWithStreetNumber | app.py:122 | `re.match(r'^\d+\s+[A-Za-z]', text)` succeeds (also app.py:254) |
| Patterns.IsCityState | app.py:124 | `re.match(r'^[A-Za-z\s]+,\s*[A-Z]{2}$', text)` succeeds (also app.py:258) |
| Patterns.StartsWithStateZip | app.py:126 | `re.match(r'^[A-Z]{2}\s+\d{5}', text)` succeeds (also app.py:262) |
| AnchorRegex.TailAt | app.py:210 | after a name ending at e, `\s+\$?([\d,]+\.\d{2})` matches in at most one way, and TailAt returns it when it exists |
| AnchorRegex.NameEnd | app.py:210 | the lazy `(.+?)` ends at the first position, with no line feed before it, where the tail matches |
| AnchorRegex.GreedyNameStart | app.py:210 | the greedy `\s+` gives the latest name start for which some name end works |
| AnchorRegex.AnchorSearch | app.py:210 | the search returns a match that every other match is tried after (leftmost, then longest `\s+`, then shortest name), or None when there is no match |
| AnchorRegex.AnchorCaptures | app.py:210-215 | group 1 is a 10-character `dd/dd/dddd` date, group 2 is non-empty, and group 3 is `[\d,]+\.\d{2}`; there are no groups exactly when the search fails |
| AnchorRegex.AnchorMatchIsShaped | app.py:301 | the next-contribution test of app.py:301 and app.py:378 accepts every line without a line feed that has an anchor match (app.py:210) whose amount has a digit before the point |
| AnchorRegex.CommaAmountNotShaped | app.py:301 | "01/02/2024 Bob ,.00" matches the anchor pattern of app.py:210 but fails the next-contribution test of app.py:301 and app.py:378 |
| AnchorRegex.CommaAmountLaterDecimal | app.py:301 | "01/02/2024 Bob ,.00 1.23" has the same anchor match, with amount group ",.00", and still passes the next-contribution test of app.py:301 and app.py:378 through the later "1.23" |
| AnchorRegex.RemoveIdSegments | app.py:219 | removing `(ID#:…)` segments never lengthens the name; RemoveIdSegmentsAbsent, RemoveIdSegmentsPrefix, RemoveIdSegmentsLeading and RemoveIdSegmentsNoClose fix the result on every name without a line feed: text in which no "(ID#:" starts is kept, a segment up to its first ")" is dropped, and a name with no ")" is kept whole |
| AnchorRegex.RemoveIdSegmentsAbsent | app.py:219 | a name without "(ID#:" is left unchanged |
| AnchorRegex.RemoveIdSegmentsLeading | app.py:219 | a leading "(ID#:…)" segment, up to its first ")", is removed whole and the rest is processed |
| AnchorRegex.CleanName | app.py:219 | the cleaned name has no surrounding whitespace and is no longer than the captured group |
| AnchorRegex.AmountAt | app.py:210 | group 3, `[\d,]+\.\d{2}`, matches a given slice exactly |
| AnchorRegex.IsTail | app.py:210 | `\s+\$?([\d,]+\.\d{2})` matches from a name end, with its whitespace run, optional "$" and group |
| AnchorRegex.IsAnchorMatch | app.py:210 | a match of the whole anchor pattern: date, `\s+`, a name without line feed, then the tail |
| AnchorRegex.TriedBefore | app.py:210 | the backtracking order: earlier start, then longer `\s+` before the name, then shorter name |
| AnchorRegex.LazyNameEnd | app.py:210 | the lazy `(.+?)` tries name ends one by one and stops at a line feed |
| AnchorRegex.AnchorAt | app.py:210 | at a given start there is a result exactly when the pattern matches there; the result is such a match and every other match at that start is tried after it |
| AnchorRegex.AnchorSearchFrom | app.py:210 | the first match from a position on: a match, tried before every other match starting there or later, and None only when no match starts there or later |
| AnchorRegex.RemoveIdSegmentsPrefix | app.py:219 | text in which no "(ID#:" starts, ordinary parentheses included, is kept as it is by `re.sub(r'\(ID#:.*?\)', '', name)`, and the substitution goes on after it |
| AnchorRegex.RemoveIdSegmentsNoClose | app.py:219 | a name with no ")" is kept whole, so an unclosed "(ID#:" stays |
| AnchorRegex.RemoveIdSegmentsExample | app.py:219 | "Bo (Jr) (ID#:7)" becomes "Bo (Jr) ": an ordinary parenthesis before the segment stays |
| AnchorRegex.RemoveIdSegmentsTrailing | app.py:219 | a name followed by its "(ID#:…)" segment keeps the name and loses the segment |
| AddressParse.CszAtFirst | app.py:277 | at a start position, CszAt finds a city-state-zip match whenever one exists, and every other match there is tried after it |
| AddressParse.CszRunsForced | app.py:277 | in any match, the greedy city run, the space after the comma and the space after the state each stop exactly where the match needs them to |
| AddressParse.CszSearch | app.py:277 | the search returns the match Python reports (every other match is tried after it), or None when there is no match |
| AddressParse.ParseCityStateZip | app.py:272-291 | state and zip are "No Data" together; without a comma all three stay "No Data"; the city never contains a comma; on a regex match the state is two capitals and the zip is `\d{5}` or `\d{5}-\d{4}` |
| AddressParse.CommaFallback | app.py:282-291 | with fewer than two comma-separated parts, or fewer than two words after the first comma, state and zip stay "No Data"; the city is the stripped text before the first comma, and with two or more words after it the state and zip are the first two of them |
| AddressParse.CszCityHasNoComma | app.py:279 | group 1, once stripped, contains no comma |
| AddressParse.CszGroupShapes | app.py:280-281 | stripped, the state group is two capitals and the zip group is five digits, optionally followed by "-" and four digits |
| AddressParse.StreetAndCityJoined | app.py:273-281 | for "123 Main St Houston, TX 77002" the reported city is "Main St Houston", because the leftmost `[A-Za-z\s]+` run starts right after the house number |
| AddressParse.IsCszMatch | app.py:277 | a match of `([A-Za-z\s]+),\s*([A-Z]{2})\s*(\d{5}(?:-\d{4})?)` with its group positions |
| AddressParse.CszTriedBefore | app.py:277 | the backtracking order: earlier start, then the zip with its "-dddd" suffix before the one without |
| AddressParse.CszAt | app.py:277 | the match tried first at one start position: the greedy runs, then the optional suffix when present |
| AddressParse.CszSearchFrom | app.py:277 | the first match from a position on: a match, tried before every other match starting there or later, and None only when no match starts there or later |
| AddressCollector.AddressRunFacts | app.py:230-269 | the collected run has at most 5 lines; it is a contiguous block inside lines i+1 .. min(i+5, len-1); every line in it is an address line; no line of the window before it is one; and the window line right after it is not one |
| AddressCollector.RunIs | app.py:233-269 | any block with the shape of AddressRunFacts is the run the loop collects, so the run is unique |
| AddressCollector.AddressTest | app.py:247-263 | the elif chain decides exactly IsAddressLine |
| AddressCollector.CollectAddressLines | app.py:230-269 | the loop, including its blank-line branch, collects exactly AddressRun |
| AddressCollector.AddressRun | app.py:230-269 | the address_lines the loop collects: from the first address line of the window up to the first non-address line after it |
| AddressCollector.JoinedAddress | app.py:273 | `" ".join(address_lines).strip()` |
| AddressCollector.PlaceOf | app.py:272-291 | city, state and zip: parsed from the joined address, and all "No Data" without address lines |
| AttributeResolver.SearchEnd | app.py:294-304 | the window end is at most min(i+15, len); no line from search_start up to it looks like a contribution; when it falls below min(i+15, len), the line there is the first contribution-like line |
| AttributeResolver.FindSearchEnd | app.py:296-304 | the loop with its break computes SearchEnd |
| AttributeResolver.CandidatesMembers | app.py:306-327 | a line is a candidate exactly when it sits in the window and passes all four filters |
| AttributeResolver.KeepLine | app.py:309-327 | the chain of `continue`s keeps a line exactly when it passes all four filters |
| AttributeResolver.GatherCandidates | app.py:306-327 | the loop collects exactly the candidates, in order |
| AttributeResolver.AddressLineNeverCandidate | app.py:312-325 | no address-shaped line is ever a candidate |
| AttributeResolver.MembershipTestRedundant | app.py:316 | when every collected line is an address line, the membership test never changes which lines are candidates |
| AttributeResolver.SelectFieldsCases | app.py:329-342 | no candidates give "No Data" twice; two or more give the first two lines; one line without a space is the occupation alone; one line with a space is cut at its first whitespace run into a one-word occupation and the employer, which starts after the whole run |
| AttributeResolver.StripHeadersTrimmed | app.py:345-349 | once a field has passed through the header-removal loop, it has no surrounding whitespace |
| AttributeResolver.FinalizeFacts | app.py:351-358 | a trimmed field comes out non-empty, trimmed, and none of "(", ")", "()" |
| AttributeResolver.CleanFieldFacts | app.py:345-358 | every final occupation and employer is non-empty, trimmed, and none of "(", ")", "()" |
| AttributeResolver.NoDataFreeOfHeaders | app.py:345-349 | no header fragment occurs in "No Data" |
| AttributeResolver.CleanFieldKeepsNoData | app.py:345-358 | a field still at "No Data" stays "No Data" through the clean-up |
| AttributeResolver.CleanFields | app.py:345-358 | the clean-up loop over HEADER_PATTERNS and the final checks compute CleanField for both fields |
| AttributeResolver.StripBoth | app.py:345-349 | one pass over the header fragments, removing each from both non-empty fields and stripping them, computes StripHeaders for each field |
| AttributeResolver.AbsentHeadersKept | app.py:345-349 | a trimmed field in which no header fragment occurs comes through the header loop unchanged |
| AttributeResolver.IsCandidate | app.py:310-325 | a line survives the four filters: not skipped, not one of the address lines, not both a date and an amount, not an address with a comma |
| AttributeResolver.Candidates | app.py:306-327 | potential_data_lines: the lines of the window that pass the filters, in order |
| AttributeResolver.SelectFields | app.py:329-342 | occupation and employer before clean-up, by the number of candidates and the space test |
| AttributeResolver.StripHeaders | app.py:345-349 | the header loop for one field: each fragment removed, then the field stripped, while it is non-empty |
| AttributeResolver.Finalize | app.py:351-358 | "(", ")", "()", "No Data" and "" become "No Data"; anything else stays |
| AttributeResolver.CleanField | app.py:345-358 | the final value of one field: the header loop, then the final checks |
| PageScanner.NextCursor | app.py:373-382 | the cursor moves to at least i + max(1, n+1), past no contribution-like line; when a contribution-like line lies in [i + max(1, n+1), min(i+10, len)) it stops at the first one, and otherwise at exactly i + max(1, n+1) |
| PageScanner.SkipAhead | app.py:374-382 | the skip loop computes i + skip_amount == NextCursor |
| PageScanner.CursorBounds | app.py:373-384 | after a record the cursor moves forward by 1 to 9 lines and stays within the page |
| PageScanner.Advance | app.py:203-384 | each pass of the page loop moves the cursor forward by 1 to 9 lines, so the loop terminates |
| PageScanner.GatherWindow | app.py:294-327 | the window search and the candidate loop produce WindowCandidates |
| PageScanner.ResolveFields | app.py:329-358 | the selection and the clean-up produce FieldsOf |
| PageScanner.ParseContribution | app.py:212-382 | at an anchor line the body builds exactly RecordAt and moves the cursor to NextCursor |
| PageScanner.ScanStep | app.py:205-384 | one pass of the loop appends at most one record, moves the cursor forward within the page, and preserves the records still to come |
| PageScanner.ScanPage | app.py:203-384 | the while loop returns exactly ScanFrom(lines, 0) |
| PageScanner.FieldsAtClean | app.py:293-358 | the occupation and employer of every record are clean values |
| PageScanner.PlaceOfFacts | app.py:222-291 | state and zip are "No Data" together; the city has no comma; without address lines all three are "No Data" |
| PageScanner.RecordGroups | app.py:210-219 | a record carries the date group, a 10-character `dd/dd/dddd` date; the amount is "$" followed by group 3 and keeps its `[\d,]+\.\d{2}` shape; the name is group 2 with its ID segments removed, then stripped; the page number is the one given |
| PageScanner.RecordPlace | app.py:222-291 | in a record, state and zip are "No Data" together; the city has no comma; city, state and zip are "No Data" when no address line follows the anchor |
| PageScanner.RecordFields | app.py:293-371 | the occupation and employer of a record are clean values |
| PageScanner.AmountBehindDollar | app.py:215 | prefixing "$" keeps the `[\d,]+\.\d{2}` shape, shifted by one |
| PageScanner.ScanFromLength | app.py:203-384 | a page yields at most one record per line |
| PageScanner.ScanFromRecords | app.py:203-384 | every record comes from an anchor line at or after the cursor and is the record built there |
| PageScanner.NoAnchorNoRecords | app.py:203-384 | lines without an anchor yield no record |
| PageScanner.RecordAt | app.py:360-371 | the dictionary appended for an anchor line: the date group, the cleaned name, city, state, zip, "$" with group 3, occupation, employer and the page number |
| PageScanner.ScanFrom | app.py:203-384 | the records of the cursor loop from a position to the end of the page: a record at every anchor line the cursor lands on |
| Dedup.Deduplicate | app.py:391-397 | the seen-set loop returns exactly Unique |
| Dedup.KeySetMembers | app.py:392-396 | a key is in the seen set exactly when some record so far carries it |
| Dedup.KeptIndicesFacts | app.py:391-397 | the kept records are the records at strictly increasing positions of the input (a subsequence, in input order), and each is the first record with its key |
| Dedup.FirstOccurrencesKept | app.py:391-397 | every record whose key does not occur earlier is kept |
| Dedup.UniqueKeys | app.py:391-397 | the output has exactly the keys of the input |
| Dedup.UniqueDistinct | app.py:391-397 | no two output records share (Date, Contributor Name, Amount) |
| Dedup.DistinctUnchanged | app.py:391-397 | input whose keys are already distinct is returned unchanged |
| Dedup.UniqueIdempotent | app.py:391-397 | de-duplicating twice gives the same result as once |
| Dedup.KeyOf | app.py:394 | the de-duplication key (Date, Contributor Name, Amount) |
| Dedup.Unique | app.py:391-397 | the records whose key did not occur earlier, in input order |
| Extraction.NonEmptyStrippedFacts | app.py:201 | every kept line is non-empty, trimmed and not blank, and there are no more lines than pieces |
| Extraction.PageLinesFacts | app.py:201 | no line of a page is empty or blank, so the blank-line branch of the address loop never runs |
| Extraction.OtherPagesIgnored | app.py:198 | a page with neither marker yields no record |
| Extraction.PageRecordsPage | app.py:198-371 | every record of a page carries that page's number counted from 1, and only a page with a marker yields records |
| Extraction.AllRecordsPages | app.py:184-384 | every record comes from a page that has a marker, and its page number is that page's position |
| Extraction.PageOf | app.py:184-384 | every record of the document is a record of one page, found at that page's position |
| Extraction.RecordOfPage | app.py:184-384 | a record of page k carries the page number k + 1, and page k passed the gate |
| Extraction.NoSchedulePageNoRecords | app.py:184-398 | a document without a schedule page yields no record |
| Extraction.CollectRecords | app.py:184-384 | the page loop collects exactly AllRecords |
| Extraction.ExtractSchedule | app.py:184-397 | the extractor returns the de-duplicated records of all pages |
| Extraction.ExtractedRecords | app.py:184-397 | every returned record is an input record from a schedule page; no two share a key; no key of the document is lost |
| Extraction.IsSchedulePage | app.py:198 | the page text contains "MONETARY POLITICAL CONTRIBUTIONS" or "Schedule A1" |
| Extraction.PageLines | app.py:201 | `[line.strip() for line in text.split('\n') if line.strip()]` |
| Extraction.PageRecords | app.py:194-384 | no record for a page without text or without a marker; otherwise the scan of its lines with page number page_num + 1 |
| Extraction.AllRecords | app.py:184-384 | all_contributions: the records of every page, page by page |
| Text.Strip | app.py:201 | `str.strip` leaves no whitespace at either end |
| Text.StripEmptyIff | app.py:201 | a line strips to nothing exactly when it is blank |
| Text.SplitOnJoin | app.py:284 | joining the pieces of `split(sep)` with sep gives back the text, and no piece holds sep |
| Text.SplitOnCount | app.py:284-285 | `split(',')` yields at least two pieces exactly when the text has a comma |
| Text.Words | app.py:288 | `str.split()` yields non-empty words without whitespace; WordsEmptyIff and WordsCons fix which words come out |
| Text.SplitOnce | app.py:334 | `split(maxsplit=1)` yields at most two non-empty parts, the first without whitespace and the second starting with a non-whitespace character |
| Text.SplitOnceAtSpace | app.py:334 | `split(maxsplit=1)` of a trimmed line with a space gives a first word and the rest, which starts after the whole whitespace run ("a  b" gives "a" and "b") |
| Text.RemoveAllAbsent | app.py:347 | `replace(pattern, "")` leaves a text without the pattern unchanged |
| Text.Lower | app.py:90-92 | `str.lower()`, character by character |
| Text.Contains | app.py:92 | `needle in hay` on strings: some position where needle occurs |
| Text.RemoveAll | app.py:347 | `replace(pattern, "")`: occurrences found left to right without overlap are dropped; the text never grows; RemoveAllAbsent, RemoveAllLeading and RemoveAllPrefix fix the result on every text |
| Text.RemoveAllLeading | app.py:347 | an occurrence at the start of the text is dropped whole, and the replacement goes on right after it |
| Text.RemoveAllPrefix | app.py:347 | text in which no occurrence starts is kept as it is, and the replacement goes on after it |
| Text.RemoveHeaderExample | app.py:347 | "Job title Clerk".replace("Job title", "") is " Clerk" |
| Text.SplitOn | app.py:201 | `split(sep)` for a one-character separator |
| Text.WordsEmptyIff | app.py:288 | `str.split()` yields no word exactly when the text is all whitespace |
| Text.WordsCons | app.py:288 | after leading whitespace, the first word of `str.split()` is the whole non-whitespace run, followed by the words of the rest |

## Left out

- The Streamlit interface is not modelled: page setup, styles, upload,
  progress bar, metrics, sidebar and downloads (app.py:11-59, 181-188,
  386-388, 404-531). It is presentation only.
- `get_text_from_page` (app.py:131-166) is not modelled. It calls
  pdfplumber, pdf2image and pytesseract. Each page's text is an input
  string, and "" stands for a page without text (app.py:193-194).
- Opening the PDF and the `try`/`except` around the extraction
  (app.py:172-177, 401-402) are not modelled. They are I/O and exception
  handling.
- Sorting, date parsing, Excel and CSV export, and timestamps
  (app.py:441-507) are not modelled. They are library calls and clock
  reads.
- The floating-point total of the amounts (app.py:461-467) is not
  modelled.
- `\d` is modelled as the ASCII digits and `str.lower` as ASCII
  lower-casing. Python's Unicode-aware versions also accept other scripts'
  digits and letters.
- Python's `str.lower` can change a string's length (for example, "İ"
  becomes two code points); the model keeps the length.
- Two behaviours of the code that a reader might not expect are modelled
  as they are:
  - For an address whose street and city lines are joined, the code
    reports "Main St Houston" as the city, not "Houston". The reason is
    that the leftmost `[A-Za-z\s]+` run starts after the house number
    (AddressParse.StreetAndCityJoined).
  - The city can be the empty string, for example for ", TX 77002".
    So not every field of a record is non-empty.
- The next-contribution test at app.py:301 and app.py:378 is not the anchor
  pattern of app.py:210. The model keeps both as they are and proves how
  they relate:
  - AnchorRegex.AnchorMatchIsShaped: anchor matches whose amount has a
    digit before the point also pass the next-contribution test.
  - AnchorRegex.CommaAmountNotShaped: the line "01/02/2024 Bob ,.00"
    matches the anchor pattern, with amount group ",.00", and fails the
    next-contribution test. A line whose amount group has no digit before
    the point can still pass that test through another `\d\.\d\d` after
    the date, as "01/02/2024 Bob ,.00 1.23" does
    (AnchorRegex.CommaAmountLaterDecimal).
- The exact-string membership test of app.py:316 is modelled as written.
  AttributeResolver.MembershipTestRedundant shows it never changes the
  candidates.
