/**
 * City, state and zip code out of a joined address (app.py:271-291): first
 * re.search(r'([A-Za-z\s]+),\s*([A-Z]{2})\s*(\d{5}(?:-\d{4})?)', address),
 * and when that fails the text around the first comma.
 */
module AddressParse {
  import opened Wrappers
  import opened Text
  import opened Patterns

  /** The sentinel of every field that could not be resolved */
  const NoData: string := "No Data"

  /**
   * One way the city-state-zip pattern can match: group 1 is
   * s[start..comma], group 2 s[stateStart..stateStart+2], group 3
   * s[zipStart..zipEnd].
   */
  datatype CszMatch = CszMatch(start: nat, comma: nat, stateStart: nat, zipStart: nat, zipEnd: nat)

  datatype Place = Place(city: string, state: string, zip: string)

  predicate IsCszMatch(s: string, m: CszMatch) {
    m.start < m.comma < m.stateStart && m.stateStart + 2 <= m.zipStart && m.zipStart + 5 <= m.zipEnd <= |s|
    && All(s, m.start, m.comma, IsLetterOrWs) && s[m.comma] == ','
    && All(s, m.comma + 1, m.stateStart, IsWs) && IsUpper(s[m.stateStart]) && IsUpper(s[m.stateStart + 1])
    && All(s, m.stateStart + 2, m.zipStart, IsWs) && All(s, m.zipStart, m.zipStart + 5, IsDigit)
    && (m.zipEnd == m.zipStart + 5
        || (m.zipEnd == m.zipStart + 10 && s[m.zipStart + 5] == '-' && All(s, m.zipStart + 6, m.zipEnd, IsDigit)))
  }

  /**
   * Python tries m1 before m2: an earlier start first; at one start the
   * greedy runs are forced, and the optional "-1234" is tried present first.
   */
  predicate CszTriedBefore(m1: CszMatch, m2: CszMatch) {
    m1.start < m2.start || (m1.start == m2.start && m1.zipEnd > m2.zipEnd)
  }

  /** The match Python reports among those starting at p, if any. */
  function CszAt(s: string, p: nat): (r: Option<CszMatch>)
    requires p <= |s|
  {
    var c := p + Span(s, p, IsLetterOrWs);
    if c == p || c >= |s| || s[c] != ',' then None
    else
      var st := c + 1 + Span(s, c + 1, IsWs);
      if st + 2 > |s| || !IsUpper(s[st]) || !IsUpper(s[st + 1]) then None
      else
        var z := st + 2 + Span(s, st + 2, IsWs);
        if !All(s, z, z + 5, IsDigit) then None
        else
          Some(CszMatch(p, c, st, z, ZipEnd(s, z)))
  }

  /** Where group 3 ends when its five digits start at z: the "-1234" suffix is taken when present. */
  function ZipEnd(s: string, z: nat): nat {
    if z + 10 <= |s| && s[z + 5] == '-' && All(s, z + 6, z + 10, IsDigit) then z + 10 else z + 5
  }

  /** CszAt finds a match at p exactly when there is one, and every other match at p is tried after it. */
  lemma CszAtFirst(s: string, p: nat)
    requires p <= |s|
    ensures CszAt(s, p).Some? ==> IsCszMatch(s, CszAt(s, p).value) && CszAt(s, p).value.start == p
    ensures forall m :: IsCszMatch(s, m) && m.start == p ==>
              CszAt(s, p).Some? && (m == CszAt(s, p).value || CszTriedBefore(CszAt(s, p).value, m))
  {
    if CszAt(s, p).Some? {
      CszAtSound(s, p);
    }
    forall m | IsCszMatch(s, m) && m.start == p
      ensures CszAt(s, p).Some? && (m == CszAt(s, p).value || CszTriedBefore(CszAt(s, p).value, m))
    {
      CszAtFinds(s, m);
    }
  }

  lemma CszAtSound(s: string, p: nat)
    requires p <= |s| && CszAt(s, p).Some?
    ensures IsCszMatch(s, CszAt(s, p).value) && CszAt(s, p).value.start == p
  {
  }

  lemma CszAtFinds(s: string, m: CszMatch)
    requires IsCszMatch(s, m)
    ensures CszAt(s, m.start).Some?
    ensures m == CszAt(s, m.start).value || CszTriedBefore(CszAt(s, m.start).value, m)
  {
    CszRunsForced(s, m);
    var z := m.zipStart;
    CszAtRuns(s, m.start, m.comma, m.stateStart, z);
  }

  /** CszAt at p once its three greedy runs are known to end at c, st and z. */
  lemma CszAtRuns(s: string, p: nat, c: nat, st: nat, z: nat)
    requires p < c < |s| && c == p + Span(s, p, IsLetterOrWs) && s[c] == ','
    requires st + 2 <= |s| && st == c + 1 + Span(s, c + 1, IsWs) && IsUpper(s[st]) && IsUpper(s[st + 1])
    requires z == st + 2 + Span(s, st + 2, IsWs) && All(s, z, z + 5, IsDigit)
    ensures CszAt(s, p) == Some(CszMatch(p, c, st, z, ZipEnd(s, z)))
  {
  }

  /** In a match the three greedy runs (name, space after the comma, space after the state) stop where the pattern needs them to. */
  lemma CszRunsForced(s: string, m: CszMatch)
    requires IsCszMatch(s, m)
    ensures m.start + Span(s, m.start, IsLetterOrWs) == m.comma
    ensures m.comma + 1 + Span(s, m.comma + 1, IsWs) == m.stateStart
    ensures m.stateStart + 2 + Span(s, m.stateStart + 2, IsWs) == m.zipStart
  {
    assert !IsLetterOrWs(s[m.comma]);
    SpanExact(s, m.start, m.comma, IsLetterOrWs);
    assert !IsWs(s[m.stateStart]);
    SpanExact(s, m.comma + 1, m.stateStart, IsWs);
    assert !IsWs(s[m.zipStart]);
    SpanExact(s, m.stateStart + 2, m.zipStart, IsWs);
  }

  /** The first match at a start position from p on. */
  function CszSearchFrom(s: string, p: nat): (r: Option<CszMatch>)
    requires p <= |s|
    ensures r.Some? ==> IsCszMatch(s, r.value) && p <= r.value.start
    ensures r.Some? ==> forall m :: IsCszMatch(s, m) && p <= m.start ==> m == r.value || CszTriedBefore(r.value, m)
    ensures r.None? ==> forall m :: IsCszMatch(s, m) ==> m.start < p
    decreases |s| - p
  {
    CszAtFirst(s, p);
    match CszAt(s, p)
    case Some(m) => Some(m)
    case None => if p == |s| then None else CszSearchFrom(s, p + 1)
  }

  /** re.search with the city-state-zip pattern: the match Python reports, or None. */
  function CszSearch(s: string): (r: Option<CszMatch>)
    ensures r.Some? ==> IsCszMatch(s, r.value)
    ensures r.Some? ==> forall m :: IsCszMatch(s, m) ==> m == r.value || CszTriedBefore(r.value, m)
    ensures r.None? ==> forall m :: !IsCszMatch(s, m)
  {
    CszSearchFrom(s, 0)
  }

  /**
   * City, state and zip of a joined address: the stripped groups of the
   * pattern; otherwise the stripped text before the first comma as city and
   * the first two words after it as state and zip.
   */
  function ParseCityStateZip(address: string): (r: Place)
    ensures r.state == NoData <==> r.zip == NoData
    ensures ',' !in address ==> r == Place(NoData, NoData, NoData)
    ensures ',' !in r.city
    ensures CszSearch(address).Some? ==>
      |r.state| == 2 && IsUpper(r.state[0]) && IsUpper(r.state[1])
      && (|r.zip| == 5 || |r.zip| == 10) && All(r.zip, 0, 5, IsDigit)
      && (|r.zip| == 10 ==> r.zip[5] == '-' && All(r.zip, 6, 10, IsDigit))
  {
    match CszSearch(address)
    case Some(m) =>
      CszGroupShapes(address, m);
      CszCityHasNoComma(address, m);
      Place(Strip(address[m.start..m.comma]), Strip(address[m.stateStart..m.stateStart + 2]), Strip(address[m.zipStart..m.zipEnd]))
    case None => CommaFallback(address)
  }

  /** app.py:282-289: the city before the first comma, state and zip the first two words after it. */
  function CommaFallback(address: string): (r: Place)
    ensures r.state == NoData <==> r.zip == NoData
    ensures ',' !in address ==> r == Place(NoData, NoData, NoData)
    ensures ',' !in r.city
    ensures |SplitOn(address, ',')| < 2 || |Words(Strip(SplitOn(address, ',')[1]))| < 2 ==>
      r.state == NoData && r.zip == NoData
    ensures |SplitOn(address, ',')| >= 2 ==> r.city == Strip(SplitOn(address, ',')[0])
    ensures |SplitOn(address, ',')| >= 2 && |Words(Strip(SplitOn(address, ',')[1]))| >= 2 ==>
      r.state == Words(Strip(SplitOn(address, ',')[1]))[0] && r.zip == Words(Strip(SplitOn(address, ',')[1]))[1]
  {
    SplitOnCount(address, ',');
    SplitOnJoin(address, ',');
    var parts := SplitOn(address, ',');
    if |parts| >= 2 then
      var city := Strip(parts[0]);
      StripKeepsOut(parts[0], ',');
      var stateZip := Words(Strip(parts[1]));
      if |stateZip| >= 2 then
        assert NoData[2] == ' ';
        Place(city, stateZip[0], stateZip[1])
      else Place(city, NoData, NoData)
    else Place(NoData, NoData, NoData)
  }

  /** Group 1 is made of letters and whitespace, so the city never holds a comma. */
  lemma CszCityHasNoComma(s: string, m: CszMatch)
    requires IsCszMatch(s, m)
    ensures ',' !in Strip(s[m.start..m.comma])
  {
    var g := s[m.start..m.comma];
    assert forall k :: 0 <= k < |g| ==> g[k] == s[m.start + k];
    StripKeepsOut(g, ',');
  }

  /** What the state and zip groups of a match look like once stripped: two capitals, and five digits with an optional "-dddd". */
  lemma CszGroupShapes(s: string, m: CszMatch)
    requires IsCszMatch(s, m)
    ensures var state := Strip(s[m.stateStart..m.stateStart + 2]);
      |state| == 2 && IsUpper(state[0]) && IsUpper(state[1])
    ensures var zip := Strip(s[m.zipStart..m.zipEnd]);
      (|zip| == 5 || |zip| == 10) && All(zip, 0, 5, IsDigit)
      && (|zip| == 10 ==> zip[5] == '-' && All(zip, 6, 10, IsDigit))
  {
    StateGroupShape(s, m);
    ZipGroupShape(s, m);
    var zip := s[m.zipStart..m.zipEnd];
    StripOfStripped(zip);
  }

  lemma StateGroupShape(s: string, m: CszMatch)
    requires IsCszMatch(s, m)
    ensures var state := Strip(s[m.stateStart..m.stateStart + 2]);
      state == s[m.stateStart..m.stateStart + 2] && |state| == 2 && IsUpper(state[0]) && IsUpper(state[1])
  {
    var st := s[m.stateStart..m.stateStart + 2];
    assert IsUpper(st[0]) && IsUpper(st[1]);
    StripOfStripped(st);
  }

  lemma ZipGroupShape(s: string, m: CszMatch)
    requires IsCszMatch(s, m)
    ensures var zip := s[m.zipStart..m.zipEnd];
      (|zip| == 5 || |zip| == 10) && All(zip, 0, 5, IsDigit)
      && (|zip| == 10 ==> zip[5] == '-' && All(zip, 6, 10, IsDigit))
  {
    var zip := s[m.zipStart..m.zipEnd];
    forall k | 0 <= k < |zip| && k != 5 ensures IsDigit(zip[k]) {
      assert zip[k] == s[m.zipStart + k];
    }
  }

  /** A joined street line swallows the city: the leftmost `[A-Za-z\s]+` run starts right after the house number. */
  lemma StreetAndCityJoined(s: string)
    requires s == "123 Main St Houston, TX 77002"
    ensures ParseCityStateZip(s) == Place("Main St Houston", "TX", "77002")
  {
    JoinedParsed(s);
    JoinedGroups(s);
    StripCity(s[3..19]);
    StripState(s[21..23]);
    StripZip(s[24..29]);
  }

  lemma JoinedParsed(s: string)
    requires s == "123 Main St Houston, TX 77002"
    ensures ParseCityStateZip(s) == Place(Strip(s[3..19]), Strip(s[21..23]), Strip(s[24..29]))
  {
    JoinedMatch();
  }

  /** The match Python reports on the joined line starts at the space after "123". */
  lemma JoinedMatch()
    ensures CszSearch("123 Main St Houston, TX 77002") == Some(CszMatch(3, 19, 21, 24, 29))
  {
    var s := "123 Main St Houston, TX 77002";
    var m := CszMatch(3, 19, 21, 24, 29);
    assert IsCszMatch(s, m);
    var r := CszSearch(s).value;
    assert r.start <= 3 by {
      assert m == r || CszTriedBefore(r, m);
    }
    NoMatchInHouseNumber(s, r);
    CszRunsForced(s, r);
    CszRunsForced(s, m);
  }

  /** `[A-Za-z\s]+` cannot start inside the house number. */
  lemma NoMatchInHouseNumber(s: string, r: CszMatch)
    requires s == "123 Main St Houston, TX 77002" && IsCszMatch(s, r)
    ensures r.start >= 3
  {
    assert !IsLetterOrWs(s[0]) && !IsLetterOrWs(s[1]) && !IsLetterOrWs(s[2]);
  }

  lemma JoinedGroups(s: string)
    requires s == "123 Main St Houston, TX 77002"
    ensures s[3..19] == " Main St Houston" && s[21..23] == "TX" && s[24..29] == "77002"
  {
    assert s == "123" + " Main St Houston" + ", " + "TX" + " " + "77002";
  }

  lemma StripState(t: string)
    requires t == "TX"
    ensures Strip(t) == "TX"
  {
    StripOfStripped(t);
  }

  lemma StripZip(t: string)
    requires t == "77002"
    ensures Strip(t) == "77002"
  {
    StripOfStripped(t);
  }

  lemma StripCity(t: string)
    requires t == " Main St Houston"
    ensures Strip(t) == "Main St Houston"
  {
    assert t[0] == ' ' && t[1] == 'M';
    SpanExact(t, 0, 1, IsWs);
    StripOfStripped(t[1..]);
  }
}
