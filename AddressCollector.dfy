/**
 * The address lines that follow an anchor line (app.py:229-269): at most the
 * next five lines are looked at; lines before the first address line are
 * passed over, and the first non-address line after it ends the run.
 */
module AddressCollector {
  import opened Text
  import opened Patterns
  import opened LineClassifier
  import opened AddressParse

  /** max_address_lines */
  const MaxAddressLines: nat := 5

  /** One past the last index the loop looks at: lines i+1 .. i+5, cut at the end of the page. */
  function AddressLimit(lines: seq<string>, i: nat): nat
    requires i < |lines|
  {
    if i + MaxAddressLines + 1 < |lines| then i + MaxAddressLines + 1 else |lines|
  }

  /** Where the run starts: the first address line of the window, or the limit. */
  function AddressRunStart(lines: seq<string>, i: nat): nat
    requires i < |lines|
  {
    FirstWhere(lines, i + 1, AddressLimit(lines, i), IsAddressLine)
  }

  /** Where the run ends: the first non-address line after its start, or the limit. */
  function AddressRunEnd(lines: seq<string>, i: nat): nat
    requires i < |lines|
  {
    FirstWhere(lines, AddressRunStart(lines, i), AddressLimit(lines, i), NotAddressLine)
  }

  /** The address_lines the loop collects for the anchor at i. */
  function AddressRun(lines: seq<string>, i: nat): seq<string>
    requires i < |lines|
  {
    lines[AddressRunStart(lines, i)..AddressRunEnd(lines, i)]
  }

  /**
   * The run is a contiguous block of at most five address lines inside
   * lines i+1 .. min(i+5, len-1); nothing before it in the window is an
   * address line, and the line after it (if still in the window) is not.
   */
  lemma AddressRunFacts(lines: seq<string>, i: nat)
    requires i < |lines|
    ensures var run := AddressRun(lines, i);
      var st := AddressRunStart(lines, i);
      |run| <= MaxAddressLines
      && i + 1 <= st && st + |run| <= AddressLimit(lines, i)
      && AddressLimit(lines, i) <= |lines| && AddressLimit(lines, i) <= i + MaxAddressLines + 1
      && run == lines[st..st + |run|]
      && (forall k {:trigger IsAddressLine(run[k])} :: 0 <= k < |run| ==> IsAddressLine(run[k]))
      && (forall k {:trigger IsAddressLine(lines[k])} :: i + 1 <= k < st ==> !IsAddressLine(lines[k]))
      && (st + |run| < AddressLimit(lines, i) ==> run != [] && !IsAddressLine(lines[st + |run|]))
  {
    var st := AddressRunStart(lines, i);
    var run := AddressRun(lines, i);
    assert forall k :: 0 <= k < |run| ==> run[k] == lines[st + k];
    NothingBeforeRun(lines, i);
    AllOfRun(lines, i);
  }

  lemma NothingBeforeRun(lines: seq<string>, i: nat)
    requires i < |lines|
    ensures forall k {:trigger IsAddressLine(lines[k])} :: i + 1 <= k < AddressRunStart(lines, i) ==> !IsAddressLine(lines[k])
  {
    var isAddress := IsAddressLine;
    forall k | i + 1 <= k < AddressRunStart(lines, i)
      ensures !IsAddressLine(lines[k])
    {
      assert !isAddress(lines[k]);
    }
  }

  lemma AllOfRun(lines: seq<string>, i: nat)
    requires i < |lines|
    ensures forall k {:trigger IsAddressLine(lines[k])} ::
      AddressRunStart(lines, i) <= k < AddressRunEnd(lines, i) ==> IsAddressLine(lines[k])
  {
    var notAddress := NotAddressLine;
    forall k | AddressRunStart(lines, i) <= k < AddressRunEnd(lines, i)
      ensures IsAddressLine(lines[k])
    {
      assert !notAddress(lines[k]);
    }
  }

  /** A block lines[st..en] with the shape of AddressRunFacts is the run, and so is any list of its lines in order. */
  lemma RunIs(lines: seq<string>, i: nat, st: nat, en: nat, run: seq<string>)
    requires i < |lines| && i + 1 <= st <= en <= AddressLimit(lines, i)
    requires forall k {:trigger IsAddressLine(lines[k])} :: i + 1 <= k < st ==> !IsAddressLine(lines[k])
    requires forall k {:trigger IsAddressLine(lines[k])} :: st <= k < en ==> IsAddressLine(lines[k])
    requires st == en ==> en == AddressLimit(lines, i)
    requires en < AddressLimit(lines, i) ==> !IsAddressLine(lines[en])
    requires |run| == en - st && forall k :: 0 <= k < |run| ==> run[k] == lines[st + k]
    ensures AddressRunStart(lines, i) == st && AddressRunEnd(lines, i) == en
    ensures AddressRun(lines, i) == run
  {
    RunStartIs(lines, i, st);
    RunEndIs(lines, i, st, en);
    assert run == lines[st..en];
  }

  lemma RunStartIs(lines: seq<string>, i: nat, st: nat)
    requires i < |lines| && i + 1 <= st <= AddressLimit(lines, i)
    requires forall k {:trigger IsAddressLine(lines[k])} :: i + 1 <= k < st ==> !IsAddressLine(lines[k])
    requires st < AddressLimit(lines, i) ==> IsAddressLine(lines[st])
    ensures AddressRunStart(lines, i) == st
  {
    FirstWhereIs(lines, i + 1, AddressLimit(lines, i), IsAddressLine, st);
  }

  lemma RunEndIs(lines: seq<string>, i: nat, st: nat, en: nat)
    requires i < |lines| && AddressRunStart(lines, i) == st && st <= en <= AddressLimit(lines, i)
    requires forall k {:trigger IsAddressLine(lines[k])} :: st <= k < en ==> IsAddressLine(lines[k])
    requires en < AddressLimit(lines, i) ==> !IsAddressLine(lines[en])
    ensures AddressRunEnd(lines, i) == en
  {
    FirstWhereIs(lines, st, AddressLimit(lines, i), NotAddressLine, en);
  }

  /** The four address patterns of app.py:247-263, tried in order. */
  method AddressTest(testLine: string) returns (isAddressLine: bool)
    ensures isAddressLine == IsAddressLine(testLine)
  {
    AddressLineIff(testLine);
    isAddressLine := false;
    if ',' in testLine && HasStateDigit(testLine) {
      isAddressLine := true;
    } else if StartsWithStreetNumber(testLine) {
      isAddressLine := true;
    } else if IsCityState(testLine) {
      isAddressLine := true;
    } else if StartsWithStateZip(testLine) {
      isAddressLine := true;
    }
  }

  /** The loop of app.py:233-269, including its blank-line branch. */
  method CollectAddressLines(lines: seq<string>, i: nat) returns (addressLines: seq<string>)
    requires i < |lines|
    ensures addressLines == AddressRun(lines, i)
  {
    addressLines := [];
    ghost var st := i + 1;
    var j := 1;
    while j <= MaxAddressLines
      invariant 1 <= j <= MaxAddressLines + 1
      invariant i + j <= AddressLimit(lines, i)
      invariant i + 1 <= st <= i + j
      invariant forall k {:trigger IsAddressLine(lines[k])} :: i + 1 <= k < st ==> !IsAddressLine(lines[k])
      invariant |addressLines| == i + j - st
      invariant forall k :: 0 <= k < |addressLines| ==> addressLines[k] == lines[st + k]
      invariant forall k {:trigger IsAddressLine(lines[k])} :: st <= k < i + j ==> IsAddressLine(lines[k])
    {
      if i + j >= |lines| {
        RunIs(lines, i, st, i + j, addressLines);
        break;
      }
      var testLine := lines[i + j];
      if Blank(testLine) {
        // an empty line ends a run that has started and is passed over otherwise
        BlankIsNotAddress(testLine);
        if addressLines != [] {
          RunIs(lines, i, st, i + j, addressLines);
          break;
        }
        st := st + 1;
      } else {
        var isAddressLine := AddressTest(testLine);
        if isAddressLine {
          addressLines := addressLines + [testLine];
        } else if addressLines != [] {
          RunIs(lines, i, st, i + j, addressLines);
          break;
        } else {
          st := st + 1;
        }
      }
      j := j + 1;
    }
    if j == MaxAddressLines + 1 {
      RunIs(lines, i, st, i + j, addressLines);
    }
  }

  /** address = " ".join(address_lines).strip() */
  function JoinedAddress(addressLines: seq<string>): string {
    Strip(JoinOn(addressLines, ' '))
  }

  /** City, state and zip of the record: parsed from the joined address, all "No Data" when there are no address lines. */
  function PlaceOf(addressLines: seq<string>): Place {
    if addressLines == [] then Place(NoData, NoData, NoData)
    else ParseCityStateZip(JoinedAddress(addressLines))
  }
}
