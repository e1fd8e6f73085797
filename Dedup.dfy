/**
 * Removal of duplicate records (app.py:390-397): a record is kept when no
 * earlier record has the same date, contributor name and amount.
 */
module Dedup {
  import opened PageScanner

  /** The identity of a record: (Date, Contributor Name, Amount). */
  type Key = (string, string, string)

  function KeyOf(c: Contribution): Key {
    (c.date, c.name, c.amount)
  }

  /** The keys of a sequence of records. */
  function KeySet(cs: seq<Contribution>): set<Key>
    decreases |cs|
  {
    if cs == [] then {} else KeySet(cs[..|cs| - 1]) + {KeyOf(cs[|cs| - 1])}
  }

  /** The records the loop keeps, in order: each one whose key no earlier record had. */
  function Unique(cs: seq<Contribution>): seq<Contribution>
    decreases |cs|
  {
    if cs == [] then []
    else
      var init := cs[..|cs| - 1];
      if KeyOf(cs[|cs| - 1]) in KeySet(init) then Unique(init) else Unique(init) + [cs[|cs| - 1]]
  }

  /** The positions in cs of the records Unique keeps. */
  function KeptIndices(cs: seq<Contribution>): seq<nat>
    decreases |cs|
  {
    if cs == [] then []
    else
      var init := cs[..|cs| - 1];
      if KeyOf(cs[|cs| - 1]) in KeySet(init) then KeptIndices(init) else KeptIndices(init) + [|cs| - 1]
  }

  /** The loop of app.py:391-397 with its seen set. */
  method Deduplicate(allContributions: seq<Contribution>) returns (uniqueContributions: seq<Contribution>)
    ensures uniqueContributions == Unique(allContributions)
  {
    uniqueContributions := [];
    var seen: set<Key> := {};
    for k := 0 to |allContributions|
      invariant uniqueContributions == Unique(allContributions[..k])
      invariant seen == KeySet(allContributions[..k])
    {
      var contrib := allContributions[k];
      assert allContributions[..k + 1][..k] == allContributions[..k];
      var key := (contrib.date, contrib.name, contrib.amount);
      if key !in seen {
        seen := seen + {key};
        uniqueContributions := uniqueContributions + [contrib];
      }
    }
    assert allContributions[..|allContributions|] == allContributions;
  }

  /** A key is in KeySet exactly when some record carries it. */
  lemma {:induction false} KeySetMembers(cs: seq<Contribution>, key: Key)
    ensures key in KeySet(cs) <==> exists k :: 0 <= k < |cs| && KeyOf(cs[k]) == key
    decreases |cs|
  {
    if cs != [] {
      var init := cs[..|cs| - 1];
      KeySetMembers(init, key);
      if key in KeySet(init) {
        var k :| 0 <= k < |init| && KeyOf(init[k]) == key;
        assert cs[k] == init[k];
      }
      if exists k :: 0 <= k < |cs| && KeyOf(cs[k]) == key {
        var k :| 0 <= k < |cs| && KeyOf(cs[k]) == key;
        if k < |init| {
          assert KeyOf(init[k]) == key;
        }
      }
    }
  }

  /**
   * The kept records are the records at KeptIndices: those positions rise
   * strictly, and each one is the first position of its key.
   */
  lemma {:induction false} KeptIndicesFacts(cs: seq<Contribution>)
    ensures var u := Unique(cs);
      var idx := KeptIndices(cs);
      |idx| == |u|
      && (forall t :: 0 <= t < |idx| ==> idx[t] < |cs| && u[t] == cs[idx[t]])
      && (forall s, t :: 0 <= s < t < |idx| ==> idx[s] < idx[t])
      && (forall t, j :: 0 <= t < |idx| && 0 <= j < idx[t] ==> KeyOf(cs[j]) != KeyOf(cs[idx[t]]))
    decreases |cs|
  {
    if cs != [] {
      var init := cs[..|cs| - 1];
      KeptIndicesFacts(init);
      var idx := KeptIndices(init);
      assert forall t :: 0 <= t < |idx| ==> cs[idx[t]] == init[idx[t]];
      assert forall j :: 0 <= j < |init| ==> cs[j] == init[j];
      if KeyOf(cs[|cs| - 1]) !in KeySet(init) {
        forall j | 0 <= j < |cs| - 1
          ensures KeyOf(cs[j]) != KeyOf(cs[|cs| - 1])
        {
          KeySetMembers(init, KeyOf(cs[|cs| - 1]));
          assert KeyOf(init[j]) == KeyOf(cs[j]);
        }
      }
    }
  }

  /** Every record whose key did not occur before it is kept. */
  lemma {:induction false} FirstOccurrencesKept(cs: seq<Contribution>, k: nat)
    requires k < |cs|
    requires forall j :: 0 <= j < k ==> KeyOf(cs[j]) != KeyOf(cs[k])
    ensures k in KeptIndices(cs)
    decreases |cs|
  {
    var init := cs[..|cs| - 1];
    if k < |cs| - 1 {
      assert forall j :: 0 <= j <= k ==> init[j] == cs[j];
      FirstOccurrencesKept(init, k);
    } else {
      KeySetMembers(init, KeyOf(cs[k]));
      assert forall j :: 0 <= j < |init| ==> init[j] == cs[j];
    }
  }

  /** No key is lost: the kept records have exactly the keys of all records. */
  lemma {:induction false} UniqueKeys(cs: seq<Contribution>)
    ensures KeySet(Unique(cs)) == KeySet(cs)
    decreases |cs|
  {
    if cs != [] {
      var init := cs[..|cs| - 1];
      UniqueKeys(init);
      var u := Unique(init);
      if KeyOf(cs[|cs| - 1]) !in KeySet(init) {
        assert (u + [cs[|cs| - 1]])[..|u|] == u;
      }
    }
  }

  /** No two kept records share a key. */
  lemma {:induction false} UniqueDistinct(cs: seq<Contribution>)
    ensures forall s, t :: 0 <= s < t < |Unique(cs)| ==> KeyOf(Unique(cs)[s]) != KeyOf(Unique(cs)[t])
  {
    KeptIndicesFacts(cs);
  }

  /** A sequence whose keys are already pairwise distinct is left as it is, so de-duplicating twice changes nothing. */
  lemma {:induction false} DistinctUnchanged(cs: seq<Contribution>)
    requires forall s, t :: 0 <= s < t < |cs| ==> KeyOf(cs[s]) != KeyOf(cs[t])
    ensures Unique(cs) == cs
    decreases |cs|
  {
    if cs != [] {
      var init := cs[..|cs| - 1];
      DistinctUnchanged(init);
      KeySetMembers(init, KeyOf(cs[|cs| - 1]));
      assert forall j :: 0 <= j < |init| ==> init[j] == cs[j];
      assert init + [cs[|cs| - 1]] == cs;
    }
  }

  /** De-duplication is idempotent. */
  lemma UniqueIdempotent(cs: seq<Contribution>)
    ensures Unique(Unique(cs)) == Unique(cs)
  {
    UniqueDistinct(cs);
    DistinctUnchanged(Unique(cs));
  }
}
