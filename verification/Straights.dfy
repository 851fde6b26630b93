/** What the straight detector finds: shared/poker/sidePots.ts, evaluate5. */
module Straights {
  import opened Sequences
  import opened HandEvaluation

  lemma OrdersAreTotal()
    ensures TotalPreorder(Descending()) && TotalPreorder(Ascending()) && TotalPreorder(ByFrequency())
  {
  }

  ghost predicate RunTo(ranks: seq<int>, high: int) {
    forall r :: r in ranks <==> high - 4 <= r <= high
  }

  ghost predicate Wheel(ranks: seq<int>) {
    forall r :: r in ranks <==> r == 12 || 0 <= r <= 3
  }

  lemma UniqueAscendingFacts(ranks: seq<int>)
    ensures var u := UniqueAscending(ranks);
      && SortedBy(Ascending(), u) && Distinct(u) && |u| <= |ranks|
      && forall r :: r in u <==> r in ranks
  {
    OrdersAreTotal();
    SortSorts(Ascending(), Unique(ranks));
    SameMembers(UniqueAscending(ranks), Unique(ranks));
    DistinctMultiset(Unique(ranks));
    MultisetDistinct(UniqueAscending(ranks));
    UniqueNoLonger(ranks);
  }

  lemma RunIsFound(ranks: seq<int>, high: int)
    requires |ranks| == 5 && RunTo(ranks, high)
    ensures StraightHigh(ranks) == high
  {
    UniqueAscendingFacts(ranks);
    RunHasFive(UniqueAscending(ranks), high);
  }

  lemma WheelIsFound(ranks: seq<int>)
    requires |ranks| == 5 && Wheel(ranks)
    ensures StraightHigh(ranks) == 3
  {
    var u := UniqueAscending(ranks);
    UniqueAscendingFacts(ranks);
    if |u| == 5 {
      WheelSpread(u);
    }
  }

  lemma FoundIsStraight(ranks: seq<int>)
    requires |ranks| == 5 && StraightHigh(ranks) != -1
    ensures RunTo(ranks, StraightHigh(ranks)) || Wheel(ranks)
  {
    var u := UniqueAscending(ranks);
    UniqueAscendingFacts(ranks);
    if |u| == 5 && u[4] - u[0] == 4 {
      FiveInARow(u);
    } else {
      WheelOnly(u);
    }
  }

  /** The straight detector finds exactly the five consecutive ranks and the wheel. */
  lemma StraightMeaning(ranks: seq<int>)
    requires |ranks| == 5 && forall r :: r in ranks ==> r >= 0
    ensures forall high :: RunTo(ranks, high) ==> StraightHigh(ranks) == high
    ensures Wheel(ranks) ==> StraightHigh(ranks) == 3
    ensures StraightHigh(ranks) != -1 ==> RunTo(ranks, StraightHigh(ranks)) || Wheel(ranks)
  {
    forall high | RunTo(ranks, high) ensures StraightHigh(ranks) == high {
      RunIsFound(ranks, high);
    }
    if Wheel(ranks) {
      WheelIsFound(ranks);
    }
    if StraightHigh(ranks) != -1 {
      FoundIsStraight(ranks);
    }
  }

  lemma RunHasFive(u: seq<int>, high: int)
    requires SortedBy(Ascending(), u) && Distinct(u) && |u| <= 5
    requires forall r :: r in u <==> high - 4 <= r <= high
    ensures |u| == 5 && u[0] == high - 4 && u[4] == high
  {
    var run := {high - 4, high - 3, high - 2, high - 1, high};
    DistinctMultiset(u);
    assert run == Elements(u);
    assert u[0] in u && u[4] in u;
    assert high in u && high - 4 in u;
    assert forall i :: 0 <= i < 5 ==> Ascending()(u[0], u[i]) && Ascending()(u[i], u[4]);
  }

  lemma WheelSpread(u: seq<int>)
    requires SortedBy(Ascending(), u) && 12 in u && 0 in u
    requires |u| == 5
    ensures u[4] - u[0] != 4
  {
    assert forall i :: 0 <= i < 5 ==> u[i] == u[0] || Ascending()(u[0], u[i]);
    assert forall i :: 0 <= i < 5 ==> u[i] == u[4] || Ascending()(u[i], u[4]);
  }

  lemma FiveInARow(u: seq<int>)
    requires SortedBy(Ascending(), u) && Distinct(u) && |u| == 5 && u[4] - u[0] == 4
    ensures RunTo(u, u[4])
  {
    assert Ascending()(u[0], u[1]) && Ascending()(u[1], u[2]) && Ascending()(u[2], u[3]) && Ascending()(u[3], u[4]);
    assert u[1] == u[0] + 1 && u[2] == u[0] + 2 && u[3] == u[0] + 3;
    forall r ensures r in u <==> u[4] - 4 <= r <= u[4] {
      if u[4] - 4 <= r <= u[4] {
        assert u[r - u[0]] == r;
      }
    }
  }

  lemma WheelOnly(u: seq<int>)
    requires Distinct(u) && |u| <= 5 && 12 in u && 0 in u && 1 in u && 2 in u && 3 in u
    ensures Wheel(u)
  {
    var wheel := {12, 0, 1, 2, 3};
    DistinctMultiset(u);
    assert wheel <= Elements(u);
    assert |Elements(u) - wheel| == |Elements(u)| - |wheel|;
    assert Elements(u) == wheel;
    assert forall r :: r in u <==> r in Elements(u);
  }
}
