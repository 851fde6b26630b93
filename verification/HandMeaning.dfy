/** What a five-card value means: it depends on the set of cards alone and follows the multiplicities of the ranks. */
module HandMeaning {
  import opened Sequences
  import opened Verify
  import opened HandEvaluation
  import opened Straights

  /** The order of the five cards does not matter. */
  lemma EvaluateIgnoresOrder(a: seq<Card>, b: seq<Card>)
    requires |a| == |b| == 5 && multiset(a) == multiset(b)
    ensures Evaluate(a) == Evaluate(b)
  {
    OrdersAreTotal();
    MapPermutation((c: Card) => c / 4, a, b, CardRanks(a), CardRanks(b));
    RanksAreSorted(a);
    RanksAreSorted(b);
    SortedUnique(Descending(), SortedRanks(a), SortedRanks(b));
    FlushIgnoresOrder(a, b);
  }

  lemma FlushIgnoresOrder(a: seq<Card>, b: seq<Card>)
    requires a != [] && b != [] && multiset(a) == multiset(b)
    ensures IsFlush(a) == IsFlush(b)
  {
    SameMembers(a, b);
    assert a[0] in b && b[0] in a;
    if IsFlush(a) {
      forall i | 0 <= i < |b| ensures b[i] % 4 == b[0] % 4 {
        assert b[i] in a;
      }
    }
    if IsFlush(b) {
      forall i | 0 <= i < |a| ensures a[i] % 4 == a[0] % 4 {
        assert a[i] in b;
      }
    }
  }

  // ---------- multiplicities ----------

  function CountsOf(g: seq<Group>): (r: seq<int>)
    ensures |r| == |g| && forall i :: 0 <= i < |g| ==> r[i] == g[i].count
  {
    seq(|g|, i requires 0 <= i < |g| => g[i].count)
  }

  function RanksOf(g: seq<Group>): (r: seq<int>)
    ensures |r| == |g| && forall i :: 0 <= i < |g| ==> r[i] == g[i].rank
  {
    seq(|g|, i requires 0 <= i < |g| => g[i].rank)
  }

  /** Over a list of all values without repeats, the multiplicities add up to the size. */
  lemma {:induction false} CountsAddUp(values: seq<int>, m: multiset<int>, counts: seq<int>)
    requires Distinct(values) && forall x :: x in m ==> x in values
    requires |counts| == |values| && forall i :: 0 <= i < |values| ==> counts[i] == m[values[i]]
    ensures Sum(counts) == |m|
  {
    if values == [] {
      assert forall x :: m[x] == 0;
      assert m == multiset{};
    } else {
      var x := values[0];
      var rest := m[x := 0];
      assert |m| == |rest| + m[x] by {
        assert m == rest[x := m[x]];
      }
      CountsAddUp(values[1..], rest, counts[1..]);
    }
  }

  /** `g` lists every rank once with its multiplicity, more cards first and then the higher rank. */
  ghost predicate Groupings(g: seq<Group>, ranks: seq<int>) {
    && (forall r :: r in ranks <==> r in RanksOf(g))
    && (forall i :: 0 <= i < |g| ==> g[i].count == multiset(ranks)[g[i].rank] >= 1)
    && (forall i, j :: 0 <= i < j < |g| ==>
          g[i].count > g[j].count || (g[i].count == g[j].count && g[i].rank > g[j].rank))
  }

  lemma SortedGroups(ranks: seq<int>)
    ensures multiset(Groups(ranks)) == multiset(GroupList(ranks))
    ensures SortedBy(ByFrequency(), Groups(ranks))
  {
    OrdersAreTotal();
    SortSorts(ByFrequency(), GroupList(ranks));
  }

  lemma GroupMembers(ranks: seq<int>)
    ensures forall x :: x in Groups(ranks) <==> x.rank in ranks && x.count == multiset(ranks)[x.rank]
  {
    var l := GroupList(ranks);
    SortedGroups(ranks);
    SameMembers(Groups(ranks), l);
    forall x ensures x in l <==> x.rank in ranks && x.count == multiset(ranks)[x.rank] {
      if x.rank in ranks {
        var i :| 0 <= i < |l| && Unique(ranks)[i] == x.rank;
        assert l[i].rank == x.rank;
      }
    }
  }

  lemma GroupsDistinct(ranks: seq<int>)
    ensures Distinct(Groups(ranks)) && Distinct(RanksOf(Groups(ranks)))
  {
    var l, g := GroupList(ranks), Groups(ranks);
    SortedGroups(ranks);
    assert Distinct(l);
    DistinctMultiset(l);
    MultisetDistinct(g);
    GroupMembers(ranks);
    forall i, j | 0 <= i < j < |g| ensures g[i].rank != g[j].rank {
      assert g[i] in g && g[j] in g;
    }
  }

  lemma GroupRanks(ranks: seq<int>)
    ensures forall r :: r in ranks <==> r in RanksOf(Groups(ranks))
  {
    hide Groups;
    var g := Groups(ranks);
    GroupMembers(ranks);
    assert forall k :: 0 <= k < |g| ==> g[k] in g;
    forall r | r in ranks ensures r in RanksOf(g) {
      assert Group(r, multiset(ranks)[r]) in g;
      var k :| 0 <= k < |g| && g[k] == Group(r, multiset(ranks)[r]);
      assert RanksOf(g)[k] == r;
    }
  }

  lemma GroupOrder(ranks: seq<int>, i: nat, j: nat)
    requires i < j < |Groups(ranks)|
    ensures var g := Groups(ranks);
      g[i].count > g[j].count || (g[i].count == g[j].count && g[i].rank > g[j].rank)
  {
    hide Groups;
    var g := Groups(ranks);
    SortedGroups(ranks);
    GroupsDistinct(ranks);
    assert ByFrequency()(g[i], g[j]);
    assert RanksOf(g)[i] != RanksOf(g)[j];
  }

  lemma GroupCounts(ranks: seq<int>)
    ensures var g := Groups(ranks); forall i :: 0 <= i < |g| ==> g[i].count == multiset(ranks)[g[i].rank] >= 1
  {
    hide Groups;
    var g := Groups(ranks);
    GroupMembers(ranks);
    forall i | 0 <= i < |g| ensures g[i].count == multiset(ranks)[g[i].rank] >= 1 {
      assert g[i] in g;
    }
  }

  lemma GroupSum(ranks: seq<int>)
    ensures Sum(CountsOf(Groups(ranks))) == |ranks|
  {
    hide Groups, Sum;
    GroupRanks(ranks);
    GroupCounts(ranks);
    GroupsDistinct(ranks);
    CountsAddUp(RanksOf(Groups(ranks)), multiset(ranks), CountsOf(Groups(ranks)));
  }

  lemma GroupsAreGroupings(ranks: seq<int>)
    ensures Groupings(Groups(ranks), ranks)
    ensures Sum(CountsOf(Groups(ranks))) == |ranks|
    ensures |Groups(ranks)| == |Unique(ranks)| <= |ranks|
  {
    var g := Groups(ranks);
    assert |g| == |Unique(ranks)|;
    hide Groups, Unique, CountsOf, RanksOf, Sum;
    GroupRanks(ranks);
    GroupCounts(ranks);
    GroupSum(ranks);
    UniqueNoLonger(ranks);
    forall i, j | 0 <= i < j < |g|
      ensures g[i].count > g[j].count || (g[i].count == g[j].count && g[i].rank > g[j].rank)
    {
      GroupOrder(ranks, i, j);
    }
  }

  lemma SumUnrolled(k: seq<int>)
    requires |k| <= 5
    ensures Sum(k) == (if |k| > 0 then k[0] else 0) + (if |k| > 1 then k[1] else 0) + (if |k| > 2 then k[2] else 0)
                      + (if |k| > 3 then k[3] else 0) + (if |k| > 4 then k[4] else 0)
  {
    assert |k| > 1 ==> k[1..][1..] == k[2..];
    assert |k| > 2 ==> k[2..][1..] == k[3..];
    assert |k| > 3 ==> k[3..][1..] == k[4..];
    assert |k| > 4 ==> k[4..][1..] == k[5..];
  }

  /** The multiplicities a five-card hand can have. */
  ghost predicate Shape(k: seq<int>) {
    || k == [4, 1] || k == [3, 2] || k == [3, 1, 1]
    || k == [2, 2, 1] || k == [2, 1, 1, 1] || k == [1, 1, 1, 1, 1]
  }

  lemma Partitions(k: seq<int>)
    requires |k| <= 5 && Sum(k) == 5
    requires forall i :: 0 <= i < |k| ==> 1 <= k[i] <= 4
    requires forall i, j :: 0 <= i < j < |k| ==> k[i] >= k[j]
    ensures Shape(k)
  {
    hide Sum;
    SumUnrolled(k);
    if |k| == 2 {
      assert k == [k[0], k[1]];
    } else if |k| == 3 {
      assert k == [k[0], k[1], k[2]];
    } else if |k| == 4 {
      assert k == [k[0], k[1], k[2], k[3]];
    } else {
      assert |k| == 5;
      assert k == [k[0], k[1], k[2], k[3], k[4]];
    }
  }

  // ---------- the meaning of a value ----------

  /** Straights and flushes need five different ranks; otherwise the multiplicities name the category. */
  function Classify(g: seq<Group>, high: int, flush: bool): HandValue
    requires Shape(CountsOf(g))
  {
    var k := CountsOf(g);
    if |k| == 5 then
      if high != -1 then HandValue(if flush then StraightFlush else Straight, [high])
      else HandValue(if flush then Flush else HighCard, RanksOf(g))
    else
      HandValue(
        if k[0] == 4 then FourOfAKind
        else if k[0] == 3 then (if |k| == 2 then FullHouse else ThreeOfAKind)
        else if |k| == 3 then TwoPair else Pair,
        RanksOf(g))
  }

  lemma RankAtMostFour(cards: seq<Card>)
    requires |cards| == 5 && Distinct(cards)
    ensures forall r :: multiset(SortedRanks(cards))[r] <= 4
  {
    RanksAreSorted(cards);
    var ranks := CardRanks(cards);
    forall r ensures multiset(ranks)[r] <= 4 {
      if multiset(ranks)[r] >= 5 {
        AllTheSame(ranks, r);
        FiveInFour(cards[0] - 4 * r, cards[1] - 4 * r, cards[2] - 4 * r, cards[3] - 4 * r, cards[4] - 4 * r);
      }
    }
  }

  lemma FiveInFour(a: int, b: int, c: int, d: int, e: int)
    requires 0 <= a < 4 && 0 <= b < 4 && 0 <= c < 4 && 0 <= d < 4 && 0 <= e < 4
    ensures a == b || a == c || a == d || a == e || b == c || b == d || b == e || c == d || c == e || d == e
  {
  }

  lemma AllTheSame(s: seq<int>, x: int)
    requires multiset(s)[x] >= |s|
    ensures forall i :: 0 <= i < |s| ==> s[i] == x
  {
    forall i | 0 <= i < |s| ensures s[i] == x {
      WithoutMultiset(s, i);
      assert |multiset(Without(s, i))| == |s| - 1;
      assert multiset(Without(s, i))[x] <= |s| - 1 by {
        var m := multiset(Without(s, i));
        assert m == m[x := 0] + multiset{}[x := m[x]];
      }
    }
  }

  /** Five cards of one suit have five different ranks. */
  lemma FlushRanksDiffer(cards: seq<Card>)
    requires |cards| == 5 && Distinct(cards) && IsFlush(cards)
    ensures |Groups(SortedRanks(cards))| == 5
  {
    AllRanksDiffer(cards);
  }

  lemma AllRanksDiffer(cards: seq<Card>)
    requires |cards| == 5 && Distinct(CardRanks(cards))
    ensures |Groups(SortedRanks(cards))| == 5
  {
    RanksAreSorted(cards);
    DistinctMultiset(CardRanks(cards));
    MultisetDistinct(SortedRanks(cards));
    DistinctUnique(SortedRanks(cards));
  }

  lemma {:induction false} DistinctUnique(s: seq<int>)
    requires Distinct(s)
    ensures Unique(s) == s
  {
    if s != [] {
      DistinctUnique(s[..|s| - 1]);
    }
  }

  /** So does a straight, the wheel included. */
  lemma StraightRanksDiffer(ranks: seq<int>)
    requires |ranks| == 5 && StraightHigh(ranks) != -1
    ensures |Groups(ranks)| == 5
  {
    var u := Unique(ranks);
    UniqueNoLonger(ranks);
    if |u| != 5 {
      WheelIsFive(u);
    }
  }

  lemma WheelIsFive(u: seq<int>)
    requires Distinct(u) && 12 in u && 0 in u && 1 in u && 2 in u && 3 in u
    ensures |u| >= 5
  {
    var wheel := {12, 0, 1, 2, 3};
    DistinctMultiset(u);
    assert wheel <= Elements(u);
    assert |Elements(u) - wheel| == |Elements(u)| - |wheel|;
  }

  lemma GroupsOfHand(cards: seq<Card>)
    requires |cards| == 5 && Distinct(cards)
    ensures Shape(CountsOf(Groups(SortedRanks(cards))))
  {
    var g := Groups(SortedRanks(cards));
    GroupsAreGroupings(SortedRanks(cards));
    RankAtMostFour(cards);
    Partitions(CountsOf(g));
  }

  lemma RestOfRanks(ranks: seq<int>, g: seq<Group>)
    requires Groupings(g, ranks) && g != []
    ensures Distinct(RanksOf(g)[1..])
    ensures forall x :: x in RanksOf(g)[1..] <==> x in ranks && x != g[0].rank
  {
    var list := RanksOf(g);
    assert Distinct(list);
    assert list == [list[0]] + list[1..];
    assert forall x :: x in list <==> x == list[0] || x in list[1..];
  }

  lemma RestCount(ranks: seq<int>, g: seq<Group>, x: int)
    requires Groupings(g, ranks) && g != [] && forall i :: 1 <= i < |g| ==> g[i].count == 1
    ensures multiset(RanksOf(g)[1..])[x] == if x != g[0].rank then multiset(ranks)[x] else 0
  {
    var rest := RanksOf(g)[1..];
    RestOfRanks(ranks, g);
    DistinctMultiset(rest);
    assert x in rest <==> multiset(rest)[x] == 1;
    if x in rest {
      var i :| 0 <= i < |rest| && rest[i] == x;
      assert g[i + 1].rank == x && g[i + 1].count == multiset(ranks)[x];
    }
  }

  /** Every rank but the most frequent one is single: filtering it out leaves the others in order. */
  lemma OthersInOrder(ranks: seq<int>, g: seq<Group>, top: int)
    requires Groupings(g, ranks) && SortedBy(Descending(), ranks)
    requires g != [] && top == g[0].rank && forall i :: 1 <= i < |g| ==> g[i].count == 1
    ensures Filter(Besides(top), ranks) == RanksOf(g)[1..]
  {
    var others, rest := Filter(Besides(top), ranks), RanksOf(g)[1..];
    OrdersAreTotal();
    FilterSorted(Besides(top), Descending(), ranks);
    FilterMultiset(Besides(top), ranks);
    forall x ensures multiset(others)[x] == multiset(rest)[x] {
      RestCount(ranks, g, x);
    }
    RestSorted(g);
    SortedUnique(Descending(), others, rest);
  }

  lemma RestSorted(g: seq<Group>)
    requires forall i, j :: 0 <= i < j < |g| ==>
               g[i].count > g[j].count || (g[i].count == g[j].count && g[i].rank > g[j].rank)
    requires g != [] && forall i :: 1 <= i < |g| ==> g[i].count == 1
    ensures SortedBy(Descending(), RanksOf(g)[1..])
  {
  }

  lemma SinglesInOrder(ranks: seq<int>, g: seq<Group>)
    requires Groupings(g, ranks) && SortedBy(Descending(), ranks)
    requires forall i :: 0 <= i < |g| ==> g[i].count == 1
    ensures ranks == RanksOf(g)
  {
    var list := RanksOf(g);
    OrdersAreTotal();
    assert Distinct(list);
    DistinctMultiset(list);
    forall x ensures multiset(ranks)[x] == multiset(list)[x] {
      if x in ranks {
        var i :| 0 <= i < |g| && list[i] == x;
        assert g[i].count == multiset(ranks)[x];
        assert x in multiset(list);
      }
    }
    SortedUnique(Descending(), ranks, list);
  }

  /** With two groups, or three of which two are known, looking past the known ranks finds the last. */
  lemma FindsLast(ranks: seq<int>, g: seq<Group>, test: int -> bool)
    requires Groupings(g, ranks) && g != []
    requires test(g[|g| - 1].rank) && forall i :: 0 <= i < |g| - 1 ==> !test(g[i].rank)
    ensures FindOr(test, ranks, 0) == g[|g| - 1].rank
  {
    FindOrFinds(test, ranks, 0);
    var x := FindOr(test, ranks, 0);
    assert RanksOf(g)[|g| - 1] in ranks;
    assert x in RanksOf(g);
  }

  lemma SortPair(a: int, b: int)
    requires a >= b
    ensures Sort(Descending(), [a, b]) == [a, b]
  {
    assert [a, b][1..] == [b] && [b][1..] == [];
    assert Sort(Descending(), [b]) == [b];
  }

  /** Five different cards have the value that their multiplicities, suits and runs define. */
  lemma EvaluateClassifies(cards: seq<Card>)
    requires |cards| == 5 && Distinct(cards)
    ensures var ranks := SortedRanks(cards);
      && Groupings(Groups(ranks), ranks) && Shape(CountsOf(Groups(ranks)))
      && Evaluate(cards) == Classify(Groups(ranks), StraightHigh(ranks), IsFlush(cards))
  {
    var ranks := SortedRanks(cards);
    var g := Groups(ranks);
    GroupsOfHand(cards);
    GroupsAreGroupings(ranks);
    RanksAreSorted(cards);
    hide ValueOf, Groups, StraightHigh, IsFlush, SortedRanks;
    if |g| == 5 {
      SingleRanks(ranks, g, IsFlush(cards));
    } else {
      if IsFlush(cards) { FlushRanksDiffer(cards); }
      if StraightHigh(ranks) != -1 { StraightRanksDiffer(ranks); }
      RepeatedRanks(ranks, g);
    }
  }

  lemma SingleRanks(ranks: seq<int>, g: seq<Group>, flush: bool)
    requires |ranks| == 5 && g == Groups(ranks) && Groupings(g, ranks) && SortedBy(Descending(), ranks)
    requires Shape(CountsOf(g)) && |g| == 5
    ensures ValueOf(ranks, flush) == Classify(g, StraightHigh(ranks), flush)
  {
    hide Groups, StraightHigh;
    assert CountsOf(g) == [1, 1, 1, 1, 1];
    assert forall i :: 0 <= i < 5 ==> g[i].count == CountsOf(g)[i];
    SinglesInOrder(ranks, g);
  }

  lemma RepeatedRanks(ranks: seq<int>, g: seq<Group>)
    requires |ranks| == 5 && g == Groups(ranks) && Groupings(g, ranks) && SortedBy(Descending(), ranks)
    requires Shape(CountsOf(g)) && |g| != 5 && StraightHigh(ranks) == -1
    ensures ValueOf(ranks, false) == Classify(g, -1, false)
  {
    hide Filter, FindOr, Sort, Groups, StraightHigh;
    var k, top := CountsOf(g), g[0].rank;
    if k[0] == 4 {
      FindsLast(ranks, g, Besides(top));
      assert RanksOf(g) == [top, g[1].rank];
    } else if |k| == 2 {
      assert RanksOf(g) == [top, g[1].rank];
    } else if k[0] == 2 && k[1] == 2 {
      SortPair(top, g[1].rank);
      var pairs := [top, g[1].rank];
      FindsLast(ranks, g, BesidesBoth(pairs[0], pairs[1]));
      assert RanksOf(g) == pairs + [g[2].rank];
    } else {
      OthersInOrder(ranks, g, top);
      assert RanksOf(g) == [top] + RanksOf(g)[1..];
    }
  }
}
