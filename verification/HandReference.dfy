/** What the value of five cards says about the cards themselves: shared/poker/sidePots.ts, evaluate5. */
module HandReference {
  import opened Sequences
  import opened Verify
  import opened HandEvaluation
  import opened Straights
  import opened HandMeaning

  // ---------- cards: rank card / 4, suit card % 4 ----------

  predicate AllOfSuit(cards: seq<Card>, suit: int) {
    forall i :: 0 <= i < |cards| ==> cards[i] % 4 == suit
  }

  ghost predicate OneSuit(cards: seq<Card>) {
    exists suit :: AllOfSuit(cards, suit)
  }

  /** How many of the cards have the rank. */
  function Copies(cards: seq<Card>, rank: int): nat {
    if cards == [] then 0 else (if cards[0] / 4 == rank then 1 else 0) + Copies(cards[1..], rank)
  }

  /** The ranks on the cards are `high` and the four below it. */
  ghost predicate FiveUpTo(cards: seq<Card>, high: int) {
    forall r :: Copies(cards, r) > 0 <==> high - 4 <= r <= high
  }

  /** The ranks on the cards are the ace and the four lowest. */
  ghost predicate AceToFive(cards: seq<Card>) {
    forall r :: Copies(cards, r) > 0 <==> r == 12 || 0 <= r <= 3
  }

  ghost predicate InARow(cards: seq<Card>) {
    AceToFive(cards) || exists high :: FiveUpTo(cards, high)
  }

  /** The list has every rank on the cards once, the more frequent first and the higher first among equals. */
  ghost predicate ListsRanks(list: seq<int>, cards: seq<Card>) {
    && (forall r :: r in list <==> Copies(cards, r) > 0)
    && forall i, j :: 0 <= i < j < |list| ==>
         Copies(cards, list[i]) > Copies(cards, list[j])
         || (Copies(cards, list[i]) == Copies(cards, list[j]) && list[i] > list[j])
  }

  /** Some rank is on exactly `n` cards. */
  ghost predicate OnSome(cards: seq<Card>, n: nat) {
    exists r :: Copies(cards, r) == n
  }

  ghost predicate TwoPairs(cards: seq<Card>) {
    exists q, r :: q < r && Copies(cards, q) == 2 && Copies(cards, r) == 2
  }

  lemma {:induction false} CopiesCounted(cards: seq<Card>, rank: int)
    ensures multiset(CardRanks(cards))[rank] == Copies(cards, rank)
  {
    if cards != [] {
      var first, rest := cards[0] / 4, cards[1..];
      CopiesCounted(rest, rank);
      assert CardRanks(cards) == [first] + CardRanks(rest);
      assert multiset(CardRanks(cards)) == multiset{first} + multiset(CardRanks(rest));
    }
  }

  /** The groups of a hand, read off its cards. */
  lemma GroupsRead(cards: seq<Card>)
    ensures var g := Groups(SortedRanks(cards));
      && (forall i :: 0 <= i < |g| ==> g[i].count == Copies(cards, g[i].rank) >= 1)
      && (forall r :: Copies(cards, r) > 0 <==> r in RanksOf(g))
      && ListsRanks(RanksOf(g), cards)
  {
    hide Groups, SortedRanks, Copies, CardRanks;
    var ranks := SortedRanks(cards);
    var g := Groups(ranks);
    GroupsAreGroupings(ranks);
    RanksAreSorted(cards);
    forall r ensures multiset(ranks)[r] == Copies(cards, r) {
      CopiesCounted(cards, r);
    }
    forall r ensures Copies(cards, r) > 0 <==> r in RanksOf(g) {
      assert r in ranks <==> r in multiset(ranks);
    }
  }

  lemma CountsRead(cards: seq<Card>, n: nat)
    requires n > 0
    ensures OnSome(cards, n) <==> n in CountsOf(Groups(SortedRanks(cards)))
  {
    hide Groups, SortedRanks, Copies;
    var g := Groups(SortedRanks(cards));
    GroupsRead(cards);
    if OnSome(cards, n) {
      var r :| Copies(cards, r) == n;
      var i :| 0 <= i < |g| && RanksOf(g)[i] == r;
      assert CountsOf(g)[i] == n;
    }
    if n in CountsOf(g) {
      var i :| 0 <= i < |g| && CountsOf(g)[i] == n;
      assert Copies(cards, g[i].rank) == n;
    }
  }

  lemma PairsRead(cards: seq<Card>)
    requires Shape(CountsOf(Groups(SortedRanks(cards))))
    ensures TwoPairs(cards) <==> CountsOf(Groups(SortedRanks(cards))) == [2, 2, 1]
  {
    hide Groups, SortedRanks, Copies, Shape, ListsRanks;
    var g := Groups(SortedRanks(cards));
    var k := CountsOf(g);
    GroupsRead(cards);
    GroupsAreGroupings(SortedRanks(cards));
    if TwoPairs(cards) {
      var q, r :| q < r && Copies(cards, q) == 2 && Copies(cards, r) == 2;
      var a :| 0 <= a < |g| && RanksOf(g)[a] == q;
      var b :| 0 <= b < |g| && RanksOf(g)[b] == r;
      TwoTwos(k, a, b);
    }
    if k == [2, 2, 1] {
      assert k[0] == 2 && k[1] == 2;
      assert g[1].rank < g[0].rank && Copies(cards, g[0].rank) == 2 && Copies(cards, g[1].rank) == 2;
    }
  }

  lemma TwoTwos(k: seq<int>, a: nat, b: nat)
    requires Shape(k) && a < |k| && b < |k| && a != b && k[a] == k[b] == 2
    ensures k == [2, 2, 1]
  {
  }

  lemma RunsRead(cards: seq<Card>)
    requires |cards| == 5
    ensures var high := StraightHigh(SortedRanks(cards));
      && (InARow(cards) <==> high != -1)
      && (high != -1 ==> FiveUpTo(cards, high) || (AceToFive(cards) && high == 3))
  {
    hide StraightHigh, SortedRanks, Copies, CardRanks;
    var ranks := SortedRanks(cards);
    RanksAreSorted(cards);
    NoNegativeRank(cards);
    StraightMeaning(ranks);
    forall r ensures Copies(cards, r) > 0 <==> r in ranks {
      CopiesCounted(cards, r);
      assert r in ranks <==> r in multiset(ranks);
    }
    if high :| FiveUpTo(cards, high) {
      assert RunTo(ranks, high);
      assert high - 4 in ranks;
    }
    if AceToFive(cards) {
      assert Wheel(ranks);
    }
    if StraightHigh(ranks) != -1 {
      if RunTo(ranks, StraightHigh(ranks)) {
        assert FiveUpTo(cards, StraightHigh(ranks));
      } else {
        assert AceToFive(cards);
      }
    }
  }

  lemma FlushRead(cards: seq<Card>)
    requires cards != []
    ensures IsFlush(cards) <==> OneSuit(cards)
  {
    if IsFlush(cards) {
      assert AllOfSuit(cards, cards[0] % 4);
    }
  }

  lemma Classified(cards: seq<Card>)
    requires |cards| == 5 && Distinct(cards)
    ensures var g, high := Groups(SortedRanks(cards)), StraightHigh(SortedRanks(cards));
      && Shape(CountsOf(g)) && Evaluate(cards) == Classify(g, high, IsFlush(cards))
      && (|g| != 5 ==> high == -1 && !IsFlush(cards))
  {
    hide Evaluate, Groups, StraightHigh, IsFlush, SortedRanks;
    EvaluateClassifies(cards);
    RanksAreSorted(cards);
    if IsFlush(cards) {
      FlushRanksDiffer(cards);
    }
    if StraightHigh(SortedRanks(cards)) != -1 {
      StraightRanksDiffer(SortedRanks(cards));
    }
  }

  /** A hand is a flush or a straight flush exactly when its cards have one suit, whichever it is. */
  lemma FlushMeaning(cards: seq<Card>)
    requires |cards| == 5 && Distinct(cards)
    ensures Evaluate(cards).rank in {Flush, StraightFlush} <==> OneSuit(cards)
  {
    hide Evaluate, Groups, StraightHigh, IsFlush, SortedRanks;
    Classified(cards);
    FlushRead(cards);
  }

  /** It is a straight, plain or flush, exactly when its ranks are in a row; its one kicker is the top of the row. */
  lemma StraightValue(cards: seq<Card>)
    requires |cards| == 5 && Distinct(cards)
    ensures var v := Evaluate(cards);
      && (v.rank in {Straight, StraightFlush} <==> InARow(cards))
      && (InARow(cards) ==>
            |v.kickers| == 1 && (FiveUpTo(cards, v.kickers[0]) || (AceToFive(cards) && v.kickers == [3])))
  {
    hide Evaluate, Groups, StraightHigh, IsFlush, SortedRanks;
    Classified(cards);
    RunsRead(cards);
  }

  /**
   * The other categories go by how many cards share a rank, and their kickers are all the
   * ranks on the cards, the more frequent first and the higher first among equals.
   */
  lemma GroupedValue(cards: seq<Card>)
    requires |cards| == 5 && Distinct(cards)
    ensures var v := Evaluate(cards);
      && (!InARow(cards) ==> ListsRanks(v.kickers, cards))
      && (v.rank == FourOfAKind <==> OnSome(cards, 4))
      && (v.rank == FullHouse <==> OnSome(cards, 3) && OnSome(cards, 2))
      && (v.rank == ThreeOfAKind <==> OnSome(cards, 3) && !OnSome(cards, 2))
      && (v.rank == TwoPair <==> TwoPairs(cards))
      && (v.rank == Pair <==> OnSome(cards, 2) && !OnSome(cards, 3) && !TwoPairs(cards))
  {
    hide Evaluate, Groups, StraightHigh, IsFlush, SortedRanks, OnSome, TwoPairs, ListsRanks, InARow;
    var k := CountsOf(Groups(SortedRanks(cards)));
    Classified(cards);
    RunsRead(cards);
    GroupsRead(cards);
    PairsRead(cards);
    CountsRead(cards, 4);
    CountsRead(cards, 3);
    CountsRead(cards, 2);
    ShapeCounts(k);
  }

  lemma ShapeCounts(k: seq<int>)
    requires Shape(k)
    ensures 4 in k <==> k == [4, 1]
    ensures 3 in k <==> k == [3, 2] || k == [3, 1, 1]
    ensures 2 in k <==> k == [3, 2] || k == [2, 2, 1] || k == [2, 1, 1, 1]
  {
    assert |k| > 0 && (4 in k ==> k[0] == 4) && (k[0] == 4 ==> k == [4, 1]);
    assert k == [3, 2] ==> k[1] == 2;
  }
}
