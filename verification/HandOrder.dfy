/** The order the score puts on hands: shared/poker/sidePots.ts, score. */
module HandOrder {
  import opened Sequences
  import opened Verify
  import opened HandEvaluation
  import opened Straights
  import opened HandMeaning

  ghost predicate LexLess(a: seq<int>, b: seq<int>) {
    b != [] && (a == [] || a[0] < b[0] || (a[0] == b[0] && LexLess(a[1..], b[1..])))
  }

  function KickerCount(rank: HandRank): nat {
    match rank
    case HighCard => 5
    case Pair => 4
    case TwoPair => 3
    case ThreeOfAKind => 3
    case Straight => 1
    case Flush => 5
    case FullHouse => 2
    case FourOfAKind => 2
    case StraightFlush => 1
  }

  /** The values real hands have: ranks as digits, and no high card below a six (rank 4). */
  ghost predicate HandLike(v: HandValue) {
    && |v.kickers| == KickerCount(v.rank)
    && (forall i :: 0 <= i < |v.kickers| ==> 0 <= v.kickers[i] <= 12)
    && (v.rank == HighCard ==> v.kickers[0] >= 4)
  }

  lemma HandsAreHandLike(cards: seq<Card>)
    requires |cards| == 5 && Distinct(cards)
    ensures HandLike(Evaluate(cards))
  {
    var ranks := SortedRanks(cards);
    EvaluateClassifies(cards);
    NoNegativeRank(cards);
    HighInRange(ranks);
    GroupedRanksInRange(ranks, Groups(ranks));
    ClassifiedIsHandLike(Groups(ranks), StraightHigh(ranks), IsFlush(cards));
  }

  lemma ClassifiedIsHandLike(g: seq<Group>, high: int, flush: bool)
    requires Shape(CountsOf(g)) && -1 <= high <= 12
    requires forall i :: 0 <= i < |g| ==> 0 <= RanksOf(g)[i] <= 12
    requires |g| == 5 ==> RanksOf(g)[0] >= 4
    ensures HandLike(Classify(g, high, flush))
  {
    assert |g| == |CountsOf(g)|;
  }

  lemma HighInRange(ranks: seq<int>)
    requires |ranks| == 5 && forall r :: r in ranks ==> 0 <= r <= 12
    ensures -1 <= StraightHigh(ranks) <= 12
  {
    StraightMeaning(ranks);
    var high := StraightHigh(ranks);
    if high != -1 && RunTo(ranks, high) {
      assert high in ranks;
    } else if high != -1 {
      assert Wheel(ranks);
    }
  }

  lemma GroupedRanksInRange(ranks: seq<int>, g: seq<Group>)
    requires Groupings(g, ranks) && Shape(CountsOf(g))
    requires forall r :: r in ranks ==> 0 <= r <= 12
    ensures forall i :: 0 <= i < |g| ==> 0 <= RanksOf(g)[i] <= 12
    ensures |g| == 5 ==> RanksOf(g)[0] >= 4
  {
    var r := RanksOf(g);
    forall i | 0 <= i < |g| ensures 0 <= r[i] <= 12 {
      assert r[i] in ranks;
    }
    if |g| == 5 {
      assert forall i :: 0 <= i < 5 ==> g[i].count == CountsOf(g)[i] == 1;
      assert r[0] > r[1] > r[2] > r[3] > r[4];
    }
  }

  function Power(k: nat): int {
    if k == 0 then 1 else BASE * Power(k - 1)
  }

  lemma {:induction false} DigitsBounds(s: int, kickers: seq<int>)
    requires forall i :: 0 <= i < |kickers| ==> 0 <= kickers[i] < BASE
    ensures s * Power(|kickers|) <= Digits(s, kickers) < (s + 1) * Power(|kickers|)
    decreases |kickers|
  {
    if kickers != [] {
      var p := Power(|kickers| - 1);
      DigitsBounds(s * BASE + kickers[0], kickers[1..]);
      assert p > 0 by { PowerPositive(|kickers| - 1); }
      Scale(s * BASE, s * BASE + kickers[0], p);
      Scale(s * BASE + kickers[0] + 1, (s + 1) * BASE, p);
      Regroup(s, p);
      Regroup(s + 1, p);
    }
  }

  lemma {:induction false} PowerPositive(k: nat)
    ensures Power(k) > 0
  {
    if k > 0 {
      PowerPositive(k - 1);
    }
  }

  lemma Scale(a: int, b: int, p: int)
    requires a <= b && p > 0
    ensures a * p <= b * p
  {
  }

  lemma Regroup(s: int, p: int)
    ensures s * BASE * p == s * (BASE * p)
  {
  }

  /** Digit lists of one length compare like the numbers they write. */
  lemma {:induction false} DigitsLex(s: int, a: seq<int>, b: seq<int>)
    requires |a| == |b|
    requires forall i :: 0 <= i < |a| ==> 0 <= a[i] < BASE && 0 <= b[i] < BASE
    ensures Digits(s, a) < Digits(s, b) <==> LexLess(a, b)
    ensures Digits(s, a) == Digits(s, b) <==> a == b
    decreases |a|
  {
    if a != [] {
      var x, y := s * BASE + a[0], s * BASE + b[0];
      if a[0] == b[0] {
        DigitsLex(x, a[1..], b[1..]);
        assert a == [a[0]] + a[1..] && b == [b[0]] + b[1..];
      } else {
        PowerPositive(|a| - 1);
        DigitsBounds(x, a[1..]);
        DigitsBounds(y, b[1..]);
        if x < y {
          Scale(x + 1, y, Power(|a| - 1));
        } else {
          Scale(y + 1, x, Power(|a| - 1));
        }
      }
    }
  }

  /** First the number of kickers, then the category. */
  ghost predicate Below(a: HandRank, b: HandRank) {
    KickerCount(a) < KickerCount(b) || (KickerCount(a) == KickerCount(b) && Strength(a) < Strength(b))
  }

  lemma ScoreBand(v: HandValue)
    requires HandLike(v)
    ensures match v.rank
      case Straight => 60 <= Score(v) < 75
      case StraightFlush => 120 <= Score(v) < 135
      case FullHouse => 1350 <= Score(v) < 1575
      case FourOfAKind => 1575 <= Score(v) < 1800
      case TwoPair => 6750 <= Score(v) < 10125
      case ThreeOfAKind => 10125 <= Score(v) < 13500
      case Pair => 50625 <= Score(v) < 101250
      case HighCard => 202500 <= Score(v) < 759375
      case Flush => 3796875 <= Score(v) < 4556250
  {
    DigitsBounds(Strength(v.rank), v.kickers);
    assert Power(1) == 15 && Power(2) == 225 && Power(3) == 3375;
    assert Power(4) == 50625 && Power(5) == 759375;
    if v.rank == HighCard {
      DigitsBounds(v.kickers[0], v.kickers[1..]);
      Scale(4, v.kickers[0], Power(4));
    }
  }

  lemma BandsFollowBelow(a: HandValue, b: HandValue)
    requires HandLike(a) && HandLike(b) && Below(a.rank, b.rank)
    ensures Score(a) < Score(b)
  {
    ScoreBand(a);
    ScoreBand(b);
  }

  /**
   * The order of scores, exactly: fewer kickers lose; with as many kickers the weaker
   * category loses; within a category the kickers decide, highest first. Equal scores
   * mean the same category and kickers.
   */
  lemma ScoreOrder(a: HandValue, b: HandValue)
    requires HandLike(a) && HandLike(b)
    ensures Score(a) < Score(b) <==> Below(a.rank, b.rank) || (a.rank == b.rank && LexLess(a.kickers, b.kickers))
    ensures Score(a) == Score(b) <==> a == b
  {
    if a.rank == b.rank {
      DigitsLex(Strength(a.rank), a.kickers, b.kickers);
    } else {
      assert Below(a.rank, b.rank) || Below(b.rank, a.rank);
      if Below(a.rank, b.rank) {
        BandsFollowBelow(a, b);
      } else {
        BandsFollowBelow(b, a);
      }
    }
  }

  /**
   * Between two hands of different categories the score agrees with the ranking of
   * categories exactly when the stronger one has at least as many kickers.
   */
  lemma CategoriesRanked(strong: seq<Card>, weak: seq<Card>)
    requires |strong| == |weak| == 5 && Distinct(strong) && Distinct(weak)
    requires Strength(Evaluate(strong).rank) > Strength(Evaluate(weak).rank)
    ensures Score(Evaluate(strong)) > Score(Evaluate(weak))
       <==> |Evaluate(strong).kickers| >= |Evaluate(weak).kickers|
  {
    HandsAreHandLike(strong);
    HandsAreHandLike(weak);
    ScoreOrder(Evaluate(strong), Evaluate(weak));
    ScoreOrder(Evaluate(weak), Evaluate(strong));
  }

  /** Hands tie exactly when category and kickers agree. */
  lemma TiesAreEqualValues(a: seq<Card>, b: seq<Card>)
    requires |a| == |b| == 5 && Distinct(a) && Distinct(b)
    ensures Score(Evaluate(a)) == Score(Evaluate(b)) <==> Evaluate(a) == Evaluate(b)
    ensures Evaluate(a).rank == Evaluate(b).rank ==>
      (Score(Evaluate(a)) < Score(Evaluate(b)) <==> LexLess(Evaluate(a).kickers, Evaluate(b).kickers))
  {
    HandsAreHandLike(a);
    HandsAreHandLike(b);
    ScoreOrder(Evaluate(a), Evaluate(b));
  }

  /** A royal flush scores below a seven high: the score does not follow the categories. */
  lemma RoyalFlushLoses() returns (royal: seq<Card>, sevenHigh: seq<Card>)
    ensures |royal| == |sevenHigh| == 5 && Distinct(royal) && Distinct(sevenHigh)
    ensures Evaluate(royal) == HandValue(StraightFlush, [12])
    ensures Evaluate(sevenHigh).rank == HighCard
    ensures Score(Evaluate(royal)) < Score(Evaluate(sevenHigh))
  {
    royal := RoyalFlush();
    sevenHigh := SevenHigh();
    HandsAreHandLike(royal);
    HandsAreHandLike(sevenHigh);
    ScoreOrder(Evaluate(royal), Evaluate(sevenHigh));
  }

  lemma RoyalFlush() returns (royal: seq<Card>)
    ensures |royal| == 5 && Distinct(royal) && Evaluate(royal) == HandValue(StraightFlush, [12])
  {
    royal := [32, 36, 40, 44, 48];
    var ranks := CardRanks(royal);
    assert ranks == [8, 9, 10, 11, 12];
    forall r ensures r in ranks <==> 8 <= r <= 12 {
      assert 8 <= r <= 12 ==> ranks[r - 8] == r;
    }
    SuitedRun(royal, 12);
  }

  lemma SuitedRun(cards: seq<Card>, high: int)
    requires |cards| == 5 && Distinct(cards) && IsFlush(cards) && RunTo(CardRanks(cards), high) && high >= 4
    ensures Evaluate(cards) == HandValue(StraightFlush, [high])
  {
    RanksAreSorted(cards);
    SameMembers(SortedRanks(cards), CardRanks(cards));
    RunIsFound(SortedRanks(cards), high);
  }

  lemma SevenHigh() returns (hand: seq<Card>)
    ensures |hand| == 5 && Distinct(hand) && Evaluate(hand).rank == HighCard
  {
    hand := [0, 5, 10, 15, 20];
    var ranks := CardRanks(hand);
    assert ranks == [0, 1, 2, 3, 5];
    assert ranks[0] == 0 && ranks[4] == 5;
    assert hand[0] % 4 != hand[1] % 4;
    UnsuitedGap(hand);
  }

  lemma UnsuitedGap(cards: seq<Card>)
    requires |cards| == 5 && Distinct(CardRanks(cards)) && !IsFlush(cards)
    requires 0 in CardRanks(cards) && 5 in CardRanks(cards)
    ensures Evaluate(cards).rank == HighCard
  {
    var ranks := SortedRanks(cards);
    RanksAreSorted(cards);
    SameMembers(ranks, CardRanks(cards));
    assert forall i :: 0 <= i < 5 ==> CardRanks(cards)[i] == cards[i] / 4;
    assert Distinct(cards);
    if StraightHigh(ranks) != -1 {
      FoundIsStraight(ranks);
    }
    AllRanksDiffer(cards);
    EvaluateClassifies(cards);
  }
}
