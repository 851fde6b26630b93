/** Which of its five-card choices a hand is scored by, and who wins a showdown for it: shared/poker/sidePots.ts. */
module ShowdownOrder {
  import opened Options
  import opened Sequences
  import opened Verify
  import opened HandEvaluation
  import opened Straights
  import opened HandMeaning
  import opened HandOrder
  import opened BestHand
  import opened Table
  import opened Settlement

  /** Scores from here on belong to high cards and flushes, all others lie below. */
  const HIGH_CARDS := 202500

  /** Five different ranks that make no straight. */
  ghost predicate Loose(five: seq<Card>) {
    && |five| == 5 && Distinct(CardRanks(five))
    && (forall high :: !RunTo(CardRanks(five), high)) && !Wheel(CardRanks(five))
  }

  lemma SameStraight(five: seq<Card>)
    requires |five| == 5
    ensures (forall high :: !RunTo(CardRanks(five), high)) && !Wheel(CardRanks(five))
       <==> StraightHigh(SortedRanks(five)) == -1
  {
    hide StraightHigh;
    var ranks, sorted := CardRanks(five), SortedRanks(five);
    RanksAreSorted(five);
    SameMembers(sorted, ranks);
    NoNegativeRank(five);
    StraightMeaning(sorted);
    if high :| RunTo(ranks, high) {
      assert RunTo(sorted, high);
      assert high - 4 in sorted;
    }
    if StraightHigh(sorted) != -1 && RunTo(sorted, StraightHigh(sorted)) {
      assert RunTo(ranks, StraightHigh(sorted));
    }
  }

  lemma FiveGroupsDiffer(five: seq<Card>)
    requires |five| == 5 && Distinct(five)
    ensures |Groups(SortedRanks(five))| == 5 <==> Distinct(CardRanks(five))
  {
    hide Groups;
    var ranks := SortedRanks(five);
    var g := Groups(ranks);
    if |g| == 5 {
      EvaluateClassifies(five);
      RanksAreSorted(five);
      assert CountsOf(g) == [1, 1, 1, 1, 1];
      assert forall i :: 0 <= i < 5 ==> g[i].count == CountsOf(g)[i];
      SinglesInOrder(ranks, g);
      DistinctMultiset(ranks);
      MultisetDistinct(CardRanks(five));
    }
    if Distinct(CardRanks(five)) {
      AllRanksDiffer(five);
    }
  }

  /** A loose five is a high card or a flush, and nothing else is. */
  lemma LooseScore(five: seq<Card>)
    requires |five| == 5 && Distinct(five)
    ensures Loose(five) <==> Evaluate(five).rank in {HighCard, Flush}
    ensures Loose(five) <==> FiveScore(five) >= HIGH_CARDS
  {
    hide Groups, StraightHigh, Evaluate, Score, SortedRanks;
    FiveGroupsDiffer(five);
    SameStraight(five);
    EvaluateClassifies(five);
    HandsAreHandLike(five);
    ScoreBand(Evaluate(five));
  }

  lemma FiveDistinct(five: seq<Card>, cards: seq<Card>)
    requires FiveOf(five, cards) && Distinct(cards)
    ensures Distinct(five)
    ensures forall c :: c in five ==> c in cards
  {
    DistinctMultiset(cards);
    forall x ensures multiset(five)[x] <= 1 {
      assert multiset(five)[x] <= multiset(cards)[x];
    }
    MultisetDistinct(five);
    forall c | c in five ensures c in cards {
      assert c in multiset(five) && multiset(five)[c] <= multiset(cards)[c];
      assert c in multiset(cards);
    }
  }

  /**
   * What a hand of any size scores: as soon as five of its cards have different ranks and
   * make no straight, it is scored as a high card or a flush, whatever pairs, sets, straights,
   * full houses, quads or straight flushes it holds; otherwise it scores less.
   */
  lemma LooseHandsScoreHigh(cards: seq<Card>)
    requires |cards| >= 5 && Distinct(cards)
    ensures BestScore(cards) >= HIGH_CARDS <==> exists five :: FiveOf(five, cards) && Loose(five)
    ensures forall five :: FiveOf(five, cards) && FiveScore(five) == BestScore(cards) ==>
      (Evaluate(five).rank in {HighCard, Flush} <==> exists other :: FiveOf(other, cards) && Loose(other))
  {
    hide Evaluate, FiveScore, BestScore, Loose;
    BestScoreIsBest(cards);
    forall five | FiveOf(five, cards)
      ensures Loose(five) <==> Evaluate(five).rank in {HighCard, Flush}
      ensures Loose(five) <==> FiveScore(five) >= HIGH_CARDS
    {
      FiveDistinct(five, cards);
      LooseScore(five);
    }
  }

  /** A hand that has five such cards beats every hand that has not. */
  lemma LooseBeatsTight(loose: seq<Card>, tight: seq<Card>)
    requires |loose| >= 5 && Distinct(loose) && |tight| >= 5 && Distinct(tight)
    requires exists five :: FiveOf(five, loose) && Loose(five)
    requires forall five :: FiveOf(five, tight) ==> !Loose(five)
    ensures BestScore(loose) > BestScore(tight)
  {
    LooseHandsScoreHigh(loose);
    LooseHandsScoreHigh(tight);
  }

  /** No five of the cards come before `five` in the order of scores. */
  ghost predicate NoneAbove(five: seq<Card>, cards: seq<Card>)
    requires |five| == 5
  {
    forall other :: FiveOf(other, cards) ==>
      !Below(Evaluate(five).rank, Evaluate(other).rank)
      && (Evaluate(five).rank == Evaluate(other).rank ==> !LexLess(Evaluate(five).kickers, Evaluate(other).kickers))
  }

  /** A hand is scored by the five cards with the most kickers, then the strongest category, then the best kickers. */
  lemma ScoredHand(cards: seq<Card>, five: seq<Card>)
    requires |cards| >= 5 && Distinct(cards) && FiveOf(five, cards)
    ensures FiveScore(five) == BestScore(cards) <==> NoneAbove(five, cards)
  {
    hide Evaluate, Score, BestScore, Below, LexLess;
    BestScoreIsBest(cards);
    FiveDistinct(five, cards);
    HandsAreHandLike(five);
    forall other | FiveOf(other, cards)
      ensures FiveScore(five) < FiveScore(other)
         <==> Below(Evaluate(five).rank, Evaluate(other).rank)
              || (Evaluate(five).rank == Evaluate(other).rank
                  && LexLess(Evaluate(five).kickers, Evaluate(other).kickers))
    {
      FiveDistinct(other, cards);
      HandsAreHandLike(other);
      ScoreOrder(Evaluate(five), Evaluate(other));
    }
  }

  /**
   * When the score serves a hand of any size right: it is scored by its strongest category
   * exactly when no five of its cards have more kickers than that category.
   */
  lemma ScoredByCategory(cards: seq<Card>, five: seq<Card>, strongest: seq<Card>)
    requires |cards| >= 5 && Distinct(cards) && FiveOf(five, cards) && FiveScore(five) == BestScore(cards)
    requires FiveOf(strongest, cards)
    requires forall other :: FiveOf(other, cards) ==>
      Strength(Evaluate(other).rank) <= Strength(Evaluate(strongest).rank)
    ensures Evaluate(five).rank == Evaluate(strongest).rank
       <==> forall other :: FiveOf(other, cards) ==>
              KickerCount(Evaluate(other).rank) <= KickerCount(Evaluate(strongest).rank)
  {
    hide Evaluate, FiveScore, BestScore;
    ScoredHand(cards, five);
    assert !Below(Evaluate(five).rank, Evaluate(strongest).rank);
    SameStrength(Evaluate(five).rank, Evaluate(strongest).rank);
    if Evaluate(five).rank == Evaluate(strongest).rank {
      forall other | FiveOf(other, cards)
        ensures KickerCount(Evaluate(other).rank) <= KickerCount(Evaluate(strongest).rank)
      {
        assert !Below(Evaluate(five).rank, Evaluate(other).rank);
      }
    }
  }

  lemma SameStrength(a: HandRank, b: HandRank)
    ensures Strength(a) == Strength(b) <==> a == b
  {
  }

  // ---------- a royal flush that loses ----------

  /** Ten, jack and queen of one suit, and the queen and jack of another. */
  const BOARD: seq<Card> := [32, 36, 40, 41, 37]

  /** The ace and king of the board's first suit: a royal flush. */
  const ROYAL: seq<Card> := [48, 44]

  /** A two and a three: a queen high with the board. */
  const RAGS: seq<Card> := [1, 6]

  lemma HandsDealt()
    ensures ROYAL + BOARD == [48, 44, 32, 36, 40, 41, 37] && Distinct(ROYAL + BOARD)
    ensures RAGS + BOARD == [1, 6, 32, 36, 40, 41, 37] && Distinct(RAGS + BOARD)
    ensures forall c :: c in ROYAL + BOARD ==> 8 <= c / 4 <= 12
  {
    assert ROYAL + BOARD == [48, 44, 32, 36, 40, 41, 37];
    assert RAGS + BOARD == [1, 6, 32, 36, 40, 41, 37];
  }

  lemma RoyalIsHeld() returns (five: seq<Card>)
    ensures FiveOf(five, ROYAL + BOARD) && Evaluate(five) == HandValue(StraightFlush, [12])
  {
    hide Evaluate, FiveOf;
    HandsDealt();
    five := At(ROYAL + BOARD, 0, 1, 2, 3, 4);
    AtIsFiveOf(ROYAL + BOARD, 0, 1, 2, 3, 4);
    RoyalValue(five);
  }

  lemma RoyalValue(five: seq<Card>)
    requires |five| == 5
    requires five[0] == 48 && five[1] == 44 && five[2] == 32 && five[3] == 36 && five[4] == 40
    ensures Evaluate(five) == HandValue(StraightFlush, [12])
  {
    hide Evaluate, RunTo;
    RoyalRanks(CardRanks(five));
    SuitedRun(five, 12);
  }

  lemma RoyalRanks(ranks: seq<int>)
    requires |ranks| == 5
    requires ranks[0] == 12 && ranks[1] == 11 && ranks[2] == 8 && ranks[3] == 9 && ranks[4] == 10
    ensures RunTo(ranks, 12)
  {
  }

  /** Five different ranks out of five in a row are all of them. */
  lemma FiveRanksInARow(five: seq<Card>, high: int)
    requires |five| == 5 && forall c :: c in five ==> high - 4 <= c / 4 <= high
    ensures !Loose(five)
  {
    hide Wheel;
    var ranks, run := CardRanks(five), {high - 4, high - 3, high - 2, high - 1, high};
    forall i | 0 <= i < 5 ensures ranks[i] in run {
      assert five[i] in five;
    }
    if Distinct(ranks) {
      DistinctMultiset(ranks);
      assert |run - Elements(ranks)| == |run| - |Elements(ranks)|;
      assert run == Elements(ranks);
      forall r ensures r in ranks <==> high - 4 <= r <= high {
        assert r in ranks <==> r in Elements(ranks);
      }
      assert RunTo(ranks, high);
    }
  }

  lemma RoyalIsTight(five: seq<Card>)
    requires FiveOf(five, ROYAL + BOARD)
    ensures !Loose(five)
  {
    hide Loose;
    HandsDealt();
    FiveDistinct(five, ROYAL + BOARD);
    FiveRanksInARow(five, 12);
  }

  lemma RagsAreLoose() returns (five: seq<Card>)
    ensures FiveOf(five, RAGS + BOARD) && Loose(five)
  {
    five := [1, 6, 32, 36, 40];
    HandsDealt();
    assert RAGS + BOARD == five + [41, 37];
    var ranks := CardRanks(five);
    assert ranks == [0, 1, 8, 9, 10];
    ScatteredRanks(ranks);
  }

  lemma ScatteredRanks(ranks: seq<int>)
    requires ranks == [0, 1, 8, 9, 10]
    ensures Distinct(ranks) && (forall high :: !RunTo(ranks, high)) && !Wheel(ranks)
  {
    assert 0 == ranks[0] && 10 == ranks[4];
    assert 0 in ranks && 10 in ranks && 12 !in ranks;
  }

  /**
   * A showdown on seven cards each: the royal flush is paid nothing, because no five of its
   * cards are a high card or a flush, and the queen high takes the pot.
   */
  lemma RoyalFlushLosesShowdown(a: Player, b: Player, pot: SidePot)
    requires a.holeCards == Some(ROYAL) && b.holeCards == Some(RAGS) && !a.folded && !b.folded
    requires a.id in pot.players && b.id in pot.players
    ensures var players := [a, b];
      var scores := Scores(players, BOARD);
      Payout(players, scores, pot, 0) == 0 && Payout(players, scores, pot, 1) == pot.amount
    ensures exists five :: FiveOf(five, ROYAL + BOARD) && Evaluate(five) == HandValue(StraightFlush, [12])
  {
    hide BestScore, Loose, FiveOf, Evaluate;
    var royal := RoyalIsHeld();
    var players := [a, b];
    var scores := Scores(players, BOARD);
    HandsDealt();
    forall five | FiveOf(five, ROYAL + BOARD) ensures !Loose(five) {
      RoyalIsTight(five);
    }
    var rags := RagsAreLoose();
    LooseBeatsTight(RAGS + BOARD, ROYAL + BOARD);
    assert Contends(players, pot, 0) && Contends(players, pot, 1);
    assert scores[0] < scores[1];
    PotIsPaidOut(players, scores, pot);
    TwoPayouts(players, scores, pot);
  }

  lemma TwoPayouts(players: seq<Player>, scores: seq<int>, pot: SidePot)
    requires |players| == |scores| == 2 && scores[0] < scores[1]
    requires Contends(players, pot, 0) && Contends(players, pot, 1)
    ensures Payout(players, scores, pot, 0) == 0
    ensures Sum(PotPayouts(players, scores, pot, 2)) == Payout(players, scores, pot, 1)
    ensures HasContender(players, pot)
  {
    var both := PotPayouts(players, scores, pot, 2);
    assert !Wins(players, scores, pot, 0);
    assert both == [both[0], both[1]];
    assert [both[0], both[1]][1..] == [both[1]] && [both[1]][1..] == [];
    assert Sum([both[1]]) == both[1];
  }
}
