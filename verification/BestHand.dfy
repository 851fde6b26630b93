/** The best five cards of a hand: shared/poker/sidePots.ts, evaluateHand. */
module BestHand {
  import opened Options
  import opened Sequences
  import opened Verify
  import opened HandEvaluation
  import opened Straights
  import opened HandMeaning

  /** `five` is made of five of the cards. */
  ghost predicate FiveOf(five: seq<Card>, cards: seq<Card>) {
    |five| == 5 && multiset(five) <= multiset(cards)
  }

  function FiveScore(five: seq<Card>): int
    requires |five| == 5
  {
    Score(Evaluate(five))
  }

  /** The largest score any five of the cards have. */
  ghost predicate IsBest(best: int, cards: seq<Card>) {
    && (forall five :: FiveOf(five, cards) ==> FiveScore(five) <= best)
    && (exists five :: FiveOf(five, cards) && FiveScore(five) == best)
  }

  // ---------- scores are not negative ----------

  lemma {:induction false} DigitsNonNegative(s: int, kickers: seq<int>)
    requires s >= 0 && forall k :: k in kickers ==> k >= 0
    ensures Digits(s, kickers) >= 0
    decreases |kickers|
  {
    if kickers != [] {
      assert kickers[0] in kickers && forall k :: k in kickers[1..] ==> k in kickers;
      DigitsNonNegative(s * BASE + kickers[0], kickers[1..]);
    }
  }

  lemma ScoreNonNegative(five: seq<Card>)
    requires |five| == 5
    ensures FiveScore(five) >= 0
  {
    var ranks := SortedRanks(five);
    var v := ValueOf(ranks, IsFlush(five));
    assert v == Evaluate(five);
    hide ValueOf, SortedRanks, StraightHigh, Groups;
    NoNegativeRank(five);
    GroupMembers(ranks);
    HighNonNegative(ranks);
    KickersNonNegative(ranks, IsFlush(five));
    DigitsNonNegative(Strength(v.rank), v.kickers);
  }

  lemma HighNonNegative(ranks: seq<int>)
    requires |ranks| == 5 && forall r :: r in ranks ==> 0 <= r
    ensures StraightHigh(ranks) >= -1
  {
    UniqueAscendingFacts(ranks);
    var u := UniqueAscending(ranks);
    assert |u| == 5 ==> u[4] in u;
  }

  lemma KickersNonNegative(ranks: seq<int>, flush: bool)
    requires |ranks| == 5 && StraightHigh(ranks) >= -1
    requires forall r :: r in ranks ==> 0 <= r
    requires forall x :: x in Groups(ranks) ==> x.rank in ranks
    ensures forall k :: k in ValueOf(ranks, flush).kickers ==> k >= 0
  {
    hide Groups, StraightHigh, Filter, FindOr, Sort;
    var counts := Groups(ranks);
    GroupsAreGroupings(ranks);
    var top := counts[0].rank;
    assert counts[0] in counts && (|counts| > 1 ==> counts[1] in counts);
    FoundNonNegative(Besides(top), ranks);
    FilterMembers(Besides(top), ranks);
    if |counts| > 1 {
      var pairs := Sort(Descending(), [top, counts[1].rank]);
      PairNonNegative(top, counts[1].rank);
      FoundNonNegative(BesidesBoth(pairs[0], pairs[1]), ranks);
    }
  }

  lemma FoundNonNegative(test: int -> bool, ranks: seq<int>)
    requires forall r :: r in ranks ==> 0 <= r
    ensures FindOr(test, ranks, 0) >= 0
  {
    FindOrFinds(test, ranks, 0);
  }

  lemma PairNonNegative(a: int, b: int)
    requires a >= 0 && b >= 0
    ensures var pair := Sort(Descending(), [a, b]); pair[0] >= 0 && pair[1] >= 0
  {
    OrdersAreTotal();
    SortSorts(Descending(), [a, b]);
    SameMembers(Sort(Descending(), [a, b]), [a, b]);
  }

  // ---------- the best of all choices ----------

  /** The best score of the cards picked so far completed to five from the rest. */
  function BestOf(picked: seq<Card>, rest: seq<Card>): int
    requires |picked| <= 5 <= |picked| + |rest|
    decreases rest
  {
    if |picked| == 5 then FiveScore(picked)
    else
      var take := BestOf(picked + [rest[0]], rest[1..]);
      if |picked| + |rest| == 5 then take
      else
        var skip := BestOf(picked, rest[1..]);
        if take >= skip then take else skip
  }

  function BestScore(cards: seq<Card>): int
    requires |cards| >= 5
  {
    BestOf([], cards)
  }

  lemma {:induction false} BestOfIsUpper(picked: seq<Card>, rest: seq<Card>, t: seq<Card>)
    requires |picked| + |t| == 5 && multiset(t) <= multiset(rest) && |picked| + |rest| >= 5
    ensures FiveScore(picked + t) <= BestOf(picked, rest)
    decreases rest
  {
    hide FiveScore;
    if t == [] {
      assert picked + t == picked;
    } else {
      var x := rest[0];
      MultisetTail(rest);
      if x in t {
        var p :| 0 <= p < |t| && t[p] == x;
        WithoutMultiset(t, p);
        BestOfIsUpper(picked + [x], rest[1..], Without(t, p));
        MovePicked(picked, t, p);
      } else {
        assert multiset(t)[x] == 0;
        SubsetLength(t, rest[1..]);
        BestOfIsUpper(picked, rest[1..], t);
      }
    }
  }

  lemma MovePicked(picked: seq<Card>, t: seq<Card>, p: nat)
    requires |picked| + |t| == 5 && p < |t|
    ensures FiveScore(picked + t) == FiveScore(picked + [t[p]] + Without(t, p))
  {
    WithoutMultiset(t, p);
    assert multiset(picked + t) == multiset(picked) + multiset(t);
    assert multiset(picked + [t[p]] + Without(t, p)) == multiset(picked) + multiset{t[p]} + multiset(Without(t, p));
    EvaluateIgnoresOrder(picked + t, picked + [t[p]] + Without(t, p));
  }

  lemma SubsetLength(t: seq<Card>, s: seq<Card>)
    requires multiset(t) <= multiset(s)
    ensures |t| <= |s|
  {
    assert |multiset(s)| == |multiset(t)| + |multiset(s) - multiset(t)|;
  }

  lemma {:induction false} BestOfIsReached(picked: seq<Card>, rest: seq<Card>) returns (t: seq<Card>)
    requires |picked| <= 5 <= |picked| + |rest|
    ensures |picked| + |t| == 5 && multiset(t) <= multiset(rest)
    ensures FiveScore(picked + t) == BestOf(picked, rest)
    decreases rest
  {
    hide FiveScore;
    if |picked| == 5 {
      t := [];
      assert picked + t == picked;
    } else {
      MultisetTail(rest);
      var take := BestOf(picked + [rest[0]], rest[1..]);
      if |picked| + |rest| == 5 || take >= BestOf(picked, rest[1..]) {
        var u := BestOfIsReached(picked + [rest[0]], rest[1..]);
        t := [rest[0]] + u;
        assert picked + t == picked + [rest[0]] + u;
        assert multiset(t) == multiset{rest[0]} + multiset(u);
      } else {
        t := BestOfIsReached(picked, rest[1..]);
      }
    }
  }

  lemma BestScoreIsBest(cards: seq<Card>)
    requires |cards| >= 5
    ensures IsBest(BestScore(cards), cards)
  {
    var t := BestOfIsReached([], cards);
    assert [] + t == t;
    assert FiveOf(t, cards);
    forall five | FiveOf(five, cards) ensures FiveScore(five) <= BestScore(cards) {
      BestOfIsUpper([], cards, five);
      assert [] + five == five;
    }
  }

  lemma BestIsUnique(a: int, b: int, cards: seq<Card>)
    requires IsBest(a, cards) && IsBest(b, cards)
    ensures a == b
  {
  }

  /** Reordering the cards changes nothing, and more cards never make a hand worse. */
  lemma BestScoreMonotone(cards: seq<Card>, more: seq<Card>)
    requires |cards| >= 5 && multiset(cards) <= multiset(more)
    ensures |more| >= 5 && BestScore(cards) <= BestScore(more)
    ensures multiset(cards) == multiset(more) ==> BestScore(cards) == BestScore(more)
  {
    SubsetLength(cards, more);
    BestScoreIsBest(cards);
    BestScoreIsBest(more);
    var five :| FiveOf(five, cards) && FiveScore(five) == BestScore(cards);
    assert FiveOf(five, more);
    if multiset(cards) == multiset(more) {
      var five' :| FiveOf(five', more) && FiveScore(five') == BestScore(more);
      assert FiveOf(five', cards);
    }
  }

  // ---------- the five nested loops ----------

  /** The cards at five places. */
  function At(cards: seq<Card>, i: nat, j: nat, k: nat, l: nat, m: nat): seq<Card>
    requires i < j < k < l < m < |cards|
  {
    [cards[i], cards[j], cards[k], cards[l], cards[m]]
  }

  /** Places (a, b, c, d, e) come before (i, j, k, l, m) in the order the loops run. */
  ghost predicate Before(a: int, b: int, c: int, d: int, e: int, i: int, j: int, k: int, l: int, m: int) {
    a < i || (a == i && (b < j || (b == j && (c < k || (c == k && (d < l || (d == l && e < m)))))))
  }

  /** No five cards at places before these score more than `best`. */
  ghost predicate Seen(cards: seq<Card>, best: int, i: int, j: int, k: int, l: int, m: int) {
    forall a: nat, b: nat, c: nat, d: nat, e: nat ::
      a < b < c < d < e < |cards| && Before(a, b, c, d, e, i, j, k, l, m)
      ==> FiveScore(At(cards, a, b, c, d, e)) <= best
  }

  ghost predicate Reached(cards: seq<Card>, best: int, found: seq<Card>) {
    best == 0 || (best > 0 && FiveOf(found, cards) && FiveScore(found) == best)
  }

  function Pick(cards: seq<Card>, places: seq<nat>): (r: seq<Card>)
    requires forall p :: 0 <= p < |places| ==> places[p] < |cards|
    ensures |r| == |places|
  {
    seq(|places|, p requires 0 <= p < |places| => cards[places[p]])
  }

  lemma {:induction false} PickWithin(cards: seq<Card>, places: seq<nat>)
    requires forall p, q :: 0 <= p < q < |places| ==> places[p] < places[q]
    requires forall p :: 0 <= p < |places| ==> places[p] < |cards|
    ensures multiset(Pick(cards, places)) <= multiset(cards)
  {
    if places != [] {
      var init, last := places[..|places| - 1], places[|places| - 1];
      var front := cards[..last];
      PickWithin(front, init);
      assert Pick(cards, places) == Pick(front, init) + [cards[last]];
      assert cards == front + [cards[last]] + cards[last + 1..];
    }
  }

  lemma AtIsFiveOf(cards: seq<Card>, i: nat, j: nat, k: nat, l: nat, m: nat)
    requires i < j < k < l < m < |cards|
    ensures FiveOf(At(cards, i, j, k, l, m), cards)
  {
    var places := [i, j, k, l, m];
    PickWithin(cards, places);
    assert Pick(cards, places) == At(cards, i, j, k, l, m);
  }

  lemma DropBoth(front: seq<Card>, t: seq<Card>, p: nat)
    requires p < |t| && multiset(t) <= multiset(front + [t[p]])
    ensures multiset(Without(t, p)) <= multiset(front)
  {
    WithoutMultiset(t, p);
    var whole, part := multiset(front + [t[p]]), multiset(t);
    assert whole == multiset(front) + multiset{t[p]};
    forall y ensures multiset(Without(t, p))[y] <= multiset(front)[y] {
      assert part[y] <= whole[y];
    }
  }

  lemma NotTaken(front: seq<Card>, t: seq<Card>, x: Card)
    requires x !in t && multiset(t) <= multiset(front + [x])
    ensures multiset(t) <= multiset(front)
  {
    var whole, part := multiset(front + [x]), multiset(t);
    assert whole == multiset(front) + multiset{x} && part[x] == 0;
    forall y ensures part[y] <= multiset(front)[y] {
      assert part[y] <= whole[y];
    }
  }

  lemma PickNone(cards: seq<Card>)
    ensures Pick(cards, []) == []
  {
  }

  lemma PickFront(front: seq<Card>, places: seq<nat>, x: Card)
    requires forall p :: 0 <= p < |places| ==> places[p] < |front|
    ensures Pick(front + [x], places) == Pick(front, places)
  {
  }

  lemma PickMore(front: seq<Card>, places: seq<nat>, x: Card)
    requires forall p :: 0 <= p < |places| ==> places[p] < |front|
    ensures Pick(front + [x], places + [|front|]) == Pick(front, places) + [x]
  {
  }

  /** The place of the last card behind the places of the others. */
  lemma LastPlace(front: seq<Card>, x: Card, t: seq<Card>, p: nat, rest: seq<nat>) returns (places: seq<nat>)
    requires p < |t| && t[p] == x && |rest| == |t| - 1
    requires forall p, q :: 0 <= p < q < |rest| ==> rest[p] < rest[q]
    requires forall p :: 0 <= p < |rest| ==> rest[p] < |front|
    requires multiset(Pick(front, rest)) == multiset(Without(t, p))
    ensures |places| == |t|
    ensures forall p, q :: 0 <= p < q < |places| ==> places[p] < places[q]
    ensures forall p :: 0 <= p < |places| ==> places[p] < |front + [x]|
    ensures multiset(Pick(front + [x], places)) == multiset(t)
  {
    hide Pick, Without;
    places := rest + [|front|];
    PickMore(front, rest, x);
    WithoutMultiset(t, p);
  }

  /** Any choice of cards sits at increasing places. */
  lemma {:induction false} PlacesOf(cards: seq<Card>, t: seq<Card>) returns (places: seq<nat>)
    requires multiset(t) <= multiset(cards)
    ensures |places| == |t|
    ensures forall p, q :: 0 <= p < q < |places| ==> places[p] < places[q]
    ensures forall p :: 0 <= p < |places| ==> places[p] < |cards|
    ensures multiset(Pick(cards, places)) == multiset(t)
  {
    hide Pick, Without;
    if cards == [] {
      SubsetLength(t, cards);
      places := [];
      PickNone(cards);
    } else {
      var n := |cards| - 1;
      var front, x := cards[..n], cards[n];
      assert cards == front + [x];
      if x in t {
        var p :| 0 <= p < |t| && t[p] == x;
        DropBoth(front, t, p);
        var rest := PlacesOf(front, Without(t, p));
        places := LastPlace(front, x, t, p, rest);
      } else {
        NotTaken(front, t, x);
        places := PlacesOf(front, t);
        PickFront(front, places, x);
      }
    }
  }

  lemma SeenCovers(cards: seq<Card>, best: int, five: seq<Card>)
    requires Seen(cards, best, |cards|, 0, 0, 0, 0) && FiveOf(five, cards)
    ensures FiveScore(five) <= best
  {
    hide FiveScore;
    var p := PlacesOf(cards, five);
    var chosen := At(cards, p[0], p[1], p[2], p[3], p[4]);
    assert Pick(cards, p) == chosen;
    assert Before(p[0], p[1], p[2], p[3], p[4], |cards|, 0, 0, 0, 0);
    SameScore(five, chosen);
  }

  lemma SameScore(a: seq<Card>, b: seq<Card>)
    requires |a| == |b| == 5 && multiset(a) == multiset(b)
    ensures FiveScore(a) == FiveScore(b)
  {
    EvaluateIgnoresOrder(a, b);
  }

  lemma SeenAll(cards: seq<Card>, best: int, found: seq<Card>)
    requires |cards| >= 5 && Seen(cards, best, |cards|, 0, 0, 0, 0) && Reached(cards, best, found)
    ensures best == BestScore(cards)
  {
    hide FiveScore, BestScore, Seen;
    forall five | FiveOf(five, cards) ensures FiveScore(five) <= best {
      SeenCovers(cards, best, five);
    }
    if best == 0 {
      var first := At(cards, 0, 1, 2, 3, 4);
      AtIsFiveOf(cards, 0, 1, 2, 3, 4);
      ScoreNonNegative(first);
      assert FiveOf(first, cards) && FiveScore(first) == best;
    }
    BestScoreIsBest(cards);
    BestIsUnique(best, BestScore(cards), cards);
  }

  /** When an inner loop runs out, its places are exhausted for the next value of the loop around it. */
  lemma NextPlace(cards: seq<Card>, best: int, i: nat, j: nat, k: nat, l: nat, m: nat)
    requires Seen(cards, best, i, j, k, l, m) && i < j < k < l < m
    ensures m == |cards| ==> Seen(cards, best, i, j, k, l + 1, l + 2)
    ensures l == |cards| - 1 ==> Seen(cards, best, i, j, k + 1, k + 2, k + 3)
    ensures k == |cards| - 2 ==> Seen(cards, best, i, j + 1, j + 2, j + 3, j + 4)
    ensures j == |cards| - 3 ==> Seen(cards, best, i + 1, i + 2, i + 3, i + 4, i + 5)
    ensures i == |cards| - 4 ==> Seen(cards, best, |cards|, 0, 0, 0, 0)
  {
    hide FiveScore;
  }

  lemma SeenMore(cards: seq<Card>, best: int, found: seq<Card>, i: nat, j: nat, k: nat, l: nat, m: nat, val: int)
    requires Seen(cards, best, i, j, k, l, m) && Reached(cards, best, found) && i < j < k < l < m < |cards|
    requires val == FiveScore([cards[i], cards[j], cards[k], cards[l], cards[m]])
    ensures Seen(cards, if val > best then val else best, i, j, k, l, m + 1)
    ensures val > best ==> Reached(cards, val, At(cards, i, j, k, l, m))
  {
    hide FiveScore;
    AtIsFiveOf(cards, i, j, k, l, m);
    assert At(cards, i, j, k, l, m) == [cards[i], cards[j], cards[k], cards[l], cards[m]];
  }

  method ScoreFive(five: seq<Card>) returns (val: int)
    requires |five| == 5
    ensures val == FiveScore(five)
  {
    var value := EvaluateFive(five);
    val := ComputeScore(value);
  }

  /** None stands for the exception: fewer than five cards make no hand. */
  method EvaluateHand(cards: seq<Card>) returns (score: Option<int>)
    ensures score == if |cards| < 5 then None else Some(BestScore(cards))
  {
    hide *;
    if |cards| < 5 {
      return None;
    }
    var n := |cards|;
    var best := 0;
    ghost var found: seq<Card> := [];
    NothingSeen(cards);
    for i := 0 to n - 4
      invariant Seen(cards, best, i, i + 1, i + 2, i + 3, i + 4) && Reached(cards, best, found)
    {
      for j := i + 1 to n - 3
        invariant Seen(cards, best, i, j, j + 1, j + 2, j + 3) && Reached(cards, best, found)
      {
        for k := j + 1 to n - 2
          invariant Seen(cards, best, i, j, k, k + 1, k + 2) && Reached(cards, best, found)
        {
          for l := k + 1 to n - 1
            invariant Seen(cards, best, i, j, k, l, l + 1) && Reached(cards, best, found)
          {
            for m := l + 1 to n
              invariant Seen(cards, best, i, j, k, l, m) && Reached(cards, best, found)
            {
              var val := ScoreFive([cards[i], cards[j], cards[k], cards[l], cards[m]]);
              SeenMore(cards, best, found, i, j, k, l, m, val);
              if val > best {
                best, found := val, At(cards, i, j, k, l, m);
              }
            }
            NextPlace(cards, best, i, j, k, l, n);
          }
          NextPlace(cards, best, i, j, k, n - 1, n);
        }
        NextPlace(cards, best, i, j, n - 2, n - 1, n);
      }
      NextPlace(cards, best, i, n - 3, n - 2, n - 1, n);
    }
    NextPlace(cards, best, n - 4, n - 3, n - 2, n - 1, n);
    SeenAll(cards, best, found);
    score := Some(best);
  }

  lemma NothingSeen(cards: seq<Card>)
    ensures Seen(cards, 0, 0, 1, 2, 3, 4) && Reached(cards, 0, [])
  {
    hide FiveScore;
  }
}
