/** Five-card values, their base-15 score and the best hand: shared/poker/sidePots.ts. */
module HandEvaluation {
  import opened Sequences
  import opened Verify

  datatype HandRank =
    | HighCard | Pair | TwoPair | ThreeOfAKind | Straight | Flush | FullHouse | FourOfAKind | StraightFlush

  datatype HandValue = HandValue(rank: HandRank, kickers: seq<int>)

  const BASE := 15

  function Strength(rank: HandRank): nat {
    match rank
    case HighCard => 0
    case Pair => 1
    case TwoPair => 2
    case ThreeOfAKind => 3
    case Straight => 4
    case Flush => 5
    case FullHouse => 6
    case FourOfAKind => 7
    case StraightFlush => 8
  }

  // ---------- the score ----------

  /** The number whose base-15 digits are those of `s` followed by `kickers`. */
  function Digits(s: int, kickers: seq<int>): int
    decreases |kickers|
  {
    if kickers == [] then s else Digits(s * BASE + kickers[0], kickers[1..])
  }

  function Score(value: HandValue): int {
    Digits(Strength(value.rank), value.kickers)
  }

  method ComputeScore(value: HandValue) returns (s: int)
    ensures s == Score(value)
  {
    s := Strength(value.rank);
    for i := 0 to |value.kickers|
      invariant Digits(s, value.kickers[i..]) == Score(value)
    {
      s := s * BASE + value.kickers[i];
    }
  }

  // ---------- five cards ----------

  function CardRanks(cards: seq<Card>): (r: seq<int>)
    ensures |r| == |cards| && forall i :: 0 <= i < |r| ==> r[i] == cards[i] / 4
  {
    seq(|cards|, i requires 0 <= i < |cards| => cards[i] / 4)
  }

  /** The ranks, highest first. */
  function SortedRanks(cards: seq<Card>): (r: seq<int>)
    ensures |r| == |cards|
  {
    Sort(Descending(), CardRanks(cards))
  }

  predicate IsFlush(cards: seq<Card>) {
    forall i :: 0 <= i < |cards| ==> cards[i] % 4 == cards[0] % 4
  }

  /** A rank with the number of cards that have it. */
  datatype Group = Group(rank: int, count: int)

  /** More cards first, then the higher rank. */
  function ByFrequency(): (Group, Group) -> bool {
    (a: Group, b: Group) => a.count > b.count || (a.count == b.count && a.rank >= b.rank)
  }

  function GroupList(ranks: seq<int>): (r: seq<Group>)
    ensures |r| == |Unique(ranks)|
    ensures forall i :: 0 <= i < |r| ==> r[i] == Group(Unique(ranks)[i], multiset(ranks)[Unique(ranks)[i]])
  {
    var order := Unique(ranks);
    seq(|order|, i requires 0 <= i < |order| => Group(order[i], multiset(ranks)[order[i]]))
  }

  function Groups(ranks: seq<int>): seq<Group> {
    Sort(ByFrequency(), GroupList(ranks))
  }

  function UniqueAscending(ranks: seq<int>): seq<int> {
    Sort(Ascending(), Unique(ranks))
  }

  /** The top rank of the straight these ranks form, or -1; the wheel A2345 counts as rank 3. */
  function StraightHigh(ranks: seq<int>): int {
    var unique := UniqueAscending(ranks);
    if |unique| == 5 && unique[4] - unique[0] == 4 then unique[4]
    else if 12 in ranks && 0 in ranks && 1 in ranks && 2 in ranks && 3 in ranks then 3
    else -1
  }

  function Besides(rank: int): int -> bool {
    r => r != rank
  }

  function BesidesBoth(a: int, b: int): int -> bool {
    r => r != a && r != b
  }

  /** The decision list, on the sorted ranks and the flush flag. */
  function ValueOf(ranks: seq<int>, flush: bool): HandValue
    requires |ranks| == 5
  {
    var counts := Groups(ranks);
    var high := StraightHigh(ranks);
    var top := counts[0].rank;
    var second := if |counts| > 1 then counts[1] else Group(-1, 0);
    if high != -1 && flush then HandValue(StraightFlush, [high])
    else if counts[0].count == 4 then HandValue(FourOfAKind, [top, FindOr(Besides(top), ranks, 0)])
    else if counts[0].count == 3 && second.count == 2 then HandValue(FullHouse, [top, second.rank])
    else if flush then HandValue(Flush, ranks)
    else if high != -1 then HandValue(Straight, [high])
    else if counts[0].count == 3 then HandValue(ThreeOfAKind, [top] + FirstOf(Filter(Besides(top), ranks), 2))
    else if counts[0].count == 2 && second.count == 2 then
      var pairs := Sort(Descending(), [top, second.rank]);
      HandValue(TwoPair, pairs + [FindOr(BesidesBoth(pairs[0], pairs[1]), ranks, 0)])
    else if counts[0].count == 2 then HandValue(Pair, [top] + FirstOf(Filter(Besides(top), ranks), 3))
    else HandValue(HighCard, FirstOf(ranks, 5))
  }

  function Evaluate(cards: seq<Card>): HandValue
    requires |cards| == 5
  {
    ValueOf(SortedRanks(cards), IsFlush(cards))
  }

  lemma RanksAreSorted(cards: seq<Card>)
    ensures SortedBy(Descending(), SortedRanks(cards))
    ensures multiset(SortedRanks(cards)) == multiset(CardRanks(cards))
  {
    SortSorts(Descending(), CardRanks(cards));
  }

  // ---------- the evaluator's loops ----------

  /** Five ranks in a row leave room for one window only, so the last one found is the only one. */
  method FindStraight(ranks: seq<int>) returns (straightHigh: int)
    requires |ranks| == 5 && forall r :: r in ranks ==> r >= 0
    ensures straightHigh == StraightHigh(ranks)
  {
    var unique := Sort(Ascending(), Unique(ranks));
    UniqueNoLonger(ranks);
    SortSorts(Ascending(), Unique(ranks));
    SameMembers(unique, Unique(ranks));
    straightHigh := -1;
    for i := 0 to if |unique| >= 4 then |unique| - 4 else 0
      invariant straightHigh == if i > 0 && unique[4] - unique[0] == 4 then unique[4] else -1
    {
      var run := unique[i..i + 5];
      if run[4] - run[0] == 4 {
        straightHigh := run[4];
      }
    }
    assert |unique| == 5 ==> unique[4] in unique;
    if straightHigh == -1 && 12 in unique && 0 in unique && 1 in unique && 2 in unique && 3 in unique {
      straightHigh := 3;
    }
  }

  /** The count map, read back in the order its keys were first set. */
  method CountRanks(ranks: seq<int>) returns (entries: seq<Group>)
    ensures entries == GroupList(ranks)
  {
    hide Unique;
    var countMap: map<int, int> := map[];
    var order: seq<int> := [];
    NoneUnique();
    for i := 0 to |ranks|
      invariant order == Unique(ranks[..i])
      invariant Counted(countMap, ranks[..i])
    {
      var r := ranks[i];
      PrefixGrows(ranks, i);
      if r !in countMap {
        order := order + [r];
      }
      countMap := countMap[r := (if r in countMap then countMap[r] else 0) + 1];
    }
    assert ranks[..|ranks|] == ranks;
    assert forall i :: 0 <= i < |order| ==> order[i] in order;
    assert forall r :: r in order ==> r in countMap;
    entries := seq(|order|, i requires 0 <= i < |order| => Group(order[i], countMap[order[i]]));
  }

  ghost predicate Counted(counts: map<int, int>, ranks: seq<int>) {
    && (forall r :: r in counts <==> r in ranks)
    && (forall r :: r in counts ==> counts[r] == multiset(ranks)[r])
  }

  lemma NoneUnique()
    ensures Unique<int>([]) == []
  {
  }

  lemma PrefixGrows(ranks: seq<int>, i: nat)
    requires i < |ranks|
    ensures var before, r := ranks[..i], ranks[i];
      && Unique(ranks[..i + 1]) == (if r in before then Unique(before) else Unique(before) + [r])
      && (forall x :: x in ranks[..i + 1] <==> x == r || x in before)
      && (forall x :: multiset(ranks[..i + 1])[x] == multiset(before)[x] + if x == r then 1 else 0)
      && (r !in before ==> multiset(before)[r] == 0)
  {
    assert ranks[..i + 1] == ranks[..i] + [ranks[i]];
    assert ranks[..i + 1][..i] == ranks[..i];
  }

  /** The decision list of the source. */
  method EvaluateFive(cards: seq<Card>) returns (value: HandValue)
    requires |cards| == 5
    ensures value == Evaluate(cards)
  {
    var ranks := SortedRanks(cards);
    var isFlush := forall i :: 0 <= i < |cards| ==> cards[i] % 4 == cards[0] % 4;
    NoNegativeRank(cards);
    var straightHigh := FindStraight(ranks);
    var entries := CountRanks(ranks);
    var counts := Sort(ByFrequency(), entries);

    if straightHigh != -1 && isFlush {
      return HandValue(StraightFlush, [straightHigh]);
    }
    if counts[0].count == 4 {
      var quad := counts[0].rank;
      return HandValue(FourOfAKind, [quad, FindOr(Besides(quad), ranks, 0)]);
    }
    if counts[0].count == 3 && |counts| > 1 && counts[1].count == 2 {
      return HandValue(FullHouse, [counts[0].rank, counts[1].rank]);
    }
    if isFlush {
      return HandValue(Flush, ranks);
    }
    if straightHigh != -1 {
      return HandValue(Straight, [straightHigh]);
    }
    if counts[0].count == 3 {
      var trip := counts[0].rank;
      return HandValue(ThreeOfAKind, [trip] + FirstOf(Filter(Besides(trip), ranks), 2));
    }
    if counts[0].count == 2 && |counts| > 1 && counts[1].count == 2 {
      var pairs := Sort(Descending(), [counts[0].rank, counts[1].rank]);
      return HandValue(TwoPair, pairs + [FindOr(BesidesBoth(pairs[0], pairs[1]), ranks, 0)]);
    }
    if counts[0].count == 2 {
      var pair := counts[0].rank;
      return HandValue(Pair, [pair] + FirstOf(Filter(Besides(pair), ranks), 3));
    }
    return HandValue(HighCard, FirstOf(ranks, 5));
  }

  lemma {:induction false} UniqueNoLonger(s: seq<int>)
    ensures |Unique(s)| <= |s|
  {
    if s != [] {
      UniqueNoLonger(s[..|s| - 1]);
    }
  }

  lemma NoNegativeRank(cards: seq<Card>)
    ensures forall r :: r in SortedRanks(cards) ==> 0 <= r <= 12
  {
    RanksAreSorted(cards);
    forall r | r in SortedRanks(cards) ensures 0 <= r <= 12 {
      assert r in multiset(CardRanks(cards));
    }
  }
}
