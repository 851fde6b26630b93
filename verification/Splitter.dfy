/** The side pots a table displays: shared/poker/sidePots.ts, calculateSidePots. */
module Splitter {
  import opened Options
  import opened Sequences
  import opened Table
  import opened Layers

  /** The positive commitments, smallest first. */
  function Commitments(committed: seq<Option<int>>): seq<int> {
    Sort(Ascending(), Filter(c => c > 0, OrZero(committed)))
  }

  function OrZero(committed: seq<Option<int>>): (r: seq<int>)
    ensures |r| == |committed|
    ensures forall i :: 0 <= i < |r| ==> r[i] == if committed[i].Some? then committed[i].value else 0
  {
    seq(|committed|, i requires 0 <= i < |committed| => if committed[i].Some? then committed[i].value else 0)
  }

  /** The layers of the sorted commitments left, above what is already layered; the last one alone makes none. */
  function LayersFrom(s: seq<int>, prev: int): seq<int> {
    if s == [] then []
    else if s[0] - prev > 0 && |s| > 1 then [(s[0] - prev) * |s|] + LayersFrom(s[1..], s[0])
    else LayersFrom(s[1..], prev)
  }

  /** `slice(1)`. */
  function Rest(s: seq<int>): seq<int> {
    if s == [] then [] else s[1..]
  }

  method CalculateSidePots(committed: seq<Option<int>>, totalPot: int) returns (main: int, sidePots: seq<int>)
    ensures sidePots == Rest(LayersFrom(Commitments(committed), 0))
    ensures main + Sum(sidePots) == totalPot
  {
    var commitments := Commitments(committed);
    var layers := [];
    var prev := 0;
    var remaining := |commitments|;
    for i := 0 to |commitments|
      invariant remaining == |commitments| - i
      invariant layers + LayersFrom(commitments[i..], prev) == LayersFrom(commitments, 0)
    {
      var diff := commitments[i] - prev;
      if diff > 0 && remaining > 1 {
        layers := layers + [diff * remaining];
        prev := commitments[i];
      }
      remaining := remaining - 1;
    }
    sidePots := Rest(layers);
    main := totalPot - Sum(sidePots);
  }

  /** What counts of an entry: nothing if it is missing or not positive. */
  function Counted(c: Option<int>): int {
    if c.Some? && c.value > 0 then c.value else 0
  }

  /** Missing, zero and negative commitments count for nothing, wherever they stand. */
  lemma OnlyPositiveCount(a: seq<Option<int>>, b: seq<Option<int>>)
    requires |a| == |b| && forall i :: 0 <= i < |a| ==> Counted(a[i]) == Counted(b[i])
    ensures Commitments(a) == Commitments(b)
  {
    SamePositive(OrZero(a), OrZero(b));
  }

  lemma {:induction false} SamePositive(a: seq<int>, b: seq<int>)
    requires |a| == |b| && forall i :: 0 <= i < |a| ==> a[i] == b[i] || (a[i] <= 0 && b[i] <= 0)
    ensures Filter(c => c > 0, a) == Filter(c => c > 0, b)
  {
    if a != [] {
      SamePositive(a[1..], b[1..]);
    }
  }

  // ---------- agreement with the pots of a betting round ----------

  ghost predicate Increasing(w: seq<int>) {
    forall i, j :: 0 <= i < j < |w| ==> w[i] <= w[j]
  }

  /** The walk stands at place `i` of the sorted commitments: what is behind it lies at or below `prev`. */
  ghost predicate Standing(w: seq<int>, i: nat, prev: int) {
    && i <= |w| && Increasing(w)
    && (forall k :: 0 <= k < i ==> w[k] <= prev)
    && (forall k :: i <= k < |w| ==> w[k] >= prev)
  }

  lemma {:induction false} CountFrom(w: seq<int>, i: nat, level: int)
    requires i <= |w|
    requires forall k :: 0 <= k < i ==> w[k] < level
    requires forall k :: i <= k < |w| ==> w[k] >= level
    ensures CountAtLeast(w, level) == |w| - i
  {
    if w != [] {
      CountFrom(w[1..], if i == 0 then 0 else i - 1, level);
    }
  }

  function SecondHighest(w: seq<int>): int {
    if |w| < 2 then 0 else w[|w| - 2]
  }

  function Max(a: int, b: int): int {
    if a >= b then a else b
  }

  lemma {:induction false} WalkSum(w: seq<int>, i: nat, prev: int)
    requires Standing(w, i, prev) && prev >= 0
    ensures Sum(LayersFrom(w[i..], prev)) == Sum(Capped(w, Max(prev, SecondHighest(w)))) - Sum(Capped(w, prev))
    decreases |w| - i
  {
    hide Capped;
    if i < |w| {
      assert w[i..][0] == w[i] && w[i..][1..] == w[i + 1..];
      if w[i] > prev && |w| - i > 1 {
        WalkSum(w, i + 1, w[i]);
        LayerTaken(w, i, prev);
        assert LayersFrom(w[i..], prev) == [(w[i] - prev) * (|w| - i)] + LayersFrom(w[i + 1..], w[i]);
      } else if w[i] == prev {
        WalkSum(w, i + 1, prev);
      } else {
        assert LayersFrom(w[i + 1..], prev) == [];
      }
    }
  }

  lemma LayerTaken(w: seq<int>, i: nat, prev: int)
    requires Standing(w, i, prev) && i < |w| && w[i] > prev
    ensures (w[i] - prev) * (|w| - i) == Sum(Capped(w, w[i])) - Sum(Capped(w, prev))
  {
    CountFrom(w, i, w[i]);
    LayerAmount(w, prev, w[i]);
  }

  /** What the layers at the given levels hold. */
  function LevelAmounts(bets: seq<int>, prev: int, levels: seq<int>): (r: seq<int>)
    ensures |r| == |levels|
    decreases |levels|
  {
    if levels == [] then []
    else [(levels[0] - prev) * CountAtLeast(bets, levels[0])] + LevelAmounts(bets, levels[0], levels[1..])
  }

  lemma {:induction false} RoundAmounts(players: seq<Player>, bettors: seq<Player>, previous: int, levels: seq<int>)
    requires LevelsOf(levels, previous, bettors)
    ensures Amounts(BuildLayers(players, bettors, previous, levels)) == LevelAmounts(Bets(bettors), previous, levels)
    decreases |levels|
  {
    if levels != [] {
      hide Layer, LevelsOf, BuildLayers;
      FirstLayerAmount(players, bettors, previous, levels);
      LayerPositive(players, bettors, previous, levels);
      RoundAmounts(players, bettors, levels[0], levels[1..]);
      LayerSize(players, bettors, previous, levels[0]);
    }
  }

  lemma FirstLayerAmount(players: seq<Player>, bettors: seq<Player>, previous: int, levels: seq<int>)
    requires LevelsOf(levels, previous, bettors) && levels != []
    ensures Amounts(BuildLayers(players, bettors, previous, levels))
         == [Layer(players, bettors, previous, levels[0]).amount]
            + Amounts(BuildLayers(players, bettors, levels[0], levels[1..]))
  {
    hide Layer, LevelsOf, BuildLayers;
    LayerPositive(players, bettors, previous, levels);
    FirstLayer(players, bettors, previous, levels);
  }

  lemma LayerSize(players: seq<Player>, bettors: seq<Player>, previous: int, level: int)
    ensures Layer(players, bettors, previous, level).amount == (level - previous) * CountAtLeast(Bets(bettors), level)
  {
    ContributorCount(bettors, level);
  }

  lemma {:induction false} CountPermutation(a: seq<int>, b: seq<int>, level: int)
    requires multiset(a) == multiset(b)
    ensures CountAtLeast(a, level) == CountAtLeast(b, level)
  {
    assert |multiset(a)| == |multiset(b)|;
    if a != [] {
      var p := FindHead(a, b);
      CountPermutation(a[1..], Without(b, p), level);
      CountWithout(b, p, level);
    }
  }

  lemma {:induction false} CountWithout(s: seq<int>, i: nat, level: int)
    requires i < |s|
    ensures CountAtLeast(s, level) == (if s[i] >= level then 1 else 0) + CountAtLeast(Without(s, i), level)
  {
    if i == 0 {
      assert Without(s, 0) == s[1..];
    } else {
      CountWithout(s[1..], i - 1, level);
      assert Without(s, i)[1..] == Without(s[1..], i - 1);
    }
  }

  lemma {:induction false} SameLevelAmounts(a: seq<int>, b: seq<int>, prev: int, levels: seq<int>)
    requires multiset(a) == multiset(b)
    ensures LevelAmounts(a, prev, levels) == LevelAmounts(b, prev, levels)
    decreases |levels|
  {
    if levels != [] {
      CountPermutation(a, b, levels[0]);
      SameLevelAmounts(a, b, levels[0], levels[1..]);
    }
  }

  /** The levels above `prev` of a sorted list. */
  ghost predicate LevelsAbove(levels: seq<int>, prev: int, w: seq<int>) {
    && (forall i, j :: 0 <= i < j < |levels| ==> levels[i] < levels[j])
    && (forall l :: l in levels <==> l > prev && l in w)
  }

  function DropLast(s: seq<int>): seq<int> {
    if s == [] then [] else s[..|s| - 1]
  }

  /** All layers, without the last one when a single bet reaches it. */
  function WithoutLoneTop(bets: seq<int>, levels: seq<int>, amounts: seq<int>): seq<int>
    requires |amounts| == |levels|
  {
    if levels != [] && CountAtLeast(bets, levels[|levels| - 1]) == 1 then DropLast(amounts) else amounts
  }

  lemma NoLevelsAbove(levels: seq<int>, prev: int, w: seq<int>)
    requires LevelsAbove(levels, prev, w)
    ensures levels == [] || exists i :: 0 <= i < |w| && w[i] > prev
  {
    if levels != [] {
      assert levels[0] in levels;
    }
  }

  lemma LevelsStep(levels: seq<int>, prev: int, w: seq<int>, i: nat)
    requires LevelsAbove(levels, prev, w) && Standing(w, i, prev) && i < |w| && w[i] > prev
    ensures levels != [] && levels[0] == w[i] && LevelsAbove(levels[1..], w[i], w)
  {
    assert w[i] in w;
    var k :| 0 <= k < |levels| && levels[k] == w[i];
    assert levels[0] in levels;
    var q :| 0 <= q < |w| && w[q] == levels[0];
    assert q >= i;
    assert w[i] <= levels[0];
    forall l ensures l in levels[1..] <==> l > w[i] && l in w {
      assert l in levels <==> l == levels[0] || l in levels[1..];
    }
  }

  lemma {:induction false} WalkMatches(w: seq<int>, i: nat, prev: int, levels: seq<int>)
    requires Standing(w, i, prev) && LevelsAbove(levels, prev, w)
    ensures LayersFrom(w[i..], prev) == WithoutLoneTop(w, levels, LevelAmounts(w, prev, levels))
    decreases |w| - i
  {
    if i == |w| {
      NoLevelsAbove(levels, prev, w);
    } else {
      assert w[i..][0] == w[i] && w[i..][1..] == w[i + 1..];
      if w[i] == prev {
        WalkMatches(w, i + 1, prev, levels);
      } else {
        LevelsStep(levels, prev, w, i);
        CountFrom(w, i, w[i]);
        WalkMatches(w, i + 1, w[i], levels[1..]);
        if |w| - i > 1 {
          OneMoreLayer(w, i, prev, levels);
        } else {
          NoLevelsAbove(levels[1..], w[i], w);
          assert LayersFrom(w[i + 1..], prev) == [];
        }
      }
    }
  }

  lemma OneMoreLayer(w: seq<int>, i: nat, prev: int, levels: seq<int>)
    requires i < |w| && levels != [] && levels[0] == w[i] > prev && |w| - i > 1
    requires CountAtLeast(w, w[i]) == |w| - i
    requires LayersFrom(w[i + 1..], w[i]) == WithoutLoneTop(w, levels[1..], LevelAmounts(w, w[i], levels[1..]))
    ensures LayersFrom(w[i..], prev) == WithoutLoneTop(w, levels, LevelAmounts(w, prev, levels))
  {
    hide WithoutLoneTop;
    var head, tail := (w[i] - prev) * (|w| - i), LayersFrom(w[i + 1..], w[i]);
    assert w[i..][0] == w[i] && w[i..][1..] == w[i + 1..];
    assert LayersFrom(w[i..], prev) == [head] + tail;
    HeadLayer(w, head, levels, LevelAmounts(w, w[i], levels[1..]));
    assert LevelAmounts(w, prev, levels) == [head] + LevelAmounts(w, w[i], levels[1..]);
  }

  lemma HeadLayer(w: seq<int>, head: int, levels: seq<int>, rest: seq<int>)
    requires |levels| == |rest| + 1 && CountAtLeast(w, levels[0]) > 1
    ensures WithoutLoneTop(w, levels, [head] + rest) == [head] + WithoutLoneTop(w, levels[1..], rest)
  {
    if rest != [] {
      assert levels[1..][|rest| - 1] == levels[|rest|];
      assert DropLast([head] + rest) == [head] + DropLast(rest);
    }
  }

  function Committed(players: seq<Player>): (r: seq<Option<int>>)
    ensures |r| == |players|
  {
    seq(|players|, i requires 0 <= i < |players| => Some(players[i].bet))
  }

  lemma {:induction false} PositiveBets(players: seq<Player>)
    ensures Filter(c => c > 0, OrZero(Committed(players))) == Bets(Bettors(players))
  {
    if players != [] {
      var p, rest := players[0], players[1..];
      PositiveBets(rest);
      assert OrZero(Committed(players))[1..] == OrZero(Committed(rest));
      if p.bet > 0 {
        assert Bettors(players) == [p] + Bettors(rest);
        assert Bets(Bettors(players)) == [p.bet] + Bets(Bettors(rest));
      } else {
        assert Bettors(players) == [] + Bettors(rest);
        assert [] + Bettors(rest) == Bettors(rest);
      }
    } else {
      assert Bets(Bettors(players)) == [];
    }
  }

  /** A single player has bet more than anybody else. */
  ghost predicate LoneTop(players: seq<Player>) {
    var w := Commitments(Committed(players));
    |w| > 0 && (|w| == 1 || w[|w| - 1] > w[|w| - 2])
  }

  lemma CommitmentsFacts(players: seq<Player>)
    ensures var w := Commitments(Committed(players));
      && multiset(w) == multiset(Bets(Bettors(players))) && Increasing(w)
      && (forall b :: b in w <==> b in Bets(Bettors(players)))
      && (forall i :: 0 <= i < |w| ==> w[i] > 0)
  {
    var bets := Bets(Bettors(players));
    var w := Commitments(Committed(players));
    PositiveBets(players);
    assert TotalPreorder(Ascending());
    SortSorts(Ascending(), bets);
    forall i, j | 0 <= i < j < |w| ensures w[i] <= w[j] {
      assert Ascending()(w[i], w[j]);
    }
    FilterMembers((p: Player) => p.bet > 0, players);
    forall b ensures b in w <==> b in bets {
      assert b in w <==> b in multiset(w);
      assert b in bets <==> b in multiset(bets);
    }
    forall i | 0 <= i < |w| ensures w[i] > 0 {
      assert w[i] in bets;
      var k :| 0 <= k < |bets| && bets[k] == w[i];
      assert Bettors(players)[k] in Bettors(players);
    }
  }

  lemma LevelsOfBets(players: seq<Player>)
    ensures LevelsAbove(Levels(Bettors(players)), 0, Commitments(Committed(players)))
  {
    var bettors, levels := Bettors(players), Levels(Bettors(players));
    LevelsAreBets(players);
    CommitmentsFacts(players);
    forall l ensures l in levels <==> l > 0 && l in Commitments(Committed(players)) {
      if l in Bets(bettors) {
        var k :| 0 <= k < |bettors| && Bets(bettors)[k] == l;
        assert bettors[k] in bettors;
      }
      if p :| p in bettors && p.bet == l {
        var k :| 0 <= k < |bettors| && bettors[k] == p;
        assert Bets(bettors)[k] == l;
      }
    }
  }

  lemma TopLevel(w: seq<int>, levels: seq<int>)
    requires LevelsAbove(levels, 0, w) && Increasing(w) && w != [] && forall i :: 0 <= i < |w| ==> w[i] > 0
    ensures levels != [] && levels[|levels| - 1] == w[|w| - 1]
  {
    var top := w[|w| - 1];
    assert top in w;
    var k :| 0 <= k < |levels| && levels[k] == top;
    var last := levels[|levels| - 1];
    assert last in levels;
    var q :| 0 <= q < |w| && w[q] == last;
  }

  lemma TopCount(w: seq<int>)
    requires Increasing(w) && w != []
    ensures CountAtLeast(w, w[|w| - 1]) == 1 <==> |w| == 1 || w[|w| - 1] > w[|w| - 2]
  {
    var n := |w| - 1;
    if n == 0 || w[n] > w[n - 1] {
      CountFrom(w, n, w[n]);
    } else {
      CountSplit(w, n - 1, w[n]);
      assert w[n - 1..] == [w[n - 1], w[n]];
    }
  }

  lemma {:induction false} CountSplit(w: seq<int>, i: nat, level: int)
    requires i <= |w|
    ensures CountAtLeast(w, level) >= CountAtLeast(w[i..], level)
  {
    if i > 0 {
      CountSplit(w[1..], i - 1, level);
      assert w[1..][i - 1..] == w[i..];
    }
  }

  /**
   * Both splitters build the same layers, except that the displayed ones leave out the
   * uncalled top of a lone highest bet; what is displayed holds every bet up to the
   * second highest.
   */
  lemma SplittersAgree(players: seq<Player>)
    requires forall p :: p in players ==> p.bet >= 0
    ensures var layers := LayersFrom(Commitments(Committed(players)), 0);
      var amounts := Amounts(RoundPots(players));
      && layers == (if LoneTop(players) then DropLast(amounts) else amounts)
      && Sum(layers) == Sum(Capped(Bets(players), SecondHighest(Commitments(Committed(players)))))
  {
    hide Commitments, Committed, Bettors, Levels, LevelsOf, LayersFrom, BuildLayers, LevelAmounts;
    hide CountAtLeast, Capped, Sum;
    var w, bettors, levels := Commitments(Committed(players)), Bettors(players), Levels(Bettors(players));
    CommitmentsFacts(players);
    LevelsAreBets(players);
    LevelsOfBets(players);
    assert w[0..] == w;
    WalkMatches(w, 0, 0, levels);
    RoundAmounts(players, bettors, 0, levels);
    SameLevelAmounts(w, Bets(bettors), 0, levels);
    if w != [] {
      TopLevel(w, levels);
      TopCount(w);
    } else {
      NoLevelsAbove(levels, 0, w);
    }
    DisplayedSum(players);
  }

  /**
   * What `main` shows when the total is what has been bet: the first layer of the round,
   * and on it the uncalled top of a lone highest bet.
   */
  lemma MainHolds(players: seq<Player>, main: int, sidePots: seq<int>)
    requires forall p :: p in players ==> p.bet >= 0
    requires sidePots == Rest(LayersFrom(Commitments(Committed(players)), 0))
    requires main + Sum(sidePots) == Sum(Bets(players))
    ensures var amounts := Amounts(RoundPots(players));
      main == if amounts == [] then 0
              else amounts[0] + if LoneTop(players) && |amounts| > 1 then amounts[|amounts| - 1] else 0
  {
    hide Commitments, Committed, LayersFrom, RoundPots, Capped, LoneTop;
    var amounts := Amounts(RoundPots(players));
    SplittersAgree(players);
    RoundPotsHoldBets(players);
    if amounts != [] {
      var last := |amounts| - 1;
      assert amounts == amounts[..last] + [amounts[last]];
      SumAppend(amounts[..last], [amounts[last]]);
      assert Sum([amounts[last]]) == amounts[last];
      if last > 0 {
        assert amounts[..last][0] == amounts[0];
      }
    }
  }

  lemma DisplayedSum(players: seq<Player>)
    requires forall p :: p in players ==> p.bet >= 0
    ensures Sum(LayersFrom(Commitments(Committed(players)), 0))
         == Sum(Capped(Bets(players), SecondHighest(Commitments(Committed(players)))))
  {
    var w, bets := Commitments(Committed(players)), Bets(Bettors(players));
    var height := SecondHighest(w);
    CommitmentsFacts(players);
    assert w[0..] == w;
    WalkSum(w, 0, 0);
    CappedAtZero(w);
    MapPermutation(b => Min(b, height), w, bets, Capped(w, height), Capped(bets, height));
    SumPermutation(Capped(w, height), Capped(bets, height));
    BettorsSum(players, height);
  }
}
