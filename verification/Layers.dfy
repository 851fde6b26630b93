/** Side pots built when a betting round closes: backend/src/game/state-machine.ts, finishBettingRound. */
module Layers {
  import opened Sequences
  import opened Table

  function Min(a: int, b: int): int {
    if a <= b then a else b
  }

  function Bettors(players: seq<Player>): seq<Player> {
    Filter((p: Player) => p.bet > 0, players)
  }

  /** The different bets, smallest first. */
  function Levels(bettors: seq<Player>): seq<int> {
    Sort(Ascending(), Unique(Bets(bettors)))
  }

  function Contributors(bettors: seq<Player>, level: int): seq<Player> {
    Filter((p: Player) => p.bet >= level, bettors)
  }

  /** Who may win the layer: its unfolded contributors, or else every unfolded player, or else all contributors. */
  function Contenders(players: seq<Player>, contributors: seq<Player>): seq<Player> {
    var live := ActivePlayers(contributors);
    if live != [] then live
    else if ActivePlayers(players) != [] then ActivePlayers(players)
    else contributors
  }

  /** The same amount for every id. */
  function ForEach(ids: seq<string>, amount: int): map<string, int> {
    map id | id in ids :: amount
  }

  function Contributions(players: seq<Player>, contributors: seq<Player>, share: int): map<string, int> {
    var paid := ForEach(Ids(contributors), share);
    if ActivePlayers(contributors) != [] then paid
    else ForEach(Ids(ActivePlayers(players)), 0) + paid
  }

  function Layer(players: seq<Player>, bettors: seq<Player>, previous: int, level: int): SidePot {
    var contributors := Contributors(bettors, level);
    SidePot(
      (level - previous) * |contributors|,
      Ids(Contenders(players, contributors)),
      Contributions(players, contributors, level - previous))
  }

  /** One pot for each level above `previous`; an empty layer makes no pot. */
  function BuildLayers(players: seq<Player>, bettors: seq<Player>, previous: int, levels: seq<int>): seq<SidePot>
    decreases |levels|
  {
    if levels == [] then []
    else
      var pot := Layer(players, bettors, previous, levels[0]);
      (if pot.amount > 0 then [pot] else []) + BuildLayers(players, bettors, levels[0], levels[1..])
  }

  function RoundPots(players: seq<Player>): seq<SidePot> {
    BuildLayers(players, Bettors(players), 0, Levels(Bettors(players)))
  }

  // ---------- fairness of the layers ----------

  /** What each bet leaves below a height. */
  function Capped(bets: seq<int>, height: int): (r: seq<int>)
    ensures |r| == |bets| && forall i :: 0 <= i < |r| ==> r[i] == Min(bets[i], height)
  {
    seq(|bets|, i requires 0 <= i < |bets| => Min(bets[i], height))
  }

  /** What a pot records a player as having put into it. */
  function Contribution(pot: SidePot, id: string): int {
    if id in pot.contributions then pot.contributions[id] else 0
  }

  function ContributionsOf(pots: seq<SidePot>, id: string): (r: seq<int>)
    ensures |r| == |pots| && forall i :: 0 <= i < |r| ==> r[i] == Contribution(pots[i], id)
  {
    seq(|pots|, i requires 0 <= i < |pots| => Contribution(pots[i], id))
  }

  /** The pots the player paid into, with the player among the contenders. */
  function Contested(pots: seq<SidePot>, id: string): seq<SidePot> {
    Filter((pot: SidePot) => Contribution(pot, id) > 0 && id in pot.players, pots)
  }

  /** `levels` are exactly the bets above `previous`, in increasing order, with nothing below them. */
  ghost predicate LevelsOf(levels: seq<int>, previous: int, bettors: seq<Player>) {
    && (forall i, j :: 0 <= i < j < |levels| ==> levels[i] < levels[j])
    && (forall l :: l in levels <==> l > previous && exists p :: p in bettors && p.bet == l)
    && previous >= 0
  }

  lemma LevelsAreBets(players: seq<Player>)
    ensures LevelsOf(Levels(Bettors(players)), 0, Bettors(players))
  {
    var bettors := Bettors(players);
    var bets, levels := Unique(Bets(bettors)), Levels(bettors);
    assert TotalPreorder(Ascending());
    SortSorts(Ascending(), bets);
    DistinctMultiset(bets);
    MultisetDistinct(levels);
    FilterMembers((p: Player) => p.bet > 0, players);
    forall l ensures l in levels <==> l > 0 && exists p :: p in bettors && p.bet == l {
      assert l in levels <==> l in multiset(levels);
      assert l in bets <==> l in multiset(bets);
      if l in bets {
        var i :| 0 <= i < |bettors| && Bets(bettors)[i] == l;
        assert bettors[i] in bettors;
      }
      if p :| p in bettors && p.bet == l {
        var i :| 0 <= i < |bettors| && bettors[i] == p;
        assert Bets(bettors)[i] == l;
      }
    }
    forall i, j | 0 <= i < j < |levels| ensures levels[i] < levels[j] {
      assert Ascending()(levels[i], levels[j]);
    }
  }

  function CountAtLeast(bets: seq<int>, level: int): nat {
    if bets == [] then 0 else (if bets[0] >= level then 1 else 0) + CountAtLeast(bets[1..], level)
  }

  lemma {:induction false} ContributorCount(bettors: seq<Player>, level: int)
    ensures |Contributors(bettors, level)| == CountAtLeast(Bets(bettors), level)
  {
    if bettors != [] {
      ContributorCount(bettors[1..], level);
      assert Bets(bettors)[1..] == Bets(bettors[1..]);
    }
  }

  /** A layer holds what every bet has between its two heights, when no bet ends in between. */
  lemma {:induction false} LayerAmount(bets: seq<int>, previous: int, level: int)
    requires previous < level
    requires forall i :: 0 <= i < |bets| ==> bets[i] <= previous || bets[i] >= level
    ensures (level - previous) * CountAtLeast(bets, level) == Sum(Capped(bets, level)) - Sum(Capped(bets, previous))
  {
    if bets != [] {
      var rest := bets[1..];
      LayerAmount(rest, previous, level);
      assert Capped(bets, level)[1..] == Capped(rest, level);
      assert Capped(bets, previous)[1..] == Capped(rest, previous);
      OneMore(level - previous, CountAtLeast(rest, level));
    }
  }

  /** Ids tell players apart. */
  ghost predicate IdsIdentify(players: seq<Player>) {
    forall p, q :: p in players && q in players && p.id == q.id ==> p == q
  }

  ghost predicate Within(part: seq<Player>, players: seq<Player>) {
    forall p :: p in part ==> p in players
  }

  lemma DistinctIdsIdentify(players: seq<Player>)
    requires DistinctIds(players)
    ensures IdsIdentify(players)
  {
  }

  lemma IdsMember(part: seq<Player>, players: seq<Player>, p: Player)
    requires IdsIdentify(players) && Within(part, players) && p in players
    ensures p.id in Ids(part) <==> p in part
  {
    if p in part {
      var i :| 0 <= i < |part| && part[i] == p;
      assert Ids(part)[i] == p.id;
    }
    if p.id in Ids(part) {
      var i :| 0 <= i < |part| && Ids(part)[i] == p.id;
      assert part[i] in part;
    }
  }

  lemma ContributorMembers(bettors: seq<Player>, level: int)
    ensures forall p :: p in Contributors(bettors, level) <==> p in bettors && p.bet >= level
  {
    FilterMembers((p: Player) => p.bet >= level, bettors);
  }

  lemma ActiveMembers(players: seq<Player>)
    ensures forall p :: p in ActivePlayers(players) <==> p in players && !p.folded
  {
    FilterMembers((p: Player) => !p.folded, players);
  }

  /** A player pays the height of every layer its bet reaches, and nothing into the others. */
  lemma LayerContribution(players: seq<Player>, bettors: seq<Player>, previous: int, level: int, p: Player)
    requires IdsIdentify(players) && Within(bettors, players) && p in players
    requires p.bet > 0 ==> p in bettors
    requires 0 <= previous < level
    ensures Contribution(Layer(players, bettors, previous, level), p.id)
         == if p.bet >= level then level - previous else 0
  {
    var contributors := Contributors(bettors, level);
    ContributorMembers(bettors, level);
    ActiveMembers(players);
    IdsMember(contributors, players, p);
  }

  /** An unfolded player contests every layer its bet reaches. */
  lemma LayerContender(players: seq<Player>, bettors: seq<Player>, previous: int, level: int, p: Player)
    requires p in bettors && !p.folded && p.bet >= level
    ensures p.id in Layer(players, bettors, previous, level).players
  {
    var contributors := Contributors(bettors, level);
    ContributorMembers(bettors, level);
    ActiveMembers(contributors);
    var live := ActivePlayers(contributors);
    var i :| 0 <= i < |live| && live[i] == p;
    assert Ids(live)[i] == p.id;
  }

  /** Each level of a round makes one pot, and it is not empty. */
  lemma LayerPositive(players: seq<Player>, bettors: seq<Player>, previous: int, levels: seq<int>)
    requires levels != [] && LevelsOf(levels, previous, bettors)
    ensures previous < levels[0] && LevelsOf(levels[1..], levels[0], bettors)
    ensures Layer(players, bettors, previous, levels[0]).amount > 0
    ensures forall p :: p in bettors ==> p.bet <= previous || p.bet >= levels[0]
  {
    var level := levels[0];
    assert level in levels;
    ContributorMembers(bettors, level);
    var p :| p in bettors && p.bet == level;
    assert p in Contributors(bettors, level);
    PositiveProduct(level - previous, |Contributors(bettors, level)|);
    forall q | q in bettors ensures q.bet <= previous || q.bet >= level {
      assert q.bet > previous ==> q.bet in levels;
    }
    forall l ensures l in levels[1..] <==> l > level && exists p :: p in bettors && p.bet == l {
      assert l in levels <==> l == level || l in levels[1..];
    }
  }

  lemma LevelsNotBelow(levels: seq<int>, previous: int, bettors: seq<Player>)
    requires LevelsOf(levels, previous, bettors)
    ensures previous >= 0
  {
  }

  /** A layer that holds something is a pot before the pots of the levels above it. */
  lemma FirstLayer(players: seq<Player>, bettors: seq<Player>, previous: int, levels: seq<int>)
    requires levels != [] && Layer(players, bettors, previous, levels[0]).amount > 0
    ensures BuildLayers(players, bettors, previous, levels)
         == [Layer(players, bettors, previous, levels[0])] + BuildLayers(players, bettors, levels[0], levels[1..])
  {
    hide Layer;
  }

  lemma LayerHolds(players: seq<Player>, bettors: seq<Player>, previous: int, level: int)
    requires previous < level && forall p :: p in bettors ==> p.bet <= previous || p.bet >= level
    ensures Layer(players, bettors, previous, level).amount
         == Sum(Capped(Bets(bettors), level)) - Sum(Capped(Bets(bettors), previous))
  {
    ContributorCount(bettors, level);
    assert forall i :: 0 <= i < |bettors| ==> bettors[i] in bettors;
    LayerAmount(Bets(bettors), previous, level);
  }

  lemma NoneAbove(bettors: seq<Player>, previous: int)
    requires LevelsOf([], previous, bettors)
    ensures forall p :: p in bettors ==> p.bet <= previous
  {
    forall p | p in bettors ensures p.bet <= previous {
      assert p.bet !in [];
    }
  }

  lemma PositiveProduct(a: int, b: int)
    requires a > 0 && b > 0
    ensures a * b > 0
  {
  }

  lemma {:induction false} LayersSum(players: seq<Player>, bettors: seq<Player>, previous: int, levels: seq<int>)
    requires LevelsOf(levels, previous, bettors)
    ensures Sum(Amounts(BuildLayers(players, bettors, previous, levels)))
         == Sum(Bets(bettors)) - Sum(Capped(Bets(bettors), previous))
    ensures forall pot :: pot in BuildLayers(players, bettors, previous, levels) ==> pot.amount > 0
    decreases |levels|
  {
    if levels == [] {
      NoneAbove(bettors, previous);
      assert forall i :: 0 <= i < |bettors| ==> bettors[i] in bettors;
      assert Capped(Bets(bettors), previous) == Bets(bettors);
    } else {
      hide Layer, BuildLayers, LevelsOf, Capped;
      LevelsNotBelow(levels, previous, bettors);
      LayerPositive(players, bettors, previous, levels);
      LayersSum(players, bettors, levels[0], levels[1..]);
      LayerHolds(players, bettors, previous, levels[0]);
      var pot := Layer(players, bettors, previous, levels[0]);
      var rest := BuildLayers(players, bettors, levels[0], levels[1..]);
      FirstLayer(players, bettors, previous, levels);
      assert Amounts([pot] + rest)[1..] == Amounts(rest);
    }
  }

  lemma {:induction false} ContributionsSum(
    players: seq<Player>, bettors: seq<Player>, previous: int, levels: seq<int>, p: Player)
    requires LevelsOf(levels, previous, bettors)
    requires IdsIdentify(players) && Within(bettors, players) && p in players
    requires p.bet > 0 ==> p in bettors
    requires p.bet >= 0
    ensures Sum(ContributionsOf(BuildLayers(players, bettors, previous, levels), p.id)) == p.bet - Min(p.bet, previous)
    decreases |levels|
  {
    if levels == [] {
      NoneAbove(bettors, previous);
    } else {
      hide Layer, BuildLayers, LevelsOf, IdsIdentify, Within, Contribution;
      LevelsNotBelow(levels, previous, bettors);
      LayerPositive(players, bettors, previous, levels);
      ContributionsSum(players, bettors, levels[0], levels[1..], p);
      LayerContribution(players, bettors, previous, levels[0], p);
      var pot := Layer(players, bettors, previous, levels[0]);
      var rest := BuildLayers(players, bettors, levels[0], levels[1..]);
      FirstLayer(players, bettors, previous, levels);
      assert ContributionsOf([pot] + rest, p.id)[1..] == ContributionsOf(rest, p.id);
    }
  }

  lemma {:induction false} ContestedSum(
    players: seq<Player>, bettors: seq<Player>, previous: int, levels: seq<int>, p: Player)
    requires LevelsOf(levels, previous, bettors)
    requires IdsIdentify(players) && Within(bettors, players)
    requires p in players && p in bettors && !p.folded && p.bet > 0
    ensures Sum(Amounts(Contested(BuildLayers(players, bettors, previous, levels), p.id)))
         == Sum(Capped(Bets(bettors), p.bet)) - Sum(Capped(Bets(bettors), Min(previous, p.bet)))
    decreases |levels|
  {
    if levels == [] {
      NoneAbove(bettors, previous);
    } else {
      hide Layer, BuildLayers, LevelsOf, IdsIdentify, Within, Contribution, Contested, Capped;
      LevelsNotBelow(levels, previous, bettors);
      LayerPositive(players, bettors, previous, levels);
      ContestedSum(players, bettors, levels[0], levels[1..], p);
      LayerContribution(players, bettors, previous, levels[0], p);
      var pot := Layer(players, bettors, previous, levels[0]);
      var rest := BuildLayers(players, bettors, levels[0], levels[1..]);
      FirstLayer(players, bettors, previous, levels);
      ContestedCons(pot, rest, p.id);
      if p.bet >= levels[0] {
        LayerContender(players, bettors, previous, levels[0], p);
        LayerHolds(players, bettors, previous, levels[0]);
      }
    }
  }

  lemma ContestedCons(pot: SidePot, rest: seq<SidePot>, id: string)
    ensures Sum(Amounts(Contested([pot] + rest, id)))
         == (if Contribution(pot, id) > 0 && id in pot.players then pot.amount else 0)
            + Sum(Amounts(Contested(rest, id)))
  {
    var tail := Contested(rest, id);
    assert ([pot] + rest)[1..] == rest;
    assert Contested([pot] + rest, id)
        == (if Contribution(pot, id) > 0 && id in pot.players then [pot] else []) + tail;
    assert Amounts([pot] + tail)[1..] == Amounts(tail);
    assert [] + tail == tail;
  }

  // ---------- the fairness theorems ----------

  lemma BettorsHoldAll(players: seq<Player>)
    requires forall p :: p in players ==> p.bet >= 0
    ensures Within(Bettors(players), players)
    ensures forall p :: p in Bettors(players) <==> p in players && p.bet > 0
  {
    FilterMembers((p: Player) => p.bet > 0, players);
  }

  /** Leaving out the players who bet nothing changes no sum of bets, however capped. */
  lemma {:induction false} BettorsSum(players: seq<Player>, height: int)
    requires height >= 0 && forall p :: p in players ==> p.bet >= 0
    ensures Sum(Capped(Bets(Bettors(players)), height)) == Sum(Capped(Bets(players), height))
    ensures Sum(Bets(Bettors(players))) == Sum(Bets(players))
  {
    hide Bettors, Sum, Capped, Bets;
    if players == [] {
      FirstBettor(players);
    } else {
      assert players == [players[0]] + players[1..] && players[0] in players;
      BettorsSum(players[1..], height);
      FirstBettor(players);
      FirstCapped(players, height);
      FirstCapped([players[0]] + Bettors(players[1..]), height);
    }
  }

  lemma FirstBettor(players: seq<Player>)
    ensures Bettors(players)
         == if players == [] then []
            else if players[0].bet > 0 then [players[0]] + Bettors(players[1..]) else Bettors(players[1..])
  {
    if players != [] && players[0].bet <= 0 {
      assert [] + Bettors(players[1..]) == Bettors(players[1..]);
    }
  }

  lemma FirstCapped(players: seq<Player>, height: int)
    requires players != []
    ensures Sum(Bets(players)) == players[0].bet + Sum(Bets(players[1..]))
    ensures Sum(Capped(Bets(players), height)) == Min(players[0].bet, height) + Sum(Capped(Bets(players[1..]), height))
  {
    assert Bets(players)[1..] == Bets(players[1..]);
    assert Capped(Bets(players), height)[1..] == Capped(Bets(players[1..]), height);
  }

  lemma CappedAtZero(bets: seq<int>)
    requires forall i :: 0 <= i < |bets| ==> bets[i] >= 0
    ensures Sum(Capped(bets, 0)) == 0
  {
    SumZero(Capped(bets, 0));
  }

  /** The pots of one round hold exactly what was bet, and none of them is empty. */
  lemma RoundPotsHoldBets(players: seq<Player>)
    requires forall p :: p in players ==> p.bet >= 0
    ensures Sum(Amounts(RoundPots(players))) == Sum(Bets(players))
    ensures forall pot :: pot in RoundPots(players) ==> pot.amount > 0
  {
    var bettors := Bettors(players);
    LevelsAreBets(players);
    BettorsHoldAll(players);
    BettorsSum(players, 0);
    LayersSum(players, bettors, 0, Levels(bettors));
    assert forall i :: 0 <= i < |bettors| ==> bettors[i] in bettors;
    CappedAtZero(Bets(bettors));
  }

  /** What the pots record a player as having paid adds up to its bet. */
  lemma ContributionsAddUp(players: seq<Player>, p: Player)
    requires DistinctIds(players) && p in players && forall q :: q in players ==> q.bet >= 0
    ensures Sum(ContributionsOf(RoundPots(players), p.id)) == p.bet
  {
    LevelsAreBets(players);
    BettorsHoldAll(players);
    DistinctIdsIdentify(players);
    ContributionsSum(players, Bettors(players), 0, Levels(Bettors(players)), p);
  }

  /**
   * Fair stakes: the pots an unfolded player has paid into and can win hold its own bet
   * matched by every other player, as far as that player's bet reaches.
   */
  lemma ContestedIsMatched(players: seq<Player>, p: Player)
    requires DistinctIds(players) && p in players && forall q :: q in players ==> q.bet >= 0
    requires !p.folded && p.bet > 0
    ensures Sum(Amounts(Contested(RoundPots(players), p.id))) == Sum(Capped(Bets(players), p.bet))
  {
    var bettors := Bettors(players);
    LevelsAreBets(players);
    BettorsHoldAll(players);
    DistinctIdsIdentify(players);
    ContestedSum(players, bettors, 0, Levels(bettors), p);
    BettorsSum(players, p.bet);
    assert forall i :: 0 <= i < |bettors| ==> bettors[i] in bettors;
    CappedAtZero(Bets(bettors));
  }

  lemma {:induction false} LayersAreLive(players: seq<Player>, bettors: seq<Player>, previous: int, levels: seq<int>)
    requires Within(bettors, players) && ActivePlayers(players) != []
    ensures forall pot :: pot in BuildLayers(players, bettors, previous, levels) ==> HasContender(players, pot)
    decreases |levels|
  {
    if levels != [] {
      var contributors := Contributors(bettors, levels[0]);
      var c := Contenders(players, contributors);
      ContributorMembers(bettors, levels[0]);
      ActiveMembers(contributors);
      ActiveMembers(players);
      assert c[0] in c && c[0] in players;
      var i :| 0 <= i < |players| && players[i] == c[0];
      assert Ids(c)[0] == players[i].id;
      assert Contends(players, Layer(players, bettors, previous, levels[0]), i);
      LayersAreLive(players, bettors, levels[0], levels[1..]);
    }
  }

  /** Every pot built while somebody is unfolded has an unfolded contender. */
  lemma RoundPotsAreLive(players: seq<Player>)
    requires ActivePlayers(players) != [] && forall p :: p in players ==> p.bet >= 0
    ensures forall pot :: pot in RoundPots(players) ==> HasContender(players, pot)
  {
    BettorsHoldAll(players);
    LayersAreLive(players, Bettors(players), 0, Levels(Bettors(players)));
  }

  /** Whoever may win the pot has paid into it. */
  ghost predicate ContendersPaid(players: seq<Player>, pot: SidePot) {
    forall i :: 0 <= i < |players| && Contends(players, pot, i) ==> Contribution(pot, players[i].id) > 0
  }

  /** Somebody who has paid into the pot has not folded. */
  ghost predicate PayerLeft(players: seq<Player>, pot: SidePot) {
    exists i :: 0 <= i < |players| && !players[i].folded && Contribution(pot, players[i].id) > 0
  }

  lemma LayerPayers(players: seq<Player>, previous: int, level: int)
    requires DistinctIds(players) && ActivePlayers(players) != [] && forall q :: q in players ==> q.bet >= 0
    requires 0 <= previous < level
    ensures var pot := Layer(players, Bettors(players), previous, level);
      ContendersPaid(players, pot) <==> PayerLeft(players, pot)
  {
    hide Layer, ActivePlayers, Contributors, Bettors;
    var bettors := Bettors(players);
    var pot, contributors := Layer(players, bettors, previous, level), Contributors(bettors, level);
    BettorsHoldAll(players);
    DistinctIdsIdentify(players);
    ContributorMembers(bettors, level);
    ActiveMembers(contributors);
    ActiveMembers(players);
    forall i | 0 <= i < |players|
      ensures Contribution(pot, players[i].id) > 0 <==> players[i].bet >= level
      ensures Contends(players, pot, i) <==> !players[i].folded && players[i] in Contenders(players, contributors)
    {
      LayerContribution(players, bettors, previous, level, players[i]);
      LayerPlayers(players, bettors, previous, level);
      IdsMember(Contenders(players, contributors), players, players[i]);
    }
    var first := Contenders(players, contributors)[0];
    assert first in Contenders(players, contributors);
    var i :| 0 <= i < |players| && players[i] == first;
  }

  lemma LayerPlayers(players: seq<Player>, bettors: seq<Player>, previous: int, level: int)
    ensures Layer(players, bettors, previous, level).players == Ids(Contenders(players, Contributors(bettors, level)))
  {
  }

  lemma {:induction false} LayersFallBack(players: seq<Player>, previous: int, levels: seq<int>)
    requires DistinctIds(players) && ActivePlayers(players) != [] && forall q :: q in players ==> q.bet >= 0
    requires LevelsOf(levels, previous, Bettors(players))
    ensures forall pot :: pot in BuildLayers(players, Bettors(players), previous, levels) ==>
      (ContendersPaid(players, pot) <==> PayerLeft(players, pot))
    decreases |levels|
  {
    hide Layer, Bettors, ContendersPaid, PayerLeft, LevelsOf;
    if levels != [] {
      LayerPositive(players, Bettors(players), previous, levels);
      LevelsNotBelow(levels, previous, Bettors(players));
      FirstLayer(players, Bettors(players), previous, levels);
      LayerPayers(players, previous, levels[0]);
      LayersFallBack(players, levels[0], levels[1..]);
    }
  }

  /**
   * When the fallback is used: a pot of the round can be won by somebody who has not paid
   * into it exactly when everybody who has paid into it has folded.
   */
  lemma UnpaidContenders(players: seq<Player>)
    requires DistinctIds(players) && ActivePlayers(players) != [] && forall q :: q in players ==> q.bet >= 0
    ensures forall pot :: pot in RoundPots(players) ==> (ContendersPaid(players, pot) <==> PayerLeft(players, pot))
  {
    LevelsAreBets(players);
    LayersFallBack(players, 0, Levels(Bettors(players)));
  }

  /** The player has paid into the pot. */
  predicate HasPaid(players: seq<Player>, pot: SidePot, i: nat)
    requires i < |players|
  {
    Contribution(pot, players[i].id) > 0
  }

  /**
   * Who is listed on a pot: its unfolded payers; if there is none, everybody unfolded; if
   * everybody has folded, all its payers. Contributions are listed for the payers and,
   * with nothing, for whoever else is listed.
   */
  ghost predicate ListedOn(players: seq<Player>, pot: SidePot, i: nat)
    requires i < |players|
  {
    if PayerLeft(players, pot) then HasPaid(players, pot, i) && !players[i].folded
    else if ActivePlayers(players) != [] then !players[i].folded
    else HasPaid(players, pot, i)
  }

  ghost predicate ListsPlayers(players: seq<Player>, pot: SidePot) {
    && (forall id :: id in pot.players <==>
          exists i :: 0 <= i < |players| && players[i].id == id && ListedOn(players, pot, i))
    && (forall id :: id in pot.contributions <==>
          exists i :: 0 <= i < |players| && players[i].id == id
            && (HasPaid(players, pot, i) || ListedOn(players, pot, i)))
  }

  lemma LayerLists(players: seq<Player>, previous: int, level: int)
    requires DistinctIds(players) && forall q :: q in players ==> q.bet >= 0
    requires 0 <= previous < level
    ensures ListsPlayers(players, Layer(players, Bettors(players), previous, level))
  {
    hide Layer, ActivePlayers, Contributors, Bettors, Contribution, PayerLeft;
    var bettors := Bettors(players);
    var pot, contributors := Layer(players, bettors, previous, level), Contributors(bettors, level);
    var live := ActivePlayers(contributors);
    BettorsHoldAll(players);
    DistinctIdsIdentify(players);
    ContributorMembers(bettors, level);
    ActiveMembers(contributors);
    ActiveMembers(players);
    forall i | 0 <= i < |players| ensures HasPaid(players, pot, i) <==> players[i] in contributors {
      LayerContribution(players, bettors, previous, level, players[i]);
    }
    PayersLive(players, pot, contributors);
    LayerParts(players, bettors, previous, level);
    forall i | 0 <= i < |players|
      ensures ListedOn(players, pot, i) <==> players[i] in Contenders(players, contributors)
    {
    }
    ListedIds(players, Contenders(players, contributors));
    ListedIds(players, contributors);
    ListedIds(players, ActivePlayers(players));
  }

  lemma PayersLive(players: seq<Player>, pot: SidePot, contributors: seq<Player>)
    requires forall i :: 0 <= i < |players| ==> (HasPaid(players, pot, i) <==> players[i] in contributors)
    requires Within(contributors, players)
    ensures PayerLeft(players, pot) <==> ActivePlayers(contributors) != []
  {
    hide ActivePlayers, Contribution;
    ActiveMembers(contributors);
    var live := ActivePlayers(contributors);
    if live != [] {
      assert live[0] in live;
      var i :| 0 <= i < |players| && players[i] == live[0];
      assert HasPaid(players, pot, i);
    }
    if PayerLeft(players, pot) {
      var i :| 0 <= i < |players| && !players[i].folded && Contribution(pot, players[i].id) > 0;
      assert HasPaid(players, pot, i);
      assert players[i] in live;
    }
  }

  lemma LayerParts(players: seq<Player>, bettors: seq<Player>, previous: int, level: int)
    ensures var pot, contributors := Layer(players, bettors, previous, level), Contributors(bettors, level);
      && pot.players == Ids(Contenders(players, contributors))
      && forall id :: id in pot.contributions <==>
           id in Ids(contributors) || (ActivePlayers(contributors) == [] && id in Ids(ActivePlayers(players)))
  {
  }

  lemma ListedIds(players: seq<Player>, part: seq<Player>)
    requires IdsIdentify(players) && Within(part, players)
    ensures forall id :: id in Ids(part) <==>
      exists i :: 0 <= i < |players| && players[i].id == id && players[i] in part
  {
    forall id ensures id in Ids(part) <==> exists i :: 0 <= i < |players| && players[i].id == id && players[i] in part {
      if id in Ids(part) {
        var k :| 0 <= k < |part| && Ids(part)[k] == id;
        assert part[k] in part && part[k] in players;
        var i :| 0 <= i < |players| && players[i] == part[k];
      }
      if i :| 0 <= i < |players| && players[i].id == id && players[i] in part {
        IdsMember(part, players, players[i]);
      }
    }
  }

  lemma {:induction false} LayersList(players: seq<Player>, previous: int, levels: seq<int>)
    requires DistinctIds(players) && forall q :: q in players ==> q.bet >= 0
    requires LevelsOf(levels, previous, Bettors(players))
    ensures forall pot :: pot in BuildLayers(players, Bettors(players), previous, levels) ==> ListsPlayers(players, pot)
    decreases |levels|
  {
    hide Layer, Bettors, ListsPlayers, LevelsOf;
    if levels != [] {
      LayerPositive(players, Bettors(players), previous, levels);
      LevelsNotBelow(levels, previous, Bettors(players));
      FirstLayer(players, Bettors(players), previous, levels);
      LayerLists(players, previous, levels[0]);
      LayersList(players, levels[0], levels[1..]);
    }
  }

  /** Every pot of a round lists exactly the players it should. */
  lemma RoundPotsList(players: seq<Player>)
    requires DistinctIds(players) && forall q :: q in players ==> q.bet >= 0
    ensures forall pot :: pot in RoundPots(players) ==> ListsPlayers(players, pot)
  {
    LevelsAreBets(players);
    LayersList(players, 0, Levels(Bettors(players)));
  }

  /** A round with a bet in it makes at least one pot. */
  lemma RoundPotsExist(players: seq<Player>, p: Player)
    requires p in players && p.bet > 0 && forall q :: q in players ==> q.bet >= 0
    ensures RoundPots(players) != []
  {
    var bets := Bets(players);
    RoundPotsHoldBets(players);
    var i :| 0 <= i < |players| && players[i] == p;
    assert forall k :: 0 <= k < |players| ==> players[k] in players;
    SumNonNegative(bets);
    assert bets[i] > 0;
  }

  /** What each player has in a pot. */
  function PaidBy(pot: SidePot, players: seq<Player>): (r: seq<int>)
    ensures |r| == |players| && forall i :: 0 <= i < |r| ==> r[i] == Contribution(pot, players[i].id)
  {
    seq(|players|, i requires 0 <= i < |players| => Contribution(pot, players[i].id))
  }

  lemma {:induction false} EqualShares(paid: seq<int>, bets: seq<int>, level: int, share: int)
    requires |paid| == |bets|
    requires forall i :: 0 <= i < |paid| ==> paid[i] == if bets[i] >= level then share else 0
    ensures Sum(paid) == share * CountAtLeast(bets, level)
  {
    if paid != [] {
      EqualShares(paid[1..], bets[1..], level, share);
      OneMore(share, CountAtLeast(bets[1..], level));
    }
  }

  lemma {:induction false} CountBettors(players: seq<Player>, level: int)
    requires level > 0
    ensures CountAtLeast(Bets(Bettors(players)), level) == CountAtLeast(Bets(players), level)
  {
    if players != [] {
      var p, rest := players[0], players[1..];
      CountBettors(rest, level);
      assert Bets(players)[1..] == Bets(rest);
      if p.bet > 0 {
        assert Bettors(players) == [p] + Bettors(rest);
        assert Bets([p] + Bettors(rest))[1..] == Bets(Bettors(rest));
      } else {
        assert Bettors(players) == [] + Bettors(rest);
        assert [] + Bettors(rest) == Bettors(rest);
      }
    }
  }

  lemma {:induction false} LayersArePaid(players: seq<Player>, previous: int, levels: seq<int>)
    requires DistinctIds(players) && forall q :: q in players ==> q.bet >= 0
    requires LevelsOf(levels, previous, Bettors(players))
    ensures forall pot :: pot in BuildLayers(players, Bettors(players), previous, levels)
              ==> Sum(PaidBy(pot, players)) == pot.amount
    decreases |levels|
  {
    if levels != [] {
      hide Layer, BuildLayers, LevelsOf, PaidBy, Bettors;
      LevelsNotBelow(levels, previous, Bettors(players));
      LayerPositive(players, Bettors(players), previous, levels);
      FirstLayer(players, Bettors(players), previous, levels);
      LayerIsPaid(players, previous, levels[0]);
      LayersArePaid(players, levels[0], levels[1..]);
    }
  }

  lemma LayerIsPaid(players: seq<Player>, previous: int, level: int)
    requires DistinctIds(players) && forall q :: q in players ==> q.bet >= 0
    requires 0 <= previous < level
    ensures var pot := Layer(players, Bettors(players), previous, level);
      Sum(PaidBy(pot, players)) == pot.amount
  {
    hide Bettors, Contribution, Contributors, Contributions, Contenders;
    var bettors := Bettors(players);
    var pot := Layer(players, bettors, previous, level);
    BettorsHoldAll(players);
    DistinctIdsIdentify(players);
    forall i | 0 <= i < |players|
      ensures PaidBy(pot, players)[i] == if Bets(players)[i] >= level then level - previous else 0
    {
      LayerContribution(players, bettors, previous, level, players[i]);
    }
    EqualShares(PaidBy(pot, players), Bets(players), level, level - previous);
    CountBettors(players, level);
    ContributorCount(bettors, level);
  }

  /** Each pot's amount is what its recorded contributions add up to. */
  lemma PotsArePaid(players: seq<Player>)
    requires DistinctIds(players) && forall q :: q in players ==> q.bet >= 0
    ensures forall pot :: pot in RoundPots(players) ==> Sum(PaidBy(pot, players)) == pot.amount
  {
    LevelsAreBets(players);
    LayersArePaid(players, 0, Levels(Bettors(players)));
  }
}
