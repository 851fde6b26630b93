/** A hand that loses a chip: a concrete run showing why conservation needs its condition. */
module LostChip {
  import opened Options
  import opened Sequences
  import opened Rng
  import opened Deck
  import opened Table
  import opened Layers
  import opened Settlement
  import opened Machine
  import opened Chips
  import opened CardFlow
  import opened Lifecycle
  import opened Runs
  import opened Hands

  const A := Player("A", 100, false, 0, false, None)
  const B := Player("B", 100, false, 0, false, None)
  const START := State(WaitBlinds, Preflop, 0, [], 0, [A, B], [], [], {})

  /** Blinds of 1 and 2, the round closed on them, the flop, and the big blind folds. */
  const HAND: seq<Action> := [PostBlind("A", 1), PostBlind("B", 2), Next, Next, Next, Fold("B"), Next]

  lemma FilterPair(keep: Player -> bool, a: Player, b: Player)
    ensures Filter(keep, [a, b]) == (if keep(a) then [a] else []) + (if keep(b) then [b] else [])
    ensures Filter(keep, [b]) == if keep(b) then [b] else []
  {
    assert [a, b][1..] == [b] && [b][1..] == [];
    assert Filter(keep, [b]) == (if keep(b) then [b] else []) + [];
  }

  lemma PairLevels(a: Player, b: Player)
    requires a.bet == 1 && b.bet == 2
    ensures Levels([a, b]) == [1, 2]
  {
    hide Unique, Sort;
    assert Bets([a, b]) == [1, 2];
    OneTwoUnique();
    OneTwoSorted();
  }

  lemma OneTwoUnique()
    ensures Unique([1, 2]) == [1, 2]
  {
    assert [1, 2][..1] == [1] && [1][..0] == [];
    assert Unique([1]) == [1];
  }

  lemma OneTwoSorted()
    ensures Sort(Ascending(), [1, 2]) == [1, 2]
  {
    assert [1, 2][1..] == [2] && [2][1..] == [];
    assert Sort(Ascending(), [2]) == [2];
  }

  lemma PairLayers(a: Player, b: Player)
    requires a.bet == 1 && b.bet == 2 && !a.folded && !b.folded
    ensures var first, second := Layer([a, b], [a, b], 0, 1), Layer([a, b], [a, b], 1, 2);
      && first.amount == 2 && first.players == [a.id, b.id]
      && second.amount == 1 && second.players == [b.id]
  {
    FilterPair((p: Player) => p.bet >= 1, a, b);
    FilterPair((p: Player) => p.bet >= 2, a, b);
    FilterPair((p: Player) => !p.folded, a, b);
    PairContributors(a, b, 1);
    PairContributors(a, b, 2);
    assert Ids([a, b]) == [a.id, b.id] && Ids([b]) == [b.id];
  }

  lemma PairContributors(a: Player, b: Player, level: int)
    requires a.bet == 1 && b.bet == 2 && 1 <= level <= 2
    ensures Contributors([a, b], level) == if level == 1 then [a, b] else [b]
  {
    FilterPair((p: Player) => p.bet >= level, a, b);
  }

  /** Two bets of 1 and 2 make a pot for both players and a pot for the second one alone. */
  lemma TwoBlindsTwoPots(a: Player, b: Player)
    requires a.bet == 1 && b.bet == 2 && !a.folded && !b.folded
    ensures var pots := RoundPots([a, b]);
      && |pots| == 2 && pots[0].amount == 2 && pots[0].players == [a.id, b.id]
      && pots[1].amount == 1 && pots[1].players == [b.id]
  {
    hide Layer, Levels;
    var players := [a, b];
    FilterPair((p: Player) => p.bet > 0, a, b);
    assert Bettors(players) == players;
    PairLevels(a, b);
    PairLayers(a, b);
    var first, second := Layer(players, players, 0, 1), Layer(players, players, 1, 2);
    assert [1, 2][1..] == [2] && [2][1..] == [];
    assert BuildLayers(players, players, 1, [2]) == [second] + [];
    assert BuildLayers(players, players, 0, [1, 2]) == [first] + [second];
  }

  lemma StartIsFresh()
    ensures Fresh(START) && Inv(START) && Total(START) == 200
  {
    assert [A, B][0].id == "A" && [A, B][1].id == "B" && "A"[0] != "B"[0];
    FreshHolds(START);
    assert Stacks([A, B]) == [100, 100];
    assert [100, 100][1..] == [100] && [100][1..] == [];
    assert Sum([100]) == 100;
  }

  lemma FirstBlind(rng: HandRng)
    ensures After(START, HAND[0], rng)
         == START.(players := [A.(stack := 99, bet := 1), B], pot := 1, currentBet := 1, blindsPosted := {"A"})
  {
    assert [A, B][0 := A.(stack := 99, bet := 1)] == [A.(stack := 99, bet := 1), B];
    assert {} + {"A"} == {"A"} && |{"A"}| == 1;
  }

  lemma SecondBlind(s: State, rng: HandRng)
    requires s == START.(players := [A.(stack := 99, bet := 1), B], pot := 1, currentBet := 1, blindsPosted := {"A"})
    ensures var t := After(s, HAND[1], rng);
      && t.phase == Deal && t.street == Preflop && t.sidePots == [] && |t.players| == 2
      && t.players[0] == A.(stack := 99, bet := 1, holeCards := t.players[0].holeCards)
      && t.players[1] == B.(stack := 98, bet := 2, holeCards := t.players[1].holeCards)
  {
    hide BuildDeck, DealHoles;
    var b2 := B.(stack := 98, bet := 2);
    assert "A"[0] != "B"[0];
    assert s.players[1..] == [B];
    assert FindPlayer([B], "B") == Some(0);
    assert FindPlayer(s.players, "B") == Some(1);
    assert s.players[1 := b2] == [s.players[0], b2];
    TwoNames();
    DealHolesPlayers([s.players[0], b2], BuildDeck(rng, {}));
  }

  lemma TwoNames()
    ensures |{"A"} + {"B"}| == 2
  {
    assert "A"[0] != "B"[0];
    assert "A" != "B";
    assert |{"A", "B"}| == 2;
    assert {"A"} + {"B"} == {"A", "B"};
  }

  /** Nothing bet, a pot of two for both and a pot of one for the big blind alone. */
  ghost predicate TwoPots(s: State) {
    && |s.players| == 2 && NoBets(s.players) && s.players[0].id == "A" && s.players[1].id == "B" && !s.players[0].folded
    && |s.sidePots| == 2 && s.sidePots[0].players == ["A", "B"]
    && s.sidePots[1].players == ["B"] && s.sidePots[1].amount == 1
  }

  /** The betting on the flop. */
  ghost predicate AfterFlop(s: State) {
    s.phase == BettingRound && s.street == Flop && TwoPots(s)
  }

  lemma ToFlop(s: State, rng: HandRng)
    requires Inv(s) && s.phase == Deal && s.street == Preflop && s.sidePots == [] && |s.players| == 2
    requires s.players[0] == A.(stack := 99, bet := 1, holeCards := s.players[0].holeCards)
    requires s.players[1] == B.(stack := 98, bet := 2, holeCards := s.players[1].holeCards)
    ensures AfterFlop(After(After(After(s, Next, rng), Next, rng), Next, rng))
  {
    hide RoundPots, DeckFor;
    var t := After(s, Next, rng);
    assert t == s.(phase := BettingRound);
    assert t.players == [t.players[0], t.players[1]];
    TwoBlindsTwoPots(t.players[0], t.players[1]);
    StepKeeps(s, Next, rng);
    var u := After(t, Next, rng);
    CloseKeeps(t);
    NotAlone(CloseStep(t));
    InvChips(t);
    NoBettors(t.players);
    assert u.sidePots == RoundPots(t.players);
    StepKeeps(t, Next, rng);
    DealingNeverFails(u, rng);
    SameTableDealt(u, Next, rng);
  }

  /** The fold leaves the second pot to nobody and the hand to the small blind. */
  lemma FoldToShowdown(s: State, rng: HandRng)
    requires Inv(s) && AfterFlop(s)
    ensures var t := After(s, Fold("B"), rng); t.phase == Showdown && TwoPots(t) && t.players[1].folded
  {
    assert "A"[0] != "B"[0];
    assert FindPlayer(s.players[1..], "B") == Some(0);
    assert FindPlayer(s.players, "B") == Some(1);
    var t := s.(players := s.players[1 := s.players[1].(folded := true)]);
    assert t.players == [t.players[0], t.players[1]];
    FilterPair((p: Player) => !p.folded, t.players[0], t.players[1]);
  }

  lemma OneIsDead(s: State)
    requires TwoPots(s) && s.players[1].folded
    ensures DeadAmount(s.players, s.sidePots) == 1
  {
    assert "A"[0] != "B"[0];
    var first, second := s.sidePots[0], s.sidePots[1];
    assert first.players[0] == "A" && s.players[0].id in first.players;
    assert Contends(s.players, first, 0);
    assert !HasContender(s.players, second);
    assert s.sidePots[1..] == [second] && [second][1..] == [];
    assert DeadAmount(s.players, [second]) == 1;
  }

  lemma NothingLost(s: State, a: Action, rng: HandRng)
    requires Inv(s) && s.phase != Showdown
    ensures Inv(After(s, a, rng)) && Total(After(s, a, rng)) == Total(s)
  {
    hide Inv, After, Total;
    StepKeeps(s, a, rng);
  }

  /**
   * Two players, blinds of 1 and 2, and the big blind folds after the flop: the chip only
   * the big blind could win is gone, and of 200 chips 199 are left.
   */
  lemma BigBlindFoldLosesChips(rng: HandRng)
    ensures Fresh(START) && Total(START) == 200
    ensures Run(START, HAND, rng).phase == Settle && Total(Run(START, HAND, rng)) == 199
  {
    hide After, Inv, Fresh, Total, TwoPots, DeadAmount;
    StartIsFresh();
    FirstBlind(rng);
    NothingLost(START, HAND[0], rng);
    var s1 := After(START, HAND[0], rng);
    SecondBlind(s1, rng);
    NothingLost(s1, HAND[1], rng);
    var s2 := After(s1, HAND[1], rng);
    NothingLost(s2, Next, rng);
    var s3 := After(s2, Next, rng);
    AfterPreflop(s2, rng);
    NothingLost(s3, Next, rng);
    var s4 := After(s3, Next, rng);
    NothingLost(s4, Next, rng);
    var s5 := After(s4, Next, rng);
    ToFlop(s2, rng);
    NothingLost(s5, Fold("B"), rng);
    var s6 := After(s5, Fold("B"), rng);
    FoldToShowdown(s5, rng);
    OneIsDead(s6);
    StepKeeps(s6, Next, rng);
    SettledPhase(s6, rng);
    RunOfSeven(rng, s1, s2, s3, s4, s5, s6);
  }

  lemma AfterPreflop(s: State, rng: HandRng)
    requires s.phase == Deal && s.street == Preflop
    ensures var t := After(s, Next, rng); t.phase == BettingRound && After(t, Next, rng).phase != Showdown
  {
    hide FinishRound;
    var t := After(s, Next, rng);
    CloseMovesOn(t);
  }

  lemma SettledPhase(s: State, rng: HandRng)
    requires s.phase == Showdown
    ensures After(s, Next, rng).phase == Settle && Lost(s, Next) == DeadAmount(s.players, s.sidePots)
  {
  }

  lemma RunOfSeven(rng: HandRng, s1: State, s2: State, s3: State, s4: State, s5: State, s6: State)
    requires s1 == After(START, HAND[0], rng) && s2 == After(s1, HAND[1], rng) && s3 == After(s2, Next, rng)
    requires s4 == After(s3, Next, rng) && s5 == After(s4, Next, rng) && s6 == After(s5, Fold("B"), rng)
    ensures Run(START, HAND, rng) == After(s6, Next, rng)
  {
    hide After;
    assert HAND[1..][1..] == HAND[2..] && HAND[2..][1..] == HAND[3..] && HAND[3..][1..] == HAND[4..];
    assert HAND[4..][1..] == HAND[5..] && HAND[5..][1..] == HAND[6..] && HAND[6..][1..] == [];
    assert Run(s6, HAND[6..], rng) == After(s6, Next, rng);
    assert Run(s5, HAND[5..], rng) == Run(s6, HAND[6..], rng);
    assert Run(s4, HAND[4..], rng) == Run(s5, HAND[5..], rng);
    assert Run(s3, HAND[3..], rng) == Run(s4, HAND[4..], rng);
    assert Run(s2, HAND[2..], rng) == Run(s3, HAND[3..], rng);
    assert Run(s1, HAND[1..], rng) == Run(s2, HAND[2..], rng);
  }
}
