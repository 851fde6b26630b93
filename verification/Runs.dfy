/** Whole hands and runs of hands: what every reachable state satisfies. */
module Runs {
  import opened Rng
  import opened Deck
  import opened Table
  import opened Settlement
  import opened Machine
  import opened Chips
  import opened Lifecycle

  // ---------- every step ----------

  lemma ShowdownKeeps(s: State)
    requires Inv(s) && s.phase == Showdown
    ensures var t := SettledState(s).(phase := Settle);
      Inv(t) && Total(t) == Total(s) - DeadAmount(s.players, s.sidePots)
  {
    var scores := Scores(s.players, s.community);
    var t := SettledState(s);
    SumZeroBets(s.players);
    SettlementTotal(s);
    PaidIsFair(s.players, scores, PotsToSettle(s));
    SameHands(s.players, t.players);
    SumZeroBets(t.players);
  }

  lemma ResetKeeps(s: State)
    requires Inv(s) && s.phase == Settle
    ensures var t := SettleStep(s, Next).state; Inv(t) && Total(t) == Total(s)
  {
    var t := SettleStep(s, Next).state;
    assert Stacks(t.players) == Stacks(s.players);
    SumZeroBets(t.players);
  }

  /** Every accepted step keeps the invariant, and all chips but those of dead pots; a rejected one changes nothing. */
  lemma StepKeeps(s: State, a: Action, rng: HandRng)
    requires Inv(s)
    ensures Inv(After(s, a, rng)) && Total(After(s, a, rng)) == Total(s) - Lost(s, a)
  {
    hide BlindStep, DealStep, BettingStep, Inv, Total, DeadAmount, SettledState;
    if Step(s, a, rng).Accepted? {
      match s.phase
      case WaitBlinds => BlindStepKeeps(s, a, rng);
      case NextHand => BlindStepKeeps(s, a, rng);
      case Deal => DealStepKeeps(s, a, rng);
      case BettingRound => BettingStepKeeps(s, a);
      case Showdown => ShowdownKeeps(s);
      case Settle => ResetKeeps(s);
    } else {
      RejectedLosesNothing(s, a, rng);
    }
  }

  lemma RejectedLosesNothing(s: State, a: Action, rng: HandRng)
    requires Step(s, a, rng).Rejected?
    ensures Lost(s, a) == 0
  {
  }

  // ---------- every run ----------

  function RunLost(s: State, actions: seq<Action>, rng: HandRng): int
    decreases |actions|
  {
    if actions == [] then 0 else Lost(s, actions[0]) + RunLost(After(s, actions[0], rng), actions[1..], rng)
  }

  /** Some action of the run settles a hand in which a side pot has no contender left. */
  ghost predicate SettlesDeadPot(s: State, actions: seq<Action>, rng: HandRng)
    decreases |actions|
  {
    actions != [] &&
    ((s.phase == Showdown && actions[0].Next? && exists pot :: pot in s.sidePots && !HasContender(s.players, pot))
     || SettlesDeadPot(After(s, actions[0], rng), actions[1..], rng))
  }

  lemma {:induction false} RunKeeps(s: State, actions: seq<Action>, rng: HandRng)
    requires Inv(s)
    ensures Inv(Run(s, actions, rng))
    ensures Total(Run(s, actions, rng)) == Total(s) - RunLost(s, actions, rng)
    decreases |actions|
  {
    hide Inv, Total, Lost, After;
    if actions != [] {
      StepKeeps(s, actions[0], rng);
      RunKeeps(After(s, actions[0], rng), actions[1..], rng);
    }
  }

  lemma LostSign(s: State, a: Action)
    requires Inv(s)
    ensures Lost(s, a) >= 0
    ensures Lost(s, a) > 0 <==>
      s.phase == Showdown && a.Next? && exists pot :: pot in s.sidePots && !HasContender(s.players, pot)
  {
    DeadAmountSign(s.players, s.sidePots);
  }

  lemma {:induction false} RunLostSign(s: State, actions: seq<Action>, rng: HandRng)
    requires Inv(s)
    ensures RunLost(s, actions, rng) >= 0
    ensures RunLost(s, actions, rng) > 0 <==> SettlesDeadPot(s, actions, rng)
    decreases |actions|
  {
    hide Inv, Lost, After;
    if actions != [] {
      LostSign(s, actions[0]);
      StepKeeps(s, actions[0], rng);
      RunLostSign(After(s, actions[0], rng), actions[1..], rng);
    }
  }

  /**
   * Conservation over every run from a new machine, any number of hands long: stacks
   * and pot keep their total exactly when no hand is settled with a side pot that has
   * lost its last contender; whatever is missing is what those pots held.
   */
  lemma ChipsConserved(s: State, actions: seq<Action>, rng: HandRng)
    requires Fresh(s)
    ensures Total(Run(s, actions, rng)) == Total(s) - RunLost(s, actions, rng)
    ensures Total(Run(s, actions, rng)) == Total(s) <==> !SettlesDeadPot(s, actions, rng)
  {
    FreshHolds(s);
    RunKeeps(s, actions, rng);
    RunLostSign(s, actions, rng);
  }

  // ---------- which folds kill a pot ----------

  /** Every side pot can still be won by somebody. */
  ghost predicate AllContested(s: State) {
    forall k :: 0 <= k < |s.sidePots| ==> HasContender(s.players, s.sidePots[k])
  }

  function Folded(players: seq<Player>, id: string): (r: seq<Player>)
    ensures |r| == |players|
  {
    match FindPlayer(players, id)
    case None => players
    case Some(i) => players[i := players[i].(folded := true)]
  }

  /** The fold takes the last contender away from a side pot built in an earlier round. */
  ghost predicate Orphans(s: State, a: Action) {
    && s.phase == BettingRound && a.Fold?
    && exists k :: 0 <= k < |s.sidePots| && !HasContender(Folded(s.players, a.playerId), s.sidePots[k])
  }

  lemma SamePotsContested(s: State, t: State)
    requires AllContested(s) && SameSeats(s.players, t.players) && t.sidePots == s.sidePots
    ensures AllContested(t)
  {
    forall k | 0 <= k < |t.sidePots| ensures HasContender(t.players, t.sidePots[k]) {
      SameSeatsContest(s.players, t.players, s.sidePots[k]);
    }
  }

  /** Closing a round keeps contested pots contested and adds contested ones only. */
  lemma ClosedPotsContested(s: State)
    requires ChipsAddUp(s) && ActivePlayers(s.players) != []
    ensures AllContested(FinishRound(s)) <==> AllContested(s)
  {
    var t := FinishRound(s);
    FinishRoundChips(s);
    FinishRoundPots(s);
    forall k | 0 <= k < |t.sidePots|
      ensures HasContender(t.players, t.sidePots[k]) == HasContender(s.players, t.sidePots[k])
    {
      SameSeatsContest(s.players, t.players, t.sidePots[k]);
    }
    forall k | 0 <= k < |s.sidePots| ensures t.sidePots[k] == s.sidePots[k] {
    }
  }

  lemma FoldContested(s: State, i: nat)
    requires Inv(s) && s.phase == BettingRound && i < |s.players| && AllContested(s)
    ensures var t := s.(players := s.players[i := s.players[i].(folded := true)]);
      AllContested(EndIfAlone(t)) <==> AllContested(t)
  {
    hide FinishRound, HasContender, ActivePlayers;
    var t := s.(players := s.players[i := s.players[i].(folded := true)]);
    FoldKeeps(s, i);
    FoldCount(s.players, i);
    ClosedPotsContested(t);
    SameButPhase(t);
  }

  lemma SameButPhase(s: State)
    ensures AllContested(FinishRound(s).(phase := Showdown)) == AllContested(FinishRound(s))
    ensures AllContested(s.(currentBet := 0).(phase := Showdown)) == AllContested(s)
  {
  }

  lemma WagerContested(s: State, id: string, amount: int)
    requires Inv(s) && s.phase == BettingRound && AllContested(s) && BetStep(s, id, amount).Accepted?
    ensures AllContested(EndIfAlone(BetStep(s, id, amount).state))
  {
    WagerKeeps(s, id, amount);
    var i := FindPlayer(s.players, id).value;
    PlaceBetKeeps(s, i, amount);
    SamePotsContested(s, BetStep(s, id, amount).state);
  }

  lemma CloseContested(s: State)
    requires Inv(s) && s.phase == BettingRound && AllContested(s)
    ensures AllContested(EndIfAlone(CloseStep(s)))
  {
    CloseKeeps(s);
    NotAlone(CloseStep(s));
    ClosedPotsContested(s);
  }

  lemma BettingContested(s: State, a: Action)
    requires Inv(s) && s.phase == BettingRound && AllContested(s) && BettingStep(s, a).Accepted?
    ensures AllContested(BettingStep(s, a).state) <==> !Orphans(s, a)
  {
    hide Inv, EndIfAlone, PlaceBet, FinishRound, CloseStep, AllContested;
    match a
    case Next => CloseContested(s);
    case Check(_) => NotAlone(s);
    case Fold(id) =>
      FoldContested(s, FindPlayer(s.players, id).value);
      OrphansOrNot(s, id);
    case Call(id) => WagerContested(s, id, s.currentBet - s.players[FindPlayer(s.players, id).value].bet);
    case PostBlind(id, amount) => WagerContested(s, id, amount);
    case Bet(id, amount) => WagerContested(s, id, amount);
    case Raise(id, amount) => WagerContested(s, id, amount);
  }

  lemma OrphansOrNot(s: State, id: string)
    requires s.phase == BettingRound
    ensures AllContested(s.(players := Folded(s.players, id))) <==> !Orphans(s, Fold(id))
  {
  }

  /** Contested pots stay contested under every step except a fold that orphans one of them. */
  lemma OnlyFoldsOrphan(s: State, a: Action, rng: HandRng)
    requires Inv(s) && AllContested(s) && Step(s, a, rng).Accepted?
    ensures AllContested(After(s, a, rng)) <==> !Orphans(s, a)
  {
    hide Inv;
    match s.phase
    case WaitBlinds => NoPotsInBlinds(s, a, rng);
    case NextHand => NoPotsInBlinds(s, a, rng);
    case Deal =>
      SameTableDealt(s, a, rng);
      SamePotsContested(s, After(s, a, rng));
    case BettingRound => BettingContested(s, a);
    case Showdown =>
      SettledHasNoPots(s);
    case Settle =>
  }

  lemma NoPotsInBlinds(s: State, a: Action, rng: HandRng)
    requires Inv(s) && (s.phase == WaitBlinds || s.phase == NextHand) && BlindStep(s, a, rng).Accepted?
    ensures BlindStep(s, a, rng).state.sidePots == []
  {
    hide BuildDeck, DealHoles;
    BlindKeeps(s, FindPlayer(s.players, a.playerId).value, a.amount);
  }

  lemma SameTableDealt(s: State, a: Action, rng: HandRng)
    requires s.phase == Deal && DealStep(s, a, rng).Accepted?
    ensures var t := DealStep(s, a, rng).state; t.players == s.players && t.sidePots == s.sidePots
  {
  }

  lemma SettledHasNoPots(s: State)
    requires Inv(s) && s.phase == Showdown
    ensures SettledState(s).sidePots == []
  {
  }

  ghost predicate SomeFoldOrphans(s: State, actions: seq<Action>, rng: HandRng)
    decreases |actions|
  {
    actions != [] && (Orphans(s, actions[0]) || SomeFoldOrphans(After(s, actions[0], rng), actions[1..], rng))
  }

  lemma {:induction false} NoOrphansNoLoss(s: State, actions: seq<Action>, rng: HandRng)
    requires Inv(s) && AllContested(s) && !SomeFoldOrphans(s, actions, rng)
    ensures !SettlesDeadPot(s, actions, rng) && AllContested(Run(s, actions, rng))
    decreases |actions|
  {
    hide Inv, After, Orphans;
    if actions != [] {
      var a := actions[0];
      StepKeeps(s, a, rng);
      AcceptedOrSame(s, a, rng);
      if After(s, a, rng) != s {
        OnlyFoldsOrphan(s, a, rng);
      }
      NoOrphansNoLoss(After(s, a, rng), actions[1..], rng);
    }
  }

  lemma AcceptedOrSame(s: State, a: Action, rng: HandRng)
    ensures Step(s, a, rng).Accepted? || After(s, a, rng) == s
  {
  }

  /** As long as no fold orphans a side pot, no run loses a chip. */
  lemma ChipsConservedWithoutOrphans(s: State, actions: seq<Action>, rng: HandRng)
    requires Fresh(s) && !SomeFoldOrphans(s, actions, rng)
    ensures Total(Run(s, actions, rng)) == Total(s)
  {
    FreshHolds(s);
    NoOrphansNoLoss(s, actions, rng);
    ChipsConserved(s, actions, rng);
  }

  // ---------- an orphaned pot is lost ----------

  predicate HandInProgress(phase: Phase) {
    phase.Deal? || phase.BettingRound? || phase.Showdown?
  }

  lemma DeadMeansInProgress(s: State)
    requires Inv(s) && !AllContested(s)
    ensures HandInProgress(s.phase)
  {
  }

  lemma StillDeadAfterWager(s: State, id: string, amount: int)
    requires Inv(s) && s.phase == BettingRound && !AllContested(s) && BetStep(s, id, amount).Accepted?
    ensures !AllContested(EndIfAlone(BetStep(s, id, amount).state))
  {
    WagerKeeps(s, id, amount);
    PlaceBetKeeps(s, FindPlayer(s.players, id).value, amount);
    var k :| 0 <= k < |s.sidePots| && !HasContender(s.players, s.sidePots[k]);
    SameSeatsContest(s.players, BetStep(s, id, amount).state.players, s.sidePots[k]);
  }

  lemma StillDeadAfterFold(s: State, i: nat)
    requires Inv(s) && s.phase == BettingRound && i < |s.players| && !AllContested(s)
    ensures var t := s.(players := s.players[i := s.players[i].(folded := true)]);
      !AllContested(EndIfAlone(t))
  {
    var t := s.(players := s.players[i := s.players[i].(folded := true)]);
    FoldKeeps(s, i);
    FoldCount(s.players, i);
    var k :| 0 <= k < |s.sidePots| && !HasContender(s.players, s.sidePots[k]);
    FoldedStillDead(s.players, i, s.sidePots[k]);
    ClosedPotsContested(t);
  }

  lemma FoldedStillDead(players: seq<Player>, i: nat, pot: SidePot)
    requires i < |players| && !HasContender(players, pot)
    ensures !HasContender(players[i := players[i].(folded := true)], pot)
  {
    var after := players[i := players[i].(folded := true)];
    if HasContender(after, pot) {
      var k :| 0 <= k < |after| && Contends(after, pot, k);
      assert Contends(players, pot, k);
    }
  }

  lemma BettingStillDead(s: State, a: Action)
    requires Inv(s) && s.phase == BettingRound && !AllContested(s) && BettingStep(s, a).Accepted?
    ensures !AllContested(BettingStep(s, a).state)
  {
    hide Inv, EndIfAlone, PlaceBet, AllContested, FinishRound;
    match a
    case Next =>
      CloseKeeps(s);
      NotAlone(CloseStep(s));
      InvChips(s);
      ClosedPotsContested(s);
      CloseSamePots(s);
    case Check(_) => NotAlone(s);
    case Fold(id) => StillDeadAfterFold(s, FindPlayer(s.players, id).value);
    case Call(id) => StillDeadAfterWager(s, id, s.currentBet - s.players[FindPlayer(s.players, id).value].bet);
    case PostBlind(id, amount) => StillDeadAfterWager(s, id, amount);
    case Bet(id, amount) => StillDeadAfterWager(s, id, amount);
    case Raise(id, amount) => StillDeadAfterWager(s, id, amount);
  }

  lemma InvChips(s: State)
    requires Inv(s)
    ensures ChipsAddUp(s) && (s.phase == BettingRound ==> ActivePlayers(s.players) != [])
  {
  }

  lemma CloseSamePots(s: State)
    ensures AllContested(CloseStep(s)) == AllContested(FinishRound(s))
  {
  }

  /** Nothing but settling the hand gets rid of a dead pot. */
  lemma StillDead(s: State, a: Action, rng: HandRng)
    requires Inv(s) && !AllContested(s) && !(s.phase == Showdown && a.Next?)
    ensures !AllContested(After(s, a, rng))
  {
    hide Inv, BettingStep;
    DeadMeansInProgress(s);
    if Step(s, a, rng).Accepted? {
      if s.phase == BettingRound {
        BettingStillDead(s, a);
      } else {
        SameTableDealt(s, a, rng);
      }
    }
  }

  lemma {:induction false} DeadPotsAreLost(s: State, actions: seq<Action>, rng: HandRng)
    requires Inv(s) && !AllContested(s) && !HandInProgress(Run(s, actions, rng).phase)
    ensures SettlesDeadPot(s, actions, rng)
    decreases |actions|
  {
    hide Inv, After;
    DeadMeansInProgress(s);
    if actions != [] {
      var a := actions[0];
      if s.phase == Showdown && a.Next? {
        var k :| 0 <= k < |s.sidePots| && !HasContender(s.players, s.sidePots[k]);
        assert s.sidePots[k] in s.sidePots;
      } else {
        StepKeeps(s, a, rng);
        StillDead(s, a, rng);
        DeadPotsAreLost(After(s, a, rng), actions[1..], rng);
      }
    }
  }

  lemma OrphaningFoldAccepted(s: State, a: Action, rng: HandRng)
    requires Orphans(s, a) && AllContested(s)
    ensures Step(s, a, rng).Accepted?
  {
  }

  lemma {:induction false} OrphansAreLost(s: State, actions: seq<Action>, rng: HandRng)
    requires Inv(s) && AllContested(s) && SomeFoldOrphans(s, actions, rng)
    requires !HandInProgress(Run(s, actions, rng).phase)
    ensures SettlesDeadPot(s, actions, rng)
    decreases |actions|
  {
    hide Inv, After, Orphans, AllContested;
    var a, t := actions[0], After(s, actions[0], rng);
    StepKeeps(s, a, rng);
    AcceptedOrSame(s, a, rng);
    if Orphans(s, a) {
      OrphaningFoldAccepted(s, a, rng);
    }
    if Step(s, a, rng).Accepted? {
      OnlyFoldsOrphan(s, a, rng);
    }
    if AllContested(t) {
      OrphansAreLost(t, actions[1..], rng);
    } else {
      DeadPotsAreLost(t, actions[1..], rng);
    }
  }

  /**
   * Conservation, decided by the folds: a run of complete hands from a new machine keeps
   * the total of stacks and pot exactly when none of its folds took the last contender
   * away from a side pot of an earlier round.
   */
  lemma HandsConserveChips(s: State, actions: seq<Action>, rng: HandRng)
    requires Fresh(s) && !HandInProgress(Run(s, actions, rng).phase)
    ensures Total(Run(s, actions, rng)) == Total(s) <==> !SomeFoldOrphans(s, actions, rng)
  {
    FreshHolds(s);
    ChipsConserved(s, actions, rng);
    if SomeFoldOrphans(s, actions, rng) {
      OrphansAreLost(s, actions, rng);
    } else {
      NoOrphansNoLoss(s, actions, rng);
    }
  }
}
