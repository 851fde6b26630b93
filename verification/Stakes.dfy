/** What each player puts at stake over a whole hand, and what it gets for it: backend/src/game/state-machine.ts. */
module Stakes {
  import opened Sequences
  import opened Rng
  import opened Deck
  import opened Table
  import opened Layers
  import opened Settlement
  import opened Machine
  import opened Chips
  import opened CardFlow
  import opened Lifecycle
  import opened Runs
  import opened Hands
  import opened Journal

  /** What a player has left, has in front of it and has in the side pots. */
  function Holding(s: State, i: nat): int
    requires i < |s.players|
  {
    s.players[i].stack + s.players[i].bet + Sum(ContributionsOf(s.sidePots, s.players[i].id))
  }

  /** Every player holds what it came with. */
  ghost predicate Staked(s: State, start: seq<int>) {
    |start| == |s.players| && forall i :: 0 <= i < |s.players| ==> Holding(s, i) == start[i]
  }

  lemma NothingAtStake(s: State)
    requires NoBets(s.players) && s.sidePots == []
    ensures Staked(s, Stacks(s.players))
  {
  }

  /** Chips that stay with their player, between stack and bet, stay at stake. */
  lemma SameHoldings(s: State, t: State, start: seq<int>)
    requires Staked(s, start) && |t.players| == |s.players| && t.sidePots == s.sidePots
    requires forall i :: 0 <= i < |s.players| ==>
      t.players[i].id == s.players[i].id
      && t.players[i].stack + t.players[i].bet == s.players[i].stack + s.players[i].bet
    ensures Staked(t, start)
  {
    assert forall i :: 0 <= i < |s.players| ==> Holding(t, i) == Holding(s, i);
  }

  lemma BetStays(s: State, i: nat, amount: int, start: seq<int>)
    requires Staked(s, start) && i < |s.players| && PlaceBet(s, i, amount).Accepted?
    ensures Staked(PlaceBet(s, i, amount).state, start)
  {
    hide Staked;
    SameHoldings(s, PlaceBet(s, i, amount).state, start);
  }

  /** Closing a round moves each bet into the contributions to the side pots. */
  lemma RoundStays(s: State, start: seq<int>)
    requires ChipsAddUp(s) && Staked(s, start)
    ensures Staked(FinishRound(s), start)
  {
    hide RoundPots, Bettors;
    var t := FinishRound(s);
    if Bettors(s.players) == [] {
      SameHoldings(s, t, start);
    } else {
      BetsInPlayers(s.players);
      forall i | 0 <= i < |s.players| ensures Holding(t, i) == Holding(s, i) {
        var id, pots := s.players[i].id, RoundPots(s.players);
        ContributionsAddUp(s.players, s.players[i]);
        assert ContributionsOf(s.sidePots + pots, id) == ContributionsOf(s.sidePots, id) + ContributionsOf(pots, id);
        SumAppend(ContributionsOf(s.sidePots, id), ContributionsOf(pots, id));
      }
    }
  }

  lemma BettingStays(s: State, a: Action, start: seq<int>)
    requires Inv(s) && s.phase == BettingRound && Staked(s, start) && BettingStep(s, a).Accepted?
    ensures Staked(BettingStep(s, a).state, start)
  {
    hide Inv, PlaceBet, FinishRound, Staked, EndIfAlone;
    match a
    case Next =>
      InvChips(s);
      RoundStays(s, start);
      SameHoldings(FinishRound(s), CloseStep(s), start);
      CloseKeeps(s);
      NotAlone(CloseStep(s));
    case Check(_) => NotAlone(s);
    case Fold(id) => FoldStays(s, FindPlayer(s.players, id).value, start);
    case Call(id) => WagerStays(s, id, s.currentBet - s.players[FindPlayer(s.players, id).value].bet, start);
    case PostBlind(id, amount) => WagerStays(s, id, amount, start);
    case Bet(id, amount) => WagerStays(s, id, amount, start);
    case Raise(id, amount) => WagerStays(s, id, amount, start);
  }

  lemma WagerStays(s: State, id: string, amount: int, start: seq<int>)
    requires Inv(s) && s.phase == BettingRound && Staked(s, start) && BetStep(s, id, amount).Accepted?
    ensures Staked(EndIfAlone(BetStep(s, id, amount).state), start)
  {
    hide Inv, PlaceBet, Staked, EndIfAlone;
    WagerKeeps(s, id, amount);
    BetStays(s, FindPlayer(s.players, id).value, amount, start);
  }

  lemma FoldStays(s: State, i: nat, start: seq<int>)
    requires Inv(s) && i < |s.players| && Staked(s, start)
    ensures Staked(EndIfAlone(s.(players := s.players[i := s.players[i].(folded := true)])), start)
  {
    hide Staked, FinishRound, ActivePlayers;
    var t := s.(players := s.players[i := s.players[i].(folded := true)]);
    FoldKeeps(s, i);
    SameHoldings(s, t, start);
    RoundStays(t, start);
    SameHoldings(FinishRound(t), FinishRound(t).(phase := Showdown), start);
    SameHoldings(t, t.(currentBet := 0).(phase := Showdown), start);
  }

  lemma BlindStays(s: State, a: Action, rng: HandRng, start: seq<int>)
    requires Staked(s, start) && BlindStep(s, a, rng).Accepted?
    ensures Staked(BlindStep(s, a, rng).state, start)
  {
    hide BuildDeck, DealHoles, PlaceBet, Staked;
    var i := FindPlayer(s.players, a.playerId).value;
    var t := PlaceBet(s, i, a.amount).state;
    BetStays(s, i, a.amount, start);
    var posted := t.(blindsPosted := t.blindsPosted + {a.playerId});
    SameHoldings(t, posted, start);
    DealHolesPlayers(posted.players, BuildDeck(rng, {}));
    SameHoldings(posted, Started(posted, rng), start);
  }

  lemma DealStays(s: State, a: Action, rng: HandRng, start: seq<int>)
    requires Staked(s, start) && s.phase == Deal && DealStep(s, a, rng).Accepted?
    ensures Staked(DealStep(s, a, rng).state, start)
  {
    hide Staked, DealStep;
    SameTableDealt(s, a, rng);
    SameHoldings(s, DealStep(s, a, rng).state, start);
  }

  /** The action settles the hand. */
  predicate EndsHand(s: State, a: Action) {
    s.phase == Showdown && a.Next?
  }

  lemma StepStays(s: State, a: Action, rng: HandRng, start: seq<int>)
    requires Inv(s) && s.phase != Settle && Staked(s, start) && !EndsHand(s, a)
    ensures Staked(After(s, a, rng), start) && After(s, a, rng).phase != Settle
  {
    hide Inv, Staked, BlindStep, BettingStep, DealStep;
    if Step(s, a, rng).Accepted? {
      match s.phase
      case WaitBlinds => BlindStays(s, a, rng, start);
      case NextHand => BlindStays(s, a, rng, start);
      case Deal => DealStays(s, a, rng, start);
      case BettingRound => BettingStays(s, a, start);
      case Showdown =>
    }
    NotSettled(s, a, rng);
  }

  lemma NotSettled(s: State, a: Action, rng: HandRng)
    requires s.phase != Settle && !EndsHand(s, a)
    ensures After(s, a, rng).phase != Settle
  {
    hide FinishRound, DealHoles, BuildDeck, DealCommunity, ActivePlayers;
  }

  /** Some action of the run settles the hand. */
  predicate HandSettled(s: State, actions: seq<Action>, rng: HandRng)
    decreases |actions|
  {
    actions != [] && (EndsHand(s, actions[0]) || HandSettled(After(s, actions[0], rng), actions[1..], rng))
  }

  /**
   * Until the hand is settled every chip is somebody's: in every run of one hand, however
   * many rounds it has, each player's stack, bet and recorded contributions together are
   * what it came with.
   */
  lemma {:induction false} StakesStay(s: State, actions: seq<Action>, rng: HandRng, start: seq<int>)
    requires Inv(s) && s.phase != Settle && Staked(s, start) && !HandSettled(s, actions, rng)
    ensures Staked(Run(s, actions, rng), start)
    decreases |actions|
  {
    hide Inv, Staked, After, EndsHand;
    if actions != [] {
      StepKeeps(s, actions[0], rng);
      StepStays(s, actions[0], rng, start);
      StakesStay(After(s, actions[0], rng), actions[1..], rng, start);
    }
  }

  /** What settling the hand means for a player: its payouts against its contributions. */
  lemma SettledStake(s: State, i: nat, start: seq<int>)
    requires Inv(s) && s.phase == Showdown && Staked(s, start) && i < |s.players|
    ensures |SettledState(s).players| == |s.players|
    ensures SettledState(s).players[i].stack - start[i]
         == Sum(Payouts(s.players, Scores(s.players, s.community), s.sidePots, i))
            - Sum(ContributionsOf(s.sidePots, s.players[i].id))
  {
    hide Scores, Payouts, ContributionsOf;
    assert Holding(s, i) == start[i];
  }

  /**
   * The result of a hand, player by player: over every run of one hand from a table without
   * bets to the showdown, and its settlement, the entry of each player in the journal is what
   * the pots pay it minus what it has paid into them. So nobody loses more than its
   * contributions, and who has folded loses exactly those.
   */
  lemma HandResult(s: State, actions: seq<Action>, rng: HandRng, initial: map<string, int>, i: nat)
    requires Inv(s) && s.phase != Settle && NoBets(s.players) && s.sidePots == [] && !HandSettled(s, actions, rng)
    requires Run(s, actions, rng).phase == Showdown && StacksById(initial, s.players) && i < |s.players|
    ensures var t := Run(s, actions, rng);
      var deltas := Deltas(After(t, Next, rng).players, initial);
      && |t.players| == |s.players| == |deltas| && deltas[i].playerId == s.players[i].id
      && var paid := Sum(ContributionsOf(t.sidePots, s.players[i].id));
         deltas[i].delta == Sum(Payouts(t.players, Scores(t.players, t.community), t.sidePots, i)) - paid
         && deltas[i].delta >= -paid && (t.players[i].folded ==> deltas[i].delta == -paid)
  {
    hide Inv, Run, Staked, Payouts, Scores, HandSettled;
    var t := Run(s, actions, rng);
    NothingAtStake(s);
    StakesStay(s, actions, rng, Stacks(s.players));
    RunKeeps(s, actions, rng);
    RunPlayersStay(s, actions, rng);
    SamePlayer(s, t, i);
    SettledStake(t, i, Stacks(s.players));
    SettledNext(t, rng);
    PayoutBounds(t, i);
    assert SettledState(t).players[i].id == t.players[i].id;
  }

  lemma SamePlayer(s: State, t: State, i: nat)
    requires Ids(t.players) == Ids(s.players) && i < |s.players|
    ensures |t.players| == |s.players| && t.players[i].id == s.players[i].id
  {
    assert |t.players| == |Ids(t.players)|;
    assert Ids(t.players)[i] == t.players[i].id;
  }

  lemma SettledNext(t: State, rng: HandRng)
    requires t.phase == Showdown
    ensures After(t, Next, rng).players == SettledState(t).players
    ensures |SettledState(t).players| == |t.players|
    ensures forall i :: 0 <= i < |t.players| ==> SettledState(t).players[i].id == t.players[i].id
  {
  }

  lemma PayoutBounds(t: State, i: nat)
    requires Inv(t) && i < |t.players|
    ensures var won := Sum(Payouts(t.players, Scores(t.players, t.community), t.sidePots, i));
      won >= 0 && (t.players[i].folded ==> won == 0)
  {
    hide Scores, Payouts;
    var scores := Scores(t.players, t.community);
    PaidIsFair(t.players, scores, t.sidePots);
    assert Paid(t.players, scores, t.sidePots)[i].stack
        == t.players[i].stack + Sum(Payouts(t.players, scores, t.sidePots, i));
  }
}
