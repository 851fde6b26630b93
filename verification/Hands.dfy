/** The course of a hand: what holds wherever it stands, and how it ends. */
module Hands {
  import opened Sequences
  import opened Verify
  import opened Rng
  import opened Deck
  import opened Table
  import opened Layers
  import opened Settlement
  import opened Machine
  import opened Chips
  import opened CardFlow
  import opened Lifecycle
  import opened Runs

  // ---------- what is true whenever one looks ----------

  /** What holds in every state of every run from a new machine. */
  lemma ReachableStates(start: State, actions: seq<Action>, rng: HandRng)
    requires Fresh(start)
    ensures var s := Run(start, actions, rng);
      && s.pot == Sum(Amounts(s.sidePots)) + Sum(Bets(s.players))
      && IsLargestBet(s.currentBet, s.players)
      && (CardsOut(s.phase) ==> CardsAddUp(s))
      && (s.phase == Deal ==> |s.community| == BoardBefore(s.street))
      && (s.phase == BettingRound ==> |s.community| == BoardAfter(s.street))
      && (s.phase == Showdown ==> NoBets(s.players) && |ActivePlayers(s.players)| >= 1)
      && (s.phase == Showdown ==> |ActivePlayers(s.players)| == 1 || |s.community| == 5)
      && (s.phase == Settle ==> s.pot == 0 && s.sidePots == [])
  {
    FreshHolds(start);
    RunKeeps(start, actions, rng);
  }

  lemma DeckSize(s: State)
    requires Inv(s) && CardsOut(s.phase)
    ensures |s.deck| == 52 - AtMost(2 * |s.players|, 52) - |s.community|
  {
    UsedCount(s);
  }

  /**
   * In a reachable state the next cards are dealt exactly when one deck still has them;
   * otherwise the one error is that the cards are out. No deal ever finds the board
   * already dealt or rebuilds the deck: what is left of it is a part of what was there.
   */
  lemma DealingNeverFails(s: State, rng: HandRng)
    requires Inv(s) && s.phase == Deal
    ensures Step(s, Next, rng).Accepted?
       <==> CardsToDeal(s.street) == 0 || 2 * |s.players| + |s.community| + CardsToDeal(s.street) <= 52
    ensures Step(s, Next, rng).Rejected? ==> Step(s, Next, rng) == Rejected(InsufficientCards)
    ensures Step(s, Next, rng).Accepted? ==> After(s, Next, rng).deck <= s.deck
    ensures |s.players| <= 23 ==> Step(s, Next, rng).Accepted?
  {
    DealStepKeeps(s, Next, rng);
    DeckSize(s);
    if CardsToDeal(s.street) > 0 {
      DealCommunityKeeps(s, CardsToDeal(s.street), rng);
    }
  }

  /** A showdown between several players is fought with seven different cards each. */
  lemma ShowdownHandsAreFull(s: State, i: nat)
    requires Inv(s) && s.phase == Showdown && |ActivePlayers(s.players)| > 1 && i < |s.players|
    ensures |Held(s.players[i]) + s.community| == 7 && Distinct(Held(s.players[i]) + s.community)
  {
    DeckSize(s);
    HeldPart(s.players, i);
    StandardDeckIsDistinct();
    var hand, held := Held(s.players[i]) + s.community, AllHeld(s.players);
    forall x ensures multiset(hand)[x] <= 1 {
      assert multiset(StandardDeck())[x] == multiset(s.deck)[x] + multiset(held)[x] + multiset(s.community)[x];
      assert multiset(hand)[x] == multiset(Held(s.players[i]))[x] + multiset(s.community)[x];
    }
    MultisetDistinct(hand);
  }

  lemma {:induction false} HeldPart(players: seq<Player>, i: nat)
    requires i < |players|
    ensures forall x :: multiset(Held(players[i]))[x] <= multiset(AllHeld(players))[x]
  {
    var first, rest := Held(players[0]), AllHeld(players[1..]);
    assert multiset(AllHeld(players)) == multiset(first) + multiset(rest);
    if i > 0 {
      HeldPart(players[1..], i - 1);
    }
  }

  // ---------- how a hand ends ----------

  function StreetNumber(street: Street): (n: nat)
    ensures n <= 4
  {
    match street
    case Preflop => 0
    case Flop => 1
    case Turn => 2
    case River => 3
    case LastStreet => 4
  }

  /** How many times `next` must be accepted until the hand is over. */
  function NextsLeft(s: State): nat {
    match s.phase
    case Deal => 10 - 2 * StreetNumber(s.street)
    case BettingRound => 9 - 2 * StreetNumber(s.street)
    case Showdown => 2
    case Settle => 1
    case _ => 0
  }

  /** Each accepted `next` brings the end of the hand one nearer, and with at most 23 players every one is accepted. */
  lemma NextAdvances(s: State, rng: HandRng)
    requires Inv(s) && CardsOut(s.phase)
    ensures |s.players| <= 23 ==> Step(s, Next, rng).Accepted?
    ensures Step(s, Next, rng).Accepted? ==> NextsLeft(After(s, Next, rng)) == NextsLeft(s) - 1
  {
    hide FinishRound, SettledState;
    match s.phase
    case Deal =>
      DealingNeverFails(s, rng);
      DealStepKeeps(s, Next, rng);
    case BettingRound =>
      CloseKeeps(s);
      NotAlone(CloseStep(s));
      CloseMovesOn(s);
    case Showdown =>
    case Settle =>
  }

  lemma CloseMovesOn(s: State)
    ensures CloseStep(s).street == NextStreet(s.street)
    ensures CloseStep(s).phase == if s.street == River then Showdown else Deal
  {
  }

  /** No other action takes a hand back. */
  lemma OthersNeverDelay(s: State, a: Action, rng: HandRng)
    requires Inv(s) && CardsOut(s.phase) && !a.Next?
    ensures NextsLeft(After(s, a, rng)) <= NextsLeft(s)
  {
    hide FinishRound, SettledState;
    if Step(s, a, rng).Accepted? {
      FinishKeepsStreet(s, a);
    }
  }

  lemma FinishKeepsStreet(s: State, a: Action)
    requires Inv(s) && s.phase == BettingRound && !a.Next? && BettingStep(s, a).Accepted?
    ensures var t := BettingStep(s, a).state;
      t.phase == Showdown || (t.phase == BettingRound && t.street == s.street)
  {
  }

  /** How often the run has `next` accepted. */
  function NextsAccepted(s: State, actions: seq<Action>, rng: HandRng): nat
    decreases |actions|
  {
    if actions == [] then 0
    else
      (if actions[0].Next? && Step(s, Next, rng).Accepted? then 1 else 0)
      + NextsAccepted(After(s, actions[0], rng), actions[1..], rng)
  }

  /** How often the run asks for `next`. */
  function NextsAsked(actions: seq<Action>): nat {
    if actions == [] then 0 else (if actions[0].Next? then 1 else 0) + NextsAsked(actions[1..])
  }

  /** Some way into the run the next hand has come up. */
  ghost predicate HandOver(s: State, actions: seq<Action>, rng: HandRng) {
    exists k :: 0 <= k <= |actions| && Run(s, actions[..k], rng).phase == NextHand
  }

  lemma OverLater(s: State, actions: seq<Action>, rng: HandRng)
    requires actions != [] && HandOver(After(s, actions[0], rng), actions[1..], rng)
    ensures HandOver(s, actions, rng)
  {
    hide After;
    var t := After(s, actions[0], rng);
    var k :| 0 <= k <= |actions| - 1 && Run(t, actions[1..][..k], rng).phase == NextHand;
    assert actions[..k + 1][0] == actions[0] && actions[..k + 1][1..] == actions[1..][..k];
    assert Run(s, actions[..k + 1], rng) == Run(t, actions[1..][..k], rng);
  }

  /**
   * Every run ends its hand: from any state after the blinds, whatever else the players do
   * in between and whatever is rejected, the next hand has come up by the time `next` has
   * been accepted as often as the state still needs, which is ten times at most.
   */
  lemma {:induction false} HandsEnd(s: State, actions: seq<Action>, rng: HandRng)
    requires Inv(s) && CardsOut(s.phase) && NextsAccepted(s, actions, rng) >= NextsLeft(s)
    ensures 1 <= NextsLeft(s) <= 10 && HandOver(s, actions, rng)
    decreases |actions|
  {
    hide Inv, After, Step, NextsLeft, HandOver, CardsOut;
    NextsLeftBounds(s);
    var a, t := actions[0], After(s, actions[0], rng);
    StepKeeps(s, a, rng);
    LaterInHand(s, a, rng);
    if CardsOut(t.phase) {
      HandsEnd(t, actions[1..], rng);
      OverLater(s, actions, rng);
    } else {
      OverAtOnce(t, actions[1..], rng);
      OverLater(s, actions, rng);
    }
  }

  lemma OverAtOnce(s: State, actions: seq<Action>, rng: HandRng)
    requires s.phase == NextHand
    ensures HandOver(s, actions, rng)
  {
    assert Run(s, actions[..0], rng) == s;
  }

  lemma NextsLeftBounds(s: State)
    requires Inv(s) && CardsOut(s.phase)
    ensures 1 <= NextsLeft(s) <= 10
  {
  }

  /** One action brings the hand nearer to its end, leaves it where it is, or ends it. */
  lemma LaterInHand(s: State, a: Action, rng: HandRng)
    requires Inv(s) && CardsOut(s.phase)
    ensures var t := After(s, a, rng);
      && (CardsOut(t.phase) || t.phase == NextHand)
      && NextsLeft(t) <= NextsLeft(s) - if a.Next? && Step(s, Next, rng).Accepted? then 1 else 0
  {
    hide FinishRound, SettledState, Inv, NextsLeft, BettingStep, DealStep;
    if a.Next? {
      NextAdvances(s, rng);
      if Step(s, Next, rng).Accepted? {
        PhaseAfterNext(s, rng);
      }
    } else {
      OthersNeverDelay(s, a, rng);
      OthersStay(s, a, rng);
    }
  }

  lemma OthersStay(s: State, a: Action, rng: HandRng)
    requires Inv(s) && CardsOut(s.phase) && !a.Next?
    ensures CardsOut(After(s, a, rng).phase)
  {
    hide FinishRound, SettledState;
    if Step(s, a, rng).Accepted? {
      FinishKeepsStreet(s, a);
    }
  }

  /** With at most 23 players it is enough to ask: no `next` is refused before the hand is over. */
  lemma {:induction false} AskedHandsEnd(s: State, actions: seq<Action>, rng: HandRng)
    requires Inv(s) && CardsOut(s.phase) && |s.players| <= 23 && NextsAsked(actions) >= NextsLeft(s)
    ensures HandOver(s, actions, rng)
    decreases |actions|
  {
    hide Inv, After, Step, NextsLeft, HandOver, CardsOut;
    NextsLeftBounds(s);
    var a, t := actions[0], After(s, actions[0], rng);
    StepKeeps(s, a, rng);
    PlayersStay(s, a, rng);
    LaterInHand(s, a, rng);
    NextAdvances(s, rng);
    if CardsOut(t.phase) {
      AskedHandsEnd(t, actions[1..], rng);
      OverLater(s, actions, rng);
    } else {
      OverAtOnce(t, actions[1..], rng);
      OverLater(s, actions, rng);
    }
  }

  lemma PhaseAfterNext(s: State, rng: HandRng)
    requires Inv(s) && CardsOut(s.phase) && Step(s, Next, rng).Accepted?
    ensures var t := After(s, Next, rng); CardsOut(t.phase) || (s.phase == Settle && t.phase == NextHand)
  {
    hide FinishRound, SettledState;
    if s.phase == BettingRound {
      CloseKeeps(s);
      NotAlone(CloseStep(s));
      CloseMovesOn(s);
    }
  }

  lemma BlindPlayersStay(s: State, a: Action, rng: HandRng)
    requires BlindStep(s, a, rng).Accepted?
    ensures Ids(BlindStep(s, a, rng).state.players) == Ids(s.players)
  {
    hide BuildDeck;
    var t := PlaceBet(s, FindPlayer(s.players, a.playerId).value, a.amount).state;
    DealHolesPlayers(t.players, BuildDeck(rng, {}));
    assert Ids(t.players) == Ids(s.players);
  }

  lemma BettingPlayersStay(s: State, a: Action)
    requires BettingStep(s, a).Accepted?
    ensures Ids(BettingStep(s, a).state.players) == Ids(s.players)
  {
    hide RoundPots;
  }

  /** Whatever happens, the same people sit at the table in the same order. */
  lemma PlayersStay(s: State, a: Action, rng: HandRng)
    ensures Ids(After(s, a, rng).players) == Ids(s.players)
    ensures |After(s, a, rng).players| == |s.players|
  {
    hide BlindStep, BettingStep, Payouts, Scores;
    if Step(s, a, rng).Accepted? {
      match s.phase
      case WaitBlinds => BlindPlayersStay(s, a, rng);
      case NextHand => BlindPlayersStay(s, a, rng);
      case BettingRound => BettingPlayersStay(s, a);
      case _ =>
    }
    assert |Ids(After(s, a, rng).players)| == |After(s, a, rng).players|;
  }

  lemma {:induction false} RunPlayersStay(s: State, actions: seq<Action>, rng: HandRng)
    ensures Ids(Run(s, actions, rng).players) == Ids(s.players)
    decreases |actions|
  {
    hide After;
    if actions != [] {
      PlayersStay(s, actions[0], rng);
      RunPlayersStay(After(s, actions[0], rng), actions[1..], rng);
    }
  }
}
