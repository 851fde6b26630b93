/** The invariant of the hand state machine, phase by phase. */
module Lifecycle {
  import opened Sequences
  import opened Rng
  import opened Deck
  import opened Table
  import opened Settlement
  import opened Machine
  import opened Chips
  import opened CardFlow

  function BoardBefore(street: Street): nat {
    match street
    case Preflop => 0
    case Flop => 0
    case Turn => 3
    case River => 4
    case LastStreet => 5
  }

  function BoardAfter(street: Street): nat {
    match street
    case Preflop => 0
    case Flop => 3
    case Turn => 4
    case River => 5
    case LastStreet => 5
  }

  ghost predicate AllBet(players: seq<Player>) {
    forall i :: 0 <= i < |players| ==> players[i].bet > 0
  }

  /** Before the deal: nobody has folded, nothing is on the table, and whoever has bet is marked. */
  ghost predicate BlindsOpen(s: State) {
    && s.street == Preflop && s.sidePots == [] && s.community == []
    && (forall i :: 0 <= i < |s.players| ==> !s.players[i].folded)
    && (forall i :: 0 <= i < |s.players| ==> (s.players[i].bet > 0 <==> s.players[i].id in s.blindsPosted))
    && (forall id :: id in s.blindsPosted ==> id in Ids(s.players))
    && |s.blindsPosted| < |s.players|
  }

  /** During the hand: before the flop every blind is in front of its player, later the first pots exist. */
  ghost predicate HandRunning(s: State) {
    && s.street != LastStreet
    && |ActivePlayers(s.players)| >= 2
    && (if s.street == Preflop then AllBet(s.players) else s.sidePots != [])
  }

  ghost predicate PhaseFits(s: State) {
    match s.phase
    case WaitBlinds => BlindsOpen(s)
    case NextHand => BlindsOpen(s)
    case Deal =>
      && HandRunning(s) && |s.community| == BoardBefore(s.street)
      && (s.street != Preflop ==> NoBets(s.players))
    case BettingRound =>
      && HandRunning(s) && |s.community| == BoardAfter(s.street)
    case Showdown =>
      && NoBets(s.players) && s.sidePots != [] && |ActivePlayers(s.players)| >= 1
      && (|ActivePlayers(s.players)| == 1 || |s.community| == 5)
    case Settle =>
      && NoBets(s.players) && s.sidePots == [] && s.pot == 0
  }

  predicate CardsOut(phase: Phase) {
    phase.Deal? || phase.BettingRound? || phase.Showdown? || phase.Settle?
  }

  ghost predicate Inv(s: State) {
    && |s.players| >= 2 && ChipsAddUp(s) && PhaseFits(s)
    && (CardsOut(s.phase) ==> CardsAddUp(s) && HolesDealt(s.players))
  }

  /** A new machine: nothing bet, nobody folded, no pots and no board. */
  ghost predicate Fresh(s: State) {
    && s.phase == WaitBlinds && s.street == Preflop && s.pot == 0 && s.sidePots == [] && s.currentBet == 0
    && s.community == [] && s.blindsPosted == {} && |s.players| >= 2 && DistinctIds(s.players)
    && forall i :: 0 <= i < |s.players| ==>
         s.players[i].stack >= 0 && s.players[i].bet == 0 && !s.players[i].folded
  }

  lemma FreshHolds(s: State)
    requires Fresh(s)
    ensures Inv(s)
  {
    SumZero(Bets(s.players));
  }

  /** The chips an action takes out of play: the pots without a contender when the hand is settled. */
  function Lost(s: State, a: Action): int {
    if s.phase == Showdown && a.Next? then DeadAmount(s.players, s.sidePots) else 0
  }

  // ---------- blinds ----------

  lemma PostedAll(players: seq<Player>, posted: set<string>)
    requires DistinctIds(players)
    requires forall id :: id in posted ==> id in Ids(players)
    requires |posted| == |players|
    ensures forall i :: 0 <= i < |players| ==> players[i].id in posted
  {
    var ids := Ids(players);
    assert Distinct(ids);
    DistinctMultiset(ids);
    assert posted <= Elements(ids);
    assert |Elements(ids) - posted| == |Elements(ids)| - |posted|;
    assert forall i :: 0 <= i < |players| ==> ids[i] in Elements(ids);
  }

  lemma PostedFew(players: seq<Player>, posted: set<string>)
    requires DistinctIds(players)
    requires forall id :: id in posted ==> id in Ids(players)
    ensures |posted| <= |players|
  {
    var ids := Ids(players);
    assert Distinct(ids);
    DistinctMultiset(ids);
    assert posted <= Elements(ids);
    assert |Elements(ids) - posted| == |Elements(ids)| - |posted|;
  }

  /** The state after a blind, before it is known whether it was the last. */
  function BlindPosted(s: State, i: nat, amount: int): State
    requires i < |s.players| && PlaceBet(s, i, amount).Accepted?
  {
    var t := PlaceBet(s, i, amount).state;
    t.(blindsPosted := t.blindsPosted + {s.players[i].id})
  }

  lemma BlindKeeps(s: State, i: nat, amount: int)
    requires Inv(s) && (s.phase == WaitBlinds || s.phase == NextHand)
    requires i < |s.players| && PlaceBet(s, i, amount).Accepted?
    ensures var t := BlindPosted(s, i, amount);
      && ChipsAddUp(t) && Total(t) == Total(s)
      && t.sidePots == [] && t.community == [] && t.street == Preflop && t.phase == s.phase
      && |t.players| == |s.players|
      && (forall k :: 0 <= k < |t.players| ==> !t.players[k].folded)
      && (forall k :: 0 <= k < |t.players| ==> (t.players[k].bet > 0 <==> t.players[k].id in t.blindsPosted))
      && (forall id :: id in t.blindsPosted ==> id in Ids(t.players))
      && |t.blindsPosted| <= |t.players|
  {
    PlaceBetKeeps(s, i, amount);
    var t := BlindPosted(s, i, amount);
    assert Ids(t.players) == Ids(s.players);
    assert Ids(s.players)[i] == s.players[i].id;
    forall k | 0 <= k < |t.players| ensures t.players[k].bet > 0 <==> t.players[k].id in t.blindsPosted {
      if k != i {
        assert s.players[k].id != s.players[i].id;
      }
    }
    PostedFew(t.players, t.blindsPosted);
  }

  lemma ChipsIgnoreCards(s: State, t: State)
    requires ChipsAddUp(s) && |t.players| == |s.players|
    requires forall i :: 0 <= i < |t.players| ==> t.players[i] == s.players[i].(holeCards := t.players[i].holeCards)
    requires t.pot == s.pot && t.sidePots == s.sidePots && t.currentBet == s.currentBet
    ensures ChipsAddUp(t) && Total(t) == Total(s)
  {
    assert Bets(t.players) == Bets(s.players) && Stacks(t.players) == Stacks(s.players);
    if s.currentBet != 0 {
      var k :| 0 <= k < |s.players| && s.players[k].bet == s.currentBet;
      assert t.players[k].bet == s.currentBet;
    }
  }

  lemma FirstDealInv(t: State, rng: HandRng)
    requires |t.players| >= 2 && ChipsAddUp(t) && AllBet(t.players)
    requires t.street == Preflop && t.sidePots == [] && t.community == []
    requires forall k :: 0 <= k < |t.players| ==> !t.players[k].folded
    ensures Inv(Started(t, rng)) && Total(Started(t, rng)) == Total(t)
  {
    hide BuildDeck, DealHoles, ChipsAddUp, Total;
    var u := Started(t, rng);
    FirstDealKeeps(t.players, rng);
    ChipsIgnoreCards(t, u);
    ActiveCount(u.players);
  }

  lemma BlindStepKeeps(s: State, a: Action, rng: HandRng)
    requires Inv(s) && (s.phase == WaitBlinds || s.phase == NextHand) && BlindStep(s, a, rng).Accepted?
    ensures var t := BlindStep(s, a, rng).state; Inv(t) && Total(t) == Total(s)
  {
    hide BuildDeck, DealHoles, ChipsAddUp, Total, PlaceBet;
    var i := FindPlayer(s.players, a.playerId).value;
    BlindKeeps(s, i, a.amount);
    var t := BlindPosted(s, i, a.amount);
    if |t.blindsPosted| == |t.players| {
      PostedAll(t.players, t.blindsPosted);
      FirstDealInv(t, rng);
      assert BlindStep(s, a, rng).state == Started(t, rng);
    }
  }

  // ---------- dealing and betting ----------

  lemma DealStepKeeps(s: State, a: Action, rng: HandRng)
    requires Inv(s) && s.phase == Deal
    ensures DealStep(s, a, rng).Accepted? <==> a.Next? && CardsToDeal(s.street) <= |s.deck|
    ensures DealStep(s, a, rng).Accepted? ==>
      var t := DealStep(s, a, rng).state;
      Inv(t) && Total(t) == Total(s) && t.phase == BettingRound && t.street == s.street
  {
    hide ChipsAddUp, HolesDealt, ActivePlayers, Total, DealCommunity, AllHeld;
    ChipsIgnoreCards(s, s.(phase := BettingRound));
    if CardsToDeal(s.street) > 0 {
      DealCommunityKeeps(s, CardsToDeal(s.street), rng);
      if DealCommunity(s, CardsToDeal(s.street), rng).Accepted? {
        ChipsIgnoreCards(s, DealStep(s, Next, rng).state);
      }
    }
  }

  lemma MovedChipsInv(s: State, i: nat, amount: int)
    requires Inv(s) && s.phase == BettingRound && i < |s.players| && PlaceBet(s, i, amount).Accepted?
    ensures var t := PlaceBet(s, i, amount).state; Inv(t) && Total(t) == Total(s) && t.phase == BettingRound
  {
    var t := PlaceBet(s, i, amount).state;
    PlaceBetKeeps(s, i, amount);
    SameSeatsActive(s.players, t.players);
    SameHands(s.players, t.players);
  }

  lemma SameHands(a: seq<Player>, b: seq<Player>)
    requires |a| == |b| && forall i :: 0 <= i < |a| ==> a[i].holeCards == b[i].holeCards
    ensures AllHeld(a) == AllHeld(b) && (HolesDealt(a) ==> HolesDealt(b))
  {
    SameHeld(a, b);
    assert forall i :: 0 <= i < |a| ==> Held(a[i]) == Held(b[i]);
  }

  lemma CloseKeeps(s: State)
    requires Inv(s) && s.phase == BettingRound
    ensures Inv(CloseStep(s)) && Total(CloseStep(s)) == Total(s)
  {
    hide ChipsAddUp, FinishRound, ActivePlayers, HolesDealt, Total;
    var t := FinishRound(s);
    FinishRoundChips(s);
    ChipsIgnoreCards(t, CloseStep(s));
    FinishRoundPots(s);
    SameSeatsActive(s.players, t.players);
    SameHands(s.players, t.players);
  }

  /** A hand left to one player ends with every chip bet in a pot. */
  lemma AloneKeeps(s: State)
    requires |s.players| >= 2 && ChipsAddUp(s) && CardsAddUp(s) && HolesDealt(s.players)
    requires s.phase == BettingRound && |ActivePlayers(s.players)| == 1
    requires if s.street == Preflop then AllBet(s.players) else s.sidePots != []
    ensures Inv(EndIfAlone(s)) && Total(EndIfAlone(s)) == Total(s)
  {
    hide ChipsAddUp, FinishRound, ActivePlayers, HolesDealt, Total;
    if exists i :: 0 <= i < |s.players| && s.players[i].bet > 0 {
      var t := FinishRound(s);
      FinishRoundChips(s);
      FinishRoundPots(s);
      SameSeatsActive(s.players, t.players);
      SameHands(s.players, t.players);
      ChipsIgnoreCards(t, EndIfAlone(s));
    } else {
      NobodyHasBet(s);
      assert s.street != Preflop by {
        assert s.players[0].bet <= 0;
      }
      ChipsIgnoreCards(s, EndIfAlone(s));
    }
  }

  lemma NobodyHasBet(s: State)
    requires ChipsAddUp(s) && forall i :: 0 <= i < |s.players| ==> s.players[i].bet <= 0
    ensures NoBets(s.players) && s.currentBet == 0
  {
  }

  lemma FoldInv(s: State, i: nat)
    requires Inv(s) && s.phase == BettingRound && i < |s.players|
    ensures var t := s.(players := s.players[i := s.players[i].(folded := true)]);
      Inv(EndIfAlone(t)) && Total(EndIfAlone(t)) == Total(s)
  {
    hide ChipsAddUp, ActivePlayers, HolesDealt, Total, FinishRound;
    var t := s.(players := s.players[i := s.players[i].(folded := true)]);
    FoldKeeps(s, i);
    FoldCount(s.players, i);
    SameHands(s.players, t.players);
    if |ActivePlayers(t.players)| <= 1 {
      AloneKeeps(t);
    }
  }

  lemma NotAlone(s: State)
    requires Inv(s)
    ensures EndIfAlone(s) == s
  {
  }

  /** A bet, raise, call or late blind, once the player is found. */
  lemma WagerKeeps(s: State, id: string, amount: int)
    requires Inv(s) && s.phase == BettingRound && BetStep(s, id, amount).Accepted?
    ensures var t := BetStep(s, id, amount).state;
      Inv(t) && Total(t) == Total(s) && t.phase == BettingRound && EndIfAlone(t) == t
  {
    MovedChipsInv(s, FindPlayer(s.players, id).value, amount);
    NotAlone(BetStep(s, id, amount).state);
  }

  lemma BettingStepKeeps(s: State, a: Action)
    requires Inv(s) && s.phase == BettingRound && BettingStep(s, a).Accepted?
    ensures var t := BettingStep(s, a).state; Inv(t) && Total(t) == Total(s)
  {
    hide Inv, EndIfAlone, Total, PlaceBet, FinishRound, CloseStep;
    match a
    case Next =>
      CloseKeeps(s);
      NotAlone(CloseStep(s));
    case Check(_) =>
      NotAlone(s);
    case Fold(id) =>
      FoldInv(s, FindPlayer(s.players, id).value);
    case Call(id) =>
      WagerKeeps(s, id, s.currentBet - s.players[FindPlayer(s.players, id).value].bet);
    case PostBlind(id, amount) =>
      WagerKeeps(s, id, amount);
    case Bet(id, amount) =>
      WagerKeeps(s, id, amount);
    case Raise(id, amount) =>
      WagerKeeps(s, id, amount);
  }
}
