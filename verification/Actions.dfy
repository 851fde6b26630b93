/** What each action does to the table, phase by phase: backend/src/game/state-machine.ts, apply. */
module Actions {
  import opened Options
  import opened Rng
  import opened Deck
  import opened Table
  import opened Layers
  import opened Machine
  import opened Chips
  import opened CardFlow
  import opened Lifecycle
  import opened Hands

  /** Actions that name an amount of chips. */
  predicate IsWager(a: Action) {
    a.Bet? || a.Raise? || a.PostBlind?
  }

  function Larger(a: int, b: int): int {
    if a > b then a else b
  }

  /** `amount` chips go from the stack of player `i` to its bet and the pot, and nothing else moves. */
  ghost predicate ChipsMoved(s: State, t: State, i: nat, amount: int)
    requires i < |s.players|
  {
    && |t.players| == |s.players|
    && (forall k :: 0 <= k < |s.players| && k != i ==> t.players[k] == s.players[k])
    && t.pot - s.pot == amount && t.currentBet == Larger(s.currentBet, t.players[i].bet)
    && t.sidePots == s.sidePots && t.deck == s.deck && t.community == s.community && t.street == s.street
    && var p, q := s.players[i], t.players[i];
    && p.stack - q.stack == amount == q.bet - p.bet
    && (q.allIn <==> p.allIn || q.stack == 0)
    && q.id == p.id && q.folded == p.folded && q.holeCards == p.holeCards
  }

  /** How a wager of a known player is answered. */
  ghost predicate Answered(s: State, amount: int, i: nat, r: Outcome)
    requires i < |s.players|
  {
    && (r.Accepted? <==> 0 < amount <= s.players[i].stack)
    && (amount <= 0 ==> r == Rejected(AmountNotPositive))
    && (0 < amount && s.players[i].stack < amount ==> r == Rejected(BetExceedsStack))
  }

  lemma PlacedBet(s: State, i: nat, amount: int)
    requires i < |s.players|
    ensures Answered(s, amount, i, PlaceBet(s, i, amount))
    ensures PlaceBet(s, i, amount).Accepted? ==>
      var t := PlaceBet(s, i, amount).state;
      ChipsMoved(s, t, i, amount) && t.phase == s.phase && t.blindsPosted == s.blindsPosted
  {
  }

  // ---------- betting rounds ----------

  /**
   * A bet, a raise and a late blind move exactly the chips they name, and are refused exactly
   * when the player is unknown, the amount is not positive or the stack is too short for it.
   */
  lemma WagerPlayed(s: State, a: Action, rng: HandRng)
    requires s.phase == BettingRound && |ActivePlayers(s.players)| >= 2 && IsWager(a)
    ensures match FindPlayer(s.players, a.playerId)
      case None => Step(s, a, rng) == Rejected(UnknownPlayer)
      case Some(i) =>
        && Answered(s, a.amount, i, Step(s, a, rng))
        && (Step(s, a, rng).Accepted? ==>
              var t := Step(s, a, rng).state;
              ChipsMoved(s, t, i, a.amount) && t.phase == s.phase && t.blindsPosted == s.blindsPosted)
  {
    hide ActivePlayers, PlaceBet, ChipsMoved;
    match FindPlayer(s.players, a.playerId)
    case None =>
    case Some(i) =>
      PlacedBet(s, i, a.amount);
      if PlaceBet(s, i, a.amount).Accepted? {
        NobodyFolds(s, PlaceBet(s, i, a.amount).state, i, a.amount);
      }
  }

  lemma NobodyFolds(s: State, t: State, i: nat, amount: int)
    requires i < |s.players| && ChipsMoved(s, t, i, amount) && |ActivePlayers(s.players)| >= 2
    ensures EndIfAlone(t) == t
  {
    hide FinishRound;
    SameSeatsActive(s.players, t.players);
  }

  /** A call is a bet of what the player is short of the largest bet. */
  lemma CallPlayed(s: State, id: string, rng: HandRng)
    requires s.phase == BettingRound
    ensures match FindPlayer(s.players, id)
      case None => Step(s, Call(id), rng) == Rejected(UnknownPlayer)
      case Some(i) => Step(s, Call(id), rng) == Step(s, Bet(id, s.currentBet - s.players[i].bet), rng)
  {
    hide PlaceBet, EndIfAlone;
  }

  /** A check is accepted from anybody and changes nothing. */
  lemma CheckPlayed(s: State, id: string, rng: HandRng)
    requires s.phase == BettingRound && |ActivePlayers(s.players)| >= 2
    ensures Step(s, Check(id), rng) == Accepted(s)
  {
  }

  /** Everybody keeps everything but the bets, which have gone into the pots of the round. */
  ghost predicate RoundClosed(s: State, t: State) {
    && |t.players| == |s.players|
    && (forall k :: 0 <= k < |s.players| ==>
          t.players[k].bet == 0 && t.players[k] == s.players[k].(bet := t.players[k].bet))
    && t.sidePots == s.sidePots + RoundPots(s.players) && t.currentBet == 0
    && t.pot == s.pot && t.deck == s.deck && t.community == s.community && t.blindsPosted == s.blindsPosted
  }

  lemma ClosedRound(s: State)
    requires NoDebts(s.players)
    ensures RoundClosed(s, FinishRound(s)) && FinishRound(s).street == s.street
  {
    hide BuildLayers;
    NoBettors(s.players);
    if Bettors(s.players) == [] {
      NoRoundPots(s.players);
      assert s.sidePots + [] == s.sidePots;
    }
  }

  lemma NoRoundPots(players: seq<Player>)
    requires Bettors(players) == []
    ensures RoundPots(players) == []
  {
    assert Bets([]) == [];
  }

  /**
   * A fold folds the player it names and nobody else. While two players are left that is all;
   * otherwise it closes the round and leads to the showdown.
   */
  lemma FoldPlayed(s: State, id: string, rng: HandRng)
    requires s.phase == BettingRound && NoDebts(s.players)
    ensures match FindPlayer(s.players, id)
      case None => Step(s, Fold(id), rng) == Rejected(UnknownPlayer)
      case Some(i) =>
        && Step(s, Fold(id), rng).Accepted?
        && var folded := s.(players := s.players[i := s.players[i].(folded := true)]);
           var t := Step(s, Fold(id), rng).state;
           if |ActivePlayers(folded.players)| >= 2 then t == folded
           else t.phase == Showdown && t.street == s.street && RoundClosed(folded, t)
  {
    hide FinishRound, RoundClosed, ActivePlayers, RoundPots;
    match FindPlayer(s.players, id)
    case None =>
    case Some(i) =>
      var folded := s.(players := s.players[i := s.players[i].(folded := true)]);
      ClosedRound(folded);
      if |ActivePlayers(folded.players)| < 2 {
        EndedRound(folded);
      }
  }

  lemma EndedRound(s: State)
    requires s.phase == BettingRound && |ActivePlayers(s.players)| <= 1 && NoDebts(s.players)
    ensures var t := EndIfAlone(s);
      t.phase == Showdown && t.street == s.street && RoundClosed(s, t)
  {
    hide ActivePlayers, BuildLayers;
    ClosedRound(s);
    NoBettors(s.players);
    if !(exists i :: 0 <= i < |s.players| && s.players[i].bet > 0) {
      assert NoBets(s.players);
      NoRoundPots(s.players);
      assert s.sidePots + [] == s.sidePots;
    }
  }

  /** `next` closes the round and goes on to the deal of the next street, or from the river to the showdown. */
  lemma NextPlayed(s: State, rng: HandRng)
    requires s.phase == BettingRound && |ActivePlayers(s.players)| >= 2 && NoDebts(s.players)
    ensures Step(s, Next, rng).Accepted?
    ensures var t := Step(s, Next, rng).state;
      && RoundClosed(s, t)
      && (s.street != LastStreet ==> StreetNumber(t.street) == StreetNumber(s.street) + 1)
      && (if s.street == River then t.phase == Showdown else t.phase == Deal)
  {
    hide FinishRound, ActivePlayers, BuildLayers;
    ClosedRound(s);
  }

  // ---------- the other phases ----------

  /** Before the deal only blinds are accepted; the last player's blind deals the cards and starts the hand. */
  lemma BlindPlayed(s: State, a: Action, rng: HandRng)
    requires s.phase == WaitBlinds || s.phase == NextHand
    ensures !a.PostBlind? ==> Step(s, a, rng) == Rejected(InvalidAction)
    ensures a.PostBlind? ==>
      match FindPlayer(s.players, a.playerId)
      case None => Step(s, a, rng) == Rejected(UnknownPlayer)
      case Some(i) =>
        && Answered(s, a.amount, i, Step(s, a, rng))
        && (Step(s, a, rng).Accepted? ==>
              var t, posted := Step(s, a, rng).state, s.blindsPosted + {a.playerId};
              if |posted| == |s.players| then
                t.phase == Deal && t.blindsPosted == {}
                && |t.players| == |s.players| && ChipsMoved(s, WithCards(t, s), i, a.amount)
              else
                t.phase == s.phase && t.blindsPosted == posted && ChipsMoved(s, t, i, a.amount))
  {
    hide BuildDeck, DealHoles, PlaceBet;
    if a.PostBlind? && FindPlayer(s.players, a.playerId).Some? {
      var i := FindPlayer(s.players, a.playerId).value;
      PlacedBet(s, i, a.amount);
      if PlaceBet(s, i, a.amount).Accepted? {
        DealHolesPlayers(PlaceBet(s, i, a.amount).state.players, BuildDeck(rng, {}));
      }
    }
  }

  /** The table with the cards of another. */
  function WithCards(t: State, s: State): (r: State)
    requires |t.players| == |s.players|
    ensures r.phase == t.phase && |r.players| == |s.players|
  {
    t.(
      players := seq(|t.players|, k requires 0 <= k < |t.players| =>
        t.players[k].(holeCards := s.players[k].holeCards)),
      deck := s.deck)
  }

  /** A deal, a showdown and a settled hand wait for `next` alone. */
  lemma OnlyNext(s: State, a: Action, rng: HandRng)
    requires (s.phase == Deal || s.phase == Showdown || s.phase == Settle) && !a.Next?
    ensures Step(s, a, rng) == Rejected(InvalidAction)
  {
  }

  /** Whatever the table looks like, an accepted deal leaves the board of its street. */
  lemma DealtBoard(s: State, rng: HandRng)
    requires s.phase == Deal && Step(s, Next, rng).Accepted?
    ensures var t := Step(s, Next, rng).state;
      && t.phase == BettingRound && s.community <= t.community
      && t == s.(phase := t.phase, deck := t.deck, community := t.community)
      && (s.street == Flop || s.street == Turn || s.street == River ==> |t.community| == BoardAfter(s.street))
      && (s.street == Preflop || s.street == LastStreet ==> t.deck == s.deck && t.community == s.community)
  {
    hide BuildDeck, Available, UsedCards, Popped;
  }

  /** A board that does not fit its street is refused. */
  lemma MisdealtBoard(s: State, rng: HandRng)
    requires s.phase == Deal && (s.street == Flop || s.street == Turn || s.street == River)
    ensures Step(s, Next, rng) == Rejected(AlreadyDealt) <==> |s.community| != BoardBefore(s.street)
  {
    hide BuildDeck, Available, UsedCards, Popped;
  }

  /** After a hand everybody sits at a new table with the stacks they have: nothing else is left of it. */
  lemma HandCleared(s: State, rng: HandRng)
    requires s.phase == Settle
    ensures Step(s, Next, rng).Accepted?
    ensures var t := Step(s, Next, rng).state;
      && t.phase == NextHand && t.street == Preflop && t.pot == 0 && t.sidePots == [] && t.currentBet == 0
      && t.deck == [] && t.community == [] && t.blindsPosted == {} && |t.players| == |s.players|
      && forall i :: 0 <= i < |s.players| ==>
           t.players[i] == Player(s.players[i].id, s.players[i].stack, false, 0, false, None)
  {
  }
}
