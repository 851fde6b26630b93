/** The state machine that updates the table in place: backend/src/game/state-machine.ts. */
module HandStateMachine {
  import opened Options
  import opened Sequences
  import opened Verify
  import opened Rng
  import opened Deck
  import opened Table
  import opened Layers
  import opened Settlement
  import opened Machine
  import opened GameState
  import opened SettlePots

  lemma ForEachMore(ids: seq<string>, id: string, amount: int)
    ensures ForEach(ids + [id], amount) == ForEach(ids, amount)[id := amount]
  {
  }

  lemma IdsMore(players: seq<Player>, k: nat)
    requires k < |players|
    ensures Ids(players[..k + 1]) == Ids(players[..k]) + [players[k].id]
  {
  }

  method RecordPaid(contributors: seq<Player>, share: int) returns (paid: map<string, int>)
    ensures paid == ForEach(Ids(contributors), share)
  {
    hide ForEach;
    paid := map[];
    assert paid == ForEach([], share) by { ForEachNone(share); }
    for k := 0 to |contributors|
      invariant paid == ForEach(Ids(contributors[..k]), share)
    {
      paid := paid[contributors[k].id := share];
      IdsMore(contributors, k);
      ForEachMore(Ids(contributors[..k]), contributors[k].id, share);
    }
    assert contributors[..|contributors|] == contributors;
  }

  lemma ForEachNone(amount: int)
    ensures ForEach([], amount) == map[]
  {
  }

  lemma ForEachLess(ids: seq<string>, id: string, paid: map<string, int>)
    ensures var all := ForEach(ids, 0) + paid;
      ForEach(ids + [id], 0) + paid == if id in all then all else all[id := 0]
  {
  }

  /** Zero for every unfolded player who has not paid. */
  method AddUnpaid(active: seq<Player>, paid: map<string, int>) returns (all: map<string, int>)
    ensures all == ForEach(Ids(active), 0) + paid
  {
    hide ForEach;
    all := paid;
    assert all == ForEach([], 0) + paid by { ForEachNone(0); }
    for k := 0 to |active|
      invariant all == ForEach(Ids(active[..k]), 0) + paid
    {
      if active[k].id !in all {
        all := all[active[k].id := 0];
      }
      IdsMore(active, k);
      ForEachLess(Ids(active[..k]), active[k].id, paid);
    }
    assert active[..|active|] == active;
  }

  /** One layer between two heights. */
  method BuildPot(seats: seq<Player>, bettors: seq<Player>, previous: int, level: int) returns (pot: SidePot)
    ensures pot == Layer(seats, bettors, previous, level)
  {
    hide ForEach, ActivePlayers;
    var contributors := Contributors(bettors, level);
    var contenders := ActivePlayers(contributors);
    var contributions := RecordPaid(contributors, level - previous);
    if contenders == [] {
      contenders := ActivePlayers(seats);
      contributions := AddUnpaid(contenders, contributions);
    }
    if contenders == [] {
      contenders := contributors;
    }
    pot := SidePot((level - previous) * |contributors|, Ids(contenders), contributions);
  }

  /** The side pots of a round, level by level; a level that holds nothing makes none. */
  method BuildPots(seats: seq<Player>, bettors: seq<Player>) returns (pots: seq<SidePot>)
    ensures pots == BuildLayers(seats, bettors, 0, Levels(bettors))
  {
    hide Layer, Levels, BuildLayers;
    var levels := Levels(bettors);
    var previous := 0;
    pots := [];
    assert levels[0..] == levels;
    for k := 0 to |levels|
      invariant pots + BuildLayers(seats, bettors, previous, levels[k..]) == BuildLayers(seats, bettors, 0, levels)
    {
      var pot := BuildPot(seats, bettors, previous, levels[k]);
      LayersFromHere(seats, bettors, previous, levels, k, pots);
      if pot.amount > 0 {
        pots := pots + [pot];
      }
      previous := levels[k];
    }
    NoLevelLeft(seats, bettors, previous, levels, pots);
  }

  lemma LayersFromHere(
    seats: seq<Player>, bettors: seq<Player>, previous: int, levels: seq<int>, k: nat, pots: seq<SidePot>)
    requires k < |levels|
    ensures var pot := Layer(seats, bettors, previous, levels[k]);
      pots + BuildLayers(seats, bettors, previous, levels[k..])
      == (if pot.amount > 0 then pots + [pot] else pots) + BuildLayers(seats, bettors, levels[k], levels[k + 1..])
  {
    hide Layer;
    assert levels[k..][0] == levels[k] && levels[k..][1..] == levels[k + 1..];
  }

  lemma NoLevelLeft(seats: seq<Player>, bettors: seq<Player>, previous: int, levels: seq<int>, pots: seq<SidePot>)
    ensures pots + BuildLayers(seats, bettors, previous, levels[|levels|..]) == pots
  {
  }

  /** The cards of a shuffle worth keeping, in order. */
  method TakeDefined(shuffled: seq<Option<Card>>, excluded: set<Card>) returns (deck: seq<Card>)
    ensures deck == TakeFresh(shuffled, excluded, [])
  {
    var seen: set<Card> := {};
    deck := [];
    assert shuffled[0..] == shuffled;
    for i := 0 to |shuffled|
      invariant forall c :: c in seen <==> c in deck
      invariant TakeFresh(shuffled[i..], excluded, deck) == TakeFresh(shuffled, excluded, [])
    {
      assert shuffled[i..][0] == shuffled[i] && shuffled[i..][1..] == shuffled[i + 1..];
      if shuffled[i].Some? && shuffled[i].value !in excluded && shuffled[i].value !in seen {
        seen := seen + {shuffled[i].value};
        deck := deck + [shuffled[i].value];
      }
    }
  }

  /** The deck with every missing card put back at its end. */
  method PutBack(available: seq<Card>, taken: seq<Card>) returns (deck: seq<Card>)
    ensures deck == Refill(available, taken)
  {
    var seen := Elements(taken);
    deck := taken;
    assert available[0..] == available;
    for i := 0 to |available|
      invariant forall c :: c in seen <==> c in deck
      invariant Refill(available[i..], deck) == Refill(available, taken)
    {
      assert available[i..][0] == available[i] && available[i..][1..] == available[i + 1..];
      if available[i] !in seen {
        seen := seen + {available[i]};
        deck := deck + [available[i]];
      }
    }
  }

  class HandStateMachine {
    const state: GameState
    const rng: HandRng
    var blindsPosted: set<string>

    constructor (state: GameState, rng: HandRng)
      ensures this.state == state && this.rng == rng && blindsPosted == {}
    {
      this.state, this.rng := state, rng;
      blindsPosted := {};
    }

    ghost predicate Valid() {
      state.Seated()
    }

    function View(): State
      reads this, state, state.players
    {
      state.View(blindsPosted)
    }

    /** The record with the id, and where it sits. */
    method FindRecord(id: string) returns (player: PlayerState?, ghost at: nat)
      ensures player == null <==> FindPlayer(Views(state.players), id).None?
      ensures player != null ==>
        at < |state.players| && state.players[at] == player && FindPlayer(Views(state.players), id) == Some(at)
    {
      at := 0;
      for i := 0 to |state.players|
        invariant forall k :: 0 <= k < i ==> state.players[k].id != id
      {
        if state.players[i].id == id {
          FirstFound(Views(state.players), id, i);
          return state.players[i], i;
        }
      }
      NoneFound(Views(state.players), id);
      return null, 0;
    }

    method PlaceBetOn(player: PlayerState, amount: int, ghost at: nat) returns (r: Option<Error>)
      requires Valid() && at < |state.players| && state.players[at] == player
      modifies state, player
      ensures PlaceBet(old(View()), at, amount) == if r.None? then Accepted(View()) else Rejected(r.value)
      ensures r.Some? ==> View() == old(View())
    {
      hide Views;
      if amount <= 0 {
        return Some(AmountNotPositive);
      }
      if amount > player.stack {
        return Some(BetExceedsStack);
      }
      MoveChips(player, amount, at);
      state.pot := state.pot + amount;
      if player.bet > state.currentBet {
        state.currentBet := player.bet;
      }
      return None;
    }

    /** The player's side of a bet: from the stack to the bet, and all-in when the stack is gone. */
    method MoveChips(player: PlayerState, amount: int, ghost at: nat)
      requires Valid() && at < |state.players| && state.players[at] == player
      modifies player
      ensures var p := old(Views(state.players))[at];
        Views(state.players) == old(Views(state.players))[at :=
          p.(stack := p.stack - amount, bet := p.bet + amount, allIn := p.allIn || p.stack == amount)]
    {
      ghost var seats := Views(state.players);
      player.stack := player.stack - amount;
      player.bet := player.bet + amount;
      if player.stack == 0 {
        player.allIn := true;
      }
      assert Views(state.players) == seats[at := player.View()];
    }

    method ClearBets()
      requires Valid()
      modifies state.players
      ensures Views(state.players) == ClearedBets(old(Views(state.players)))
    {
      ghost var seats := Views(state.players);
      for i := 0 to |state.players|
        invariant forall k :: 0 <= k < i ==> state.players[k].View() == seats[k].(bet := 0)
        invariant forall k :: i <= k < |seats| ==> state.players[k].View() == seats[k]
      {
        state.players[i].bet := 0;
      }
    }

    method FinishBettingRound()
      requires Valid()
      modifies state, state.players
      ensures View() == FinishRound(old(View()))
    {
      var seats := Views(state.players);
      var bettors := Bettors(seats);
      if bettors == [] {
        state.currentBet := 0;
        return;
      }
      var pots := BuildPots(seats, bettors);
      state.sidePots := state.sidePots + pots;
      ClearBets();
      state.currentBet := 0;
    }

    /** Shuffle what is not excluded, drop what the shuffle spoiled and put back what it lost. */
    method BuildFreshDeck(excluded: set<Card>) returns (deck: seq<Card>)
      ensures deck == BuildDeck(rng, excluded)
    {
      var available := Available(excluded);
      var shuffled := Shuffle(available, rng.sha, rng.seed);
      deck := TakeDefined(shuffled, excluded);
      if |deck| < |available| {
        deck := PutBack(available, deck);
      }
    }

    /** The cards on the board and in the players' hands. */
    method MarkUsed() returns (used: set<Card>)
      ensures used == UsedCards(View())
    {
      used := Elements(state.communityCards);
      for i := 0 to |state.players|
        invariant used == Elements(state.communityCards) + Elements(AllHeld(Views(state.players)[..i]))
      {
        if state.players[i].holeCards.Some? {
          used := used + Elements(state.players[i].holeCards.value);
        }
        HeldSoFar(Views(state.players), i);
      }
      assert Views(state.players)[..|state.players|] == Views(state.players);
    }

    method EnsureDeckCapacity(n: nat) returns (r: Option<Error>)
      modifies state`deck
      ensures DeckFor(old(View()), n, rng) == if r.None? then Some(state.deck) else None
      ensures r.Some? ==> r.value == InsufficientCards && state.deck == old(state.deck)
    {
      hide BuildDeck, Available, UsedCards;
      var used := MarkUsed();
      var expectedRemaining := 52 - |used|;
      if |state.deck| != expectedRemaining || |state.deck| < n {
        var remainingShoe := Available(used);
        if |remainingShoe| < n {
          return Some(InsufficientCards);
        }
        state.deck := BuildFreshDeck(used);
      }
      return None;
    }

    method DealToBoard(n: nat) returns (r: Option<Error>)
      modifies state`deck, state`communityCards
      ensures DealCommunity(old(View()), n, rng) == if r.None? then Accepted(View()) else Rejected(r.value)
      ensures r.Some? ==> View() == old(View())
    {
      hide DeckFor, Popped, DealCommunity;
      DealsFrom(View(), n, rng);
      var expected := match state.street
        case Flop => 0
        case Turn => 3
        case River => 4
        case _ => |state.communityCards|;
      if |state.communityCards| != expected {
        return Some(AlreadyDealt);
      }
      r := DealFromDeck(n);
    }

    /** The cards for the board, from the deck at hand or a rebuilt one. */
    method DealFromDeck(n: nat) returns (r: Option<Error>)
      modifies state`deck, state`communityCards
      ensures DeckFor(old(View()), n, rng).None? ==>
        && r == Some(InsufficientCards)
        && state.deck == old(state.deck) && state.communityCards == old(state.communityCards)
      ensures DeckFor(old(View()), n, rng).Some? ==>
        var full := DeckFor(old(View()), n, rng).value;
        && r == None && state.deck == full[..|full| - n]
        && state.communityCards == old(state.communityCards) + Popped(full, n)
    {
      hide DeckFor, Popped;
      r := EnsureDeckCapacity(n);
      if r.None? {
        PopToBoard(n);
      }
    }

    /** `n` cards from the end of the deck to the board. */
    method PopToBoard(n: nat)
      requires n <= |state.deck|
      modifies state`deck, state`communityCards
      ensures state.deck == old(state.deck)[..|old(state.deck)| - n]
      ensures state.communityCards == old(state.communityCards) + Popped(old(state.deck), n)
    {
      ghost var full, board := state.deck, state.communityCards;
      assert full[..|full|] == full;
      for i := 0 to n
        invariant state.deck == full[..|full| - i]
        invariant state.communityCards + Popped(state.deck, n - i) == board + Popped(full, n)
      {
        var top := |state.deck| - 1;
        state.communityCards := state.communityCards + [state.deck[top]];
        state.deck := state.deck[..top];
      }
    }

    /** Two cards to each player in seat order, popped from the deck. */
    method DealHands()
      requires Valid()
      modifies state`deck, state.players
      ensures (Views(state.players), state.deck) == DealHoles(old(Views(state.players)), old(state.deck))
    {
      hide Popped, DealHoles;
      ghost var seats, full := Views(state.players), state.deck;
      ghost var done: seq<Player> := [];
      assert seats[0..] == seats;
      NothingDealt(DealHoles(seats, full));
      for i := 0 to |state.players|
        invariant |done| == i && forall k :: 0 <= k < i ==> state.players[k].View() == done[k]
        invariant forall k :: i <= k < |seats| ==> state.players[k].View() == seats[k]
        invariant DealHoles(seats, full) == DealtSoFar(done, DealHoles(seats[i..], state.deck))
      {
        NextHandDealt(done, seats, i, state.deck);
        var hand := PopCards(AtMost(2, |state.deck|));
        state.players[i].holeCards := Some(hand);
        done := done + [seats[i].(holeCards := Some(hand))];
      }
      NobodyLeft(done, seats, state.deck);
      assert Views(state.players) == done;
    }

    /** `n` cards from the end of the deck. */
    method PopCards(n: nat) returns (cards: seq<Card>)
      requires n <= |state.deck|
      modifies state`deck
      ensures cards == Popped(old(state.deck), n)
      ensures state.deck == old(state.deck)[..|old(state.deck)| - n]
    {
      ghost var full := state.deck;
      assert full[..|full|] == full;
      cards := [];
      for i := 0 to n
        invariant state.deck == full[..|full| - i]
        invariant cards + Popped(state.deck, n - i) == Popped(full, n)
      {
        var top := |state.deck| - 1;
        cards := cards + [state.deck[top]];
        state.deck := state.deck[..top];
      }
    }

    method ApplyBlind(action: Action) returns (r: Option<Error>)
      requires Valid()
      modifies this`blindsPosted, state, state.players
      ensures BlindStep(old(View()), action, rng) == if r.None? then Accepted(View()) else Rejected(r.value)
      ensures r.Some? ==> View() == old(View())
    {
      hide Started, PlaceBet, Views;
      if !action.PostBlind? {
        return Some(InvalidAction);
      }
      var player, at := FindRecord(action.playerId);
      if player == null {
        return Some(UnknownPlayer);
      }
      r := PlaceBetOn(player, action.amount, at);
      if r.Some? {
        return;
      }
      blindsPosted := blindsPosted + {player.id};
      if |blindsPosted| == |state.players| {
        StartHand();
      }
    }

    /** A fresh deck, two cards each, and the first street is open. */
    method StartHand()
      requires Valid()
      modifies this`blindsPosted, state, state.players
      ensures View() == Started(old(View()), rng)
    {
      hide BuildDeck, DealHoles;
      state.deck := BuildFreshDeck({});
      DealHands();
      state.phase := Deal;
      blindsPosted := {};
    }

    method ApplyDeal(action: Action) returns (r: Option<Error>)
      requires Valid()
      modifies state
      ensures DealStep(old(View()), action, rng) == if r.None? then Accepted(View()) else Rejected(r.value)
      ensures r.Some? ==> View() == old(View())
    {
      hide DealCommunity;
      if !action.Next? {
        return Some(InvalidAction);
      }
      r := None;
      match state.street {
        case Flop => r := DealToBoard(3);
        case Turn => r := DealToBoard(1);
        case River => r := DealToBoard(1);
        case _ =>
      }
      if r.None? {
        state.phase := BettingRound;
      }
    }

    method AdvanceStreet()
      modifies state`street
      ensures state.street == NextStreet(old(state.street))
    {
      state.street := match state.street
        case Preflop => Flop
        case Flop => Turn
        case Turn => River
        case River => LastStreet
        case LastStreet => LastStreet;
    }

    method CloseRound()
      requires Valid()
      modifies state, state.players
      ensures View() == CloseStep(old(View()))
    {
      hide FinishRound;
      ghost var before := View();
      FinishBettingRound();
      SameStreet(before);
      if state.street == River {
        AdvanceStreet();
        state.phase := Showdown;
      } else {
        AdvanceStreet();
        state.phase := Deal;
      }
    }

    method Wager(id: string, amount: int) returns (r: Option<Error>)
      requires Valid()
      modifies state, state.players
      ensures BetStep(old(View()), id, amount) == if r.None? then Accepted(View()) else Rejected(r.value)
      ensures r.Some? ==> View() == old(View())
    {
      hide PlaceBet;
      var player, at := FindRecord(id);
      if player == null {
        return Some(UnknownPlayer);
      }
      r := PlaceBetOn(player, amount, at);
    }

    method CallBet(id: string) returns (r: Option<Error>)
      requires Valid()
      modifies state, state.players
      ensures CallStep(old(View()), id) == if r.None? then Accepted(View()) else Rejected(r.value)
      ensures r.Some? ==> View() == old(View())
    {
      hide PlaceBet;
      var player, at := FindRecord(id);
      if player == null {
        return Some(UnknownPlayer);
      }
      var toCall := state.currentBet - player.bet;
      r := PlaceBetOn(player, toCall, at);
    }

    method FoldHand(id: string) returns (r: Option<Error>)
      requires Valid()
      modifies state.players
      ensures FoldStep(old(View()), id) == if r.None? then Accepted(View()) else Rejected(r.value)
      ensures r.Some? ==> View() == old(View())
    {
      var player, at := FindRecord(id);
      if player == null {
        return Some(UnknownPlayer);
      }
      ghost var seats := Views(state.players);
      player.folded := true;
      assert Views(state.players) == seats[at := seats[at].(folded := true)];
      return None;
    }

    method EndIfOneIsLeft()
      requires Valid()
      modifies state, state.players
      ensures View() == EndIfAlone(old(View()))
    {
      hide FinishRound, ActivePlayers;
      var seats := Views(state.players);
      if state.phase == BettingRound && |ActivePlayers(seats)| <= 1 {
        var hasCommitted := exists i :: 0 <= i < |seats| && seats[i].bet > 0;
        if hasCommitted {
          FinishBettingRound();
        } else {
          state.currentBet := 0;
        }
        state.phase := Showdown;
      }
    }

    method ApplyBetting(action: Action) returns (r: Option<Error>)
      requires Valid()
      modifies state, state.players
      ensures BettingStep(old(View()), action) == if r.None? then Accepted(View()) else Rejected(r.value)
      ensures r.Some? ==> View() == old(View())
    {
      hide BetStep, CallStep, FoldStep, CloseStep, EndIfAlone;
      r := None;
      match action {
        case PostBlind(id, amount) => r := Wager(id, amount);
        case Bet(id, amount) => r := Wager(id, amount);
        case Raise(id, amount) => r := Wager(id, amount);
        case Call(id) => r := CallBet(id);
        case Check(_) =>
        case Fold(id) => r := FoldHand(id);
        case Next => CloseRound();
      }
      if r.None? {
        EndIfOneIsLeft();
      }
    }

    method ApplyShowdown(action: Action) returns (r: Option<Error>)
      requires Valid()
      modifies state, state.players
      ensures ShowdownStep(old(View()), action) == if r.None? then Accepted(View()) else Rejected(r.value)
      ensures r.Some? ==> View() == old(View())
    {
      hide SettledState;
      if !action.Next? {
        return Some(InvalidAction);
      }
      SettleAll(state, blindsPosted);
      state.phase := Settle;
      return None;
    }

    method ApplySettle(action: Action) returns (r: Option<Error>)
      requires Valid()
      modifies this`blindsPosted, state, state.players
      ensures SettleStep(old(View()), action) == if r.None? then Accepted(View()) else Rejected(r.value)
      ensures r.Some? ==> View() == old(View())
    {
      if !action.Next? {
        return Some(InvalidAction);
      }
      ghost var seats := Views(state.players);
      ResetRecords();
      state.pot, state.sidePots, state.currentBet := 0, [], 0;
      state.communityCards, state.deck := [], [];
      state.street, state.phase := Preflop, NextHand;
      blindsPosted := {};
      return None;
    }

    method ResetRecords()
      requires Valid()
      modifies state.players
      ensures Views(state.players) == ResetPlayers(old(Views(state.players)))
    {
      ghost var seats := Views(state.players);
      for i := 0 to |state.players|
        invariant forall k :: 0 <= k < i ==>
          state.players[k].View() == seats[k].(folded := false, bet := 0, allIn := false, holeCards := None)
        invariant forall k :: i <= k < |seats| ==> state.players[k].View() == seats[k]
      {
        var p := state.players[i];
        p.folded, p.bet, p.allIn, p.holeCards := false, 0, false, None;
      }
    }

    /** One action: the new state is the model's step of the old one, and a rejected action changes nothing. */
    method Apply(action: Action) returns (r: Option<Error>)
      requires Valid()
      modifies this`blindsPosted, state, state.players
      ensures Valid()
      ensures Step(old(View()), action, rng) == if r.None? then Accepted(View()) else Rejected(r.value)
      ensures View() == After(old(View()), action, rng)
    {
      hide BlindStep, DealStep, BettingStep, ShowdownStep, SettleStep;
      match state.phase {
        case WaitBlinds => r := ApplyBlind(action);
        case NextHand => r := ApplyBlind(action);
        case Deal => r := ApplyDeal(action);
        case BettingRound => r := ApplyBetting(action);
        case Showdown => r := ApplyShowdown(action);
        case Settle => r := ApplySettle(action);
      }
    }

    /** A whole run, rejected actions skipped as the callers skip them. */
    method ApplyAll(actions: seq<Action>)
      requires Valid()
      modifies this`blindsPosted, state, state.players
      ensures View() == Run(old(View()), actions, rng)
    {
      hide After;
      assert actions[0..] == actions;
      for i := 0 to |actions|
        invariant Run(View(), actions[i..], rng) == Run(old(View()), actions, rng)
      {
        assert actions[i..][0] == actions[i] && actions[i..][1..] == actions[i + 1..];
        var r := Apply(actions[i]);
      }
    }
  }

  ghost function DealtSoFar(done: seq<Player>, rest: (seq<Player>, seq<Card>)): (seq<Player>, seq<Card>) {
    (done + rest.0, rest.1)
  }

  lemma NothingDealt(rest: (seq<Player>, seq<Card>))
    ensures DealtSoFar([], rest) == rest
  {
    assert [] + rest.0 == rest.0;
  }

  lemma NextHandDealt(done: seq<Player>, seats: seq<Player>, i: nat, deck: seq<Card>)
    requires i < |seats|
    ensures var n := AtMost(2, |deck|);
      var dealt := seats[i].(holeCards := Some(Popped(deck, n)));
      DealtSoFar(done, DealHoles(seats[i..], deck))
      == DealtSoFar(done + [dealt], DealHoles(seats[i + 1..], deck[..|deck| - n]))
  {
    hide Popped;
    var n := AtMost(2, |deck|);
    var first := seats[i].(holeCards := Some(Popped(deck, n)));
    var rest := DealHoles(seats[i + 1..], deck[..|deck| - n]);
    FirstHandDealt(seats[i..], deck);
    assert seats[i..][0] == seats[i] && seats[i..][1..] == seats[i + 1..];
    assert done + ([first] + rest.0) == done + [first] + rest.0;
  }

  lemma FirstHandDealt(players: seq<Player>, deck: seq<Card>)
    requires players != []
    ensures var n := AtMost(2, |deck|);
      var rest := DealHoles(players[1..], deck[..|deck| - n]);
      DealHoles(players, deck) == ([players[0].(holeCards := Some(Popped(deck, n)))] + rest.0, rest.1)
  {
  }

  lemma NobodyLeft(done: seq<Player>, seats: seq<Player>, deck: seq<Card>)
    ensures DealtSoFar(done, DealHoles(seats[|seats|..], deck)) == (done, deck)
  {
    assert DealHoles([], deck) == ([], deck);
    assert done + [] == done;
  }

  lemma SameStreet(s: State)
    ensures FinishRound(s).street == s.street
    ensures FinishRound(s).(street := NextStreet(s.street)).phase == s.phase
  {
  }

  lemma {:induction false} FirstFound(players: seq<Player>, id: string, i: nat)
    requires i < |players| && players[i].id == id && forall k :: 0 <= k < i ==> players[k].id != id
    ensures FindPlayer(players, id) == Some(i)
  {
    if i > 0 {
      FirstFound(players[1..], id, i - 1);
    }
  }

  lemma NoneFound(players: seq<Player>, id: string)
    requires forall k :: 0 <= k < |players| ==> players[k].id != id
    ensures FindPlayer(players, id) == None
  {
  }

  lemma {:induction false} HeldSoFar(players: seq<Player>, i: nat)
    requires i < |players|
    ensures AllHeld(players[..i + 1]) == AllHeld(players[..i]) + Held(players[i])
  {
    if i == 0 {
      assert players[..1] == [players[0]];
      assert [players[0]][1..] == [];
    } else {
      HeldSoFar(players[1..], i - 1);
      assert players[..i + 1][1..] == players[1..][..i];
      assert players[..i][1..] == players[1..][..i - 1];
    }
  }
}
