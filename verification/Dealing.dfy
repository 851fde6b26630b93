/** Which card goes where: backend/src/game/state-machine.ts, from the shuffled deck to hands and board. */
module Dealing {
  import opened Options
  import opened Verify
  import opened Rng
  import opened Deck
  import opened Table
  import opened Layers
  import opened Settlement
  import opened Machine
  import opened Chips
  import opened CardFlow
  import opened Lifecycle
  import opened Runs
  import opened Hands

  /** The cards out of the deck, in the order they were dealt: hands in seat order, then the board. */
  function DealtOut(s: State): seq<Card> {
    AllHeld(s.players) + s.community
  }

  /** All cards come off the end of the shuffled deck, one after the other; the rest of it is left. */
  ghost predicate DealtFrom(s: State, full: seq<Card>) {
    var out := DealtOut(s);
    && |out| <= |full| && s.deck == full[..|full| - |out|]
    && forall k :: 0 <= k < |out| ==> out[k] == full[|full| - 1 - k]
  }

  lemma {:induction false} PoppedAt(deck: seq<Card>, n: nat)
    requires n <= |deck|
    ensures forall k :: 0 <= k < n ==> Popped(deck, n)[k] == deck[|deck| - 1 - k]
  {
    if n > 0 {
      var front := deck[..|deck| - 1];
      PoppedAt(front, n - 1);
      assert Popped(deck, n) == [deck[|deck| - 1]] + Popped(front, n - 1);
      forall k | 0 <= k < n ensures Popped(deck, n)[k] == deck[|deck| - 1 - k] {
        if k > 0 {
          assert Popped(deck, n)[k] == Popped(front, n - 1)[k - 1] == front[|front| - 1 - (k - 1)];
        }
      }
    }
  }

  lemma PoppedMore(deck: seq<Card>, a: nat, b: nat)
    requires a + b <= |deck|
    ensures Popped(deck, a + b) == Popped(deck, a) + Popped(deck[..|deck| - a], b)
  {
    hide Popped;
    PoppedAt(deck, a + b);
    PoppedAt(deck, a);
    PoppedAt(deck[..|deck| - a], b);
  }

  lemma {:induction false} HandsFromEnd(players: seq<Player>, deck: seq<Card>)
    ensures var (dealt, left) := DealHoles(players, deck);
      var n := AtMost(2 * |players|, |deck|);
      AllHeld(dealt) == Popped(deck, n) && left == deck[..|deck| - n]
    decreases |players|
  {
    if players == [] {
      assert deck[..|deck|] == deck;
    } else {
      var n, m := AtMost(2, |deck|), AtMost(2 * |players|, |deck|);
      var under := deck[..|deck| - n];
      HandsFromEnd(players[1..], under);
      hide Popped;
      FirstHandOut(players, deck);
      PoppedMore(deck, n, m - n);
      assert under[..|under| - (m - n)] == deck[..|deck| - m];
    }
  }

  lemma FirstHandOut(players: seq<Player>, deck: seq<Card>)
    requires players != []
    ensures var n := AtMost(2, |deck|);
      var (rest, left) := DealHoles(players[1..], deck[..|deck| - n]);
      AllHeld(DealHoles(players, deck).0) == Popped(deck, n) + AllHeld(rest) && DealHoles(players, deck).1 == left
  {
    hide Popped;
    var n := AtMost(2, |deck|);
    var (rest, left) := DealHoles(players[1..], deck[..|deck| - n]);
    FirstHeld(players[0].(holeCards := Some(Popped(deck, n))), rest);
  }

  lemma StartDealt(s: State, rng: HandRng)
    requires s.community == []
    ensures DealtFrom(Started(s, rng), BuildDeck(rng, {}))
  {
    hide BuildDeck, DealHoles, Popped;
    var full := BuildDeck(rng, {});
    HandsFromEnd(s.players, full);
    var t := Started(s, rng);
    assert DealtOut(t) == AllHeld(t.players);
    PoppedAt(full, AtMost(2 * |s.players|, |full|));
  }

  /** Dealing to the board goes on where the hands ended. */
  lemma BoardDealt(s: State, n: nat, rng: HandRng, full: seq<Card>)
    requires CardsAddUp(s) && DealtFrom(s, full) && DealCommunity(s, n, rng).Accepted?
    ensures DealtFrom(DealCommunity(s, n, rng).state, full)
  {
    hide DeckFor, Popped, UsedCards, AllHeld;
    NeverRebuilt(s, n, rng);
    DealsFrom(s, n, rng);
    var t := DealCommunity(s, n, rng).state;
    PoppedAt(s.deck, n);
    assert DealtOut(t) == DealtOut(s) + Popped(s.deck, n);
    assert t.deck == full[..|full| - |DealtOut(t)|];
  }

  lemma SameCards(s: State, t: State, full: seq<Card>)
    requires DealtFrom(s, full)
    requires t.deck == s.deck && t.community == s.community && AllHeld(t.players) == AllHeld(s.players)
    ensures DealtFrom(t, full)
  {
  }

  /** The same cards in the same places. */
  ghost predicate CardsStay(s: State, t: State) {
    && t.deck == s.deck && t.community == s.community && |t.players| == |s.players|
    && forall i :: 0 <= i < |s.players| ==> t.players[i].holeCards == s.players[i].holeCards
  }

  lemma CardsStayHeld(s: State, t: State)
    requires CardsStay(s, t)
    ensures t.deck == s.deck && t.community == s.community && AllHeld(t.players) == AllHeld(s.players)
  {
    SameHeld(s.players, t.players);
  }

  lemma ClosingStays(s: State)
    ensures CardsStay(s, FinishRound(s)) && CardsStay(s, CloseStep(s)) && CardsStay(s, EndIfAlone(s))
  {
    hide RoundPots, Bettors, ActivePlayers;
  }

  lemma BettingCards(s: State, a: Action)
    requires BettingStep(s, a).Accepted?
    ensures var t := BettingStep(s, a).state;
      t.deck == s.deck && t.community == s.community && AllHeld(t.players) == AllHeld(s.players)
  {
    hide AllHeld, FinishRound, EndIfAlone, CloseStep;
    ClosingStays(s);
    var played := match a
      case PostBlind(id, amount) => BetStep(s, id, amount)
      case Bet(id, amount) => BetStep(s, id, amount)
      case Raise(id, amount) => BetStep(s, id, amount)
      case Call(id) => CallStep(s, id)
      case Check(_) => Accepted(s)
      case Fold(id) => FoldStep(s, id)
      case Next => Accepted(CloseStep(s));
    assert CardsStay(s, played.state);
    ClosingStays(played.state);
    CardsStayHeld(s, EndIfAlone(played.state));
  }

  lemma SettledCards(s: State)
    ensures var t := SettledState(s);
      t.deck == s.deck && t.community == s.community && AllHeld(t.players) == AllHeld(s.players)
  {
    hide AllHeld, Scores, Payouts;
    SameHeld(s.players, SettledState(s).players);
  }

  lemma BlindDealt(s: State, a: Action, rng: HandRng)
    requires Inv(s) && (s.phase == WaitBlinds || s.phase == NextHand) && BlindStep(s, a, rng).Accepted?
    ensures var t := BlindStep(s, a, rng).state; CardsOut(t.phase) ==> DealtFrom(t, BuildDeck(rng, {}))
  {
    hide BuildDeck, DealHoles, PlaceBet, ChipsAddUp, DealtFrom;
    var i := FindPlayer(s.players, a.playerId).value;
    BlindKeeps(s, i, a.amount);
    StartDealt(BlindPosted(s, i, a.amount), rng);
  }

  lemma StepDealt(s: State, a: Action, rng: HandRng)
    requires Inv(s) && (CardsOut(s.phase) ==> DealtFrom(s, BuildDeck(rng, {})))
    ensures CardsOut(After(s, a, rng).phase) ==> DealtFrom(After(s, a, rng), BuildDeck(rng, {}))
  {
    hide BuildDeck, DealtFrom, BlindStep, BettingStep, SettledState, DealCommunity, ChipsAddUp;
    if Step(s, a, rng).Accepted? {
      var t, full := After(s, a, rng), BuildDeck(rng, {});
      match s.phase
      case WaitBlinds => BlindDealt(s, a, rng);
      case NextHand => BlindDealt(s, a, rng);
      case Deal =>
        if CardsToDeal(s.street) > 0 {
          BoardDealt(s, CardsToDeal(s.street), rng, full);
          SameCards(DealCommunity(s, CardsToDeal(s.street), rng).state, t, full);
        } else {
          SameCards(s, t, full);
        }
      case BettingRound =>
        BettingCards(s, a);
        SameCards(s, t, full);
      case Showdown =>
        SettledCards(s);
        SameCards(s, t, full);
      case Settle =>
    }
  }

  lemma {:induction false} RunDealt(s: State, actions: seq<Action>, rng: HandRng)
    requires Inv(s) && (CardsOut(s.phase) ==> DealtFrom(s, BuildDeck(rng, {})))
    ensures CardsOut(Run(s, actions, rng).phase) ==> DealtFrom(Run(s, actions, rng), BuildDeck(rng, {}))
    decreases |actions|
  {
    hide Inv, BuildDeck, DealtFrom, After, CardsOut;
    if actions != [] {
      StepKeeps(s, actions[0], rng);
      StepDealt(s, actions[0], rng);
      RunDealt(After(s, actions[0], rng), actions[1..], rng);
    }
  }

  lemma {:induction false} HeldAt(players: seq<Player>, i: nat)
    requires i < |players| && forall k :: 0 <= k < |players| ==> |Held(players[k])| == 2
    ensures |AllHeld(players)| == 2 * |players|
    ensures Held(players[i]) == [AllHeld(players)[2 * i], AllHeld(players)[2 * i + 1]]
  {
    if |players| > 1 {
      HeldAt(players[1..], if i > 0 then i - 1 else 0);
    } else {
      assert AllHeld(players[1..]) == [];
    }
  }

  /**
   * The deal, card by card. Whenever cards are out, in every run from a new machine, the
   * deck the shuffle built for it decides where each lies: player i of up to 26 holds the
   * two cards 2i and 2i + 1 from its end, the board goes on after the last hand, and the
   * rest is the deck left. No card is burnt, and every hand of one machine starts from the
   * same deck.
   */
  lemma DealtInOrder(start: State, actions: seq<Action>, rng: HandRng)
    requires Fresh(start) && |start.players| <= 26 && CardsOut(Run(start, actions, rng).phase)
    ensures var s, full := Run(start, actions, rng), BuildDeck(rng, {});
      var n := |s.players|;
      && |full| == 52 && n == |start.players| && 2 * n + |s.community| <= 52
      && (forall i :: 0 <= i < n ==> Held(s.players[i]) == [full[51 - 2 * i], full[50 - 2 * i]])
      && (forall k :: 0 <= k < |s.community| ==> s.community[k] == full[51 - 2 * n - k])
      && s.deck == full[..52 - 2 * n - |s.community|]
  {
    hide BuildDeck, Inv, Fresh, Run, DealtFrom;
    FreshHolds(start);
    RunKeeps(start, actions, rng);
    FreshHasNoCards(start);
    RunDealt(start, actions, rng);
    RunPlayersStay(start, actions, rng);
    FullDeckSize(rng);
    var s := Run(start, actions, rng);
    assert |s.players| == |Ids(s.players)| == |start.players|;
    PlacesOf(s, BuildDeck(rng, {}));
  }

  lemma FreshHasNoCards(s: State)
    requires Fresh(s)
    ensures !CardsOut(s.phase)
  {
  }

  lemma FullDeckSize(rng: HandRng)
    ensures |BuildDeck(rng, {})| == 52
  {
    hide BuildDeck;
    BuildDeckSize(rng, {});
    NothingExcluded({});
  }

  lemma PlacesOf(s: State, full: seq<Card>)
    requires Inv(s) && CardsOut(s.phase) && DealtFrom(s, full) && |full| == 52 && |s.players| <= 26
    ensures var n := |s.players|;
      && 2 * n + |s.community| <= 52
      && (forall i :: 0 <= i < n ==> Held(s.players[i]) == [full[51 - 2 * i], full[50 - 2 * i]])
      && (forall k :: 0 <= k < |s.community| ==> s.community[k] == full[51 - 2 * n - k])
      && s.deck == full[..52 - 2 * n - |s.community|]
  {
    hide AllHeld, ChipsAddUp, PhaseFits, CardsAddUp, Held;
    var n, held, out := |s.players|, AllHeld(s.players), DealtOut(s);
    HeldAt(s.players, 0);
    forall i | 0 <= i < n ensures Held(s.players[i]) == [full[51 - 2 * i], full[50 - 2 * i]] {
      HeldAt(s.players, i);
      assert held[2 * i] == out[2 * i] && held[2 * i + 1] == out[2 * i + 1];
    }
    forall k | 0 <= k < |s.community| ensures s.community[k] == full[51 - 2 * n - k] {
      assert s.community[k] == out[2 * n + k];
    }
  }
}
