/** Where the cards are: dealing, and the deck check that never has to rebuild. */
module CardFlow {
  import opened Options
  import opened Sequences
  import opened Verify
  import opened Rng
  import opened Deck
  import opened Table
  import opened Machine

  /** Deck, hole cards and board are together the 52 cards, each once. */
  ghost predicate CardsAddUp(s: State) {
    multiset(s.deck) + multiset(AllHeld(s.players)) + multiset(s.community) == multiset(StandardDeck())
  }

  /** Everybody holds two cards, as far as one deck goes round. */
  ghost predicate HolesDealt(players: seq<Player>) {
    && |AllHeld(players)| == AtMost(2 * |players|, 52)
    && (2 * |players| <= 52 ==> forall i :: 0 <= i < |players| ==> |Held(players[i])| == 2)
  }

  lemma StandardDeckIsDistinct()
    ensures Distinct(StandardDeck()) && forall x :: multiset(StandardDeck())[x] <= 1
    ensures forall c: Card :: c in StandardDeck()
  {
    DistinctMultiset(StandardDeck());
    EveryCard();
  }

  lemma {:induction false} PoppedCards(deck: seq<Card>, n: nat)
    requires n <= |deck|
    ensures multiset(deck) == multiset(deck[..|deck| - n]) + multiset(Popped(deck, n))
  {
    if n == 0 {
      assert deck[..|deck|] == deck;
    } else {
      var front, top := deck[..|deck| - 1], deck[|deck| - 1];
      PoppedCards(front, n - 1);
      assert Popped(deck, n) == [top] + Popped(front, n - 1);
      hide Popped;
      assert deck == front + [top];
      assert front[..|front| - (n - 1)] == deck[..|deck| - n];
      OneMorePopped(deck[..|deck| - n], front, Popped(front, n - 1), top);
    }
  }

  lemma OneMorePopped(left: seq<Card>, front: seq<Card>, popped: seq<Card>, top: Card)
    requires multiset(front) == multiset(left) + multiset(popped)
    ensures multiset(front + [top]) == multiset(left) + multiset([top] + popped)
  {
  }

  /** Dealing hands out cards of the deck and leaves the rest of it. */
  lemma {:induction false} DealHolesCards(players: seq<Player>, deck: seq<Card>)
    ensures var (dealt, left) := DealHoles(players, deck);
      && multiset(deck) == multiset(left) + multiset(AllHeld(dealt))
      && |AllHeld(dealt)| == AtMost(2 * |players|, |deck|)
  {
    if players != [] {
      var n := AtMost(2, |deck|);
      var under := deck[..|deck| - n];
      DealHolesCards(players[1..], under);
      PoppedCards(deck, n);
      var (rest, left) := DealHoles(players[1..], under);
      var first := players[0].(holeCards := Some(Popped(deck, n)));
      assert DealHoles(players, deck) == ([first] + rest, left);
      FirstHeld(first, rest);
    }
  }

  lemma FirstHeld(first: Player, rest: seq<Player>)
    ensures AllHeld([first] + rest) == Held(first) + AllHeld(rest)
  {
    assert ([first] + rest)[1..] == rest;
  }

  /** Dealing changes nothing else about the players, and gives each two cards while they last. */
  lemma {:induction false} DealHolesPlayers(players: seq<Player>, deck: seq<Card>)
    ensures var dealt := DealHoles(players, deck).0;
      && (2 * |players| <= |deck| ==> forall i :: 0 <= i < |dealt| ==> |Held(dealt[i])| == 2)
      && (forall i :: 0 <= i < |dealt| ==> dealt[i] == players[i].(holeCards := dealt[i].holeCards))
  {
    if players != [] {
      DealHolesPlayers(players[1..], deck[..|deck| - AtMost(2, |deck|)]);
    }
  }

  lemma AvailableSize(excluded: set<Card>)
    ensures |Available(excluded)| == 52 - |excluded|
  {
    var a := Available(excluded);
    var all := Elements(StandardDeck());
    AvailableCards(excluded);
    StandardDeckIsDistinct();
    DistinctMultiset(a);
    DistinctMultiset(StandardDeck());
    assert excluded <= all;
    assert Elements(a) == all - excluded;
  }

  /** The cards in use are as many as the cards dealt: none of them is in two places. */
  lemma UsedCount(s: State)
    requires CardsAddUp(s)
    ensures |UsedCards(s)| == |AllHeld(s.players)| + |s.community| == 52 - |s.deck|
  {
    var dealt := s.community + AllHeld(s.players);
    StandardDeckIsDistinct();
    assert multiset(StandardDeck()) == multiset(s.deck) + multiset(dealt);
    forall x ensures multiset(dealt)[x] <= 1 {
      assert multiset(StandardDeck())[x] == multiset(s.deck)[x] + multiset(dealt)[x];
    }
    MultisetDistinct(dealt);
    DistinctMultiset(dealt);
    assert Elements(dealt) == UsedCards(s);
    assert |multiset(StandardDeck())| == |multiset(s.deck)| + |multiset(dealt)|;
  }

  /** The deck is never rebuilt in mid-hand: it is dealt from as it stands, or it is too short. */
  lemma NeverRebuilt(s: State, n: nat, rng: HandRng)
    requires CardsAddUp(s)
    ensures DeckFor(s, n, rng) == if |s.deck| < n then None else Some(s.deck)
  {
    UsedCount(s);
    AvailableSize(UsedCards(s));
  }

  lemma {:induction false} HeldSomewhere(players: seq<Player>, c: Card)
    ensures c in AllHeld(players) <==> exists i :: 0 <= i < |players| && c in Held(players[i])
  {
    if players != [] {
      HeldSomewhere(players[1..], c);
      assert forall i :: 1 <= i < |players| ==> players[i] == players[1..][i - 1];
      if c in AllHeld(players[1..]) {
        var i :| 0 <= i < |players| - 1 && c in Held(players[1..][i]);
        assert c in Held(players[i + 1]);
      }
    }
  }

  /** The card is on the board or in somebody's hand. */
  ghost predicate InUse(s: State, c: Card) {
    c in s.community || exists i :: 0 <= i < |s.players| && c in Held(s.players[i])
  }

  /**
   * What a deal is made from, at any table: the deck at hand when as many cards are left as
   * are not in use and it has enough; otherwise every card not in use, once, shuffled anew;
   * and nothing when there are too few of those.
   */
  lemma DeckToDeal(s: State, n: nat, rng: HandRng)
    ensures var d := DeckFor(s, n, rng);
      var free := set c: Card | c in StandardDeck() && !InUse(s, c);
      if |s.deck| == |free| && n <= |s.deck| then d == Option.Some(s.deck)
      else if n > |free| then d == None
      else d.Some? && Distinct(d.value) && (forall c: Card :: c in d.value <==> !InUse(s, c))
           && Kept(rng, UsedCards(s)) <= d.value
  {
    hide BuildDeck, Available, Kept, AllHeld, InUse;
    var used, free := UsedCards(s), set c: Card | c in StandardDeck() && !InUse(s, c);
    forall c: Card ensures c in used <==> InUse(s, c) {
      HeldSomewhere(s.players, c);
      InUseMeans(s, c);
    }
    EveryCard();
    AvailableCards(used);
    DistinctMultiset(Available(used));
    assert Elements(Available(used)) == free;
    BuildDeckIsComplete(rng, used);
    BuildDeckOrder(rng, used);
    BuildDeckSize(rng, used);
    SameMembers(BuildDeck(rng, used), Available(used));
    AvailableSize(used);
  }

  lemma InUseMeans(s: State, c: Card)
    ensures InUse(s, c) <==> c in s.community || exists i :: 0 <= i < |s.players| && c in Held(s.players[i])
  {
  }

  /** Dealing to the board keeps every card in exactly one place. */
  lemma DealCommunityKeeps(s: State, n: nat, rng: HandRng)
    requires CardsAddUp(s) && |s.community| == ExpectedBeforeDeal(s)
    ensures DealCommunity(s, n, rng).Accepted? <==> n <= |s.deck|
    ensures !DealCommunity(s, n, rng).Accepted? ==> DealCommunity(s, n, rng) == Rejected(InsufficientCards)
    ensures DealCommunity(s, n, rng).Accepted? ==>
      var t := DealCommunity(s, n, rng).state;
      && CardsAddUp(t) && |t.community| == |s.community| + n && s.community <= t.community && t.deck <= s.deck
      && t == s.(deck := t.deck, community := t.community)
  {
    hide DeckFor, Popped, UsedCards;
    NeverRebuilt(s, n, rng);
    DealsFrom(s, n, rng);
    if n <= |s.deck| {
      var t := DealCommunity(s, n, rng).state;
      PoppedCards(s.deck, n);
      assert t.deck == s.deck[..|s.deck| - n];
      assert multiset(t.community) == multiset(s.community) + multiset(Popped(s.deck, n));
    }
  }

  /** The deal that starts a hand puts each of the 52 cards into the deck or into one hand. */
  lemma FirstDealKeeps(players: seq<Player>, rng: HandRng)
    ensures var (dealt, left) := DealHoles(players, BuildDeck(rng, {}));
      && multiset(left) + multiset(AllHeld(dealt)) == multiset(StandardDeck())
      && HolesDealt(dealt) && |dealt| == |players|
      && (forall i :: 0 <= i < |dealt| ==> dealt[i] == players[i].(holeCards := dealt[i].holeCards))
  {
    hide BuildDeck, DealHoles, Available;
    DealHolesCards(players, BuildDeck(rng, {}));
    DealHolesPlayers(players, BuildDeck(rng, {}));
    BuildDeckIsComplete(rng, {});
    BuildDeckSize(rng, {});
    NothingExcluded({});
  }
}
