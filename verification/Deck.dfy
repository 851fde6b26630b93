/** The dealer's deck and its repair after a faulty shuffle: backend/src/game/state-machine.ts, buildDeck. */
module Deck {
  import opened Options
  import opened Sequences
  import opened Verify
  import opened Rng

  function Available(excluded: set<Card>): seq<Card> {
    Filter((card: Card) => card !in excluded, StandardDeck())
  }

  /** The deck after taking, in order, every defined card that is neither excluded nor already in it. */
  function TakeFresh(cards: seq<Option<Card>>, excluded: set<Card>, deck: seq<Card>): seq<Card> {
    if cards == [] then deck
    else if cards[0].Some? && cards[0].value !in excluded && cards[0].value !in deck
    then TakeFresh(cards[1..], excluded, deck + [cards[0].value])
    else TakeFresh(cards[1..], excluded, deck)
  }

  /** The deck after appending every available card that is not in it yet. */
  function Refill(available: seq<Card>, deck: seq<Card>): seq<Card> {
    if available == [] then deck
    else Refill(available[1..], if available[0] in deck then deck else deck + [available[0]])
  }

  function BuildDeck(rng: HandRng, excluded: set<Card>): seq<Card> {
    var available := Available(excluded);
    var deck := TakeFresh(ShuffleWith(rng, available), excluded, []);
    if |deck| < |available| then Refill(available, deck) else deck
  }

  lemma {:induction false} FilterDistinct<T(!new)>(keep: T -> bool, s: seq<T>)
    requires Distinct(s)
    ensures Distinct(Filter(keep, s))
  {
    if s != [] {
      FilterDistinct(keep, s[1..]);
      FilterMembers(keep, s[1..]);
      assert s[0] !in s[1..];
    }
  }

  lemma AvailableCards(excluded: set<Card>)
    ensures Distinct(Available(excluded))
    ensures forall c: Card :: c in Available(excluded) <==> c !in excluded
  {
    hide Filter;
    FilterDistinct((card: Card) => card !in excluded, StandardDeck());
    FilterMembers((card: Card) => card !in excluded, StandardDeck());
    EveryCard();
  }

  lemma EveryCard()
    ensures forall c: Card :: c in StandardDeck()
  {
    forall c: Card ensures c in StandardDeck() {
      assert StandardDeck()[c] == c;
    }
  }

  lemma {:induction false} TakeFreshKeeps(cards: seq<Option<Card>>, excluded: set<Card>, deck: seq<Card>)
    requires Distinct(deck) && forall c :: c in deck ==> c !in excluded
    ensures var r := TakeFresh(cards, excluded, deck);
      Distinct(r) && forall c :: c in r ==> c !in excluded
  {
    if cards != [] {
      if cards[0].Some? && cards[0].value !in excluded && cards[0].value !in deck {
        TakeFreshKeeps(cards[1..], excluded, deck + [cards[0].value]);
      } else {
        TakeFreshKeeps(cards[1..], excluded, deck);
      }
    }
  }

  lemma {:induction false} RefillCompletes(available: seq<Card>, deck: seq<Card>)
    requires Distinct(deck)
    ensures var r := Refill(available, deck);
      Distinct(r) && forall c :: c in r <==> c in deck || c in available
  {
    if available != [] {
      var next := if available[0] in deck then deck else deck + [available[0]];
      RefillCompletes(available[1..], next);
      assert available == [available[0]] + available[1..];
    }
  }

  /** A list without repeats that stays inside another and is as long uses up all of it. */
  lemma FullDeck(deck: seq<Card>, available: seq<Card>)
    requires Distinct(deck) && Distinct(available)
    requires forall c :: c in deck ==> c in available
    requires |deck| >= |available|
    ensures multiset(deck) == multiset(available)
  {
    DistinctMultiset(deck);
    DistinctMultiset(available);
    assert Elements(deck) <= Elements(available);
    SubsetSize(Elements(deck), Elements(available));
    assert forall c :: c in available ==> c in Elements(available);
    assert forall c :: c in Elements(deck) ==> c in deck;
    DistinctSameElements(deck, available);
  }

  lemma SubsetSize(a: set<Card>, b: set<Card>)
    requires a <= b && |a| >= |b|
    ensures forall c :: c in a <==> c in b
  {
    assert |b - a| == |b| - |a|;
    assert b - a == {};
  }

  /**
   * Whatever the shuffle draws - undefined entries included - the deck built is a
   * permutation of the cards that are not excluded.
   */
  lemma BuildDeckIsComplete(rng: HandRng, excluded: set<Card>)
    ensures Distinct(BuildDeck(rng, excluded))
    ensures multiset(BuildDeck(rng, excluded)) == multiset(Available(excluded))
  {
    var available := Available(excluded);
    AvailableCards(excluded);
    TakeFreshKeeps(ShuffleWith(rng, available), excluded, []);
    RepairCompletes(TakeFresh(ShuffleWith(rng, available), excluded, []), available);
  }

  lemma BuildDeckSize(rng: HandRng, excluded: set<Card>)
    ensures |BuildDeck(rng, excluded)| == |Available(excluded)|
  {
    BuildDeckIsComplete(rng, excluded);
    SameMultisetSize(BuildDeck(rng, excluded), Available(excluded));
  }

  lemma SameMultisetSize<T>(a: seq<T>, b: seq<T>)
    requires multiset(a) == multiset(b)
    ensures |a| == |b|
  {
    assert |multiset(a)| == |multiset(b)|;
  }

  lemma RepairCompletes(deck: seq<Card>, available: seq<Card>)
    requires Distinct(deck) && Distinct(available)
    requires forall c :: c in deck ==> c in available
    ensures var full := if |deck| < |available| then Refill(available, deck) else deck;
      Distinct(full) && multiset(full) == multiset(available)
  {
    if |deck| < |available| {
      RefillCompletes(available, deck);
      DistinctSameElements(Refill(available, deck), available);
    } else {
      FullDeck(deck, available);
    }
  }

  lemma {:induction false} TakeFreshDefined(cards: seq<Option<Card>>, excluded: set<Card>, deck: seq<Card>)
    requires Distinct(Defined(cards)) && forall c :: c in Defined(cards) ==> c !in excluded && c !in deck
    ensures TakeFresh(cards, excluded, deck) == deck + Defined(cards)
  {
    if cards != [] {
      var rest := Defined(cards[1..]);
      if cards[0].Some? {
        var card := cards[0].value;
        assert Defined(cards) == [card] + rest;
        FirstDiffers(card, rest);
        TakeFreshDefined(cards[1..], excluded, deck + [card]);
        assert deck + [card] + rest == deck + ([card] + rest);
      } else {
        assert Defined(cards) == [] + rest == rest;
        TakeFreshDefined(cards[1..], excluded, deck);
      }
    } else {
      assert deck + [] == deck;
    }
  }

  lemma FirstDiffers(card: Card, rest: seq<Card>)
    requires Distinct([card] + rest)
    ensures card !in rest && Distinct(rest) && forall c :: c in rest ==> c in [card] + rest
    ensures card in [card] + rest
  {
    var all := [card] + rest;
    assert rest == all[1..];
    forall k | 0 <= k < |rest| ensures rest[k] != card {
      assert all[0] != all[k + 1];
    }
  }

  function Missing(available: seq<Card>, deck: seq<Card>): seq<Card> {
    Filter((card: Card) => card !in deck, available)
  }

  /** Refilling appends what is missing, in the order of the cards. */
  lemma {:induction false} RefillAppends(available: seq<Card>, deck: seq<Card>)
    requires Distinct(available)
    ensures Refill(available, deck) == deck + Missing(available, deck)
  {
    if available == [] {
      assert deck + [] == deck;
    } else {
      var first, rest := available[0], available[1..];
      assert Distinct(rest);
      if first in deck {
        RefillAppends(rest, deck);
        assert Missing(available, deck) == [] + Missing(rest, deck) == Missing(rest, deck);
      } else {
        RefillAppends(rest, deck + [first]);
        SameMissing(rest, deck, first);
        assert Missing(available, deck) == [first] + Missing(rest, deck);
        assert deck + [first] + Missing(rest, deck) == deck + ([first] + Missing(rest, deck));
      }
    }
  }

  lemma {:induction false} SameMissing(available: seq<Card>, deck: seq<Card>, card: Card)
    requires card !in available
    ensures Missing(available, deck + [card]) == Missing(available, deck)
  {
    if available != [] {
      SameMissing(available[1..], deck, card);
    }
  }

  ghost predicate Rising(cards: seq<Card>) {
    forall i, j :: 0 <= i < j < |cards| ==> cards[i] < cards[j]
  }

  lemma {:induction false} FilterRises(keep: Card -> bool, cards: seq<Card>)
    requires Rising(cards)
    ensures Rising(Filter(keep, cards))
  {
    if cards != [] {
      var rest := Filter(keep, cards[1..]);
      FilterRises(keep, cards[1..]);
      FilterMembers(keep, cards[1..]);
      forall i | 0 <= i < |rest| ensures cards[0] < rest[i] {
        assert rest[i] in cards[1..];
      }
    }
  }

  /** What the shuffle left defined. */
  function Kept(rng: HandRng, excluded: set<Card>): seq<Card> {
    Defined(ShuffleWith(rng, Available(excluded)))
  }

  lemma KeptCards(rng: HandRng, excluded: set<Card>)
    ensures Distinct(Kept(rng, excluded))
    ensures forall c :: c in Kept(rng, excluded) ==> c !in excluded
  {
    hide Shuffled, Available, Defined;
    var available, kept := Available(excluded), Kept(rng, excluded);
    AvailableCards(excluded);
    PicksValid(rng.sha, rng.seed, |available|);
    ShuffleIsPartialPermutation(available, Picks(rng.sha, rng.seed, |available|));
    DistinctMultiset(available);
    forall x ensures multiset(kept)[x] <= 1 {
      assert multiset(kept)[x] <= multiset(available)[x];
    }
    MultisetDistinct(kept);
    forall c | c in kept ensures c !in excluded {
      assert multiset(kept)[c] > 0;
      assert multiset(available)[c] > 0;
      assert c in available;
    }
  }

  /**
   * The deck, exactly: first the cards the shuffle left defined, in the order it left them,
   * then the cards it lost, from the lowest to the highest. With BuildDeckIsComplete this
   * says where every card lies.
   */
  lemma BuildDeckOrder(rng: HandRng, excluded: set<Card>)
    ensures Kept(rng, excluded) <= BuildDeck(rng, excluded)
    ensures Rising(BuildDeck(rng, excluded)[|Kept(rng, excluded)|..])
  {
    hide Kept, Available, Filter;
    var available, kept := Available(excluded), Kept(rng, excluded);
    KeptCards(rng, excluded);
    AvailableCards(excluded);
    TakenIsKept(rng, excluded);
    AvailableRises(excluded);
    if |kept| < |available| {
      RefillAppends(available, kept);
      FilterRises((card: Card) => card !in kept, available);
      assert (kept + Missing(available, kept))[|kept|..] == Missing(available, kept);
    } else {
      assert BuildDeck(rng, excluded)[|kept|..] == [];
    }
  }

  lemma TakenIsKept(rng: HandRng, excluded: set<Card>)
    ensures TakeFresh(ShuffleWith(rng, Available(excluded)), excluded, []) == Kept(rng, excluded)
  {
    hide Shuffled, Available;
    KeptCards(rng, excluded);
    TakeFreshDefined(ShuffleWith(rng, Available(excluded)), excluded, []);
    assert [] + Kept(rng, excluded) == Kept(rng, excluded);
  }

  lemma AvailableRises(excluded: set<Card>)
    ensures Rising(Available(excluded))
  {
    FilterRises((card: Card) => card !in excluded, StandardDeck());
  }

  lemma {:induction false} FilterAll<T(!new)>(keep: T -> bool, s: seq<T>)
    requires forall x :: x in s ==> keep(x)
    ensures Filter(keep, s) == s
  {
    if s != [] {
      FilterAll(keep, s[1..]);
    }
  }

  lemma NothingExcluded(excluded: set<Card>)
    requires excluded == {}
    ensures Available(excluded) == StandardDeck()
  {
    FilterAll((card: Card) => card !in excluded, StandardDeck());
  }

  /**
   * The deck dealt from is the deck the proof reveals exactly when the seed drew no
   * negative index.
   */
  lemma DealtDeckIsRevealed(rng: HandRng)
    ensures Reveal(rng).deck == AllDefined(BuildDeck(rng, {}))
       <==> (forall draw: nat :: draw < 51 ==> PrngWord(rng.sha, rng.seed, draw) >= 0)
  {
    hide BuildDeck, Shuffled;
    var pick := Picks(rng.sha, rng.seed, 52);
    var revealed := Reveal(rng).deck;
    PicksValid(rng.sha, rng.seed, 52);
    ShuffleDefined(StandardDeck(), pick);
    NonNegativeDraws(rng, pick);
    if forall k :: 0 <= k < 52 ==> revealed[k].Some? {
      DefinedShuffleIsDealt(rng);
    }
  }

  /** A generator whose deck is not the one its proof reveals: every digest starts with the byte 128. */
  lemma SpoiltReveal() returns (rng: HandRng)
    ensures rng == Create(rng.sha, rng.seed, rng.nonce)
    ensures Reveal(rng).deck != AllDefined(BuildDeck(rng, {}))
  {
    hide Reveal, BuildDeck, HashCommitment;
    var digest: Digest := seq(32, i requires 0 <= i < 32 => if i == 0 then 128 else 0);
    var sha: Sha256 := _ => digest;
    rng := Create(sha, [], []);
    assert PrngWord(rng.sha, rng.seed, 0) == -0x8000_0000;
    DealtDeckIsRevealed(rng);
  }

  lemma DefinedShuffleIsDealt(rng: HandRng)
    requires forall k :: 0 <= k < 52 ==> Reveal(rng).deck[k].Some?
    ensures Reveal(rng).deck == AllDefined(BuildDeck(rng, {}))
  {
    hide Shuffled, Available, Picks, BuildDeck;
    NothingExcluded({});
    DefinedAll(Reveal(rng).deck);
    BuildDeckOrder(rng, {});
    BuildDeckSize(rng, {});
  }

  function AllDefined(deck: seq<Card>): seq<Option<Card>> {
    seq(|deck|, k requires 0 <= k < |deck| => Some(deck[k]))
  }

  lemma NonNegativeDraws(rng: HandRng, pick: int -> int)
    requires pick == Picks(rng.sha, rng.seed, 52)
    ensures (forall i :: 0 < i < 52 ==> pick(i) >= 0)
       <==> (forall draw: nat :: draw < 51 ==> PrngWord(rng.sha, rng.seed, draw) >= 0)
  {
    forall i | 0 < i < 52 ensures pick(i) >= 0 <==> PrngWord(rng.sha, rng.seed, 51 - i) >= 0 {
      ScaledIndexRange(PrngWord(rng.sha, rng.seed, 51 - i), i);
    }
    forall draw: nat | draw < 51 ensures PrngWord(rng.sha, rng.seed, draw) >= 0 <==> pick(51 - draw) >= 0 {
      assert 51 - (51 - draw) == draw;
    }
  }
}
