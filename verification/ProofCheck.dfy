/** The command-line check of a finished hand against its log: bin/verify-proof.ts. */
module ProofCheck {
  import opened Sequences
  import opened Verify
  import opened Rng
  import opened Deck
  import opened Table
  import opened Settlement
  import opened Machine
  import opened Lifecycle
  import opened Runs
  import opened Hands
  import opened Engine

  datatype Verdict = Matches | CommitmentMismatch | DeckNotFound | DeckMismatch

  /** The deck of the first logged state, compared with the deck the revealed seed shuffles. */
  function CheckHand(sha: Sha256, proof: HandProof, log: seq<LogEntry>): Verdict {
    if !VerifyProof(sha, proof) then CommitmentMismatch
    else if log == [] then DeckNotFound
    else if AllDefined(log[0].before.deck) == Shuffled(StandardDeck(), Picks(sha, FromHex(proof.seed), 52)) then Matches
    else DeckMismatch
  }

  /** What the check accepts: for a revealed proof, exactly the logs that start from the deck it reveals. */
  lemma CheckMeaning(sha: Sha256, seed: seq<Byte>, nonce: seq<Byte>, log: seq<LogEntry>)
    ensures var proof := Reveal(Create(sha, seed, nonce));
      CheckHand(sha, proof, log) == Matches <==> log != [] && AllDefined(log[0].before.deck) == proof.deck
  {
    hide Shuffled;
    RevealIsAccepted(sha, seed, nonce);
  }

  /** No state shows the whole deck: it is empty until the blinds are in, and then partly in the players' hands. */
  lemma DeckNeverWhole(s: State, a: Action, rng: HandRng)
    requires Inv(s) && |s.deck| < 52
    ensures Inv(After(s, a, rng)) && |After(s, a, rng).deck| < 52
  {
    hide Inv, Step;
    StepKeeps(s, a, rng);
    if CardsOut(After(s, a, rng).phase) {
      DeckShort(After(s, a, rng));
    } else {
      DeckLeftAlone(s, a, rng);
    }
  }

  lemma DeckShort(s: State)
    requires Inv(s) && CardsOut(s.phase)
    ensures |s.deck| < 52
  {
    DeckSize(s);
  }

  lemma DeckLeftAlone(s: State, a: Action, rng: HandRng)
    requires !CardsOut(After(s, a, rng).phase)
    ensures After(s, a, rng).deck == s.deck || After(s, a, rng).deck == []
  {
    hide FinishRound, SettledState, DealCommunity, DealHoles, BuildDeck;
  }

  lemma PlayedNeverWhole(s: State, a: Action, rng: HandRng)
    requires Inv(s) && |s.deck| < 52
    ensures Inv(Played(s, a, rng)) && |Played(s, a, rng).deck| < 52
  {
    hide Inv, After, Played;
    PlayedIsRun(s, a, rng);
    var moves, t := Moves(s, a, rng), After(s, a, rng);
    DeckNeverWhole(s, a, rng);
    DeckNeverWhole(t, Next, rng);
    assert moves[1..] == if |moves| == 2 then [Next] else [];
    assert [Next][1..] == [];
    assert Run(t, [Next], rng) == After(t, Next, rng);
  }

  lemma {:induction false} LoggedDecksShort(s: State, actions: seq<Action>, rng: HandRng)
    requires Inv(s) && |s.deck| < 52
    ensures forall e :: e in Logged(s, actions, rng) ==> |e.before.deck| < 52 && |e.after.deck| < 52
    decreases |actions|
  {
    hide Inv, Played, Step;
    if actions != [] {
      PlayedNeverWhole(s, actions[0], rng);
      LoggedDecksShort(Played(s, actions[0], rng), actions[1..], rng);
    }
  }

  /**
   * The check refuses every hand the engine plays, whatever the seed: no state of the log,
   * not only the first one it looks at, shows the deck it compares with.
   */
  lemma EveryHandIsRefused(
    ids: seq<string>, stack: int, actions: seq<Action>, sha: Sha256, seed: seq<Byte>, nonce: seq<Byte>)
    requires |ids| >= 2 && Distinct(ids) && stack >= 0
    ensures var rng := Create(sha, seed, nonce);
      var log := Logged(Opening(ids, stack), actions, rng);
      && CheckHand(sha, Reveal(rng), log) == (if log == [] then DeckNotFound else DeckMismatch)
      && forall e :: e in log ==>
           AllDefined(e.before.deck) != Reveal(rng).deck && AllDefined(e.after.deck) != Reveal(rng).deck
  {
    hide Fresh, Inv, Logged, Shuffled;
    var rng := Create(sha, seed, nonce);
    var start := Opening(ids, stack);
    OpeningIsFresh(ids, stack);
    FreshHolds(start);
    LoggedDecksShort(start, actions, rng);
    RevealIsAccepted(sha, seed, nonce);
    var log := Logged(start, actions, rng);
    if log != [] {
      assert log[0] in log;
    }
  }
}
