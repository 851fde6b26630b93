/** The per-hand generator and its commit-reveal proof: backend/src/game/rng.ts. */
module Rng {
  import opened Options
  import opened Verify

  datatype HandRng = HandRng(sha: Sha256, seed: seq<Byte>, nonce: seq<Byte>, commitment: string)

  /** The constructor; the random seed and nonce are parameters. */
  function Create(sha: Sha256, seed: seq<Byte>, nonce: seq<Byte>): HandRng {
    HandRng(sha, seed, nonce, HashCommitment(sha, seed, nonce))
  }

  function ShuffleWith<T>(rng: HandRng, items: seq<T>): (r: seq<Option<T>>)
    ensures |r| == |items|
  {
    Shuffled(items, Picks(rng.sha, rng.seed, |items|))
  }

  function Reveal(rng: HandRng): HandProof {
    HandProof(rng.commitment, BytesToHex(rng.seed), BytesToHex(rng.nonce), ShuffleWith(rng, StandardDeck()))
  }

  /**
   * Every proof revealed is accepted, for any seed, nonce and hash function, and it
   * gives the seed back, so whoever checks it replays the very same shuffle.
   */
  lemma RevealIsAccepted(sha: Sha256, seed: seq<Byte>, nonce: seq<Byte>)
    ensures var proof := Reveal(Create(sha, seed, nonce));
      && VerifyProof(sha, proof)
      && proof.deck == Shuffled(StandardDeck(), Picks(sha, FromHex(proof.seed), 52))
  {
    BytesRoundTrip(seed);
    BytesRoundTrip(nonce);
  }
}
