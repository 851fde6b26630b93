/** The records the machine updates in place: backend/src/game/state-machine.ts. */
module GameState {
  import opened Options
  import opened Verify
  import opened Table

  class PlayerState {
    const id: string
    var stack: int
    var folded: bool
    var bet: int
    var allIn: bool
    var holeCards: Option<seq<Card>>

    constructor (id: string, stack: int)
      ensures this.id == id && View() == Player(id, stack, false, 0, false, None)
    {
      this.id := id;
      this.stack, this.folded, this.bet, this.allIn, this.holeCards := stack, false, 0, false, None;
    }

    function View(): Player
      reads this
    {
      Player(id, stack, folded, bet, allIn, holeCards)
    }
  }

  /** The values of the records, in seat order. */
  function Views(players: seq<PlayerState>): (r: seq<Player>)
    reads players
    ensures |r| == |players| && forall i :: 0 <= i < |r| ==> r[i] == players[i].View()
  {
    seq(|players|, i requires 0 <= i < |players| reads players => players[i].View())
  }

  class GameState {
    var phase: Phase
    var street: Street
    var pot: int
    var sidePots: seq<SidePot>
    var currentBet: int
    const players: seq<PlayerState>
    var deck: seq<Card>
    var communityCards: seq<Card>

    /** A table before its first hand. */
    constructor (players: seq<PlayerState>)
      ensures this.players == players
      ensures phase == WaitBlinds && street == Preflop && pot == 0 && sidePots == [] && currentBet == 0
      ensures deck == [] && communityCards == []
    {
      this.players := players;
      phase, street, pot, sidePots, currentBet := WaitBlinds, Preflop, 0, [], 0;
      deck, communityCards := [], [];
    }

    /** Ids are the keys of every lookup, so no two players share one; so no record is seated twice. */
    ghost predicate Seated() {
      forall i, j :: 0 <= i < j < |players| ==> players[i].id != players[j].id
    }

    function View(blindsPosted: set<string>): State
      reads this, players
    {
      State(phase, street, pot, sidePots, currentBet, Views(players), deck, communityCards, blindsPosted)
    }
  }
}
