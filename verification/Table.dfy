/** The values the hand state machine works on: backend/src/game/state-machine.ts. */
module Table {
  import opened Options
  import opened Sequences
  import opened Verify

  datatype Street = Preflop | Flop | Turn | River | LastStreet

  datatype Phase = WaitBlinds | Deal | BettingRound | Showdown | Settle | NextHand

  datatype Player = Player(id: string, stack: int, folded: bool, bet: int, allIn: bool, holeCards: Option<seq<Card>>)

  datatype SidePot = SidePot(amount: int, players: seq<string>, contributions: map<string, int>)

  datatype Action =
    | PostBlind(playerId: string, amount: int)
    | Bet(playerId: string, amount: int)
    | Raise(playerId: string, amount: int)
    | Call(playerId: string)
    | Check(playerId: string)
    | Fold(playerId: string)
    | Next

  datatype Error =
    | InvalidAction | UnknownPlayer | AmountNotPositive | BetExceedsStack | AlreadyDealt | InsufficientCards

  datatype State = State(
    phase: Phase,
    street: Street,
    pot: int,
    sidePots: seq<SidePot>,
    currentBet: int,
    players: seq<Player>,
    deck: seq<Card>,
    community: seq<Card>,
    blindsPosted: set<string>)

  function Ids(players: seq<Player>): (r: seq<string>)
    ensures |r| == |players| && forall i :: 0 <= i < |r| ==> r[i] == players[i].id
  {
    seq(|players|, i requires 0 <= i < |players| => players[i].id)
  }

  function Stacks(players: seq<Player>): (r: seq<int>)
    ensures |r| == |players| && forall i :: 0 <= i < |r| ==> r[i] == players[i].stack
  {
    seq(|players|, i requires 0 <= i < |players| => players[i].stack)
  }

  function Bets(players: seq<Player>): (r: seq<int>)
    ensures |r| == |players| && forall i :: 0 <= i < |r| ==> r[i] == players[i].bet
  {
    seq(|players|, i requires 0 <= i < |players| => players[i].bet)
  }

  function Amounts(pots: seq<SidePot>): (r: seq<int>)
    ensures |r| == |pots| && forall i :: 0 <= i < |r| ==> r[i] == pots[i].amount
  {
    seq(|pots|, i requires 0 <= i < |pots| => pots[i].amount)
  }

  function ActivePlayers(players: seq<Player>): seq<Player> {
    Filter((p: Player) => !p.folded, players)
  }

  /** No two players share an id. */
  ghost predicate DistinctIds(players: seq<Player>) {
    forall i, j :: 0 <= i < j < |players| ==> players[i].id != players[j].id
  }

  predicate Contends(players: seq<Player>, pot: SidePot, i: nat)
    requires i < |players|
  {
    !players[i].folded && players[i].id in pot.players
  }

  /** Somebody who has not folded may win the pot. */
  predicate HasContender(players: seq<Player>, pot: SidePot) {
    exists i :: 0 <= i < |players| && Contends(players, pot, i)
  }
}
