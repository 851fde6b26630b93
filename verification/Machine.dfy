/** One step of the hand state machine, on values: backend/src/game/state-machine.ts, apply. */
module Machine {
  import opened Options
  import opened Sequences
  import opened Verify
  import opened Rng
  import opened Deck
  import opened Table
  import opened Layers
  import opened Settlement

  datatype Outcome = Accepted(state: State) | Rejected(error: Error)

  /** The first player with the id. */
  function FindPlayer(players: seq<Player>, id: string): (r: Option<nat>)
    ensures r.Some? ==> r.value < |players| && players[r.value].id == id
    ensures r.None? ==> forall i :: 0 <= i < |players| ==> players[i].id != id
  {
    if players == [] then None
    else if players[0].id == id then Some(0)
    else match FindPlayer(players[1..], id) case None => None case Some(i) => Some(i + 1)
  }

  function PlaceBet(s: State, i: nat, amount: int): Outcome
    requires i < |s.players|
  {
    var p := s.players[i];
    if amount <= 0 then Rejected(AmountNotPositive)
    else if amount > p.stack then Rejected(BetExceedsStack)
    else
      var q := p.(stack := p.stack - amount, bet := p.bet + amount, allIn := p.allIn || p.stack == amount);
      Accepted(s.(
        players := s.players[i := q],
        pot := s.pot + amount,
        currentBet := if q.bet > s.currentBet then q.bet else s.currentBet))
  }

  function ClearedBets(players: seq<Player>): (r: seq<Player>)
    ensures |r| == |players| && forall i :: 0 <= i < |r| ==> r[i] == players[i].(bet := 0)
  {
    seq(|players|, i requires 0 <= i < |players| => players[i].(bet := 0))
  }

  function FinishRound(s: State): State {
    if Bettors(s.players) == [] then s.(currentBet := 0)
    else s.(sidePots := s.sidePots + RoundPots(s.players), players := ClearedBets(s.players), currentBet := 0)
  }

  // ---------- dealing ----------

  /** The last `n` cards, in the order they are popped. */
  function Popped(deck: seq<Card>, n: nat): (r: seq<Card>)
    requires n <= |deck|
    ensures |r| == n
  {
    if n == 0 then [] else [deck[|deck| - 1]] + Popped(deck[..|deck| - 1], n - 1)
  }

  function AtMost(n: nat, limit: nat): nat {
    if n <= limit then n else limit
  }

  /** Two cards to each player in seat order; an empty deck has none to give. */
  function DealHoles(players: seq<Player>, deck: seq<Card>): (r: (seq<Player>, seq<Card>))
    ensures |r.0| == |players|
  {
    if players == [] then ([], deck)
    else
      var n := AtMost(2, |deck|);
      var (rest, left) := DealHoles(players[1..], deck[..|deck| - n]);
      ([players[0].(holeCards := Some(Popped(deck, n)))] + rest, left)
  }

  function Held(p: Player): seq<Card> {
    if p.holeCards.Some? then p.holeCards.value else []
  }

  function AllHeld(players: seq<Player>): seq<Card> {
    if players == [] then [] else Held(players[0]) + AllHeld(players[1..])
  }

  function UsedCards(s: State): set<Card> {
    Elements(s.community) + Elements(AllHeld(s.players))
  }

  /** The deck to deal from: the present one, or a rebuilt one when its size is wrong or too small. */
  function DeckFor(s: State, n: nat, rng: HandRng): (r: Option<seq<Card>>)
    ensures r.Some? ==> |r.value| >= n
  {
    var used := UsedCards(s);
    if |s.deck| != 52 - |used| || |s.deck| < n then
      BuildDeckSize(rng, used);
      if |Available(used)| < n then None else Some(BuildDeck(rng, used))
    else Some(s.deck)
  }

  function ExpectedBeforeDeal(s: State): nat {
    match s.street
    case Flop => 0
    case Turn => 3
    case River => 4
    case _ => |s.community|
  }

  function DealCommunity(s: State, n: nat, rng: HandRng): Outcome {
    if |s.community| != ExpectedBeforeDeal(s) then Rejected(AlreadyDealt)
    else
      match DeckFor(s, n, rng)
      case None => Rejected(InsufficientCards)
      case Some(deck) =>
        Accepted(s.(deck := deck[..|deck| - n], community := s.community + Popped(deck, n)))
  }

  lemma DealsFrom(s: State, n: nat, rng: HandRng)
    ensures DealCommunity(s, n, rng) ==
      if |s.community| != ExpectedBeforeDeal(s) then Rejected(AlreadyDealt)
      else if DeckFor(s, n, rng).None? then Rejected(InsufficientCards)
      else
        var deck := DeckFor(s, n, rng).value;
        Accepted(s.(deck := deck[..|deck| - n], community := s.community + Popped(deck, n)))
  {
  }

  // ---------- the step ----------

  function NextStreet(street: Street): Street {
    match street
    case Preflop => Flop
    case Flop => Turn
    case Turn => River
    case River => LastStreet
    case LastStreet => LastStreet
  }

  /** The cards go out and the first street opens. */
  function Started(s: State, rng: HandRng): State {
    var (players, deck) := DealHoles(s.players, BuildDeck(rng, {}));
    s.(players := players, deck := deck, phase := Deal, blindsPosted := {})
  }

  function BlindStep(s: State, a: Action, rng: HandRng): Outcome {
    if !a.PostBlind? then Rejected(InvalidAction)
    else
      match FindPlayer(s.players, a.playerId)
      case None => Rejected(UnknownPlayer)
      case Some(i) =>
        match PlaceBet(s, i, a.amount)
        case Rejected(e) => Rejected(e)
        case Accepted(t) =>
          var posted := t.(blindsPosted := t.blindsPosted + {a.playerId});
          Accepted(if |posted.blindsPosted| == |posted.players| then Started(posted, rng) else posted)
  }

  function CardsToDeal(street: Street): nat {
    match street
    case Flop => 3
    case Turn => 1
    case River => 1
    case _ => 0
  }

  function DealStep(s: State, a: Action, rng: HandRng): Outcome {
    if !a.Next? then Rejected(InvalidAction)
    else if CardsToDeal(s.street) == 0 then Accepted(s.(phase := BettingRound))
    else
      match DealCommunity(s, CardsToDeal(s.street), rng)
      case Rejected(e) => Rejected(e)
      case Accepted(t) => Accepted(t.(phase := BettingRound))
  }

  function BetStep(s: State, id: string, amount: int): Outcome {
    match FindPlayer(s.players, id)
    case None => Rejected(UnknownPlayer)
    case Some(i) => PlaceBet(s, i, amount)
  }

  function CallStep(s: State, id: string): Outcome {
    match FindPlayer(s.players, id)
    case None => Rejected(UnknownPlayer)
    case Some(i) => PlaceBet(s, i, s.currentBet - s.players[i].bet)
  }

  function FoldStep(s: State, id: string): Outcome {
    match FindPlayer(s.players, id)
    case None => Rejected(UnknownPlayer)
    case Some(i) => Accepted(s.(players := s.players[i := s.players[i].(folded := true)]))
  }

  function CloseStep(s: State): State {
    FinishRound(s).(
      street := NextStreet(s.street),
      phase := if s.street == River then Showdown else Deal)
  }

  /** With at most one player left unfolded the hand goes straight to the showdown. */
  function EndIfAlone(s: State): State {
    if s.phase == BettingRound && |ActivePlayers(s.players)| <= 1 then
      (if exists i :: 0 <= i < |s.players| && s.players[i].bet > 0 then FinishRound(s) else s.(currentBet := 0))
        .(phase := Showdown)
    else s
  }

  function BettingStep(s: State, a: Action): Outcome {
    var done := match a
      case PostBlind(id, amount) => BetStep(s, id, amount)
      case Bet(id, amount) => BetStep(s, id, amount)
      case Raise(id, amount) => BetStep(s, id, amount)
      case Call(id) => CallStep(s, id)
      case Check(_) => Accepted(s)
      case Fold(id) => FoldStep(s, id)
      case Next => Accepted(CloseStep(s));
    match done
    case Rejected(e) => Rejected(e)
    case Accepted(t) => Accepted(EndIfAlone(t))
  }

  function ShowdownStep(s: State, a: Action): Outcome {
    if a.Next? then Accepted(SettledState(s).(phase := Settle)) else Rejected(InvalidAction)
  }

  function ResetPlayers(players: seq<Player>): (r: seq<Player>)
    ensures |r| == |players|
    ensures forall i :: 0 <= i < |r| ==>
      r[i] == players[i].(folded := false, bet := 0, allIn := false, holeCards := None)
  {
    seq(|players|, i requires 0 <= i < |players| =>
      players[i].(folded := false, bet := 0, allIn := false, holeCards := None))
  }

  function SettleStep(s: State, a: Action): Outcome {
    if a.Next? then
      Accepted(State(NextHand, Preflop, 0, [], 0, ResetPlayers(s.players), [], [], {}))
    else Rejected(InvalidAction)
  }

  function Step(s: State, a: Action, rng: HandRng): Outcome {
    match s.phase
    case WaitBlinds => BlindStep(s, a, rng)
    case NextHand => BlindStep(s, a, rng)
    case Deal => DealStep(s, a, rng)
    case BettingRound => BettingStep(s, a)
    case Showdown => ShowdownStep(s, a)
    case Settle => SettleStep(s, a)
  }

  /** A rejected action leaves the state as it was. */
  function After(s: State, a: Action, rng: HandRng): State {
    match Step(s, a, rng)
    case Accepted(t) => t
    case Rejected(_) => s
  }

  function Run(s: State, actions: seq<Action>, rng: HandRng): State
    decreases |actions|
  {
    if actions == [] then s else Run(After(s, actions[0], rng), actions[1..], rng)
  }
}
