/** The record of who won and lost what: backend/src/game/settlement.ts. */
module Journal {
  import opened Sequences
  import opened Rng
  import opened Table
  import opened Machine
  import opened Lifecycle
  import opened Runs
  import opened Hands
  import opened GameState

  datatype Entry = Entry(playerId: string, delta: int)

  class SettlementJournal {
    var entries: seq<Entry>

    constructor ()
      ensures entries == []
    {
      entries := [];
    }

    method Record(entry: Entry)
      modifies this
      ensures entries == old(entries) + [entry]
    {
      entries := entries + [entry];
    }

    method GetAll() returns (all: seq<Entry>)
      ensures all == entries
    {
      all := entries;
    }
  }

  /** What each player has gained since the stacks in `initial`; an unknown player counts from 0. */
  function Deltas(players: seq<Player>, initial: map<string, int>): (r: seq<Entry>)
    ensures |r| == |players|
    ensures forall i :: 0 <= i < |r| ==> r[i].playerId == players[i].id
    ensures forall i :: 0 <= i < |r| ==>
      r[i].delta == players[i].stack - (if players[i].id in initial then initial[players[i].id] else 0)
  {
    seq(|players|, i requires 0 <= i < |players| =>
      Entry(players[i].id, players[i].stack - (if players[i].id in initial then initial[players[i].id] else 0)))
  }

  method RecordDeltas(state: GameState, initial: map<string, int>, journal: SettlementJournal)
    returns (entries: seq<Entry>)
    modifies journal
    ensures entries == Deltas(Views(state.players), initial)
    ensures journal.entries == old(journal.entries) + entries
  {
    entries := [];
    for i := 0 to |state.players|
      invariant entries == Deltas(Views(state.players), initial)[..i]
      invariant journal.entries == old(journal.entries) + entries
    {
      var player := state.players[i];
      var start := if player.id in initial then initial[player.id] else 0;
      var entry := Entry(player.id, player.stack - start);
      journal.Record(entry);
      entries := entries + [entry];
    }
  }

  function Amount(entries: seq<Entry>): (r: seq<int>)
    ensures |r| == |entries| && forall i :: 0 <= i < |r| ==> r[i] == entries[i].delta
  {
    seq(|entries|, i requires 0 <= i < |entries| => entries[i].delta)
  }

  /** The stacks of a table, by id. */
  ghost predicate StacksById(initial: map<string, int>, players: seq<Player>) {
    forall i :: 0 <= i < |players| ==> players[i].id in initial && initial[players[i].id] == players[i].stack
  }

  lemma DeltasDiffer(before: seq<Player>, after: seq<Player>, initial: map<string, int>)
    requires Ids(after) == Ids(before) && StacksById(initial, before)
    ensures Sum(Amount(Deltas(after, initial))) == Sum(Stacks(after)) - Sum(Stacks(before))
  {
    var deltas := Amount(Deltas(after, initial));
    assert |after| == |Ids(after)| == |before|;
    forall i | 0 <= i < |after| ensures Stacks(after)[i] == deltas[i] + Stacks(before)[i] {
      assert Ids(after)[i] == Ids(before)[i];
    }
    SumAdd(deltas, Stacks(before), Stacks(after));
  }

  /**
   * The journal of a settled hand balances: one entry per player in seat order, and the
   * entries add up to minus what dead pots swallowed - to zero exactly when no side pot
   * had lost its last contender.
   */
  lemma SettledDeltasBalance(start: State, actions: seq<Action>, rng: HandRng, initial: map<string, int>)
    requires Fresh(start) && StacksById(initial, start.players)
    requires Run(start, actions, rng).phase == Settle
    ensures var entries := Deltas(Run(start, actions, rng).players, initial);
      && |entries| == |start.players|
      && (forall i :: 0 <= i < |entries| ==> entries[i].playerId == start.players[i].id)
      && Sum(Amount(entries)) == -RunLost(start, actions, rng)
      && (Sum(Amount(entries)) == 0 <==> !SettlesDeadPot(start, actions, rng))
      && (Sum(Amount(entries)) == 0 <==> !SomeFoldOrphans(start, actions, rng))
  {
    hide Run, Inv, Fresh;
    var t := Run(start, actions, rng);
    RunPlayersStay(start, actions, rng);
    FreshHasNoPot(start);
    ReachableStates(start, actions, rng);
    ChipsConserved(start, actions, rng);
    HandsConserveChips(start, actions, rng);
    DeltasDiffer(start.players, t.players, initial);
    assert forall i :: 0 <= i < |t.players| ==> Ids(t.players)[i] == Ids(start.players)[i];
    assert |Ids(t.players)| == |t.players|;
  }

  lemma FreshHasNoPot(s: State)
    requires Fresh(s)
    ensures s.pot == 0
  {
  }
}
