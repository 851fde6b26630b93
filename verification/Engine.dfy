/** The engine that plays a table, logs it and records who won what: backend/src/game/engine/index.ts. */
module Engine {
  import opened Options
  import opened Sequences
  import opened Rng
  import opened Table
  import opened Settlement
  import opened Deck
  import opened Machine
  import opened Chips
  import opened Lifecycle
  import opened Runs
  import opened GameState
  import opened SettlePots
  import opened HandStateMachine
  import opened Journal

  // ---------- the table it opens ----------

  function Seats(ids: seq<string>, stack: int): (r: seq<Player>)
    ensures |r| == |ids|
    ensures forall i :: 0 <= i < |r| ==> r[i] == Player(ids[i], stack, false, 0, false, None)
  {
    seq(|ids|, i requires 0 <= i < |ids| => Player(ids[i], stack, false, 0, false, None))
  }

  function Opening(ids: seq<string>, stack: int): State {
    State(WaitBlinds, Preflop, 0, [], 0, Seats(ids, stack), [], [], {})
  }

  function InitialStacks(ids: seq<string>, stack: int): map<string, int> {
    map id | id in ids :: stack
  }

  /** Every table opened for two or more different players starts where the theorems about runs start. */
  lemma OpeningIsFresh(ids: seq<string>, stack: int)
    requires |ids| >= 2 && Distinct(ids) && stack >= 0
    ensures Fresh(Opening(ids, stack)) && Total(Opening(ids, stack)) == stack * |ids|
    ensures StacksById(InitialStacks(ids, stack), Opening(ids, stack).players)
  {
    EqualStacks(Stacks(Seats(ids, stack)), stack);
  }

  lemma {:induction false} EqualStacks(stacks: seq<int>, stack: int)
    requires forall i :: 0 <= i < |stacks| ==> stacks[i] == stack
    ensures Sum(stacks) == stack * |stacks|
  {
    if stacks != [] {
      EqualStacks(stacks[1..], stack);
      OneMore(stack, |stacks| - 1);
    }
  }

  // ---------- one action ----------

  /** What was done, and the table before and after it. */
  datatype LogEntry = LogEntry(action: Action, before: State, after: State)

  /** An accepted action, moved on to the showdown when one player is left. */
  function Advanced(t: State): State {
    if |ActivePlayers(t.players)| <= 1 && t.phase == BettingRound then t.(phase := Showdown) else t
  }

  /** The table after an action: a showdown is played out and settled at once, and settled once more. */
  function Played(s: State, a: Action, rng: HandRng): State {
    match Step(s, a, rng)
    case Rejected(_) => s
    case Accepted(t) =>
      if Advanced(t).phase == Showdown then SettledState(After(Advanced(t), Next, rng)) else Advanced(t)
  }

  /** The action settles a hand. */
  predicate Settles(s: State, a: Action, rng: HandRng) {
    match Step(s, a, rng)
    case Rejected(_) => false
    case Accepted(t) => Advanced(t).phase == Showdown && ActivePlayers(After(Advanced(t), Next, rng).players) != []
  }

  function PlayedRun(s: State, actions: seq<Action>, rng: HandRng): State
    decreases |actions|
  {
    if actions == [] then s else PlayedRun(Played(s, actions[0], rng), actions[1..], rng)
  }

  /** The log of a run: one entry for each accepted action. */
  function Logged(s: State, actions: seq<Action>, rng: HandRng): seq<LogEntry>
    decreases |actions|
  {
    if actions == [] then []
    else
      (if Step(s, actions[0], rng).Accepted? then [LogEntry(actions[0], s, Played(s, actions[0], rng))] else [])
      + Logged(Played(s, actions[0], rng), actions[1..], rng)
  }

  /** What one action of the engine has the machine do: the action, and `next` when it leads to the showdown. */
  function Moves(s: State, a: Action, rng: HandRng): seq<Action> {
    if Step(s, a, rng).Accepted? && After(s, a, rng).phase == Showdown then [a, Next] else [a]
  }

  lemma PlayedIsRun(s: State, a: Action, rng: HandRng)
    requires Inv(s)
    ensures Played(s, a, rng) == Run(s, Moves(s, a, rng), rng) && Inv(Played(s, a, rng))
  {
    hide Inv, Step, SettledState, ActivePlayers;
    var t := After(s, a, rng);
    StepKeeps(s, a, rng);
    NoneAdvanced(t);
    assert Moves(s, a, rng)[1..] == if |Moves(s, a, rng)| == 2 then [Next] else [];
    if Step(s, a, rng).Accepted? && t.phase == Showdown {
      StepKeeps(t, Next, rng);
      SettledOnce(t, rng);
      assert [Next][1..] == [];
      assert Run(t, [Next], rng) == After(t, Next, rng);
    } else {
      assert Run(t, [], rng) == t;
    }
  }

  lemma NoneAdvanced(t: State)
    requires Inv(t)
    ensures Advanced(t) == t
  {
  }

  lemma SettledOnce(t: State, rng: HandRng)
    requires Inv(t) && t.phase == Showdown && Inv(After(t, Next, rng))
    ensures SettledState(After(t, Next, rng)) == After(t, Next, rng)
  {
    hide SettledState;
    NothingToSettle(After(t, Next, rng));
  }

  lemma {:induction false} RunAppend(s: State, a: seq<Action>, b: seq<Action>, rng: HandRng)
    ensures Run(s, a + b, rng) == Run(Run(s, a, rng), b, rng)
    decreases |a|
  {
    hide After;
    if a == [] {
      assert a + b == b;
    } else {
      assert (a + b)[0] == a[0] && (a + b)[1..] == a[1..] + b;
      RunAppend(After(s, a[0], rng), a[1..], b, rng);
    }
  }

  /** What a play has the machine do, action by action. */
  function PlayedMoves(s: State, actions: seq<Action>, rng: HandRng): seq<Action>
    decreases |actions|
  {
    if actions == [] then []
    else Moves(s, actions[0], rng) + PlayedMoves(Played(s, actions[0], rng), actions[1..], rng)
  }

  /** Whatever is played through the engine is a run of the machine, so all that holds of runs holds of it. */
  lemma {:induction false} PlayedRunIsRun(s: State, actions: seq<Action>, rng: HandRng)
    requires Inv(s)
    ensures PlayedRun(s, actions, rng) == Run(s, PlayedMoves(s, actions, rng), rng)
    ensures Inv(PlayedRun(s, actions, rng))
    decreases |actions|
  {
    hide Inv, Run, Played, Moves;
    if actions == [] {
      NothingRun(s, rng);
    } else {
      var t := Played(s, actions[0], rng);
      PlayedIsRun(s, actions[0], rng);
      PlayedRunIsRun(t, actions[1..], rng);
      RunAppend(s, Moves(s, actions[0], rng), PlayedMoves(t, actions[1..], rng), rng);
    }
  }

  lemma NothingRun(s: State, rng: HandRng)
    ensures Run(s, [], rng) == s
  {
  }

  // ---------- chips and folds ----------

  /** One of the actions sent to the engine is a fold that orphans a side pot at its time. */
  ghost predicate PlayedFoldOrphans(s: State, actions: seq<Action>, rng: HandRng)
    decreases |actions|
  {
    actions != [] && (Orphans(s, actions[0]) || PlayedFoldOrphans(Played(s, actions[0], rng), actions[1..], rng))
  }

  lemma {:induction false} SomeFoldAppend(s: State, a: seq<Action>, b: seq<Action>, rng: HandRng)
    ensures SomeFoldOrphans(s, a + b, rng) <==> SomeFoldOrphans(s, a, rng) || SomeFoldOrphans(Run(s, a, rng), b, rng)
    decreases |a|
  {
    hide After, Orphans;
    if a == [] {
      assert a + b == b;
    } else {
      assert (a + b)[0] == a[0] && (a + b)[1..] == a[1..] + b;
      SomeFoldAppend(After(s, a[0], rng), a[1..], b, rng);
    }
  }

  lemma MovesOrphan(s: State, a: Action, rng: HandRng)
    ensures SomeFoldOrphans(s, Moves(s, a, rng), rng) <==> Orphans(s, a)
  {
    hide After, Step;
    var t := After(s, a, rng);
    assert Moves(s, a, rng)[1..] == if |Moves(s, a, rng)| == 2 then [Next] else [];
    assert [Next][1..] == [];
    assert !SomeFoldOrphans(After(t, Next, rng), [], rng);
    assert !Orphans(t, Next);
    assert !SomeFoldOrphans(t, [Next], rng);
    assert !SomeFoldOrphans(t, [], rng);
  }

  /** The moves add no fold of their own and leave none out. */
  lemma {:induction false} PlayedFolds(s: State, actions: seq<Action>, rng: HandRng)
    requires Inv(s)
    ensures SomeFoldOrphans(s, PlayedMoves(s, actions, rng), rng) <==> PlayedFoldOrphans(s, actions, rng)
    decreases |actions|
  {
    hide Inv, Run, Played, Moves, Orphans;
    if actions != [] {
      var t := Played(s, actions[0], rng);
      PlayedIsRun(s, actions[0], rng);
      PlayedFolds(t, actions[1..], rng);
      SomeFoldAppend(s, Moves(s, actions[0], rng), PlayedMoves(t, actions[1..], rng), rng);
      MovesOrphan(s, actions[0], rng);
    }
  }

  /**
   * A table the engine has opened keeps its chips, over any play that ends between hands,
   * exactly when none of the folds sent to it orphans a pot.
   */
  lemma PlayConservesChips(ids: seq<string>, stack: int, actions: seq<Action>, rng: HandRng)
    requires |ids| >= 2 && Distinct(ids) && stack >= 0
    requires !HandInProgress(PlayedRun(Opening(ids, stack), actions, rng).phase)
    ensures Total(PlayedRun(Opening(ids, stack), actions, rng)) == stack * |ids|
       <==> !PlayedFoldOrphans(Opening(ids, stack), actions, rng)
  {
    hide Fresh, Inv, Run, PlayedRun, PlayedFoldOrphans, PlayedMoves, SomeFoldOrphans, Total, Opening;
    var start := Opening(ids, stack);
    OpeningIsFresh(ids, stack);
    FreshHolds(start);
    PlayedRunIsRun(start, actions, rng);
    PlayedFolds(start, actions, rng);
    HandsConserveChips(start, PlayedMoves(start, actions, rng), rng);
  }

  // ---------- log and journal ----------

  /** Played through the engine, a hand is settled exactly by the action that ends it. */
  lemma SettlesMeaning(s: State, a: Action, rng: HandRng)
    requires Inv(s) && s.phase != Showdown && s.phase != Settle
    ensures Settles(s, a, rng) <==> Played(s, a, rng).phase == Settle
    ensures Played(s, a, rng).phase != Showdown
  {
    hide Inv, Step, SettledState, ActivePlayers;
    var t := After(s, a, rng);
    StepKeeps(s, a, rng);
    NoneAdvanced(t);
    NotSettledYet(s, a, rng);
    if Step(s, a, rng).Accepted? && t.phase == Showdown {
      StepKeeps(t, Next, rng);
      SettledOnce(t, rng);
      SettledHand(t, rng);
    }
  }

  lemma NotSettledYet(s: State, a: Action, rng: HandRng)
    requires s.phase != Showdown && s.phase != Settle
    ensures After(s, a, rng).phase != Settle
  {
    hide FinishRound, DealHoles, BuildDeck, DealCommunity, ActivePlayers;
  }

  lemma SettledHand(t: State, rng: HandRng)
    requires Inv(t) && t.phase == Showdown
    ensures After(t, Next, rng).phase == Settle && ActivePlayers(After(t, Next, rng).players) != []
  {
    hide Scores, Payouts;
    SameSeatsActive(t.players, SettledState(t).players);
  }

  function ActionsOf(log: seq<LogEntry>): (r: seq<Action>)
    ensures |r| == |log|
  {
    if log == [] then [] else [log[0].action] + ActionsOf(log[1..])
  }

  /** Each entry follows from the one before it, from the table at the start to the one at the end. */
  ghost predicate Follows(s: State, log: seq<LogEntry>, end: State, rng: HandRng)
    decreases |log|
  {
    if log == [] then end == s
    else
      && log[0].before == s && Step(s, log[0].action, rng).Accepted? && log[0].after == Played(s, log[0].action, rng)
      && Follows(log[0].after, log[1..], end, rng)
  }

  /**
   * The log is the play: it goes from the first table to the last in accepted actions, and
   * replaying just its actions gives the same tables and the same log.
   */
  lemma {:induction false} LogReplays(s: State, actions: seq<Action>, rng: HandRng)
    ensures var log := Logged(s, actions, rng);
      && Follows(s, log, PlayedRun(s, actions, rng), rng)
      && PlayedRun(s, ActionsOf(log), rng) == PlayedRun(s, actions, rng)
      && Logged(s, ActionsOf(log), rng) == log
    decreases |actions|
  {
    hide Step, Advanced, SettledState, After;
    if actions != [] {
      var a, t := actions[0], Played(s, actions[0], rng);
      LogReplays(t, actions[1..], rng);
      var rest := Logged(t, actions[1..], rng);
      if Step(s, a, rng).Accepted? {
        var log := [LogEntry(a, s, t)] + rest;
        assert Logged(s, actions, rng) == log && log[1..] == rest;
        assert ActionsOf(log) == [a] + ActionsOf(rest);
        assert ([a] + ActionsOf(rest))[1..] == ActionsOf(rest);
      } else {
        assert Logged(s, actions, rng) == [] + rest == rest;
      }
    }
  }

  // ---------- the engine ----------

  /** New records for the players, in order. */
  method SeatPlayers(ids: seq<string>, stack: int) returns (players: seq<PlayerState>)
    ensures fresh(players) && Views(players) == Seats(ids, stack)
  {
    players := [];
    for i := 0 to |ids|
      invariant |players| == i && fresh(players)
      invariant forall k :: 0 <= k < i ==> players[k].View() == Seats(ids, stack)[k]
    {
      var player := new PlayerState(ids[i], stack);
      players := players + [player];
    }
  }

  class GameEngine {
    const machine: HandStateMachine
    const journal: SettlementJournal
    const initialStacks: map<string, int>
    var log: seq<LogEntry>

    constructor (ids: seq<string>, startingStack: int, rng: HandRng)
      requires Distinct(ids)
      ensures Valid() && fresh(machine) && fresh(machine.state) && fresh(machine.state.players) && fresh(journal)
      ensures machine.View() == Opening(ids, startingStack) && machine.rng == rng
      ensures initialStacks == InitialStacks(ids, startingStack) && journal.entries == [] && log == []
    {
      var players := SeatPlayers(ids, startingStack);
      var state := new GameState(players);
      machine := new HandStateMachine(state, rng);
      journal := new SettlementJournal();
      initialStacks := InitialStacks(ids, startingStack);
      log := [];
    }

    ghost predicate Valid() {
      machine.Valid()
    }

    /** Plays and logs one action, and enters a hand it ends in the journal; a rejected action changes nothing. */
    method ApplyAction(action: Action) returns (r: Option<Error>)
      requires Valid()
      modifies this`log, journal, machine, machine.state, machine.state.players
      ensures Valid()
      ensures r.None? <==> Step(old(machine.View()), action, machine.rng).Accepted?
      ensures machine.View() == Played(old(machine.View()), action, machine.rng)
      ensures log == old(log) + if r.None? then [LogEntry(action, old(machine.View()), machine.View())] else []
      ensures journal.entries == old(journal.entries)
        + if Settles(old(machine.View()), action, machine.rng)
          then Deltas(machine.View().players, initialStacks) else []
    {
      hide Step, SettledState, After, ActivePlayers, Deltas, Views;
      var preState := machine.View();
      r := machine.Apply(action);
      ApplyMeaning(preState, action, machine.rng);
      if r.Some? {
        return;
      }
      if |ActivePlayers(Views(machine.state.players))| <= 1 && machine.state.phase == BettingRound {
        machine.state.phase := Showdown;
      }
      if machine.state.phase == Showdown {
        var settled := machine.Apply(Next);
        Settle();
      }
      log := log + [LogEntry(action, preState, machine.View())];
    }

    /** Settles the table once more and enters everybody's gain or loss. */
    method Settle()
      requires Valid()
      modifies journal, machine.state, machine.state.players
      ensures Valid() && machine.View() == SettledState(old(machine.View()))
      ensures journal.entries == old(journal.entries)
        + if ActivePlayers(old(machine.View()).players) != [] then Deltas(machine.View().players, initialStacks) else []
    {
      hide ActivePlayers, Deltas, Views;
      if ActivePlayers(Views(machine.state.players)) == [] {
        return;
      }
      SettleAll(machine.state, machine.blindsPosted);
      var entries := RecordDeltas(machine.state, initialStacks, journal);
    }
  }

  lemma ApplyMeaning(s: State, a: Action, rng: HandRng)
    ensures After(s, a, rng) == match Step(s, a, rng) case Accepted(t) => t case Rejected(_) => s
  {
  }
}
