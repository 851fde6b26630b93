/** Where the chips are: what every step keeps of stacks, bets and pots. */
module Chips {
  import opened Sequences
  import opened Table
  import opened Layers
  import opened Settlement
  import opened Machine

  ghost predicate IsLargestBet(bet: int, players: seq<Player>) {
    && bet >= 0
    && (forall i :: 0 <= i < |players| ==> players[i].bet <= bet)
    && (bet == 0 || exists i :: 0 <= i < |players| && players[i].bet == bet)
  }

  ghost predicate NoDebts(players: seq<Player>) {
    forall i :: 0 <= i < |players| ==> players[i].stack >= 0 && players[i].bet >= 0
  }

  ghost predicate NoBets(players: seq<Player>) {
    forall i :: 0 <= i < |players| ==> players[i].bet == 0
  }

  ghost predicate PositivePots(pots: seq<SidePot>) {
    forall pot :: pot in pots ==> pot.amount > 0
  }

  /** The pot is the side pots and the bets of the round, and the current bet is the largest of them. */
  ghost predicate ChipsAddUp(s: State) {
    && DistinctIds(s.players) && NoDebts(s.players) && PositivePots(s.sidePots)
    && s.pot == Sum(Amounts(s.sidePots)) + Sum(Bets(s.players))
    && IsLargestBet(s.currentBet, s.players)
  }

  /** The same people with the same cards, folded or not as before. */
  ghost predicate SameSeats(a: seq<Player>, b: seq<Player>) {
    && |a| == |b|
    && forall i :: 0 <= i < |a| ==> a[i].id == b[i].id && a[i].folded == b[i].folded && a[i].holeCards == b[i].holeCards
  }

  lemma {:induction false} SameSeatsActive(a: seq<Player>, b: seq<Player>)
    requires SameSeats(a, b)
    ensures |ActivePlayers(a)| == |ActivePlayers(b)|
    ensures AllHeld(a) == AllHeld(b)
  {
    if a != [] {
      SameSeatsActive(a[1..], b[1..]);
    }
  }

  lemma SameSeatsContest(a: seq<Player>, b: seq<Player>, pot: SidePot)
    requires SameSeats(a, b)
    ensures HasContender(a, pot) == HasContender(b, pot)
  {
    if HasContender(a, pot) {
      var i :| 0 <= i < |a| && Contends(a, pot, i);
      assert Contends(b, pot, i);
    }
    if HasContender(b, pot) {
      var i :| 0 <= i < |b| && Contends(b, pot, i);
      assert Contends(a, pot, i);
    }
  }

  /** An accepted bet moves chips from one stack into the pot and keeps the rest. */
  lemma PlaceBetKeeps(s: State, i: nat, amount: int)
    requires i < |s.players| && ChipsAddUp(s) && PlaceBet(s, i, amount).Accepted?
    ensures var t := PlaceBet(s, i, amount).state;
      && ChipsAddUp(t) && Total(t) == Total(s) && SameSeats(s.players, t.players)
      && t.players[i].bet == s.players[i].bet + amount > 0
      && (forall k :: 0 <= k < |s.players| && k != i ==> t.players[k] == s.players[k])
      && t == s.(players := t.players, pot := t.pot, currentBet := t.currentBet)
  {
    var t := PlaceBet(s, i, amount).state;
    var q := t.players[i];
    assert Bets(t.players) == Bets(s.players)[i := q.bet];
    assert Stacks(t.players) == Stacks(s.players)[i := q.stack];
    SumUpdate(Bets(s.players), i, q.bet);
    SumUpdate(Stacks(s.players), i, q.stack);
    LargestAfterBet(s, t, i);
  }

  lemma LargestAfterBet(s: State, t: State, i: nat)
    requires i < |s.players| == |t.players| && IsLargestBet(s.currentBet, s.players)
    requires forall k :: 0 <= k < |s.players| && k != i ==> t.players[k] == s.players[k]
    requires t.players[i].bet >= s.players[i].bet
    requires t.currentBet == if t.players[i].bet > s.currentBet then t.players[i].bet else s.currentBet
    ensures IsLargestBet(t.currentBet, t.players)
  {
    if t.currentBet == s.currentBet != 0 {
      var k :| 0 <= k < |s.players| && s.players[k].bet == s.currentBet;
      assert t.players[k].bet == t.currentBet;
    }
  }

  lemma NoBettors(players: seq<Player>)
    requires NoDebts(players)
    ensures Bettors(players) == [] <==> NoBets(players)
  {
    FilterMembers((p: Player) => p.bet > 0, players);
    if Bettors(players) == [] {
      forall i | 0 <= i < |players| ensures players[i].bet == 0 {
        assert players[i] in players && players[i] !in Bettors(players);
      }
    } else {
      var p := Bettors(players)[0];
      assert p in Bettors(players);
      var i :| 0 <= i < |players| && players[i] == p;
    }
  }

  lemma BetsInPlayers(players: seq<Player>)
    requires NoDebts(players)
    ensures forall p :: p in players ==> p.bet >= 0
  {
  }

  /** Closing a round turns the bets into side pots and moves nothing else. */
  lemma FinishRoundChips(s: State)
    requires ChipsAddUp(s)
    ensures var t := FinishRound(s);
      && ChipsAddUp(t) && Total(t) == Total(s) && SameSeats(s.players, t.players) && NoBets(t.players)
      && t == s.(players := t.players, sidePots := t.sidePots, currentBet := 0)
  {
    hide RoundPots;
    NoBettors(s.players);
    if Bettors(s.players) != [] {
      var t, pots := FinishRound(s), RoundPots(s.players);
      BetsInPlayers(s.players);
      RoundPotsHoldBets(s.players);
      SumZeroBets(t.players);
      assert Amounts(s.sidePots + pots) == Amounts(s.sidePots) + Amounts(pots);
      SumAppend(Amounts(s.sidePots), Amounts(pots));
      assert Stacks(ClearedBets(s.players)) == Stacks(s.players);
      assert PositivePots(t.sidePots);
    }
  }

  /** The pots a closing round adds can be won by somebody, and there is one if anybody bet. */
  lemma FinishRoundPots(s: State)
    requires ChipsAddUp(s)
    ensures var t := FinishRound(s);
      && s.sidePots <= t.sidePots
      && (ActivePlayers(s.players) != [] ==>
            forall k :: |s.sidePots| <= k < |t.sidePots| ==> HasContender(s.players, t.sidePots[k]))
      && (NoBets(s.players) || t.sidePots != [])
  {
    hide RoundPots;
    NoBettors(s.players);
    if Bettors(s.players) != [] {
      var pots := RoundPots(s.players);
      BetsInPlayers(s.players);
      if ActivePlayers(s.players) != [] {
        RoundPotsAreLive(s.players);
        assert forall k :: 0 <= k < |pots| ==> pots[k] in pots;
      }
      var i :| 0 <= i < |s.players| && s.players[i].bet != 0;
      RoundPotsExist(s.players, s.players[i]);
    }
  }

  lemma SumZeroBets(players: seq<Player>)
    ensures NoBets(players) ==> Sum(Bets(players)) == 0
  {
    if NoBets(players) {
      SumZero(Bets(players));
    }
  }

  lemma {:induction false} ActiveCount(players: seq<Player>)
    ensures (forall i :: 0 <= i < |players| ==> !players[i].folded) ==> |ActivePlayers(players)| == |players|
    ensures |ActivePlayers(players)| <= |players|
  {
    if players != [] {
      ActiveCount(players[1..]);
    }
  }

  /** A fold takes at most one player out. */
  lemma {:induction false} FoldCount(players: seq<Player>, i: nat)
    requires i < |players|
    ensures var after := players[i := players[i].(folded := true)];
      |ActivePlayers(players)| - 1 <= |ActivePlayers(after)| <= |ActivePlayers(players)|
  {
    var after := players[i := players[i].(folded := true)];
    if i == 0 {
      assert after[1..] == players[1..];
    } else {
      FoldCount(players[1..], i - 1);
      assert after[1..] == players[1..][i - 1 := players[i].(folded := true)];
    }
  }

  lemma FoldKeeps(s: State, i: nat)
    requires i < |s.players| && ChipsAddUp(s)
    ensures var t := s.(players := s.players[i := s.players[i].(folded := true)]);
      ChipsAddUp(t) && Total(t) == Total(s) && AllHeld(t.players) == AllHeld(s.players)
  {
    var t := s.(players := s.players[i := s.players[i].(folded := true)]);
    assert Bets(t.players) == Bets(s.players) && Stacks(t.players) == Stacks(s.players);
    SameHeld(s.players, t.players);
    if s.currentBet != 0 {
      var k :| 0 <= k < |s.players| && s.players[k].bet == s.currentBet;
      assert t.players[k].bet == s.currentBet;
    }
  }

  lemma {:induction false} SameHeld(a: seq<Player>, b: seq<Player>)
    requires |a| == |b| && forall i :: 0 <= i < |a| ==> a[i].holeCards == b[i].holeCards
    ensures AllHeld(a) == AllHeld(b)
  {
    if a != [] {
      SameHeld(a[1..], b[1..]);
    }
  }

  /**
   * An accepted call matches the largest bet, and a call is refused exactly when there
   * is nothing to call or the stack is too short for it.
   */
  lemma CallMatches(s: State, id: string)
    requires ChipsAddUp(s)
    ensures match FindPlayer(s.players, id)
      case None => CallStep(s, id) == Rejected(UnknownPlayer)
      case Some(i) =>
        var owed := s.currentBet - s.players[i].bet;
        && 0 <= owed
        && (CallStep(s, id).Accepted? <==> 0 < owed <= s.players[i].stack)
        && (CallStep(s, id).Accepted? ==>
              var t := CallStep(s, id).state;
              t.players[i].bet == t.currentBet == s.currentBet && IsLargestBet(t.currentBet, t.players))
  {
    match FindPlayer(s.players, id)
    case None =>
    case Some(i) =>
      if CallStep(s, id).Accepted? {
        PlaceBetKeeps(s, i, s.currentBet - s.players[i].bet);
      }
  }
}
