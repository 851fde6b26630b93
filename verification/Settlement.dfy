/** What settling the pots pays: shared/poker/sidePots.ts, settlePots. */
module Settlement {
  import opened Sequences
  import opened Verify
  import opened BestHand
  import opened Table

  /** Fewer than five cards make no hand and score 0. */
  function HandScore(p: Player, community: seq<Card>): int {
    var cards := (if p.holeCards.Some? then p.holeCards.value else []) + community;
    if |cards| < 5 then 0 else BestScore(cards)
  }

  function Scores(players: seq<Player>, community: seq<Card>): (r: seq<int>)
    ensures |r| == |players| && forall i :: 0 <= i < |r| ==> r[i] == HandScore(players[i], community)
  {
    seq(|players|, i requires 0 <= i < |players| => HandScore(players[i], community))
  }

  /** A contender no other contender beats. */
  predicate Wins(players: seq<Player>, scores: seq<int>, pot: SidePot, i: nat)
    requires i < |players| == |scores|
  {
    Contends(players, pot, i) && forall j :: 0 <= j < |players| && Contends(players, pot, j) ==> scores[j] <= scores[i]
  }

  /** The winners among the first `n` players. */
  function WinnerCount(players: seq<Player>, scores: seq<int>, pot: SidePot, n: nat): (count: nat)
    requires n <= |players| == |scores|
    ensures count == 0 <==> forall i :: 0 <= i < n ==> !Wins(players, scores, pot, i)
  {
    if n == 0 then 0
    else WinnerCount(players, scores, pot, n - 1) + (if Wins(players, scores, pot, n - 1) then 1 else 0)
  }

  /** Winners share the pot evenly; what does not divide goes to the first of them in seat order. */
  function Payout(players: seq<Player>, scores: seq<int>, pot: SidePot, i: nat): int
    requires i < |players| == |scores|
  {
    if !Wins(players, scores, pot, i) then 0
    else
      var count := WinnerCount(players, scores, pot, |players|);
      pot.amount / count + (if WinnerCount(players, scores, pot, i) == 0 then pot.amount % count else 0)
  }

  function Payouts(players: seq<Player>, scores: seq<int>, pots: seq<SidePot>, i: nat): (r: seq<int>)
    requires i < |players| == |scores|
    ensures |r| == |pots| && forall k :: 0 <= k < |r| ==> r[k] == Payout(players, scores, pots[k], i)
  {
    seq(|pots|, k requires 0 <= k < |pots| => Payout(players, scores, pots[k], i))
  }

  function Paid(players: seq<Player>, scores: seq<int>, pots: seq<SidePot>): (r: seq<Player>)
    requires |players| == |scores|
    ensures |r| == |players|
    ensures forall i :: 0 <= i < |r| ==>
      r[i] == players[i].(stack := players[i].stack + Sum(Payouts(players, scores, pots, i)))
  {
    seq(|players|, i requires 0 <= i < |players| =>
      players[i].(stack := players[i].stack + Sum(Payouts(players, scores, pots, i))))
  }

  function WithGains(players: seq<Player>, gains: seq<int>): (r: seq<Player>)
    requires |gains| == |players|
    ensures |r| == |players|
    ensures forall i :: 0 <= i < |r| ==> r[i] == players[i].(stack := players[i].stack + gains[i])
  {
    seq(|players|, i requires 0 <= i < |players| => players[i].(stack := players[i].stack + gains[i]))
  }

  /** The pots to settle: the side pots, or one pot for all unfolded players when there are none. */
  function PotsToSettle(s: State): seq<SidePot> {
    if s.sidePots != [] then s.sidePots
    else
      var ids := Ids(ActivePlayers(s.players));
      [SidePot(s.pot, ids, map id | id in ids :: 0)]
  }

  function SettledState(s: State): State {
    if ActivePlayers(s.players) == [] then s
    else s.(players := Paid(s.players, Scores(s.players, s.community), PotsToSettle(s)), pot := 0, sidePots := [])
  }

  // ---------- each pot is paid out exactly, or not at all ----------

  lemma {:induction false} BestContender(players: seq<Player>, scores: seq<int>, pot: SidePot, n: nat)
    returns (best: nat)
    requires n <= |players| == |scores|
    requires exists i :: 0 <= i < n && Contends(players, pot, i)
    ensures best < n && Contends(players, pot, best)
    ensures forall j :: 0 <= j < n && Contends(players, pot, j) ==> scores[j] <= scores[best]
  {
    if exists i :: 0 <= i < n - 1 && Contends(players, pot, i) {
      best := BestContender(players, scores, pot, n - 1);
      if Contends(players, pot, n - 1) && scores[n - 1] > scores[best] {
        best := n - 1;
      }
    } else {
      best := n - 1;
    }
  }

  lemma WinnersExist(players: seq<Player>, scores: seq<int>, pot: SidePot)
    requires |players| == |scores|
    ensures WinnerCount(players, scores, pot, |players|) > 0 <==> HasContender(players, pot)
  {
    if HasContender(players, pot) {
      var best := BestContender(players, scores, pot, |players|);
      assert Wins(players, scores, pot, best);
    }
  }

  function PotPayouts(players: seq<Player>, scores: seq<int>, pot: SidePot, n: nat): (r: seq<int>)
    requires n <= |players| == |scores|
    ensures |r| == n && forall i :: 0 <= i < n ==> r[i] == Payout(players, scores, pot, i)
  {
    seq(n, i requires 0 <= i < n => Payout(players, scores, pot, i))
  }

  lemma {:induction false} PayoutsSoFar(players: seq<Player>, scores: seq<int>, pot: SidePot, n: nat)
    requires n <= |players| == |scores|
    ensures var count := WinnerCount(players, scores, pot, n);
      var all := WinnerCount(players, scores, pot, |players|);
      Sum(PotPayouts(players, scores, pot, n))
      == if count == 0 then 0 else count * (pot.amount / all) + pot.amount % all
  {
    if n > 0 {
      hide Wins, Payout, WinnerCount;
      var before := PotPayouts(players, scores, pot, n - 1);
      var p := Payout(players, scores, pot, n - 1);
      PayoutsSoFar(players, scores, pot, n - 1);
      assert PotPayouts(players, scores, pot, n) == before + [p];
      SumAppend(before, [p]);
      PayoutStep(players, scores, pot, n - 1);
      var all := WinnerCount(players, scores, pot, |players|);
      if Wins(players, scores, pot, n - 1) {
        OneMore(pot.amount / all, WinnerCount(players, scores, pot, n - 1));
      }
    } else {
      NoWinnerYet(players, scores, pot);
    }
  }

  lemma NoWinnerYet(players: seq<Player>, scores: seq<int>, pot: SidePot)
    requires |players| == |scores|
    ensures WinnerCount(players, scores, pot, 0) == 0
  {
  }

  /** One player more: counted and paid exactly if it wins. */
  lemma PayoutStep(players: seq<Player>, scores: seq<int>, pot: SidePot, i: nat)
    requires i < |players| == |scores|
    ensures var all := WinnerCount(players, scores, pot, |players|);
      var before := WinnerCount(players, scores, pot, i);
      if Wins(players, scores, pot, i) then
        all > 0 && WinnerCount(players, scores, pot, i + 1) == before + 1
        && Payout(players, scores, pot, i) == pot.amount / all + (if before == 0 then pot.amount % all else 0)
      else WinnerCount(players, scores, pot, i + 1) == before && Payout(players, scores, pot, i) == 0
  {
    hide Wins;
  }

  /** A pot with a contender is paid out to the last chip; a pot without one pays nothing. */
  lemma PotIsPaidOut(players: seq<Player>, scores: seq<int>, pot: SidePot)
    requires |players| == |scores|
    ensures Sum(PotPayouts(players, scores, pot, |players|)) == if HasContender(players, pot) then pot.amount else 0
  {
    PayoutsSoFar(players, scores, pot, |players|);
    WinnersExist(players, scores, pot);
  }

  /** The amounts nobody can win any more. */
  function DeadAmount(players: seq<Player>, pots: seq<SidePot>): int {
    if pots == [] then 0
    else (if HasContender(players, pots[0]) then 0 else pots[0].amount) + DeadAmount(players, pots[1..])
  }

  lemma {:induction false} PaidTotal(players: seq<Player>, scores: seq<int>, pots: seq<SidePot>)
    requires |players| == |scores|
    ensures Sum(Stacks(Paid(players, scores, pots)))
         == Sum(Stacks(players)) + Sum(Amounts(pots)) - DeadAmount(players, pots)
  {
    if pots == [] {
      assert forall i :: 0 <= i < |players| ==> Payouts(players, scores, pots, i) == [];
      assert Stacks(Paid(players, scores, pots)) == Stacks(players);
    } else {
      var pot, rest := pots[0], pots[1..];
      PaidTotal(players, scores, rest);
      PotIsPaidOut(players, scores, pot);
      var first := PotPayouts(players, scores, pot, |players|);
      forall i | 0 <= i < |players|
        ensures Stacks(Paid(players, scores, pots))[i] == Stacks(Paid(players, scores, rest))[i] + first[i]
      {
        assert Payouts(players, scores, pots, i)[1..] == Payouts(players, scores, rest, i);
      }
      SumAdd(Stacks(Paid(players, scores, rest)), first, Stacks(Paid(players, scores, pots)));
      assert Amounts(pots)[1..] == Amounts(rest);
    }
  }

  lemma {:induction false} DeadAmountSign(players: seq<Player>, pots: seq<SidePot>)
    requires forall pot :: pot in pots ==> pot.amount > 0
    ensures DeadAmount(players, pots) >= 0
    ensures DeadAmount(players, pots) == 0 <==> forall pot :: pot in pots ==> HasContender(players, pot)
  {
    if pots != [] {
      assert pots == [pots[0]] + pots[1..];
      DeadAmountSign(players, pots[1..]);
    }
  }

  /** No stack falls, and a folded player's does not rise. */
  lemma PaidIsFair(players: seq<Player>, scores: seq<int>, pots: seq<SidePot>)
    requires |players| == |scores| && forall pot :: pot in pots ==> pot.amount >= 0
    ensures forall i :: 0 <= i < |players| ==> Paid(players, scores, pots)[i].stack >= players[i].stack
    ensures forall i :: 0 <= i < |players| && players[i].folded ==> Paid(players, scores, pots)[i] == players[i]
  {
    forall i | 0 <= i < |players|
      ensures Paid(players, scores, pots)[i].stack >= players[i].stack
      ensures players[i].folded ==> Paid(players, scores, pots)[i] == players[i]
    {
      var list := Payouts(players, scores, pots, i);
      assert forall k :: 0 <= k < |pots| ==> pots[k] in pots;
      forall k | 0 <= k < |list| ensures list[k] >= 0 && (players[i].folded ==> list[k] == 0) {
        PayoutNonNegative(players, scores, pots[k], i);
      }
      SumNonNegative(list);
      if players[i].folded {
        SumZero(list);
      }
    }
  }

  lemma PayoutNonNegative(players: seq<Player>, scores: seq<int>, pot: SidePot, i: nat)
    requires i < |players| == |scores| && pot.amount >= 0
    ensures Payout(players, scores, pot, i) >= 0
  {
    if Wins(players, scores, pot, i) {
      var count := WinnerCount(players, scores, pot, |players|);
      assert pot.amount / count >= 0;
    }
  }

  /** The final stacks do not depend on the order of the pots. */
  lemma PotOrderIsIrrelevant(players: seq<Player>, scores: seq<int>, a: seq<SidePot>, b: seq<SidePot>)
    requires |players| == |scores| && multiset(a) == multiset(b)
    ensures Paid(players, scores, a) == Paid(players, scores, b)
  {
    forall i | 0 <= i < |players| ensures Paid(players, scores, a)[i] == Paid(players, scores, b)[i] {
      var f := (pot: SidePot) => if i < |players| == |scores| then Payout(players, scores, pot, i) else 0;
      MapPermutation(f, a, b, Payouts(players, scores, a, i), Payouts(players, scores, b, i));
      SumPermutation(Payouts(players, scores, a, i), Payouts(players, scores, b, i));
    }
  }

  /**
   * Who gets what from a contested pot: exactly the contenders with the best score are
   * paid, all of them the same share, save that the first of them in seat order also
   * takes what is left, which is less than the number of winners.
   */
  lemma PayoutSplit(players: seq<Player>, scores: seq<int>, pot: SidePot, i: nat, j: nat)
    requires i < j < |players| == |scores| && pot.amount >= 0
    requires Contends(players, pot, i) && Contends(players, pot, j)
    ensures scores[i] < scores[j] ==> Payout(players, scores, pot, i) == 0
    ensures scores[j] < scores[i] ==> Payout(players, scores, pot, j) == 0
    ensures scores[i] == scores[j] ==>
      var extra := Payout(players, scores, pot, i) - Payout(players, scores, pot, j);
      && 0 <= extra < WinnerCount(players, scores, pot, |players|)
      && (extra > 0 ==> forall k :: 0 <= k < i && Contends(players, pot, k) ==> scores[k] < scores[i])
  {
    WinnersExist(players, scores, pot);
    if scores[i] == scores[j] {
      assert Wins(players, scores, pot, i) <==> Wins(players, scores, pot, j);
      if Wins(players, scores, pot, i) {
        var count := WinnerCount(players, scores, pot, |players|);
        assert WinnerCount(players, scores, pot, j) > 0;
        if WinnerCount(players, scores, pot, i) == 0 {
          forall k | 0 <= k < i && Contends(players, pot, k) ensures scores[k] < scores[i] {
            assert !Wins(players, scores, pot, k);
          }
        }
      }
    }
  }

  function Total(s: State): int {
    Sum(Stacks(s.players)) + s.pot
  }

  /** Chips are lost in settlement exactly when a side pot has no contender left, and then exactly those pots. */
  lemma SettlementTotal(s: State)
    requires ActivePlayers(s.players) != []
    requires s.sidePots != [] ==> s.pot == Sum(Amounts(s.sidePots))
    requires forall pot :: pot in s.sidePots ==> pot.amount > 0
    ensures Total(SettledState(s)) == Total(s) - DeadAmount(s.players, s.sidePots)
    ensures Total(SettledState(s)) == Total(s) <==> forall pot :: pot in s.sidePots ==> HasContender(s.players, pot)
  {
    var pots := PotsToSettle(s);
    PaidTotal(s.players, Scores(s.players, s.community), pots);
    DeadAmountSign(s.players, s.sidePots);
    if s.sidePots == [] {
      OnePotIsContested(s.players, pots[0]);
      assert pots[1..] == [];
      assert Amounts(pots) == [s.pot];
    }
  }

  lemma OnePotIsContested(players: seq<Player>, pot: SidePot)
    requires ActivePlayers(players) != [] && pot.players == Ids(ActivePlayers(players))
    ensures HasContender(players, pot)
  {
    var active := ActivePlayers(players);
    FilterMembers((p: Player) => !p.folded, players);
    assert active[0] in active;
    var i :| 0 <= i < |players| && players[i] == active[0];
    assert pot.players[0] == players[i].id;
    assert Contends(players, pot, i);
  }

  /** A table without pots has nothing to settle. */
  lemma NothingToSettle(s: State)
    requires s.pot == 0 && s.sidePots == []
    ensures SettledState(s) == s
  {
    if ActivePlayers(s.players) != [] {
      var scores, pots := Scores(s.players, s.community), PotsToSettle(s);
      forall i | 0 <= i < |s.players| ensures Paid(s.players, scores, pots)[i] == s.players[i] {
        ZeroPot(s.players, scores, pots[0], i);
        SumZero(Payouts(s.players, scores, pots, i));
      }
      assert Paid(s.players, scores, pots) == s.players;
    }
  }

  /** Settling again, as the engine does after the machine has, changes nothing. */
  lemma SettlementIsIdempotent(s: State)
    ensures ActivePlayers(s.players) != [] ==> SettledState(SettledState(s)) == SettledState(s)
  {
    if ActivePlayers(s.players) != [] {
      NothingToSettle(SettledState(s));
    }
  }

  lemma ZeroPot(players: seq<Player>, scores: seq<int>, pot: SidePot, i: nat)
    requires i < |players| == |scores| && pot.amount == 0
    ensures Payout(players, scores, pot, i) == 0
  {
    if Wins(players, scores, pot, i) {
      var count := WinnerCount(players, scores, pot, |players|);
      assert 0 / count == 0 && 0 % count == 0;
    }
  }
}
