/** Settlement in place: shared/poker/sidePots.ts, settlePots. */
module SettlePots {
  import opened Sequences
  import opened Verify
  import opened BestHand
  import opened Table
  import opened Settlement
  import opened GameState

  /** `evaluateHand` with its exception caught: fewer than five cards score 0. */
  method ScoreHand(hole: seq<Card>, board: seq<Card>) returns (score: int)
    ensures score == if |hole + board| < 5 then 0 else BestScore(hole + board)
  {
    var evaluated := EvaluateHand(hole + board);
    score := if evaluated.Some? then evaluated.value else 0;
  }

  /** Every unfolded player's score, by id. */
  method ScoreAll(seats: seq<Player>, board: seq<Card>) returns (scores: map<string, int>)
    requires DistinctIds(seats)
    ensures ScoredById(seats, scores, Scores(seats, board))
  {
    hide BestScore;
    scores := map[];
    for i := 0 to |seats|
      invariant forall k :: 0 <= k < i && !seats[k].folded ==>
        seats[k].id in scores && scores[seats[k].id] == Scores(seats, board)[k]
    {
      if !seats[i].folded {
        var hole := if seats[i].holeCards.Some? then seats[i].holeCards.value else [];
        var score := ScoreHand(hole, board);
        scores := scores[seats[i].id := score];
      }
    }
  }

  /** The seats that may win the pot. */
  method FindContenders(seats: seq<Player>, pot: SidePot) returns (contenders: seq<nat>)
    ensures forall k :: 0 <= k < |contenders| ==> contenders[k] < |seats| && Contends(seats, pot, contenders[k])
    ensures forall a, b :: 0 <= a < b < |contenders| ==> contenders[a] < contenders[b]
    ensures forall i :: 0 <= i < |seats| && Contends(seats, pot, i) ==> i in contenders
  {
    contenders := [];
    for i := 0 to |seats|
      invariant forall k :: 0 <= k < |contenders| ==> contenders[k] < i && Contends(seats, pot, contenders[k])
      invariant forall a, b :: 0 <= a < b < |contenders| ==> contenders[a] < contenders[b]
      invariant forall k :: 0 <= k < i && Contends(seats, pot, k) ==> k in contenders
    {
      if !seats[i].folded && seats[i].id in pot.players {
        contenders := contenders + [i];
      }
    }
  }

  /** `winners` lists, in seat order, the winners among the first `n` seats. */
  ghost predicate WinnersUpTo(seats: seq<Player>, scores: seq<int>, pot: SidePot, winners: seq<nat>, n: nat)
    requires n <= |seats| == |scores|
  {
    && (forall k :: 0 <= k < |winners| ==> winners[k] < n && Wins(seats, scores, pot, winners[k]))
    && (forall a, b :: 0 <= a < b < |winners| ==> winners[a] < winners[b])
    && (forall i :: 0 <= i < n && Wins(seats, scores, pot, i) ==> i in winners)
  }

  lemma {:induction false} WinnersCounted(seats: seq<Player>, scores: seq<int>, pot: SidePot, winners: seq<nat>, n: nat)
    requires n <= |seats| == |scores| && WinnersUpTo(seats, scores, pot, winners, n)
    ensures |winners| == WinnerCount(seats, scores, pot, n)
    ensures winners != [] ==> WinnerCount(seats, scores, pot, winners[0]) == 0
  {
    hide Wins, WinnersUpTo;
    WinnersBelow(seats, scores, pot, winners, n);
    if n > 0 {
      if Wins(seats, scores, pot, n - 1) {
        var last := LastWinner(seats, scores, pot, winners, n);
        WinnersCounted(seats, scores, pot, winners[..last], n - 1);
      } else {
        NotLastWinner(seats, scores, pot, winners, n);
        WinnersCounted(seats, scores, pot, winners, n - 1);
      }
    }
  }

  lemma WinnersBelow(seats: seq<Player>, scores: seq<int>, pot: SidePot, winners: seq<nat>, n: nat)
    requires n <= |seats| == |scores| && WinnersUpTo(seats, scores, pot, winners, n)
    ensures winners != [] ==> winners[0] < n
  {
  }

  lemma NotLastWinner(seats: seq<Player>, scores: seq<int>, pot: SidePot, winners: seq<nat>, n: nat)
    requires 0 < n <= |seats| == |scores| && WinnersUpTo(seats, scores, pot, winners, n)
    requires !Wins(seats, scores, pot, n - 1)
    ensures WinnersUpTo(seats, scores, pot, winners, n - 1)
  {
    hide Wins;
  }

  lemma LastWinner(seats: seq<Player>, scores: seq<int>, pot: SidePot, winners: seq<nat>, n: nat) returns (last: nat)
    requires 0 < n <= |seats| == |scores| && WinnersUpTo(seats, scores, pot, winners, n)
    requires Wins(seats, scores, pot, n - 1)
    ensures |winners| == last + 1 && winners[last] == n - 1
    ensures WinnersUpTo(seats, scores, pot, winners[..last], n - 1)
  {
    hide Wins;
    assert n - 1 in winners;
    var place :| 0 <= place < |winners| && winners[place] == n - 1;
    last := |winners| - 1;
    InOrder(winners, place, last);
    forall i | 0 <= i < n - 1 && Wins(seats, scores, pot, i) ensures i in winners[..last] {
      assert i in winners;
      var k :| 0 <= k < |winners| && winners[k] == i;
      assert winners[..last][k] == i;
    }
  }

  lemma InOrder(places: seq<nat>, a: nat, b: nat)
    requires forall a, b :: 0 <= a < b < |places| ==> places[a] < places[b]
    requires a <= b < |places|
    ensures places[a] <= places[b]
  {
  }

  /** The best score among the contenders and those who have it. */
  method FindWinners(
    seats: seq<Player>, byId: map<string, int>, ghost scores: seq<int>, pot: SidePot, contenders: seq<nat>)
    returns (winners: seq<nat>)
    requires |seats| == |scores| && contenders != []
    requires forall i :: 0 <= i < |seats| && !seats[i].folded ==> seats[i].id in byId && byId[seats[i].id] == scores[i]
    requires forall k :: 0 <= k < |contenders| ==> contenders[k] < |seats| && Contends(seats, pot, contenders[k])
    requires forall a, b :: 0 <= a < b < |contenders| ==> contenders[a] < contenders[b]
    requires forall i :: 0 <= i < |seats| && Contends(seats, pot, i) ==> i in contenders
    ensures WinnersUpTo(seats, scores, pot, winners, |seats|) && winners != []
  {
    var best := byId[seats[contenders[0]].id];
    ghost var top := contenders[0];
    for k := 1 to |contenders|
      invariant top in contenders && best == scores[top]
      invariant forall q :: 0 <= q < k ==> scores[contenders[q]] <= best
    {
      var score := byId[seats[contenders[k]].id];
      if score > best {
        best, top := score, contenders[k];
      }
    }
    assert forall i :: 0 <= i < |seats| && Contends(seats, pot, i) ==> scores[i] <= best;
    winners := [];
    for k := 0 to |contenders|
      invariant forall q :: 0 <= q < |winners| ==>
        && winners[q] < |seats| && Wins(seats, scores, pot, winners[q])
        && (k < |contenders| ==> winners[q] < contenders[k])
      invariant forall a, b :: 0 <= a < b < |winners| ==> winners[a] < winners[b]
      invariant forall q :: 0 <= q < k && scores[contenders[q]] == best ==> contenders[q] in winners
    {
      if byId[seats[contenders[k]].id] == best {
        winners := winners + [contenders[k]];
      }
    }
    assert top in winners;
  }

  /** The values of the records at the table. */
  function SeatsOf(state: GameState): (r: seq<Player>)
    reads state.players
    ensures |r| == |state.players|
  {
    Views(state.players)
  }

  function Shares(winners: seq<nat>, share: int, n: nat): (r: seq<int>)
    ensures |r| == n && forall i :: 0 <= i < n ==> r[i] == if i in winners then share else 0
  {
    seq(n, i requires 0 <= i < n => if i in winners then share else 0)
  }

  /** Each winner's share, added to its stack. */
  method AddShares(state: GameState, winners: seq<nat>, share: int)
    requires state.Seated()
    requires forall k :: 0 <= k < |winners| ==> winners[k] < |state.players|
    requires forall a, b :: 0 <= a < b < |winners| ==> winners[a] < winners[b]
    modifies state.players
    ensures SeatsOf(state) == WithGains(old(SeatsOf(state)), Shares(winners, share, |state.players|))
  {
    hide *;
    ghost var seats := SeatsOf(state);
    NoShares(seats, share);
    assert winners[..0] == [];
    for k := 0 to |winners|
      invariant SeatsOf(state) == WithGains(seats, Shares(winners[..k], share, |seats|))
    {
      NextShare(seats, winners, k, share);
      AddChips(state, winners[k], share);
    }
    assert winners[..|winners|] == winners;
  }

  lemma NoShares(seats: seq<Player>, share: int)
    ensures WithGains(seats, Shares([], share, |seats|)) == seats
  {
  }

  lemma ShareNext(seats: seq<Player>, done: seq<nat>, w: nat, share: int)
    requires w < |seats| && w !in done
    ensures var now := WithGains(seats, Shares(done, share, |seats|));
      now[w := now[w].(stack := now[w].stack + share)] == WithGains(seats, Shares(done + [w], share, |seats|))
  {
  }

  lemma NextShare(seats: seq<Player>, winners: seq<nat>, k: nat, share: int)
    requires k < |winners| && winners[k] < |seats|
    requires forall a, b :: 0 <= a < b < |winners| ==> winners[a] < winners[b]
    ensures var now := WithGains(seats, Shares(winners[..k], share, |seats|));
      now[winners[k] := now[winners[k]].(stack := now[winners[k]].stack + share)]
      == WithGains(seats, Shares(winners[..k + 1], share, |seats|))
  {
    hide WithGains, Shares;
    NotYet(winners, k);
    assert winners[..k + 1] == winners[..k] + [winners[k]];
    ShareNext(seats, winners[..k], winners[k], share);
  }

  lemma NotYet(winners: seq<nat>, k: nat)
    requires k < |winners| && forall a, b :: 0 <= a < b < |winners| ==> winners[a] < winners[b]
    ensures winners[k] !in winners[..k]
  {
  }

  lemma PayoutIsShare(seats: seq<Player>, scores: seq<int>, pot: SidePot, winners: seq<nat>, i: nat)
    requires i < |seats| == |scores| && winners != [] && WinnersUpTo(seats, scores, pot, winners, |seats|)
    ensures Payout(seats, scores, pot, i)
         == (if i in winners then pot.amount / |winners| else 0)
            + (if i == winners[0] then pot.amount % |winners| else 0)
  {
    hide Wins;
    WinnersCounted(seats, scores, pot, winners, |seats|);
    assert winners[0] in winners;
    if i in winners {
      var k :| 0 <= k < |winners| && winners[k] == i;
      FirstOnly(seats, scores, pot, winners, k);
      InOrder(winners, 0, k);
    }
  }

  lemma PayoutsAreShares(seats: seq<Player>, scores: seq<int>, pot: SidePot, winners: seq<nat>)
    requires |seats| == |scores| && winners != [] && WinnersUpTo(seats, scores, pot, winners, |seats|)
    ensures winners[0] < |seats|
    ensures var gains := Shares(winners, pot.amount / |winners|, |seats|);
      PotPayouts(seats, scores, pot, |seats|) == gains[winners[0] := gains[winners[0]] + pot.amount % |winners|]
  {
    hide Wins, Payout;
    forall i | 0 <= i < |seats|
      ensures Payout(seats, scores, pot, i)
           == (if i in winners then pot.amount / |winners| else 0)
              + (if i == winners[0] then pot.amount % |winners| else 0)
    {
      PayoutIsShare(seats, scores, pot, winners, i);
    }
  }

  /** No winner sits before the first, and the first sits before all others. */
  lemma FirstOnly(seats: seq<Player>, scores: seq<int>, pot: SidePot, winners: seq<nat>, k: nat)
    requires |seats| == |scores| && k < |winners| && WinnersUpTo(seats, scores, pot, winners, |seats|)
    ensures WinnerCount(seats, scores, pot, winners[k]) == 0 <==> k == 0
  {
    hide Wins;
    WinnersCounted(seats, scores, pot, winners, |seats|);
    if k > 0 {
      assert Wins(seats, scores, pot, winners[0]) && winners[0] < winners[k];
    }
  }

  method AddChips(state: GameState, i: nat, chips: int)
    requires state.Seated() && i < |state.players|
    modifies state.players
    ensures var now := old(SeatsOf(state));
      SeatsOf(state) == now[i := now[i].(stack := now[i].stack + chips)]
  {
    state.players[i].stack := state.players[i].stack + chips;
  }

  lemma GainMore(seats: seq<Player>, gains: seq<int>, i: nat, more: int)
    requires i < |seats| == |gains|
    ensures var now := WithGains(seats, gains);
      now[i := now[i].(stack := now[i].stack + more)] == WithGains(seats, gains[i := gains[i] + more])
  {
  }

  lemma NobodyContends(seats: seq<Player>, pot: SidePot)
    requires forall i :: 0 <= i < |seats| && Contends(seats, pot, i) ==> i in []
    ensures forall i :: 0 <= i < |seats| ==> !Contends(seats, pot, i)
  {
  }

  lemma Remainder(a: int, n: int)
    requires n > 0
    ensures a - a / n * n == a % n >= 0
  {
  }

  lemma NobodyPaid(seats: seq<Player>, scores: seq<int>, pot: SidePot)
    requires |seats| == |scores| && forall i :: 0 <= i < |seats| ==> !Contends(seats, pot, i)
    ensures WithGains(seats, PotPayouts(seats, scores, pot, |seats|)) == seats
  {
  }

  /** The winners of a pot in seat order; none when it has no contender. */
  method WinnersFor(seats: seq<Player>, byId: map<string, int>, ghost scores: seq<int>, pot: SidePot)
    returns (winners: seq<nat>)
    requires |seats| == |scores|
    requires forall i :: 0 <= i < |seats| && !seats[i].folded ==> seats[i].id in byId && byId[seats[i].id] == scores[i]
    ensures winners == [] ==> forall i :: 0 <= i < |seats| ==> !Contends(seats, pot, i)
    ensures winners != [] ==> WinnersUpTo(seats, scores, pot, winners, |seats|)
  {
    hide Contends, WinnersUpTo;
    var contenders := FindContenders(seats, pot);
    if contenders == [] {
      NobodyContends(seats, pot);
      return [];
    }
    winners := FindWinners(seats, byId, scores, pot, contenders);
  }

  /** The floor share to every winner, and the remainder to the first of them. */
  method PayWinners(state: GameState, ghost scores: seq<int>, pot: SidePot, winners: seq<nat>)
    requires state.Seated() && |state.players| == |scores| && winners != []
    requires WinnersUpTo(SeatsOf(state), scores, pot, winners, |state.players|)
    modifies state.players
    ensures var seats := old(SeatsOf(state));
      SeatsOf(state) == WithGains(seats, PotPayouts(seats, scores, pot, |seats|))
  {
    hide *;
    ghost var seats := SeatsOf(state);
    WinnersInOrder(seats, scores, pot, winners);
    SharesAndRest(seats, scores, pot, winners);
    var share := pot.amount / |winners|;
    AddShares(state, winners, share);
    var remainder := pot.amount - share * |winners|;
    if remainder > 0 {
      AddChips(state, winners[0], remainder);
    }
  }

  /** The shares, and on them the remainder for the first winner, are the payouts. */
  lemma SharesAndRest(seats: seq<Player>, scores: seq<int>, pot: SidePot, winners: seq<nat>)
    requires |seats| == |scores| && winners != [] && WinnersUpTo(seats, scores, pot, winners, |seats|)
    ensures winners[0] < |seats|
    ensures var share := pot.amount / |winners|;
      var remainder := pot.amount - share * |winners|;
      var now := WithGains(seats, Shares(winners, share, |seats|));
      var paid := WithGains(seats, PotPayouts(seats, scores, pot, |seats|));
      && now[winners[0] := now[winners[0]].(stack := now[winners[0]].stack + remainder)] == paid
      && remainder >= 0 && (remainder == 0 ==> now == paid)
  {
    hide *;
    var share := pot.amount / |winners|;
    PayoutsAreShares(seats, scores, pot, winners);
    Remainder(pot.amount, |winners|);
    GainMore(seats, Shares(winners, share, |seats|), winners[0], pot.amount - share * |winners|);
  }

  lemma WinnersInOrder(seats: seq<Player>, scores: seq<int>, pot: SidePot, winners: seq<nat>)
    requires |seats| == |scores| && WinnersUpTo(seats, scores, pot, winners, |seats|)
    ensures forall k :: 0 <= k < |winners| ==> winners[k] < |seats|
    ensures forall a, b :: 0 <= a < b < |winners| ==> winners[a] < winners[b]
  {
  }

  /** The scores of all who have not folded are listed by id. */
  ghost predicate ScoredById(seats: seq<Player>, byId: map<string, int>, scores: seq<int>)
    requires |seats| == |scores|
  {
    forall i :: 0 <= i < |seats| && !seats[i].folded ==> seats[i].id in byId && byId[seats[i].id] == scores[i]
  }

  lemma StillScored(seats: seq<Player>, byId: map<string, int>, scores: seq<int>, gains: seq<int>)
    requires |seats| == |scores| == |gains| && ScoredById(seats, byId, scores)
    ensures ScoredById(WithGains(seats, gains), byId, scores)
  {
  }

  lemma NoPotsPaid(seats: seq<Player>, scores: seq<int>)
    requires |seats| == |scores|
    ensures Paid(seats, scores, []) == seats
  {
  }

  /** What one pot pays, added to the stacks in place. */
  method PayPot(state: GameState, byId: map<string, int>, ghost scores: seq<int>, pot: SidePot)
    requires state.Seated() && |state.players| == |scores| && ScoredById(SeatsOf(state), byId, scores)
    modifies state.players
    ensures var seats := old(SeatsOf(state));
      SeatsOf(state) == WithGains(seats, PotPayouts(seats, scores, pot, |seats|))
  {
    hide Payout, Contends, WinnersUpTo, SeatsOf;
    var seats := SeatsOf(state);
    var winners := WinnersFor(seats, byId, scores, pot);
    if winners == [] {
      NobodyPaid(seats, scores, pot);
    } else {
      PayWinners(state, scores, pot, winners);
    }
  }

  lemma GainsAdd(seats: seq<Player>, scores: seq<int>, done: seq<SidePot>, pot: SidePot)
    requires |seats| == |scores|
    ensures var now := Paid(seats, scores, done);
      Paid(seats, scores, done + [pot]) == WithGains(now, PotPayouts(now, scores, pot, |seats|))
  {
    hide Payout;
    var now := Paid(seats, scores, done);
    forall i | 0 <= i < |seats|
      ensures Sum(Payouts(seats, scores, done + [pot], i))
           == Sum(Payouts(seats, scores, done, i)) + Payout(now, scores, pot, i)
    {
      StacksDoNotMatter(seats, now, scores, pot, i);
      PayoutsAppend(seats, scores, done, pot, i);
    }
  }

  lemma PayoutsAppend(seats: seq<Player>, scores: seq<int>, done: seq<SidePot>, pot: SidePot, i: nat)
    requires i < |seats| == |scores|
    ensures Sum(Payouts(seats, scores, done + [pot], i))
         == Sum(Payouts(seats, scores, done, i)) + Payout(seats, scores, pot, i)
  {
    hide Payout;
    assert Payouts(seats, scores, done + [pot], i) == Payouts(seats, scores, done, i) + [Payout(seats, scores, pot, i)];
    SumAppend(Payouts(seats, scores, done, i), [Payout(seats, scores, pot, i)]);
  }

  lemma {:induction false} SameWinnerCount(a: seq<Player>, b: seq<Player>, scores: seq<int>, pot: SidePot, n: nat)
    requires n <= |a| == |b| == |scores|
    requires forall i :: 0 <= i < |a| ==> Wins(a, scores, pot, i) == Wins(b, scores, pot, i)
    ensures WinnerCount(a, scores, pot, n) == WinnerCount(b, scores, pot, n)
  {
    hide Wins;
    if n > 0 {
      SameWinnerCount(a, b, scores, pot, n - 1);
    }
  }

  lemma StacksDoNotMatter(a: seq<Player>, b: seq<Player>, scores: seq<int>, pot: SidePot, i: nat)
    requires |a| == |b| == |scores| && i < |a|
    requires forall k :: 0 <= k < |a| ==> a[k].id == b[k].id && a[k].folded == b[k].folded
    ensures Payout(a, scores, pot, i) == Payout(b, scores, pot, i)
  {
    forall k | 0 <= k < |a| ensures Wins(a, scores, pot, k) == Wins(b, scores, pot, k) {
      assert forall j :: 0 <= j < |a| ==> Contends(a, pot, j) == Contends(b, pot, j);
    }
    SameWinnerCount(a, b, scores, pot, i);
    SameWinnerCount(a, b, scores, pot, |a|);
  }

  /** Pays the pots one after the other. */
  method PayPots(state: GameState, byId: map<string, int>, ghost scores: seq<int>, pots: seq<SidePot>)
    requires state.Seated() && |state.players| == |scores| && ScoredById(SeatsOf(state), byId, scores)
    modifies state.players
    ensures SeatsOf(state) == Paid(old(SeatsOf(state)), scores, pots)
  {
    hide *;
    ghost var seats := SeatsOf(state);
    NoPotsPaid(seats, scores);
    assert pots[..0] == [];
    for k := 0 to |pots|
      invariant SeatsOf(state) == Paid(seats, scores, pots[..k]) && ScoredById(SeatsOf(state), byId, scores)
    {
      ghost var now := SeatsOf(state);
      PayPot(state, byId, scores, pots[k]);
      StillScored(now, byId, scores, PotPayouts(now, scores, pots[k], |now|));
      GainsAdd(seats, scores, pots[..k], pots[k]);
      assert pots[..k + 1] == pots[..k] + [pots[k]];
    }
    assert pots[..|pots|] == pots;
  }

  /** Pays every pot and clears the table, unless everybody has folded. */
  method SettleAll(state: GameState, ghost posted: set<string>)
    requires state.Seated()
    modifies state, state.players
    ensures state.View(posted) == SettledState(old(state.View(posted)))
  {
    hide Scores, Paid, ScoredById, ActivePlayers;
    ghost var before := state.View(posted);
    var seats := Views(state.players);
    var active := ActivePlayers(seats);
    if active == [] {
      return;
    }
    var byId := ScoreAll(seats, state.communityCards);
    var pots := if state.sidePots != [] then state.sidePots
      else [SidePot(state.pot, Ids(active), map id | id in Ids(active) :: 0)];
    assert pots == PotsToSettle(before);
    PayPots(state, byId, Scores(seats, state.communityCards), pots);
    state.pot := 0;
    state.sidePots := [];
  }
}
