/** Who is paid at a showdown, in terms of the cards: shared/poker/sidePots.ts, settlePots. */
module Showdowns {
  import opened Sequences
  import opened Verify
  import opened Rng
  import opened BestHand
  import opened Table
  import opened Settlement
  import opened Machine
  import opened Chips
  import opened Lifecycle
  import opened Hands

  /** Everything a player can make a hand of: its own cards and the whole board. */
  function Hand(s: State, i: nat): seq<Card>
    requires i < |s.players|
  {
    Held(s.players[i]) + s.community
  }

  /** The scores settled by are the best any five of a player's cards and the board make, and nothing with fewer. */
  lemma ScoresAreBest(s: State, i: nat)
    requires i < |s.players|
    ensures var score := Scores(s.players, s.community)[i];
      if |Hand(s, i)| >= 5 then IsBest(score, Hand(s, i)) else score == 0
  {
    hide BestScore, IsBest;
    if |Hand(s, i)| >= 5 {
      BestScoreIsBest(Hand(s, i));
    }
  }

  /** Some five cards of the one hand are outscored by no five of the other. */
  ghost predicate Holds(one: seq<Card>, other: seq<Card>) {
    exists five :: FiveOf(five, one) && forall rival :: FiveOf(rival, other) ==> FiveScore(rival) <= FiveScore(five)
  }

  lemma HoldsByScore(one: seq<Card>, other: seq<Card>, a: int, b: int)
    requires IsBest(a, one) && IsBest(b, other)
    ensures Holds(one, other) <==> b <= a
  {
    hide FiveScore;
    if Holds(one, other) {
      var five :| FiveOf(five, one) && forall rival :: FiveOf(rival, other) ==> FiveScore(rival) <= FiveScore(five);
      var best :| FiveOf(best, other) && FiveScore(best) == b;
    }
    if b <= a {
      var five :| FiveOf(five, one) && FiveScore(five) == a;
      assert forall rival :: FiveOf(rival, other) ==> FiveScore(rival) <= FiveScore(five);
    }
  }

  /**
   * Who wins a pot, by the cards alone: a contender whose hole cards and the board hold,
   * against every other contender's, five cards that no five of the other outscore.
   */
  lemma WinnersByCards(s: State, pot: SidePot, i: nat)
    requires i < |s.players| && forall k :: 0 <= k < |s.players| && Contends(s.players, pot, k) ==> |Hand(s, k)| >= 5
    ensures Wins(s.players, Scores(s.players, s.community), pot, i)
       <==> Contends(s.players, pot, i)
            && forall j :: 0 <= j < |s.players| && Contends(s.players, pot, j) ==> Holds(Hand(s, i), Hand(s, j))
  {
    hide IsBest, Holds, Contends, Scores;
    var scores := Scores(s.players, s.community);
    if Contends(s.players, pot, i) {
      forall j | 0 <= j < |s.players| && Contends(s.players, pot, j)
        ensures Holds(Hand(s, i), Hand(s, j)) <==> scores[j] <= scores[i]
      {
        ScoresAreBest(s, i);
        ScoresAreBest(s, j);
        HoldsByScore(Hand(s, i), Hand(s, j), scores[i], scores[j]);
      }
    }
  }

  /**
   * A contested showdown of the machine. Everybody is settled on seven cards. Whoever gains
   * anything can win one of the pots, and has five cards that no five of another contender
   * of it outscore; whoever has such cards is paid at least an even share of the pot,
   * rounded down, and everybody else nothing of it.
   */
  lemma PaidByCards(s: State, pot: SidePot, i: nat)
    requires Inv(s) && s.phase == Showdown && |ActivePlayers(s.players)| > 1
    requires pot in s.sidePots && i < |s.players| && Contends(s.players, pot, i)
    ensures var pay := Payout(s.players, Scores(s.players, s.community), pot, i);
      && |Hand(s, i)| == 7
      && if forall j :: 0 <= j < |s.players| && Contends(s.players, pot, j) ==> Holds(Hand(s, i), Hand(s, j))
         then pay >= pot.amount / |s.players|
         else pay == 0
  {
    hide Scores, Holds, Inv, Contends, Wins;
    forall k | 0 <= k < |s.players| ensures |Hand(s, k)| == 7 {
      ShowdownHandsAreFull(s, k);
    }
    WinnersByCards(s, pot, i);
    PositiveAmount(s, pot);
    ShareOfWinner(s.players, Scores(s.players, s.community), pot, i);
  }

  lemma PositiveAmount(s: State, pot: SidePot)
    requires Inv(s) && pot in s.sidePots
    ensures pot.amount > 0
  {
  }

  lemma ShareOfWinner(players: seq<Player>, scores: seq<int>, pot: SidePot, i: nat)
    requires i < |players| == |scores| && pot.amount >= 0
    ensures var pay := Payout(players, scores, pot, i);
      if Wins(players, scores, pot, i) then pay >= pot.amount / |players| else pay == 0
  {
    hide Wins;
    if Wins(players, scores, pot, i) {
      var count := WinnerCount(players, scores, pot, |players|);
      WinnersBound(players, scores, pot, |players|);
      SmallerShare(pot.amount, count, |players|);
    }
  }

  lemma {:induction false} WinnersBound(players: seq<Player>, scores: seq<int>, pot: SidePot, n: nat)
    requires n <= |players| == |scores|
    ensures WinnerCount(players, scores, pot, n) <= n
  {
    if n > 0 {
      WinnersBound(players, scores, pot, n - 1);
    }
  }

  lemma SmallerShare(amount: int, count: nat, n: nat)
    requires amount >= 0 && 0 < count <= n
    ensures amount / n <= amount / count
  {
    var few, many := amount / count, amount / n;
    assert amount == few * count + amount % count && many * n <= amount;
    Times(many, n - count);
    assert many * n == many * count + many * (n - count);
    assert (many - few) * count == many * count - few * count;
    Times(many - few - 1, count);
    assert (many - few - 1) * count == (many - few) * count - count;
  }

  lemma Times(a: int, b: int)
    ensures a >= 0 && b >= 0 ==> a * b >= 0
  {
  }

  /** Settling a showdown pays each player what the pots pay it and clears the pots; cards and folds stay. */
  lemma ShowdownSettled(s: State, rng: HandRng)
    requires Inv(s) && s.phase == Showdown
    ensures Step(s, Next, rng).Accepted?
    ensures var t := Step(s, Next, rng).state;
      && t == s.(phase := Settle, players := t.players, pot := 0, sidePots := []) && |t.players| == |s.players|
      && forall i :: 0 <= i < |s.players| ==>
           && t.players[i] == s.players[i].(stack := t.players[i].stack)
           && t.players[i].stack - s.players[i].stack
              == Sum(Payouts(s.players, Scores(s.players, s.community), s.sidePots, i))
  {
    hide Scores, Payouts, ChipsAddUp;
  }

  /** With everybody folded nothing is settled. */
  lemma NobodyToPay(s: State)
    requires forall i :: 0 <= i < |s.players| ==> s.players[i].folded
    ensures SettledState(s) == s
  {
    NobodyActive(s.players);
  }

  lemma {:induction false} NobodyActive(players: seq<Player>)
    requires forall i :: 0 <= i < |players| ==> players[i].folded
    ensures ActivePlayers(players) == []
  {
    if players != [] {
      NobodyActive(players[1..]);
    }
  }

  /** Without side pots the whole pot goes to those still in, each of them a contender for it. */
  lemma SinglePot(s: State)
    requires s.sidePots == []
    ensures Sum(Amounts(PotsToSettle(s))) == s.pot && |PotsToSettle(s)| == 1
    ensures forall i :: 0 <= i < |s.players| ==> (Contends(s.players, PotsToSettle(s)[0], i) <==> !s.players[i].folded)
  {
    var pots := PotsToSettle(s);
    assert pots[1..] == [];
    assert Amounts(pots)[1..] == [];
    FilterMembers((p: Player) => !p.folded, s.players);
    forall i | 0 <= i < |s.players| && !s.players[i].folded ensures s.players[i].id in pots[0].players {
      var active := ActivePlayers(s.players);
      assert s.players[i] in active;
      var k :| 0 <= k < |active| && active[k] == s.players[i];
      assert Ids(active)[k] == s.players[i].id;
    }
  }
}
