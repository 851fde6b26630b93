/** The recursion over players and the largest-remainder rounding: shared/utils/icm.ts. */
module IcmRounding {
  import opened Sequences
  import opened RealSums
  import opened Icm
  import opened IcmPayouts

  /** The expectations of the players left, each added, times the chance, to the player it belongs to. */
  method AddSub(res: array<real>, sub: seq<real>, i: nat, prob: real)
    requires res.Length == |sub| + 1 && i < res.Length
    modifies res
    ensures res[i] == old(res[i])
    ensures forall p :: 0 <= p < res.Length && p != i ==> res[p] == old(res[p]) + Product(sub[Shifted(p, i)], prob)
  {
    hide Product;
    for j := 0 to |sub|
      invariant res[i] == old(res[i])
      invariant forall p :: 0 <= p < res.Length && p != i ==>
        res[p] == old(res[p]) + if Shifted(p, i) < j then Product(sub[Shifted(p, i)], prob) else 0.0
    {
      var idx := if j >= i then j + 1 else j;
      res[idx] := res[idx] + Product(sub[j], prob);
    }
  }

  lemma Scaled(a: real, b: real, s: real, total: real, prob: real)
    requires total > 0.0 && prob == s / total
    ensures Product(a + Product(b, prob), total) == Product(a, total) + Product(b, s)
    ensures Product(b, s) == Product(s, b)
  {
    DivideBack(s, total);
  }

  /**
   * The expectations. Null stands for a list with an entry that is not a number: dividing
   * by a table without chips makes one, and every addition passes it on.
   */
  method IcmRecursive(stacks: seq<real>, prizes: seq<real>) returns (res: array?<real>)
    requires NonNegative(stacks)
    ensures res != null <==> Solvent(stacks, |prizes|)
    ensures res != null ==> fresh(res) && res[..] == Expectations(stacks, prizes)
    decreases |prizes|
  {
    hide *;
    var n := |stacks|;
    res := new real[n](_ => 0.0);
    if |prizes| == 0 || n == 0 {
      NothingExpected(stacks, prizes);
      return;
    }
    var total := Total(stacks);
    ghost var empty := res[..];
    SolventStep(stacks, |prizes|);
    if total == 0.0 {
      return null;
    }
    ChipsLeft(stacks);
    StartsEmpty(stacks, prizes, empty);
    for i := 0 to n
      invariant fresh(res) && Holds(res[..], stacks, prizes, total, i)
      invariant |prizes| > 1 ==> forall k :: 0 <= k < i ==> Solvent(Without(stacks, k), |prizes| - 1)
    {
      ghost var before := res[..];
      NonNegativeWithout(stacks, i);
      var prob := stacks[i] / total;
      res[i] := res[i] + Product(prizes[0], prob);
      if |prizes| > 1 {
        var sub := IcmRecursive(Without(stacks, i), prizes[1..]);
        if sub == null {
          return null;
        }
        assert sub.Length == |sub[..]| == n - 1;
        AddSub(res, sub[..], i, prob);
      } else {
        assert prizes[1..] == [];
        NothingExpected(Without(stacks, i), prizes[1..]);
        NoProduct(prob);
      }
      HoldsNext(before, res[..], stacks, prizes, total, i, prob);
    }
    HoldsAll(res[..], stacks, prizes);
  }

  lemma NothingExpected(stacks: seq<real>, prizes: seq<real>)
    requires prizes == [] || stacks == []
    ensures Solvent(stacks, |prizes|)
    ensures |Expectations(stacks, prizes)| == |stacks|
    ensures forall p :: 0 <= p < |stacks| ==> Expectations(stacks, prizes)[p] == 0.0
  {
    forall p | 0 <= p < |stacks| ensures Expectations(stacks, prizes)[p] == 0.0 {
      ExpectationAt(stacks, p, []);
      NoPrizes(stacks[p], Without(stacks, p));
    }
  }

  /** What the loop has gathered after the first `i` players, times all chips. */
  ghost predicate Holds(res: seq<real>, stacks: seq<real>, prizes: seq<real>, total: real, i: nat)
    requires prizes != [] && i <= |stacks|
  {
    |res| == |stacks| && forall p :: 0 <= p < |stacks| ==> Product(res[p], total) == Gathered(stacks, prizes, p, i)
  }

  lemma StartsEmpty(stacks: seq<real>, prizes: seq<real>, empty: seq<real>)
    requires prizes != [] && |empty| == |stacks|
    requires forall p :: 0 <= p < |empty| ==> empty[p] == 0.0
    ensures Holds(empty, stacks, prizes, Total(stacks), 0)
  {
    hide Gathered;
    forall p | 0 <= p < |stacks| ensures Product(empty[p], Total(stacks)) == Gathered(stacks, prizes, p, 0) {
      GatheredNone(stacks, prizes, p);
    }
  }

  lemma HoldsNext(
    before: seq<real>, after: seq<real>, stacks: seq<real>, prizes: seq<real>, total: real, i: nat, prob: real)
    requires prizes != [] && i < |stacks| == |before| == |after| && total > 0.0 && prob == stacks[i] / total
    requires Holds(before, stacks, prizes, total, i)
    requires after[i] == before[i] + Product(prizes[0], prob)
    requires forall p :: 0 <= p < |after| && p != i ==>
      after[p] == before[p] + Product(Expectations(Without(stacks, i), prizes[1..])[Shifted(p, i)], prob)
    ensures Holds(after, stacks, prizes, total, i + 1)
  {
    hide Gathered, Expectations, Without, Product;
    forall p | 0 <= p < |stacks| ensures Product(after[p], total) == Gathered(stacks, prizes, p, i + 1) {
      GatheredStep(stacks, prizes, p, i);
      var share := if p == i then prizes[0] else Expectations(Without(stacks, i), prizes[1..])[Shifted(p, i)];
      Scaled(before[p], share, stacks[i], total, prob);
    }
  }

  lemma HoldsAll(res: seq<real>, stacks: seq<real>, prizes: seq<real>)
    requires prizes != [] && Total(stacks) > 0.0 && Holds(res, stacks, prizes, Total(stacks), |stacks|)
    ensures res == Expectations(stacks, prizes)
  {
    hide Gathered, Expectations, Total, Product;
    forall p | 0 <= p < |stacks| ensures res[p] == Expectations(stacks, prizes)[p] {
      GatheredAll(stacks, prizes, p);
      CancelFactor(res[p], Expectations(stacks, prizes)[p], Total(stacks));
    }
  }

  lemma CancelFactor(a: real, b: real, t: real)
    requires t > 0.0 && Product(a, t) == Product(b, t)
    ensures a == b
  {
  }

  // ---------- rounding ----------

  function ToReals(s: seq<int>): (r: seq<real>)
    ensures |r| == |s| && forall i :: 0 <= i < |r| ==> r[i] == s[i] as real
  {
    seq(|s|, i requires 0 <= i < |s| => s[i] as real)
  }

  function Floors(raw: seq<real>): (r: seq<int>)
    ensures |r| == |raw| && forall i :: 0 <= i < |r| ==> r[i] == raw[i].Floor
  {
    seq(|raw|, i requires 0 <= i < |raw| => raw[i].Floor)
  }

  /** A player and the part of its expectation that rounding down would lose. */
  datatype Fraction = Fraction(i: nat, frac: real)

  function LargestFirst(): (Fraction, Fraction) -> bool {
    (a: Fraction, b: Fraction) => a.frac >= b.frac
  }

  function Frac(x: real): real {
    x - x.Floor as real
  }

  function Fractions(raw: seq<real>): (r: seq<Fraction>)
    ensures |r| == |raw| && forall i :: 0 <= i < |r| ==> r[i] == Fraction(i, Frac(raw[i]))
  {
    seq(|raw|, i requires 0 <= i < |raw| => Fraction(i, Frac(raw[i])))
  }

  lemma {:induction false} IntegerTotal(s: seq<int>)
    ensures Total(ToReals(s)) == Sum(s) as real
  {
    if s != [] {
      IntegerTotal(s[1..]);
      assert ToReals(s)[1..] == ToReals(s[1..]);
    }
  }

  /** Rounding down loses less than one chip per player. */
  lemma {:induction false} FloorsLose(raw: seq<real>)
    ensures Sum(Floors(raw)) as real <= Total(raw)
    ensures raw != [] ==> Total(raw) < (Sum(Floors(raw)) + |raw|) as real
    ensures raw == [] ==> Total(raw) == Sum(Floors(raw)) as real
  {
    if raw != [] {
      FloorsLose(raw[1..]);
      assert Floors(raw)[1..] == Floors(raw[1..]);
    }
  }

  /** Of the prizes there is a player for, rounding down leaves fewer chips than there are players. */
  lemma RemainderFits(stacks: seq<real>, prizes: seq<int>)
    requires NonNegative(stacks) && Solvent(stacks, |prizes|)
    ensures var left := Sum(FirstOf(prizes, |stacks|)) - Sum(Floors(Expectations(stacks, ToReals(prizes))));
      0 <= left && (if stacks == [] then left == 0 else left < |stacks|)
  {
    hide Expectations, Solvent;
    ExpectationsAddUp(stacks, ToReals(prizes));
    assert FirstOf(ToReals(prizes), |stacks|) == ToReals(FirstOf(prizes, |stacks|));
    IntegerTotal(FirstOf(prizes, |stacks|));
    FloorsLose(Expectations(stacks, ToReals(prizes)));
  }

  /** Player `i` is handed a chip before player `j`: for the larger fraction, then for the earlier seat. */
  predicate Precedes(raw: seq<real>, i: nat, j: nat)
    requires i < |raw| && j < |raw|
  {
    Frac(raw[i]) > Frac(raw[j]) || (Frac(raw[i]) == Frac(raw[j]) && i < j)
  }

  /** The list goes by fractions and, between equal ones, by seats. */
  ghost predicate InTurn(s: seq<Fraction>) {
    forall j, k :: 0 <= j < k < |s| ==> s[j].frac > s[k].frac || (s[j].frac == s[k].frac && s[j].i < s[k].i)
  }

  lemma {:induction false} InsertInTurn(x: Fraction, s: seq<Fraction>)
    requires InTurn(s) && forall k :: 0 <= k < |s| ==> x.i < s[k].i
    ensures InTurn(Insert(LargestFirst(), x, s))
  {
    if s != [] && !LargestFirst()(x, s[0]) {
      InsertInTurn(x, s[1..]);
      InsertKeeps(LargestFirst(), x, s[1..]);
      var rest := Insert(LargestFirst(), x, s[1..]);
      forall k | 0 <= k < |rest| ensures s[0].frac > rest[k].frac || (s[0].frac == rest[k].frac && s[0].i < rest[k].i) {
        assert rest[k] in rest;
      }
    }
  }

  /** The sort keeps equal fractions in the order of the seats. */
  lemma {:induction false} SortInTurn(s: seq<Fraction>)
    requires forall j, k :: 0 <= j < k < |s| ==> s[j].i < s[k].i
    ensures InTurn(Sort(LargestFirst(), s))
  {
    if s != [] {
      SortInTurn(s[1..]);
      assert TotalPreorder(LargestFirst());
      SortSorts(LargestFirst(), s[1..]);
      SameMembers(Sort(LargestFirst(), s[1..]), s[1..]);
      forall k | 0 <= k < |s| - 1 ensures s[0].i < Sort(LargestFirst(), s[1..])[k].i {
        assert Sort(LargestFirst(), s[1..])[k] in s[1..];
      }
      InsertInTurn(s[0], Sort(LargestFirst(), s[1..]));
    }
  }

  /** The list has every player's fraction once, in the order in which chips are handed out. */
  ghost predicate TurnOrder(order: seq<Fraction>, raw: seq<real>) {
    && |order| == |raw|
    && (forall k :: 0 <= k < |order| ==> order[k].i < |raw| && order[k] == Fractions(raw)[order[k].i])
    && (forall j, k :: 0 <= j < k < |order| ==> order[j].i != order[k].i)
    && InTurn(order)
    && (forall i :: 0 <= i < |raw| ==> Fractions(raw)[i] in order)
  }

  lemma FractionOrder(raw: seq<real>)
    ensures TurnOrder(Sort(LargestFirst(), Fractions(raw)), raw)
  {
    hide Sort, InTurn, Frac;
    var list, order := Fractions(raw), Sort(LargestFirst(), Fractions(raw));
    SamePlayers(list, order);
    SortInTurn(list);
    forall k | 0 <= k < |order| ensures order[k].i < |raw| && order[k] == list[order[k].i] {
      assert order[k] in list;
    }
    assert forall i :: 0 <= i < |raw| ==> list[i] in order;
  }

  lemma SamePlayers(list: seq<Fraction>, order: seq<Fraction>)
    requires order == Sort(LargestFirst(), list) && Distinct(list)
    ensures Distinct(order) && forall x :: x in order <==> x in list
  {
    assert TotalPreorder(LargestFirst());
    SortSorts(LargestFirst(), list);
    DistinctMultiset(list);
    MultisetDistinct(order);
    SameMembers(order, list);
  }

  /** The player is handed a chip on top of its expectation rounded down. */
  predicate Served(payouts: seq<int>, raw: seq<real>, i: nat)
    requires i < |payouts| == |raw|
  {
    payouts[i] > raw[i].Floor
  }

  /**
   * Each payout is its expectation rounded down, or one more for the largest fractions, the
   * earlier seats first between equal ones; together they are the pool.
   */
  ghost predicate Rounded(payouts: seq<int>, raw: seq<real>, pool: int) {
    && |payouts| == |raw| && Sum(payouts) == pool
    && (forall i :: 0 <= i < |raw| ==> raw[i].Floor <= payouts[i] <= raw[i].Floor + 1)
    && (forall i, j :: 0 <= i < |raw| && 0 <= j < |raw| && Served(payouts, raw, i) && !Served(payouts, raw, j) ==>
          Precedes(raw, i, j))
  }

  /** The payouts, or what goes wrong: an entry that is not a number, or more chips to hand out than players. */
  datatype Payouts = Paid(chips: seq<int>) | NotANumber | OutOfPlayers

  /** With a player for every prize nothing runs out and the payouts are the prizes. */
  method CalculateIcmPayouts(stacks: seq<real>, prizes: seq<int>) returns (payouts: Payouts)
    requires NonNegative(stacks)
    ensures var raw := Expectations(stacks, ToReals(prizes));
      && (payouts.NotANumber? <==> !Solvent(stacks, |prizes|))
      && (payouts.OutOfPlayers? <==> Solvent(stacks, |prizes|) && Sum(prizes) - Sum(Floors(raw)) > |stacks|)
      && (payouts.Paid? ==> Rounded(payouts.chips, raw, LeastPool(raw, Sum(prizes))))
      && (payouts.Paid? && |prizes| <= |stacks| ==> Rounded(payouts.chips, raw, Sum(prizes)))
    ensures Solvent(stacks, |prizes|) && |prizes| <= |stacks| ==> payouts.Paid?
  {
    hide Expectations, Fractions, Floors, ToReals, Rounded, Solvent, NonNegative;
    var res := IcmRecursive(stacks, ToReals(prizes));
    if res == null {
      return NotANumber;
    }
    RemainderFits(stacks, prizes);
    var floored := RoundDownAndShare(res[..], Sum(prizes));
    payouts := if floored == null then OutOfPlayers else Paid(floored[..]);
  }

  /** Nothing is taken back when the expectations rounded down already exceed the pool. */
  function LeastPool(raw: seq<real>, pool: int): int {
    if pool < Sum(Floors(raw)) then Sum(Floors(raw)) else pool
  }

  /** Every expectation rounded down, then one chip to each of the largest fractions while chips remain. */
  method RoundDownAndShare(raw: seq<real>, pool: int) returns (floored: array?<int>)
    ensures floored == null <==> pool - Sum(Floors(raw)) > |raw|
    ensures floored != null ==> fresh(floored) && Rounded(floored[..], raw, LeastPool(raw, pool))
  {
    hide *;
    var floors := new int[|raw|](i requires 0 <= i < |raw| => raw[i].Floor);
    assert floors[..] == Floors(raw);
    var remainder := pool - Sum(floors[..]);
    var fractions := Sort(LargestFirst(), Fractions(raw));
    FractionOrder(raw);
    if remainder > |fractions| {
      return null;
    }
    var served := if remainder < 0 then 0 else remainder;
    HandOut(floors, fractions, served, raw);
    LargestServed(floors[..], raw, fractions, served);
    assert Sum(floors[..]) == LeastPool(raw, pool) by { TakesNothingBack(raw, pool); }
    return floors;
  }

  lemma TakesNothingBack(raw: seq<real>, pool: int)
    ensures var remainder := pool - Sum(Floors(raw));
      LeastPool(raw, pool) == Sum(Floors(raw)) + if remainder < 0 then 0 else remainder
  {
  }

  /** The first `served` players listed have one chip more than before, the others what they had. */
  ghost predicate HandedOut(after: seq<int>, before: seq<int>, order: seq<Fraction>, served: nat)
    requires served <= |order| == |after| == |before|
    requires forall k :: 0 <= k < |order| ==> order[k].i < |order|
  {
    && (forall q :: 0 <= q < served ==> after[order[q].i] == before[order[q].i] + 1)
    && (forall q :: served <= q < |order| ==> after[order[q].i] == before[order[q].i])
  }

  lemma PlayersListed(order: seq<Fraction>, raw: seq<real>)
    requires TurnOrder(order, raw)
    ensures |order| == |raw| && forall k :: 0 <= k < |order| ==> order[k].i < |order|
    ensures forall j, k :: 0 <= j < k < |order| ==> order[j].i != order[k].i
  {
  }

  /** One chip more for each of the first `served` players listed. */
  method HandOut(floored: array<int>, order: seq<Fraction>, served: nat, ghost raw: seq<real>)
    requires served <= |order| == floored.Length == |raw| && TurnOrder(order, raw)
    modifies floored
    ensures Sum(floored[..]) == Sum(old(floored[..])) + served
    ensures forall k :: 0 <= k < |order| ==> order[k].i < |order|
    ensures HandedOut(floored[..], old(floored[..]), order, served)
  {
    hide Sum, TurnOrder;
    PlayersListed(order, raw);
    ghost var floors := floored[..];
    for k := 0 to served
      invariant Sum(floored[..]) == Sum(floors) + k
      invariant HandedOut(floored[..], floors, order, k)
    {
      var i := order[k].i;
      ghost var before := floored[..];
      SumUpdate(before, i, before[i] + 1);
      floored[i] := floored[i] + 1;
      assert floored[..] == before[i := before[i] + 1];
    }
  }

  lemma LargestServed(payouts: seq<int>, raw: seq<real>, order: seq<Fraction>, served: nat)
    requires |payouts| == |raw| == |order| && served <= |raw| && TurnOrder(order, raw)
    requires forall k :: 0 <= k < |order| ==> order[k].i < |order|
    requires HandedOut(payouts, Floors(raw), order, served)
    ensures Rounded(payouts, raw, Sum(payouts))
  {
    hide Sum, Frac, TurnOrder, HandedOut, Fractions;
    forall i | 0 <= i < |raw| ensures raw[i].Floor <= payouts[i] <= raw[i].Floor + 1 {
      var p := PlaceInOrder(order, raw, i);
      ServedAt(payouts, raw, order, served, p);
    }
    forall i, j | 0 <= i < |raw| && 0 <= j < |raw| && Served(payouts, raw, i) && !Served(payouts, raw, j)
      ensures Precedes(raw, i, j)
    {
      var p := PlaceInOrder(order, raw, i);
      var q := PlaceInOrder(order, raw, j);
      ServedAt(payouts, raw, order, served, p);
      ServedAt(payouts, raw, order, served, q);
      EarlierPrecedes(order, raw, p, q);
    }
  }

  lemma PlaceInOrder(order: seq<Fraction>, raw: seq<real>, i: nat) returns (p: nat)
    requires TurnOrder(order, raw) && i < |raw|
    ensures p < |order| && order[p].i == i
  {
    p :| 0 <= p < |order| && order[p] == Fractions(raw)[i];
  }

  lemma ServedAt(payouts: seq<int>, raw: seq<real>, order: seq<Fraction>, served: nat, p: nat)
    requires |payouts| == |raw| == |order| && served <= |raw| && p < |order|
    requires forall k :: 0 <= k < |order| ==> order[k].i < |order|
    requires HandedOut(payouts, Floors(raw), order, served)
    ensures payouts[order[p].i] == raw[order[p].i].Floor + if p < served then 1 else 0
  {
  }

  lemma EarlierPrecedes(order: seq<Fraction>, raw: seq<real>, p: nat, q: nat)
    requires TurnOrder(order, raw) && p < q < |order|
    ensures order[p].i < |raw| && order[q].i < |raw| && Precedes(raw, order[p].i, order[q].i)
  {
    hide Frac;
    assert order[p] == Fractions(raw)[order[p].i] && order[q] == Fractions(raw)[order[q].i];
  }

  // ---------- who is served ----------

  /** How many players are handed a chip before this one. */
  function Ahead(raw: seq<real>, i: nat): nat
    requires i < |raw|
  {
    |set k: nat | k < |raw| && Precedes(raw, k, i)|
  }

  ghost function ServedSet(payouts: seq<int>, raw: seq<real>): set<nat>
    requires |payouts| == |raw|
  {
    set k: nat | k < |raw| && Served(payouts, raw, k)
  }

  lemma {:induction false} ServedCount(payouts: seq<int>, raw: seq<real>)
    requires |payouts| == |raw| && forall i :: 0 <= i < |raw| ==> raw[i].Floor <= payouts[i] <= raw[i].Floor + 1
    ensures |ServedSet(payouts, raw)| == Sum(payouts) - Sum(Floors(raw))
  {
    if raw == [] {
      assert ServedSet(payouts, raw) == {};
    } else {
      hide ServedSet, Sum;
      var n := |raw| - 1;
      ServedCount(payouts[..n], raw[..n]);
      assert payouts == payouts[..n] + [payouts[n]];
      assert Floors(raw) == Floors(raw[..n]) + [raw[n].Floor];
      SumAppend(payouts[..n], [payouts[n]]);
      SumAppend(Floors(raw[..n]), [raw[n].Floor]);
      SumOfOne(payouts[n]);
      SumOfOne(raw[n].Floor);
      ServedLast(payouts, raw, n);
    }
  }

  lemma SumOfOne(x: int)
    ensures Sum([x]) == x
  {
  }

  lemma ServedLast(payouts: seq<int>, raw: seq<real>, n: nat)
    requires |payouts| == |raw| == n + 1
    ensures |ServedSet(payouts, raw)| == |ServedSet(payouts[..n], raw[..n])| + if Served(payouts, raw, n) then 1 else 0
  {
    var before := ServedSet(payouts[..n], raw[..n]);
    assert n !in before;
    assert ServedSet(payouts, raw) == if Served(payouts, raw, n) then before + {n} else before;
  }

  /** The payouts, exactly: a chip more for each player with fewer players ahead of it than chips to hand out. */
  lemma ServedByPlace(payouts: seq<int>, raw: seq<real>, pool: int, i: nat)
    requires Rounded(payouts, raw, pool) && i < |raw|
    ensures payouts[i] == raw[i].Floor + if Ahead(raw, i) < pool - Sum(Floors(raw)) then 1 else 0
  {
    hide Frac, Floors;
    var ahead := set k: nat | k < |raw| && Precedes(raw, k, i);
    var served := ServedSet(payouts, raw);
    ServedCount(payouts, raw);
    if Served(payouts, raw, i) {
      assert ahead <= served - {i};
      Fewer(ahead, served - {i});
    } else {
      assert served <= ahead;
      Fewer(served, ahead);
    }
  }

  lemma Fewer(a: set<nat>, b: set<nat>)
    requires a <= b
    ensures |a| <= |b|
  {
    assert |b - a| == |b| - |a|;
  }

  // ---------- what the player handbook says ----------

  /** Nobody who is handed a chip expects less than somebody who is not. */
  ghost predicate ServesHighest(payouts: seq<int>, raw: seq<real>)
    requires |payouts| == |raw|
  {
    forall i, j :: 0 <= i < |raw| && 0 <= j < |raw| && Served(payouts, raw, i) && !Served(payouts, raw, j) ==>
      raw[i] >= raw[j]
  }

  lemma AheadFollowsTurn(raw: seq<real>, i: nat, j: nat)
    requires i < |raw| && j < |raw| && Precedes(raw, i, j)
    ensures Ahead(raw, i) <= Ahead(raw, j)
  {
    hide Frac;
    Fewer(set k: nat | k < |raw| && Precedes(raw, k, i), set k: nat | k < |raw| && Precedes(raw, k, j));
  }

  /**
   * When the largest fractions are the highest expectations: exactly when no player is
   * handed a chip for its fraction while one with more whole chips is left out for its own.
   */
  lemma HandbookRule(payouts: seq<int>, raw: seq<real>, pool: int)
    requires Rounded(payouts, raw, pool)
    ensures var chips := pool - Sum(Floors(raw));
      ServesHighest(payouts, raw)
      <==> forall i, j :: 0 <= i < |raw| && 0 <= j < |raw| && raw[i].Floor < raw[j].Floor && Ahead(raw, i) < chips ==>
             Ahead(raw, j) < chips
  {
    hide Ahead, Floors;
    forall i | 0 <= i < |raw|
      ensures Served(payouts, raw, i) <==> Ahead(raw, i) < pool - Sum(Floors(raw))
    {
      ServedByPlace(payouts, raw, pool, i);
    }
    forall i, j | 0 <= i < |raw| && 0 <= j < |raw| && Served(payouts, raw, i) && !Served(payouts, raw, j)
      ensures raw[i] < raw[j] ==> raw[i].Floor < raw[j].Floor
      ensures raw[i].Floor < raw[j].Floor ==> raw[i] < raw[j]
    {
      assert Precedes(raw, i, j);
    }
  }

  /** No rounding error reaches one chip, as long as there is a player for every prize. */
  lemma ErrorsBelowOne(stacks: seq<real>, prizes: seq<int>, payouts: seq<int>)
    requires NonNegative(stacks) && Solvent(stacks, |prizes|) && |prizes| <= |stacks|
    requires Rounded(payouts, Expectations(stacks, ToReals(prizes)), Sum(prizes))
    ensures forall i :: 0 <= i < |stacks| ==>
      -1.0 < payouts[i] as real - Expectations(stacks, ToReals(prizes))[i] < 1.0
  {
    hide Expectations, Solvent, Rounded;
    ExpectationsAddUp(stacks, ToReals(prizes));
    IntegerTotal(prizes);
    SmallErrors(payouts, Expectations(stacks, ToReals(prizes)), Sum(prizes));
  }

  lemma SmallErrors(payouts: seq<int>, raw: seq<real>, pool: int)
    requires Rounded(payouts, raw, pool) && Total(raw) == pool as real
    ensures forall i :: 0 <= i < |raw| ==> -1.0 < payouts[i] as real - raw[i] < 1.0
  {
    hide Precedes;
    var errors := seq(|raw|, i requires 0 <= i < |raw| => payouts[i] as real - raw[i]);
    IntegerTotal(payouts);
    Differences(ToReals(payouts), raw, errors);
    forall i | 0 <= i < |raw| ensures -1.0 < errors[i] < 1.0 {
      if errors[i] >= 1.0 {
        forall j | 0 <= j < |raw| ensures errors[j] >= 0.0 {
          if !Served(payouts, raw, j) {
            SmallestFraction(raw, i, j);
          }
        }
        OneAmongNone(errors, i);
      }
    }
  }

  lemma SmallestFraction(raw: seq<real>, i: nat, j: nat)
    requires i < |raw| && j < |raw| && Precedes(raw, i, j)
    ensures Frac(raw[i]) >= Frac(raw[j]) >= 0.0
  {
  }

  lemma {:induction false} Differences(a: seq<real>, b: seq<real>, d: seq<real>)
    requires |a| == |b| == |d| && forall i :: 0 <= i < |d| ==> d[i] == a[i] - b[i]
    ensures Total(d) == Total(a) - Total(b)
  {
    if d != [] {
      Differences(a[1..], b[1..], d[1..]);
    }
  }

  lemma {:induction false} OneAmongNone(s: seq<real>, i: nat)
    requires i < |s| && s[i] >= 1.0 && forall j :: 0 <= j < |s| ==> s[j] >= 0.0
    ensures Total(s) >= 1.0
  {
    if i > 0 {
      OneAmongNone(s[1..], i - 1);
    } else {
      TotalNonNegative(s[1..]);
    }
  }

  lemma LastOfTwo(x: real, rival: real, first: real, second: real)
    requires x > 0.0 && rival > 0.0
    ensures Expectation(x, [rival], [first, second]) == (first * x + rival * second) / (x + rival)
  {
    var prizes := [first, second];
    assert prizes[1..] == [second] && Without([rival], 0) == [];
    assert [rival][1..] == [] && [second][1..] == [];
    Unfolded(x, [rival], prizes);
    Unfolded(x, [], [second]);
    assert AfterRivals(x, [], [second], 0) == 0.0;
    assert Expectation(x, [], [second]) == second;
    assert AfterRivals(x, [rival], prizes, 0) == 0.0;
    SingleTotal(rival);
  }

  /** What three players with both others' turns to come can expect of three prizes. */
  lemma FirstOfThree(x: real, y: real, z: real, a: real, b: real, c: real)
    requires x > 0.0 && y > 0.0 && z > 0.0
    ensures Expectation(x, [y, z], [a, b, c])
         == (a * x + y * ((b * x + z * c) / (x + z)) + z * ((b * x + y * c) / (x + y))) / (x + y + z)
  {
    var rivals, prizes := [y, z], [a, b, c];
    assert Without(rivals, 0) == [z] && Without(rivals, 1) == [y] && prizes[1..] == [b, c] && rivals[1..] == [z];
    Unfolded(x, rivals, prizes);
    OneMoreRival(x, rivals, prizes, 0);
    OneMoreRival(x, rivals, prizes, 1);
    LastOfTwo(x, z, b, c);
    LastOfTwo(x, y, b, c);
    SingleTotal(z);
  }

  const HANDBOOK_STACKS: seq<real> := [5000.0, 3000.0, 2000.0]
  const HANDBOOK_PRIZES: seq<int> := [50, 30, 20]

  lemma HandbookExpectations()
    ensures Expectations(HANDBOOK_STACKS, ToReals(HANDBOOK_PRIZES)) == [1075.0 / 28.0, 131.0 / 4.0, 202.0 / 7.0]
  {
    hide Expectation;
    var stacks, prizes := HANDBOOK_STACKS, ToReals(HANDBOOK_PRIZES);
    assert prizes == [50.0, 30.0, 20.0];
    assert Without(stacks, 0) == [3000.0, 2000.0];
    assert Without(stacks, 1) == [5000.0, 2000.0];
    assert Without(stacks, 2) == [5000.0, 3000.0];
    FirstOfThree(5000.0, 3000.0, 2000.0, 50.0, 30.0, 20.0);
    FirstOfThree(3000.0, 5000.0, 2000.0, 50.0, 30.0, 20.0);
    FirstOfThree(2000.0, 5000.0, 3000.0, 50.0, 30.0, 20.0);
    ExpectationAt(stacks, 0, prizes);
    ExpectationAt(stacks, 1, prizes);
    ExpectationAt(stacks, 2, prizes);
  }

  /**
   * The player handbook's table, stacks of 5000, 3000 and 2000 playing for 50, 30 and 20, is
   * paid 38, 33 and 29: not the prizes themselves, and not by the handbook's rounding either,
   * which would hand the leader a chip before anybody else.
   */
  lemma HandbookExample(payouts: seq<int>)
    requires Rounded(payouts, Expectations(HANDBOOK_STACKS, ToReals(HANDBOOK_PRIZES)), 100)
    ensures payouts == [38, 33, 29]
    ensures !ServesHighest(payouts, Expectations(HANDBOOK_STACKS, ToReals(HANDBOOK_PRIZES)))
  {
    hide Expectations, ToReals, Sum;
    var raw := Expectations(HANDBOOK_STACKS, ToReals(HANDBOOK_PRIZES));
    HandbookExpectations();
    SumOfThree(payouts);
    assert raw[0].Floor == 38 && raw[1].Floor == 32 && raw[2].Floor == 28;
    var first, second, third := Served(payouts, raw, 0), Served(payouts, raw, 1), Served(payouts, raw, 2);
    assert !Precedes(raw, 0, 1) && !Precedes(raw, 0, 2);
    assert first ==> second && third;
    assert second && !first;
  }

  lemma SumOfThree(s: seq<int>)
    requires |s| == 3
    ensures Sum(s) == s[0] + s[1] + s[2]
  {
    var rest := s[1..];
    assert rest[1..] == [s[2]];
    assert Sum([s[2]]) == s[2];
    assert Sum(rest) == rest[0] + Sum(rest[1..]);
  }
}
