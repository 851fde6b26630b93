/** Independent Chip Model payouts: shared/utils/icm.ts. */
module Icm {
  import opened Sequences
  import opened RealSums

  ghost predicate NonNegative(s: seq<real>) {
    forall i :: 0 <= i < |s| ==> s[i] >= 0.0
  }

  lemma {:induction false} TotalNonNegative(s: seq<real>)
    requires NonNegative(s)
    ensures Total(s) >= 0.0
  {
    if s != [] {
      TotalNonNegative(s[1..]);
    }
  }

  // ---------- one player's expectation ----------

  /** The first prize in proportion to the chips, and what the rivals leave; nothing where there are no chips. */
  function Share(prize: real, x: real, rest: real, total: real): real {
    if x + total == 0.0 then 0.0 else (prize * x + rest) / (x + total)
  }

  /**
   * What a player with stack `x` can expect against `rivals`: the first prize with the
   * chance its chips give it, and otherwise, for each rival who comes first instead, what
   * it can expect of the remaining prizes against the remaining rivals.
   */
  function Expectation(x: real, rivals: seq<real>, prizes: seq<real>): real
    decreases |prizes|, |rivals| + 1
  {
    if prizes == [] then 0.0
    else Share(prizes[0], x, AfterRivals(x, rivals, prizes, |rivals|), Total(rivals))
  }

  /** The first `n` rivals' chips, each times what is left for the player once that rival is first. */
  function AfterRivals(x: real, rivals: seq<real>, prizes: seq<real>, n: nat): real
    requires prizes != [] && n <= |rivals|
    decreases |prizes|, n
  {
    if n == 0 then 0.0
    else
      AfterRivals(x, rivals, prizes, n - 1)
      + Product(rivals[n - 1], Expectation(x, Without(rivals, n - 1), prizes[1..]))
  }

  lemma Unfolded(x: real, rivals: seq<real>, prizes: seq<real>)
    requires prizes != []
    ensures Expectation(x, rivals, prizes)
         == Share(prizes[0], x, AfterRivals(x, rivals, prizes, |rivals|), Total(rivals))
  {
  }

  // ---------- bounds ----------

  ghost predicate PrizesWithin(prizes: seq<real>, cap: real) {
    forall k :: 0 <= k < |prizes| ==> 0.0 <= prizes[k] <= cap
  }

  lemma OneMoreTerm(sum: real, total: real, chips: real, e: real, cap: real)
    requires 0.0 <= sum <= Product(cap, total) && 0.0 <= e <= cap && chips >= 0.0
    ensures 0.0 <= sum + Product(chips, e) <= Product(cap, total + chips)
  {
    Mul(e, cap, chips);
    Mul(0.0, e, chips);
    Distribute(cap, total, chips);
  }

  lemma {:induction false} AfterRivalsBounds(x: real, rivals: seq<real>, prizes: seq<real>, n: nat, cap: real)
    requires x >= 0.0 && NonNegative(rivals) && prizes != [] && n <= |rivals|
    requires PrizesWithin(prizes, cap) && cap >= 0.0
    ensures 0.0 <= AfterRivals(x, rivals, prizes, n) <= Product(cap, Total(rivals[..n]))
    decreases |prizes|, n
  {
    hide Expectation, AfterRivals, Product;
    if n == 0 {
      NoRivalYet(x, rivals, prizes);
      NoProduct(cap);
    } else {
      OneMoreRival(x, rivals, prizes, n - 1);
      var e := Expectation(x, Without(rivals, n - 1), prizes[1..]);
      AfterRivalsBounds(x, rivals, prizes, n - 1, cap);
      ExpectationBounds(x, Without(rivals, n - 1), prizes[1..], cap);
      assert rivals[..n] == rivals[..n - 1] + [rivals[n - 1]];
      TotalAppend(rivals[..n - 1], [rivals[n - 1]]);
      SingleTotal(rivals[n - 1]);
      OneMoreTerm(AfterRivals(x, rivals, prizes, n - 1), Total(rivals[..n - 1]), rivals[n - 1], e, cap);
    }
  }

  /** An expectation lies between nothing and the largest prize. */
  lemma {:induction false} ExpectationBounds(x: real, rivals: seq<real>, prizes: seq<real>, cap: real)
    requires x >= 0.0 && NonNegative(rivals) && PrizesWithin(prizes, cap) && cap >= 0.0
    ensures 0.0 <= Expectation(x, rivals, prizes) <= cap
    decreases |prizes|, |rivals| + 1
  {
    hide Expectation, AfterRivals, Share, Product;
    if prizes == [] {
      NoPrizes(x, rivals);
    } else {
      Unfolded(x, rivals, prizes);
      AfterRivalsBounds(x, rivals, prizes, |rivals|, cap);
      TotalNonNegative(rivals);
      assert rivals[..|rivals|] == rivals;
      FirstPrizeBounds(prizes[0], x, AfterRivals(x, rivals, prizes, |rivals|), Total(rivals), cap);
    }
  }

  lemma NoRivalYet(x: real, rivals: seq<real>, prizes: seq<real>)
    requires prizes != []
    ensures AfterRivals(x, rivals, prizes, 0) == 0.0 && Total(rivals[..0]) == 0.0
  {
  }

  lemma FirstPrizeBounds(prize: real, x: real, rest: real, total: real, cap: real)
    requires 0.0 <= prize <= cap && x >= 0.0 && 0.0 <= rest <= Product(cap, total) && total >= 0.0
    ensures 0.0 <= Share(prize, x, rest, total) <= cap
  {
    if x + total != 0.0 {
      Mul(prize, cap, x);
      Mul(0.0, prize, x);
      Distribute(cap, x, total);
      Fraction(prize * x + rest, x + total, cap);
    }
  }

  lemma Fraction(num: real, den: real, cap: real)
    requires den > 0.0 && 0.0 <= num <= cap * den
    ensures 0.0 <= num / den <= cap
  {
    var r := num / den;
    assert r * den == num;
    if r > cap {
      StrictMul(cap, r, den);
    }
    if r < 0.0 {
      StrictMul(r, 0.0, den);
    }
  }

  // ---------- a larger stack expects more ----------

  /** No prize exceeds the one before it, and none is negative. */
  ghost predicate Ranked(prizes: seq<real>) {
    forall j, k :: 0 <= j <= k < |prizes| ==> prizes[j] >= prizes[k] >= 0.0
  }

  lemma RankedTail(prizes: seq<real>)
    requires Ranked(prizes) && prizes != []
    ensures Ranked(prizes[1..]) && PrizesWithin(prizes[1..], prizes[0]) && prizes[0] >= 0.0
  {
    assert prizes[0] >= prizes[0];
  }

  lemma {:induction false} AfterRivalsGrows(x: real, y: real, rivals: seq<real>, prizes: seq<real>, n: nat)
    requires 0.0 <= x <= y && NonNegative(rivals) && prizes != [] && Ranked(prizes) && n <= |rivals|
    ensures AfterRivals(x, rivals, prizes, n) <= AfterRivals(y, rivals, prizes, n)
    decreases |prizes|, n
  {
    hide Expectation, AfterRivals, Without, Product;
    if n == 0 {
      NoRivalYet(x, rivals, prizes);
      NoRivalYet(y, rivals, prizes);
    } else {
      NonNegativeWithout(rivals, n - 1);
      OneMoreRival(x, rivals, prizes, n - 1);
      OneMoreRival(y, rivals, prizes, n - 1);
      AfterRivalsGrows(x, y, rivals, prizes, n - 1);
      RankedTail(prizes);
      ExpectationGrows(x, y, Without(rivals, n - 1), prizes[1..]);
      OneMoreGrows(AfterRivals(x, rivals, prizes, n - 1), AfterRivals(y, rivals, prizes, n - 1), rivals[n - 1],
        Expectation(x, Without(rivals, n - 1), prizes[1..]), Expectation(y, Without(rivals, n - 1), prizes[1..]));
    }
  }

  lemma OneMoreGrows(a: real, b: real, chips: real, e: real, f: real)
    requires a <= b && chips >= 0.0 && e <= f
    ensures a + Product(chips, e) <= b + Product(chips, f)
  {
    Mul(e, f, chips);
  }

  lemma NonNegativeWithout(s: seq<real>, i: nat)
    requires NonNegative(s) && i < |s|
    ensures NonNegative(Without(s, i)) && s[i] >= 0.0
  {
  }

  lemma NonNegativeCons(x: real, s: seq<real>)
    requires NonNegative(s) && x >= 0.0
    ensures NonNegative([x] + s)
  {
  }

  /** Against the same rivals, more chips never mean a smaller expectation. */
  lemma {:induction false} ExpectationGrows(x: real, y: real, rivals: seq<real>, prizes: seq<real>)
    requires 0.0 <= x <= y && NonNegative(rivals) && Ranked(prizes)
    ensures Expectation(x, rivals, prizes) <= Expectation(y, rivals, prizes)
    decreases |prizes|, |rivals| + 1
  {
    if prizes != [] {
      RankedTail(prizes);
      AfterRivalsGrows(x, y, rivals, prizes, |rivals|);
      RestBound(x, rivals, prizes);
      RestBound(y, rivals, prizes);
      WeightedGrows(x, y, rivals, prizes);
    }
  }

  lemma WeightedGrows(x: real, y: real, rivals: seq<real>, prizes: seq<real>)
    requires 0.0 <= x <= y && NonNegative(rivals) && prizes != [] && prizes[0] >= 0.0
    requires 0.0 <= AfterRivals(x, rivals, prizes, |rivals|) <= AfterRivals(y, rivals, prizes, |rivals|)
    requires AfterRivals(y, rivals, prizes, |rivals|) <= Product(prizes[0], Total(rivals))
    ensures Expectation(x, rivals, prizes) <= Expectation(y, rivals, prizes)
  {
    hide Expectation, AfterRivals, Total, Share, Product;
    TotalNonNegative(rivals);
    var gx, gy := AfterRivals(x, rivals, prizes, |rivals|), AfterRivals(y, rivals, prizes, |rivals|);
    Weights(x, y, Total(rivals), prizes[0], gx, gy);
    Unfolded(x, rivals, prizes);
    Unfolded(y, rivals, prizes);
  }

  /** After the first prize is gone, at most the second is left for each rival's share of the chips. */
  lemma RestBound(x: real, rivals: seq<real>, prizes: seq<real>)
    requires x >= 0.0 && NonNegative(rivals) && prizes != [] && Ranked(prizes)
    ensures 0.0 <= AfterRivals(x, rivals, prizes, |rivals|) <= Product(prizes[0], Total(rivals))
  {
    RankedTail(prizes);
    assert PrizesWithin(prizes, prizes[0]);
    AfterRivalsBounds(x, rivals, prizes, |rivals|, prizes[0]);
    assert rivals[..|rivals|] == rivals;
  }

  lemma Weights(x: real, y: real, r: real, p: real, gx: real, gy: real)
    requires 0.0 <= x <= y && r >= 0.0 && p >= 0.0 && 0.0 <= gx <= gy <= Product(p, r)
    ensures Share(p, x, gx, r) <= Share(p, y, gy, r)
  {
    if x + r == 0.0 {
      FirstPrizeBounds(p, y, gy, r, p);
    } else {
      Mul(gy, p * r, y - x);
      CrossTerms(x, y, r, p, gy);
      Mul(p * x + gx, p * x + gy, y + r);
      Cross(p * x + gx, x + r, p * y + gy, y + r);
    }
  }

  lemma CrossTerms(x: real, y: real, r: real, p: real, g: real)
    requires g * (y - x) <= p * r * (y - x)
    ensures (p * x + g) * (y + r) <= (p * y + g) * (x + r)
  {
    calc {
      (p * y + g) * (x + r) - (p * x + g) * (y + r);
      p * y * x + p * y * r + g * x + g * r - (p * x * y + p * x * r + g * y + g * r);
      p * y * r - p * x * r + g * x - g * y;
      p * r * (y - x) - g * (y - x);
    }
  }

  lemma Cross(a: real, b: real, c: real, d: real)
    requires b > 0.0 && d > 0.0 && a * d <= c * b
    ensures a / b <= c / d
  {
    var u, v := a / b, c / d;
    assert u * b == a && v * d == c;
    if u > v {
      assert u * (b * d) == a * d;
      assert v * (b * d) == c * b;
      assert b * d > 0.0;
      StrictMul(v, u, b * d);
    }
  }

  // ---------- the order of the rivals does not matter ----------

  /** A rival's chips times what is left for the player once that rival is first. */
  ghost function Term(x: real, rivals: seq<real>, prizes: seq<real>, i: nat): real
    requires prizes != [] && i < |rivals|
  {
    Product(rivals[i], Expectation(x, Without(rivals, i), prizes[1..]))
  }

  ghost function Terms(x: real, rivals: seq<real>, prizes: seq<real>, n: nat): (r: seq<real>)
    requires prizes != [] && n <= |rivals|
    ensures |r| == n && forall i :: 0 <= i < n ==> r[i] == Term(x, rivals, prizes, i)
  {
    seq(n, i requires 0 <= i < n => Term(x, rivals, prizes, i))
  }

  lemma {:induction false} TermsSum(x: real, rivals: seq<real>, prizes: seq<real>, n: nat)
    requires prizes != [] && n <= |rivals|
    ensures AfterRivals(x, rivals, prizes, n) == Total(Terms(x, rivals, prizes, n))
  {
    if n > 0 {
      TermsSum(x, rivals, prizes, n - 1);
      assert Terms(x, rivals, prizes, n) == Terms(x, rivals, prizes, n - 1) + [Term(x, rivals, prizes, n - 1)];
      TotalAppend(Terms(x, rivals, prizes, n - 1), [Term(x, rivals, prizes, n - 1)]);
    }
  }

  /** Where the value first sits in the list. */
  ghost function PlaceOf(s: seq<real>, v: real): nat
    requires v in s
    ensures PlaceOf(s, v) < |s| && s[PlaceOf(s, v)] == v
  {
    if s[0] == v then 0 else 1 + PlaceOf(s[1..], v)
  }

  lemma WithoutSame(a: seq<real>, i: nat, b: seq<real>, j: nat)
    requires i < |a| && j < |b| && multiset(a) == multiset(b) && a[i] == b[j]
    ensures multiset(Without(a, i)) == multiset(Without(b, j))
  {
    WithoutMultiset(a, i);
    WithoutMultiset(b, j);
    assert multiset(Without(a, i)) == multiset(a) - multiset{a[i]};
    assert multiset(Without(b, j)) == multiset(b) - multiset{b[j]};
  }

  lemma {:induction false} SameTerm(x: real, a: seq<real>, i: nat, b: seq<real>, j: nat, prizes: seq<real>)
    requires multiset(a) == multiset(b) && prizes != []
    requires i < |a| && j < |b| && a[i] == b[j]
    ensures Term(x, a, prizes, i) == Term(x, b, prizes, j)
    decreases |prizes|, 0
  {
    hide Expectation;
    WithoutSame(a, i, b, j);
    RivalOrderIsIrrelevant(x, Without(a, i), Without(b, j), prizes[1..]);
  }

  ghost function TermOf(x: real, rivals: seq<real>, prizes: seq<real>, v: real): real
    requires prizes != []
  {
    if v in rivals then Term(x, rivals, prizes, PlaceOf(rivals, v)) else 0.0
  }

  lemma {:induction false} TermsPermute(x: real, a: seq<real>, b: seq<real>, prizes: seq<real>)
    requires multiset(a) == multiset(b) && prizes != []
    ensures Total(Terms(x, a, prizes, |a|)) == Total(Terms(x, b, prizes, |b|))
    decreases |prizes|, 1
  {
    hide Term, Total;
    var f := (v: real) => if prizes != [] then TermOf(x, a, prizes, v) else 0.0;
    var ta, tb := Terms(x, a, prizes, |a|), Terms(x, b, prizes, |b|);
    forall i | 0 <= i < |a| ensures ta[i] == f(a[i]) {
      SameTerm(x, a, i, a, PlaceOf(a, a[i]), prizes);
    }
    forall i | 0 <= i < |b| ensures tb[i] == f(b[i]) {
      assert b[i] in multiset(a);
      SameTerm(x, b, i, a, PlaceOf(a, b[i]), prizes);
    }
    MapPermutation(f, a, b, ta, tb);
    TotalPermutation(ta, tb);
  }

  /** The expectation depends on which stacks the rivals have, not on where they sit. */
  lemma {:induction false} RivalOrderIsIrrelevant(x: real, a: seq<real>, b: seq<real>, prizes: seq<real>)
    requires multiset(a) == multiset(b)
    ensures Expectation(x, a, prizes) == Expectation(x, b, prizes)
    decreases |prizes|, 2
  {
    if prizes == [] {
      NoPrizes(x, a);
      NoPrizes(x, b);
    } else {
      hide Expectation, AfterRivals, Terms;
      TotalPermutation(a, b);
      TermsPermute(x, a, b, prizes);
      TermsSum(x, a, prizes, |a|);
      TermsSum(x, b, prizes, |b|);
      Unfolded(x, a, prizes);
      Unfolded(x, b, prizes);
    }
  }

  lemma NoPrizes(x: real, rivals: seq<real>)
    ensures Expectation(x, rivals, []) == 0.0
  {
  }

  // ---------- a larger stack at the same table ----------

  lemma OneMoreRival(x: real, rivals: seq<real>, prizes: seq<real>, n: nat)
    requires prizes != [] && n < |rivals|
    ensures AfterRivals(x, rivals, prizes, n + 1)
         == AfterRivals(x, rivals, prizes, n) + Product(rivals[n], Expectation(x, Without(rivals, n), prizes[1..]))
    ensures AfterRivals(x, rivals, prizes, 0) == 0.0
  {
  }

  lemma WithoutLater(first: real, rivals: seq<real>, n: nat)
    requires n < |rivals|
    ensures Without([first] + rivals, n + 1) == [first] + Without(rivals, n)
    ensures ([first] + rivals)[n + 1] == rivals[n]
  {
  }

  lemma {:induction false} TermsDominate(x: real, y: real, rivals: seq<real>, prizes: seq<real>, n: nat)
    requires x >= y >= 0.0 && NonNegative(rivals) && prizes != [] && Ranked(prizes) && n <= |rivals|
    ensures AfterRivals(x, [y] + rivals, prizes, n + 1) - Product(y, Expectation(x, rivals, prizes[1..]))
         >= AfterRivals(y, [x] + rivals, prizes, n + 1) - Product(x, Expectation(y, rivals, prizes[1..]))
    decreases |prizes|, n
  {
    hide Expectation, AfterRivals, Product;
    var xs, ys := [x] + rivals, [y] + rivals;
    OneMoreRival(x, ys, prizes, n);
    OneMoreRival(y, xs, prizes, n);
    if n == 0 {
      assert Without(ys, 0) == rivals && Without(xs, 0) == rivals;
    } else {
      var left := Without(rivals, n - 1);
      TermsDominate(x, y, rivals, prizes, n - 1);
      RankedTail(prizes);
      WithoutLater(y, rivals, n - 1);
      WithoutLater(x, rivals, n - 1);
      LargerStackExpectsMore(x, y, left, prizes[1..]);
      OneMoreGrows(0.0, 0.0, rivals[n - 1],
        Expectation(y, [x] + left, prizes[1..]), Expectation(x, [y] + left, prizes[1..]));
    }
  }

  /** Two players at one table, everything else the same: the one with more chips expects no less. */
  lemma {:induction false} LargerStackExpectsMore(x: real, y: real, rivals: seq<real>, prizes: seq<real>)
    requires x >= y >= 0.0 && NonNegative(rivals) && Ranked(prizes)
    ensures Expectation(x, [y] + rivals, prizes) >= Expectation(y, [x] + rivals, prizes)
    decreases |prizes|, |rivals| + 1
  {
    hide *;
    NonNegativeCons(x, rivals);
    NonNegativeCons(y, rivals);
    if prizes == [] {
      NoPrizes(x, [y] + rivals);
      NoPrizes(y, [x] + rivals);
    } else {
      var fx, fy := Expectation(x, rivals, prizes[1..]), Expectation(y, rivals, prizes[1..]);
      TermsDominate(x, y, rivals, prizes, |rivals|);
      RankedTail(prizes);
      ExpectationGrows(y, x, rivals, prizes[1..]);
      ExpectationBounds(y, rivals, prizes[1..], prizes[0]);
      FirstTwo(x, y, fx, fy, prizes[0],
        AfterRivals(x, [y] + rivals, prizes, |rivals| + 1), AfterRivals(y, [x] + rivals, prizes, |rivals| + 1));
      SameDenominator(x, y, rivals, prizes);
    }
  }

  lemma SameDenominator(x: real, y: real, rivals: seq<real>, prizes: seq<real>)
    requires prizes != []
    requires x >= 0.0 && y >= 0.0 && NonNegative(rivals)
    requires Product(prizes[0], x) + AfterRivals(x, [y] + rivals, prizes, |rivals| + 1)
          >= Product(prizes[0], y) + AfterRivals(y, [x] + rivals, prizes, |rivals| + 1)
    ensures Expectation(x, [y] + rivals, prizes) >= Expectation(y, [x] + rivals, prizes)
  {
    hide Expectation, AfterRivals, Share, Product;
    var xs, ys := [x] + rivals, [y] + rivals;
    Unfolded(x, ys, prizes);
    Unfolded(y, xs, prizes);
    TotalAppend([y], rivals);
    TotalAppend([x], rivals);
    SingleTotal(x);
    SingleTotal(y);
    TotalNonNegative(rivals);
    SameShares(prizes[0], x, AfterRivals(x, ys, prizes, |ys|), y, AfterRivals(y, xs, prizes, |xs|), Total(rivals));
  }

  lemma FirstTwo(x: real, y: real, fx: real, fy: real, p: real, gx: real, gy: real)
    requires x >= y >= 0.0 && fx >= fy && fy <= p && gx - Product(y, fx) >= gy - Product(x, fy)
    ensures Product(p, x) + gx >= Product(p, y) + gy
  {
    Mul(fy, fx, y);
    Mul(fy, p, x - y);
    assert p * x - p * y == p * (x - y);
    assert x * fy - y * fy == fy * (x - y);
  }

  lemma SameShares(p: real, x: real, gx: real, y: real, gy: real, r: real)
    requires x + y + r >= 0.0 && Product(p, x) + gx >= Product(p, y) + gy
    ensures Share(p, x, gx, y + r) >= Share(p, y, gy, x + r)
  {
    if x + y + r > 0.0 {
      OverSame(p * x + gx, p * y + gy, x + y + r);
    }
  }

  lemma OverSame(a: real, b: real, d: real)
    requires a >= b && d > 0.0
    ensures a / d >= b / d
  {
  }

  // ---------- when a player is as good as first ----------

  function PositiveCount(stacks: seq<real>): nat {
    if stacks == [] then 0 else (if stacks[0] > 0.0 then 1 else 0) + PositiveCount(stacks[1..])
  }

  lemma {:induction false} CountWithout(stacks: seq<real>, i: nat)
    requires i < |stacks|
    ensures PositiveCount(stacks) == PositiveCount(Without(stacks, i)) + if stacks[i] > 0.0 then 1 else 0
  {
    if i == 0 {
      assert Without(stacks, 0) == stacks[1..];
    } else {
      CountWithout(stacks[1..], i - 1);
      assert Without(stacks, i)[1..] == Without(stacks[1..], i - 1);
    }
  }

  lemma {:induction false} ChipsLeft(stacks: seq<real>)
    requires NonNegative(stacks)
    ensures Total(stacks) > 0.0 <==> PositiveCount(stacks) > 0
    ensures Total(stacks) >= 0.0
    ensures PositiveCount(stacks) > 0 <==> exists i :: 0 <= i < |stacks| && stacks[i] > 0.0
  {
    if stacks != [] {
      ChipsLeft(stacks[1..]);
      assert forall i :: 1 <= i < |stacks| ==> stacks[i] == stacks[1..][i - 1];
      assert PositiveCount(stacks[1..]) > 0 ==> exists i :: 1 <= i < |stacks| && stacks[i] > 0.0;
    }
  }

  lemma FullTerm(sum: real, total: real, chips: real, e: real, cap: real)
    requires sum <= Product(cap, total) && e <= cap && chips >= 0.0
    ensures sum + Product(chips, e) == Product(cap, total + chips)
       <==> sum == Product(cap, total) && (chips == 0.0 || e == cap)
  {
    Mul(e, cap, chips);
    Distribute(cap, total, chips);
    if e < cap && chips > 0.0 {
      StrictMul(e, cap, chips);
    }
  }

  /** The rivals leave as much as can be exactly when each with chips leaves the first prize. */
  lemma {:induction false} AfterRivalsFull(x: real, rivals: seq<real>, prizes: seq<real>, n: nat)
    requires x >= 0.0 && NonNegative(rivals) && prizes != [] && Ranked(prizes) && n <= |rivals|
    ensures AfterRivals(x, rivals, prizes, n) == Product(prizes[0], Total(rivals[..n]))
       <==> forall i :: 0 <= i < n ==>
              rivals[i] == 0.0 || Expectation(x, Without(rivals, i), prizes[1..]) == prizes[0]
  {
    hide Expectation, AfterRivals, Product, Without;
    if n == 0 {
      NoRivalYet(x, rivals, prizes);
      NoProduct(prizes[0]);
    } else {
      var k := n - 1;
      AfterRivalsFull(x, rivals, prizes, k);
      RankedTail(prizes);
      AfterRivalsBounds(x, rivals, prizes, k, prizes[0]);
      NonNegativeWithout(rivals, k);
      ExpectationBounds(x, Without(rivals, k), prizes[1..], prizes[0]);
      OneMoreRival(x, rivals, prizes, k);
      assert rivals[..n] == rivals[..k] + [rivals[k]];
      TotalAppend(rivals[..k], [rivals[k]]);
      SingleTotal(rivals[k]);
      FullTerm(AfterRivals(x, rivals, prizes, k), Total(rivals[..k]), rivals[k],
        Expectation(x, Without(rivals, k), prizes[1..]), prizes[0]);
    }
  }

  lemma FullShare(p: real, x: real, rest: real, total: real)
    requires x > 0.0 && total >= 0.0
    ensures Share(p, x, rest, total) == p <==> rest == Product(p, total)
  {
    var r := (p * x + rest) / (x + total);
    assert r * (x + total) == p * x + rest;
    Distribute(p, x, total);
    if rest == Product(p, total) {
      assert r * (x + total) == p * (x + total);
      SameQuotient(r, p, x + total);
    }
  }

  lemma SameQuotient(a: real, b: real, t: real)
    requires t > 0.0 && a * t == b * t
    ensures a == b
  {
  }

  /**
   * When a player's chips are worth the whole first prize: exactly when there is nothing to
   * win, or when even the place behind every rival with chips pays the first prize.
   */
  lemma {:induction false} WorthFirstPrize(x: real, rivals: seq<real>, prizes: seq<real>)
    requires x > 0.0 && NonNegative(rivals) && Ranked(prizes) && prizes != []
    ensures var c := PositiveCount(rivals);
      Expectation(x, rivals, prizes) == prizes[0] <==> prizes[0] == 0.0 || (c < |prizes| && prizes[c] == prizes[0])
    decreases |prizes|, 1
  {
    hide Expectation, AfterRivals, Product, Without, Share, PositiveCount;
    var p, tail := prizes[0], prizes[1..];
    RankedTail(prizes);
    Unfolded(x, rivals, prizes);
    TotalNonNegative(rivals);
    FullShare(p, x, AfterRivals(x, rivals, prizes, |rivals|), Total(rivals));
    AfterRivalsFull(x, rivals, prizes, |rivals|);
    assert rivals[..|rivals|] == rivals;
    ChipsLeft(rivals);
    if p == 0.0 {
      ExpectationBounds(x, rivals, prizes, 0.0);
    } else {
      forall i | 0 <= i < |rivals| && rivals[i] > 0.0
        ensures Expectation(x, Without(rivals, i), tail) == p
           <==> PositiveCount(rivals) < |prizes| && prizes[PositiveCount(rivals)] == p
      {
        WorthAfterRival(x, rivals, prizes, i);
      }
    }
  }

  /** One rival with chips has come first. */
  lemma {:induction false} WorthAfterRival(x: real, rivals: seq<real>, prizes: seq<real>, i: nat)
    requires x > 0.0 && NonNegative(rivals) && Ranked(prizes) && prizes != [] && prizes[0] > 0.0
    requires i < |rivals| && rivals[i] > 0.0
    ensures var c := PositiveCount(rivals);
      Expectation(x, Without(rivals, i), prizes[1..]) == prizes[0] <==> c < |prizes| && prizes[c] == prizes[0]
    decreases |prizes|, 0
  {
    hide Expectation, Without, PositiveCount;
    var p, tail, c := prizes[0], prizes[1..], PositiveCount(rivals);
    CountWithout(rivals, i);
    NonNegativeWithout(rivals, i);
    RankedTail(prizes);
    if tail == [] {
      NoPrizes(x, Without(rivals, i));
    } else {
      WorthFirstPrize(x, Without(rivals, i), tail);
      assert PrizesWithin(tail, tail[0]);
      ExpectationBounds(x, Without(rivals, i), tail, tail[0]);
      assert c < |prizes| ==> tail[c - 1] == prizes[c] && prizes[0] >= tail[0] == prizes[1] >= prizes[c];
    }
  }
}
