/** The expectations of a whole table: shared/utils/icm.ts, icmRecursive. */
module IcmPayouts {
  import opened Sequences
  import opened RealSums
  import opened Icm

  /** What each player at the table can expect. */
  function Expectations(stacks: seq<real>, prizes: seq<real>): (r: seq<real>)
    ensures |r| == |stacks|
  {
    seq(|stacks|, i requires 0 <= i < |stacks| => Expectation(stacks[i], Without(stacks, i), prizes))
  }

  lemma ExpectationAt(stacks: seq<real>, i: nat, prizes: seq<real>)
    requires i < |stacks|
    ensures Expectations(stacks, prizes)[i] == Expectation(stacks[i], Without(stacks, i), prizes)
  {
  }

  /** Permuting the stacks permutes the expectations the same way: a stack expects the same wherever it sits. */
  lemma ExpectationsFollowStacks(a: seq<real>, i: nat, b: seq<real>, k: nat, prizes: seq<real>)
    requires multiset(a) == multiset(b)
    requires i < |a| && k < |b| && a[i] == b[k]
    ensures Expectations(a, prizes)[i] == Expectations(b, prizes)[k]
  {
    hide Expectation;
    WithoutSame(a, i, b, k);
    ExpectationAt(a, i, prizes);
    ExpectationAt(b, k, prizes);
    RivalOrderIsIrrelevant(a[i], Without(a, i), Without(b, k), prizes);
  }

  /** With prizes that do not grow down the ranking, the larger stack of two at a table expects no less. */
  lemma LargerStacksExpectMore(stacks: seq<real>, i: nat, j: nat, prizes: seq<real>)
    requires NonNegative(stacks) && Ranked(prizes)
    requires i < |stacks| && j < |stacks| && i != j && stacks[i] >= stacks[j]
    ensures Expectations(stacks, prizes)[i] >= Expectations(stacks, prizes)[j]
  {
    hide *;
    ExpectationAt(stacks, i, prizes);
    ExpectationAt(stacks, j, prizes);
    TakeTwoOut(stacks, i, j);
    var x, y, others := stacks[i], stacks[j], Without(Without(stacks, i), Shifted(j, i));
    RivalOrderIsIrrelevant(x, Without(stacks, i), [y] + others, prizes);
    RivalOrderIsIrrelevant(y, Without(stacks, j), [x] + others, prizes);
    LargerStackExpectsMore(x, y, others, prizes);
  }

  lemma TakeTwoOut(s: seq<real>, i: nat, j: nat)
    requires i < |s| && j < |s| && i != j && NonNegative(s)
    ensures s[i] >= 0.0 && s[j] >= 0.0
    ensures var others := Without(Without(s, i), Shifted(j, i));
      && NonNegative(others)
      && multiset(Without(s, i)) == multiset([s[j]] + others)
      && multiset(Without(s, j)) == multiset([s[i]] + others)
  {
    hide Without, NonNegative, Shifted;
    NonNegativeWithout(s, i);
    NonNegativeWithout(s, j);
    WithoutTwice(s, i, j);
    var others := Without(Without(s, i), Shifted(j, i));
    NonNegativeWithout(Without(s, i), Shifted(j, i));
    ToFront(Without(s, i), Shifted(j, i));
    ToFront(Without(s, j), Shifted(i, j));
  }

  lemma ToFront(s: seq<real>, k: nat)
    requires k < |s|
    ensures multiset(s) == multiset([s[k]] + Without(s, k))
  {
    WithoutMultiset(s, k);
  }

  // ---------- the sum of all expectations ----------

  /** Where player `p` sits once player `i` has left. */
  function Shifted(p: nat, i: nat): (r: nat)
    requires p != i
    ensures r == p || (r == p - 1 && i < p)
    ensures r == p ==> p < i
  {
    if p < i then p else p - 1
  }

  /** What the players before `i` coming first bring player `p`, times all chips. */
  function Gathered(stacks: seq<real>, prizes: seq<real>, p: nat, i: nat): real
    requires prizes != [] && p < |stacks| && i <= |stacks|
  {
    (if p < i then Product(prizes[0], stacks[p]) else 0.0)
    + AfterRivals(stacks[p], Without(stacks, p), prizes, if p < i then i - 1 else i)
  }

  /** Skipping two places: the entry at `k` comes from behind the smaller, the larger or neither. */
  lemma TwiceAt(s: seq<real>, p: nat, i: nat, k: nat)
    requires p < |s| && i < |s| && p != i && k < |s| - 2
    ensures var lo, hi := if p < i then p else i, if p < i then i else p;
      Without(Without(s, p), Shifted(i, p))[k] == s[if k < lo then k else if k + 1 < hi then k + 1 else k + 2]
  {
    var q := Shifted(i, p);
    var m := if k < q then k else k + 1;
    assert Without(Without(s, p), q)[k] == Without(s, p)[m];
    assert Without(s, p)[m] == s[if m < p then m else m + 1];
  }

  lemma WithoutTwice(s: seq<real>, p: nat, i: nat)
    requires p < |s| && i < |s| && p != i
    ensures Without(s, p)[Shifted(i, p)] == s[i] && Without(s, i)[Shifted(p, i)] == s[p]
    ensures Without(Without(s, p), Shifted(i, p)) == Without(Without(s, i), Shifted(p, i))
  {
    var a, b := Without(Without(s, p), Shifted(i, p)), Without(Without(s, i), Shifted(p, i));
    assert |a| == |b|;
    forall k | 0 <= k < |a| ensures a[k] == b[k] {
      TwiceAt(s, p, i, k);
      TwiceAt(s, i, p, k);
    }
  }

  lemma GatheredStep(stacks: seq<real>, prizes: seq<real>, p: nat, i: nat)
    requires prizes != [] && p < |stacks| && i < |stacks|
    ensures Gathered(stacks, prizes, p, i + 1) == Gathered(stacks, prizes, p, i)
      + if p == i then Product(prizes[0], stacks[i])
        else Product(stacks[i], Expectations(Without(stacks, i), prizes[1..])[Shifted(p, i)])
  {
    hide Expectation, AfterRivals, Expectations, Without, Product;
    if p != i {
      var n, q := Shifted(i, p), Shifted(p, i);
      var rivals, others := Without(stacks, p), Without(stacks, i);
      WithoutTwice(stacks, p, i);
      OneMoreRival(stacks[p], rivals, prizes, n);
      ExpectationAt(others, q, prizes[1..]);
      assert AfterRivals(stacks[p], rivals, prizes, n + 1)
          == AfterRivals(stacks[p], rivals, prizes, n) + Product(stacks[i], Expectations(others, prizes[1..])[q]);
    }
  }

  lemma GatheredAll(stacks: seq<real>, prizes: seq<real>, p: nat)
    requires Total(stacks) > 0.0 && prizes != [] && p < |stacks|
    ensures Gathered(stacks, prizes, p, |stacks|) == Product(Expectations(stacks, prizes)[p], Total(stacks))
  {
    hide Expectation, AfterRivals, Total, Expectations, Without, Share, Product;
    ExpectationAt(stacks, p, prizes);
    TotalWithout(stacks, p);
    Unfolded(stacks[p], Without(stacks, p), prizes);
    ShareBack(prizes[0], stacks[p],
      AfterRivals(stacks[p], Without(stacks, p), prizes, |stacks| - 1), Total(Without(stacks, p)));
  }

  lemma GatheredNone(stacks: seq<real>, prizes: seq<real>, p: nat)
    requires prizes != [] && p < |stacks|
    ensures Gathered(stacks, prizes, p, 0) == 0.0
  {
  }

  lemma ShareBack(prize: real, x: real, rest: real, total: real)
    requires x + total > 0.0
    ensures Product(Share(prize, x, rest, total), x + total) == Product(prize, x) + rest
  {
    DivideBack(prize * x + rest, x + total);
  }

  lemma DivideBack(num: real, den: real)
    requires den > 0.0
    ensures num / den * den == num
  {
  }

  function GatheredBy(stacks: seq<real>, prizes: seq<real>, i: nat): (r: seq<real>)
    requires prizes != [] && i <= |stacks|
    ensures |r| == |stacks| && forall p :: 0 <= p < |r| ==> r[p] == Gathered(stacks, prizes, p, i)
  {
    seq(|stacks|, p requires 0 <= p < |stacks| => Gathered(stacks, prizes, p, i))
  }

  lemma {:induction false} TotalScaled(a: seq<real>, b: seq<real>, sub: seq<real>, w: real)
    requires |a| == |b| == |sub| && forall k :: 0 <= k < |a| ==> b[k] == a[k] + Product(w, sub[k])
    ensures Total(b) == Total(a) + Product(w, Total(sub))
  {
    if a != [] {
      TotalScaled(a[1..], b[1..], sub[1..], w);
      Distribute(w, sub[0], Total(sub[1..]));
    }
  }

  lemma WithoutAt(s: seq<real>, i: nat, k: nat)
    requires i < |s| && k < |s| - 1
    ensures var p := if k < i then k else k + 1;
      Without(s, i)[k] == s[p] && Shifted(p, i) == k
  {
  }

  lemma Scattered(a: seq<real>, b: seq<real>, sub: seq<real>, i: nat, c: real, w: real)
    requires |a| == |b| == |sub| + 1 && i < |a| && b[i] == a[i] + c
    requires forall p :: 0 <= p < |a| && p != i ==> b[p] == a[p] + Product(w, sub[Shifted(p, i)])
    ensures Total(b) == Total(a) + c + Product(w, Total(sub))
  {
    hide Without, Total, Product;
    TotalWithout(a, i);
    TotalWithout(b, i);
    forall k | 0 <= k < |sub| ensures Without(b, i)[k] == Without(a, i)[k] + Product(w, sub[k]) {
      WithoutAt(a, i, k);
      WithoutAt(b, i, k);
    }
    TotalScaled(Without(a, i), Without(b, i), sub, w);
  }

  // ---------- tables without a division by zero ----------

  /** Every one of `n` prizes has a player with chips, or everybody has chips. */
  ghost predicate Solvent(stacks: seq<real>, n: nat) {
    n <= PositiveCount(stacks) || forall i :: 0 <= i < |stacks| ==> stacks[i] > 0.0
  }

  /** A solvent table has chips, and stays solvent when the first prize and any player leave it. */
  lemma SolventStep(stacks: seq<real>, n: nat)
    requires NonNegative(stacks) && stacks != [] && n > 0
    ensures Solvent(stacks, n)
       <==> Total(stacks) > 0.0 && (n > 1 ==> forall i :: 0 <= i < |stacks| ==> Solvent(Without(stacks, i), n - 1))
  {
    hide Without, Solvent;
    SolventNow(stacks, n);
    forall i | 0 <= i < |stacks| ensures Solvent(stacks, n) ==> Solvent(Without(stacks, i), n - 1) {
      SolventWithout(stacks, i, n);
    }
    if Total(stacks) > 0.0 && n > 1 {
      ChipsLeft(stacks);
      var i :| 0 <= i < |stacks| && stacks[i] > 0.0;
      SolventWith(stacks, i, n);
    }
  }

  lemma SolventNow(stacks: seq<real>, n: nat)
    requires NonNegative(stacks) && stacks != [] && n > 0
    ensures Solvent(stacks, n) ==> Total(stacks) > 0.0
    ensures Total(stacks) > 0.0 ==> Solvent(stacks, 1)
  {
    hide PositiveCount;
    ChipsLeft(stacks);
  }

  lemma SolventWithout(stacks: seq<real>, i: nat, n: nat)
    requires i < |stacks| && n > 0
    ensures Solvent(stacks, n) ==> Solvent(Without(stacks, i), n - 1)
  {
    hide Without, PositiveCount;
    CountWithout(stacks, i);
    WithoutPlaces(stacks, i);
  }

  lemma SolventWith(stacks: seq<real>, i: nat, n: nat)
    requires i < |stacks| && n > 0 && stacks[i] > 0.0
    ensures Solvent(Without(stacks, i), n - 1) ==> Solvent(stacks, n)
  {
    hide Without, PositiveCount;
    CountWithout(stacks, i);
    WithoutPlaces(stacks, i);
  }

  lemma WithoutPlaces(s: seq<real>, i: nat)
    requires i < |s|
    ensures forall k :: 0 <= k < |s| - 1 ==> Without(s, i)[k] == s[if k < i then k else k + 1]
    ensures forall p :: 0 <= p < |s| && p != i ==> Without(s, i)[Shifted(p, i)] == s[p]
  {
  }

  // ---------- adding up ----------

  lemma {:induction false} GatheredTotal(stacks: seq<real>, prizes: seq<real>, i: nat)
    requires NonNegative(stacks) && Solvent(stacks, |prizes|) && prizes != [] && i <= |stacks|
    ensures Total(GatheredBy(stacks, prizes, i)) == Product(Total(stacks[..i]), Total(FirstOf(prizes, |stacks|)))
    decreases |prizes|, 0, i
  {
    hide *;
    if i == 0 {
      NothingGathered(stacks, prizes);
    } else {
      var k := i - 1;
      SolventStep(stacks, |prizes|);
      NonNegativeWithout(stacks, k);
      GatheredTotal(stacks, prizes, k);
      if |prizes| > 1 {
        ExpectationsAddUp(Without(stacks, k), prizes[1..]);
      } else {
        NothingToWin(Without(stacks, k), prizes[1..]);
      }
      GatheredNext(stacks, prizes, k);
      WonSplit(prizes, |stacks|);
      assert stacks[..i] == stacks[..k] + [stacks[k]];
      TotalAppend(stacks[..k], [stacks[k]]);
      SingleTotal(stacks[k]);
      OnePlayerMore(Total(stacks[..k]), stacks[k], prizes[0],
        Total(Expectations(Without(stacks, k), prizes[1..])), Total(FirstOf(prizes, |stacks|)));
    }
  }

  lemma NothingGathered(stacks: seq<real>, prizes: seq<real>)
    requires prizes != []
    ensures Total(GatheredBy(stacks, prizes, 0)) == Product(Total(stacks[..0]), Total(FirstOf(prizes, |stacks|)))
  {
    hide Gathered, Expectations, FirstOf;
    forall p | 0 <= p < |stacks| ensures GatheredBy(stacks, prizes, 0)[p] == 0.0 {
      GatheredNone(stacks, prizes, p);
    }
    AllZero(GatheredBy(stacks, prizes, 0));
    assert Total(stacks[..0]) == 0.0;
  }

  lemma GatheredNext(stacks: seq<real>, prizes: seq<real>, k: nat)
    requires prizes != [] && k < |stacks|
    ensures Total(GatheredBy(stacks, prizes, k + 1)) == Total(GatheredBy(stacks, prizes, k))
      + Product(prizes[0], stacks[k]) + Product(stacks[k], Total(Expectations(Without(stacks, k), prizes[1..])))
  {
    hide *;
    var sub := Expectations(Without(stacks, k), prizes[1..]);
    forall p | 0 <= p < |stacks|
      ensures Gathered(stacks, prizes, p, k + 1) == Gathered(stacks, prizes, p, k)
        + if p == k then Product(prizes[0], stacks[k]) else Product(stacks[k], sub[Shifted(p, k)])
    {
      GatheredStep(stacks, prizes, p, k);
    }
    Scattered(GatheredBy(stacks, prizes, k), GatheredBy(stacks, prizes, k + 1), sub, k,
      Product(prizes[0], stacks[k]), stacks[k]);
  }

  lemma OnePlayerMore(front: real, s: real, p: real, rest: real, won: real)
    requires won == p + rest
    ensures Product(front, won) + Product(p, s) + Product(s, rest) == Product(front + s, won)
  {
    Distribute(s, p, rest);
    Distribute(won, front, s);
  }

  lemma WonSplit(prizes: seq<real>, n: nat)
    requires prizes != [] && n > 0
    ensures Total(FirstOf(prizes, n)) == prizes[0] + Total(FirstOf(prizes[1..], n - 1))
  {
    assert FirstOf(prizes, n)[1..] == FirstOf(prizes[1..], n - 1);
  }

  lemma {:induction false} AllZero(s: seq<real>)
    requires forall i :: 0 <= i < |s| ==> s[i] == 0.0
    ensures Total(s) == 0.0
  {
    if s != [] {
      AllZero(s[1..]);
    }
  }

  lemma {:induction false} TotalTimes(a: seq<real>, b: seq<real>, w: real)
    requires |a| == |b| && forall k :: 0 <= k < |a| ==> b[k] == Product(a[k], w)
    ensures Total(b) == Product(Total(a), w)
  {
    if a != [] {
      TotalTimes(a[1..], b[1..], w);
      Distribute(w, a[0], Total(a[1..]));
    }
  }

  /** All expectations together are the prizes there are players for: the whole prize pool when there are enough. */
  lemma {:induction false} ExpectationsAddUp(stacks: seq<real>, prizes: seq<real>)
    requires NonNegative(stacks) && Solvent(stacks, |prizes|)
    ensures Total(Expectations(stacks, prizes)) == Total(FirstOf(prizes, |stacks|))
    decreases |prizes|, 1
  {
    hide *;
    if prizes == [] || stacks == [] {
      NothingToWin(stacks, prizes);
    } else {
      SolventStep(stacks, |prizes|);
      GatheredIsAll(stacks, prizes);
      GatheredTotal(stacks, prizes, |stacks|);
      var front := stacks[..|stacks|];
      assert front == stacks;
      SameFactor(Total(GatheredBy(stacks, prizes, |stacks|)), Total(Expectations(stacks, prizes)),
        Total(FirstOf(prizes, |stacks|)), Total(stacks), Total(front));
    }
  }

  lemma NothingToWin(stacks: seq<real>, prizes: seq<real>)
    requires prizes == [] || stacks == []
    ensures Total(Expectations(stacks, prizes)) == Total(FirstOf(prizes, |stacks|)) == 0.0
  {
    hide Expectation, Expectations;
    forall p | 0 <= p < |stacks| ensures Expectations(stacks, prizes)[p] == 0.0 {
      ExpectationAt(stacks, p, []);
      NoPrizes(stacks[p], Without(stacks, p));
    }
    AllZero(Expectations(stacks, prizes));
  }

  lemma GatheredIsAll(stacks: seq<real>, prizes: seq<real>)
    requires Total(stacks) > 0.0 && prizes != []
    ensures Total(GatheredBy(stacks, prizes, |stacks|)) == Product(Total(Expectations(stacks, prizes)), Total(stacks))
  {
    hide *;
    forall p | 0 <= p < |stacks|
      ensures Gathered(stacks, prizes, p, |stacks|) == Product(Expectations(stacks, prizes)[p], Total(stacks))
    {
      GatheredAll(stacks, prizes, p);
    }
    TotalTimes(Expectations(stacks, prizes), GatheredBy(stacks, prizes, |stacks|), Total(stacks));
  }

  lemma SameFactor(product: real, a: real, b: real, t: real, u: real)
    requires product == Product(a, t) && product == Product(u, b) && u == t && t > 0.0
    ensures a == b
  {
  }

  // ---------- the whole first prize ----------

  /**
   * A player with chips expects the whole first prize exactly when the place of the last
   * player with chips pays as much, or when there is nothing to win.
   */
  lemma WholeFirstPrize(stacks: seq<real>, i: nat, prizes: seq<real>)
    requires NonNegative(stacks) && Ranked(prizes) && prizes != [] && i < |stacks| && stacks[i] > 0.0
    ensures var last := PositiveCount(stacks) - 1;
      && last >= 0
      && (Expectations(stacks, prizes)[i] == prizes[0]
          <==> prizes[0] == 0.0 || (last < |prizes| && prizes[last] == prizes[0]))
  {
    hide Expectation, Expectations, PositiveCount;
    ExpectationAt(stacks, i, prizes);
    NonNegativeWithout(stacks, i);
    CountWithout(stacks, i);
    WorthFirstPrize(stacks[i], Without(stacks, i), prizes);
  }
}
