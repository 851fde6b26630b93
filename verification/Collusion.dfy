/** Collusion scores: shared/analytics/collusion.ts. */
module Collusion {
  import opened Sequences
  import opened RealSums

  datatype Transfer = Transfer(from: string, to: string, amount: real)

  // ---------- chip dumping ----------

  function Abs(x: real): real {
    if x < 0.0 then -x else x
  }

  /** The balances of the listed players, in the order they were first seen. */
  function Listed(names: seq<string>, balances: map<string, real>): (r: seq<real>)
    requires forall n :: n in names ==> n in balances
    ensures |r| == |names| && forall i :: 0 <= i < |r| ==> r[i] == balances[names[i]]
  {
    seq(|names|, i requires 0 <= i < |names| => balances[names[i]])
  }

  /** `names` lists the keys of the balance record, each once. */
  ghost predicate Keys(names: seq<string>, balances: map<string, real>) {
    Distinct(names) && forall n :: n in names <==> n in balances
  }

  /** `balances[name] = (balances[name] || 0) + amount`. */
  method Credit(names: seq<string>, balances: map<string, real>, name: string, amount: real)
    returns (names': seq<string>, balances': map<string, real>)
    requires Keys(names, balances)
    ensures Keys(names', balances')
    ensures balances' == balances[name := (if name in balances then balances[name] else 0.0) + amount]
    ensures Total(Listed(names', balances')) == Total(Listed(names, balances)) + amount
  {
    if name in balances {
      names' := names;
      balances' := balances[name := balances[name] + amount];
      ghost var i :| 0 <= i < |names| && names[i] == name;
      assert Listed(names', balances') == Listed(names, balances)[i := balances[name] + amount];
      TotalUpdate(Listed(names, balances), i, balances[name] + amount);
    } else {
      names' := names + [name];
      balances' := balances[name := 0.0 + amount];
      assert Listed(names', balances') == Listed(names, balances) + [amount];
      TotalAppend(Listed(names, balances), [amount]);
      assert Total([amount]) == amount;
    }
  }

  /** What a player has received in the transfers less what it has sent. */
  function Net(transfers: seq<Transfer>, name: string): real {
    if transfers == [] then 0.0
    else
      var t := transfers[|transfers| - 1];
      Net(transfers[..|transfers| - 1], name)
      + (if t.to == name then t.amount else 0.0) - (if t.from == name then t.amount else 0.0)
  }

  /** All that the transfers bring a player. */
  function Received(transfers: seq<Transfer>, name: string): seq<Transfer> {
    Filter((t: Transfer) => t.to == name, transfers)
  }

  function Sent(transfers: seq<Transfer>, name: string): seq<Transfer> {
    Filter((t: Transfer) => t.from == name, transfers)
  }

  function AmountsOf(transfers: seq<Transfer>): (r: seq<real>)
    ensures |r| == |transfers| && forall i :: 0 <= i < |r| ==> r[i] == transfers[i].amount
  {
    seq(|transfers|, i requires 0 <= i < |transfers| => transfers[i].amount)
  }

  /** A balance is the sum of what was received less the sum of what was sent. */
  lemma {:induction false} NetIsReceivedLessSent(transfers: seq<Transfer>, name: string)
    ensures Net(transfers, name)
         == Total(AmountsOf(Received(transfers, name))) - Total(AmountsOf(Sent(transfers, name)))
  {
    if transfers != [] {
      var n := |transfers| - 1;
      var front, t := transfers[..n], transfers[n];
      NetIsReceivedLessSent(front, name);
      assert transfers == front + [t];
      OneFiltered((x: Transfer) => x.to == name, front, t);
      OneFiltered((x: Transfer) => x.from == name, front, t);
    }
  }

  lemma OneFiltered(keep: Transfer -> bool, front: seq<Transfer>, t: Transfer)
    ensures Total(AmountsOf(Filter(keep, front + [t])))
         == Total(AmountsOf(Filter(keep, front))) + if keep(t) then t.amount else 0.0
  {
    var kept := Filter(keep, front);
    FilterLast(keep, front, t);
    if keep(t) {
      assert AmountsOf(kept + [t]) == AmountsOf(kept) + [t.amount];
      TotalAppend(AmountsOf(kept), [t.amount]);
      SingleTotal(t.amount);
    }
  }

  lemma {:induction false} FilterLast(keep: Transfer -> bool, front: seq<Transfer>, t: Transfer)
    ensures Filter(keep, front + [t]) == if keep(t) then Filter(keep, front) + [t] else Filter(keep, front)
  {
    hide Filter;
    if front == [] {
      assert front + [t] == [t];
      FilterOne(keep, t);
    } else {
      FilterLast(keep, front[1..], t);
      assert (front + [t])[1..] == front[1..] + [t];
      FilterFirst(keep, front);
      FilterFirst(keep, front + [t]);
      var first, rest := if keep(front[0]) then [front[0]] else [], Filter(keep, front[1..]);
      assert first + (rest + [t]) == first + rest + [t];
    }
  }

  lemma FilterOne(keep: Transfer -> bool, t: Transfer)
    ensures Filter(keep, []) == [] && Filter(keep, [t]) == if keep(t) then [t] else []
  {
    assert [t][1..] == [];
  }

  lemma FilterFirst(keep: Transfer -> bool, s: seq<Transfer>)
    requires s != []
    ensures Filter(keep, s) == (if keep(s[0]) then [s[0]] else []) + Filter(keep, s[1..])
  {
  }

  function Nets(transfers: seq<Transfer>, names: seq<string>): (r: seq<real>)
    ensures |r| == |names| && forall i :: 0 <= i < |r| ==> r[i] == Net(transfers, names[i])
  {
    seq(|names|, i requires 0 <= i < |names| => Net(transfers, names[i]))
  }

  function Parties(transfers: seq<Transfer>): set<string> {
    if transfers == [] then {}
    else
      var t := transfers[|transfers| - 1];
      Parties(transfers[..|transfers| - 1]) + {t.from, t.to}
  }

  /** Everybody who appears in a transfer, each once. */
  ghost predicate Involved(transfers: seq<Transfer>, names: seq<string>) {
    Distinct(names) && forall n :: n in names <==> n in Parties(transfers)
  }

  function Abses(s: seq<real>): (r: seq<real>)
    ensures |r| == |s| && forall i :: 0 <= i < |r| ==> r[i] == Abs(s[i])
  {
    seq(|s|, i requires 0 <= i < |s| => Abs(s[i]))
  }

  ghost predicate IsMax(m: real, s: seq<real>) {
    && (forall i :: 0 <= i < |s| ==> s[i] <= m)
    && (exists i :: 0 <= i < |s| && s[i] == m)
  }

  method MaxOf(s: seq<real>) returns (m: real)
    requires s != []
    ensures IsMax(m, s)
  {
    m := s[0];
    for i := 1 to |s|
      invariant forall k :: 0 <= k < i ==> s[k] <= m
      invariant exists k :: 0 <= k < i && s[k] == m
    {
      if s[i] > m {
        m := s[i];
      }
    }
  }

  /** The record holds everybody involved with what it has received less what it has sent. */
  ghost predicate Balanced(transfers: seq<Transfer>, names: seq<string>, balances: map<string, real>) {
    && Keys(names, balances) && Involved(transfers, names)
    && (forall n :: n in balances ==> balances[n] == Net(transfers, n))
    && Total(Listed(names, balances)) == 0.0
  }

  method Move(ghost before: seq<Transfer>, names: seq<string>, balances: map<string, real>, t: Transfer)
    returns (names': seq<string>, balances': map<string, real>)
    requires Balanced(before, names, balances)
    ensures Balanced(before + [t], names', balances')
  {
    hide Total, Listed;
    OneTransferMore(before, t);
    UninvolvedHaveNothing(before);
    names', balances' := Credit(names, balances, t.from, -t.amount);
    names', balances' := Credit(names', balances', t.to, t.amount);
  }

  lemma OneTransferMore(before: seq<Transfer>, t: Transfer)
    ensures Parties(before + [t]) == Parties(before) + {t.from, t.to}
    ensures forall n ::
      Net(before + [t], n)
      == Net(before, n) + (if t.to == n then t.amount else 0.0) - (if t.from == n then t.amount else 0.0)
  {
    assert (before + [t])[..|before|] == before;
  }

  lemma UninvolvedHaveNothing(transfers: seq<Transfer>)
    ensures forall n :: n !in Parties(transfers) ==> Net(transfers, n) == 0.0
  {
    forall n | n !in Parties(transfers) ensures Net(transfers, n) == 0.0 {
      Uninvolved(transfers, n);
    }
  }

  lemma {:induction false} Uninvolved(transfers: seq<Transfer>, name: string)
    requires name !in Parties(transfers)
    ensures Net(transfers, name) == 0.0
  {
    if transfers != [] {
      Uninvolved(transfers[..|transfers| - 1], name);
    }
  }

  /** The net balances after the transfers; they add up to nothing. */
  method Balances(transfers: seq<Transfer>) returns (names: seq<string>, balances: map<string, real>)
    ensures Balanced(transfers, names, balances)
    ensures Listed(names, balances) == Nets(transfers, names) && Total(Nets(transfers, names)) == 0.0
  {
    names, balances := [], map[];
    assert Balanced([], names, balances);
    for k := 0 to |transfers|
      invariant Balanced(transfers[..k], names, balances)
    {
      assert transfers[..k + 1] == transfers[..k] + [transfers[k]];
      names, balances := Move(transfers[..k], names, balances, transfers[k]);
    }
    assert transfers[..|transfers|] == transfers;
    assert Listed(names, balances) == Nets(transfers, names);
  }

  lemma {:induction false} AbsSum(s: seq<real>)
    ensures Abs(Total(s)) <= Total(Abses(s)) && Total(Abses(s)) >= 0.0
    ensures forall i :: 0 <= i < |s| ==> Abs(s[i]) <= Total(Abses(s))
    ensures Total(Abses(s)) == 0.0 <==> forall i :: 0 <= i < |s| ==> s[i] == 0.0
  {
    if s != [] {
      AbsSum(s[1..]);
      assert Abses(s)[1..] == Abses(s[1..]);
      assert forall i :: 1 <= i < |s| ==> s[i] == s[1..][i - 1];
    }
  }

  /** In a list that adds up to nothing no entry outweighs all the others together. */
  lemma NoneOutweighs(s: seq<real>, i: nat)
    requires i < |s| && Total(s) == 0.0
    ensures 2.0 * Abs(s[i]) <= Total(Abses(s))
  {
    var others := Without(s, i);
    TotalWithout(s, i);
    TotalWithout(Abses(s), i);
    assert Abses(others) == Without(Abses(s), i);
    AbsSum(others);
  }

  lemma {:induction false} AtMostTimes(s: seq<real>, m: real)
    requires forall i :: 0 <= i < |s| ==> s[i] <= m
    ensures Total(s) <= m * |s| as real
  {
    if s != [] {
      AtMostTimes(s[1..], m);
    }
  }

  lemma Ratio(m: real, total: real, n: nat)
    requires total > 0.0 && 2.0 * m <= total && n > 0 && total <= m * n as real
    ensures 1.0 / n as real <= m / total <= 0.5
  {
    var r, c := m / total, n as real;
    assert r * total == m;
    Compare(r, 0.5, total);
    assert r * c * total == m * c;
    Compare(1.0, r * c, total);
    assert 1.0 / c * c == 1.0;
    Compare(1.0 / c, r, c);
  }

  lemma Compare(a: real, b: real, t: real)
    requires t > 0.0 && a * t <= b * t
    ensures a <= b
  {
  }

  /** The largest imbalance over all imbalances together; 0 when there is none. */
  ghost predicate IsDumpScore(score: real, nets: seq<real>) {
    var total := Total(Abses(nets));
    if total == 0.0 then score == 0.0
    else exists m :: IsMax(m, Abses(nets)) && score * total == m
  }

  /** The score of the balances of everybody involved, which add up to nothing. */
  ghost predicate IsScoreOf(score: real, transfers: seq<Transfer>) {
    exists names ::
      && Involved(transfers, names) && Total(Nets(transfers, names)) == 0.0
      && IsDumpScore(score, Nets(transfers, names))
  }

  method DetectChipDump(transfers: seq<Transfer>) returns (score: real)
    ensures IsScoreOf(score, transfers)
    ensures 0.0 <= score <= 0.5
  {
    hide Nets, Abses, Total, Net, Listed, Parties;
    var keys, balances := Balances(transfers);
    var imbalances := Abses(Listed(keys, balances));
    var total := Total(imbalances);
    if total == 0.0 {
      DumpScoreBounds(0.0, Nets(transfers, keys));
      return 0.0;
    }
    SomeImbalance(imbalances);
    var largest := MaxOf(imbalances);
    score := largest / total;
    assert score * total == largest;
    DumpScoreBounds(score, Nets(transfers, keys));
    AtLeastZero(score, |keys|);
  }

  lemma AtLeastZero(score: real, n: nat)
    requires score != 0.0 ==> n > 0 && 1.0 / n as real <= score
    ensures score >= 0.0
  {
    if score != 0.0 {
      Reciprocal(n);
    }
  }

  lemma SomeImbalance(s: seq<real>)
    requires Total(s) != 0.0
    ensures s != []
  {
  }

  /**
   * Accounts that add up to nothing: the score is 0 when all of them are level, otherwise
   * at least one part in as many as there are and at most one half - and exactly one half
   * when there are only two.
   */
  lemma DumpScoreBounds(score: real, nets: seq<real>)
    requires Total(nets) == 0.0 && IsDumpScore(score, nets)
    ensures score == 0.0 <==> forall i :: 0 <= i < |nets| ==> nets[i] == 0.0
    ensures score != 0.0 ==> |nets| > 0 && 1.0 / |nets| as real <= score <= 0.5
    ensures |nets| <= 2 ==> score == 0.0 || score == 0.5
  {
    hide Total, Abses, Abs, IsMax;
    var total := Total(Abses(nets));
    AbsSum(nets);
    if total != 0.0 {
      var m :| IsMax(m, Abses(nets)) && score * total == m;
      ShareBounds(score, nets, m);
    }
  }

  lemma ShareBounds(score: real, nets: seq<real>, m: real)
    requires Total(nets) == 0.0 && Total(Abses(nets)) > 0.0
    requires IsMax(m, Abses(nets)) && score * Total(Abses(nets)) == m
    ensures |nets| > 0 && 1.0 / |nets| as real <= score <= 0.5 && score > 0.0
    ensures |nets| <= 2 ==> score == 0.5
  {
    hide Total, Abs;
    var total := Total(Abses(nets));
    LargestBounds(nets, m);
    SameRatio(score, m, total);
    Ratio(m, total, |nets|);
    AtLeastHalf(score, |nets|);
  }

  lemma LargestBounds(nets: seq<real>, m: real)
    requires Total(nets) == 0.0 && IsMax(m, Abses(nets))
    ensures |nets| > 0 && 2.0 * m <= Total(Abses(nets)) <= m * |nets| as real
  {
    hide Total, Abs;
    var i :| 0 <= i < |nets| && Abses(nets)[i] == m;
    NoneOutweighs(nets, i);
    AtMostTimes(Abses(nets), m);
  }

  lemma SameRatio(score: real, m: real, total: real)
    requires total > 0.0 && score * total == m
    ensures score == m / total
  {
  }

  lemma Reciprocal(n: nat)
    requires n > 0
    ensures 1.0 / n as real > 0.0
    ensures n <= 2 ==> 1.0 / n as real >= 0.5
  {
  }

  lemma AtLeastHalf(score: real, n: nat)
    requires n > 0 && 1.0 / n as real <= score <= 0.5
    ensures score > 0.0 && (n <= 2 ==> score == 0.5)
  {
    Reciprocal(n);
  }

  /** The detection job looks at one pair at a time: between two players the score is 0 or one half. */
  lemma PairScore(transfers: seq<Transfer>, a: string, b: string, score: real)
    requires forall k :: 0 <= k < |transfers| ==> {transfers[k].from, transfers[k].to} == {a, b}
    requires IsScoreOf(score, transfers)
    ensures score == 0.0 || score == 0.5
  {
    var names :| Involved(transfers, names) && Total(Nets(transfers, names)) == 0.0
      && IsDumpScore(score, Nets(transfers, names));
    PartiesOfPair(transfers, a, b);
    DistinctMultiset(names);
    assert Elements(names) <= {a, b};
    assert |{a, b} - Elements(names)| == |{a, b}| - |Elements(names)|;
    DumpScoreBounds(score, Nets(transfers, names));
  }

  lemma {:induction false} PartiesOfPair(transfers: seq<Transfer>, a: string, b: string)
    requires forall k :: 0 <= k < |transfers| ==> {transfers[k].from, transfers[k].to} == {a, b}
    ensures Parties(transfers) <= {a, b}
  {
    if transfers != [] {
      PartiesOfPair(transfers[..|transfers| - 1], a, b);
    }
  }

  // ---------- correlation ----------

  function Average(s: seq<real>): real
    requires s != []
  {
    Total(s) / |s| as real
  }

  /** Sum of the products of the deviations from two centres. */
  function CoDeviation(a: seq<real>, ca: real, b: seq<real>, cb: real): real
    requires |a| == |b|
  {
    if a == [] then 0.0
    else
      var n := |a| - 1;
      CoDeviation(a[..n], ca, b[..n], cb) + (a[n] - ca) * (b[n] - cb)
  }

  lemma LastPair(a: seq<real>, ca: real, b: seq<real>, cb: real)
    requires |a| == |b| > 0
    ensures var n := |a| - 1;
      CoDeviation(a, ca, b, cb) == CoDeviation(a[..n], ca, b[..n], cb) + (a[n] - ca) * (b[n] - cb)
  {
  }

  /** Cauchy-Schwarz for the sums the loop accumulates. */
  lemma {:induction false} CauchySchwarz(a: seq<real>, ca: real, b: seq<real>, cb: real)
    requires |a| == |b|
    ensures CoDeviation(a, ca, a, ca) >= 0.0 && CoDeviation(b, cb, b, cb) >= 0.0
    ensures CoDeviation(a, ca, b, cb) * CoDeviation(a, ca, b, cb)
         <= CoDeviation(a, ca, a, ca) * CoDeviation(b, cb, b, cb)
  {
    hide CoDeviation;
    if a == [] {
      NoPairs(a, ca, b, cb);
      NoPairs(a, ca, a, ca);
      NoPairs(b, cb, b, cb);
    } else {
      var n := |a| - 1;
      LastPair(a, ca, b, cb);
      LastPair(a, ca, a, ca);
      LastPair(b, cb, b, cb);
      CauchySchwarz(a[..n], ca, b[..n], cb);
      OneMorePair(CoDeviation(a[..n], ca, b[..n], cb), CoDeviation(a[..n], ca, a[..n], ca),
        CoDeviation(b[..n], cb, b[..n], cb), a[n] - ca, b[n] - cb,
        CoDeviation(a, ca, b, cb), CoDeviation(a, ca, a, ca), CoDeviation(b, cb, b, cb));
    }
  }

  lemma OneMorePair(c: real, a: real, b: real, x: real, y: real, c': real, a': real, b': real)
    requires a >= 0.0 && b >= 0.0 && c * c <= a * b
    requires c' == c + x * y && a' == a + x * x && b' == b + y * y
    ensures a' >= 0.0 && b' >= 0.0 && c' * c' <= a' * b'
  {
    SquareAdded(c, a, b, x, y);
  }

  lemma SquareAdded(c: real, a: real, b: real, x: real, y: real)
    requires a >= 0.0 && b >= 0.0 && c * c <= a * b
    ensures a + x * x >= 0.0 && b + y * y >= 0.0
    ensures (c + x * y) * (c + x * y) <= (a + x * x) * (b + y * y)
  {
    Square(x);
    Square(y);
    CrossBound(c, a, b, x, y);
    calc {
      (a + x * x) * (b + y * y) - (c + x * y) * (c + x * y);
      a * b + a * (y * y) + b * (x * x) + (x * x) * (y * y) - (c * c + 2.0 * c * (x * y) + (x * y) * (x * y));
      { assert (x * x) * (y * y) == (x * y) * (x * y); }
      (a * b - c * c) + (a * (y * y) + b * (x * x) - 2.0 * c * (x * y));
    }
  }

  lemma Square(x: real)
    ensures x * x >= 0.0
  {
  }

  /** The mixed terms: 2cxy is at most ay^2 + bx^2, because its square is. */
  lemma CrossBound(c: real, a: real, b: real, x: real, y: real)
    requires a >= 0.0 && b >= 0.0 && c * c <= a * b
    ensures a * (y * y) + b * (x * x) >= 2.0 * c * (x * y)
  {
    var p, q, z := a * (y * y), b * (x * x), c * (x * y);
    Square(x);
    Square(y);
    Mul(0.0, a, y * y);
    Mul(0.0, b, x * x);
    Square(x * y);
    Mul(0.0, a * b - c * c, (x * y) * (x * y));
    assert p * q == (a * b) * ((x * y) * (x * y));
    assert z * z == (c * c) * ((x * y) * (x * y));
    Square(p - q);
    assert (p + q) * (p + q) == (p - q) * (p - q) + 4.0 * (p * q);
    assert (2.0 * z) * (2.0 * z) == 4.0 * (z * z);
    if p + q < 2.0 * z {
      BothSquared(p + q, 2.0 * z);
    }
  }

  lemma BothSquared(a: real, b: real)
    requires 0.0 <= a < b
    ensures a * a < b * b
  {
    assert b * b - a * a == (b - a) * (b + a);
    StrictMul(0.0, b - a, b + a);
  }

  /** The centre is the average: the deviations from it cancel out. */
  lemma DeviationsCancel(a: seq<real>)
    requires a != []
    ensures Total(Deviations(a, Average(a))) == 0.0
  {
    DeviationTotal(a, Average(a));
    var n := |a| as real;
    assert Total(a) / n * n == Total(a);
  }

  function Deviations(a: seq<real>, c: real): (r: seq<real>)
    ensures |r| == |a| && forall i :: 0 <= i < |r| ==> r[i] == a[i] - c
  {
    seq(|a|, i requires 0 <= i < |a| => a[i] - c)
  }

  lemma {:induction false} DeviationTotal(a: seq<real>, c: real)
    ensures Total(Deviations(a, c)) == Total(a) - c * |a| as real
  {
    if a != [] {
      DeviationTotal(a[1..], c);
      assert Deviations(a, c)[1..] == Deviations(a[1..], c);
      Distribute(c, 1.0, |a[1..]| as real);
    }
  }

  /** The sums depend on the deviations alone, so shifting a whole list changes nothing. */
  lemma ShiftedLists(a: seq<real>, b: seq<real>, shift: real)
    requires |a| == |b| > 0
    ensures var moved := Deviations(a, -shift);
      && Average(moved) == Average(a) + shift
      && CoDeviation(moved, Average(moved), b, Average(b)) == CoDeviation(a, Average(a), b, Average(b))
  {
    hide CoDeviation, Average;
    var moved := Deviations(a, -shift);
    ShiftedAverage(a, shift);
    SameDeviations(a, Average(a), moved, Average(moved), b, Average(b));
  }

  lemma ShiftedAverage(a: seq<real>, shift: real)
    requires a != []
    ensures Average(Deviations(a, -shift)) == Average(a) + shift
  {
    hide Total;
    DeviationTotal(a, -shift);
    SplitQuotient(Total(a), shift, |a| as real);
  }

  lemma SplitQuotient(a: real, b: real, n: real)
    requires n > 0.0
    ensures (a - (-b) * n) / n == a / n + b
  {
    var q := a / n;
    assert q * n == a;
    assert (q + b) * n == a - (-b) * n;
  }

  lemma {:induction false} SameDeviations(a: seq<real>, ca: real, m: seq<real>, cm: real, b: seq<real>, cb: real)
    requires |a| == |m| == |b| && forall i :: 0 <= i < |a| ==> a[i] - ca == m[i] - cm
    ensures CoDeviation(m, cm, b, cb) == CoDeviation(a, ca, b, cb)
  {
    if a != [] {
      var n := |a| - 1;
      SameDeviations(a[..n], ca, m[..n], cm, b[..n], cb);
    }
  }

  /** A list that is not constant correlates with itself exactly. */
  lemma SelfCorrelation(r: real, a: seq<real>, sqrt: real -> real)
    requires IsSqrt(sqrt) && a != [] && CoDeviation(a, Average(a), a, Average(a)) > 0.0
    requires IsCorrelation(r, a, a, sqrt)
    ensures r == 1.0
  {
    hide CoDeviation, Average, IsSqrt, IsQuotient;
    var c := CoDeviation(a, Average(a), a, Average(a));
    var spread := Spread(a, Average(a), a, Average(a));
    OwnSpread(a, Average(a), c);
    SelfQuotient(r, c, spread, sqrt);
  }

  lemma OwnSpread(a: seq<real>, ca: real, c: real)
    requires c == CoDeviation(a, ca, a, ca) && c > 0.0
    ensures Spread(a, ca, a, ca) == c * c && Spread(a, ca, a, ca) > 0.0
  {
    SquareOf(CoDeviation(a, ca, a, ca), c, Spread(a, ca, a, ca));
  }

  lemma SquareOf(a: real, c: real, product: real)
    requires a == c && c > 0.0 && product == a * a
    ensures product == c * c && product > 0.0
  {
    StaysPositive(product, a, c);
  }

  lemma SelfQuotient(r: real, c: real, spread: real, sqrt: real -> real)
    requires IsSqrt(sqrt) && c > 0.0 && spread > 0.0 && spread == c * c && IsQuotient(r, c, sqrt(spread))
    ensures r == 1.0
  {
    var root := sqrt(spread);
    SameRoot(root, c);
    SameRatio(r, c, root);
    WholeRatio(c, root);
  }

  lemma WholeRatio(a: real, b: real)
    requires a == b && b > 0.0
    ensures a / b == 1.0
  {
  }

  lemma StaysPositive(product: real, a: real, b: real)
    requires a > 0.0 && b > 0.0 && product == a * b
    ensures product > 0.0
  {
    StrictMul(0.0, a, b);
  }

  lemma SameRoot(a: real, b: real)
    requires a > 0.0 && b > 0.0 && a * a == b * b
    ensures a == b
  {
    if a < b {
      BothSquared(a, b);
    } else if b < a {
      BothSquared(b, a);
    }
  }

  /** An exact square root. */
  ghost predicate IsSqrt(sqrt: real -> real) {
    forall x :: x > 0.0 ==> sqrt(x) > 0.0 && sqrt(x) * sqrt(x) == x
  }

  /** The co-deviation of two lists over the root of their spreads; 0 when there is nothing to compare. */
  ghost predicate IsCorrelation(r: real, a: seq<real>, b: seq<real>, sqrt: real -> real) {
    if |a| != |b| || a == [] then r == 0.0
    else
      var ca, cb := Average(a), Average(b);
      var spread := Spread(a, ca, b, cb);
      if spread == 0.0 then r == 0.0 else IsQuotient(r, CoDeviation(a, ca, b, cb), sqrt(spread))
  }

  /** The product of the two sums of squared deviations. */
  function Spread(a: seq<real>, ca: real, b: seq<real>, cb: real): real
    requires |a| == |b|
  {
    CoDeviation(a, ca, a, ca) * CoDeviation(b, cb, b, cb)
  }

  ghost predicate IsQuotient(r: real, num: real, den: real) {
    den != 0.0 && r * den == num
  }

  /** The correlation always lies in [-1, 1]. */
  method CalculateVpipCorrelation(vpipA: seq<real>, vpipB: seq<real>, sqrt: real -> real) returns (r: real)
    requires IsSqrt(sqrt)
    ensures IsCorrelation(r, vpipA, vpipB, sqrt) && -1.0 <= r <= 1.0
  {
    hide CoDeviation, Total, IsSqrt;
    if |vpipA| != |vpipB| || |vpipA| == 0 {
      return 0.0;
    }
    var n := |vpipA|;
    var meanA := Total(vpipA) / n as real;
    var meanB := Total(vpipB) / n as real;
    var numerator, denomA, denomB := Accumulate(vpipA, meanA, vpipB, meanB);
    assert meanA == Average(vpipA) && meanB == Average(vpipB);
    CauchySchwarz(vpipA, meanA, vpipB, meanB);
    r := OverRoot(numerator, denomA, denomB, Spread(vpipA, meanA, vpipB, meanB), sqrt);
  }

  method OverRoot(numerator: real, denomA: real, denomB: real, ghost spread: real, sqrt: real -> real) returns (r: real)
    requires IsSqrt(sqrt) && denomA >= 0.0 && denomB >= 0.0 && spread == denomA * denomB
    requires numerator * numerator <= spread
    ensures -1.0 <= r <= 1.0
    ensures if spread == 0.0 then r == 0.0 else IsQuotient(r, numerator, sqrt(spread))
  {
    SpreadZero(denomA, denomB);
    if denomA != 0.0 && denomB != 0.0 {
      var root := sqrt(denomA * denomB);
      r := numerator / root;
      InUnitRange(numerator, root);
    } else {
      r := 0.0;
    }
  }

  method Accumulate(vpipA: seq<real>, meanA: real, vpipB: seq<real>, meanB: real)
    returns (numerator: real, denomA: real, denomB: real)
    requires |vpipA| == |vpipB|
    ensures numerator == CoDeviation(vpipA, meanA, vpipB, meanB)
    ensures denomA == CoDeviation(vpipA, meanA, vpipA, meanA) && denomB == CoDeviation(vpipB, meanB, vpipB, meanB)
  {
    hide CoDeviation;
    numerator, denomA, denomB := 0.0, 0.0, 0.0;
    NoPairs(vpipA[..0], meanA, vpipB[..0], meanB);
    NoPairs(vpipA[..0], meanA, vpipA[..0], meanA);
    NoPairs(vpipB[..0], meanB, vpipB[..0], meanB);
    for i := 0 to |vpipA|
      invariant numerator == CoDeviation(vpipA[..i], meanA, vpipB[..i], meanB)
      invariant denomA == CoDeviation(vpipA[..i], meanA, vpipA[..i], meanA)
      invariant denomB == CoDeviation(vpipB[..i], meanB, vpipB[..i], meanB)
    {
      var da, db := vpipA[i] - meanA, vpipB[i] - meanB;
      var a, b := vpipA[..i + 1], vpipB[..i + 1];
      assert a[..i] == vpipA[..i] && b[..i] == vpipB[..i];
      LastPair(a, meanA, b, meanB);
      LastPair(a, meanA, a, meanA);
      LastPair(b, meanB, b, meanB);
      numerator := numerator + da * db;
      denomA := denomA + da * da;
      denomB := denomB + db * db;
    }
    assert vpipA[..|vpipA|] == vpipA && vpipB[..|vpipB|] == vpipB;
  }

  lemma NoPairs(a: seq<real>, ca: real, b: seq<real>, cb: real)
    requires |a| == |b| == 0
    ensures CoDeviation(a, ca, b, cb) == 0.0
  {
  }

  lemma SpreadZero(a: real, b: real)
    requires a >= 0.0 && b >= 0.0
    ensures a * b == 0.0 <==> a == 0.0 || b == 0.0
    ensures a != 0.0 && b != 0.0 ==> a * b > 0.0
  {
    if a > 0.0 && b > 0.0 {
      StrictMul(0.0, a, b);
    }
  }

  lemma InUnitRange(c: real, root: real)
    requires root > 0.0 && c * c <= root * root
    ensures -1.0 <= c / root <= 1.0
    ensures c / root * root == c
  {
    assert (-c) * (-c) == c * c;
    if c > root {
      BothSquared(root, c);
    }
    if -c > root {
      BothSquared(root, -c);
    }
    var r := c / root;
    assert r * root == c && 1.0 * root == root && (-r) * root == -(r * root);
    Compare(r, 1.0, root);
    Compare(-r, 1.0, root);
  }
}
