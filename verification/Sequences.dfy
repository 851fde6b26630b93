/** The array operations the poker code leans on (`filter`, `find`, `sort`, `reduce`), with their laws. */
module Sequences {
  // ---------- sums ----------

  function Sum(s: seq<int>): int {
    if s == [] then 0 else s[0] + Sum(s[1..])
  }

  lemma OneMore(d: int, n: int)
    ensures d * (n + 1) == d * (1 + n) == d + d * n == n * d + d == (n + 1) * d
  {
  }

  lemma {:induction false} SumAppend(a: seq<int>, b: seq<int>)
    ensures Sum(a + b) == Sum(a) + Sum(b)
  {
    if a == [] {
      assert a + b == b;
    } else {
      SumAppend(a[1..], b);
      assert (a + b)[1..] == a[1..] + b;
    }
  }

  lemma {:induction false} SumUpdate(s: seq<int>, i: nat, v: int)
    requires i < |s|
    ensures Sum(s[i := v]) == Sum(s) - s[i] + v
  {
    if i == 0 {
      assert s[0 := v][1..] == s[1..];
    } else {
      SumUpdate(s[1..], i - 1, v);
      assert s[i := v][1..] == s[1..][i - 1 := v];
    }
  }

  /** Sums add up pointwise. */
  lemma {:induction false} SumAdd(a: seq<int>, b: seq<int>, c: seq<int>)
    requires |a| == |b| == |c|
    requires forall i :: 0 <= i < |a| ==> c[i] == a[i] + b[i]
    ensures Sum(c) == Sum(a) + Sum(b)
  {
    if a != [] {
      SumAdd(a[1..], b[1..], c[1..]);
    }
  }

  lemma {:induction false} SumZero(s: seq<int>)
    requires forall i :: 0 <= i < |s| ==> s[i] == 0
    ensures Sum(s) == 0
  {
    if s != [] {
      SumZero(s[1..]);
    }
  }

  /** A sum of non-negative terms is at least each term, and zero only when every term is. */
  lemma {:induction false} SumNonNegative(s: seq<int>)
    requires forall i :: 0 <= i < |s| ==> s[i] >= 0
    ensures forall i :: 0 <= i < |s| ==> s[i] <= Sum(s)
    ensures Sum(s) >= 0
  {
    if s != [] {
      SumNonNegative(s[1..]);
      forall i | 0 <= i < |s| ensures s[i] <= Sum(s) {
        if i > 0 {
          assert s[i] == s[1..][i - 1];
        }
      }
    }
  }

  // ---------- permutations ----------

  /** The list without its element at index `i`. */
  function Without<T>(s: seq<T>, i: nat): (r: seq<T>)
    requires i < |s|
    ensures |r| == |s| - 1
  {
    s[..i] + s[i + 1..]
  }

  lemma WithoutMultiset<T>(s: seq<T>, i: nat)
    requires i < |s|
    ensures multiset(s) == multiset(Without(s, i)) + multiset{s[i]}
  {
    assert s == s[..i] + [s[i]] + s[i + 1..];
  }

  /** The place in a permutation of the list's first element. */
  lemma FindHead<T>(a: seq<T>, b: seq<T>) returns (p: nat)
    requires a != [] && multiset(a) == multiset(b)
    ensures p < |b| && b[p] == a[0] && multiset(a[1..]) == multiset(Without(b, p))
  {
    assert a[0] in multiset(b);
    p :| 0 <= p < |b| && b[p] == a[0];
    WithoutMultiset(b, p);
    WithoutMultiset(a, 0);
    assert Without(a, 0) == a[1..];
    assert multiset(a[1..]) == multiset(a) - multiset{a[0]};
    assert multiset(Without(b, p)) == multiset(b) - multiset{a[0]};
  }

  lemma {:induction false} SumWithout(s: seq<int>, i: nat)
    requires i < |s|
    ensures Sum(s) == s[i] + Sum(Without(s, i))
  {
    SumAppend(s[..i], s[i + 1..]);
    SumAppend(s[..i], s[i..]);
    assert s == s[..i] + s[i..];
  }

  lemma {:induction false} SumPermutation(a: seq<int>, b: seq<int>)
    requires multiset(a) == multiset(b)
    ensures Sum(a) == Sum(b)
  {
    assert |multiset(a)| == |multiset(b)|;
    if a != [] {
      var p := FindHead(a, b);
      SumPermutation(a[1..], Without(b, p));
      SumWithout(b, p);
    }
  }

  /** Mapping a function over permutations gives permutations. */
  lemma {:induction false} MapPermutation<T, U>(f: T -> U, a: seq<T>, b: seq<T>, fa: seq<U>, fb: seq<U>)
    requires multiset(a) == multiset(b) && |a| == |fa| && |b| == |fb|
    requires forall i :: 0 <= i < |a| ==> fa[i] == f(a[i])
    requires forall i :: 0 <= i < |b| ==> fb[i] == f(b[i])
    ensures multiset(fa) == multiset(fb)
  {
    assert |multiset(a)| == |multiset(b)|;
    if a != [] {
      var p := FindHead(a, b);
      MapPermutation(f, a[1..], Without(b, p), fa[1..], Without(fb, p));
      WithoutMultiset(fb, p);
      assert fa == [fa[0]] + fa[1..];
    }
  }

  // ---------- filter and find ----------

  function Filter<T(!new)>(keep: T -> bool, s: seq<T>): (r: seq<T>)
    ensures |r| <= |s|
  {
    if s == [] then [] else (if keep(s[0]) then [s[0]] else []) + Filter(keep, s[1..])
  }

  lemma {:induction false} FilterMembers<T(!new)>(keep: T -> bool, s: seq<T>)
    ensures forall x :: x in Filter(keep, s) <==> x in s && keep(x)
  {
    if s != [] {
      FilterMembers(keep, s[1..]);
      assert s == [s[0]] + s[1..];
    }
  }

  /** The first element that satisfies the test, or the fallback when there is none. */
  function FindOr<T>(test: T -> bool, s: seq<T>, fallback: T): T {
    if s == [] then fallback else if test(s[0]) then s[0] else FindOr(test, s[1..], fallback)
  }

  lemma {:induction false} FilterMultiset<T(!new)>(keep: T -> bool, s: seq<T>)
    ensures forall x :: multiset(Filter(keep, s))[x] == if keep(x) then multiset(s)[x] else 0
  {
    if s != [] {
      FilterMultiset(keep, s[1..]);
      assert s == [s[0]] + s[1..];
    }
  }

  lemma {:induction false} FilterSorted<T(!new)>(keep: T -> bool, le: (T, T) -> bool, s: seq<T>)
    requires SortedBy(le, s)
    ensures SortedBy(le, Filter(keep, s))
  {
    if s != [] {
      FilterSorted(keep, le, s[1..]);
      FilterMembers(keep, s[1..]);
      assert forall x :: x in s[1..] ==> le(s[0], x);
    }
  }

  lemma {:induction false} FindOrFinds<T>(test: T -> bool, s: seq<T>, fallback: T)
    ensures var x := FindOr(test, s, fallback);
      if exists y :: y in s && test(y) then x in s && test(x) else x == fallback
  {
    if s != [] && !test(s[0]) {
      FindOrFinds(test, s[1..], fallback);
      assert s == [s[0]] + s[1..];
    }
  }

  /** `slice(0, n)`. */
  function FirstOf<T>(s: seq<T>, n: nat): (r: seq<T>)
    ensures forall x :: x in r ==> x in s
  {
    if |s| <= n then s else s[..n]
  }

  // ---------- sets of elements ----------

  ghost predicate Distinct<T>(s: seq<T>) {
    forall i, j :: 0 <= i < j < |s| ==> s[i] != s[j]
  }

  function Elements<T>(s: seq<T>): set<T> {
    set x | x in s
  }

  /** `Array.from(new Set(s))`: each value once, in order of first appearance. */
  function Unique<T(==,!new)>(s: seq<T>): (r: seq<T>)
    ensures Distinct(r)
    ensures forall x :: x in r <==> x in s
    ensures s != [] ==> r != []
  {
    if s == [] then []
    else
      var front := Unique(s[..|s| - 1]);
      var last := s[|s| - 1];
      assert s == s[..|s| - 1] + [last];
      if last in front then front else front + [last]
  }

  lemma {:induction false} DistinctMultiset<T>(s: seq<T>)
    requires Distinct(s)
    ensures forall x :: multiset(s)[x] <= 1
    ensures |Elements(s)| == |s|
  {
    if s != [] {
      DistinctMultiset(s[1..]);
      assert s == [s[0]] + s[1..];
      assert s[0] !in s[1..];
      assert Elements(s) == {s[0]} + Elements(s[1..]);
    }
  }

  lemma {:induction false} MultisetDistinct<T>(s: seq<T>)
    requires forall x :: multiset(s)[x] <= 1
    ensures Distinct(s)
  {
    forall i, j | 0 <= i < j < |s| ensures s[i] != s[j] {
      var before, after := s[..j], s[j..];
      assert s == before + after && s[i] == before[i] && s[j] == after[0];
      assert multiset(s)[s[i]] == multiset(before)[s[i]] + multiset(after)[s[i]];
      assert multiset(before)[s[i]] >= 1 && multiset(after)[s[j]] >= 1;
    }
  }

  /** Two lists without repeats and with the same elements are permutations of each other. */
  lemma DistinctSameElements<T>(a: seq<T>, b: seq<T>)
    requires Distinct(a) && Distinct(b)
    requires forall x :: x in a <==> x in b
    ensures multiset(a) == multiset(b)
  {
    DistinctMultiset(a);
    DistinctMultiset(b);
    forall x ensures multiset(a)[x] == multiset(b)[x] {
      assert x in a <==> x in multiset(a);
      assert x in b <==> x in multiset(b);
    }
  }

  lemma SameMembers<T>(a: seq<T>, b: seq<T>)
    requires multiset(a) == multiset(b)
    ensures forall x :: x in a <==> x in b
  {
    assert forall x :: x in a <==> x in multiset(a);
    assert forall x :: x in b <==> x in multiset(b);
  }

  // ---------- sorting ----------

  function Descending(): (int, int) -> bool {
    (a, b) => a >= b
  }

  function Ascending(): (int, int) -> bool {
    (a, b) => a <= b
  }

  ghost predicate TotalPreorder<T(!new)>(le: (T, T) -> bool) {
    && (forall a, b :: le(a, b) || le(b, a))
    && (forall a, b, c :: le(a, b) && le(b, c) ==> le(a, c))
  }

  ghost predicate SortedBy<T>(le: (T, T) -> bool, s: seq<T>) {
    forall i, j :: 0 <= i < j < |s| ==> le(s[i], s[j])
  }

  function Insert<T>(le: (T, T) -> bool, x: T, s: seq<T>): (r: seq<T>)
    ensures |r| == |s| + 1
  {
    if s == [] || le(x, s[0]) then [x] + s else [s[0]] + Insert(le, x, s[1..])
  }

  /** The library's stable sort. */
  function Sort<T>(le: (T, T) -> bool, s: seq<T>): (r: seq<T>)
    ensures |r| == |s|
  {
    if s == [] then [] else Insert(le, s[0], Sort(le, s[1..]))
  }

  lemma {:induction false} InsertKeeps<T(!new)>(le: (T, T) -> bool, x: T, s: seq<T>)
    ensures multiset(Insert(le, x, s)) == multiset(s) + multiset{x}
    ensures forall y :: y in Insert(le, x, s) <==> y == x || y in s
  {
    if s != [] && !le(x, s[0]) {
      InsertKeeps(le, x, s[1..]);
      assert s == [s[0]] + s[1..];
    }
  }

  lemma {:induction false} InsertSorts<T(!new)>(le: (T, T) -> bool, x: T, s: seq<T>)
    requires TotalPreorder(le) && SortedBy(le, s)
    ensures SortedBy(le, Insert(le, x, s))
  {
    if s != [] && !le(x, s[0]) {
      InsertSorts(le, x, s[1..]);
      InsertKeeps(le, x, s[1..]);
      forall y | y in Insert(le, x, s[1..]) ensures le(s[0], y) {
      }
    }
  }

  lemma {:induction false} SortSorts<T(!new)>(le: (T, T) -> bool, s: seq<T>)
    requires TotalPreorder(le)
    ensures SortedBy(le, Sort(le, s))
    ensures multiset(Sort(le, s)) == multiset(s)
  {
    if s != [] {
      SortSorts(le, s[1..]);
      InsertSorts(le, s[0], Sort(le, s[1..]));
      InsertKeeps(le, s[0], Sort(le, s[1..]));
      assert s == [s[0]] + s[1..];
    }
  }

  /** Under an order that separates distinct elements, sorting depends on the elements alone. */
  lemma {:induction false} SortedUnique<T(!new)>(le: (T, T) -> bool, a: seq<T>, b: seq<T>)
    requires TotalPreorder(le)
    requires forall x, y :: le(x, y) && le(y, x) ==> x == y
    requires SortedBy(le, a) && SortedBy(le, b) && multiset(a) == multiset(b)
    ensures a == b
  {
    assert |multiset(a)| == |multiset(b)|;
    if a != [] {
      assert a[0] in multiset(b) && b[0] in multiset(a);
      SortedHead(le, a, b);
      MultisetTail(a);
      MultisetTail(b);
      SortedUnique(le, a[1..], b[1..]);
    }
  }

  lemma MultisetTail<T>(s: seq<T>)
    requires s != []
    ensures multiset(s[1..]) == multiset(s) - multiset{s[0]}
  {
    assert s == [s[0]] + s[1..];
  }

  lemma SortedHead<T(!new)>(le: (T, T) -> bool, a: seq<T>, b: seq<T>)
    requires forall x, y :: le(x, y) && le(y, x) ==> x == y
    requires SortedBy(le, a) && SortedBy(le, b)
    requires a != [] && b != [] && a[0] in b && b[0] in a
    ensures a[0] == b[0]
  {
    var i :| 0 <= i < |b| && b[i] == a[0];
    var j :| 0 <= j < |a| && a[j] == b[0];
    assert i > 0 ==> le(b[0], b[i]);
    assert j > 0 ==> le(a[0], a[j]);
  }
}
