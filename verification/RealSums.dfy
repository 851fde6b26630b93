/** Sums of exact reals, and the few facts about products that nonlinear proofs lean on. */
module RealSums {
  import opened Sequences

  function Total(s: seq<real>): real {
    if s == [] then 0.0 else s[0] + Total(s[1..])
  }

  lemma SingleTotal(x: real)
    ensures Total([x]) == x
  {
  }

  lemma {:induction false} TotalAppend(a: seq<real>, b: seq<real>)
    ensures Total(a + b) == Total(a) + Total(b)
  {
    if a == [] {
      assert a + b == b;
    } else {
      TotalAppend(a[1..], b);
      assert (a + b)[1..] == a[1..] + b;
    }
  }

  lemma {:induction false} TotalUpdate(s: seq<real>, i: nat, v: real)
    requires i < |s|
    ensures Total(s[i := v]) == Total(s) - s[i] + v
  {
    if i == 0 {
      assert s[0 := v][1..] == s[1..];
    } else {
      TotalUpdate(s[1..], i - 1, v);
      assert s[i := v][1..] == s[1..][i - 1 := v];
    }
  }

  lemma {:induction false} TotalWithout(s: seq<real>, i: nat)
    requires i < |s|
    ensures Total(s) == s[i] + Total(Without(s, i))
  {
    if i == 0 {
      assert Without(s, 0) == s[1..];
    } else {
      TotalWithout(s[1..], i - 1);
      assert Without(s, i)[0] == s[0] && Without(s, i)[1..] == Without(s[1..], i - 1);
    }
  }

  lemma {:induction false} TotalPermutation(a: seq<real>, b: seq<real>)
    requires multiset(a) == multiset(b)
    ensures Total(a) == Total(b)
  {
    assert |multiset(a)| == |multiset(b)|;
    if a != [] {
      var p := FindHead(a, b);
      TotalPermutation(a[1..], Without(b, p));
      TotalWithout(b, p);
    }
  }

  /** A product with a name of its own, for proofs that only pass it on. */
  function Product(a: real, b: real): real {
    a * b
  }

  lemma NoProduct(a: real)
    ensures Product(a, 0.0) == Product(0.0, a) == 0.0
  {
  }

  lemma Mul(a: real, b: real, c: real)
    requires a <= b && c >= 0.0
    ensures a * c <= b * c
  {
  }

  lemma StrictMul(a: real, b: real, c: real)
    requires a < b && c > 0.0
    ensures a * c < b * c
  {
  }

  lemma Distribute(w: real, a: real, b: real)
    ensures w * (a + b) == w * a + w * b
  {
  }
}
