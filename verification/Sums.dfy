/** Weighted sums over sequences: counting workers, tokens, balances. */
module Sums {

  function Sum<T>(s: seq<T>, f: T -> int): int
  {
    if s == [] then 0 else Sum(s[..|s| - 1], f) + f(s[|s| - 1])
  }

  /** Replacing one element moves the sum by exactly the difference of the two weights. */
  lemma {:induction false} SumUpdate<T>(s: seq<T>, i: nat, v: T, f: T -> int)
    requires i < |s|
    ensures Sum(s[i := v], f) == Sum(s, f) - f(s[i]) + f(v)
    decreases |s|
  {
    var last := |s| - 1;
    if i < last {
      SumUpdate(s[..last], i, v, f);
      assert s[i := v][..last] == s[..last][i := v];
    } else {
      assert s[i := v][..last] == s[..last];
    }
  }

  lemma {:induction false} SumAppend<T>(s: seq<T>, t: seq<T>, f: T -> int)
    ensures Sum(s + t, f) == Sum(s, f) + Sum(t, f)
    decreases |t|
  {
    if t == [] {
      assert s + t == s;
    } else {
      var last := |t| - 1;
      SumAppend(s, t[..last], f);
      assert (s + t)[..|s + t| - 1] == s + t[..last];
    }
  }

  lemma {:induction false} SumWithin<T>(s: seq<T>, f: T -> int, lo: int, hi: int)
    requires forall i :: 0 <= i < |s| ==> lo <= f(s[i]) <= hi
    ensures lo * |s| <= Sum(s, f) <= hi * |s|
    decreases |s|
  {
    if s == [] {
    } else {
      var n := |s| - 1;
      SumWithin(s[..n], f, lo, hi);
      assert lo * (n + 1) == lo * n + lo && hi * (n + 1) == hi * n + hi;
    }
  }

  /** A single light element keeps the sum of 0/1 weights off its maximum. */
  lemma {:induction false} SumMisses<T>(s: seq<T>, f: T -> int, i: nat)
    requires i < |s| && f(s[i]) == 0
    requires forall j :: 0 <= j < |s| ==> 0 <= f(s[j]) <= 1
    ensures 0 <= Sum(s, f) <= |s| - 1
  {
    var heavy := s[i];
    SumUpdate(s, i, heavy, f);
    SumWithin(s[..i], f, 0, 1);
    SumWithin(s[i + 1..], f, 0, 1);
    assert s == s[..i] + [s[i]] + s[i + 1..];
    SumAppend(s[..i] + [s[i]], s[i + 1..], f);
    SumAppend(s[..i], [s[i]], f);
    assert [s[i]][..0] == [];
    assert Sum([s[i]], f) == 0;
  }

  /** A sum of non-negative weights is at least any one of them. */
  lemma {:induction false} SumAtLeast<T>(s: seq<T>, f: T -> int, i: nat)
    requires i < |s|
    requires forall j :: 0 <= j < |s| ==> 0 <= f(s[j])
    ensures f(s[i]) <= Sum(s, f)
    decreases |s|
  {
    var last := |s| - 1;
    SumNonNegative(s[..last], f);
    if i < last {
      SumAtLeast(s[..last], f, i);
    }
  }

  lemma {:induction false} SumNonNegative<T>(s: seq<T>, f: T -> int)
    requires forall j :: 0 <= j < |s| ==> 0 <= f(s[j])
    ensures 0 <= Sum(s, f)
    decreases |s|
  {
    if s == [] {
    } else {
      SumNonNegative(s[..|s| - 1], f);
    }
  }

  /** All weights zero exactly when the sum of non-negative weights is. */
  lemma {:induction false} SumZero<T>(s: seq<T>, f: T -> int)
    requires forall j :: 0 <= j < |s| ==> 0 <= f(s[j])
    ensures Sum(s, f) == 0 <==> forall j :: 0 <= j < |s| ==> f(s[j]) == 0
    decreases |s|
  {
    if s == [] {
    } else {
      var last := |s| - 1;
      SumNonNegative(s[..last], f);
      SumZero(s[..last], f);
      assert forall j :: 0 <= j < last ==> s[..last][j] == s[j];
    }
  }

  lemma SumInsert<T>(a: seq<T>, x: T, b: seq<T>, f: T -> int)
    ensures Sum(a + [x] + b, f) == Sum(a + b, f) + f(x)
    ensures multiset(a + [x] + b) == multiset(a + b) + multiset{x}
  {
    SumAppend(a, b, f);
    SumAppend(a + [x], b, f);
    assert (a + [x])[..|a|] == a;
  }

  lemma Cancel<T>(a: multiset<T>, b: multiset<T>, x: T)
    requires a + multiset{x} == b + multiset{x}
    ensures a == b
  {
    assert a == a + multiset{x} - multiset{x} && b == b + multiset{x} - multiset{x};
  }

  /** Somewhere in t, x can be taken out. */
  lemma Cut<T>(t: seq<T>, x: T) returns (a: seq<T>, b: seq<T>)
    requires x in multiset(t)
    ensures t == a + [x] + b
  {
    var j :| 0 <= j < |t| && t[j] == x;
    a, b := t[..j], t[j + 1..];
  }

  /** The order of the elements does not matter. */
  lemma {:induction false} SumPermutation<T>(s: seq<T>, t: seq<T>, f: T -> int)
    requires multiset(s) == multiset(t)
    ensures Sum(s, f) == Sum(t, f)
    decreases |s|
  {
    if s == [] {
      assert |t| == |multiset(t)| == 0;
    } else {
      var before, x := s[..|s| - 1], s[|s| - 1];
      assert s == before + [x] && multiset(s) == multiset(before) + multiset{x};
      var a, b := Cut(t, x);
      SumInsert(a, x, b, f);
      Cancel(multiset(before), multiset(a + b), x);
      SumPermutation(before, a + b, f);
    }
  }

  /** a taken b times; kept apart from `*` so that budgets grow by plain addition. */
  function Times(a: nat, b: nat): nat
  {
    if b == 0 then 0 else Times(a, b - 1) + a
  }

  lemma {:induction false} TimesIsProduct(a: nat, b: nat)
    ensures Times(a, b) == a * b
    decreases b
  {
    if b == 0 {
    } else {
      TimesIsProduct(a, b - 1);
      assert a * b == a * (b - 1) + a;
    }
  }
}
