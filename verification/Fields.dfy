/** strings.FieldsFunc as its documentation has it: the maximal runs of kept elements, in order. */
module Fields {
  import opened Utf8

  /** Elements a to b - 1 are a run of kept elements that cannot be extended on either side. */
  ghost predicate MaximalRun(s: seq<Rune>, keep: Rune -> bool, a: nat, b: nat)
  {
    && a < b <= |s|
    && (forall i :: a <= i < b ==> keep(s[i]))
    && (a > 0 ==> !keep(s[a - 1]))
    && (b < |s| ==> !keep(s[b]))
  }

  function RunEnd(s: seq<Rune>, keep: Rune -> bool, from: nat): (e: nat)
    requires from <= |s|
    ensures from <= e <= |s| && (forall i :: from <= i < e ==> keep(s[i]))
    ensures e < |s| ==> !keep(s[e])
    decreases |s| - from
  {
    if from < |s| && keep(s[from]) then RunEnd(s, keep, from + 1) else from
  }

  /** The runs that start at or after `from`, as pairs of bounds. */
  function Spans(s: seq<Rune>, keep: Rune -> bool, from: nat): (r: seq<(nat, nat)>)
    requires from <= |s|
    ensures forall i :: 0 <= i < |r| ==> from <= r[i].0 < r[i].1 <= |s|
    decreases |s| - from
  {
    if from == |s| then []
    else if !keep(s[from]) then Spans(s, keep, from + 1)
    else
      var e := RunEnd(s, keep, from + 1);
      [(from, e)] + Spans(s, keep, e)
  }

  ghost predicate Bounds(r: seq<(nat, nat)>, n: nat)
  {
    forall i :: 0 <= i < |r| ==> r[i].0 <= r[i].1 <= n
  }

  /** What lies within each of the bounds. */
  function Slices(s: seq<Rune>, r: seq<(nat, nat)>): (f: seq<seq<Rune>>)
    requires Bounds(r, |s|)
    ensures |f| == |r| && forall i :: 0 <= i < |r| ==> f[i] == s[r[i].0..r[i].1]
  {
    seq(|r|, i requires 0 <= i < |r| => s[r[i].0..r[i].1])
  }

  function Fields(s: seq<Rune>, keep: Rune -> bool): seq<seq<Rune>>
  {
    Slices(s, Spans(s, keep, 0))
  }

  /** Spans start from a position that does not cut a run. */
  ghost predicate Uncut(s: seq<Rune>, keep: Rune -> bool, from: nat)
  {
    from <= |s| && (from > 0 ==> from == |s| || !keep(s[from - 1]) || !keep(s[from]))
  }

  lemma {:induction false} SpansAreRuns(s: seq<Rune>, keep: Rune -> bool, from: nat)
    requires Uncut(s, keep, from)
    ensures forall i :: 0 <= i < |Spans(s, keep, from)| ==>
              MaximalRun(s, keep, Spans(s, keep, from)[i].0, Spans(s, keep, from)[i].1)
    decreases |s| - from
  {
    if from == |s| {
    } else {
      if keep(s[from]) {
        var e := RunEnd(s, keep, from + 1);
        assert MaximalRun(s, keep, from, e);
        SpansAreRuns(s, keep, e);
      } else {
        SpansAreRuns(s, keep, from + 1);
      }
    }
  }

  lemma {:induction false} RunsAreSpans(s: seq<Rune>, keep: Rune -> bool, from: nat, a: nat, b: nat)
    requires from <= a && MaximalRun(s, keep, a, b)
    requires Uncut(s, keep, from)
    ensures (a, b) in Spans(s, keep, from)
    decreases |s| - from
  {
    if keep(s[from]) {
      var e := RunEnd(s, keep, from + 1);
      assert MaximalRun(s, keep, from, e);
      RunsDoNotOverlap(s, keep, from, e, a, b);
      assert Spans(s, keep, from) == [(from, e)] + Spans(s, keep, e);
      if a > from { RunsAreSpans(s, keep, e, a, b); }
    } else {
      RunsAreSpans(s, keep, from + 1, a, b);
    }
  }

  lemma RunsDoNotOverlap(s: seq<Rune>, keep: Rune -> bool, a: nat, b: nat, c: nat, d: nat)
    requires MaximalRun(s, keep, a, b) && MaximalRun(s, keep, c, d) && a <= c
    ensures (a == c && b == d) || b < c
  {
  }

  ghost predicate Apart(r: seq<(nat, nat)>)
  {
    forall i, j :: 0 <= i < j < |r| ==> r[i].1 < r[j].0
  }

  lemma ApartCons(p: (nat, nat), rest: seq<(nat, nat)>)
    requires Apart(rest) && forall j :: 0 <= j < |rest| ==> p.1 < rest[j].0
    ensures Apart([p] + rest)
  {
    var r := [p] + rest;
    forall i, j | 0 <= i < j < |r| ensures r[i].1 < r[j].0 {
      assert r[j] == rest[j - 1];
      if i > 0 { assert r[i] == rest[i - 1]; }
    }
  }

  lemma {:induction false} SpansInOrder(s: seq<Rune>, keep: Rune -> bool, from: nat)
    requires from <= |s|
    ensures Apart(Spans(s, keep, from))
    decreases |s| - from
  {
    if from == |s| {
    } else {
      if keep(s[from]) {
        var e := RunEnd(s, keep, from + 1);
        SpansInOrder(s, keep, e);
        assert e < |s| ==> Spans(s, keep, e) == Spans(s, keep, e + 1);
        ApartCons((from, e), Spans(s, keep, e));
      } else {
        SpansInOrder(s, keep, from + 1);
      }
    }
  }

  /** The fields are exactly what lies in the maximal runs, each once and in order. */
  lemma FieldsAreTheMaximalRuns(s: seq<Rune>, keep: Rune -> bool)
    ensures var r := Spans(s, keep, 0);
            && |Fields(s, keep)| == |r|
            && (forall i :: 0 <= i < |r| ==> Fields(s, keep)[i] == s[r[i].0..r[i].1])
            && Apart(r)
            && (forall a: nat, b: nat :: (a, b) in r <==> MaximalRun(s, keep, a, b))
  {
    SpansInOrder(s, keep, 0);
    SpansAreRuns(s, keep, 0);
    forall a: nat, b: nat | MaximalRun(s, keep, a, b) ensures (a, b) in Spans(s, keep, 0) {
      RunsAreSpans(s, keep, 0, a, b);
    }
  }

  // ---------- joining ----------

  lemma {:induction false} RunEndJoin(a: seq<Rune>, sep: Rune, b: seq<Rune>, keep: Rune -> bool, from: nat)
    requires from <= |a| && !keep(sep)
    ensures RunEnd(a + [sep] + b, keep, from) == RunEnd(a, keep, from)
    decreases |a| - from
  {
    if from < |a| && keep(a[from]) { RunEndJoin(a, sep, b, keep, from + 1); }
  }

  lemma {:induction false} RunEndShift(a: seq<Rune>, b: seq<Rune>, keep: Rune -> bool, from: nat)
    requires from <= |b|
    ensures RunEnd(a + b, keep, |a| + from) == |a| + RunEnd(b, keep, from)
    decreases |b| - from
  {
    if from < |b| && keep(b[from]) { RunEndShift(a, b, keep, from + 1); }
  }

  /** The same bounds, k further on. */
  function Shifted(r: seq<(nat, nat)>, k: nat): (r': seq<(nat, nat)>)
    ensures |r'| == |r| && forall i :: 0 <= i < |r| ==> r'[i] == (k + r[i].0, k + r[i].1)
  {
    seq(|r|, i requires 0 <= i < |r| => (k + r[i].0, k + r[i].1))
  }

  lemma ShiftedCons(p: (nat, nat), r: seq<(nat, nat)>, k: nat)
    ensures Shifted([p] + r, k) == [(k + p.0, k + p.1)] + Shifted(r, k)
  {
  }

  /** A run is a span of its own. */
  lemma SpansAtRun(s: seq<Rune>, keep: Rune -> bool, from: nat)
    requires from < |s| && keep(s[from])
    ensures var e := RunEnd(s, keep, from + 1); Spans(s, keep, from) == [(from, e)] + Spans(s, keep, e)
  {
  }

  lemma SpansShiftRun(a: seq<Rune>, b: seq<Rune>, keep: Rune -> bool, from: nat, e: nat)
    requires from < |b| && keep(b[from]) && e == RunEnd(b, keep, from + 1)
    requires Spans(a + b, keep, |a| + e) == Shifted(Spans(b, keep, e), |a|)
    ensures Spans(a + b, keep, |a| + from) == Shifted(Spans(b, keep, from), |a|)
  {
    hide *;
    RunEndShift(a, b, keep, from + 1);
    assert (a + b)[|a| + from] == b[from];
    SpansAtRun(a + b, keep, |a| + from);
    SpansAtRun(b, keep, from);
    ShiftedCons((from, e), Spans(b, keep, e), |a|);
  }

  lemma {:induction false} SpansShift(a: seq<Rune>, b: seq<Rune>, keep: Rune -> bool, from: nat)
    requires from <= |b|
    ensures Spans(a + b, keep, |a| + from) == Shifted(Spans(b, keep, from), |a|)
    decreases |b| - from
  {
    if from == |b| {
      assert Spans(a + b, keep, |a| + from) == [];
    } else if keep(b[from]) {
      var e := RunEnd(b, keep, from + 1);
      SpansShift(a, b, keep, e);
      hide Spans, Shifted;
      SpansShiftRun(a, b, keep, from, e);
    } else {
      assert (a + b)[|a| + from] == b[from];
      SpansShift(a, b, keep, from + 1);
    }
  }

  lemma {:induction false} SpansJoin(a: seq<Rune>, sep: Rune, b: seq<Rune>, keep: Rune -> bool, from: nat)
    requires from <= |a| && !keep(sep)
    ensures Spans(a + [sep] + b, keep, from) == Spans(a, keep, from) + Shifted(Spans(b, keep, 0), |a| + 1)
    decreases |a| - from
  {
    var s := a + [sep] + b;
    if from == |a| {
      assert s[from] == sep;
      SpansShift(a + [sep], b, keep, 0);
    } else if keep(a[from]) {
      RunEndJoin(a, sep, b, keep, from + 1);
      SpansJoin(a, sep, b, keep, RunEnd(a, keep, from + 1));
    } else {
      SpansJoin(a, sep, b, keep, from + 1);
    }
  }

  lemma SlicesFirst(a: seq<Rune>, b: seq<Rune>, r: seq<(nat, nat)>)
    requires Bounds(r, |a|)
    ensures Bounds(r, |a + b|) && Slices(a + b, r) == Slices(a, r)
  {
    forall i | 0 <= i < |r| ensures Slices(a + b, r)[i] == Slices(a, r)[i] {
      assert (a + b)[r[i].0..r[i].1] == a[r[i].0..r[i].1];
    }
  }

  lemma SlicesSecond(a: seq<Rune>, b: seq<Rune>, r: seq<(nat, nat)>)
    requires Bounds(r, |b|)
    ensures Bounds(Shifted(r, |a|), |a + b|) && Slices(a + b, Shifted(r, |a|)) == Slices(b, r)
  {
    forall i | 0 <= i < |r| ensures Slices(a + b, Shifted(r, |a|))[i] == Slices(b, r)[i] {
      assert (a + b)[|a| + r[i].0..|a| + r[i].1] == b[r[i].0..r[i].1];
    }
  }

  lemma SlicesAppend(s: seq<Rune>, q: seq<(nat, nat)>, r: seq<(nat, nat)>)
    requires Bounds(q, |s|) && Bounds(r, |s|)
    ensures Bounds(q + r, |s|) && Slices(s, q + r) == Slices(s, q) + Slices(s, r)
  {
  }

  /** Two texts joined by an element that is not kept have the fields of the one, then those of the other. */
  lemma FieldsJoin(a: seq<Rune>, sep: Rune, b: seq<Rune>, keep: Rune -> bool)
    requires !keep(sep)
    ensures Fields(a + [sep] + b, keep) == Fields(a, keep) + Fields(b, keep)
  {
    var ra, rb := Spans(a, keep, 0), Spans(b, keep, 0);
    assert Bounds(ra, |a|) && Bounds(rb, |b|);
    SpansJoin(a, sep, b, keep, 0);
    hide Spans, Bounds, Slices;
    assert a + [sep] + b == a + ([sep] + b);
    SlicesFirst(a, [sep] + b, ra);
    SlicesSecond(a + [sep], b, rb);
    SlicesAppend(a + [sep] + b, ra, Shifted(rb, |a| + 1));
  }
}
