/**
 The specification both token rings of lab 0105 implement: one turn, taken by the
 participants 0, 1, .., n - 1, 0, .. in that order, each turn counted once.
 */
module RoundRobin {

  datatype State = State(counter: nat, turn: nat)

  const Init := State(0, 0)

  /** Participant `who` takes its turn. */
  predicate Step(n: nat, s: State, who: nat, s': State)
    requires n > 0
  {
    && who == s.turn
    && s' == State(s.counter + 1, (s.turn + 1) % n)
  }

  /** `log` lists who took the turns of some behaviour that ends in `s`. */
  ghost predicate Behaviour(n: nat, log: seq<nat>, s: State)
    requires n > 0
    decreases |log|
  {
    if log == [] then s == Init
    else
      var front, who := log[..|log| - 1], log[|log| - 1];
      exists p: State :: Behaviour(n, front, p) && Step(n, p, who, s)
  }

  lemma SuccMod(k: nat, n: nat)
    requires n > 0
    ensures (k % n + 1) % n == (k + 1) % n
  {
    var q, r := k / n, k % n;
    assert k == n * q + r;
    if r + 1 < n {
      ModUnique(k + 1, n, q, r + 1);
      ModUnique(r + 1, n, 0, r + 1);
    } else {
      assert n * (q + 1) == n * q + n;
      ModUnique(k + 1, n, q + 1, 0);
      ModUnique(r + 1, n, 1, 0);
    }
  }

  lemma ModUnique(a: nat, n: nat, q: nat, r: nat)
    requires r < n && a == n * q + r
    ensures a % n == r
  {
    var q', r' := a / n, a % n;
    assert a == n * q' + r';
    if q < q' {
      MultipleGap(n, q, q');
    } else if q' < q {
      MultipleGap(n, q', q);
    }
  }

  lemma MultipleGap(n: nat, lo: nat, hi: nat)
    requires lo < hi
    ensures n * lo + n <= n * hi
  {
    var d := hi - lo - 1;
    assert n * hi == n * (lo + 1 + d) == n * lo + n + n * d;
  }

  /** The spec in closed form: the k-th turn belongs to participant k mod n, and nothing else is promised. */
  lemma {:induction false} BehaviourIff(n: nat, log: seq<nat>, s: State)
    requires n > 0
    ensures Behaviour(n, log, s) <==>
            (&& s == State(|log|, |log| % n)
             && forall k :: 0 <= k < |log| ==> log[k] == k % n)
    decreases |log|
  {
    if log == [] {
      assert 0 % n == 0;
    } else {
      var last := |log| - 1;
      var front := log[..last];
      var p := State(last, last % n);
      BehaviourIff(n, front, p);
      SuccMod(last, n);
      if Behaviour(n, log, s) {
        var p' :| Behaviour(n, front, p') && Step(n, p', log[last], s);
        BehaviourIff(n, front, p');
        assert forall k :: 0 <= k < last ==> log[k] == front[k];
      }
      if s == State(|log|, |log| % n) && forall k :: 0 <= k < |log| ==> log[k] == k % n {
        assert Behaviour(n, front, p) && Step(n, p, log[last], s);
      }
    }
  }
}
