/**
 The ring over a mutex and a condition variable (MECH=mutex). A goroutine takes the mutex,
 waits on the condition until the turn is its own, counts, hands the turn on, broadcasts and
 unlocks. `cond.Wait` is the three steps the sync package documents: join the wait set while
 still holding the mutex, release it and sleep, take it again after being woken.
 */
module CondRing {
  import opened Wrappers
  import RoundRobin
  import Sums

  /** Where a goroutine's loop stands. All but Locking, Waiting and Woken hold the mutex. */
  datatype Pc =
    | Locking    // at mu.Lock
    | Checking   // at the test turn != id
    | Enlisted   // inside cond.Wait: in the wait set, mutex not yet released
    | Waiting    // asleep in the wait set
    | Woken      // out of the wait set, taking the mutex again
    | Passed     // the test has succeeded
    | Counted    // the counter is incremented, the turn is not yet handed on
    | Advanced   // the turn is handed on, nobody is told yet
    | Notified   // everybody is told, mutex still held

  /** `log`, `failed` and `broadcasts` are history: who counted, how many turn tests failed, broadcasts made. */
  datatype State = State(turn: nat, counter: nat, holder: Option<nat>, pcs: seq<Pc>,
                         log: seq<nat>, failed: nat, broadcasts: nat)

  function Init(n: nat): State
  {
    State(0, 0, None, seq(n, _ => Locking), [], 0, 0)
  }

  function Wake(pc: Pc): Pc
  {
    if pc == Waiting then Woken else pc
  }

  function WakeAll(pcs: seq<Pc>): (r: seq<Pc>)
    ensures |r| == |pcs| && forall i :: 0 <= i < |pcs| ==> r[i] == Wake(pcs[i])
  {
    seq(|pcs|, i requires 0 <= i < |pcs| => Wake(pcs[i]))
  }

  predicate Enabled(s: State, i: nat)
  {
    i < |s.pcs| &&
    match s.pcs[i]
    case Locking | Woken => s.holder == None
    case Waiting => false
    case _ => true
  }

  /** The one step goroutine i can make. */
  function Next(n: nat, s: State, i: nat): (s': State)
    requires n > 0 && |s.pcs| == n && Enabled(s, i)
    ensures |s'.pcs| == n
  {
    match s.pcs[i]
    case Locking | Woken => s.(holder := Some(i), pcs := s.pcs[i := Checking])
    case Checking =>
      if s.turn == i then s.(pcs := s.pcs[i := Passed])
      else s.(pcs := s.pcs[i := Enlisted], failed := s.failed + 1)
    case Enlisted => s.(holder := None, pcs := s.pcs[i := Waiting])
    case Passed => s.(pcs := s.pcs[i := Counted], counter := s.counter + 1, log := s.log + [i])
    case Counted => s.(pcs := s.pcs[i := Advanced], turn := (s.turn + 1) % n)
    case Advanced => s.(pcs := WakeAll(s.pcs[i := Notified]), broadcasts := s.broadcasts + 1)
    case Notified => s.(holder := None, pcs := s.pcs[i := Locking])
    case Waiting => s
  }

  /** The state a run reaches, if each scheduled goroutine could step in its turn. */
  function Exec(n: nat, acts: seq<nat>): (r: Option<State>)
    requires n > 0
    ensures r.Some? ==> |r.value.pcs| == n
  {
    if acts == [] then Some(Init(n))
    else
      match Exec(n, acts[..|acts| - 1])
      case None => None
      case Some(s) =>
        if Enabled(s, acts[|acts| - 1]) then Some(Next(n, s, acts[|acts| - 1])) else None
  }

  // ---------- the invariant ----------

  predicate Holds(pc: Pc)
  {
    pc != Locking && pc != Waiting && pc != Woken
  }

  predicate HolderAt(s: State, pc: Pc)
  {
    s.holder.Some? && s.holder.value < |s.pcs| && s.pcs[s.holder.value] == pc
  }

  /** The mutex is held by exactly the goroutine that is inside the critical section. */
  predicate MutexInv(s: State)
  {
    && (forall i: nat :: i < |s.pcs| ==> (Holds(s.pcs[i]) <==> s.holder == Some(i)))
    && (s.holder.Some? ==> s.holder.value < |s.pcs|)
  }

  /** A goroutine asleep on its own turn is one that the holder is about to broadcast to. */
  predicate NoLostWakeup(s: State)
  {
    forall i: nat :: i < |s.pcs| && s.pcs[i] == Waiting && s.turn == i ==> HolderAt(s, Advanced)
  }

  function TurnOf(n: nat, s: State): nat
    requires n > 0
  {
    if HolderAt(s, Counted) then (s.turn + 1) % n else s.turn
  }

  predicate TurnInv(n: nat, s: State)
    requires n > 0
  {
    && TurnOf(n, s) == s.counter % n
    && |s.log| == s.counter
    && forall k :: 0 <= k < |s.log| ==> s.log[k] == k % n
  }

  /** What the turn test has established for whoever is past it. */
  predicate TestInv(n: nat, s: State)
  {
    && s.turn < n
    && forall i: nat :: i < |s.pcs| ==>
         && (s.pcs[i] == Passed || s.pcs[i] == Counted ==> s.turn == i)
         && (s.pcs[i] == Enlisted ==> s.turn != i)
  }

  /** 1 for a goroutine in the condition's wait set. */
  function Asleep(pc: Pc): int
  {
    if pc == Waiting || pc == Enlisted then 1 else 0
  }

  /** Every failed test is paid for: by a goroutine still in the wait set, or by a broadcast that woke it. */
  predicate FailInv(n: nat, s: State)
    requires n > 0
  {
    && s.broadcasts + (if HolderAt(s, Counted) || HolderAt(s, Advanced) then 1 else 0) == s.counter
    && s.failed <= Sums.Times(n - 1, s.broadcasts) + Sums.Sum(s.pcs, Asleep)
  }

  predicate Inv(n: nat, s: State)
  {
    Core(n, s) && TurnInv(n, s) && FailInv(n, s)
  }

  predicate Core(n: nat, s: State)
  {
    n > 0 && |s.pcs| == n && MutexInv(s) && NoLostWakeup(s) && TestInv(n, s)
  }

  lemma NextCore(n: nat, s: State, i: nat)
    requires Core(n, s) && Enabled(s, i)
    ensures Core(n, Next(n, s, i))
  {
    assert MutexInv(Next(n, s, i));
  }

  lemma NextTurn(n: nat, s: State, i: nat)
    requires Core(n, s) && TurnInv(n, s) && Enabled(s, i)
    ensures TurnInv(n, Next(n, s, i))
  {
    RoundRobin.SuccMod(s.counter, n);
  }

  /** Fewer than n goroutines are ever in the wait set. */
  lemma SomeoneAwake(n: nat, s: State)
    requires Core(n, s)
    ensures 0 <= Sums.Sum(s.pcs, Asleep) <= n - 1
  {
    if HolderAt(s, Advanced) {
      Sums.SumMisses(s.pcs, Asleep, s.holder.value);
    } else {
      Sums.SumMisses(s.pcs, Asleep, s.turn);
    }
  }

  lemma NextFail(n: nat, s: State, i: nat)
    requires Core(n, s) && FailInv(n, s) && Enabled(s, i)
    ensures FailInv(n, Next(n, s, i))
  {
    if s.pcs[i] == Advanced {
      BroadcastFail(n, s, i);
    } else {
      var s' := Next(n, s, i);
      Sums.SumUpdate(s.pcs, i, s'.pcs[i], Asleep);
      OtherFail(n, s, i);
    }
  }

  lemma BroadcastFail(n: nat, s: State, i: nat)
    requires Core(n, s) && FailInv(n, s) && i < n && s.pcs[i] == Advanced
    ensures FailInv(n, Next(n, s, i))
  {
    SomeoneAwake(n, s);
    BroadcastStep(n, s, i);
    Sums.SumNonNegative(Next(n, s, i).pcs, Asleep);
    assert HolderAt(s, Advanced) && HolderAt(Next(n, s, i), Notified);
    hide Sums.Sum, Next, Core, Asleep;
    assert Sums.Times(n - 1, s.broadcasts + 1) == Sums.Times(n - 1, s.broadcasts) + (n - 1);
  }

  lemma BroadcastStep(n: nat, s: State, i: nat)
    requires Core(n, s) && i < n && s.pcs[i] == Advanced
    ensures var s' := Next(n, s, i);
            && s.holder == s'.holder == Some(i) && s'.pcs[i] == Notified
            && s'.broadcasts == s.broadcasts + 1 && s'.counter == s.counter && s'.failed == s.failed
  {
  }

  lemma OtherFail(n: nat, s: State, i: nat)
    requires Core(n, s) && FailInv(n, s) && Enabled(s, i) && s.pcs[i] != Advanced
    requires Sums.Sum(Next(n, s, i).pcs, Asleep)
             == Sums.Sum(s.pcs, Asleep) - Asleep(s.pcs[i]) + Asleep(Next(n, s, i).pcs[i])
    ensures FailInv(n, Next(n, s, i))
  {
    assert Holds(s.pcs[i]) <==> s.holder == Some(i);
  }

  lemma InitInv(n: nat)
    requires n > 0
    ensures Inv(n, Init(n))
  {
    RoundRobin.ModUnique(0, n, 0, 0);
    Sums.SumNonNegative(Init(n).pcs, Asleep);
  }

  lemma {:induction false} ReachableInv(n: nat, acts: seq<nat>)
    requires n > 0 && Exec(n, acts).Some?
    ensures Inv(n, Exec(n, acts).value)
    decreases |acts|
  {
    if acts == [] {
      InitInv(n);
    } else {
      var s, i := Exec(n, acts[..|acts| - 1]).value, acts[|acts| - 1];
      ReachableInv(n, acts[..|acts| - 1]);
      NextCore(n, s, i);
      NextTurn(n, s, i);
      NextFail(n, s, i);
    }
  }

  // ---------- safety over whole runs ----------

  /** At most one goroutine is ever between Lock and Unlock, and it is the mutex's holder. */
  lemma MutualExclusion(n: nat, acts: seq<nat>, i: nat, j: nat)
    requires n > 0 && Exec(n, acts).Some? && i < n && j < n
    requires Holds(Exec(n, acts).value.pcs[i]) && Holds(Exec(n, acts).value.pcs[j])
    ensures i == j && Exec(n, acts).value.holder == Some(i)
  {
    ReachableInv(n, acts);
  }

  /** Inside, a goroutine can always step; at the mutex it can when nobody is inside; asleep it cannot. */
  lemma WaitsOnlyForTheMutex(n: nat, acts: seq<nat>, i: nat)
    requires n > 0 && Exec(n, acts).Some? && i < n
    ensures var s := Exec(n, acts).value;
            Enabled(s, i) <==> Holds(s.pcs[i])
                               || (s.pcs[i] != Waiting && forall j :: 0 <= j < n ==> !Holds(s.pcs[j]))
  {
    ReachableInv(n, acts);
    hide Exec;
    var s := Exec(n, acts).value;
    if s.holder.Some? {
      assert Holds(s.pcs[s.holder.value]);
    }
  }

  /** No wakeup is lost: asleep on one's own turn only between the turn update and the broadcast. */
  lemma NeverAsleepOnOwnTurn(n: nat, acts: seq<nat>, i: nat)
    requires n > 0 && Exec(n, acts).Some? && i < n
    requires Asleep(Exec(n, acts).value.pcs[i]) == 1
    ensures var s := Exec(n, acts).value;
            s.turn == i ==> s.pcs[i] == Waiting && HolderAt(s, Advanced)
  {
    ReachableInv(n, acts);
  }

  lemma FailedTestsWithin(n: nat, s: State)
    requires Core(n, s) && FailInv(n, s)
    ensures s.failed <= Sums.Times(n - 1, s.counter + 1)
  {
    SomeoneAwake(n, s);
  }

  /** At most n - 1 failed turn tests per hand-off, over every run. */
  lemma FailedTestsBound(n: nat, acts: seq<nat>)
    requires n > 0 && Exec(n, acts).Some?
    ensures var s := Exec(n, acts).value; s.failed <= (n - 1) * (s.counter + 1)
  {
    ReachableInv(n, acts);
    FailedTestsWithin(n, Exec(n, acts).value);
    Sums.TimesIsProduct(n - 1, Exec(n, acts).value.counter + 1);
  }

  // ---------- the bound is reached ----------

  lemma Extend(n: nat, acts: seq<nat>, i: nat)
    requires n > 0 && Exec(n, acts).Some? && Enabled(Exec(n, acts).value, i)
    ensures Exec(n, acts + [i]) == Some(Next(n, Exec(n, acts).value, i))
  {
    assert (acts + [i])[..|acts|] == acts;
  }

  predicate Free(pc: Pc)
  {
    pc == Locking || pc == Woken
  }

  /** Lock, test in vain, go to sleep. */
  lemma SleepSteps(n: nat, acts: seq<nat>, i: nat) returns (after: seq<nat>)
    requires n > 0 && Exec(n, acts).Some? && i < n
    requires var s := Exec(n, acts).value; s.holder == None && Free(s.pcs[i]) && s.turn != i
    ensures var s := Exec(n, acts).value;
            Exec(n, after) == Some(s.(pcs := s.pcs[i := Waiting], failed := s.failed + 1))
  {
    hide Exec;
    var s := Exec(n, acts).value;
    Extend(n, acts, i);
    Extend(n, acts + [i], i);
    Extend(n, acts + [i] + [i], i);
    after := acts + [i] + [i] + [i];
    assert s.pcs[i := Checking][i := Enlisted][i := Waiting] == s.pcs[i := Waiting];
  }

  /** Lock, test, count, hand on, broadcast, unlock. */
  lemma HandOffSteps(n: nat, acts: seq<nat>, i: nat) returns (after: seq<nat>)
    requires n > 0 && Exec(n, acts).Some? && i < n
    requires var s := Exec(n, acts).value; s.holder == None && Free(s.pcs[i]) && s.turn == i
    ensures Exec(n, after).Some?
    ensures var s, s' := Exec(n, acts).value, Exec(n, after).value;
            && s'.holder == None && s'.turn == (i + 1) % n
            && s'.counter == s.counter + 1 && s'.failed == s.failed
            && forall k :: 0 <= k < n ==> s'.pcs[k] == if k == i then Locking else Wake(s.pcs[k])
  {
    hide Exec;
    Extend(n, acts, i);
    Extend(n, acts + [i], i);
    Extend(n, acts + [i] + [i], i);
    Extend(n, acts + [i] + [i] + [i], i);
    Extend(n, acts + [i] + [i] + [i] + [i], i);
    Extend(n, acts + [i] + [i] + [i] + [i] + [i], i);
    after := acts + [i] + [i] + [i] + [i] + [i] + [i];
  }

  /** After m hand-offs, with everybody up to j asleep again but the owner of the turn: the most tests that can fail. */
  ghost predicate Resting(n: nat, s: State, m: nat, j: nat)
    requires n > 0 && |s.pcs| == n
  {
    && s.holder == None && s.turn < n && s.counter == m
    && s.failed == Sums.Times(n - 1, m) + (if s.turn < j then j - 1 else j)
    && forall i :: 0 <= i < n ==> if i < j && i != s.turn then s.pcs[i] == Waiting else Free(s.pcs[i])
  }

  lemma {:induction false} LazyRun(n: nat, m: nat, j: nat) returns (acts: seq<nat>)
    requires n > 0 && j <= n
    ensures Exec(n, acts).Some? && Resting(n, Exec(n, acts).value, m, j)
    decreases m, j
  {
    if m == 0 && j == 0 {
      acts := [];
    } else if j == 0 {
      var before := LazyRun(n, m - 1, n);
      var s := Exec(n, before).value;
      acts := HandOffSteps(n, before, s.turn);
      TurnInRange(s.turn, n);
    } else {
      acts := LazyRun(n, m, j - 1);
      if Exec(n, acts).value.turn != j - 1 {
        acts := SleepSteps(n, acts, j - 1);
      }
    }
  }

  lemma TurnInRange(turn: nat, n: nat)
    requires n > 0
    ensures 0 <= (turn + 1) % n < n
  {
  }

  /** For any number of participants and of hand-offs some run has exactly as many failed tests as is allowed. */
  lemma FailedTestsReached(n: nat, m: nat)
    requires n > 0
    ensures exists acts ::
              && Exec(n, acts).Some?
              && Exec(n, acts).value.counter == m && Exec(n, acts).value.failed == (n - 1) * (m + 1)
  {
    var acts := LazyRun(n, m, n);
    Sums.TimesIsProduct(n - 1, m + 1);
    assert Sums.Times(n - 1, m + 1) == Sums.Times(n - 1, m) + (n - 1);
  }

  // ---------- refinement ----------

  function Abs(n: nat, s: State): RoundRobin.State
    requires n > 0
  {
    RoundRobin.State(s.counter, TurnOf(n, s))
  }

  /** Every step is a turn of the spec by the goroutine that counts, or invisible to it. */
  lemma StepRefines(n: nat, s: State, i: nat)
    requires Inv(n, s) && Enabled(s, i)
    ensures var s' := Next(n, s, i);
            if s.pcs[i] == Passed then
              RoundRobin.Step(n, Abs(n, s), i, Abs(n, s')) && s'.log == s.log + [i]
            else Abs(n, s') == Abs(n, s) && s'.log == s.log
  {
  }

  /** Every run's increments are a behaviour of the round-robin spec: the k-th is by participant k mod n. */
  lemma Refines(n: nat, acts: seq<nat>)
    requires n > 0 && Exec(n, acts).Some?
    ensures var s := Exec(n, acts).value;
            && RoundRobin.Behaviour(n, s.log, Abs(n, s))
            && s.counter == |s.log|
            && forall k :: 0 <= k < |s.log| ==> s.log[k] == k % n
  {
    ReachableInv(n, acts);
    RoundRobin.BehaviourIff(n, Exec(n, acts).value.log, Abs(n, Exec(n, acts).value));
  }

  // ---------- progress ----------

  /** Never deadlocked, for any n: the holder can step, or the mutex is free and the turn's owner can take it. */
  lemma NeverStuck(n: nat, acts: seq<nat>)
    requires n > 0 && Exec(n, acts).Some?
    ensures var s := Exec(n, acts).value;
            if s.holder.Some? then Enabled(s, s.holder.value) else Enabled(s, s.turn)
  {
    ReachableInv(n, acts);
  }

  /** How far a goroutine may still go before it must count, sleep or hand on: the ranking below sums this. */
  function Rank(n: nat): Pc -> int
  {
    (pc: Pc) =>
      match pc
      case Waiting => 0
      case Enlisted => 1
      case Passed => 1
      case Checking => 2
      case Locking => 3
      case Woken => 3
      case Notified => 4
      case Advanced => 3 * n + 5
      case Counted => 3 * n + 6
  }

  function Measure(n: nat, s: State): int
  {
    Sums.Sum(s.pcs, Rank(n))
  }

  /** Waking everybody costs at most three per goroutine. */
  lemma {:induction false} WakeAllCost(n: nat, pcs: seq<Pc>)
    ensures Sums.Sum(WakeAll(pcs), Rank(n)) <= Sums.Sum(pcs, Rank(n)) + 3 * |pcs|
    decreases |pcs|
  {
    if pcs == [] {
    } else {
      var last := |pcs| - 1;
      WakeAllCost(n, pcs[..last]);
      assert WakeAll(pcs)[..last] == WakeAll(pcs[..last]);
    }
  }

  lemma BroadcastMeasure(n: nat, s: State, i: nat)
    requires Core(n, s) && Enabled(s, i) && s.pcs[i] == Advanced
    ensures Measure(n, Next(n, s, i)) < Measure(n, s)
  {
    Sums.SumUpdate(s.pcs, i, Notified, Rank(n));
    WakeAllCost(n, s.pcs[i := Notified]);
  }

  /** Between two increments every step uses up some of the measure; an increment puts back at most 3n + 5. */
  lemma StepMeasure(n: nat, s: State, i: nat)
    requires Core(n, s) && Enabled(s, i)
    ensures if s.pcs[i] == Passed then Measure(n, Next(n, s, i)) <= Measure(n, s) + 3 * n + 5
            else Measure(n, Next(n, s, i)) < Measure(n, s)
  {
    if s.pcs[i] == Advanced {
      BroadcastMeasure(n, s, i);
    } else {
      Sums.SumUpdate(s.pcs, i, Next(n, s, i).pcs[i], Rank(n));
      hide Sums.Sum, MutexInv, TestInv, NoLostWakeup;
    }
  }

  /** k steps are paid for by the increments made so far. */
  predicate PaidFor(n: nat, k: nat, s: State)
  {
    k + Measure(n, s) <= 3 * n + Sums.Times(3 * n + 6, s.counter)
  }

  lemma StepPaidFor(n: nat, k: nat, s: State, i: nat)
    requires Core(n, s) && Enabled(s, i) && PaidFor(n, k, s)
    ensures PaidFor(n, k + 1, Next(n, s, i))
  {
    StepMeasure(n, s, i);
  }

  lemma {:induction false} BoundedWork(n: nat, acts: seq<nat>)
    requires n > 0 && Exec(n, acts).Some?
    ensures PaidFor(n, |acts|, Exec(n, acts).value)
    decreases |acts|
  {
    if acts == [] {
      Sums.SumWithin(Init(n).pcs, Rank(n), 3, 3);
    } else {
      var front, i := acts[..|acts| - 1], acts[|acts| - 1];
      BoundedWork(n, front);
      ReachableInv(n, front);
      StepPaidFor(n, |front|, Exec(n, front).value, i);
    }
  }

  /**
   Every scheduler makes progress: a run of m steps has made at least (m - 3n) / (3n + 6) increments,
   and by NeverStuck it can always be continued.
   */
  lemma EveryScheduleProgresses(n: nat, acts: seq<nat>)
    requires n > 0 && Exec(n, acts).Some?
    ensures |acts| <= 3 * n + (3 * n + 6) * Exec(n, acts).value.counter
  {
    BoundedWork(n, acts);
    Sums.SumNonNegative(Exec(n, acts).value.pcs, Rank(n));
    Sums.TimesIsProduct(3 * n + 6, Exec(n, acts).value.counter);
  }

  predicate WithinBudget(n: nat, steps: nat, turns: nat)
  {
    steps <= 3 * n + (3 * n + 6) * turns
  }

  /** What every run comes to. */
  lemma InTurn(n: nat, acts: seq<nat>)
    requires n > 0 && Exec(n, acts).Some?
    ensures var s := Exec(n, acts).value;
            && Inv(n, s) && s.counter == |s.log| && (forall k :: 0 <= k < |s.log| ==> s.log[k] == k % n)
            && WithinBudget(n, |acts|, |s.log|)
  {
    hide Exec, Inv;
    ReachableInv(n, acts);
    Refines(n, acts);
    EveryScheduleProgresses(n, acts);
  }

  // ---------- schedules ----------

  /** The actions of a schedule that are possible in their turn; the others do nothing. */
  function Possible(n: nat, schedule: seq<nat>): (taken: seq<nat>)
    requires n > 0
    ensures Exec(n, taken).Some?
  {
    if schedule == [] then []
    else
      var before, a := Possible(n, schedule[..|schedule| - 1]), schedule[|schedule| - 1];
      if Enabled(Exec(n, before).value, a) then
        assert (before + [a])[..|before|] == before;
        before + [a]
      else before
  }

  /** Whatever is possible in the state reached so far is taken. */
  lemma PossibleStep(n: nat, schedule: seq<nat>, i: nat)
    requires n > 0
    ensures var before := Possible(n, schedule);
            Possible(n, schedule + [i]) == before + (if Enabled(Exec(n, before).value, i) then [i] else [])
  {
    hide Enabled, Next;
    assert (schedule + [i])[..|schedule|] == schedule;
    assert Possible(n, schedule) + [] == Possible(n, schedule);
  }

  /** So a schedule that is a run is taken as it is. */
  lemma {:induction false} RunsArePossible(n: nat, schedule: seq<nat>)
    requires n > 0 && Exec(n, schedule).Some?
    ensures Possible(n, schedule) == schedule
    decreases |schedule|
  {
    if schedule == [] {
    } else {
      var front, a := schedule[..|schedule| - 1], schedule[|schedule| - 1];
      assert Exec(n, front).Some? && Enabled(Exec(n, front).value, a);
      assert schedule == front + [a];
      hide *;
      RunsArePossible(n, front);
      PossibleStep(n, front, a);
    }
  }

  lemma PossibleAt(n: nat, schedule: seq<nat>, j: nat)
    requires n > 0 && j < |schedule|
    ensures var before := Possible(n, schedule[..j]);
            Possible(n, schedule[..j + 1])
            == before + (if Enabled(Exec(n, before).value, schedule[j]) then [schedule[j]] else [])
  {
    hide *;
    assert schedule[..j + 1] == schedule[..j] + [schedule[j]];
    PossibleStep(n, schedule[..j], schedule[j]);
  }

  lemma PossibleInAll(n: nat, schedule: seq<nat>)
    requires n > 0
    ensures Possible(n, schedule[..0]) == []
    ensures Possible(n, schedule[..|schedule|]) == Possible(n, schedule)
    ensures Exec(n, schedule).Some? ==> Possible(n, schedule) == schedule
  {
    assert schedule[..|schedule|] == schedule && schedule[..0] == [];
    if Exec(n, schedule).Some? { RunsArePossible(n, schedule); }
    hide Exec;
  }

  // ---------- the goroutines over their shared memory ----------

  class Ring {
    const n: nat
    const pcs: array<Pc>
    var turn: nat
    var counter: nat
    var holder: Option<nat>
    ghost var log: seq<nat>
    ghost var failed: nat
    ghost var broadcasts: nat

    ghost predicate Valid()
      reads this, pcs
    {
      pcs.Length == n && Inv(n, Snapshot())
    }

    ghost function Snapshot(): State
      reads this, pcs
    {
      State(turn, counter, holder, pcs[..], log, failed, broadcasts)
    }

    constructor (participants: nat)
      requires participants > 0
      ensures Valid() && fresh(pcs) && n == participants
      ensures Snapshot() == Init(participants)
    {
      n := participants;
      pcs := new Pc[participants](_ => Locking);
      turn, counter, holder, log, failed, broadcasts := 0, 0, None, [], 0, 0;
      new;
      assert pcs[..] == Init(participants).pcs;
      InitInv(participants);
    }

    predicate CanStep(i: nat)
      requires i < pcs.Length
      reads this, pcs
      ensures CanStep(i) == Enabled(Snapshot(), i)
    {
      match pcs[i]
      case Locking | Woken => holder == None
      case Waiting => false
      case _ => true
    }

    /** cond.Broadcast: everybody leaves the wait set. */
    method Broadcast(i: nat)
      requires i < pcs.Length
      modifies pcs
      ensures pcs[..] == WakeAll(old(pcs[..]))
    {
      for j := 0 to pcs.Length
        invariant forall k :: 0 <= k < j ==> pcs[k] == Wake(old(pcs[k]))
        invariant forall k :: j <= k < pcs.Length ==> pcs[k] == old(pcs[k])
      {
        if pcs[j] == Waiting { pcs[j] := Woken; }
      }
    }

    /** The next step of goroutine i. */
    method Step(i: nat) returns (counted: bool)
      requires n > 0 && pcs.Length == n && i < n && CanStep(i)
      modifies this, pcs
      ensures Snapshot() == Next(n, old(Snapshot()), i)
      ensures counted <==> old(pcs[i]) == Passed
    {
      counted := false;
      match pcs[i]
      case Locking =>
        holder := Some(i);
        pcs[i] := Checking;
      case Woken =>
        holder := Some(i);
        pcs[i] := Checking;
      case Checking =>
        if turn == i {
          pcs[i] := Passed;
        } else {
          pcs[i] := Enlisted;
          failed := failed + 1;
        }
      case Enlisted =>
        holder := None;
        pcs[i] := Waiting;
      case Passed =>
        counter := counter + 1;
        log := log + [i];
        counted := true;
        pcs[i] := Counted;
      case Counted =>
        turn := (turn + 1) % n;
        pcs[i] := Advanced;
      case Advanced =>
        pcs[i] := Notified;
        Broadcast(i);
        broadcasts := broadcasts + 1;
      case Notified =>
        holder := None;
        pcs[i] := Locking;
      case Waiting =>
    }

    /**
     Run under any schedule; a goroutine scheduled while blocked does nothing. `order` lists
     who made the increments and `taken` the steps that were possible when scheduled.
     */
    method Run(schedule: seq<nat>) returns (order: seq<nat>, ghost taken: seq<nat>)
      requires Valid() && Snapshot() == Init(n)
      modifies this, pcs
      ensures Valid() && counter == |order|
      ensures forall k :: 0 <= k < |order| ==> order[k] == k % n
      ensures Exec(n, taken) == Some(Snapshot()) && WithinBudget(n, |taken|, |order|)
      ensures taken == Possible(n, schedule) && (Exec(n, schedule).Some? ==> taken == schedule)
    {
      assert n > 0;
      hide Exec, Possible, Inv;
      order, taken := Follow(schedule);
      PossibleInAll(n, schedule);
      assert log == Snapshot().log && counter == Snapshot().counter;
      hide *;
      InTurn(n, taken);
      assert order == log && Snapshot() == Exec(n, taken).value;
    }

    /** The schedule, goroutine by goroutine. */
    method Follow(schedule: seq<nat>) returns (order: seq<nat>, ghost taken: seq<nat>)
      requires Valid() && Snapshot() == Init(n)
      modifies this, pcs
      ensures order == log && Exec(n, taken) == Some(Snapshot()) && taken == Possible(n, schedule)
    {
      order, taken := [], [];
      assert Exec(n, []) == Some(Snapshot());
      PossibleInAll(n, schedule);
      hide Exec, Next, Possible, Enabled, Inv;
      for j := 0 to |schedule|
        invariant order == log
        invariant Exec(n, taken) == Some(Snapshot()) && taken == Possible(n, schedule[..j])
      {
        PossibleAt(n, schedule, j);
        var counted := TakeTurn(schedule[j], taken);
        taken := Possible(n, schedule[..j + 1]);
        if counted { order := order + [schedule[j]]; }
      }
    }

    /** A scheduled goroutine's step, if it has one; `taken` is the run so far. */
    method TakeTurn(i: nat, ghost taken: seq<nat>) returns (counted: bool)
      requires n > 0 && pcs.Length == n && Exec(n, taken) == Some(Snapshot())
      modifies this, pcs
      ensures Exec(n, taken + (if Enabled(old(Snapshot()), i) then [i] else [])) == Some(Snapshot())
      ensures log == old(log) + (if counted then [i] else [])
    {
      counted := false;
      assert taken + [] == taken;
      if i < n && CanStep(i) {
        Extend(n, taken, i);
        hide Exec, Enabled;
        counted := Step(i);
      }
    }
  }
}
