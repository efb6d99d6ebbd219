/**
 The ring of unbuffered channels (MECH=channel). Goroutine i receives on channel i, counts,
 and sends on channel (i + 1) mod n; one extra goroutine sends the first token on channel 0.
 An unbuffered send and its receive are one rendezvous, so they are one step here.
 */
module ChannelRing {
  import opened Wrappers
  import RoundRobin

  /** Where a goroutine's loop stands: about to receive, about to count, about to send. */
  datatype Pc = Receiving | Counting | Sending

  /** `log` is history: who made each increment. No step reads it. */
  datatype State = State(starter: bool, pcs: seq<Pc>, counter: nat, log: seq<nat>)

  datatype Action = Start | Count(i: nat) | Pass(i: nat)

  function Init(n: nat): State
  {
    State(true, seq(n, _ => Receiving), 0, [])
  }

  predicate Enabled(n: nat, s: State, a: Action)
    requires n > 0 && |s.pcs| == n
  {
    match a
    case Start => s.starter && s.pcs[0] == Receiving
    case Count(i) => i < n && s.pcs[i] == Counting
    case Pass(i) => i < n && s.pcs[i] == Sending && s.pcs[(i + 1) % n] == Receiving
  }

  function Next(n: nat, s: State, a: Action): (s': State)
    requires n > 0 && |s.pcs| == n && Enabled(n, s, a)
    ensures |s'.pcs| == n
  {
    match a
    case Start => s.(starter := false, pcs := s.pcs[0 := Counting])
    case Count(i) => s.(pcs := s.pcs[i := Sending], counter := s.counter + 1, log := s.log + [i])
    case Pass(i) => s.(pcs := s.pcs[i := Receiving][(i + 1) % n := Counting])
  }

  /** The state a run reaches, if every action of the run was enabled in its turn. */
  function Exec(n: nat, acts: seq<Action>): (r: Option<State>)
    requires n > 0
    ensures r.Some? ==> |r.value.pcs| == n
  {
    if acts == [] then Some(Init(n))
    else
      match Exec(n, acts[..|acts| - 1])
      case None => None
      case Some(s) =>
        if Enabled(n, s, acts[|acts| - 1]) then Some(Next(n, s, acts[|acts| - 1])) else None
  }

  // ---------- the invariant ----------

  /** Goroutine i has the token: it has received it and not yet passed it on. */
  predicate HasToken(s: State, i: nat)
  {
    i < |s.pcs| && s.pcs[i] != Receiving
  }

  /** The token is with goroutine h, at that point of its loop, and everybody else waits to receive. */
  ghost predicate TokenAt(n: nat, s: State, h: nat, pc: Pc)
  {
    && |s.pcs| == n && h < n && s.pcs[h] == pc
    && forall i :: 0 <= i < n && i != h ==> s.pcs[i] == Receiving
  }

  ghost predicate Inv(n: nat, s: State)
  {
    && n > 0 && |s.pcs| == n
    && |s.log| == s.counter
    && (forall k :: 0 <= k < |s.log| ==> s.log[k] == k % n)
    && (s.starter ==> s.counter == 0 && forall i :: 0 <= i < n ==> s.pcs[i] == Receiving)
    && (!s.starter ==>
          || TokenAt(n, s, s.counter % n, Counting)
          || (s.counter > 0 && TokenAt(n, s, (s.counter - 1) % n, Sending)))
    && (n == 1 && s.counter > 0 ==> s.counter == 1 && s.pcs[0] == Sending)
  }

  lemma NextInv(n: nat, s: State, a: Action)
    requires Inv(n, s) && Enabled(n, s, a)
    ensures Inv(n, Next(n, s, a))
  {
    match a
    case Start =>
      RoundRobin.ModUnique(0, n, 0, 0);
      assert TokenAt(n, Next(n, s, a), 0, Counting);
    case Count(i) =>
      assert i == s.counter % n;
      assert TokenAt(n, Next(n, s, a), i, Sending);
    case Pass(i) => PassInv(n, s, i);
  }

  lemma PassInv(n: nat, s: State, i: nat)
    requires Inv(n, s) && Enabled(n, s, Pass(i))
    ensures Inv(n, Next(n, s, Pass(i)))
  {
    assert i == (s.counter - 1) % n;
    RoundRobin.SuccMod(s.counter - 1, n);
    assert (i + 1) % n == s.counter % n;
    assert TokenAt(n, Next(n, s, Pass(i)), s.counter % n, Counting);
  }

  lemma {:induction false} ReachableInv(n: nat, acts: seq<Action>)
    requires n > 0 && Exec(n, acts).Some?
    ensures Inv(n, Exec(n, acts).value)
    decreases |acts|
  {
    if acts == [] {
    } else {
      ReachableInv(n, acts[..|acts| - 1]);
      NextInv(n, Exec(n, acts[..|acts| - 1]).value, acts[|acts| - 1]);
    }
  }

  /** Exactly one token, in every reachable state: still with the starter, or with exactly one goroutine. */
  lemma OneToken(n: nat, acts: seq<Action>)
    requires n > 0 && Exec(n, acts).Some?
    ensures var s := Exec(n, acts).value;
            if s.starter then forall i: nat :: !HasToken(s, i)
            else exists h: nat :: HasToken(s, h) && forall i: nat :: HasToken(s, i) ==> i == h
  {
    ReachableInv(n, acts);
    var s := Exec(n, acts).value;
    if !s.starter {
      if TokenAt(n, s, s.counter % n, Counting) {
        assert HasToken(s, s.counter % n);
      } else {
        assert HasToken(s, (s.counter - 1) % n);
      }
    }
  }

  // ---------- refinement ----------

  /** The abstract state: the turn belongs to whoever will count next. */
  function Abs(n: nat, s: State): RoundRobin.State
    requires n > 0
  {
    RoundRobin.State(s.counter, s.counter % n)
  }

  /** Every step of the ring is a turn of the spec by the goroutine that counts, or invisible to it. */
  lemma StepRefines(n: nat, s: State, a: Action)
    requires Inv(n, s) && Enabled(n, s, a)
    ensures var s' := Next(n, s, a);
            if a.Count? then
              RoundRobin.Step(n, Abs(n, s), a.i, Abs(n, s')) && s'.log == s.log + [a.i]
            else Abs(n, s') == Abs(n, s) && s'.log == s.log
  {
    RoundRobin.SuccMod(s.counter, n);
  }

  /** Every run's increments are a behaviour of the round-robin spec: the k-th is by participant k mod n. */
  lemma Refines(n: nat, acts: seq<Action>)
    requires n > 0 && Exec(n, acts).Some?
    ensures var s := Exec(n, acts).value;
            && RoundRobin.Behaviour(n, s.log, Abs(n, s))
            && s.counter == |s.log|
            && forall k :: 0 <= k < |s.log| ==> s.log[k] == k % n
  {
    ReachableInv(n, acts);
    var s := Exec(n, acts).value;
    RoundRobin.BehaviourIff(n, s.log, Abs(n, s));
  }

  // ---------- progress ----------

  /** The one action a state allows, if it allows any. */
  function TheAction(n: nat, s: State): Action
    requires n > 0 && |s.pcs| == n
  {
    if s.starter then Start
    else if s.pcs[s.counter % n] == Counting then Count(s.counter % n)
    else if s.counter > 0 then Pass((s.counter - 1) % n)
    else Start
  }

  /** Neighbouring turns belong to different participants, once there are two. */
  lemma ModMoves(k: nat, n: nat)
    requires n >= 2 && k > 0
    ensures k % n != (k - 1) % n
  {
    var q, r := (k - 1) / n, (k - 1) % n;
    assert k - 1 == n * q + r;
    if r + 1 < n {
      RoundRobin.ModUnique(k, n, q, r + 1);
    } else {
      assert n * (q + 1) == n * q + n;
      RoundRobin.ModUnique(k, n, q + 1, 0);
    }
  }

  /**
   The channel ring leaves the scheduler no choice, and with two or more participants it is never stuck.
   With one it is stuck exactly once it has counted: the goroutine would have to receive its own send.
   */
  lemma OnlyTheAction(n: nat, s: State)
    requires Inv(n, s)
    ensures forall a :: Enabled(n, s, a) ==> a == TheAction(n, s)
    ensures Enabled(n, s, TheAction(n, s)) <==> n >= 2 || s.counter == 0
  {
    RoundRobin.ModUnique(0, n, 0, 0);
    if s.counter > 0 {
      RoundRobin.SuccMod(s.counter - 1, n);
      if n >= 2 { ModMoves(s.counter, n); }
    }
  }

  /**
   The channel ring can be run for ever, whatever has happened so far, exactly when it has at
   least two participants.
   */
  lemma NeverStuckIff(n: nat)
    requires n > 0
    ensures (forall acts: seq<Action> :: Exec(n, acts).Some? ==>
               exists a :: Enabled(n, Exec(n, acts).value, a)) <==> n >= 2
  {
    if n >= 2 {
      forall acts: seq<Action> | Exec(n, acts).Some?
        ensures exists a :: Enabled(n, Exec(n, acts).value, a)
      {
        ReachableInv(n, acts);
        OnlyTheAction(n, Exec(n, acts).value);
      }
    } else {
      var acts := [Start, Count(0)];
      assert acts[..1] == [Start] && [Start][..0] == [];
      assert Exec(1, []) == Some(Init(1));
      assert Exec(1, [Start]).Some?;
      assert Exec(1, acts).Some?;
      ReachableInv(1, acts);
      OnlyTheAction(1, Exec(1, acts).value);
    }
  }

  /** Every other step is an increment, so the ring wastes nothing: a run of m steps has made m / 2 of them. */
  lemma {:induction false} IncrementsPerStep(n: nat, acts: seq<Action>)
    requires n > 0 && Exec(n, acts).Some?
    ensures var s := Exec(n, acts).value;
            && s.counter == |acts| / 2
            && (s.starter <==> |acts| == 0)
            && (|acts| % 2 == 1 <==> TokenAt(n, s, s.counter % n, Counting))
    decreases |acts|
  {
    ReachableInv(n, acts);
    RoundRobin.ModUnique(0, n, 0, 0);
    if acts == [] {
    } else {
      var front := acts[..|acts| - 1];
      IncrementsPerStep(n, front);
      ReachableInv(n, front);
      var s := Exec(n, front).value;
      OnlyTheAction(n, s);
      if s.counter > 0 { RoundRobin.SuccMod(s.counter - 1, n); }
    }
  }

  /** With a single participant every run is a prefix of "start, count": stuck after exactly one increment. */
  lemma {:induction false} AloneStopsAtOne(acts: seq<Action>)
    requires Exec(1, acts).Some?
    ensures acts == [] || acts == [Start] || acts == [Start, Count(0)]
    ensures Exec(1, acts).value.counter == (if |acts| == 2 then 1 else 0)
    ensures (forall a :: !Enabled(1, Exec(1, acts).value, a)) <==> |acts| == 2
    decreases |acts|
  {
    ReachableInv(1, acts);
    OnlyTheAction(1, Exec(1, acts).value);
    if acts == [] {
    } else {
      var front, a := acts[..|acts| - 1], acts[|acts| - 1];
      AloneStopsAtOne(front);
      assert acts == front + [a];
      ReachableInv(1, front);
      OnlyTheAction(1, Exec(1, front).value);
    }
  }

  // ---------- schedules ----------

  /** The actions of a schedule that are possible in their turn; the others do nothing. */
  function Possible(n: nat, schedule: seq<Action>): (taken: seq<Action>)
    requires n > 0
    ensures Exec(n, taken).Some?
  {
    if schedule == [] then []
    else
      var before, a := Possible(n, schedule[..|schedule| - 1]), schedule[|schedule| - 1];
      if Enabled(n, Exec(n, before).value, a) then
        assert (before + [a])[..|before|] == before;
        before + [a]
      else before
  }

  /** Whatever is possible in the state reached so far is taken. */
  lemma PossibleStep(n: nat, schedule: seq<Action>, a: Action)
    requires n > 0
    ensures var before := Possible(n, schedule);
            Possible(n, schedule + [a]) == before + (if Enabled(n, Exec(n, before).value, a) then [a] else [])
  {
    hide Enabled, Next;
    assert (schedule + [a])[..|schedule|] == schedule;
    assert Possible(n, schedule) + [] == Possible(n, schedule);
  }

  /** So a schedule that is a run is taken as it is. */
  lemma {:induction false} RunsArePossible(n: nat, schedule: seq<Action>)
    requires n > 0 && Exec(n, schedule).Some?
    ensures Possible(n, schedule) == schedule
    decreases |schedule|
  {
    if schedule == [] {
    } else {
      var front, a := schedule[..|schedule| - 1], schedule[|schedule| - 1];
      assert Exec(n, front).Some? && Enabled(n, Exec(n, front).value, a);
      assert schedule == front + [a];
      hide *;
      RunsArePossible(n, front);
      PossibleStep(n, front, a);
    }
  }

  lemma PossibleAt(n: nat, schedule: seq<Action>, j: nat)
    requires n > 0 && j < |schedule|
    ensures var before := Possible(n, schedule[..j]);
            Possible(n, schedule[..j + 1])
            == before + (if Enabled(n, Exec(n, before).value, schedule[j]) then [schedule[j]] else [])
  {
    hide *;
    assert schedule[..j + 1] == schedule[..j] + [schedule[j]];
    PossibleStep(n, schedule[..j], schedule[j]);
  }

  lemma PossibleInAll(n: nat, schedule: seq<Action>)
    requires n > 0
    ensures Possible(n, schedule[..0]) == []
    ensures Possible(n, schedule[..|schedule|]) == Possible(n, schedule)
    ensures Exec(n, schedule).Some? ==> Possible(n, schedule) == schedule
  {
    assert schedule[..|schedule|] == schedule && schedule[..0] == [];
    if Exec(n, schedule).Some? { RunsArePossible(n, schedule); }
    hide Exec;
  }

  // ---------- the goroutines over their shared memory ----------

  class Ring {
    const n: nat
    const pcs: array<Pc>
    var starter: bool
    var counter: nat
    ghost var log: seq<nat>

    ghost predicate Valid()
      reads this, pcs
    {
      pcs.Length == n && Inv(n, Snapshot())
    }

    ghost function Snapshot(): State
      reads this, pcs
    {
      State(starter, pcs[..], counter, log)
    }

    constructor (participants: nat)
      requires participants > 0
      ensures Valid() && fresh(pcs) && n == participants
      ensures Snapshot() == Init(participants)
    {
      n := participants;
      pcs := new Pc[participants](_ => Receiving);
      starter, counter, log := true, 0, [];
    }

    predicate CanTake(a: Action)
      requires n > 0 && pcs.Length == n
      reads this, pcs
      ensures CanTake(a) == Enabled(n, Snapshot(), a)
    {
      match a
      case Start => starter && pcs[0] == Receiving
      case Count(i) => i < n && pcs[i] == Counting
      case Pass(i) => i < n && pcs[i] == Sending && pcs[(i + 1) % n] == Receiving
    }

    /** One step: the starter's send, a goroutine's increment, or a send meeting its receive. */
    method Take(a: Action)
      requires Valid() && CanTake(a)
      modifies this, pcs
      ensures Valid() && Snapshot() == Next(n, old(Snapshot()), a)
    {
      NextInv(n, Snapshot(), a);
      match a
      case Start =>
        starter := false;
        pcs[0] := Counting;
      case Count(i) =>
        counter := counter + 1;
        log := log + [i];
        pcs[i] := Sending;
      case Pass(i) =>
        pcs[i] := Receiving;
        pcs[(i + 1) % n] := Counting;
    }

    /**
     Run under any schedule; a goroutine scheduled while blocked does nothing. `order` lists
     who made the increments and `taken` the steps that were possible when scheduled.
     */
    method Run(schedule: seq<Action>) returns (order: seq<nat>, ghost taken: seq<Action>)
      requires Valid() && Snapshot() == Init(n)
      modifies this, pcs
      ensures Valid() && counter == |order|
      ensures forall k :: 0 <= k < |order| ==> order[k] == k % n
      ensures Exec(n, taken) == Some(Snapshot()) && |order| == |taken| / 2
      ensures taken == Possible(n, schedule) && (Exec(n, schedule).Some? ==> taken == schedule)
    {
      order, taken := [], [];
      assert Exec(n, []) == Some(Snapshot());
      PossibleInAll(n, schedule);
      hide Exec, Next, Possible;
      for j := 0 to |schedule|
        invariant Valid() && order == log
        invariant Exec(n, taken) == Some(Snapshot()) && taken == Possible(n, schedule[..j])
      {
        PossibleAt(n, schedule, j);
        var counted := TakeTurn(schedule[j], taken);
        taken := Possible(n, schedule[..j + 1]);
        if counted { order := order + [schedule[j].i]; }
      }
      IncrementsPerStep(n, taken);
    }

    /** A scheduled action, if it is possible; `taken` is the run so far. */
    method TakeTurn(a: Action, ghost taken: seq<Action>) returns (counted: bool)
      requires Valid() && Exec(n, taken) == Some(Snapshot())
      modifies this, pcs
      ensures Valid()
      ensures Exec(n, taken + (if Enabled(n, old(Snapshot()), a) then [a] else [])) == Some(Snapshot())
      ensures counted <==> Enabled(n, old(Snapshot()), a) && a.Count?
      ensures log == old(log) + (if counted then [a.i] else [])
    {
      counted := false;
      assert taken + [] == taken;
      if CanTake(a) {
        assert (taken + [a])[..|taken|] == taken;
        assert Exec(n, taken + [a]) == Some(Next(n, Snapshot(), a));
        hide Exec, Enabled;
        Take(a);
        counted := a.Count?;
      }
    }
  }
}
