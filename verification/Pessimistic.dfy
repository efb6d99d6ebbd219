/**
 The pessimistic script: SELECT ... FOR UPDATE takes the row's lock, the client thinks, updates, and the
 commit makes the update visible and gives the lock back. An id outside the table locks and changes nothing.
 */
module Pessimistic {
  import opened Wrappers
  import opened SeedData
  import opened Sums

  /**
   A client in its transaction: waiting for the lock, thinking with the balance it was shown, or with an
   update that is not committed yet. None: there is no such row.
   */
  datatype Client =
    | Ready | Waiting(id: int) | Thinking(id: int, seen: Option<int>) | Written(id: int, pending: Option<int>)

  /** `rows` are the committed balances; `committed` counts commits, `updates` those with a row to update. */
  datatype State = State(rows: seq<int>, locks: seq<Option<nat>>, clients: seq<Client>, committed: nat, updates: nat)

  datatype Action = Begin(c: nat, id: int) | Lock(c: nat) | Update(c: nat) | Commit(c: nat)

  function Init(clients: nat): State
  {
    State(seq(ROWS, _ => BALANCE), seq(ROWS, _ => None), seq(clients, _ => Ready), 0, 0)
  }

  predicate InTable(id: int)
  {
    1 <= id <= ROWS
  }

  ghost predicate Sized(s: State)
  {
    |s.rows| == |s.locks| == ROWS
  }

  predicate Enabled(s: State, a: Action)
    requires Sized(s)
  {
    && a.c < |s.clients|
    && match a
       case Begin(c, _) => s.clients[c].Ready?
       case Lock(c) => s.clients[c].Waiting? && (InTable(s.clients[c].id) ==> s.locks[s.clients[c].id - 1].None?)
       case Update(c) => s.clients[c].Thinking?
       case Commit(c) => s.clients[c].Written?
  }

  /** The update subtracts from the row as it is, which nobody but the holder of its lock can have changed. */
  function Next(s: State, a: Action): (s': State)
    requires Sized(s) && Enabled(s, a)
    ensures Sized(s') && |s'.clients| == |s.clients|
  {
    match a
    case Begin(c, id) => s.(clients := s.clients[c := Waiting(id)])
    case Lock(c) =>
      var id := s.clients[c].id;
      if InTable(id) then
        s.(clients := s.clients[c := Thinking(id, Some(s.rows[id - 1]))], locks := s.locks[id - 1 := Some(c)])
      else s.(clients := s.clients[c := Thinking(id, None)])
    case Update(c) =>
      var id := s.clients[c].id;
      s.(clients := s.clients[c := Written(id, if InTable(id) then Some(s.rows[id - 1] - 1) else None)])
    case Commit(c) =>
      var id, pending := s.clients[c].id, s.clients[c].pending;
      if InTable(id) && pending.Some? then
        State(s.rows[id - 1 := pending.value], s.locks[id - 1 := None], s.clients[c := Ready],
              s.committed + 1, s.updates + 1)
      else s.(clients := s.clients[c := Ready], committed := s.committed + 1)
  }

  function Exec(clients: nat, acts: seq<Action>): (r: Option<State>)
    ensures r.Some? ==> Sized(r.value) && |r.value.clients| == clients
  {
    if acts == [] then Some(Init(clients))
    else
      match Exec(clients, acts[..|acts| - 1])
      case None => None
      case Some(s) => if Enabled(s, acts[|acts| - 1]) then Some(Next(s, acts[|acts| - 1])) else None
  }

  // ---------- the invariant ----------

  /** Between locking and committing. */
  predicate Inside(client: Client)
  {
    client.Thinking? || client.Written?
  }

  /** Client c is inside with row i of the table. */
  ghost predicate InsideRow(s: State, c: nat, i: nat)
  {
    c < |s.clients| && Inside(s.clients[c]) && s.clients[c].id == i + 1
  }

  /** A row's lock is held exactly by the client that is inside with that row. */
  ghost predicate LockInv(s: State)
    requires Sized(s)
  {
    forall i, c: nat :: 0 <= i < ROWS ==> (s.locks[i] == Some(c) <==> InsideRow(s, c, i))
  }

  /** What a client was shown under the lock is still so, and what it wrote is one less. */
  ghost predicate Current(rows: seq<int>, client: Client)
    requires |rows| == ROWS
  {
    && (client.Thinking? ==> client.seen == if InTable(client.id) then Some(rows[client.id - 1]) else None)
    && (client.Written? ==> client.pending == if InTable(client.id) then Some(rows[client.id - 1] - 1) else None)
  }

  ghost predicate CurrentInv(s: State)
    requires Sized(s)
  {
    forall c :: 0 <= c < |s.clients| ==> Current(s.rows, s.clients[c])
  }

  function Decrement(balance: int): int
  {
    BALANCE - balance
  }

  ghost predicate Inv(s: State)
  {
    && Sized(s) && LockInv(s) && CurrentInv(s)
    && Sum(s.rows, Decrement) == s.updates <= s.committed
  }

  lemma LockStep(s: State, a: Action)
    requires Sized(s) && LockInv(s) && CurrentInv(s) && Enabled(s, a)
    ensures LockInv(Next(s, a))
  {
    var s' := Next(s, a);
    assert Current(s.rows, s.clients[a.c]);
    forall i, c: nat | 0 <= i < ROWS ensures s'.locks[i] == Some(c) <==> InsideRow(s', c, i) {
      assert s.locks[i] == Some(c) <==> InsideRow(s, c, i);
      assert s.locks[i] == Some(a.c) <==> InsideRow(s, a.c, i);
    }
  }

  lemma CurrentStep(s: State, a: Action)
    requires Sized(s) && LockInv(s) && CurrentInv(s) && Enabled(s, a)
    ensures CurrentInv(Next(s, a))
  {
    var s' := Next(s, a);
    forall c | 0 <= c < |s'.clients| ensures Current(s'.rows, s'.clients[c]) {
      assert Current(s.rows, s.clients[c]) && Current(s.rows, s.clients[a.c]);
      if a.Commit? && c != a.c && Inside(s.clients[c]) && InTable(s.clients[c].id) {
        var i := s.clients[c].id - 1;
        assert InsideRow(s, c, i) && s.locks[i] == Some(c);
        assert InTable(s.clients[a.c].id) ==> InsideRow(s, a.c, s.clients[a.c].id - 1);
      }
    }
  }

  lemma TotalStep(s: State, a: Action)
    requires Inv(s) && Enabled(s, a)
    ensures var s' := Next(s, a); Sum(s'.rows, Decrement) == s'.updates <= s'.committed
  {
    if a.Commit? && InTable(s.clients[a.c].id) {
      var i := s.clients[a.c].id - 1;
      SumUpdate(s.rows, i, s.rows[i] - 1, Decrement);
    }
  }

  lemma InvStep(s: State, a: Action)
    requires Inv(s) && Enabled(s, a)
    ensures Inv(Next(s, a))
  {
    hide LockInv, CurrentInv, Next, Enabled;
    LockStep(s, a);
    CurrentStep(s, a);
    TotalStep(s, a);
  }

  lemma {:induction false} ReachableInv(clients: nat, acts: seq<Action>)
    requires Exec(clients, acts).Some?
    ensures Inv(Exec(clients, acts).value)
    decreases |acts|
  {
    if acts == [] {
      SumZero(Init(clients).rows, Decrement);
    } else {
      var s, a := Exec(clients, acts[..|acts| - 1]).value, acts[|acts| - 1];
      ReachableInv(clients, acts[..|acts| - 1]);
      InvStep(s, a);
    }
  }

  // ---------- what the lock buys ----------

  /** No two clients are ever between locking and committing the same row. */
  lemma MutualExclusion(clients: nat, acts: seq<Action>, c: nat, d: nat)
    requires Exec(clients, acts).Some? && c < clients && d < clients
    requires var s := Exec(clients, acts).value;
             Inside(s.clients[c]) && Inside(s.clients[d]) && s.clients[c].id == s.clients[d].id
             && InTable(s.clients[c].id)
    ensures c == d
  {
    ReachableInv(clients, acts);
    var s := Exec(clients, acts).value;
    var i := s.clients[c].id - 1;
    assert InsideRow(s, c, i) && InsideRow(s, d, i);
  }

  /** A client waits only for the row's lock, and only while another client is between locking and committing it. */
  lemma WaitsOnlyForARow(clients: nat, acts: seq<Action>, c: nat, id: int)
    requires Exec(clients, acts).Some? && c < clients
    ensures var s := Exec(clients, acts).value;
            match s.clients[c]
            case Ready => Enabled(s, Begin(c, id))
            case Waiting(row) =>
              Enabled(s, Lock(c)) <==>
              !(1 <= row <= 1000 && exists d :: 0 <= d < clients && Inside(s.clients[d]) && s.clients[d].id == row)
            case Thinking(_, _) => Enabled(s, Update(c))
            case Written(_, _) => Enabled(s, Commit(c))
  {
    ReachableInv(clients, acts);
    var s := Exec(clients, acts).value;
    hide Exec;
    if s.clients[c].Waiting? && InTable(s.clients[c].id) {
      var i := s.clients[c].id - 1;
      if s.locks[i].Some? { assert InsideRow(s, s.locks[i].value, i); }
      forall d: nat | d < clients && Inside(s.clients[d]) && s.clients[d].id == i + 1 ensures s.locks[i] == Some(d) {
        assert InsideRow(s, d, i);
      }
    }
  }

  /** No update is lost: the balance the client was shown is the one its update replaces, by one less. */
  lemma NothingIsStale(clients: nat, acts: seq<Action>, c: nat)
    requires Exec(clients, acts).Some? && c < clients
    requires var s := Exec(clients, acts).value; s.clients[c].Thinking? && InTable(s.clients[c].id)
    ensures var s := Exec(clients, acts).value;
            && s.clients[c].seen == Some(s.rows[s.clients[c].id - 1])
            && Next(s, Update(c)).clients[c].pending == Some(s.clients[c].seen.value - 1)
  {
    ReachableInv(clients, acts);
    var s := Exec(clients, acts).value;
    assert Current(s.rows, s.clients[c]);
  }

  /** Every transaction is begun for a row of the table, as with `range` at most 1000. */
  ghost predicate WithinTable(acts: seq<Action>)
  {
    forall i :: 0 <= i < |acts| && acts[i].Begin? ==> InTable(acts[i].id)
  }

  lemma {:induction false} AllCommitsUpdate(clients: nat, acts: seq<Action>)
    requires Exec(clients, acts).Some? && WithinTable(acts)
    ensures var s := Exec(clients, acts).value;
            && s.updates == s.committed
            && forall c :: 0 <= c < clients && !s.clients[c].Ready? ==> InTable(s.clients[c].id)
    decreases |acts|
  {
    if acts == [] {
    } else {
      AllCommitsUpdate(clients, acts[..|acts| - 1]);
      ReachableInv(clients, acts[..|acts| - 1]);
      var s, a := Exec(clients, acts[..|acts| - 1]).value, acts[|acts| - 1];
      assert Current(s.rows, s.clients[a.c]);
      hide Inv;
    }
  }

  /** Every commit takes effect: in every run the total decrement is the number of commits to rows that exist. */
  lemma EveryCommitCounts(clients: nat, acts: seq<Action>)
    requires Exec(clients, acts).Some?
    ensures var s := Exec(clients, acts).value;
            Sum(s.rows, Decrement) == s.updates && (WithinTable(acts) ==> s.updates == s.committed)
  {
    ReachableInv(clients, acts);
    if WithinTable(acts) { AllCommitsUpdate(clients, acts); }
  }

  /** An action of a client that has begun, so one that moves its transaction on. */
  predicate Advances(a: Action)
  {
    !a.Begin?
  }

  /** No deadlock: while any transaction is open, some open transaction can move on. */
  lemma OpenTransactionsAdvance(clients: nat, acts: seq<Action>, c: nat)
    requires Exec(clients, acts).Some? && c < clients && !Exec(clients, acts).value.clients[c].Ready?
    ensures exists a :: Advances(a) && Enabled(Exec(clients, acts).value, a)
  {
    ReachableInv(clients, acts);
    var s := Exec(clients, acts).value;
    match s.clients[c]
    case Waiting(id) =>
      if InTable(id) && s.locks[id - 1].Some? {
        var d := s.locks[id - 1].value;
        assert InsideRow(s, d, id - 1);
        if s.clients[d].Thinking? {
          assert Advances(Update(d)) && Enabled(s, Update(d));
        } else {
          assert Advances(Commit(d)) && Enabled(s, Commit(d));
        }
      } else {
        assert Advances(Lock(c)) && Enabled(s, Lock(c));
      }
    case Thinking(_, _) => assert Advances(Update(c)) && Enabled(s, Update(c));
    case Written(_, _) => assert Advances(Commit(c)) && Enabled(s, Commit(c));
  }

  /** Steps a client has taken in its open transaction. */
  function Done(client: Client): int
  {
    match client
    case Ready => 0
    case Waiting(_) => 1
    case Thinking(_, _) => 2
    case Written(_, _) => 3
  }

  lemma OneStepMore(s: State, a: Action)
    requires Sized(s) && Enabled(s, a)
    ensures var s' := Next(s, a);
            4 * s'.committed + Sum(s'.clients, Done) == 4 * s.committed + Sum(s.clients, Done) + 1
  {
    SumUpdate(s.clients, a.c, Next(s, a).clients[a.c], Done);
  }

  /** Nothing is ever repeated: whatever the contention, a commit costs four steps, and no step is in vain. */
  lemma {:induction false} FourStepsEach(clients: nat, acts: seq<Action>)
    requires Exec(clients, acts).Some?
    ensures var s := Exec(clients, acts).value;
            && |acts| == 4 * s.committed + Sum(s.clients, Done)
            && |acts| - 3 * clients <= 4 * s.committed <= |acts|
    decreases |acts|
  {
    if acts == [] {
      SumZero(Init(clients).clients, Done);
    } else {
      hide Next, Enabled;
      FourStepsEach(clients, acts[..|acts| - 1]);
      OneStepMore(Exec(clients, acts[..|acts| - 1]).value, acts[|acts| - 1]);
    }
    SumWithin(Exec(clients, acts).value.clients, Done, 0, 3);
  }

  // ---------- schedules ----------

  /** The actions of a schedule that are possible in their turn; the others do nothing. */
  function Possible(clients: nat, schedule: seq<Action>): (taken: seq<Action>)
    ensures Exec(clients, taken).Some?
  {
    if schedule == [] then []
    else
      var before, a := Possible(clients, schedule[..|schedule| - 1]), schedule[|schedule| - 1];
      if Enabled(Exec(clients, before).value, a) then
        assert (before + [a])[..|before|] == before;
        before + [a]
      else before
  }

  /** Whatever is possible in the state reached so far is taken. */
  lemma PossibleStep(clients: nat, schedule: seq<Action>, a: Action)
    ensures var before := Possible(clients, schedule);
            Possible(clients, schedule + [a]) == before + (if Enabled(Exec(clients, before).value, a) then [a] else [])
  {
    hide Enabled, Next;
    assert (schedule + [a])[..|schedule|] == schedule;
    assert Possible(clients, schedule) + [] == Possible(clients, schedule);
  }

  /** So a schedule that is a run is taken as it is. */
  lemma {:induction false} RunsArePossible(clients: nat, schedule: seq<Action>)
    requires Exec(clients, schedule).Some?
    ensures Possible(clients, schedule) == schedule
    decreases |schedule|
  {
    if schedule == [] {
    } else {
      var front, a := schedule[..|schedule| - 1], schedule[|schedule| - 1];
      assert Exec(clients, front).Some? && Enabled(Exec(clients, front).value, a);
      assert schedule == front + [a];
      hide *;
      RunsArePossible(clients, front);
      PossibleStep(clients, front, a);
    }
  }

  lemma PossibleAt(clients: nat, schedule: seq<Action>, j: nat)
    requires j < |schedule|
    ensures var before := Possible(clients, schedule[..j]);
            Possible(clients, schedule[..j + 1])
            == before + (if Enabled(Exec(clients, before).value, schedule[j]) then [schedule[j]] else [])
  {
    hide *;
    assert schedule[..j + 1] == schedule[..j] + [schedule[j]];
    PossibleStep(clients, schedule[..j], schedule[j]);
  }

  lemma PossibleInAll(clients: nat, schedule: seq<Action>)
    ensures Possible(clients, schedule[..0]) == []
    ensures Possible(clients, schedule[..|schedule|]) == Possible(clients, schedule)
    ensures Exec(clients, schedule).Some? ==> Possible(clients, schedule) == schedule
  {
    assert schedule[..|schedule|] == schedule && schedule[..0] == [];
    if Exec(clients, schedule).Some? { RunsArePossible(clients, schedule); }
    hide Exec;
  }

  // ---------- the script over the shared table ----------

  class HotAccounts {
    const rows: array<int>
    const locks: array<Option<nat>>
    const clients: array<Client>
    var committed: nat
    ghost var updates: nat

    ghost predicate Valid()
      reads this, rows, locks, clients
    {
      rows.Length == locks.Length == ROWS && Inv(Snapshot())
    }

    ghost function Snapshot(): State
      reads this, rows, locks, clients
    {
      State(rows[..], locks[..], clients[..], committed, updates)
    }

    constructor (n: nat)
      ensures fresh(rows) && fresh(locks) && fresh(clients) && clients.Length == n
      ensures Valid() && Snapshot() == Init(n)
    {
      rows := new int[ROWS](_ => BALANCE);
      locks := new Option<nat>[ROWS](_ => None);
      clients := new Client[n](_ => Ready);
      committed, updates := 0, 0;
      new;
      assert Snapshot() == Init(n);
      ReachableInv(n, []);
    }

    predicate CanTake(a: Action)
      requires rows.Length == locks.Length == ROWS
      reads this, rows, locks, clients
      ensures CanTake(a) == Enabled(Snapshot(), a)
    {
      && a.c < clients.Length
      && match a
         case Begin(c, _) => clients[c].Ready?
         case Lock(c) => clients[c].Waiting? && (InTable(clients[c].id) ==> locks[clients[c].id - 1].None?)
         case Update(c) => clients[c].Thinking?
         case Commit(c) => clients[c].Written?
    }

    method Take(a: Action)
      requires rows.Length == locks.Length == ROWS && CanTake(a)
      modifies this, rows, locks, clients
      ensures Snapshot() == Next(old(Snapshot()), a)
    {
      match a
      case Begin(c, id) =>
        clients[c] := Waiting(id);
      case Lock(c) =>
        var id := clients[c].id;
        if InTable(id) {
          locks[id - 1] := Some(c);
          clients[c] := Thinking(id, Some(rows[id - 1]));
        } else {
          clients[c] := Thinking(id, None);
        }
      case Update(c) =>
        var id := clients[c].id;
        clients[c] := Written(id, if InTable(id) then Some(rows[id - 1] - 1) else None);
      case Commit(c) =>
        var id, pending := clients[c].id, clients[c].pending;
        if InTable(id) && pending.Some? {
          rows[id - 1] := pending.value;
          locks[id - 1] := None;
          updates := updates + 1;
        }
        clients[c] := Ready;
        committed := committed + 1;
    }

    /** Any schedule, for rows of the table: what the clients committed is what the table lost. */
    method Run(schedule: seq<Action>) returns (commits: nat, ghost taken: seq<Action>)
      requires Valid() && Snapshot() == Init(clients.Length) && WithinTable(schedule)
      modifies this, rows, locks, clients
      ensures Valid() && Exec(clients.Length, taken) == Some(Snapshot())
      ensures commits == Sum(rows[..], Decrement)
      ensures taken == Possible(clients.Length, schedule)
      ensures Exec(clients.Length, schedule).Some? ==> taken == schedule
    {
      taken := [];
      assert Exec(clients.Length, []) == Some(Snapshot());
      PossibleInAll(clients.Length, schedule);
      hide Exec, Next, Possible, Enabled, Sum;
      for j := 0 to |schedule|
        invariant Valid() && WithinTable(taken)
        invariant Exec(clients.Length, taken) == Some(Snapshot()) && taken == Possible(clients.Length, schedule[..j])
      {
        PossibleAt(clients.Length, schedule, j);
        TakeTurn(schedule[j], taken);
        taken := Possible(clients.Length, schedule[..j + 1]);
      }
      commits := committed;
      EveryCommitCounts(clients.Length, taken);
    }

    /** A scheduled statement, if it does not have to wait; `taken` is the run so far. */
    method TakeTurn(a: Action, ghost taken: seq<Action>)
      requires Valid() && Exec(clients.Length, taken) == Some(Snapshot())
      modifies this, rows, locks, clients
      ensures Valid()
      ensures Exec(clients.Length, taken + (if Enabled(old(Snapshot()), a) then [a] else [])) == Some(Snapshot())
    {
      assert taken + [] == taken;
      if CanTake(a) {
        InvStep(Snapshot(), a);
        assert (taken + [a])[..|taken|] == taken;
        Take(a);
      }
    }
  }
}
