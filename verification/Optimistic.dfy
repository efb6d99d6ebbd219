/**
 The optimistic script: read a version without a lock, think, then update only if the version is still
 the same. No retry. Each UPDATE is one atomic step that checks its WHERE against the committed row.
 */
module Optimistic {
  import opened Wrappers
  import opened SeedData
  import opened Sums

  datatype Row = Row(balance: int, version: nat)

  /** The seeded table: ids 1 to 1000. Row `id` is rows[id - 1]. */
  function Seed(): (rows: seq<Row>)
    ensures |rows| == ROWS && forall i :: 0 <= i < ROWS ==> rows[i] == Row(BALANCE, 0)
  {
    seq(ROWS, _ => Row(BALANCE, 0))
  }

  predicate InTable(rows: seq<Row>, id: int)
  {
    1 <= id <= |rows|
  }

  /** A client between the read and the update holds on to an id and a version; \gset fails without a row. */
  datatype Client = Ready | Thinking(id: int, version: nat) | Aborted

  /** `won` and `lost` are history: id and version of the updates that matched, and of those that did not. */
  datatype State = State(rows: seq<Row>, clients: seq<Client>, won: seq<(int, nat)>, lost: seq<(int, nat)>)

  datatype Action = Read(c: nat, id: int) | Update(c: nat)

  function Init(clients: nat): State
  {
    State(Seed(), seq(clients, _ => Ready), [], [])
  }

  predicate Enabled(s: State, a: Action)
  {
    match a
    case Read(c, _) => c < |s.clients| && s.clients[c].Ready?
    case Update(c) => c < |s.clients| && s.clients[c].Thinking?
  }

  /** The WHERE clause: the row is there and still has the version that was read. */
  predicate Matches(rows: seq<Row>, client: Client)
    requires client.Thinking?
  {
    InTable(rows, client.id) && rows[client.id - 1].version == client.version
  }

  function Next(s: State, a: Action): (s': State)
    requires Enabled(s, a)
    ensures |s'.clients| == |s.clients| && |s'.rows| == |s.rows|
  {
    match a
    case Read(c, id) =>
      s.(clients := s.clients[c := if InTable(s.rows, id) then Thinking(id, s.rows[id - 1].version) else Aborted])
    case Update(c) =>
      var client := s.clients[c];
      if Matches(s.rows, client) then
        var row := s.rows[client.id - 1];
        State(s.rows[client.id - 1 := Row(row.balance - 1, row.version + 1)], s.clients[c := Ready],
              s.won + [(client.id, client.version)], s.lost)
      else
        State(s.rows, s.clients[c := Ready], s.won, s.lost + [(client.id, client.version)])
  }

  function Exec(clients: nat, acts: seq<Action>): (r: Option<State>)
    ensures r.Some? ==> |r.value.clients| == clients && |r.value.rows| == ROWS
  {
    if acts == [] then Some(Init(clients))
    else
      match Exec(clients, acts[..|acts| - 1])
      case None => None
      case Some(s) => if Enabled(s, acts[|acts| - 1]) then Some(Next(s, acts[|acts| - 1])) else None
  }

  // ---------- the invariants ----------

  /** Versions are handed out once each, in order, and every decrement is one of them. */
  ghost predicate RowInv(s: State)
  {
    && |s.rows| == ROWS
    && (forall i :: 0 <= i < ROWS ==> s.rows[i].balance + s.rows[i].version == BALANCE)
    && (forall p :: p in s.won <==> InTable(s.rows, p.0) && p.1 < s.rows[p.0 - 1].version)
    && (forall j, k :: 0 <= j < k < |s.won| ==> s.won[j] != s.won[k])
  }

  /** Nobody has read a version from the future. */
  ghost predicate ReadInv(s: State)
  {
    forall c :: 0 <= c < |s.clients| && s.clients[c].Thinking? ==>
      InTable(s.rows, s.clients[c].id) && s.clients[c].version <= s.rows[s.clients[c].id - 1].version
  }

  function Decrement(row: Row): int
  {
    BALANCE - row.balance
  }

  ghost predicate TotalInv(s: State)
  {
    Sum(s.rows, Decrement) == |s.won|
  }

  function Lost(p: (int, nat)): ((int, nat)) -> int
  {
    (q: (int, nat)) => if q == p then 1 else 0
  }

  function Holds(p: (int, nat)): Client -> int
  {
    (client: Client) => if client == Thinking(p.0, p.1) then 1 else 0
  }

  /** Version p of a row: how many have lost it, or are about to. */
  function Charged(s: State, p: (int, nat)): int
  {
    Sum(s.lost, Lost(p)) + Sum(s.clients, Holds(p))
  }

  /** Only a version that was won can be lost, and then to all clients but the winner at most. */
  ghost predicate ChargeInv(s: State, p: (int, nat))
  {
    && (p in s.won ==> Charged(s, p) <= |s.clients| - 1)
    && (p !in s.won ==> Sum(s.lost, Lost(p)) == 0)
  }

  lemma RowStep(s: State, a: Action)
    requires RowInv(s) && ReadInv(s) && Enabled(s, a)
    ensures RowInv(Next(s, a)) && ReadInv(Next(s, a))
  {
    if a.Update? && Matches(s.rows, s.clients[a.c]) {
      var client, s' := s.clients[a.c], Next(s, a);
      var p := (client.id, client.version);
      assert p !in s.won;
      forall q ensures q in s'.won <==> InTable(s'.rows, q.0) && q.1 < s'.rows[q.0 - 1].version {
        assert q in s'.won <==> q in s.won || q == p;
      }
    }
  }

  lemma TotalStep(s: State, a: Action)
    requires TotalInv(s) && ReadInv(s) && Enabled(s, a)
    ensures TotalInv(Next(s, a))
  {
    if a.Update? && Matches(s.rows, s.clients[a.c]) {
      var i := s.clients[a.c].id - 1;
      SumUpdate(s.rows, i, Row(s.rows[i].balance - 1, s.rows[i].version + 1), Decrement);
    }
  }

  lemma ChargeRead(s: State, a: Action, p: (int, nat))
    requires RowInv(s) && ChargeInv(s, p) && Enabled(s, a) && a.Read?
    ensures ChargeInv(Next(s, a), p)
  {
    SumUpdate(s.clients, a.c, Next(s, a).clients[a.c], Holds(p));
    hide Sum;
  }

  lemma ChargeWin(s: State, a: Action, p: (int, nat))
    requires RowInv(s) && ChargeInv(s, p) && Enabled(s, a) && a.Update? && Matches(s.rows, s.clients[a.c])
    ensures ChargeInv(Next(s, a), p)
  {
    SumUpdate(s.clients, a.c, Ready, Holds(p));
    SumWithin(s.clients, Holds(p), 0, 1);
    hide Sum;
    var q := (s.clients[a.c].id, s.clients[a.c].version);
    assert q !in s.won;
    assert forall r :: r in s.won + [q] <==> r in s.won || r == q;
  }

  lemma ChargeLoss(s: State, a: Action, p: (int, nat))
    requires RowInv(s) && ReadInv(s) && ChargeInv(s, p)
    requires Enabled(s, a) && a.Update? && !Matches(s.rows, s.clients[a.c])
    ensures ChargeInv(Next(s, a), p)
  {
    var q := (s.clients[a.c].id, s.clients[a.c].version);
    SumUpdate(s.clients, a.c, Ready, Holds(p));
    assert (s.lost + [q])[..|s.lost|] == s.lost;
    assert Sum(s.lost + [q], Lost(p)) == Sum(s.lost, Lost(p)) + Lost(p)(q);
    hide Sum;
    assert q in s.won;
  }

  lemma ChargeStep(s: State, a: Action, p: (int, nat))
    requires RowInv(s) && ReadInv(s) && ChargeInv(s, p) && Enabled(s, a)
    ensures ChargeInv(Next(s, a), p)
  {
    hide RowInv, ReadInv, ChargeInv, Next;
    if a.Read? {
      ChargeRead(s, a, p);
    } else if Matches(s.rows, s.clients[a.c]) {
      ChargeWin(s, a, p);
    } else {
      ChargeLoss(s, a, p);
    }
  }

  ghost predicate Inv(s: State)
  {
    RowInv(s) && ReadInv(s) && TotalInv(s) && forall p :: ChargeInv(s, p)
  }

  lemma InitInv(clients: nat)
    ensures Inv(Init(clients))
  {
    var s := Init(clients);
    SumZero(s.rows, Decrement);
  }

  lemma {:induction false} ReachableInv(clients: nat, acts: seq<Action>)
    requires Exec(clients, acts).Some?
    ensures Inv(Exec(clients, acts).value)
    decreases |acts|
  {
    if acts == [] {
      InitInv(clients);
    } else {
      var s, a := Exec(clients, acts[..|acts| - 1]).value, acts[|acts| - 1];
      ReachableInv(clients, acts[..|acts| - 1]);
      hide RowInv, ReadInv, TotalInv, ChargeInv, Next, Enabled;
      RowStep(s, a);
      TotalStep(s, a);
      forall p ensures ChargeInv(Next(s, a), p) { ChargeStep(s, a, p); }
    }
  }

  // ---------- what contention costs ----------

  /** Each version is consumed by exactly one update: those of a row are 0 up to its version, once each. */
  lemma {:induction false} VersionsConsumedOnce(clients: nat, acts: seq<Action>)
    requires Exec(clients, acts).Some?
    ensures var s := Exec(clients, acts).value;
            && (forall p :: p in s.won <==> InTable(s.rows, p.0) && p.1 < s.rows[p.0 - 1].version)
            && (forall j, k :: 0 <= j < k < |s.won| ==> s.won[j] != s.won[k])
  {
    ReachableInv(clients, acts);
  }

  /** An update will match exactly as long as nobody has consumed the version it holds. */
  lemma MatchesIff(clients: nat, acts: seq<Action>, c: nat)
    requires Exec(clients, acts).Some? && c < clients && Exec(clients, acts).value.clients[c].Thinking?
    ensures var s := Exec(clients, acts).value;
            Matches(s.rows, s.clients[c]) <==> (s.clients[c].id, s.clients[c].version) !in s.won
  {
    ReachableInv(clients, acts);
  }

  /** Nothing is lost or made: row by row balance and version add up, and the total decrement is the wins. */
  lemma BalancesConserved(clients: nat, acts: seq<Action>)
    requires Exec(clients, acts).Some?
    ensures var s := Exec(clients, acts).value;
            && |s.rows| == 1000 && (forall i :: 0 <= i < 1000 ==> s.rows[i].balance + s.rows[i].version == 1000000)
            && Sum(s.rows, Decrement) == |s.won|
  {
    ReachableInv(clients, acts);
  }

  /** Exactly one update that matched consumed this version. */
  ghost predicate WonOnce(s: State, p: (int, nat))
  {
    exists j :: 0 <= j < |s.won| && s.won[j] == p && forall k :: 0 <= k < |s.won| && s.won[k] == p ==> k == j
  }

  /** Each loss is charged to the one win that consumed the version it had read; a win pays for C - 1 at most. */
  lemma LossesCharged(clients: nat, acts: seq<Action>)
    requires Exec(clients, acts).Some?
    ensures var s := Exec(clients, acts).value;
            && (forall i :: 0 <= i < |s.lost| ==> WonOnce(s, s.lost[i]))
            && (forall j :: 0 <= j < |s.won| ==> Sum(s.lost, Lost(s.won[j])) <= clients - 1)
  {
    ReachableInv(clients, acts);
    var s := Exec(clients, acts).value;
    hide Inv, WonOnce;
    forall i | 0 <= i < |s.lost| ensures WonOnce(s, s.lost[i]) {
      LossesWereWon(s, i);
    }
    forall j | 0 <= j < |s.won| ensures Sum(s.lost, Lost(s.won[j])) <= clients - 1 {
      WinPays(s, j);
    }
  }

  lemma WinPays(s: State, j: nat)
    requires Inv(s) && j < |s.won|
    ensures Sum(s.lost, Lost(s.won[j])) <= |s.clients| - 1
  {
    assert s.won[j] in s.won && ChargeInv(s, s.won[j]);
    SumNonNegative(s.clients, Holds(s.won[j]));
  }

  lemma LossesWereWon(s: State, i: nat)
    requires Inv(s) && i < |s.lost|
    ensures WonOnce(s, s.lost[i])
  {
    var p := s.lost[i];
    assert ChargeInv(s, p);
    SumAtLeast(s.lost, Lost(p), i);
    var j :| 0 <= j < |s.won| && s.won[j] == p;
    assert forall k :: 0 <= k < |s.won| && k != j ==> s.won[k] != s.won[j];
  }

  function Without(lost: seq<(int, nat)>, p: (int, nat)): (r: seq<(int, nat)>)
    ensures forall q :: q in r <==> q in lost && q != p
  {
    if lost == [] then []
    else
      var front, last := lost[..|lost| - 1], lost[|lost| - 1];
      assert lost == front + [last];
      if last == p then Without(front, p) else Without(front, p) + [last]
  }

  lemma {:induction false} WithoutCount(lost: seq<(int, nat)>, p: (int, nat), q: (int, nat))
    ensures |Without(lost, p)| + Sum(lost, Lost(p)) == |lost|
    ensures Sum(Without(lost, p), Lost(q)) <= Sum(lost, Lost(q))
    decreases |lost|
  {
    if lost == [] {
    } else {
      var front, last := lost[..|lost| - 1], lost[|lost| - 1];
      WithoutCount(front, p, q);
      assert (Without(front, p) + [last])[..|Without(front, p)|] == Without(front, p);
    }
  }

  /** Losses that each belong to one of the wins, at most k to any of them. */
  lemma {:induction false} CountByWin(won: seq<(int, nat)>, lost: seq<(int, nat)>, k: nat)
    requires forall q :: q in lost ==> q in won
    requires forall j :: 0 <= j < |won| ==> Sum(lost, Lost(won[j])) <= k
    ensures |lost| <= Times(k, |won|)
    decreases |won|
  {
    if lost == [] {
    } else {
      assert lost[0] in won;
      var front, p := won[..|won| - 1], won[|won| - 1];
      assert won == front + [p];
      forall j | 0 <= j < |front| ensures Sum(Without(lost, p), Lost(front[j])) <= k {
        WithoutCount(lost, p, front[j]);
        assert front[j] == won[j];
      }
      WithoutCount(lost, p, p);
      CountByWin(front, Without(lost, p), k);
    }
  }

  /** However C clients interleave, they finish at most C attempts for each update that matches. */
  lemma FinishedBound(clients: nat, acts: seq<Action>)
    requires Exec(clients, acts).Some?
    ensures var s := Exec(clients, acts).value; |s.won| + |s.lost| <= clients * |s.won|
  {
    var s := Exec(clients, acts).value;
    LossesCharged(clients, acts);
    forall q | q in s.lost ensures q in s.won {
      var i :| 0 <= i < |s.lost| && s.lost[i] == q;
    }
    if clients == 0 {
      NobodyFinishes(acts);
    } else {
      CountByWin(s.won, s.lost, clients - 1);
      TimesIsProduct(clients - 1, |s.won|);
      assert clients * |s.won| == (clients - 1) * |s.won| + |s.won|;
    }
  }

  lemma NobodyFinishes(acts: seq<Action>)
    requires Exec(0, acts).Some?
    ensures acts == []
  {
  }

  /** Nobody ever waits for anybody: a client reads or updates when it gets there, or has stopped for good. */
  lemma NobodyWaits(clients: nat, acts: seq<Action>, c: nat, id: int)
    requires Exec(clients, acts).Some? && c < clients
    ensures var s := Exec(clients, acts).value;
            match s.clients[c]
            case Ready => Enabled(s, Read(c, id))
            case Thinking(row, _) => Enabled(s, Update(c)) && 1 <= row <= 1000
            case Aborted => true
    ensures var s := Exec(clients, acts).value;
            s.clients[c].Ready? ==>
              Next(s, Read(c, id)).clients[c]
              == if 1 <= id <= 1000 then Thinking(id, s.rows[id - 1].version) else Aborted
  {
    ReachableInv(clients, acts);
    hide Exec;
  }

  // ---------- the bound is reached ----------

  lemma Extend(clients: nat, acts: seq<Action>, a: Action)
    requires Exec(clients, acts).Some? && Enabled(Exec(clients, acts).value, a)
    ensures Exec(clients, acts + [a]) == Some(Next(Exec(clients, acts).value, a))
  {
    assert (acts + [a])[..|acts|] == acts;
  }

  /** Clients up to j have read version m of row 1, the others are ready; m updates matched so far. */
  ghost predicate Reading(clients: nat, s: State, m: nat, j: nat)
    requires clients > 0
  {
    && |s.clients| == clients && |s.rows| == ROWS && s.rows[0].version == m
    && |s.won| == m && |s.lost| == Times(clients - 1, m)
    && forall c :: 0 <= c < clients ==> s.clients[c] == if c < j then Thinking(1, m) else Ready
  }

  /** Clients up to j have updated, the first of them with success; the others still hold version m. */
  ghost predicate Updating(clients: nat, s: State, m: nat, j: nat)
    requires clients > 0
  {
    && |s.clients| == clients && |s.rows| == ROWS && s.rows[0].version == m + 1
    && |s.won| == m + 1 && |s.lost| == Times(clients - 1, m) + j - 1
    && forall c :: 0 <= c < clients ==> s.clients[c] == if c < j then Ready else Thinking(1, m)
  }

  lemma {:induction false} Rounds(clients: nat, m: nat) returns (acts: seq<Action>)
    requires clients > 0
    ensures Exec(clients, acts).Some? && Reading(clients, Exec(clients, acts).value, m, 0)
    decreases m, 0, 0
  {
    if m == 0 {
      acts := [];
    } else {
      acts := Updates(clients, m - 1, clients);
    }
  }

  lemma {:induction false} Reads(clients: nat, m: nat, j: nat) returns (acts: seq<Action>)
    requires j <= clients && clients > 0
    ensures Exec(clients, acts).Some? && Reading(clients, Exec(clients, acts).value, m, j)
    decreases m, 1, j
  {
    if j == 0 {
      acts := Rounds(clients, m);
    } else {
      var before := Reads(clients, m, j - 1);
      Extend(clients, before, Read(j - 1, 1));
      acts := before + [Read(j - 1, 1)];
    }
  }

  lemma {:induction false} Updates(clients: nat, m: nat, j: nat) returns (acts: seq<Action>)
    requires 1 <= j <= clients
    ensures Exec(clients, acts).Some? && Updating(clients, Exec(clients, acts).value, m, j)
    decreases m, 2, j
  {
    var before;
    if j == 1 {
      before := Reads(clients, m, clients);
    } else {
      before := Updates(clients, m, j - 1);
    }
    Extend(clients, before, Update(j - 1));
    acts := before + [Update(j - 1)];
  }

  /** The bound is exact, for any number of clients and of updates that match. */
  lemma BoundIsReached(clients: nat, m: nat)
    requires clients > 0
    ensures exists acts :: Exec(clients, acts).Some?
                           && |Exec(clients, acts).value.won| == m
                           && m + |Exec(clients, acts).value.lost| == clients * m
  {
    var acts := Rounds(clients, m);
    TimesIsProduct(clients - 1, m);
    assert clients * m == (clients - 1) * m + m;
  }

  // ---------- schedules ----------

  /** The actions of a schedule that are possible in their turn; the others do nothing. */
  function Possible(clients: nat, schedule: seq<Action>): (taken: seq<Action>)
    ensures Exec(clients, taken).Some?
  {
    if schedule == [] then []
    else
      var before, a := Possible(clients, schedule[..|schedule| - 1]), schedule[|schedule| - 1];
      if Enabled(Exec(clients, before).value, a) then
        assert (before + [a])[..|before|] == before;
        before + [a]
      else before
  }

  /** Whatever is possible in the state reached so far is taken. */
  lemma PossibleStep(clients: nat, schedule: seq<Action>, a: Action)
    ensures var before := Possible(clients, schedule);
            Possible(clients, schedule + [a]) == before + (if Enabled(Exec(clients, before).value, a) then [a] else [])
  {
    hide Enabled, Next;
    assert (schedule + [a])[..|schedule|] == schedule;
    assert Possible(clients, schedule) + [] == Possible(clients, schedule);
  }

  /** So a schedule that is a run is taken as it is. */
  lemma {:induction false} RunsArePossible(clients: nat, schedule: seq<Action>)
    requires Exec(clients, schedule).Some?
    ensures Possible(clients, schedule) == schedule
    decreases |schedule|
  {
    if schedule == [] {
    } else {
      var front, a := schedule[..|schedule| - 1], schedule[|schedule| - 1];
      assert Exec(clients, front).Some? && Enabled(Exec(clients, front).value, a);
      assert schedule == front + [a];
      hide *;
      RunsArePossible(clients, front);
      PossibleStep(clients, front, a);
    }
  }

  lemma PossibleAt(clients: nat, schedule: seq<Action>, j: nat)
    requires j < |schedule|
    ensures var before := Possible(clients, schedule[..j]);
            Possible(clients, schedule[..j + 1])
            == before + (if Enabled(Exec(clients, before).value, schedule[j]) then [schedule[j]] else [])
  {
    hide *;
    assert schedule[..j + 1] == schedule[..j] + [schedule[j]];
    PossibleStep(clients, schedule[..j], schedule[j]);
  }

  lemma PossibleInAll(clients: nat, schedule: seq<Action>)
    ensures Possible(clients, schedule[..0]) == []
    ensures Possible(clients, schedule[..|schedule|]) == Possible(clients, schedule)
    ensures Exec(clients, schedule).Some? ==> Possible(clients, schedule) == schedule
  {
    assert schedule[..|schedule|] == schedule && schedule[..0] == [];
    if Exec(clients, schedule).Some? { RunsArePossible(clients, schedule); }
    hide Exec;
  }

  // ---------- the script over the shared table ----------

  class HotAccounts {
    const rows: array<Row>
    const clients: array<Client>
    ghost var won: seq<(int, nat)>
    ghost var lost: seq<(int, nat)>

    ghost function Snapshot(): State
      reads this, rows, clients
    {
      State(rows[..], clients[..], won, lost)
    }

    constructor (n: nat)
      ensures fresh(rows) && fresh(clients) && clients.Length == n && Snapshot() == Init(n)
    {
      rows := new Row[ROWS](_ => Row(BALANCE, 0));
      clients := new Client[n](_ => Ready);
      won, lost := [], [];
    }

    /** SELECT ... \gset: the client's variables take the row's values. */
    method Select(c: nat, id: int)
      requires c < clients.Length && clients[c].Ready?
      modifies clients
      ensures Snapshot() == Next(old(Snapshot()), Read(c, id))
      ensures clients[c] == if 1 <= id <= rows.Length then Thinking(id, rows[id - 1].version) else Aborted
    {
      if 1 <= id <= rows.Length {
        clients[c] := Thinking(id, rows[id - 1].version);
      } else {
        clients[c] := Aborted;
      }
    }

    /** UPDATE ... WHERE id = :id AND version = :version, and the number of rows it affects. */
    method UpdateRow(c: nat) returns (affected: nat)
      requires c < clients.Length && clients[c].Thinking?
      modifies this, rows, clients
      ensures Snapshot() == Next(old(Snapshot()), Update(c))
      ensures affected == |won| - |old(won)|
      ensures var id, version := old(clients[c].id), old(clients[c].version);
              if 1 <= id <= rows.Length && old(rows[id - 1].version) == version then
                affected == 1 && rows[id - 1] == Row(old(rows[id - 1].balance) - 1, version + 1)
              else affected == 0 && rows[..] == old(rows[..])
    {
      var id, version := clients[c].id, clients[c].version;
      if 1 <= id <= rows.Length && rows[id - 1].version == version {
        rows[id - 1] := Row(rows[id - 1].balance - 1, rows[id - 1].version + 1);
        won := won + [(id, version)];
        affected := 1;
      } else {
        lost := lost + [(id, version)];
        affected := 0;
      }
      clients[c] := Ready;
    }

    method TotalDecrement() returns (total: int)
      ensures total == Sum(rows[..], Decrement)
    {
      total := 0;
      for i := 0 to rows.Length
        invariant total == Sum(rows[..i], Decrement)
      {
        assert rows[..i + 1][..i] == rows[..i];
        total := total + BALANCE - rows[i].balance;
      }
      assert rows[..rows.Length] == rows[..];
    }

    /** Any schedule: attempts finished, and what the table says about how many of them took effect. */
    method Run(schedule: seq<Action>) returns (attempts: nat, decrement: int, ghost taken: seq<Action>)
      requires Snapshot() == Init(clients.Length)
      modifies this, rows, clients
      ensures Exec(clients.Length, taken) == Some(Snapshot())
      ensures attempts == |won| + |lost| && decrement == |won|
      ensures attempts <= clients.Length * decrement
      ensures taken == Possible(clients.Length, schedule)
      ensures Exec(clients.Length, schedule).Some? ==> taken == schedule
    {
      attempts, taken := 0, [];
      assert Exec(clients.Length, []) == Some(Snapshot());
      PossibleInAll(clients.Length, schedule);
      hide Exec, Next, Possible, Enabled, Sum;
      for j := 0 to |schedule|
        invariant Exec(clients.Length, taken) == Some(Snapshot())
        invariant attempts == |won| + |lost| && taken == Possible(clients.Length, schedule[..j])
      {
        PossibleAt(clients.Length, schedule, j);
        var finished := TakeTurn(schedule[j], taken);
        taken := Possible(clients.Length, schedule[..j + 1]);
        if finished { attempts := attempts + 1; }
      }
      decrement := TotalDecrement();
      BalancesConserved(clients.Length, taken);
      FinishedBound(clients.Length, taken);
    }

    /** A scheduled statement, if its client is at it; `taken` is the run so far. */
    method TakeTurn(a: Action, ghost taken: seq<Action>) returns (finished: bool)
      requires Exec(clients.Length, taken) == Some(Snapshot())
      modifies this, rows, clients
      ensures Exec(clients.Length, taken + (if Enabled(old(Snapshot()), a) then [a] else [])) == Some(Snapshot())
      ensures |won| + |lost| == |old(won)| + |old(lost)| + (if finished then 1 else 0)
    {
      finished := false;
      assert taken + [] == taken;
      if a.Read? && a.c < clients.Length && clients[a.c].Ready? {
        Extend(clients.Length, taken, a);
        hide Exec;
        Select(a.c, a.id);
      } else if a.Update? && a.c < clients.Length && clients[a.c].Thinking? {
        Extend(clients.Length, taken, a);
        hide Exec;
        var affected := UpdateRow(a.c);
        finished := true;
      }
    }
  }
}
