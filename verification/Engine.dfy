/**
 The two engines as users of the connection pool. A goroutine-engine session borrows a connection, copies,
 and gives it back; an epoll-engine session borrows one and, however it ends, never gives it back.
 */
module Engine {
  import opened Wrappers
  import opened Sums
  import opened ConnPool

  // ---------- the goroutine engine ----------

  datatype Session = Waiting | Serving(conn: Conn) | Over

  datatype State = State(capacity: nat, pool: seq<Conn>, closed: seq<Conn>, sessions: seq<Session>)

  /** Serve starts a session; the session gets its connection; its copy ends and the deferred Return runs. */
  datatype Action = Serve | Borrow(i: nat) | Finish(i: nat)

  function Init(conns: seq<Conn>): State
  {
    State(|conns|, conns, [], [])
  }

  predicate Enabled(s: State, a: Action)
  {
    match a
    case Serve => true
    case Borrow(i) => i < |s.sessions| && s.sessions[i].Waiting? && s.pool != []
    case Finish(i) => i < |s.sessions| && s.sessions[i].Serving?
  }

  function Next(s: State, a: Action): State
    requires Enabled(s, a)
  {
    match a
    case Serve => s.(sessions := s.sessions + [Waiting])
    case Borrow(i) => s.(pool := s.pool[1..], sessions := s.sessions[i := Serving(s.pool[0])])
    case Finish(i) =>
      var conn := s.sessions[i].conn;
      if Room(s.capacity, s.pool) then s.(pool := s.pool + [conn], sessions := s.sessions[i := Over])
      else s.(closed := s.closed + [conn], sessions := s.sessions[i := Over])
  }

  function Exec(conns: seq<Conn>, acts: seq<Action>): Option<State>
  {
    if acts == [] then Some(Init(conns))
    else
      match Exec(conns, acts[..|acts| - 1])
      case None => None
      case Some(s) => if Enabled(s, acts[|acts| - 1]) then Some(Next(s, acts[|acts| - 1])) else None
  }

  function Borrowing(x: Session): int
  {
    if x.Serving? then 1 else 0
  }

  function Holding(conn: Conn): Session -> int
  {
    (x: Session) => if x == Serving(conn) then 1 else 0
  }

  /** Connection c is in the pool and with sessions as often as it was dialled. */
  ghost predicate Traced(conns: seq<Conn>, s: State, c: Conn)
  {
    multiset(s.pool)[c] + Sum(s.sessions, Holding(c)) == multiset(conns)[c]
  }

  /** Pooled and borrowed connections make up the pool's size, and none was closed. */
  ghost predicate Inv(conns: seq<Conn>, s: State)
  {
    && s.capacity == |conns| && s.closed == []
    && |s.pool| + Sum(s.sessions, Borrowing) == s.capacity
    && forall c :: Traced(conns, s, c)
  }

  lemma CapacityStep(conns: seq<Conn>, s: State, a: Action)
    requires Inv(conns, s) && Enabled(s, a)
    ensures var s' := Next(s, a);
            s'.capacity == |conns| && s'.closed == [] && |s'.pool| + Sum(s'.sessions, Borrowing) == s'.capacity
  {
    hide Traced;
    if a.Serve? {
      assert (s.sessions + [Waiting])[..|s.sessions|] == s.sessions;
    } else {
      SumNonNegative(s.sessions, Borrowing);
      SumAtLeast(s.sessions, Borrowing, a.i);
      SumUpdate(s.sessions, a.i, Next(s, a).sessions[a.i], Borrowing);
    }
  }

  lemma TracedStep(conns: seq<Conn>, s: State, a: Action, c: Conn)
    requires Traced(conns, s, c) && Enabled(s, a) && Next(s, a).closed == s.closed
    ensures Traced(conns, Next(s, a), c)
  {
    match a
    case Serve =>
      assert (s.sessions + [Waiting])[..|s.sessions|] == s.sessions;
    case Borrow(i) =>
      assert s.pool == [s.pool[0]] + s.pool[1..];
      SumUpdate(s.sessions, i, Serving(s.pool[0]), Holding(c));
    case Finish(i) =>
      assert Next(s, a).pool == s.pool + [s.sessions[i].conn] by {
        assert |s.closed + [s.sessions[i].conn]| > |s.closed|;
      }
      SumUpdate(s.sessions, i, Over, Holding(c));
  }

  lemma NextInv(conns: seq<Conn>, s: State, a: Action)
    requires Inv(conns, s) && Enabled(s, a)
    ensures Inv(conns, Next(s, a))
  {
    CapacityStep(conns, s, a);
    hide Next, Traced;
    forall c ensures Traced(conns, Next(s, a), c) { TracedStep(conns, s, a, c); }
  }

  lemma {:induction false} ReachableInv(conns: seq<Conn>, acts: seq<Action>)
    requires Exec(conns, acts).Some?
    ensures Inv(conns, Exec(conns, acts).value)
    decreases |acts|
  {
    if acts == [] {
    } else {
      ReachableInv(conns, acts[..|acts| - 1]);
      NextInv(conns, Exec(conns, acts[..|acts| - 1]).value, acts[|acts| - 1]);
    }
  }

  ghost predicate Distinct(conns: seq<Conn>)
  {
    forall j, k :: 0 <= j < k < |conns| ==> conns[j] != conns[k]
  }

  lemma {:induction false} DistinctOnce(conns: seq<Conn>, c: Conn)
    requires Distinct(conns)
    ensures multiset(conns)[c] == if c in conns then 1 else 0
    decreases |conns|
  {
    if conns == [] {
    } else {
      var front, last := conns[..|conns| - 1], conns[|conns| - 1];
      DistinctOnce(front, c);
      assert conns == front + [last];
      assert c == last ==> c !in front;
    }
  }

  /**
   Over any run: the pool never overflows, so no returned connection is closed; and every connection that was
   dialled is either in the pool or with exactly one session.
   */
  lemma EachInOnePlace(conns: seq<Conn>, acts: seq<Action>, c: Conn)
    requires Exec(conns, acts).Some? && Distinct(conns) && c in conns
    ensures var s := Exec(conns, acts).value;
            && s.closed == []
            && |s.pool| + Sum(s.sessions, Borrowing) == |conns|
            && (c in s.pool <==> forall i :: 0 <= i < |s.sessions| ==> s.sessions[i] != Serving(c))
            && (forall i, j :: 0 <= i < j < |s.sessions| && s.sessions[i] == Serving(c) ==> s.sessions[j] != Serving(c))
            && multiset(s.pool)[c] <= 1
  {
    ReachableInv(conns, acts);
    DistinctOnce(conns, c);
    var s := Exec(conns, acts).value;
    assert Traced(conns, s, c);
    SumNonNegative(s.sessions, Holding(c));
    SumZero(s.sessions, Holding(c));
    forall i, j | 0 <= i < j < |s.sessions| && s.sessions[i] == Serving(c) ensures s.sessions[j] != Serving(c) {
      if s.sessions[j] == Serving(c) { TwoHolders(s.sessions, c, i, j); }
    }
  }

  lemma TwoHolders(sessions: seq<Session>, c: Conn, i: nat, j: nat)
    requires i < j < |sessions| && sessions[i] == Serving(c) && sessions[j] == Serving(c)
    ensures Sum(sessions, Holding(c)) >= 2
  {
    SumAppend(sessions[..j], sessions[j..], Holding(c));
    assert sessions == sessions[..j] + sessions[j..];
    SumAtLeast(sessions[..j], Holding(c), i);
    SumAtLeast(sessions[j..], Holding(c), 0);
  }

  lemma BorrowersIff(sessions: seq<Session>)
    ensures Sum(sessions, Borrowing) >= 0
    ensures Sum(sessions, Borrowing) > 0 <==> exists j: nat :: j < |sessions| && sessions[j].Serving?
  {
    SumNonNegative(sessions, Borrowing);
    SumZero(sessions, Borrowing);
    if j: nat :| j < |sessions| && Borrowing(sessions[j]) != 0 {
      assert sessions[j].Serving?;
    }
    if j: nat :| j < |sessions| && sessions[j].Serving? {
      assert Borrowing(sessions[j]) != 0;
    }
  }

  /** A session that waits is held up only while others serve, unless there are no connections at all. */
  lemma WaitingIsServedIff(conns: seq<Conn>, acts: seq<Action>, i: nat)
    requires Exec(conns, acts).Some? && i < |Exec(conns, acts).value.sessions|
    requires Exec(conns, acts).value.sessions[i].Waiting?
    ensures var s := Exec(conns, acts).value;
            conns != [] <==> (Enabled(s, Borrow(i)) || exists j: nat :: j < |s.sessions| && Enabled(s, Finish(j)))
  {
    ReachableInv(conns, acts);
    BorrowersIff(Exec(conns, acts).value.sessions);
    hide Sum, Exec;
    var s := Exec(conns, acts).value;
    if j: nat :| j < |s.sessions| && s.sessions[j].Serving? {
      assert Enabled(s, Finish(j));
    }
  }

  lemma Extend(conns: seq<Conn>, acts: seq<Action>, a: Action)
    requires Exec(conns, acts).Some? && Enabled(Exec(conns, acts).value, a)
    ensures Exec(conns, acts + [a]) == Some(Next(Exec(conns, acts).value, a))
  {
    assert (acts + [a])[..|acts|] == acts;
  }

  /** The goroutine engine serves any number of clients, with any number of connections but none. */
  lemma {:induction false} ServesAll(conns: seq<Conn>, m: nat) returns (acts: seq<Action>)
    requires conns != []
    ensures Exec(conns, acts).Some?
    ensures var s := Exec(conns, acts).value;
            |s.sessions| == m && |s.pool| == |conns| && forall i :: 0 <= i < m ==> s.sessions[i].Over?
  {
    acts := [];
    if m == 0 {
    } else {
      var before := ServesAll(conns, m - 1);
      ReachableInv(conns, before);
      Extend(conns, before, Serve);
      Extend(conns, before + [Serve], Borrow(m - 1));
      Extend(conns, before + [Serve] + [Borrow(m - 1)], Finish(m - 1));
      acts := before + [Serve] + [Borrow(m - 1)] + [Finish(m - 1)];
    }
  }

  // ---------- the epoll engine ----------

  /** Past Get, a session may fail or be registered, and a registered one is closed some day. */
  datatype Proxied = Queued | Borrowed(conn: Conn) | Registered(conn: Conn) | Failed | Closed

  datatype EpollState = EpollState(pool: seq<Conn>, sessions: seq<Proxied>)

  datatype EpollAction = Arrive | Take(i: nat) | Register(i: nat) | Fail(i: nat) | Close(i: nat)

  predicate EpollEnabled(s: EpollState, a: EpollAction)
  {
    match a
    case Arrive => true
    case Take(i) => i < |s.sessions| && s.sessions[i].Queued? && s.pool != []
    case Register(i) => i < |s.sessions| && s.sessions[i].Borrowed?
    case Fail(i) => i < |s.sessions| && s.sessions[i].Borrowed?
    case Close(i) => i < |s.sessions| && s.sessions[i].Registered?
  }

  function EpollNext(s: EpollState, a: EpollAction): EpollState
    requires EpollEnabled(s, a)
  {
    match a
    case Arrive => s.(sessions := s.sessions + [Queued])
    case Take(i) => EpollState(s.pool[1..], s.sessions[i := Borrowed(s.pool[0])])
    case Register(i) => s.(sessions := s.sessions[i := Registered(s.sessions[i].conn)])
    case Fail(i) => s.(sessions := s.sessions[i := Failed])
    case Close(i) => s.(sessions := s.sessions[i := Closed])
  }

  function EpollExec(conns: seq<Conn>, acts: seq<EpollAction>): Option<EpollState>
  {
    if acts == [] then Some(EpollState(conns, []))
    else
      match EpollExec(conns, acts[..|acts| - 1])
      case None => None
      case Some(s) => if EpollEnabled(s, acts[|acts| - 1]) then Some(EpollNext(s, acts[|acts| - 1])) else None
  }

  lemma EpollExtend(conns: seq<Conn>, acts: seq<EpollAction>, a: EpollAction)
    requires EpollExec(conns, acts).Some? && EpollEnabled(EpollExec(conns, acts).value, a)
    ensures EpollExec(conns, acts + [a]) == Some(EpollNext(EpollExec(conns, acts).value, a))
  {
    assert (acts + [a])[..|acts|] == acts;
  }

  function PastGet(x: Proxied): int
  {
    if x.Queued? then 0 else 1
  }

  lemma {:induction false} EpollInv(conns: seq<Conn>, acts: seq<EpollAction>)
    requires EpollExec(conns, acts).Some?
    ensures var s := EpollExec(conns, acts).value; |s.pool| + Sum(s.sessions, PastGet) == |conns|
    decreases |acts|
  {
    if acts == [] {
    } else {
      var s, a := EpollExec(conns, acts[..|acts| - 1]).value, acts[|acts| - 1];
      EpollInv(conns, acts[..|acts| - 1]);
      if a.Arrive? {
        assert (s.sessions + [Queued])[..|s.sessions|] == s.sessions;
      } else {
        SumUpdate(s.sessions, a.i, EpollNext(s, a).sessions[a.i], PastGet);
      }
    }
  }

  /**
   Under the epoll engine at most as many sessions as there are connections ever get past Get, in any run,
   closed sessions included; and one that waits can get past exactly while fewer have.
   */
  lemma EpollServesAtMost(conns: seq<Conn>, acts: seq<EpollAction>)
    requires EpollExec(conns, acts).Some?
    ensures var s := EpollExec(conns, acts).value;
            && Sum(s.sessions, PastGet) <= |conns|
            && forall i :: 0 <= i < |s.sessions| && s.sessions[i].Queued? ==>
                 (EpollEnabled(s, Take(i)) <==> Sum(s.sessions, PastGet) < |conns|)
  {
    EpollInv(conns, acts);
  }

  /** Once they all have, whoever still waits or arrives later waits for ever. */
  lemma {:induction false} EpollStarves(conns: seq<Conn>, acts: seq<EpollAction>, more: seq<EpollAction>)
    requires EpollExec(conns, acts).Some? && EpollExec(conns, acts + more).Some?
    requires Sum(EpollExec(conns, acts).value.sessions, PastGet) == |conns|
    ensures var s, t := EpollExec(conns, acts).value, EpollExec(conns, acts + more).value;
            && |s.sessions| <= |t.sessions| && t.pool == []
            && forall i :: 0 <= i < |t.sessions| && (i < |s.sessions| ==> s.sessions[i].Queued?) ==>
                 t.sessions[i].Queued?
    decreases |more|
  {
    EpollInv(conns, acts);
    if more == [] {
      assert acts + more == acts;
    } else {
      var front := more[..|more| - 1];
      assert (acts + more)[..|acts + more| - 1] == acts + front;
      EpollStarves(conns, acts, front);
    }
  }

  // ---------- schedules ----------

  /** The actions of a schedule that are possible in their turn; the others do nothing. */
  function Possible(conns: seq<Conn>, schedule: seq<Action>): (taken: seq<Action>)
    ensures Exec(conns, taken).Some?
  {
    if schedule == [] then []
    else
      var before, a := Possible(conns, schedule[..|schedule| - 1]), schedule[|schedule| - 1];
      if Enabled(Exec(conns, before).value, a) then
        assert (before + [a])[..|before|] == before;
        before + [a]
      else before
  }

  /** Whatever is possible in the state reached so far is taken. */
  lemma PossibleStep(conns: seq<Conn>, schedule: seq<Action>, a: Action)
    ensures var before := Possible(conns, schedule);
            Possible(conns, schedule + [a]) == before + (if Enabled(Exec(conns, before).value, a) then [a] else [])
  {
    hide Enabled, Next;
    assert (schedule + [a])[..|schedule|] == schedule;
    assert Possible(conns, schedule) + [] == Possible(conns, schedule);
  }

  /** So a schedule that is a run is taken as it is. */
  lemma {:induction false} RunsArePossible(conns: seq<Conn>, schedule: seq<Action>)
    requires Exec(conns, schedule).Some?
    ensures Possible(conns, schedule) == schedule
    decreases |schedule|
  {
    if schedule == [] {
    } else {
      var front, a := schedule[..|schedule| - 1], schedule[|schedule| - 1];
      assert Exec(conns, front).Some? && Enabled(Exec(conns, front).value, a);
      assert schedule == front + [a];
      hide *;
      RunsArePossible(conns, front);
      PossibleStep(conns, front, a);
    }
  }

  lemma PossibleAt(conns: seq<Conn>, schedule: seq<Action>, j: nat)
    requires j < |schedule|
    ensures var before := Possible(conns, schedule[..j]);
            Possible(conns, schedule[..j + 1])
            == before + (if Enabled(Exec(conns, before).value, schedule[j]) then [schedule[j]] else [])
  {
    hide *;
    assert schedule[..j + 1] == schedule[..j] + [schedule[j]];
    PossibleStep(conns, schedule[..j], schedule[j]);
  }

  lemma PossibleInAll(conns: seq<Conn>, schedule: seq<Action>)
    ensures Possible(conns, schedule[..0]) == []
    ensures Possible(conns, schedule[..|schedule|]) == Possible(conns, schedule)
    ensures Exec(conns, schedule).Some? ==> Possible(conns, schedule) == schedule
  {
    assert schedule[..|schedule|] == schedule && schedule[..0] == [];
    if Exec(conns, schedule).Some? { RunsArePossible(conns, schedule); }
    hide Exec;
  }

  // ---------- sessions over a shared pool ----------

  class Proxy {
    const backend: Pool
    var sessions: seq<Session>

    ghost function Snapshot(): State
      reads this, backend
    {
      State(backend.capacity, backend.pool, backend.closed, sessions)
    }

    constructor (backend: Pool)
      ensures this.backend == backend && sessions == []
    {
      this.backend := backend;
      sessions := [];
    }

    predicate CanTake(a: Action)
      reads this, backend
      ensures CanTake(a) == Enabled(Snapshot(), a)
    {
      match a
      case Serve => true
      case Borrow(i) => i < |sessions| && sessions[i].Waiting? && backend.pool != []
      case Finish(i) => i < |sessions| && sessions[i].Serving?
    }

    method Take(a: Action)
      requires CanTake(a) && backend.Valid()
      modifies this, backend
      ensures backend.Valid() && Snapshot() == Next(old(Snapshot()), a)
    {
      match a
      case Serve =>
        sessions := sessions + [Waiting];
      case Borrow(i) =>
        var conn := backend.Get();
        sessions := sessions[i := Serving(conn)];
      case Finish(i) =>
        backend.Return(sessions[i].conn);
        sessions := sessions[i := Over];
    }

    /** Any schedule of sessions: no connection is ever closed as excess, and none goes missing. */
    method Run(schedule: seq<Action>) returns (ghost taken: seq<Action>)
      requires backend.Valid() && Snapshot() == Init(backend.pool)
      modifies this, backend
      ensures Exec(old(backend.pool), taken) == Some(Snapshot())
      ensures backend.closed == [] && |backend.pool| + Sum(sessions, Borrowing) == backend.capacity
      ensures taken == Possible(old(backend.pool), schedule)
      ensures Exec(old(backend.pool), schedule).Some? ==> taken == schedule
    {
      ghost var conns := backend.pool;
      taken := [];
      assert Exec(conns, []) == Some(Snapshot());
      PossibleInAll(conns, schedule);
      hide Exec, Next, Possible, Enabled, Sum;
      for j := 0 to |schedule|
        invariant backend.Valid() && Exec(conns, taken) == Some(Snapshot()) && taken == Possible(conns, schedule[..j])
      {
        PossibleAt(conns, schedule, j);
        TakeTurn(schedule[j], conns, taken);
        taken := Possible(conns, schedule[..j + 1]);
      }
      ReachableInv(conns, taken);
    }

    /** A scheduled step, if it does not have to wait; `taken` is the run so far. */
    method TakeTurn(a: Action, ghost conns: seq<Conn>, ghost taken: seq<Action>)
      requires backend.Valid() && Exec(conns, taken) == Some(Snapshot())
      modifies this, backend
      ensures backend.Valid()
      ensures Exec(conns, taken + (if Enabled(old(Snapshot()), a) then [a] else [])) == Some(Snapshot())
    {
      assert taken + [] == taken;
      if CanTake(a) {
        Extend(conns, taken, a);
        Take(a);
      }
    }
  }

  datatype ProxyConn = ProxyConn(clientFd: int, backendFd: int)

  /** A client to serve, with what its side of Serve meets; or an event on a descriptor. */
  datatype Happening =
    | Client(clientFd: Result<int, string>)
    | Event(fd: int, readable: bool, forwarded: bool)

  function Arriving(h: Happening): int
  {
    if h.Client? then 1 else 0
  }

  lemma ArrivedBy(schedule: seq<Happening>, n: nat)
    requires n < |schedule|
    ensures Sum(schedule[..n + 1], Arriving) == Sum(schedule[..n], Arriving) + Arriving(schedule[n])
  {
    assert schedule[..n + 1][..n] == schedule[..n];
  }

  /** Of the first n, event i told of the end of what descriptor fd belongs to, and no client has come since. */
  ghost predicate ClosedSince(schedule: seq<Happening>, n: nat, i: nat, fd: int)
    requires n <= |schedule|
  {
    i < n && schedule[i] == Event(fd, true, false) && forall k :: i < k < n ==> schedule[k].Event?
  }

  /** No descriptor of those is entered. */
  ghost predicate Forgotten(schedule: seq<Happening>, n: nat, fds: set<int>)
    requires n <= |schedule|
  {
    forall i: nat, fd :: ClosedSince(schedule, n, i, fd) ==> fd !in fds
  }

  lemma ForgottenStep(schedule: seq<Happening>, n: nat, fds: set<int>, fds': set<int>)
    requires n < |schedule| && Forgotten(schedule, n, fds)
    requires var h := schedule[n]; h.Event? ==> fds' <= fds && (h.readable && !h.forwarded ==> h.fd !in fds')
    ensures Forgotten(schedule, n + 1, fds')
  {
    var m := n + 1;
    forall i: nat, fd | ClosedSince(schedule, m, i, fd) ensures fd !in fds' {
      assert schedule[n].Event?;
      if i < n {
        assert ClosedSince(schedule, n, i, fd);
      }
    }
  }

  class EpollEngine {
    var conns: map<int, ProxyConn>
    ghost var sessions: seq<Proxied>
    ghost var owner: map<ProxyConn, nat>

    constructor ()
      ensures conns == map[] && sessions == [] && Linked()
    {
      conns, sessions, owner := map[], [], map[];
    }

    /** What is entered under a descriptor is one of its own, and belongs to a registered session. */
    ghost predicate Linked()
      reads this
    {
      && (forall fd :: fd in conns ==>
            && conns[fd] in owner && (fd == conns[fd].clientFd || fd == conns[fd].backendFd)
            && owner[conns[fd]] < |sessions| && sessions[owner[conns[fd]]].Registered?)
      && (forall p :: p in owner ==> owner[p] < |sessions|)
      && (forall p, q :: p in owner && q in owner && p != q ==> owner[p] != owner[q])
    }

    ghost function Snapshot(backend: Pool): EpollState
      reads this, backend
    {
      EpollState(backend.pool, sessions)
    }

    /**
     Once past Get the connection is gone from the pool, whatever happens then. Both descriptors are entered
     as soon as there are both, so a failing EpollCtl returns an error and leaves them entered.
     */
    method Serve(clientFd: Result<int, string>, backend: Pool, fdOf: Conn -> Result<int, string>,
                 ctl: int -> Result<(), string>)
      returns (r: Result<ProxyConn, string>)
      requires Linked() && backend.Valid() && backend.pool != []
      modifies this, backend
      ensures Linked() && backend.Valid() && backend.pool == old(backend.pool)[1..]
      ensures var conn := old(backend.pool)[0];
              if clientFd.Err? || fdOf(conn).Err? then
                && r == Err(if clientFd.Err? then clientFd.error else fdOf(conn).error)
                && conns == old(conns) && sessions == old(sessions) + [Failed]
              else
                var pc := ProxyConn(clientFd.value, fdOf(conn).value);
                && conns == old(conns)[pc.clientFd := pc][pc.backendFd := pc]
                && sessions == old(sessions) + [Registered(conn)]
                && r == (if ctl(pc.clientFd).Err? then Err(ctl(pc.clientFd).error)
                         else if ctl(pc.backendFd).Err? then Err(ctl(pc.backendFd).error)
                         else Ok(pc))
    {
      var backendConn := backend.Get();
      if clientFd.Err? {
        sessions := sessions + [Failed];
        return Err(clientFd.error);
      }
      var backendFd := fdOf(backendConn);
      if backendFd.Err? {
        sessions := sessions + [Failed];
        return Err(backendFd.error);
      }
      var pc := ProxyConn(clientFd.value, backendFd.value);
      owner := owner[pc := |sessions|];
      sessions := sessions + [Registered(backendConn)];
      conns := conns[pc.clientFd := pc];
      conns := conns[pc.backendFd := pc];
      var added := ctl(pc.clientFd);
      if added.Err? {
        return Err(added.error);
      }
      added := ctl(pc.backendFd);
      if added.Err? {
        return Err(added.error);
      }
      return Ok(pc);
    }

    /** Both descriptors are forgotten; the pool is not told. */
    method CloseConn(pc: ProxyConn)
      requires Linked() && exists fd :: fd in conns && conns[fd] == pc
      modifies this
      ensures Linked() && owner == old(owner)
      ensures conns == old(conns) - {pc.clientFd, pc.backendFd}
      ensures sessions == old(sessions)[owner[pc] := Closed]
    {
      conns := conns - {pc.clientFd};
      conns := conns - {pc.backendFd};
      sessions := sessions[owner[pc] := Closed];
    }

    /** An event on a descriptor that is not entered is ignored; a failed or empty read or a failed write closes. */
    method HandleEvent(fd: int, readable: bool, forwarded: bool)
      requires Linked()
      modifies this
      ensures Linked()
      ensures if fd in old(conns) && readable && !forwarded then
                && old(sessions)[old(owner[conns[fd]])].Registered?
                && sessions == old(sessions)[old(owner[conns[fd]]) := Closed]
                && conns == old(conns) - {old(conns)[fd].clientFd, old(conns)[fd].backendFd}
              else conns == old(conns) && sessions == old(sessions)
    {
      if fd !in conns {
        return;
      }
      if readable {
        if !forwarded {
          CloseConn(conns[fd]);
        }
      }
    }

    /** Clients one after another, each closed before the next: Get blocks after as many as the pool held. */
    method ServeInTurn(clients: seq<Result<int, string>>, backend: Pool, fdOf: Conn -> Result<int, string>,
                       ctl: int -> Result<(), string>)
      returns (served: nat)
      requires Linked() && backend.Valid()
      modifies this, backend
      ensures served == if |clients| < |old(backend.pool)| then |clients| else |old(backend.pool)|
      ensures |backend.pool| == |old(backend.pool)| - served
      ensures (forall fd :: ctl(fd).Ok?) ==> conns.Keys <= old(conns).Keys
    {
      served := 0;
      while served < |clients| && backend.pool != []
        invariant Linked() && backend.Valid() && served <= |clients|
        invariant |backend.pool| == |old(backend.pool)| - served
        invariant (forall fd :: ctl(fd).Ok?) ==> conns.Keys <= old(conns).Keys
      {
        var r := Serve(clients[served], backend, fdOf, ctl);
        if r.Ok? {
          assert r.value.backendFd in conns && conns[r.value.backendFd] == r.value;
          CloseConn(r.value);
        }
        served := served + 1;
      }
    }

    /**
     Clients and events in any order; a client that finds the pool empty waits in Get. What happens is a run
     of the step system, so at most as many clients as there are connections get past Get.
     */
    method Run(schedule: seq<Happening>, backend: Pool, fdOf: Conn -> Result<int, string>,
               ctl: int -> Result<(), string>)
      returns (served: nat, ghost taken: seq<EpollAction>)
      requires Linked() && sessions == [] && backend.Valid()
      modifies this, backend
      ensures EpollExec(old(backend.pool), taken) == Some(Snapshot(backend))
      ensures served == Sum(sessions, PastGet) <= |old(backend.pool)|
      ensures |backend.pool| == |old(backend.pool)| - served
      ensures |sessions| == Sum(schedule, Arriving)
      ensures served == if |sessions| < |old(backend.pool)| then |sessions| else |old(backend.pool)|
      ensures Forgotten(schedule, |schedule|, conns.Keys)
    {
      ghost var first := backend.pool;
      served, taken := 0, [];
      assert EpollExec(first, taken) == Some(Snapshot(backend)) && schedule[..0] == [];
      hide EpollExec, Sum, Forgotten, Arriving;
      for j := 0 to |schedule|
        invariant Linked() && backend.Valid() && EpollExec(first, taken) == Some(Snapshot(backend))
        invariant served == Sum(sessions, PastGet) && |backend.pool| == |first| - served
        invariant |sessions| == Sum(schedule[..j], Arriving)
        invariant served == if |sessions| < |first| then |sessions| else |first|
        invariant Forgotten(schedule, j, conns.Keys)
      {
        ArrivedBy(schedule, j);
        ghost var before := conns.Keys;
        var got;
        got, taken := Happen(schedule[j], backend, fdOf, ctl, first, taken);
        served := served + got;
        ForgottenStep(schedule, j, before, conns.Keys);
      }
      assert schedule[..|schedule|] == schedule;
      EpollInv(first, taken);
    }

    /** A client comes or an event is reported. */
    method Happen(h: Happening, backend: Pool, fdOf: Conn -> Result<int, string>, ctl: int -> Result<(), string>,
                  ghost first: seq<Conn>, ghost run: seq<EpollAction>)
      returns (served: nat, ghost taken: seq<EpollAction>)
      requires Linked() && backend.Valid() && EpollExec(first, run) == Some(Snapshot(backend))
      modifies this, backend
      ensures Linked() && backend.Valid() && EpollExec(first, taken) == Some(Snapshot(backend))
      ensures |sessions| == |old(sessions)| + Arriving(h)
      ensures served == if h.Client? && old(backend.pool) != [] then 1 else 0
      ensures |backend.pool| == |old(backend.pool)| - served
      ensures Sum(sessions, PastGet) == Sum(old(sessions), PastGet) + served
      ensures h.Event? ==> conns.Keys <= old(conns).Keys && (h.readable && !h.forwarded ==> h.fd !in conns)
    {
      match h
      case Client(clientFd) =>
        served := if backend.pool != [] then 1 else 0;
        taken := ServeOne(clientFd, backend, fdOf, ctl, first, run);
      case Event(fd, readable, forwarded) =>
        served, taken := 0, run;
        ghost var before := sessions;
        ghost var pc := if fd in conns then owner[conns[fd]] else 0;
        var closes := fd in conns && readable && !forwarded;
        HandleEvent(fd, readable, forwarded);
        if closes {
          EpollExtend(first, run, Close(pc));
          taken := run + [Close(pc)];
          SumUpdate(before, pc, Closed, PastGet);
        }
    }

    method ServeOne(clientFd: Result<int, string>, backend: Pool, fdOf: Conn -> Result<int, string>,
                    ctl: int -> Result<(), string>, ghost first: seq<Conn>, ghost run: seq<EpollAction>)
      returns (ghost taken: seq<EpollAction>)
      requires Linked() && backend.Valid() && EpollExec(first, run) == Some(Snapshot(backend))
      modifies this, backend
      ensures Linked() && backend.Valid() && EpollExec(first, taken) == Some(Snapshot(backend))
      ensures Sum(sessions, PastGet) == Sum(old(sessions), PastGet) + if old(backend.pool) != [] then 1 else 0
      ensures |sessions| == |old(sessions)| + 1
      ensures backend.pool == if old(backend.pool) != [] then old(backend.pool)[1..] else []
    {
      hide EpollExec, Sum;
      ghost var before := sessions;
      SessionAdded(before, Queued);
      if backend.pool == [] {
        EpollExtend(first, run, Arrive);
        taken := run + [Arrive];
        sessions := sessions + [Queued];
      } else {
        ghost var conn := backend.pool[0];
        taken := ServedRun(first, run, Snapshot(backend), clientFd.Ok? && fdOf(conn).Ok?);
        var _ := Serve(clientFd, backend, fdOf, ctl);
        SessionAdded(before, sessions[|before|]);
      }
    }
  }

  lemma SessionAdded(before: seq<Proxied>, x: Proxied)
    ensures Sum(before + [x], PastGet) == Sum(before, PastGet) + PastGet(x)
  {
    assert (before + [x])[..|before|] == before;
  }

  /** A session that gets its connection arrives, gets past Get, and is then registered or fails. */
  lemma ServedRun(first: seq<Conn>, run: seq<EpollAction>, s: EpollState, ok: bool) returns (taken: seq<EpollAction>)
    requires EpollExec(first, run) == Some(s) && s.pool != []
    ensures EpollExec(first, taken)
            == Some(EpollState(s.pool[1..], s.sessions + [if ok then Registered(s.pool[0]) else Failed]))
  {
    var i, conn := |s.sessions|, s.pool[0];
    EpollExtend(first, run, Arrive);
    EpollExtend(first, run + [Arrive], EpollAction.Take(i));
    assert (s.sessions + [Queued])[i := Borrowed(conn)] == s.sessions + [Borrowed(conn)];
    var end := if ok then Register(i) else Fail(i);
    EpollExtend(first, run + [Arrive] + [EpollAction.Take(i)], end);
    taken := run + [Arrive] + [EpollAction.Take(i)] + [end];
    assert (s.sessions + [Borrowed(conn)])[i := if ok then Registered(conn) else Failed]
        == s.sessions + [if ok then Registered(conn) else Failed];
  }
}
