/** Every run of a chain makes progress: it cannot get stuck early, and it cannot go on for ever. */
module ChainProgress {
  import opened Wrappers
  import opened Chain
  import Stage
  import Sums

  /** Nothing the pipeline itself could do is enabled; only the source or a cancellation could act. */
  ghost predicate Stuck<T(!new)>(cfg: Config<T>, s: State<T>)
    requires |s.stages| == |cfg.sizes| == |cfg.fns|
  {
    forall a :: Enabled(cfg, s, a) ==> a.Offer? || a.CloseSource? || a.Cancel?
  }

  // ---------- what a worker waits for ----------

  /** The goroutine behind a step of stage j's worker w. */
  predicate Steps<T>(a: Action<T>, j: nat, w: nat)
  {
    match a
    case Receive(i, v) => i == j && v == w
    case Work(i, v) => i == j && v == w
    case Send(i, v) => i == j && v == w
    case ExitClosed(i, v) => i == j && v == w
    case ExitCancelled(i, v) => i == j && v == w
    case Drop(i, v) => i == j && v == w
    case _ => false
  }

  /**
   A worker that has not returned waits in two places only, and for no other worker: in the first select while
   its open input is empty, in the second while the output is full; and not once the run is cancelled.
   */
  lemma WaitsOnlyForChannels<T(!new)>(cfg: Config<T>, s: State<T>, j: nat, w: nat)
    requires |s.stages| == |cfg.sizes| == |cfg.fns| && WorkerIs(s, j, w)
    ensures (exists a :: Steps(a, j, w) && Enabled(cfg, s, a))
            <==> match s.stages[j].workers[w]
                 case Ready => s.cancelled || Buffer(s, j) != [] || ChannelClosed(s, j)
                 case Busy(_) => true
                 case Sending(_) => s.cancelled || |s.stages[j].out| < cfg.sizes[j].buffer
                 case Done => false
  {
    var worker := s.stages[j].workers[w];
    var a: Action<T> :=
      match worker
      case Ready =>
        if Buffer(s, j) != [] then Receive(j, w) else if ChannelClosed(s, j) then ExitClosed(j, w)
        else ExitCancelled(j, w)
      case Sending(_) => if |s.stages[j].out| < cfg.sizes[j].buffer then Send(j, w) else Drop(j, w)
      case _ => Work(j, w);
    assert Steps(a, j, w);
  }

  // ---------- never stuck early ----------

  /** A stuck stage with room in its output has nobody at work and, unless cancelled, nothing to read. */
  lemma StuckStageIdle<T(!new)>(cfg: Config<T>, s: State<T>, j: nat)
    requires Inv(cfg, s) && Stuck(cfg, s) && !s.cancelled
    requires j < |s.stages| && s.stages[j].out == []
    ensures Buffer(s, j) == []
    ensures forall w :: 0 <= w < |s.stages[j].workers| ==>
              s.stages[j].workers[w].Ready? || s.stages[j].workers[w].Done?
  {
    hide Stage.CountInv, Stage.ResultInv, Fifo;
    assert StageOk(cfg, s, j) && Orderly(s, j);
    var ws := s.stages[j].workers;
    forall w | 0 <= w < |ws| ensures ws[w].Ready? || ws[w].Done? {
      assert !Enabled(cfg, s, Work(j, w));
      assert !Enabled(cfg, s, Send(j, w));
    }
    if ws[0].Ready? {
      assert !Enabled(cfg, s, Receive(j, 0));
    } else {
      assert AnyGone(s.stages[j]);
    }
  }

  lemma {:induction false} StuckAllIdle<T(!new)>(cfg: Config<T>, s: State<T>, j: nat)
    requires Inv(cfg, s) && Stuck(cfg, s) && !s.cancelled && j <= |s.stages|
    ensures Buffer(s, j) == []
    decreases |s.stages| - j
  {
    hide StageOk, Fifo, Orderly;
    if j == |s.stages| {
      assert !Enabled(cfg, s, Deliver);
    } else {
      StuckAllIdle(cfg, s, j + 1);
      StuckStageIdle(cfg, s, j);
    }
  }

  /** A stuck stage whose input is closed and empty has closed its output. */
  lemma StuckStageCloses<T(!new)>(cfg: Config<T>, s: State<T>, i: nat)
    requires Inv(cfg, s) && Stuck(cfg, s) && i < |s.stages| && ChannelClosed(s, i) && Buffer(s, i) == []
    requires forall w :: 0 <= w < |s.stages[i].workers| ==>
               s.stages[i].workers[w].Ready? || s.stages[i].workers[w].Done?
    ensures s.stages[i].closed
  {
    assert StageOk(cfg, s, i);
    var t := s.stages[i];
    assert Stage.CloseInv(cfg.sizes[i], t);
    Stage.ClosedMeansAllGone(cfg.sizes[i], t);
    hide Inv, StageOk, Stage.CloseInv, Stuck, ChannelClosed, Buffer;
    forall w | 0 <= w < |t.workers| ensures t.workers[w].Done? {
      if t.workers[w].Ready? { MayReturn(cfg, s, i, w); }
    }
    StuckMeans(cfg, s, Close(i));
  }

  lemma MayReturn<T(!new)>(cfg: Config<T>, s: State<T>, i: nat, w: nat)
    requires |s.stages| == |cfg.sizes| == |cfg.fns| && WorkerIs(s, i, w) && s.stages[i].workers[w].Ready?
    requires ChannelClosed(s, i) && Buffer(s, i) == []
    ensures !Stuck(cfg, s)
  {
    assert Enabled(cfg, s, ExitClosed(i, w));
  }

  lemma StuckMeans<T(!new)>(cfg: Config<T>, s: State<T>, a: Action<T>)
    requires |s.stages| == |cfg.sizes| == |cfg.fns| && Stuck(cfg, s) && !a.Offer? && !a.CloseSource? && !a.Cancel?
    ensures !Enabled(cfg, s, a)
  {
  }

  lemma {:induction false} StuckAllClosed<T(!new)>(cfg: Config<T>, s: State<T>, j: nat)
    requires Inv(cfg, s) && Stuck(cfg, s) && !s.cancelled && s.sourceClosed && j <= |s.stages|
    ensures ChannelClosed(s, j)
    decreases j
  {
    if j == 0 {
    } else {
      var i := j - 1;
      StuckAllClosed(cfg, s, i);
      StuckAllIdle(cfg, s, i);
      StuckAllIdle(cfg, s, j);
      StuckStageIdle(cfg, s, i);
      hide StageOk, Fifo, Orderly, Stuck;
      StuckStageCloses(cfg, s, i);
    }
  }

  /** A closed chain has nothing left to do. */
  lemma FinishedIsStuck<T(!new)>(cfg: Config<T>, s: State<T>)
    requires Inv(cfg, s) && !s.cancelled && Finished(s)
    ensures Stuck(cfg, s)
  {
    hide Stage.CountInv, Stage.ResultInv, Fifo;
    forall j | 0 <= j < |s.stages|
      ensures forall w :: 0 <= w < |s.stages[j].workers| ==> s.stages[j].workers[w].Done?
    {
      assert StageOk(cfg, s, j);
      Stage.ClosedMeansAllGone(cfg.sizes[j], s.stages[j]);
    }
  }

  /**
   Once the source has closed, an uncancelled chain is stuck exactly when it has finished: every stage
   closed, every result drained, whatever the schedule was.
   */
  lemma StuckIffFinished<T(!new)>(cfg: Config<T>, acts: seq<Action<T>>)
    requires cfg.Valid() && Exec(cfg, acts).Some?
    requires Exec(cfg, acts).value.sourceClosed && !Exec(cfg, acts).value.cancelled
    ensures Stuck(cfg, Exec(cfg, acts).value) <==> Finished(Exec(cfg, acts).value)
  {
    var s := Exec(cfg, acts).value;
    ReachableInv(cfg, acts);
    if Finished(s) { FinishedIsStuck(cfg, s); }
    if Stuck(cfg, s) {
      StuckAllIdle(cfg, s, |s.stages|);
      forall j | 0 <= j < |s.stages| ensures s.stages[j].closed {
        StuckAllClosed(cfg, s, j + 1);
      }
    }
  }

  /** What a stage can do with neither its source nor its consumer. */
  predicate Alone<T>(a: Action<T>, j: nat)
  {
    match a
    case Work(i, _) => i == j
    case ExitCancelled(i, _) => i == j
    case Drop(i, _) => i == j
    case Close(i) => i == j
    case _ => false
  }

  lemma OpenStageActs<T>(cfg: Config<T>, s: State<T>, j: nat) returns (a: Action<T>)
    requires |s.stages| == |cfg.sizes| == |cfg.fns| && j < |s.stages| && s.cancelled
    requires Stage.CloseInv(cfg.sizes[j], s.stages[j]) && !s.stages[j].closed
    ensures Alone(a, j) && Enabled(cfg, s, a)
  {
    var t := s.stages[j];
    Stage.ClosedMeansAllGone(cfg.sizes[j], t);
    hide Stage.CloseInv;
    if w :| 0 <= w < |t.workers| && !t.workers[w].Done? {
      a := if t.workers[w].Ready? then ExitCancelled(j, w)
           else if t.workers[w].Busy? then Work(j, w)
           else Drop(j, w);
    } else {
      a := Close(j);
    }
  }

  lemma ClosedStageRests<T>(cfg: Config<T>, s: State<T>, j: nat, a: Action<T>)
    requires |s.stages| == |cfg.sizes| == |cfg.fns| && j < |s.stages|
    requires Stage.CloseInv(cfg.sizes[j], s.stages[j]) && s.stages[j].closed && Alone(a, j)
    ensures !Enabled(cfg, s, a)
  {
    Stage.ClosedMeansAllGone(cfg.sizes[j], s.stages[j]);
  }

  /** After cancellation every open stage can act by itself, even if nobody reads or writes its channels. */
  lemma CancelledStageShutsDown<T(!new)>(cfg: Config<T>, acts: seq<Action<T>>, j: nat)
    requires cfg.Valid() && Exec(cfg, acts).Some? && j < |cfg.sizes|
    requires Exec(cfg, acts).value.cancelled
    ensures var s := Exec(cfg, acts).value;
            !s.stages[j].closed <==> exists a :: Alone(a, j) && Enabled(cfg, s, a)
  {
    ReachableInv(cfg, acts);
    var s := Exec(cfg, acts).value;
    assert StageOk(cfg, s, j);
    hide Inv, Exec, Alone, Enabled, Stage.CloseInv, Stage.CountInv, Stage.ResultInv;
    if s.stages[j].closed {
      forall a | Alone(a, j) ensures !Enabled(cfg, s, a) {
        ClosedStageRests(cfg, s, j, a);
      }
    } else {
      var a := OpenStageActs(cfg, s, j);
    }
  }

  // ---------- never for ever ----------

  /** What a worker may still do; r is the number of stages from its own to the end. */
  function WorkerLoad<T>(r: nat): Stage.Worker<T, T> -> int
  {
    (w: Stage.Worker<T, T>) =>
      match w
      case Ready => 1
      case Busy(_) => 3 * r + 1
      case Sending(_) => 3 * r
      case Done => 0
  }

  function StageLoad<T>(r: nat, t: Stage.State<T, T>): int
    requires r > 0
  {
    Sums.Sum(t.workers, WorkerLoad(r)) + Sums.Times(3 * r - 2, |t.out|) + (if t.closed then 0 else 1)
  }

  function LoadTo<T>(s: State<T>, j: nat): int
    requires j <= |s.stages|
  {
    if j == 0 then Sums.Times(3 * |s.stages| + 1, |s.source|)
    else LoadTo(s, j - 1) + StageLoad(|s.stages| - (j - 1), s.stages[j - 1])
  }

  function Load<T>(s: State<T>): int
  {
    LoadTo(s, |s.stages|) + (if s.sourceClosed then 0 else 1) + (if s.cancelled then 0 else 1)
  }

  lemma {:induction false} LoadReplace<T>(s: State<T>, j: nat, t: Stage.State<T, T>, upto: nat)
    requires j < |s.stages| && upto <= |s.stages|
    ensures var r := |s.stages| - j;
            LoadTo(Replace(s, j, t), upto)
            == LoadTo(s, upto) + (if j < upto then StageLoad(r, t) - StageLoad(r, s.stages[j]) else 0)
    decreases upto
  {
    if upto == 0 {
    } else {
      LoadReplace(s, j, t, upto - 1);
    }
  }

  lemma {:induction false} LoadSource<T>(s: State<T>, s': State<T>, upto: nat)
    requires s.stages == s'.stages && upto <= |s.stages|
    ensures LoadTo(s', upto) - Sums.Times(3 * |s.stages| + 1, |s'.source|)
            == LoadTo(s, upto) - Sums.Times(3 * |s.stages| + 1, |s.source|)
    decreases upto
  {
    if upto == 0 {
    } else {
      LoadSource(s, s', upto - 1);
    }
  }

  /** Popping channel j takes its per-item weight, 3 * (stages left) + 1, off the load. */
  lemma LoadPop<T>(s: State<T>, j: nat)
    requires j <= |s.stages| && Buffer(s, j) != []
    ensures LoadTo(Pop(s, j), |s.stages|) == LoadTo(s, |s.stages|) - (3 * (|s.stages| - j) + 1)
  {
    if j == 0 {
      PopSourceLoad(s);
    } else {
      PopStageLoad(s, j - 1, |s.stages| - (j - 1));
    }
    hide LoadTo, Stage.Take;
  }

  lemma PopStageLoad<T>(s: State<T>, i: nat, r: nat)
    requires i < |s.stages| && s.stages[i].out != [] && r == |s.stages| - i
    ensures LoadTo(Replace(s, i, Stage.Take(s.stages[i])), |s.stages|) == LoadTo(s, |s.stages|) - (3 * r - 2)
  {
    TakeLoad(r, s.stages[i]);
    LoadReplace(s, i, Stage.Take(s.stages[i]), |s.stages|);
    hide *;
  }

  lemma PopSourceLoad<T>(s: State<T>)
    requires s.source != []
    ensures LoadTo(Pop(s, 0), |s.stages|) == LoadTo(s, |s.stages|) - (3 * |s.stages| + 1)
  {
    LoadSource(s, Pop(s, 0), |s.stages|);
    OneTimeLess(3 * |s.stages| + 1, |s.source|);
    hide LoadTo, Sums.Times;
  }

  lemma OneTimeLess(a: nat, b: nat)
    requires b > 0
    ensures Sums.Times(a, b) == Sums.Times(a, b - 1) + a
  {
  }

  lemma TakeLoad<T>(r: nat, t: Stage.State<T, T>)
    requires r > 0 && t.out != []
    ensures StageLoad(r, Stage.Take(t)) == StageLoad(r, t) - (3 * r - 2)
  {
  }

  /** The source, the cancellation and the consumer. */
  lemma OutsideLoad<T>(cfg: Config<T>, s: State<T>, a: Action<T>)
    requires |s.stages| == |cfg.sizes| == |cfg.fns| && Enabled(cfg, s, a)
    requires a.Offer? || a.CloseSource? || a.Cancel? || a.Deliver?
    ensures if a.Offer? then Load(Next(cfg, s, a)) == Load(s) + 3 * |s.stages| + 1
            else Load(Next(cfg, s, a)) < Load(s)
  {
    var k := |s.stages|;
    if a.Deliver? {
      LoadPop(s, k);
      LoadSource(Pop(s, k), Next(cfg, s, a), k);
    } else {
      LoadSource(s, Next(cfg, s, a), k);
    }
  }

  /** Every step uses up load, except that an item offered by the source brings its own. */
  lemma StepLoad<T>(cfg: Config<T>, s: State<T>, a: Action<T>)
    requires |s.stages| == |cfg.sizes| == |cfg.fns| && Enabled(cfg, s, a)
    ensures if a.Offer? then Load(Next(cfg, s, a)) == Load(s) + 3 * |s.stages| + 1
            else Load(Next(cfg, s, a)) < Load(s)
  {
    match a
    case Receive(j, w) =>
      LoadPop(s, j);
      ReceiveLoad(s, j, w);
    case Close(j) => LoadReplace(s, j, Stage.Close(s.stages[j]), |s.stages|);
    case Work(_, _) => WorkerStepLoad(cfg, s, a);
    case Send(_, _) => WorkerStepLoad(cfg, s, a);
    case ExitClosed(_, _) => WorkerStepLoad(cfg, s, a);
    case ExitCancelled(_, _) => WorkerStepLoad(cfg, s, a);
    case Drop(_, _) => WorkerStepLoad(cfg, s, a);
    case _ => OutsideLoad(cfg, s, a);
  }

  lemma ReceiveLoad<T>(s: State<T>, j: nat, w: nat)
    requires WorkerIs(s, j, w) && s.stages[j].workers[w].Ready? && Buffer(s, j) != []
    ensures LoadTo(Replace(Pop(s, j), j, Stage.Receive(s.stages[j], w, Buffer(s, j)[0])), |s.stages|)
            == LoadTo(Pop(s, j), |s.stages|) + 3 * (|s.stages| - j)
  {
    var x := Buffer(s, j)[0];
    assert Pop(s, j).stages[j] == s.stages[j];
    LoadReplace(Pop(s, j), j, Stage.Receive(s.stages[j], w, x), |s.stages|);
    Sums.SumUpdate(s.stages[j].workers, w, Stage.Busy(x), WorkerLoad(|s.stages| - j));
  }

  /** What worker w becomes, and how many results the stage's output gains, in a worker's own step. */
  function WorkerAfter<T>(cfg: Config<T>, s: State<T>, a: Action<T>): Stage.Worker<T, T>
    requires |s.stages| == |cfg.sizes| == |cfg.fns| && Enabled(cfg, s, a)
    requires a.Work? || a.Send? || a.ExitClosed? || a.ExitCancelled? || a.Drop?
  {
    match a
    case Work(j, w) =>
      (match cfg.fns[j](s.stages[j].called, s.stages[j].workers[w].item)
       case None => Stage.Ready
       case Some(y) => Stage.Sending(y))
    case Send(_, _) => Stage.Ready
    case _ => Stage.Done
  }

  lemma WorkerStepStage<T>(cfg: Config<T>, s: State<T>, a: Action<T>)
    requires |s.stages| == |cfg.sizes| == |cfg.fns| && Enabled(cfg, s, a)
    requires a.Work? || a.Send? || a.ExitClosed? || a.ExitCancelled? || a.Drop?
    ensures var t, t' := s.stages[a.j], Next(cfg, s, a).stages[a.j];
            && Next(cfg, s, a) == Replace(s, a.j, t')
            && t'.workers == t.workers[a.w := WorkerAfter(cfg, s, a)]
            && t'.closed == t.closed
            && |t'.out| == |t.out| + (if a.Send? then 1 else 0)
  {
  }

  lemma StageLoadDrops<T>(r: nat, t: Stage.State<T, T>, t': Stage.State<T, T>, w: nat, sends: bool)
    requires r > 0 && w < |t.workers| == |t'.workers|
    requires t'.workers == t.workers[w := t'.workers[w]]
    requires t'.closed == t.closed && |t'.out| == |t.out| + (if sends then 1 else 0)
    requires WorkerLoad(r)(t'.workers[w]) + (if sends then 3 * r - 2 else 0) < WorkerLoad(r)(t.workers[w])
    ensures StageLoad(r, t') < StageLoad(r, t)
  {
    Sums.SumUpdate(t.workers, w, t'.workers[w], WorkerLoad(r));
    if sends {
      assert Sums.Times(3 * r - 2, |t.out| + 1) == Sums.Times(3 * r - 2, |t.out|) + (3 * r - 2);
    }
  }

  lemma WorkerLoadDrops<T>(cfg: Config<T>, s: State<T>, a: Action<T>, r: nat)
    requires |s.stages| == |cfg.sizes| == |cfg.fns| && Enabled(cfg, s, a) && r > 0
    requires a.Work? || a.Send? || a.ExitClosed? || a.ExitCancelled? || a.Drop?
    ensures WorkerLoad(r)(WorkerAfter(cfg, s, a)) + (if a.Send? then 3 * r - 2 else 0)
            < WorkerLoad(r)(s.stages[a.j].workers[a.w])
  {
  }

  lemma WorkerStepLoad<T>(cfg: Config<T>, s: State<T>, a: Action<T>)
    requires |s.stages| == |cfg.sizes| == |cfg.fns| && Enabled(cfg, s, a)
    requires a.Work? || a.Send? || a.ExitClosed? || a.ExitCancelled? || a.Drop?
    ensures Load(Next(cfg, s, a)) < Load(s)
  {
    var r, t, t' := |s.stages| - a.j, s.stages[a.j], Next(cfg, s, a).stages[a.j];
    WorkerStepStage(cfg, s, a);
    WorkerLoadDrops(cfg, s, a, r);
    hide StageLoad, Enabled, Next, WorkerLoad, WorkerAfter;
    StageLoadDrops(r, t, t', a.w, a.Send?);
    LessLoad(s, a.j, t', r);
    hide Load;
  }

  lemma LessLoad<T>(s: State<T>, j: nat, t: Stage.State<T, T>, r: nat)
    requires j < |s.stages| && r == |s.stages| - j && StageLoad(r, t) < StageLoad(r, s.stages[j])
    ensures Load(Replace(s, j, t)) < Load(s)
  {
    LoadReplace(s, j, t, |s.stages|);
    hide StageLoad, LoadTo;
  }

  lemma {:induction false} LoadNonNegative<T>(s: State<T>, j: nat)
    requires j <= |s.stages|
    ensures 0 <= LoadTo(s, j)
    decreases j
  {
    if j == 0 {
    } else {
      LoadNonNegative(s, j - 1);
      Sums.SumNonNegative(s.stages[j - 1].workers, WorkerLoad(|s.stages| - (j - 1)));
    }
  }

  lemma {:induction false} InitialLoad<T>(cfg: Config<T>, j: nat)
    requires |cfg.sizes| == |cfg.fns| && j <= |cfg.sizes|
    ensures LoadTo(Init(cfg), j) == WorkersTo(cfg, j) + j
    decreases j
  {
    if j == 0 {
    } else {
      InitialLoad(cfg, j - 1);
      var t := Init(cfg).stages[j - 1];
      Sums.SumWithin(t.workers, WorkerLoad(|cfg.sizes| - (j - 1)), 1, 1);
    }
  }

  lemma {:induction false} StepsAndLoad<T>(cfg: Config<T>, acts: seq<Action<T>>)
    requires cfg.Valid() && Exec(cfg, acts).Some?
    ensures var s, k := Exec(cfg, acts).value, |cfg.sizes|;
            |acts| + Load(s) <= 2 + k + WorkersTo(cfg, k) + Sums.Times(3 * k + 2, |s.sent|)
    decreases |acts|
  {
    if acts == [] {
      InitialLoad(cfg, |cfg.sizes|);
    } else {
      var front, a := acts[..|acts| - 1], acts[|acts| - 1];
      StepsAndLoad(cfg, front);
      StepLoad(cfg, Exec(cfg, front).value, a);
      SentAfter(cfg, Exec(cfg, front).value, a);
      var k, m := |cfg.sizes|, |Exec(cfg, front).value.sent|;
      assert Sums.Times(3 * k + 2, m + 1) == Sums.Times(3 * k + 2, m) + (3 * k + 2);
    }
  }

  lemma SentAfter<T>(cfg: Config<T>, s: State<T>, a: Action<T>)
    requires |s.stages| == |cfg.sizes| == |cfg.fns| && Enabled(cfg, s, a)
    ensures |Next(cfg, s, a).sent| == |s.sent| + (if a.Offer? then 1 else 0)
  {
  }

  /**
   No schedule runs for ever: a run that sent m items through k stages has at most
   2 + k + workers + (3k + 2) m steps, cancelled or not.
   */
  lemma RunsAreBounded<T>(cfg: Config<T>, acts: seq<Action<T>>)
    requires cfg.Valid() && Exec(cfg, acts).Some?
    ensures var s, k := Exec(cfg, acts).value, |cfg.sizes|;
            |acts| <= 2 + k + WorkersTo(cfg, k) + (3 * k + 2) * |s.sent|
  {
    var s, k := Exec(cfg, acts).value, |cfg.sizes|;
    StepsAndLoad(cfg, acts);
    LoadNonNegative(s, k);
    Sums.TimesIsProduct(3 * k + 2, |s.sent|);
  }
}
