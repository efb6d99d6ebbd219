/**
 Any number of stages in a row, fed by a source channel and drained by a consumer, under one
 cancellable context: the shape main wires up (generator, load, tokenize, embed, index).
 One item type T stands for the sum of the types that flow between the stages.
 */
module Chain {
  import opened Wrappers
  import Stage
  import Sums

  datatype Config<!T> = Config(sourceBuffer: nat, sizes: seq<Stage.Size>, fns: seq<Stage.Fn<T, T>>)
  {
    ghost predicate Valid() {
      && |sizes| == |fns| > 0
      && sourceBuffer > 0
      && forall j :: 0 <= j < |sizes| ==> sizes[j].workers > 0 && sizes[j].buffer > 0
    }
  }

  /** `sent` is history: what the source put on its channel. `delivered` is what the consumer has drained. */
  datatype State<T> = State(
    source: seq<T>, sourceClosed: bool, sent: seq<T>,
    stages: seq<Stage.State<T, T>>, cancelled: bool, delivered: seq<T>)

  datatype Action<T> =
    | Offer(item: T) | CloseSource | Cancel
    | Receive(j: nat, w: nat) | Work(j: nat, w: nat) | Send(j: nat, w: nat)
    | ExitClosed(j: nat, w: nat) | ExitCancelled(j: nat, w: nat) | Drop(j: nat, w: nat)
    | Close(j: nat) | Deliver

  function Init<T>(cfg: Config<T>): State<T>
  {
    State([], false, [], seq(|cfg.sizes|, j requires 0 <= j < |cfg.sizes| => Stage.Init(cfg.sizes[j])), false, [])
  }

  // ---------- channels ----------

  /** Channel j: the source's for j = 0, otherwise the output of stage j - 1. The last one is the consumer's. */
  function Buffer<T>(s: State<T>, j: nat): seq<T>
    requires j <= |s.stages|
  {
    if j == 0 then s.source else s.stages[j - 1].out
  }

  predicate ChannelClosed<T>(s: State<T>, j: nat)
    requires j <= |s.stages|
  {
    if j == 0 then s.sourceClosed else s.stages[j - 1].closed
  }

  function Pop<T>(s: State<T>, j: nat): (s': State<T>)
    requires j <= |s.stages| && Buffer(s, j) != []
    ensures |s'.stages| == |s.stages|
  {
    if j == 0 then s.(source := s.source[1..])
    else s.(stages := s.stages[j - 1 := Stage.Take(s.stages[j - 1])])
  }

  /** History: everything ever put on channel j, and everything taken off it. */
  function Produced<T>(s: State<T>, j: nat): seq<T>
    requires j <= |s.stages|
  {
    if j == 0 then s.sent else s.stages[j - 1].emitted
  }

  function Consumed<T>(s: State<T>, j: nat): seq<T>
    requires j <= |s.stages|
  {
    if j == |s.stages| then s.delivered else s.stages[j].consumed
  }

  // ---------- steps ----------

  predicate WorkerIs<T>(s: State<T>, j: nat, w: nat)
  {
    j < |s.stages| && w < |s.stages[j].workers|
  }

  predicate Enabled<T>(cfg: Config<T>, s: State<T>, a: Action<T>)
    requires |s.stages| == |cfg.sizes| == |cfg.fns|
  {
    match a
    case Offer(_) => !s.sourceClosed && |s.source| < cfg.sourceBuffer
    case CloseSource => !s.sourceClosed
    case Cancel => !s.cancelled
    case Receive(j, w) => WorkerIs(s, j, w) && s.stages[j].workers[w].Ready? && Buffer(s, j) != []
    case Work(j, w) => WorkerIs(s, j, w) && s.stages[j].workers[w].Busy?
    case Send(j, w) => WorkerIs(s, j, w) && Stage.CanSend(cfg.sizes[j].buffer, s.stages[j], w)
    case ExitClosed(j, w) =>
      WorkerIs(s, j, w) && s.stages[j].workers[w].Ready? && Buffer(s, j) == [] && ChannelClosed(s, j)
    case ExitCancelled(j, w) => WorkerIs(s, j, w) && s.stages[j].workers[w].Ready? && s.cancelled
    case Drop(j, w) => WorkerIs(s, j, w) && s.stages[j].workers[w].Sending? && s.cancelled
    case Close(j) => j < |s.stages| && Stage.CanClose(s.stages[j])
    case Deliver => Buffer(s, |s.stages|) != []
  }

  /** Stage j becomes t. */
  function Replace<T>(s: State<T>, j: nat, t: Stage.State<T, T>): State<T>
    requires j < |s.stages|
  {
    s.(stages := s.stages[j := t])
  }

  function Next<T>(cfg: Config<T>, s: State<T>, a: Action<T>): (s': State<T>)
    requires |s.stages| == |cfg.sizes| == |cfg.fns| && Enabled(cfg, s, a)
    ensures |s'.stages| == |s.stages|
  {
    match a
    case Offer(x) => s.(source := s.source + [x], sent := s.sent + [x])
    case CloseSource => s.(sourceClosed := true)
    case Cancel => s.(cancelled := true)
    case Receive(j, w) => Replace(Pop(s, j), j, Stage.Receive(s.stages[j], w, Buffer(s, j)[0]))
    case Work(j, w) => Replace(s, j, Stage.Work(cfg.fns[j], s.stages[j], w))
    case Send(j, w) => Replace(s, j, Stage.Send(s.stages[j], w))
    case ExitClosed(j, w) => Replace(s, j, Stage.Exit(s.stages[j], w))
    case ExitCancelled(j, w) => Replace(s, j, Stage.Exit(s.stages[j], w))
    case Drop(j, w) => Replace(s, j, Stage.Drop(s.stages[j], w))
    case Close(j) => Replace(s, j, Stage.Close(s.stages[j]))
    case Deliver => Pop(s, |s.stages|).(delivered := s.delivered + [Buffer(s, |s.stages|)[0]])
  }

  /** The state a run reaches, if every action of the run was enabled in its turn. */
  function Exec<T>(cfg: Config<T>, acts: seq<Action<T>>): (r: Option<State<T>>)
    requires |cfg.sizes| == |cfg.fns|
    ensures r.Some? ==> |r.value.stages| == |cfg.sizes|
  {
    if acts == [] then Some(Init(cfg))
    else
      match Exec(cfg, acts[..|acts| - 1])
      case None => None
      case Some(s) =>
        if Enabled(cfg, s, acts[|acts| - 1]) then Some(Next(cfg, s, acts[|acts| - 1])) else None
  }

  lemma Extend<T>(cfg: Config<T>, acts: seq<Action<T>>, a: Action<T>)
    requires |cfg.sizes| == |cfg.fns| && Exec(cfg, acts).Some? && Enabled(cfg, Exec(cfg, acts).value, a)
    ensures Exec(cfg, acts + [a]) == Some(Next(cfg, Exec(cfg, acts).value, a))
  {
    assert (acts + [a])[..|acts|] == acts;
  }

  // ---------- the invariant ----------

  ghost predicate StageOk<T>(cfg: Config<T>, s: State<T>, j: nat)
    requires |s.stages| == |cfg.sizes| == |cfg.fns| && j < |s.stages|
  {
    Stage.Inv(cfg.fns[j], cfg.sizes[j], s.stages[j])
  }

  /** Channel j is first in, first out, and loses nothing. */
  ghost predicate Fifo<T>(s: State<T>, j: nat)
    requires j <= |s.stages|
  {
    Queue(Produced(s, j), Consumed(s, j), Buffer(s, j))
  }

  /** Everything made has been used or is waiting, first come first served. */
  ghost predicate Queue<T>(made: seq<T>, used: seq<T>, waiting: seq<T>)
  {
    made == used + waiting
  }

  /** Without cancellation a worker returns only from a closed, empty input, and drops nothing. */
  ghost predicate Orderly<T>(s: State<T>, j: nat)
    requires j < |s.stages|
  {
    !s.cancelled ==>
      && s.stages[j].dropped == []
      && (AnyGone(s.stages[j]) ==> ChannelClosed(s, j) && Buffer(s, j) == [])
  }

  ghost predicate Inv<T>(cfg: Config<T>, s: State<T>)
  {
    && cfg.Valid() && |s.stages| == |cfg.sizes|
    && |s.source| <= cfg.sourceBuffer
    && (forall j :: 0 <= j < |s.stages| ==> StageOk(cfg, s, j))
    && (forall j :: 0 <= j <= |s.stages| ==> Fifo(s, j))
    && (forall j :: 0 <= j < |s.stages| ==> Orderly(s, j))
  }

  lemma InitInv<T>(cfg: Config<T>)
    requires cfg.Valid()
    ensures Inv(cfg, Init(cfg))
  {
    var s := Init(cfg);
    forall j | 0 <= j < |s.stages| ensures StageOk(cfg, s, j) {
      Stage.InitInv(cfg.fns[j], cfg.sizes[j]);
    }
  }

  /** Some worker of t has returned. */
  ghost predicate AnyGone<T>(t: Stage.State<T, T>)
  {
    exists w :: 0 <= w < |t.workers| && t.workers[w].Done?
  }

  /**
   What stage j may do by itself: put `ys` on its open output channel, and let workers return
   only when that is orderly.
   */
  ghost predicate LocalStep<T>(cfg: Config<T>, s: State<T>, j: nat, t: Stage.State<T, T>, ys: seq<T>)
    requires |s.stages| == |cfg.sizes| == |cfg.fns| && j < |s.stages|
  {
    && Stage.Inv(cfg.fns[j], cfg.sizes[j], t)
    && t.consumed == s.stages[j].consumed
    && t.emitted == s.stages[j].emitted + ys && t.out == s.stages[j].out + ys
    && (s.stages[j].closed ==> t.closed && ys == [])
    && (!s.cancelled ==> t.dropped == [])
    && (!s.cancelled && AnyGone(t) ==> ChannelClosed(s, j) && Buffer(s, j) == [])
  }

  lemma LocalStepInv<T>(cfg: Config<T>, s: State<T>, j: nat, t: Stage.State<T, T>, ys: seq<T>)
    requires Inv(cfg, s) && j < |s.stages| && LocalStep(cfg, s, j, t, ys)
    ensures Inv(cfg, Replace(s, j, t))
  {
    hide Stage.Inv;
    var s' := Replace(s, j, t);
    forall i | 0 <= i < |s.stages| ensures StageOk(cfg, s', i) && Orderly(s', i) {
      assert StageOk(cfg, s, i) && Orderly(s, i);
    }
    forall i | 0 <= i <= |s.stages| ensures Fifo(s', i) {
      assert Fifo(s, i);
      LocalStepFifo(s, j, t, ys, i);
    }
    hide Fifo, LocalStep;
  }

  /** The channels around a stage that has been replaced, and the others. */
  lemma ReplaceChannels<T>(s: State<T>, j: nat, t: Stage.State<T, T>, i: nat)
    requires j < |s.stages| && i <= |s.stages|
    ensures var s' := Replace(s, j, t);
            && Produced(s', i) == (if i == j + 1 then t.emitted else Produced(s, i))
            && Buffer(s', i) == (if i == j + 1 then t.out else Buffer(s, i))
            && Consumed(s', i) == (if i == j then t.consumed else Consumed(s, i))
  {
  }

  lemma LocalStepFifo<T>(s: State<T>, j: nat, t: Stage.State<T, T>, ys: seq<T>, i: nat)
    requires j < |s.stages| && t.consumed == s.stages[j].consumed
    requires t.emitted == s.stages[j].emitted + ys && t.out == s.stages[j].out + ys
    requires i <= |s.stages| && Fifo(s, i)
    ensures Fifo(Replace(s, j, t), i)
  {
    ReplaceChannels(s, j, t, i);
    var s' := Replace(s, j, t);
    assert Queue(Produced(s, i), Consumed(s, i), Buffer(s, i));
    assert Fifo(s', i) <==> Queue(Produced(s', i), Consumed(s', i), Buffer(s', i));
    assert i == j + 1 ==> Produced(s, i) == s.stages[j].emitted && Buffer(s, i) == s.stages[j].out;
    assert i == j ==> Consumed(s, i) == s.stages[j].consumed;
    hide *;
    QueueGrows(Produced(s, i), Consumed(s, i), Buffer(s, i), ys);
  }

  lemma QueueGrows<T>(made: seq<T>, used: seq<T>, waiting: seq<T>, more: seq<T>)
    requires Queue(made, used, waiting)
    ensures Queue(made + more, used, waiting + more)
  {
  }

  /** A send goes to an open channel, and a worker that is still in the loop keeps the channel open. */
  lemma LiveMeansOpen<T>(cfg: Config<T>, s: State<T>, j: nat, w: nat)
    requires Inv(cfg, s) && WorkerIs(s, j, w) && !s.stages[j].workers[w].Done?
    ensures !s.stages[j].closed
  {
    assert StageOk(cfg, s, j);
    Stage.ClosedMeansAllGone(cfg.sizes[j], s.stages[j]);
  }

  lemma WorkerStepInv<T>(cfg: Config<T>, s: State<T>, a: Action<T>)
    requires Inv(cfg, s) && Enabled(cfg, s, a)
    requires a.Work? || a.Send? || a.ExitClosed? || a.ExitCancelled? || a.Drop?
    ensures Inv(cfg, Next(cfg, s, a))
  {
    hide Stage.Inv;
    var j, w := a.j, a.w;
    var fn, size, t := cfg.fns[j], cfg.sizes[j], s.stages[j];
    assert StageOk(cfg, s, j) && Orderly(s, j);
    LiveMeansOpen(cfg, s, j, w);
    var t', ys := t, [];
    match a {
      case Work(_, _) =>
        Stage.WorkInv(fn, size, t, w);
        t' := Stage.Work(fn, t, w);
      case Send(_, _) =>
        Stage.SendInv(fn, size, t, w);
        t', ys := Stage.Send(t, w), [t.workers[w].val];
      case ExitClosed(_, _) =>
        Stage.ExitInv(fn, size, t, w);
        t' := Stage.Exit(t, w);
      case ExitCancelled(_, _) =>
        Stage.ExitInv(fn, size, t, w);
        t' := Stage.Exit(t, w);
      case Drop(_, _) =>
        Stage.DropInv(fn, size, t, w);
        t' := Stage.Drop(t, w);
    }
    assert AnyGone(t') && !s.cancelled && !AnyGone(t) ==> a.ExitClosed?;
    LocalStepInv(cfg, s, j, t', ys);
  }

  lemma CloseInv<T>(cfg: Config<T>, s: State<T>, j: nat)
    requires Inv(cfg, s) && Enabled(cfg, s, Close(j))
    ensures Inv(cfg, Next(cfg, s, Close(j)))
  {
    hide Stage.Inv;
    assert StageOk(cfg, s, j) && Orderly(s, j);
    Stage.CloseTakeInv(cfg.fns[j], cfg.sizes[j], s.stages[j]);
    LocalStepInv(cfg, s, j, Stage.Close(s.stages[j]), []);
  }

  /** Popping channel j leaves every stage fit; its reader has yet to record the item. */
  lemma PopStages<T>(cfg: Config<T>, s: State<T>, j: nat)
    requires Inv(cfg, s) && j <= |s.stages| && Buffer(s, j) != []
    ensures forall i :: 0 <= i < |s.stages| ==> StageOk(cfg, Pop(s, j), i) && Orderly(Pop(s, j), i)
  {
    hide Stage.Inv;
    if j > 0 {
      assert StageOk(cfg, s, j - 1);
      Stage.CloseTakeInv(cfg.fns[j - 1], cfg.sizes[j - 1], s.stages[j - 1]);
    }
    forall i | 0 <= i < |s.stages| ensures StageOk(cfg, Pop(s, j), i) && Orderly(Pop(s, j), i) {
      assert StageOk(cfg, s, i) && Orderly(s, i);
    }
  }

  lemma PopFifo<T>(cfg: Config<T>, s: State<T>, j: nat)
    requires Inv(cfg, s) && j <= |s.stages| && Buffer(s, j) != []
    ensures var p := Pop(s, j);
            && (forall i :: 0 <= i <= |s.stages| && i != j ==> Fifo(p, i))
            && Queue(Produced(p, j), Consumed(s, j) + [Buffer(s, j)[0]], Buffer(p, j))
            && (j < |s.stages| ==> p.stages[j] == s.stages[j])
            && |p.source| <= cfg.sourceBuffer
  {
    forall i | 0 <= i <= |s.stages| && i != j ensures Fifo(Pop(s, j), i) {
      assert Fifo(s, i);
      PopChannels(s, j, i);
    }
    assert Fifo(s, j);
    PopChannels(s, j, j);
    TakeFirst(Produced(s, j), Consumed(s, j), Buffer(s, j));
    hide Stage.Inv, StageOk, Orderly, Produced, Consumed;
  }

  lemma PopChannels<T>(s: State<T>, j: nat, i: nat)
    requires j <= |s.stages| && Buffer(s, j) != [] && i <= |s.stages|
    ensures var p := Pop(s, j);
            && Produced(p, i) == Produced(s, i) && Consumed(p, i) == Consumed(s, i)
            && Buffer(p, i) == (if i == j then Buffer(s, j)[1..] else Buffer(s, i))
  {
  }

  lemma TakeFirst<T>(made: seq<T>, used: seq<T>, waiting: seq<T>)
    requires made == used + waiting && waiting != []
    ensures made == used + [waiting[0]] + waiting[1..]
  {
  }

  lemma ReceiveStages<T>(cfg: Config<T>, s: State<T>, j: nat, w: nat)
    requires Inv(cfg, s) && Enabled(cfg, s, Receive(j, w))
    ensures var s' := Next(cfg, s, Receive(j, w));
            forall i :: 0 <= i < |s.stages| ==> StageOk(cfg, s', i) && Orderly(s', i)
  {
    hide Stage.Inv, Fifo;
    PopStages(cfg, s, j);
    var p, x, s' := Pop(s, j), Buffer(s, j)[0], Next(cfg, s, Receive(j, w));
    assert StageOk(cfg, s, j) && Orderly(s, j);
    Stage.ReceiveInv(cfg.fns[j], cfg.sizes[j], s.stages[j], w, x);
    assert !s.cancelled ==> !AnyGone(s.stages[j]);
    assert !s.cancelled ==> !AnyGone(s'.stages[j]);
    forall i | 0 <= i < |s.stages| ensures StageOk(cfg, s', i) && Orderly(s', i) {
      assert StageOk(cfg, p, i) && Orderly(p, i);
    }
  }

  lemma ReceiveFifo<T>(cfg: Config<T>, s: State<T>, j: nat, w: nat)
    requires Inv(cfg, s) && Enabled(cfg, s, Receive(j, w))
    ensures var s' := Next(cfg, s, Receive(j, w));
            |s'.source| <= cfg.sourceBuffer && forall i :: 0 <= i <= |s.stages| ==> Fifo(s', i)
  {
    hide Stage.Inv, StageOk, Orderly;
    PopFifo(cfg, s, j);
    var p, s' := Pop(s, j), Next(cfg, s, Receive(j, w));
    assert s' == Replace(p, j, Stage.Receive(p.stages[j], w, Buffer(s, j)[0]));
    forall i | 0 <= i <= |s.stages| ensures Fifo(s', i) {
      if i != j { assert Fifo(p, i); }
      ReceivedChannels(p, j, w, Buffer(s, j)[0], i);
    }
    hide Next, Enabled, Replace, Pop, Queue;
  }

  lemma ReceivedChannels<T>(p: State<T>, j: nat, w: nat, x: T, i: nat)
    requires WorkerIs(p, j, w) && p.stages[j].workers[w].Ready? && i <= |p.stages|
    ensures var s' := Replace(p, j, Stage.Receive(p.stages[j], w, x));
            && Produced(s', i) == Produced(p, i) && Buffer(s', i) == Buffer(p, i)
            && Consumed(s', i) == (if i == j then Consumed(p, i) + [x] else Consumed(p, i))
  {
  }

  lemma ReceiveInv<T>(cfg: Config<T>, s: State<T>, j: nat, w: nat)
    requires Inv(cfg, s) && Enabled(cfg, s, Receive(j, w))
    ensures Inv(cfg, Next(cfg, s, Receive(j, w)))
  {
    ReceiveStages(cfg, s, j, w);
    ReceiveFifo(cfg, s, j, w);
    hide StageOk, Orderly, Fifo;
  }

  lemma EnvironmentInv<T>(cfg: Config<T>, s: State<T>, a: Action<T>)
    requires Inv(cfg, s) && Enabled(cfg, s, a)
    requires a.Offer? || a.CloseSource? || a.Cancel?
    ensures Inv(cfg, Next(cfg, s, a))
  {
    hide Stage.Inv;
    var s' := Next(cfg, s, a);
    forall i | 0 <= i < |s.stages| ensures StageOk(cfg, s', i) && Orderly(s', i) {
      assert StageOk(cfg, s, i) && Orderly(s, i);
    }
    forall i | 0 <= i <= |s.stages| ensures Fifo(s', i) {
      assert Fifo(s, i);
      if a.Offer? && i == 0 {
        QueueGrows(s.sent, Consumed(s, 0), s.source, [a.item]);
      }
    }
  }

  lemma NextInv<T>(cfg: Config<T>, s: State<T>, a: Action<T>)
    requires Inv(cfg, s) && Enabled(cfg, s, a)
    ensures Inv(cfg, Next(cfg, s, a))
  {
    hide Stage.Inv;
    match a
    case Offer(_) => EnvironmentInv(cfg, s, a);
    case CloseSource => EnvironmentInv(cfg, s, a);
    case Cancel => EnvironmentInv(cfg, s, a);
    case Receive(j, w) => ReceiveInv(cfg, s, j, w);
    case Close(j) => CloseInv(cfg, s, j);
    case Deliver => DeliverInv(cfg, s);
    case _ => WorkerStepInv(cfg, s, a);
  }

  lemma DeliverInv<T>(cfg: Config<T>, s: State<T>)
    requires Inv(cfg, s) && Enabled(cfg, s, Deliver)
    ensures Inv(cfg, Next(cfg, s, Deliver))
  {
    hide Stage.Inv;
    var k := |s.stages|;
    PopStages(cfg, s, k);
    PopFifo(cfg, s, k);
    var p, s' := Pop(s, k), Next(cfg, s, Deliver);
    forall i | 0 <= i < k ensures StageOk(cfg, s', i) && Orderly(s', i) {
      assert StageOk(cfg, p, i) && Orderly(p, i);
    }
    forall i | 0 <= i <= k ensures Fifo(s', i) {
      if i != k { assert Fifo(p, i); }
    }
  }

  lemma {:induction false} ReachableInv<T>(cfg: Config<T>, acts: seq<Action<T>>)
    requires cfg.Valid() && Exec(cfg, acts).Some?
    ensures Inv(cfg, Exec(cfg, acts).value)
    decreases |acts|
  {
    if acts == [] {
      InitInv(cfg);
    } else {
      ReachableInv(cfg, acts[..|acts| - 1]);
      NextInv(cfg, Exec(cfg, acts[..|acts| - 1]).value, acts[|acts| - 1]);
    }
  }

  /** Only an offer adds to what was sent and only a delivery to what the consumer has received. */
  lemma WhatGrows<T>(cfg: Config<T>, s: State<T>, a: Action<T>)
    requires |s.stages| == |cfg.sizes| == |cfg.fns| && Enabled(cfg, s, a)
    ensures var d := Next(cfg, s, a).delivered;
            if a.Deliver? then |d| == |s.delivered| + 1 && d[..|s.delivered|] == s.delivered else d == s.delivered
    ensures Next(cfg, s, a).sent == s.sent + (if a.Offer? then [a.item] else [])
  {
  }

  // ---------- schedules ----------

  /** What a scheduled action comes to: an offer is of the next item due, if one is left. */
  function Due<T>(s: State<T>, offers: seq<T>, a: Action<T>): Option<Action<T>>
  {
    if !a.Offer? then Some(a)
    else if |s.sent| < |offers| then Some(Offer(offers[|s.sent|]))
    else None
  }

  /** The actions of a schedule that are possible in their turn; the others do nothing. */
  function Driven<T>(cfg: Config<T>, offers: seq<T>, schedule: seq<Action<T>>): (taken: seq<Action<T>>)
    requires |cfg.sizes| == |cfg.fns|
    ensures Exec(cfg, taken).Some?
  {
    if schedule == [] then []
    else
      var before := Driven(cfg, offers, schedule[..|schedule| - 1]);
      var s := Exec(cfg, before).value;
      var a := Due(s, offers, schedule[|schedule| - 1]);
      if a.Some? && Enabled(cfg, s, a.value) then
        assert (before + [a.value])[..|before|] == before;
        before + [a.value]
      else before
  }

  /** Whatever is possible in the state reached so far is taken, and an offer if an item is left and there is room. */
  lemma DrivenStep<T>(cfg: Config<T>, offers: seq<T>, schedule: seq<Action<T>>, a: Action<T>)
    requires |cfg.sizes| == |cfg.fns|
    ensures var before := Driven(cfg, offers, schedule);
            var s := Exec(cfg, before).value;
            && (!a.Offer? ==>
                  Driven(cfg, offers, schedule + [a]) == before + (if Enabled(cfg, s, a) then [a] else []))
            && (a.Offer? && |s.sent| < |offers| ==>
                  var offer := Offer(offers[|s.sent|]);
                  Driven(cfg, offers, schedule + [a]) == before + (if Enabled(cfg, s, offer) then [offer] else []))
            && (a.Offer? && |s.sent| >= |offers| ==> Driven(cfg, offers, schedule + [a]) == before)
  {
    hide Enabled, Next;
    assert (schedule + [a])[..|schedule|] == schedule;
    assert Driven(cfg, offers, schedule) + [] == Driven(cfg, offers, schedule);
  }

  lemma DrivenAt<T>(cfg: Config<T>, offers: seq<T>, schedule: seq<Action<T>>, j: nat)
    requires |cfg.sizes| == |cfg.fns| && j < |schedule|
    ensures var before := Driven(cfg, offers, schedule[..j]);
            var s := Exec(cfg, before).value;
            var a := Due(s, offers, schedule[j]);
            Driven(cfg, offers, schedule[..j + 1])
            == before + (if a.Some? && Enabled(cfg, s, a.value) then [a.value] else [])
  {
    hide Enabled, Next, Exec, Driven;
    assert schedule[..j + 1] == schedule[..j] + [schedule[j]];
    DrivenStep(cfg, offers, schedule[..j], schedule[j]);
    assert Driven(cfg, offers, schedule[..j]) + [] == Driven(cfg, offers, schedule[..j]);
  }

  /** So a schedule that is a run and offers the items in order is taken as it is. */
  lemma {:induction false} RunsAreDriven<T>(cfg: Config<T>, offers: seq<T>, schedule: seq<Action<T>>)
    requires |cfg.sizes| == |cfg.fns| && Exec(cfg, schedule).Some? && Exec(cfg, schedule).value.sent <= offers
    ensures Driven(cfg, offers, schedule) == schedule
    decreases |schedule|
  {
    if schedule == [] {
    } else {
      var front, a := schedule[..|schedule| - 1], schedule[|schedule| - 1];
      var s := Exec(cfg, front).value;
      assert Exec(cfg, front).Some? && Enabled(cfg, s, a) && Exec(cfg, schedule) == Some(Next(cfg, s, a));
      assert schedule == front + [a];
      hide *;
      DueNext(cfg, offers, s, a);
      RunsAreDriven(cfg, offers, front);
      DrivenStep(cfg, offers, front, a);
    }
  }

  lemma DueNext<T>(cfg: Config<T>, offers: seq<T>, s: State<T>, a: Action<T>)
    requires |s.stages| == |cfg.sizes| == |cfg.fns| && Enabled(cfg, s, a) && Next(cfg, s, a).sent <= offers
    ensures s.sent <= offers && (a.Offer? ==> |s.sent| < |offers| && Offer(offers[|s.sent|]) == a)
  {
    WhatGrows(cfg, s, a);
    hide Next, Enabled;
    if a.Offer? { assert offers[|s.sent|] == Next(cfg, s, a).sent[|s.sent|]; }
  }

  lemma DrivenInAll<T>(cfg: Config<T>, offers: seq<T>, schedule: seq<Action<T>>)
    requires |cfg.sizes| == |cfg.fns|
    ensures Driven(cfg, offers, schedule[..0]) == []
    ensures Driven(cfg, offers, schedule[..|schedule|]) == Driven(cfg, offers, schedule)
    ensures Exec(cfg, schedule).Some? && Exec(cfg, schedule).value.sent <= offers ==>
              Driven(cfg, offers, schedule) == schedule
  {
    assert schedule[..|schedule|] == schedule && schedule[..0] == [];
    if Exec(cfg, schedule).Some? && Exec(cfg, schedule).value.sent <= offers {
      RunsAreDriven(cfg, offers, schedule);
    }
    hide Exec;
  }

  function Delivers<T>(a: Action<T>): int
  {
    if a.Deliver? then 1 else 0
  }

  /** As many items have been delivered as there were deliveries. */
  lemma {:induction false} DeliveredCount<T>(cfg: Config<T>, acts: seq<Action<T>>)
    requires |cfg.sizes| == |cfg.fns| && Exec(cfg, acts).Some?
    ensures |Exec(cfg, acts).value.delivered| == Sums.Sum(acts, Delivers)
    decreases |acts|
  {
    if acts == [] {
    } else {
      var front, a := acts[..|acts| - 1], acts[|acts| - 1];
      WhatGrows(cfg, Exec(cfg, front).value, a);
      hide Enabled, Next;
      DeliveredCount(cfg, front);
    }
  }

  // ---------- safe close ----------

  /**
   In every run, cancelled or not, a worker that could still send finds its stage's channel open,
   and the closer closes it only when every worker has returned.
   */
  lemma NeverSendsOnClosed<T>(cfg: Config<T>, acts: seq<Action<T>>, j: nat)
    requires cfg.Valid() && Exec(cfg, acts).Some? && j < |cfg.sizes|
    ensures var t := Exec(cfg, acts).value.stages[j];
            && (forall w: nat :: Enabled(cfg, Exec(cfg, acts).value, Send(j, w)) ==> !t.closed)
            && (t.closed || Enabled(cfg, Exec(cfg, acts).value, Close(j))
                <==> forall w :: 0 <= w < |t.workers| ==> t.workers[w].Done?)
            && 0 <= t.wg
  {
    ReachableInv(cfg, acts);
    var s := Exec(cfg, acts).value;
    assert StageOk(cfg, s, j);
    Stage.DroppedWithinWorkers(cfg.fns[j], cfg.sizes[j], s.stages[j]);
    SafeClose(cfg, s, j);
    hide Inv, Exec, Enabled, Stage.CloseInv, Stage.CountInv, Stage.ResultInv;
  }

  /** The same of one stage in one state. */
  lemma SafeClose<T>(cfg: Config<T>, s: State<T>, j: nat)
    requires |s.stages| == |cfg.sizes| == |cfg.fns| && j < |s.stages|
    requires Stage.CloseInv(cfg.sizes[j], s.stages[j])
    ensures var t := s.stages[j];
            && (forall w: nat :: Enabled(cfg, s, Send(j, w)) ==> !t.closed)
            && (t.closed || Enabled(cfg, s, Close(j)) <==> forall w :: 0 <= w < |t.workers| ==> t.workers[w].Done?)
  {
    Stage.ClosedMeansAllGone(cfg.sizes[j], s.stages[j]);
    hide Stage.CloseInv;
  }

  // ---------- counting items ----------

  /**
   In every reachable state, cancelled or not, each item a stage processed is an error, a recorded latency
   or inside fn; each latency is a value sent, held or dropped; at most one a worker is dropped; and with
   one worker fn is called with the items in order and the values sent are, in order, a prefix of its results.
   */
  lemma StageAccounts<T>(cfg: Config<T>, acts: seq<Action<T>>, j: nat)
    requires cfg.Valid() && Exec(cfg, acts).Some? && j < |cfg.sizes|
    ensures var t := Exec(cfg, acts).value.stages[j];
            && |t.consumed| == t.processed == t.errors + t.latencies + Sums.Sum(t.workers, Stage.Working)
            && t.latencies == |t.emitted| + Sums.Sum(t.workers, Stage.Holding) + |t.dropped|
            && |t.dropped| <= cfg.sizes[j].workers
            && multiset(t.called) <= multiset(t.consumed)
            && multiset(t.emitted) <= multiset(Stage.Results(cfg.fns[j], t.called))
            && (cfg.sizes[j].workers == 1 ==>
                  t.called <= t.consumed && t.emitted <= Stage.Results(cfg.fns[j], t.called))
  {
    ReachableInv(cfg, acts);
    assert StageOk(cfg, Exec(cfg, acts).value, j);
    hide Exec, Inv, Stage.Results, Stage.ResultInv;
    var t := Exec(cfg, acts).value.stages[j];
    Stage.DroppedWithinWorkers(cfg.fns[j], cfg.sizes[j], t);
    Stage.EmittedWithin(cfg.fns[j], t);
  }

  function InFlightTo<T>(s: State<T>, j: nat): int
    requires j <= |s.stages|
  {
    if j == 0 then |s.source|
    else InFlightTo(s, j - 1) + Stage.Held(s.stages[j - 1]) + |s.stages[j - 1].out|
  }

  function ErrorsTo<T>(s: State<T>, j: nat): nat
    requires j <= |s.stages|
  {
    if j == 0 then 0 else ErrorsTo(s, j - 1) + s.stages[j - 1].errors
  }

  function DroppedTo<T>(s: State<T>, j: nat): nat
    requires j <= |s.stages|
  {
    if j == 0 then 0 else DroppedTo(s, j - 1) + |s.stages[j - 1].dropped|
  }

  function CapacityTo<T>(cfg: Config<T>, j: nat): nat
    requires j <= |cfg.sizes|
  {
    if j == 0 then cfg.sourceBuffer
    else CapacityTo(cfg, j - 1) + cfg.sizes[j - 1].workers + cfg.sizes[j - 1].buffer
  }

  function WorkersTo<T>(cfg: Config<T>, j: nat): nat
    requires j <= |cfg.sizes|
  {
    if j == 0 then 0 else WorkersTo(cfg, j - 1) + cfg.sizes[j - 1].workers
  }

  lemma {:induction false} FlowTo<T>(cfg: Config<T>, s: State<T>, j: nat)
    requires Inv(cfg, s) && j <= |s.stages|
    ensures |s.sent| == |Consumed(s, j)| + ErrorsTo(s, j) + DroppedTo(s, j) + InFlightTo(s, j)
    ensures 0 <= InFlightTo(s, j) <= CapacityTo(cfg, j)
    ensures DroppedTo(s, j) <= WorkersTo(cfg, j)
    decreases j
  {
    assert Fifo(s, j);
    if j == 0 {
    } else {
      FlowTo(cfg, s, j - 1);
      FlowThrough(cfg, s, j);
      hide Inv, Stage.Held, Consumed;
    }
  }

  /** What the stage before channel j has taken is on the channel or off it again, failed, dropped or inside. */
  lemma FlowThrough<T>(cfg: Config<T>, s: State<T>, j: nat)
    requires Inv(cfg, s) && 0 < j <= |s.stages|
    ensures var t, size := s.stages[j - 1], cfg.sizes[j - 1];
            && |Consumed(s, j - 1)| == |Consumed(s, j)| + |t.out| + t.errors + |t.dropped| + Stage.Held(t)
            && 0 <= Stage.Held(t) <= size.workers && |t.out| <= size.buffer && |t.dropped| <= size.workers
  {
    assert Fifo(s, j) && StageOk(cfg, s, j - 1);
    var t := s.stages[j - 1];
    Stage.HeldWithinWorkers(t.workers);
    Stage.DroppedWithinWorkers(cfg.fns[j - 1], cfg.sizes[j - 1], t);
    hide Inv, Stage.CloseInv, Stage.ResultInv, Sums.Sum;
  }

  lemma {:induction false} NothingDropped<T>(cfg: Config<T>, s: State<T>, j: nat)
    requires Inv(cfg, s) && !s.cancelled && j <= |s.stages|
    ensures DroppedTo(s, j) == 0
    decreases j
  {
    if j == 0 {
    } else {
      NothingDropped(cfg, s, j - 1);
      assert Orderly(s, j - 1);
    }
  }

  /**
   In every reachable state each item sent is delivered, failed, dropped or in flight, with no more
   in flight than the buffers and the workers have room for, and no more dropped than there are workers:
   none at all unless the run was cancelled.
   */
  lemma ItemsAccountedFor<T>(cfg: Config<T>, acts: seq<Action<T>>)
    requires cfg.Valid() && Exec(cfg, acts).Some?
    ensures var s, k := Exec(cfg, acts).value, |cfg.sizes|;
            && |s.sent| == |s.delivered| + ErrorsTo(s, k) + DroppedTo(s, k) + InFlightTo(s, k)
            && 0 <= InFlightTo(s, k) <= CapacityTo(cfg, k)
            && DroppedTo(s, k) <= WorkersTo(cfg, k)
            && (!s.cancelled ==> DroppedTo(s, k) == 0)
  {
    ReachableInv(cfg, acts);
    var s := Exec(cfg, acts).value;
    FlowTo(cfg, s, |cfg.sizes|);
    if !s.cancelled { NothingDropped(cfg, s, |cfg.sizes|); }
  }

  // ---------- what is delivered ----------

  /** The filter-maps of the first j stages, one after the other. */
  function FilterMapAll<T>(fns: seq<T -> Option<T>>, j: nat, xs: seq<T>): seq<T>
    requires j <= |fns|
  {
    if j == 0 then xs else Stage.FilterMap(fns[j - 1], FilterMapAll(fns, j - 1, xs))
  }

  /** What becomes of one item on its way through the first j stages. */
  function Through<T>(fns: seq<T -> Option<T>>, j: nat, x: T): Option<T>
    requires j <= |fns|
  {
    if j == 0 then Some(x)
    else
      match Through(fns, j - 1, x)
      case None => None
      case Some(y) => fns[j - 1](y)
  }

  function Pipe<T>(fns: seq<T -> Option<T>>, j: nat): T -> Option<T>
    requires j <= |fns|
  {
    (x: T) => Through(fns, j, x)
  }

  /** Filtering stage by stage is filtering once, by the composition of the stages' functions. */
  lemma {:induction false} FilterMapAllIsPipe<T>(fns: seq<T -> Option<T>>, j: nat, xs: seq<T>)
    requires j <= |fns|
    ensures FilterMapAll(fns, j, xs) == Stage.FilterMap(Pipe(fns, j), xs)
    decreases |xs|
  {
    if xs == [] {
      FilterMapAllNil(fns, j);
    } else {
      var front, x := xs[..|xs| - 1], xs[|xs| - 1];
      FilterMapAllIsPipe(fns, j, front);
      FilterMapAllLast(fns, j, front, x);
      hide FilterMapAll, Stage.Kept, Pipe, Through;
      assert front + [x] == xs;
    }
  }

  lemma {:induction false} FilterMapAllNil<T>(fns: seq<T -> Option<T>>, j: nat)
    requires j <= |fns|
    ensures FilterMapAll(fns, j, []) == []
    decreases j
  {
    hide Stage.FilterMap;
    if j == 0 {
    } else {
      FilterMapAllNil(fns, j - 1);
      Stage.FilterMapNil(fns[j - 1]);
    }
  }

  lemma PipeOutcome<T>(fns: seq<T -> Option<T>>, j: nat, x: T)
    requires 0 < j <= |fns|
    ensures Stage.Kept(Pipe(fns, j), x) == Stage.FilterMap(fns[j - 1], Stage.Kept(Pipe(fns, j - 1), x))
  {
    hide Stage.FilterMap;
    match Through(fns, j - 1, x)
    case None => Stage.FilterMapNil(fns[j - 1]);
    case Some(y) => Stage.FilterMapOne(fns[j - 1], y);
  }

  lemma {:induction false} FilterMapAllLast<T>(fns: seq<T -> Option<T>>, j: nat, xs: seq<T>, x: T)
    requires j <= |fns|
    ensures FilterMapAll(fns, j, xs + [x]) == FilterMapAll(fns, j, xs) + Stage.Kept(Pipe(fns, j), x)
    decreases j
  {
    hide Stage.FilterMap;
    if j == 0 {
    } else {
      hide Stage.Kept, Pipe;
      FilterMapAllLast(fns, j - 1, xs, x);
      PipeOutcome(fns, j, x);
      Stage.FilterMapAppend(fns[j - 1], FilterMapAll(fns, j - 1, xs), Stage.Kept(Pipe(fns, j - 1), x));
    }
  }

  /** The first stages keep nothing between calls: their functions are these. */
  ghost predicate PureUpTo<T(!new)>(cfg: Config<T>, fs: seq<T -> Option<T>>)
  {
    |fs| <= |cfg.fns| && forall j :: 0 <= j < |fs| ==> Stage.IsPure(cfg.fns[j], fs[j])
  }

  /** One stage passes on no more than the filter-map of whatever its input stayed within. */
  lemma StageWithin<T(!new)>(cfg: Config<T>, s: State<T>, fs: seq<T -> Option<T>>, j: nat, due: seq<T>)
    requires Inv(cfg, s) && PureUpTo(cfg, fs) && j < |fs|
    ensures multiset(Produced(s, j)) <= multiset(due) ==>
              multiset(Produced(s, j + 1)) <= multiset(Stage.FilterMap(fs[j], due))
    ensures cfg.sizes[j].workers == 1 && Produced(s, j) <= due ==>
              Produced(s, j + 1) <= Stage.FilterMap(fs[j], due)
  {
    hide Stage.ResultInv, Stage.FilterMap, Stage.IsPure;
    assert Fifo(s, j) && StageOk(cfg, s, j);
    Stage.WithinDue(cfg.fns[j], fs[j], s.stages[j], Buffer(s, j), due);
  }

  lemma {:induction false} ProducedWithin<T(!new)>(cfg: Config<T>, s: State<T>, fs: seq<T -> Option<T>>, j: nat)
    requires Inv(cfg, s) && PureUpTo(cfg, fs) && j <= |fs|
    ensures multiset(Produced(s, j)) <= multiset(FilterMapAll(fs, j, s.sent))
    decreases j
  {
    hide StageOk, Stage.FilterMap, Fifo, Orderly, Stage.IsPure;
    if j == 0 {
    } else {
      ProducedWithin(cfg, s, fs, j - 1);
      StageWithin(cfg, s, fs, j - 1, FilterMapAll(fs, j - 1, s.sent));
    }
  }

  lemma {:induction false} ProducedInOrder<T(!new)>(cfg: Config<T>, s: State<T>, fs: seq<T -> Option<T>>, j: nat)
    requires Inv(cfg, s) && PureUpTo(cfg, fs) && j <= |fs|
    requires forall i :: 0 <= i < j ==> cfg.sizes[i].workers == 1
    ensures Produced(s, j) <= FilterMapAll(fs, j, s.sent)
    decreases j
  {
    hide StageOk, Stage.FilterMap, Fifo, Orderly, Stage.IsPure;
    if j == 0 {
    } else {
      ProducedInOrder(cfg, s, fs, j - 1);
      StageWithin(cfg, s, fs, j - 1, FilterMapAll(fs, j - 1, s.sent));
    }
  }

  /**
   In every reachable state, cancelled or not, what the pure stages have passed on is part of the composed
   filter-map of what was sent: nothing is invented or duplicated. With one worker a stage it is moreover
   a prefix of it, in order.
   */
  lemma PassedOnWithin<T(!new)>(cfg: Config<T>, acts: seq<Action<T>>, fs: seq<T -> Option<T>>)
    requires cfg.Valid() && Exec(cfg, acts).Some? && PureUpTo(cfg, fs)
    ensures var s, due := Exec(cfg, acts).value, Stage.FilterMap(Pipe(fs, |fs|), Exec(cfg, acts).value.sent);
            && multiset(Produced(s, |fs|)) <= multiset(due)
            && ((forall i :: 0 <= i < |fs| ==> cfg.sizes[i].workers == 1) ==> Produced(s, |fs|) <= due)
            && (|fs| == |cfg.fns| ==> s.delivered <= Produced(s, |fs|))
  {
    ReachableInv(cfg, acts);
    var s := Exec(cfg, acts).value;
    assert Fifo(s, |s.stages|);
    FilterMapAllIsPipe(fs, |fs|, s.sent);
    hide Inv, PureUpTo, Stage.FilterMap, FilterMapAll;
    ProducedWithin(cfg, s, fs, |fs|);
    if forall i :: 0 <= i < |fs| ==> cfg.sizes[i].workers == 1 { ProducedInOrder(cfg, s, fs, |fs|); }
  }

  /**
   In every reachable state of a chain whose last stage may keep what it likes and whose other stages are
   pure: that stage's fn was called with part of the composed filter-map of what was sent, and what was
   delivered is part of its results; with one worker the first results, in order.
   */
  lemma DeliveredWithin<T(!new)>(cfg: Config<T>, acts: seq<Action<T>>, fs: seq<T -> Option<T>>)
    requires cfg.Valid() && Exec(cfg, acts).Some? && PureUpTo(cfg, fs) && |fs| + 1 == |cfg.fns|
    ensures var s, k := Exec(cfg, acts).value, |fs|;
            var results := Stage.Results(cfg.fns[k], s.stages[k].called);
            && multiset(s.stages[k].called) <= multiset(Stage.FilterMap(Pipe(fs, k), s.sent))
            && multiset(s.delivered) <= multiset(results)
            && (cfg.sizes[k].workers == 1 ==> s.delivered <= results)
  {
    PassedOnWithin(cfg, acts, fs);
    StageAccounts(cfg, acts, |fs|);
    ReachableInv(cfg, acts);
    LastChannels(cfg, Exec(cfg, acts).value, |fs|);
    hide Inv, PureUpTo, Stage.FilterMap, Stage.Results, Exec, Produced, Pipe;
  }

  lemma LastChannels<T>(cfg: Config<T>, s: State<T>, k: nat)
    requires Inv(cfg, s) && k + 1 == |s.stages|
    ensures s.delivered <= s.stages[k].emitted && multiset(s.delivered) <= multiset(s.stages[k].emitted)
    ensures multiset(s.stages[k].consumed) <= multiset(Produced(s, k))
  {
    assert Fifo(s, k) && Fifo(s, k + 1);
    assert s.stages[k].emitted == s.delivered + s.stages[k].out;
    assert Produced(s, k) == s.stages[k].consumed + Buffer(s, k);
  }

  /** Every stage has closed its output and the consumer has drained the last one. */
  predicate Finished<T>(s: State<T>)
  {
    && s.sourceClosed
    && (forall j :: 0 <= j < |s.stages| ==> s.stages[j].closed)
    && |Buffer(s, |s.stages|)| == 0
  }

  /** A finished stage has read all of its input, called fn with all of it, and passed on all results. */
  lemma FinishedStage<T>(cfg: Config<T>, s: State<T>, j: nat)
    requires Inv(cfg, s) && !s.cancelled && Finished(s) && j < |s.stages|
    ensures Buffer(s, j) == [] && Produced(s, j) == s.stages[j].consumed
    ensures Stage.Same(cfg.sizes[j].workers == 1, Produced(s, j), s.stages[j].called)
    ensures Stage.Same(cfg.sizes[j].workers == 1, Produced(s, j + 1), Stage.Results(cfg.fns[j], s.stages[j].called))
  {
    assert StageOk(cfg, s, j) && Orderly(s, j) && Fifo(s, j);
    var t := s.stages[j];
    Stage.ClosedMeansAllGone(cfg.sizes[j], t);
    assert t.workers[0].Done?;
    assert t.consumed + [] == t.consumed;
    Stage.EmittedExactly(cfg.fns[j], t);
  }

  lemma ProducedStep<T(!new)>(cfg: Config<T>, s: State<T>, f: T -> Option<T>, j: nat, due: seq<T>)
    requires Inv(cfg, s) && !s.cancelled && Finished(s) && j < |s.stages| && Stage.IsPure(cfg.fns[j], f)
    requires multiset(Produced(s, j)) == multiset(due)
    ensures multiset(Produced(s, j + 1)) == multiset(Stage.FilterMap(f, due))
  {
    FinishedStage(cfg, s, j);
    hide Inv, Finished, Produced, Stage.FilterMap, Stage.Results, Stage.IsPure;
    Stage.PureExactly(cfg.fns[j], f, s.stages[j].called, due);
  }

  lemma {:induction false} ProducedExactly<T(!new)>(cfg: Config<T>, s: State<T>, fs: seq<T -> Option<T>>, j: nat)
    requires Inv(cfg, s) && PureUpTo(cfg, fs) && !s.cancelled && Finished(s) && j <= |fs|
    ensures multiset(Produced(s, j)) == multiset(FilterMapAll(fs, j, s.sent))
    decreases j
  {
    hide Finished, Stage.FilterMap;
    if j == 0 {
      hide Inv;
    } else {
      ProducedExactly(cfg, s, fs, j - 1);
      ProducedNext(cfg, s, fs, j);
    }
  }

  lemma ProducedNext<T(!new)>(cfg: Config<T>, s: State<T>, fs: seq<T -> Option<T>>, j: nat)
    requires Inv(cfg, s) && |s.stages| == |cfg.fns| == |cfg.sizes| && PureUpTo(cfg, fs)
    requires !s.cancelled && Finished(s) && 0 < j <= |fs| <= |cfg.fns|
    requires multiset(Produced(s, j - 1)) == multiset(FilterMapAll(fs, j - 1, s.sent))
    ensures multiset(Produced(s, j)) == multiset(FilterMapAll(fs, j, s.sent))
  {
    hide *;
    PureAt(cfg, fs, j - 1);
    FilterMapAllStep(fs, j, s.sent);
    ProducedStep(cfg, s, fs[j - 1], j - 1, FilterMapAll(fs, j - 1, s.sent));
  }

  lemma PureAt<T(!new)>(cfg: Config<T>, fs: seq<T -> Option<T>>, j: nat)
    requires PureUpTo(cfg, fs) && j < |fs| <= |cfg.fns|
    ensures Stage.IsPure(cfg.fns[j], fs[j])
  {
    hide Stage.IsPure;
  }

  lemma FilterMapAllStep<T>(fns: seq<T -> Option<T>>, j: nat, xs: seq<T>)
    requires 0 < j <= |fns|
    ensures FilterMapAll(fns, j, xs) == Stage.FilterMap(fns[j - 1], FilterMapAll(fns, j - 1, xs))
  {
    hide Stage.FilterMap;
  }

  /** A finished, uncancelled run has passed on exactly the composed filter-map of what was sent. */
  lemma PassedOnExactly<T(!new)>(cfg: Config<T>, acts: seq<Action<T>>, fs: seq<T -> Option<T>>)
    requires cfg.Valid() && Exec(cfg, acts).Some? && PureUpTo(cfg, fs)
    requires !Exec(cfg, acts).value.cancelled && Finished(Exec(cfg, acts).value)
    ensures var s := Exec(cfg, acts).value;
            multiset(Produced(s, |fs|)) == multiset(Stage.FilterMap(Pipe(fs, |fs|), s.sent))
    ensures |fs| == |cfg.fns| ==> Exec(cfg, acts).value.delivered == Produced(Exec(cfg, acts).value, |fs|)
  {
    ReachableInv(cfg, acts);
    var s := Exec(cfg, acts).value;
    ProducedExactly(cfg, s, fs, |fs|);
    FilterMapAllIsPipe(fs, |fs|, s.sent);
    assert Fifo(s, |s.stages|);
    assert s.delivered + [] == s.delivered;
  }

  /**
   A finished, uncancelled run of a chain whose last stage may keep what it likes has called that stage's
   fn with exactly the composed filter-map of what was sent, in some order, and delivered exactly its
   results for that order; with one worker, in that order.
   */
  lemma DeliveredExactly<T(!new)>(cfg: Config<T>, acts: seq<Action<T>>, fs: seq<T -> Option<T>>)
    requires cfg.Valid() && Exec(cfg, acts).Some? && PureUpTo(cfg, fs) && |fs| + 1 == |cfg.fns|
    requires !Exec(cfg, acts).value.cancelled && Finished(Exec(cfg, acts).value)
    ensures var s, k := Exec(cfg, acts).value, |fs|;
            && multiset(s.stages[k].called) == multiset(Stage.FilterMap(Pipe(fs, k), s.sent))
            && Stage.Same(cfg.sizes[k].workers == 1, s.delivered, Stage.Results(cfg.fns[k], s.stages[k].called))
  {
    PassedOnExactly(cfg, acts, fs);
    ReachableInv(cfg, acts);
    var s, k := Exec(cfg, acts).value, |fs|;
    FinishedStage(cfg, s, k);
    assert Produced(s, k + 1) == s.delivered by {
      assert Fifo(s, k + 1);
      assert s.delivered + [] == s.delivered;
    }
    hide Inv, PureUpTo, Finished, Produced, Exec, Pipe, Stage.FilterMap, Stage.Results;
  }
}
