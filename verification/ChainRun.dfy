/** The chain in memory: main's stages, one feeding the next, each with the fields that Run shares. */
module ChainRun {
  import opened Wrappers
  import opened Chain
  import Stage
  import Sums

  lemma ReceiveIs<T>(cfg: Config<T>, s: State<T>, j: nat, w: nat)
    requires |s.stages| == |cfg.sizes| == |cfg.fns| && Enabled(cfg, s, Receive(j, w))
    ensures Next(cfg, s, Receive(j, w))
            == Replace(Pop(s, j), j, Stage.Receive(s.stages[j], w, Buffer(s, j)[0]))
    ensures Pop(s, j).stages[j] == s.stages[j] && s.stages[j].workers[w].Ready?
  {
  }

  class ChainRun<T(0)> {
    const cfg: Config<T>
    const stages: seq<Stage.StageRun<T, T>>
    var source: seq<T>
    var sourceClosed: bool
    var cancelled: bool
    var delivered: seq<T>
    ghost var sent: seq<T>

    /** The stages are those of the configuration, and share nothing but their channels. */
    ghost predicate Wired()
    {
      && |stages| == |cfg.sizes| == |cfg.fns|
      && (forall j :: 0 <= j < |stages| ==> stages[j].fn == cfg.fns[j] && stages[j].size == cfg.sizes[j])
      && (forall i, j :: 0 <= i < j < |stages| ==> stages[i] != stages[j] && stages[i].workers != stages[j].workers)
    }

    ghost function Repr(): set<object>
    {
      {this} + (set j | 0 <= j < |stages| :: stages[j]) + (set j | 0 <= j < |stages| :: stages[j].workers)
    }

    ghost function Snapshot(): State<T>
      reads Repr()
    {
      State(source, sourceClosed, sent,
            seq(|stages|, j requires 0 <= j < |stages| reads Repr() => stages[j].Snapshot()),
            cancelled, delivered)
    }

    constructor (cfg: Config<T>)
      requires cfg.Valid()
      ensures this.cfg == cfg && Wired() && fresh(Repr()) && Snapshot() == Init(cfg)
    {
      var made := MakeStages(cfg);
      this.cfg, stages := cfg, made;
      source, sourceClosed, cancelled, delivered, sent := [], false, false, [], [];
    }

    static method MakeStages(cfg: Config<T>) returns (made: seq<Stage.StageRun<T, T>>)
      requires cfg.Valid()
      ensures |made| == |cfg.sizes|
      ensures forall i :: 0 <= i < |made| ==> Made(cfg, made[i], i)
      ensures forall i :: 0 <= i < |made| ==> fresh(made[i]) && fresh(made[i].workers)
      ensures forall h, i :: 0 <= h < i < |made| ==> made[h] != made[i] && made[h].workers != made[i].workers
    {
      hide Made;
      made := [];
      for j := 0 to |cfg.sizes|
        invariant |made| == j
        invariant forall i :: 0 <= i < j ==> Made(cfg, made[i], i)
        invariant forall i :: 0 <= i < j ==> fresh(made[i]) && fresh(made[i].workers)
        invariant forall h, i :: 0 <= h < i < j ==> made[h] != made[i] && made[h].workers != made[i].workers
      {
        var stage := MakeStage(cfg, j);
        made := made + [stage];
      }
    }

    static method MakeStage(cfg: Config<T>, j: nat) returns (stage: Stage.StageRun<T, T>)
      requires cfg.Valid() && j < |cfg.sizes|
      ensures Made(cfg, stage, j) && fresh(stage) && fresh(stage.workers)
    {
      stage := new Stage.StageRun(cfg.sizes[j].workers, cfg.sizes[j].buffer, cfg.fns[j]);
    }

    /** A started stage as configured. */
    static ghost predicate Made(cfg: Config<T>, stage: Stage.StageRun<T, T>, j: nat)
      requires j < |cfg.sizes| == |cfg.fns|
      reads stage, stage.workers
    {
      stage.fn == cfg.fns[j] && stage.size == cfg.sizes[j] && stage.Snapshot() == Stage.Init(cfg.sizes[j])
    }

    /** What a select, a send or the closer finds possible. */
    predicate CanTake(a: Action<T>)
      requires Wired()
      reads Repr()
      ensures CanTake(a) == Enabled(cfg, Snapshot(), a)
    {
      match a
      case Offer(_) => !sourceClosed && |source| < cfg.sourceBuffer
      case CloseSource => !sourceClosed
      case Cancel => !cancelled
      case Deliver => Readable(|stages|)
      case Receive(j, w) => j < |stages| && stages[j].IsReady(w) && Readable(j)
      case Close(j) => j < |stages| && !stages[j].closed && stages[j].wg == 0
      case Work(j, w) => j < |stages| && stages[j].IsBusy(w)
      case Send(j, w) => j < |stages| && stages[j].IsSending(w) && |stages[j].out| < cfg.sizes[j].buffer
      case _ => CanReturn(a)
    }

    predicate CanReturn(a: Action<T>)
      requires Wired() && (a.ExitClosed? || a.ExitCancelled? || a.Drop?)
      reads Repr()
      ensures CanReturn(a) == Enabled(cfg, Snapshot(), a)
    {
      && a.j < |stages|
      && match a
         case ExitClosed(j, w) => stages[j].IsReady(w) && !Readable(j) && InputClosed(j)
         case ExitCancelled(j, w) => stages[j].IsReady(w) && cancelled
         case Drop(j, w) => stages[j].IsSending(w) && cancelled
    }

    predicate Readable(j: nat)
      requires j <= |stages|
      reads Repr()
      ensures Readable(j) <==> Buffer(Snapshot(), j) != []
    {
      if j == 0 then |source| > 0 else |stages[j - 1].out| > 0
    }

    predicate InputClosed(j: nat)
      requires j <= |stages|
      reads Repr()
      ensures InputClosed(j) <==> ChannelClosed(Snapshot(), j)
    {
      if j == 0 then sourceClosed else stages[j - 1].closed
    }

    /** A receive from channel j. */
    method TakeFrom(j: nat) returns (x: T)
      requires Wired() && j <= |stages| && Readable(j)
      modifies Repr()
      ensures Snapshot() == Pop(old(Snapshot()), j) && x == Buffer(old(Snapshot()), j)[0]
    {
      if j == 0 {
        x := source[0];
        source := source[1..];
      } else {
        x := stages[j - 1].TakeResult();
      }
    }

    /** The source, the cancellation and the consumer. */
    method StepOutside(a: Action<T>)
      requires Wired() && Enabled(cfg, Snapshot(), a) && (a.Offer? || a.CloseSource? || a.Cancel? || a.Deliver?)
      modifies Repr()
      ensures Snapshot() == Next(cfg, old(Snapshot()), a)
    {
      hide Stage.Take, Buffer;
      if a.Offer? {
        source := source + [a.item];
        sent := sent + [a.item];
      } else if a.CloseSource? {
        sourceClosed := true;
      } else if a.Cancel? {
        cancelled := true;
      } else {
        var x := TakeFrom(|stages|);
        delivered := delivered + [x];
      }
    }

    method ReceiveStep(j: nat, w: nat)
      requires Wired() && Enabled(cfg, Snapshot(), Receive(j, w))
      modifies Repr()
      ensures Snapshot() == Next(cfg, old(Snapshot()), Receive(j, w))
    {
      ghost var s := Snapshot();
      ReceiveIs(cfg, s, j, w);
      hide Next, Enabled, Pop, Replace, Stage.Receive, Stage.Take;
      var x := TakeFrom(j);
      assert stages[j].Snapshot() == Snapshot().stages[j] == s.stages[j];
      ghost var p := Snapshot();
      assert stages[j].IsReady(w);
      stages[j].ReceiveItem(w, x);
      OnlyStage(p, j);
    }

    /** If only stage j differs from p, then this is p with stage j replaced. */
    lemma OnlyStage(p: State<T>, j: nat)
      requires j < |stages| == |p.stages|
      requires forall i :: 0 <= i < |stages| && i != j ==> stages[i].Snapshot() == p.stages[i]
      requires source == p.source && sourceClosed == p.sourceClosed && sent == p.sent
      requires cancelled == p.cancelled && delivered == p.delivered
      ensures Snapshot() == Replace(p, j, stages[j].Snapshot())
    {
    }

    method WorkStep(j: nat, w: nat)
      requires Wired() && Enabled(cfg, Snapshot(), Work(j, w))
      modifies Repr()
      ensures Snapshot() == Next(cfg, old(Snapshot()), Work(j, w))
    {
      hide Stage.Work;
      ghost var s := Snapshot();
      assert stages[j].Snapshot() == s.stages[j];
      assert stages[j].IsBusy(w);
      stages[j].CallFn(w);
      OnlyStage(s, j);
    }

    method SendStep(j: nat, w: nat)
      requires Wired() && Enabled(cfg, Snapshot(), Send(j, w))
      modifies Repr()
      ensures Snapshot() == Next(cfg, old(Snapshot()), Send(j, w))
    {
      hide Stage.Send;
      ghost var s := Snapshot();
      assert stages[j].Snapshot() == s.stages[j];
      assert stages[j].IsSending(w);
      stages[j].SendResult(w);
      OnlyStage(s, j);
    }

    /** From either select; the second loses the result in hand. */
    method ReturnStep(a: Action<T>)
      requires Wired() && Enabled(cfg, Snapshot(), a) && (a.ExitClosed? || a.ExitCancelled? || a.Drop?)
      modifies Repr()
      ensures Snapshot() == Next(cfg, old(Snapshot()), a)
    {
      hide Stage.Exit, Stage.Drop;
      ghost var s := Snapshot();
      assert stages[a.j].Snapshot() == s.stages[a.j];
      assert if a.Drop? then stages[a.j].IsSending(a.w) else stages[a.j].IsReady(a.w);
      stages[a.j].Return(a.w);
      OnlyStage(s, a.j);
    }

    method Step(a: Action<T>)
      requires Wired() && Enabled(cfg, Snapshot(), a)
      modifies Repr()
      ensures Snapshot() == Next(cfg, old(Snapshot()), a)
    {
      if a.Receive? {
        ReceiveStep(a.j, a.w);
      } else if a.Close? {
        ghost var s := Snapshot();
        stages[a.j].CloseOut();
        OnlyStage(s, a.j);
      } else if a.Work? {
        WorkStep(a.j, a.w);
      } else if a.Send? {
        SendStep(a.j, a.w);
      } else if a.ExitClosed? || a.ExitCancelled? || a.Drop? {
        ReturnStep(a);
      } else {
        StepOutside(a);
      }
    }

    /** What is scheduled, if it is possible. `taken` is the run so far. */
    method TakeTurn(a: Action<T>, ghost taken: seq<Action<T>>) returns (ok: bool)
      requires Wired() && Exec(cfg, taken) == Some(Snapshot())
      modifies Repr()
      ensures ok == Enabled(cfg, old(Snapshot()), a)
      ensures Exec(cfg, taken + (if ok then [a] else [])) == Some(Snapshot())
      ensures sent == old(sent) + (if ok && a.Offer? then [a.item] else [])
      ensures if ok && a.Deliver? then
                |delivered| == |old(delivered)| + 1 && delivered[..|old(delivered)|] == old(delivered)
              else delivered == old(delivered)
    {
      ok := CanTake(a);
      ghost var s := Snapshot();
      if ok {
        Extend(cfg, taken, a);
        WhatGrows(cfg, s, a);
        hide Next, Enabled, Exec;
        Step(a);
        assert Snapshot().sent == sent && Snapshot().delivered == delivered;
      } else {
        assert taken + [] == taken;
      }
    }

    /**
     Under any schedule, an action that is not possible when scheduled doing nothing: the offers are sent one
     after the other, and what arrives at the end is printed.
     */
    method Drive(offers: seq<T>, schedule: seq<Action<T>>) returns (printed: seq<T>, ghost taken: seq<Action<T>>)
      requires Wired() && Exec(cfg, []) == Some(Snapshot()) && sent == delivered == []
      modifies Repr()
      ensures Exec(cfg, taken) == Some(Snapshot()) && printed == delivered && sent <= offers
      ensures taken == Driven(cfg, offers, schedule) && |printed| == Sums.Sum(taken, Delivers)
      ensures Exec(cfg, schedule).Some? && Exec(cfg, schedule).value.sent <= offers ==> taken == schedule
    {
      DrivenInAll(cfg, offers, schedule);
      hide Exec, Driven, Snapshot, Due, Enabled;
      var next := 0;
      printed, taken := [], [];
      for i := 0 to |schedule|
        invariant Wired() && Exec(cfg, taken) == Some(Snapshot()) && taken == Driven(cfg, offers, schedule[..i])
        invariant 0 <= next <= |offers| && sent == offers[..next] && printed == delivered
      {
        DrivenAt(cfg, offers, schedule, i);
        var got;
        next, got := DriveOne(offers, schedule[i], next, taken);
        taken := Driven(cfg, offers, schedule[..i + 1]);
        printed := printed + got;
      }
      Delivered(taken);
    }

    lemma DueIs(offers: seq<T>, a: Action<T>, next: nat)
      requires next <= |offers| && sent == offers[..next]
      ensures Due(Snapshot(), offers, a)
              == if !a.Offer? then Some(a) else if next < |offers| then Some(Offer(offers[next])) else None
    {
      assert Snapshot().sent == sent;
    }

    /** The loop's turn for an action: what is offered comes from `next` on, what arrives is got. */
    method DriveOne(offers: seq<T>, a: Action<T>, next: nat, ghost taken: seq<Action<T>>)
      returns (next': nat, got: seq<T>)
      requires Wired() && Exec(cfg, taken) == Some(Snapshot()) && next <= |offers| && sent == offers[..next]
      modifies Repr()
      ensures var due := Due(old(Snapshot()), offers, a);
              Exec(cfg, taken + (if due.Some? && Enabled(cfg, old(Snapshot()), due.value) then [due.value] else []))
              == Some(Snapshot())
      ensures delivered == old(delivered) + got && next' <= |offers| && sent == offers[..next']
    {
      next', got := next, [];
      DueIs(offers, a, next);
      hide Exec, Snapshot, Due, Enabled;
      if a.Offer? && next == |offers| {
        assert taken + [] == taken;
        return;
      }
      var ok;
      if a.Offer? {
        ok := TakeTurn(Offer(offers[next]), taken);
        if ok {
          next' := next + 1;
        }
      } else {
        ok := TakeTurn(a, taken);
        if ok && a.Deliver? {
          got := [delivered[|delivered| - 1]];
        }
      }
    }

    lemma Delivered(taken: seq<Action<T>>)
      requires Wired() && Exec(cfg, taken) == Some(Snapshot())
      ensures |delivered| == Sums.Sum(taken, Delivers)
    {
      DeliveredCount(cfg, taken);
    }
  }
}
