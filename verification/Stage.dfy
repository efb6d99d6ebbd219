/**
 One pipeline stage: a pool of workers reading a shared input channel and writing a bounded
 output channel, and a closer that closes the output once the wait group is down to zero.
 The environment (who fills the input, cancels the context, drains the output) is Chain's.
 */
module Stage {
  import opened Wrappers
  import Sums

  const DEFAULT_BUFFER_SIZE := 100

  /** Where a worker's loop stands: in the outer select, inside fn, in the select that sends, returned. */
  datatype Worker<I, O> = Ready | Busy(item: I) | Sending(val: O) | Done

  /**
   What fn makes of an item, given the items it was called with before, in the order in which the calls
   took effect. That list stands for whatever fn keeps between calls; most functions ignore it.
   */
  type Fn<!I, !O> = (seq<I>, I) -> Option<O>

  function Pure<I, O>(f: I -> Option<O>): Fn<I, O>
  {
    (past: seq<I>, x: I) => f(x)
  }

  /**
   `called` is what fn was called with so far. `consumed`, `emitted` and `dropped` are history: items taken
   from the input, results put on the output channel, results thrown away when a cancelled worker returned.
   */
  datatype State<I, O> = State(
    workers: seq<Worker<I, O>>, wg: int, out: seq<O>, closed: bool,
    processed: nat, errors: nat, latencies: nat,
    called: seq<I>, consumed: seq<I>, emitted: seq<O>, dropped: seq<O>)

  datatype Size = Size(workers: nat, buffer: nat)

  /** What NewStage makes of the numbers it is given. */
  function SizeOf(workers: int, bufferSize: int): (r: Size)
    ensures r.workers > 0 && r.buffer > 0
    ensures if workers > 0 then r.workers == workers else r.workers == 1
    ensures if bufferSize > 0 then r.buffer == bufferSize else r.buffer == 100
  {
    Size(if workers <= 0 then 1 else workers,
         if bufferSize <= 0 then DEFAULT_BUFFER_SIZE else bufferSize)
  }

  function Init<I, O>(size: Size): State<I, O>
  {
    State(seq(size.workers, _ => Ready), size.workers, [], false, 0, 0, 0, [], [], [], [])
  }

  // ---------- the steps ----------

  predicate At<I, O>(s: State<I, O>, w: nat)
  {
    w < |s.workers|
  }

  /** `in, ok := <-s.in` with ok. */
  function Receive<I, O>(s: State<I, O>, w: nat, x: I): State<I, O>
    requires At(s, w) && s.workers[w].Ready?
  {
    s.(workers := s.workers[w := Busy(x)], processed := s.processed + 1, consumed := s.consumed + [x])
  }

  function Call<I, O>(fn: Fn<I, O>, past: seq<I>, x: I): Option<O>
  {
    fn(past, x)
  }

  /** fn returns: an error skips the item, a value goes on to the sending select. */
  function Work<I, O>(fn: Fn<I, O>, s: State<I, O>, w: nat): State<I, O>
    requires At(s, w) && s.workers[w].Busy?
  {
    var x := s.workers[w].item;
    match Call(fn, s.called, x)
    case None => s.(workers := s.workers[w := Ready], errors := s.errors + 1, called := s.called + [x])
    case Some(y) => s.(workers := s.workers[w := Sending(y)], latencies := s.latencies + 1, called := s.called + [x])
  }

  predicate CanSend<I, O>(cap: nat, s: State<I, O>, w: nat)
  {
    At(s, w) && s.workers[w].Sending? && |s.out| < cap
  }

  function Send<I, O>(s: State<I, O>, w: nat): State<I, O>
    requires At(s, w) && s.workers[w].Sending?
  {
    var y := s.workers[w].val;
    s.(workers := s.workers[w := Ready], out := s.out + [y], emitted := s.emitted + [y])
  }

  /** Return from the outer select: the input is closed, or the context is done. */
  function Exit<I, O>(s: State<I, O>, w: nat): State<I, O>
    requires At(s, w) && s.workers[w].Ready?
  {
    s.(workers := s.workers[w := Done], wg := s.wg - 1)
  }

  /** Return from the sending select because the context is done. */
  function Drop<I, O>(s: State<I, O>, w: nat): State<I, O>
    requires At(s, w) && s.workers[w].Sending?
  {
    s.(workers := s.workers[w := Done], wg := s.wg - 1,
       dropped := s.dropped + [s.workers[w].val])
  }

  /** The closer goroutine is still waiting and wg.Wait returns. */
  predicate CanClose<I, O>(s: State<I, O>)
  {
    !s.closed && s.wg == 0
  }

  function Close<I, O>(s: State<I, O>): State<I, O>
  {
    s.(closed := true)
  }

  /** The consumer of the output channel takes the oldest result. */
  function Take<I, O>(s: State<I, O>): State<I, O>
    requires s.out != []
  {
    s.(out := s.out[1..])
  }

  // ---------- what the results ought to be ----------

  /** The results of one call: one, or none if fn fails. */
  function Outcome<I, O>(fn: Fn<I, O>, past: seq<I>, x: I): seq<O>
  {
    match Call(fn, past, x)
    case None => []
    case Some(y) => [y]
  }

  /** The results of calling fn on every item in order, failures left out. */
  function Results<I, O>(fn: Fn<I, O>, xs: seq<I>): seq<O>
  {
    if xs == [] then []
    else Results(fn, xs[..|xs| - 1]) + Outcome(fn, xs[..|xs| - 1], xs[|xs| - 1])
  }

  lemma ResultsStep<I, O>(fn: Fn<I, O>, xs: seq<I>, x: I)
    ensures Results(fn, []) == []
    ensures Results(fn, xs + [x]) == Results(fn, xs) + Outcome(fn, xs, x)
    ensures Outcome(fn, xs, x) == match fn(xs, x) case None => [] case Some(y) => [y]
  {
    assert (xs + [x])[..|xs|] == xs;
  }

  // ---------- what the workers have in hand ----------

  /** The item inside fn. */
  function Item<I, O>(w: Worker<I, O>): seq<I>
  {
    if w.Busy? then [w.item] else []
  }

  /** The result waiting to be sent. */
  function Result<I, O>(w: Worker<I, O>): seq<O>
  {
    if w.Sending? then [w.val] else []
  }

  /** What the first n workers have in hand. */
  function GatherTo<W, T>(ws: seq<W>, f: W -> seq<T>, n: nat): seq<T>
    requires n <= |ws|
  {
    if n == 0 then [] else GatherTo(ws, f, n - 1) + f(ws[n - 1])
  }

  function Gather<W, T>(ws: seq<W>, f: W -> seq<T>): seq<T>
  {
    GatherTo(ws, f, |ws|)
  }

  lemma Regroup<T>(a: seq<T>, b: seq<T>, c: seq<T>, d: seq<T>)
    ensures (a + b + c) + d == a + b + (c + d)
  {
  }

  lemma {:induction false} GatherToOthers<W, T>(ws: seq<W>, f: W -> seq<T>, w: nat, v: W, n: nat)
    requires n <= w < |ws|
    ensures GatherTo(ws[w := v], f, n) == GatherTo(ws, f, n)
    decreases n
  {
    if n == 0 {
    } else {
      GatherToOthers(ws, f, w, v, n - 1);
    }
  }

  /** Changing one worker changes what is gathered in one place only. */
  lemma {:induction false} GatherToUpdate<W, T>(ws: seq<W>, f: W -> seq<T>, w: nat, v: W, n: nat)
    returns (pre: seq<T>, post: seq<T>)
    requires w < n <= |ws|
    ensures GatherTo(ws, f, n) == pre + f(ws[w]) + post
    ensures GatherTo(ws[w := v], f, n) == pre + f(v) + post
    ensures n == 1 ==> pre == [] && post == []
    decreases n
  {
    if w < n - 1 {
      var p, q := GatherToUpdate(ws, f, w, v, n - 1);
      Regroup(p, f(ws[w]), q, f(ws[n - 1]));
      Regroup(p, f(v), q, f(ws[n - 1]));
      pre, post := p, q + f(ws[n - 1]);
    } else {
      GatherToOthers(ws, f, w, v, w);
      pre, post := GatherTo(ws, f, w), [];
      assert pre + f(v) + [] == pre + f(v);
      assert pre + f(ws[w]) + [] == pre + f(ws[w]);
    }
  }

  lemma GatherUpdate<W, T>(ws: seq<W>, f: W -> seq<T>, w: nat, v: W) returns (pre: seq<T>, post: seq<T>)
    requires w < |ws|
    ensures Gather(ws, f) == pre + f(ws[w]) + post
    ensures Gather(ws[w := v], f) == pre + f(v) + post
    ensures |ws| == 1 ==> pre == [] && post == []
    ensures f(v) == f(ws[w]) ==> Gather(ws[w := v], f) == Gather(ws, f)
  {
    pre, post := GatherToUpdate(ws, f, w, v, |ws|);
  }

  lemma {:induction false} NothingInHand<W, T>(ws: seq<W>, f: W -> seq<T>, n: nat)
    requires n <= |ws| && forall w :: 0 <= w < |ws| ==> f(ws[w]) == []
    ensures GatherTo(ws, f, n) == []
    decreases n
  {
    if n == 0 {
    } else {
      NothingInHand(ws, f, n - 1);
    }
  }

  lemma Gathered<W, T>(ws: seq<W>, f: W -> seq<T>)
    requires forall w :: 0 <= w < |ws| ==> f(ws[w]) == []
    ensures Gather(ws, f) == []
  {
    NothingInHand(ws, f, |ws|);
  }

  // ---------- the invariant ----------

  function Live<I, O>(w: Worker<I, O>): int { if w.Done? then 0 else 1 }
  function Working<I, O>(w: Worker<I, O>): int { if w.Busy? then 1 else 0 }
  function Holding<I, O>(w: Worker<I, O>): int { if w.Sending? then 1 else 0 }

  /** The wait group counts the workers that have not returned, and the channel is only closed at zero. */
  ghost predicate CloseInv<I, O>(size: Size, s: State<I, O>)
  {
    && |s.workers| == size.workers
    && s.wg == Sums.Sum(s.workers, Live)
    && (s.closed ==> s.wg == 0)
    && |s.out| <= size.buffer
  }

  /** Every processed item is an error, a latency, or inside fn; every latency is sent, held or dropped. */
  ghost predicate CountInv<I, O>(s: State<I, O>)
  {
    && s.processed == |s.consumed|
    && s.processed == s.errors + s.latencies + Sums.Sum(s.workers, Working)
    && s.latencies == |s.emitted| + Sums.Sum(s.workers, Holding) + |s.dropped|
    && |s.dropped| + Sums.Sum(s.workers, Live) <= |s.workers|
  }

  /** a and b have the same elements, and if there is one worker only, in the same order. */
  ghost predicate Same<T>(alone: bool, a: seq<T>, b: seq<T>)
  {
    multiset(a) == multiset(b) && (alone ==> a == b)
  }

  /**
   What was consumed is what fn was called with and what is inside it; the results of those calls are
   those emitted, dropped, or still in a worker's hands.
   */
  ghost predicate ResultInv<I, O>(fn: Fn<I, O>, s: State<I, O>)
  {
    && Same(|s.workers| == 1, s.consumed, s.called + Gather(s.workers, Item))
    && Same(|s.workers| == 1, Results(fn, s.called), s.emitted + s.dropped + Gather(s.workers, Result))
  }

  ghost predicate Inv<I, O>(fn: Fn<I, O>, size: Size, s: State<I, O>)
  {
    CloseInv(size, s) && CountInv(s) && ResultInv(fn, s)
  }

  lemma InitInv<I, O>(fn: Fn<I, O>, size: Size)
    ensures Inv(fn, size, Init<I, O>(size))
  {
    InitCounts<I, O>(size);
    hide CloseInv, CountInv, Gather;
    var s := Init<I, O>(size);
    assert Gather(s.workers, Item) == [] by {
      Gathered<Worker<I, O>, I>(s.workers, Item);
    }
    assert Gather(s.workers, Result) == [] by {
      Gathered<Worker<I, O>, O>(s.workers, Result);
    }
    assert [] + Gather(s.workers, Item) == s.consumed && [] + [] + Gather(s.workers, Result) == s.emitted;
  }

  lemma InitCounts<I, O>(size: Size)
    ensures CloseInv(size, Init<I, O>(size)) && CountInv(Init<I, O>(size))
  {
    var s := Init<I, O>(size);
    Sums.SumWithin(s.workers, Live, 1, 1);
    Sums.SumZero(s.workers, Working);
    Sums.SumZero(s.workers, Holding);
  }

  /** The three head-counts follow a single worker's change. */
  lemma CountsUpdate<I, O>(ws: seq<Worker<I, O>>, w: nat, v: Worker<I, O>)
    requires w < |ws|
    ensures Sums.Sum(ws[w := v], Live) == Sums.Sum(ws, Live) - Live(ws[w]) + Live(v)
    ensures Sums.Sum(ws[w := v], Working) == Sums.Sum(ws, Working) - Working(ws[w]) + Working(v)
    ensures Sums.Sum(ws[w := v], Holding) == Sums.Sum(ws, Holding) - Holding(ws[w]) + Holding(v)
    ensures Live(ws[w]) <= Sums.Sum(ws, Live)
  {
    Sums.SumUpdate(ws, w, v, Live);
    Sums.SumUpdate(ws, w, v, Working);
    Sums.SumUpdate(ws, w, v, Holding);
    Sums.SumAtLeast(ws, Live, w);
  }

  /** What is added to a list is at first in a worker's hands. */
  lemma TakeOn<T>(alone: bool, all: seq<T>, done: seq<T>, pre: seq<T>, mid: seq<T>, post: seq<T>)
    requires Same(alone, all, done + (pre + [] + post)) && (alone ==> post == [])
    ensures Same(alone, all + mid, done + (pre + mid + post))
  {
    assert done + (pre + [] + post) == done + pre + post;
    assert done + (pre + mid + post) == done + pre + mid + post;
  }

  lemma MoveLeft<T>(a: seq<T>, m: seq<T>, y: T, b: seq<T>)
    ensures multiset(a + m + [y] + b) == multiset(a + [y] + m + b)
  {
    assert multiset(m + [y]) == multiset([y] + m);
    assert a + m + [y] + b == a + (m + [y]) + b;
    assert a + [y] + m + b == a + ([y] + m) + b;
  }

  lemma HandOverBag<T>(done: seq<T>, rest: seq<T>, pre: seq<T>, y: T, post: seq<T>)
    ensures multiset(done + rest + (pre + [y] + post)) == multiset(done + [y] + rest + (pre + [] + post))
  {
    MoveLeft(done, rest + pre, y, post);
    assert done + rest + (pre + [y] + post) == done + (rest + pre) + [y] + post;
    assert done + [y] + rest + (pre + [] + post) == done + [y] + (rest + pre) + post;
  }

  /** What leaves a worker's hands joins what is done. */
  lemma HandOver<T>(alone: bool, all: seq<T>, done: seq<T>, rest: seq<T>, pre: seq<T>, y: T, post: seq<T>)
    requires Same(alone, all, done + rest + (pre + [y] + post)) && (alone ==> pre == post == rest == [])
    ensures Same(alone, all, done + [y] + rest + (pre + [] + post))
  {
    HandOverBag(done, rest, pre, y, post);
    if alone {
      assert done + [] + ([] + [y] + []) == done + [y] + [] + ([] + [] + []);
    }
  }

  lemma ReceiveInv<I, O>(fn: Fn<I, O>, size: Size, s: State<I, O>, w: nat, x: I)
    requires Inv(fn, size, s) && At(s, w) && s.workers[w].Ready?
    ensures Inv(fn, size, Receive(s, w, x))
  {
    CountsUpdate(s.workers, w, Busy(x));
    ReceiveResult(fn, s, w, x);
  }

  lemma ReceiveResult<I, O>(fn: Fn<I, O>, s: State<I, O>, w: nat, x: I)
    requires ResultInv(fn, s) && At(s, w) && s.workers[w].Ready?
    ensures ResultInv(fn, Receive(s, w, x))
  {
    hide Results, Gather, Same;
    var pre, post := GatherUpdate<Worker<I, O>, I>(s.workers, Item, w, Busy(x));
    TakeOn(|s.workers| == 1, s.consumed, s.called, pre, [x], post);
    var _, _ := GatherUpdate<Worker<I, O>, O>(s.workers, Result, w, Busy(x));
  }

  lemma WorkInv<I, O>(fn: Fn<I, O>, size: Size, s: State<I, O>, w: nat)
    requires Inv(fn, size, s) && At(s, w) && s.workers[w].Busy?
    ensures Inv(fn, size, Work(fn, s, w))
  {
    WorkCounts(fn, size, s, w);
    WorkItems(fn, s, w);
    WorkResults(fn, s, w);
    hide CloseInv, CountInv, Same, Results, Gather, Work;
  }

  lemma WorkCounts<I, O>(fn: Fn<I, O>, size: Size, s: State<I, O>, w: nat)
    requires CloseInv(size, s) && CountInv(s) && At(s, w) && s.workers[w].Busy?
    ensures CloseInv(size, Work(fn, s, w)) && CountInv(Work(fn, s, w))
  {
    CountsUpdate(s.workers, w, Work(fn, s, w).workers[w]);
  }

  lemma WorkItems<I, O>(fn: Fn<I, O>, s: State<I, O>, w: nat)
    requires ResultInv(fn, s) && At(s, w) && s.workers[w].Busy?
    ensures var s' := Work(fn, s, w);
            Same(|s'.workers| == 1, s'.consumed, s'.called + Gather(s'.workers, Item))
  {
    hide Results, Gather, Call, Same;
    var s' := Work(fn, s, w);
    var alone, x, xs := |s.workers| == 1, s.workers[w].item, s.called;
    var pre, post := GatherUpdate<Worker<I, O>, I>(s.workers, Item, w, s'.workers[w]);
    assert xs + [] + (pre + [x] + post) == xs + (pre + [x] + post);
    HandOver(alone, s.consumed, xs, [], pre, x, post);
    assert xs + [x] + [] == xs + [x];
  }

  lemma WorkResults<I, O>(fn: Fn<I, O>, s: State<I, O>, w: nat)
    requires ResultInv(fn, s) && At(s, w) && s.workers[w].Busy?
    ensures var s' := Work(fn, s, w);
            Same(|s'.workers| == 1, Results(fn, s'.called), s'.emitted + s'.dropped + Gather(s'.workers, Result))
  {
    var s', x := Work(fn, s, w), s.workers[w].item;
    ResultsStep(fn, s.called, x);
    var mid := Outcome(fn, s.called, x);
    assert Result(s'.workers[w]) == mid;
    hide Results, Gather, Call, Same;
    var pre, post := GatherUpdate<Worker<I, O>, O>(s.workers, Result, w, s'.workers[w]);
    TakeOn(|s.workers| == 1, Results(fn, s.called), s.emitted + s.dropped, pre, mid, post);
  }

  lemma SendInv<I, O>(fn: Fn<I, O>, size: Size, s: State<I, O>, w: nat)
    requires Inv(fn, size, s) && CanSend(size.buffer, s, w)
    ensures Inv(fn, size, Send(s, w))
  {
    hide Results, Gather, Same;
    CountsUpdate(s.workers, w, Ready);
    NothingDropped(s, w);
    var _, _ := GatherUpdate<Worker<I, O>, I>(s.workers, Item, w, Ready);
    var pre, post := GatherUpdate<Worker<I, O>, O>(s.workers, Result, w, Ready);
    HandOver(|s.workers| == 1, Results(fn, s.called), s.emitted, s.dropped, pre, s.workers[w].val, post);
  }

  /** A lone worker that is still running has dropped nothing. */
  lemma NothingDropped<I, O>(s: State<I, O>, w: nat)
    requires CountInv(s) && At(s, w) && !s.workers[w].Done?
    ensures |s.workers| == 1 ==> s.dropped == []
  {
    Sums.SumAtLeast(s.workers, Live, w);
  }

  lemma ExitInv<I, O>(fn: Fn<I, O>, size: Size, s: State<I, O>, w: nat)
    requires Inv(fn, size, s) && At(s, w) && s.workers[w].Ready?
    ensures Inv(fn, size, Exit(s, w))
  {
    hide Results, Gather, Same;
    CountsUpdate(s.workers, w, Done);
    var _, _ := GatherUpdate<Worker<I, O>, I>(s.workers, Item, w, Done);
    var _, _ := GatherUpdate<Worker<I, O>, O>(s.workers, Result, w, Done);
  }

  lemma DropInv<I, O>(fn: Fn<I, O>, size: Size, s: State<I, O>, w: nat)
    requires Inv(fn, size, s) && At(s, w) && s.workers[w].Sending?
    ensures Inv(fn, size, Drop(s, w))
  {
    DropCounts(size, s, w);
    DropResults(fn, s, w);
    var _, _ := GatherUpdate<Worker<I, O>, I>(s.workers, Item, w, Done);
    hide CloseInv, CountInv, Same, Results, Gather;
  }

  lemma DropCounts<I, O>(size: Size, s: State<I, O>, w: nat)
    requires CloseInv(size, s) && CountInv(s) && At(s, w) && s.workers[w].Sending?
    ensures CloseInv(size, Drop(s, w)) && CountInv(Drop(s, w))
  {
    CountsUpdate(s.workers, w, Done);
  }

  lemma DropResults<I, O>(fn: Fn<I, O>, s: State<I, O>, w: nat)
    requires ResultInv(fn, s) && At(s, w) && s.workers[w].Sending?
    ensures var s' := Drop(s, w);
            Same(|s'.workers| == 1, Results(fn, s'.called), s'.emitted + s'.dropped + Gather(s'.workers, Result))
  {
    hide Results, Gather, Same;
    var pre, post := GatherUpdate<Worker<I, O>, O>(s.workers, Result, w, Done);
    var done, y := s.emitted + s.dropped, s.workers[w].val;
    assert done + [] == done;
    HandOver(|s.workers| == 1, Results(fn, s.called), done, [], pre, y, post);
    assert done + [y] + [] == s.emitted + (s.dropped + [y]);
  }

  lemma CloseTakeInv<I, O>(fn: Fn<I, O>, size: Size, s: State<I, O>)
    requires Inv(fn, size, s)
    ensures CanClose(s) ==> Inv(fn, size, Close(s))
    ensures s.out != [] ==> Inv(fn, size, Take(s))
  {
  }

  // ---------- what the invariant gives ----------

  /** No worker can send on a closed channel: it is closed only after every worker has returned. */
  lemma ClosedMeansAllGone<I, O>(size: Size, s: State<I, O>)
    requires CloseInv(size, s)
    ensures s.closed || CanClose(s) ==> forall w :: 0 <= w < |s.workers| ==> s.workers[w].Done?
    ensures (forall w :: 0 <= w < |s.workers| ==> s.workers[w].Done?) ==> s.closed || CanClose(s)
  {
    Sums.SumZero(s.workers, Live);
    if forall w :: 0 <= w < |s.workers| ==> s.workers[w].Done? {
      assert forall w :: 0 <= w < |s.workers| ==> Live(s.workers[w]) == 0;
    }
    if s.wg == 0 {
      forall w | 0 <= w < |s.workers| ensures s.workers[w].Done? {
        assert Live(s.workers[w]) == 0;
      }
    }
  }

  /** Cancellation loses at most one computed result per worker. */
  lemma DroppedWithinWorkers<I, O>(fn: Fn<I, O>, size: Size, s: State<I, O>)
    requires Inv(fn, size, s)
    ensures |s.dropped| <= size.workers && 0 <= s.wg
  {
    Sums.SumNonNegative(s.workers, Live);
  }

  /** The items in a stage's hands: one per worker at most. */
  function Held<I, O>(s: State<I, O>): int
  {
    Sums.Sum(s.workers, Working) + Sums.Sum(s.workers, Holding)
  }

  lemma {:induction false} HeldWithinWorkers<I, O>(ws: seq<Worker<I, O>>)
    ensures 0 <= Sums.Sum(ws, Working) + Sums.Sum(ws, Holding) <= |ws|
    ensures Sums.Sum(ws, Working) >= 0 && Sums.Sum(ws, Holding) >= 0
    decreases |ws|
  {
    if ws == [] {
    } else {
      HeldWithinWorkers(ws[..|ws| - 1]);
    }
  }

  /** fn is called with what was consumed, and nothing comes out that it did not return. */
  lemma EmittedWithin<I, O>(fn: Fn<I, O>, s: State<I, O>)
    requires ResultInv(fn, s)
    ensures multiset(s.called) <= multiset(s.consumed)
    ensures multiset(s.emitted) <= multiset(Results(fn, s.called))
    ensures |s.workers| == 1 ==> s.called <= s.consumed && s.emitted <= Results(fn, s.called)
  {
    hide Results, Gather;
    var held := Gather(s.workers, Result);
    assert s.emitted + s.dropped + held == s.emitted + (s.dropped + held);
  }

  /** All of it has come out once every worker has returned without dropping anything. */
  lemma EmittedExactly<I, O>(fn: Fn<I, O>, s: State<I, O>)
    requires ResultInv(fn, s) && s.dropped == []
    requires forall w :: 0 <= w < |s.workers| ==> s.workers[w].Done?
    ensures Same(|s.workers| == 1, s.consumed, s.called)
    ensures Same(|s.workers| == 1, s.emitted, Results(fn, s.called))
  {
    Gathered<Worker<I, O>, I>(s.workers, Item);
    Gathered<Worker<I, O>, O>(s.workers, Result);
    assert s.emitted + [] + [] == s.emitted && s.called + [] == s.called;
  }

  // ---------- functions that keep nothing ----------

  /** The results of one item. */
  function Kept<I, O>(f: I -> Option<O>, x: I): seq<O>
  {
    match f(x)
    case None => []
    case Some(y) => [y]
  }

  /** f applied to every input in order, failures left out. */
  function FilterMap<I, O>(f: I -> Option<O>, xs: seq<I>): seq<O>
  {
    if xs == [] then [] else FilterMap(f, xs[..|xs| - 1]) + Kept(f, xs[|xs| - 1])
  }

  /** fn ignores the past. */
  ghost predicate IsPure<I(!new), O>(fn: Fn<I, O>, f: I -> Option<O>)
  {
    forall past, x :: fn(past, x) == f(x)
  }

  lemma {:induction false} PureResults<I(!new), O>(fn: Fn<I, O>, f: I -> Option<O>, xs: seq<I>)
    requires IsPure(fn, f)
    ensures Results(fn, xs) == FilterMap(f, xs)
    decreases |xs|
  {
    if xs == [] {
    } else {
      PureResults(fn, f, xs[..|xs| - 1]);
      assert Outcome(fn, xs[..|xs| - 1], xs[|xs| - 1]) == Kept(f, xs[|xs| - 1]);
    }
  }

  lemma FilterMapNil<I, O>(f: I -> Option<O>)
    ensures FilterMap(f, []) == []
  {
  }

  lemma FilterMapOne<I, O>(f: I -> Option<O>, x: I)
    ensures FilterMap(f, [x]) == Kept(f, x)
  {
    assert [x][..0] == [];
    assert [] + Kept(f, x) == Kept(f, x);
  }

  lemma FilterMapLast<I, O>(f: I -> Option<O>, xs: seq<I>, x: I)
    ensures FilterMap(f, []) == []
    ensures FilterMap(f, xs + [x]) == FilterMap(f, xs) + Kept(f, x)
    ensures Kept(f, x) == match f(x) case None => [] case Some(y) => [y]
  {
    assert (xs + [x])[..|xs|] == xs;
  }

  lemma Associate<T>(a: seq<T>, b: seq<T>, c: seq<T>)
    ensures a + b + c == a + (b + c)
  {
  }

  lemma {:induction false} FilterMapAppend<I, O>(f: I -> Option<O>, xs: seq<I>, ys: seq<I>)
    ensures FilterMap(f, xs + ys) == FilterMap(f, xs) + FilterMap(f, ys)
    decreases |ys|
  {
    if ys == [] {
      assert xs + ys == xs;
      FilterMapNil(f);
      hide FilterMap;
      assert FilterMap(f, xs) + [] == FilterMap(f, xs);
    } else {
      hide FilterMap, Kept;
      var front, y := ys[..|ys| - 1], ys[|ys| - 1];
      FilterMapAppend(f, xs, front);
      assert ys == front + [y];
      Associate(xs, front, [y]);
      FilterMapLast(f, front, y);
      FilterMapLast(f, xs + front, y);
      Associate(FilterMap(f, xs), FilterMap(f, front), Kept(f, y));
    }
  }

  lemma {:induction false} FilterMapRemove<I, O>(f: I -> Option<O>, xs: seq<I>, i: nat)
    requires i < |xs|
    ensures multiset(FilterMap(f, xs))
            == multiset(FilterMap(f, xs[..i] + xs[i + 1..])) + multiset(Kept(f, xs[i]))
  {
    assert xs == xs[..i] + [xs[i]] + xs[i + 1..];
    FilterMapAppend(f, xs[..i] + [xs[i]], xs[i + 1..]);
    FilterMapAppend(f, xs[..i], [xs[i]]);
    FilterMapAppend(f, xs[..i], xs[i + 1..]);
    FilterMapOne(f, xs[i]);
  }

  /** Every result is that of some item. */
  lemma {:induction false} FilterMapFrom<I, O>(f: I -> Option<O>, xs: seq<I>, y: O) returns (i: nat)
    requires y in FilterMap(f, xs)
    ensures i < |xs| && f(xs[i]) == Some(y)
    decreases |xs|
  {
    var front, last := xs[..|xs| - 1], |xs| - 1;
    if f(xs[last]) == Some(y) {
      i := last;
    } else {
      assert y in FilterMap(f, front);
      i := FilterMapFrom(f, front, y);
    }
  }

  lemma CancelOne<T>(a: multiset<T>, b: multiset<T>, x: T)
    requires a + multiset{x} <= b + multiset{x}
    ensures a <= b
  {
    forall y ensures a[y] <= b[y] {
      assert (a + multiset{x})[y] <= (b + multiset{x})[y];
    }
  }

  /** Filter-map of fewer items, in any order, yields no more results. */
  lemma {:induction false} FilterMapMonotone<I, O>(f: I -> Option<O>, xs: seq<I>, ys: seq<I>)
    requires multiset(xs) <= multiset(ys)
    ensures multiset(FilterMap(f, xs)) <= multiset(FilterMap(f, ys))
    decreases |xs|
  {
    if xs == [] {
    } else {
      var front, x := xs[..|xs| - 1], xs[|xs| - 1];
      assert xs == front + [x];
      assert x in multiset(ys);
      var i :| 0 <= i < |ys| && ys[i] == x;
      var rest := ys[..i] + ys[i + 1..];
      assert ys == ys[..i] + [x] + ys[i + 1..];
      assert multiset(ys) == multiset(rest) + multiset{x};
      CancelOne(multiset(front), multiset(rest), x);
      FilterMapMonotone(f, front, rest);
      FilterMapRemove(f, ys, i);
    }
  }

  lemma FilterMapPrefix<I, O>(f: I -> Option<O>, xs: seq<I>, ys: seq<I>)
    requires xs <= ys
    ensures FilterMap(f, xs) <= FilterMap(f, ys)
  {
    assert ys == xs + ys[|xs|..];
    FilterMapAppend(f, xs, ys[|xs|..]);
  }

  lemma PrefixOfPart<T>(a: seq<T>, b: seq<T>, c: seq<T>, d: seq<T>)
    requires a <= b && b + c <= d
    ensures a <= d
  {
    assert b == (b + c)[..|b|] == d[..|b|];
  }

  /**
   A stage whose input so far, read or not, is within `due` (as a multiset, or as a prefix) has
   emitted no more than the filter-map of `due`.
   */
  lemma WithinDue<I(!new), O>(fn: Fn<I, O>, f: I -> Option<O>, s: State<I, O>, unread: seq<I>, due: seq<I>)
    requires ResultInv(fn, s) && IsPure(fn, f)
    ensures multiset(s.consumed + unread) <= multiset(due) ==>
              multiset(s.emitted) <= multiset(FilterMap(f, due))
    ensures |s.workers| == 1 && s.consumed + unread <= due ==> s.emitted <= FilterMap(f, due)
  {
    EmittedWithin(fn, s);
    PureResults(fn, f, s.called);
    hide FilterMap, Results, ResultInv, IsPure;
    var called, consumed := s.called, s.consumed;
    if multiset(consumed + unread) <= multiset(due) {
      assert multiset(consumed + unread) == multiset(consumed) + multiset(unread);
      FilterMapMonotone(f, called, due);
    }
    if |s.workers| == 1 && consumed + unread <= due {
      PrefixOfPart(called, consumed, unread, due);
      FilterMapPrefix(f, called, due);
    }
  }

  /** The results of a pure function do not depend on the order of the calls, but for their own order. */
  lemma PureExactly<I(!new), O>(fn: Fn<I, O>, f: I -> Option<O>, called: seq<I>, due: seq<I>)
    requires IsPure(fn, f) && multiset(called) == multiset(due)
    ensures multiset(Results(fn, called)) == multiset(FilterMap(f, due))
  {
    PureResults(fn, f, called);
    FilterMapMonotone(f, called, due);
    FilterMapMonotone(f, due, called);
  }

  // ---------- a stage in memory ----------

  /** What Run shares between its goroutines: the workers, the wait group, the output channel and the metrics. */
  class StageRun<I(0), O> {
    const fn: Fn<I, O>
    const size: Size
    const workers: array<Worker<I, O>>
    var wg: int
    var out: seq<O>
    var closed: bool
    var processed: nat
    var errors: nat
    var latencies: nat
    var called: seq<I>
    ghost var consumed: seq<I>
    ghost var emitted: seq<O>
    ghost var dropped: seq<O>

    ghost predicate Valid()
      reads this, workers
    {
      Inv(fn, size, Snapshot())
    }

    ghost function Snapshot(): State<I, O>
      reads this, workers
    {
      State(workers[..], wg, out, closed, processed, errors, latencies, called, consumed, emitted, dropped)
    }

    /** NewStage and the start of Run: sizes put right, an empty output channel, every worker about to loop. */
    constructor (workerCount: int, bufferSize: int, fn: Fn<I, O>)
      ensures Valid() && fresh(workers)
      ensures this.fn == fn && size == SizeOf(workerCount, bufferSize)
      ensures Snapshot() == Init(size)
    {
      var size := SizeOf(workerCount, bufferSize);
      this.size, this.fn := size, fn;
      workers := new Worker<I, O>[size.workers](_ => Ready);
      wg, out, closed := size.workers, [], false;
      processed, errors, latencies := 0, 0, 0;
      called, consumed, emitted, dropped := [], [], [], [];
      new;
      assert workers[..] == Init<I, O>(size).workers;
      InitInv<I, O>(fn, size);
    }

    predicate IsReady(w: nat)
      reads this, workers
      ensures IsReady(w) <==> At(Snapshot(), w) && Snapshot().workers[w].Ready?
    {
      w < workers.Length && workers[w].Ready?
    }

    predicate IsBusy(w: nat)
      reads this, workers
      ensures IsBusy(w) <==> At(Snapshot(), w) && Snapshot().workers[w].Busy?
    {
      w < workers.Length && workers[w].Busy?
    }

    predicate IsSending(w: nat)
      reads this, workers
      ensures IsSending(w) <==> At(Snapshot(), w) && Snapshot().workers[w].Sending?
    {
      w < workers.Length && workers[w].Sending?
    }

    method ReceiveItem(w: nat, x: I)
      requires w < workers.Length && workers[w].Ready?
      modifies this, workers
      ensures Snapshot() == Receive(old(Snapshot()), w, x)
    {
      processed := processed + 1;
      consumed := consumed + [x];
      workers[w] := Busy(x);
    }

    method CallFn(w: nat)
      requires w < workers.Length && workers[w].Busy?
      modifies this, workers
      ensures Snapshot() == Work(fn, old(Snapshot()), w)
    {
      var r := Call(fn, called, workers[w].item);
      called := called + [workers[w].item];
      if r.None? {
        errors := errors + 1;
        workers[w] := Ready;
      } else {
        latencies := latencies + 1;
        workers[w] := Sending(r.value);
      }
    }

    method SendResult(w: nat)
      requires w < workers.Length && workers[w].Sending? && |out| < size.buffer
      modifies this, workers
      ensures Snapshot() == Send(old(Snapshot()), w)
    {
      out := out + [workers[w].val];
      emitted := emitted + [workers[w].val];
      workers[w] := Ready;
    }

    /** The worker returns, from whichever select; a result in hand is lost. */
    method Return(w: nat)
      requires w < workers.Length && (workers[w].Ready? || workers[w].Sending?)
      modifies this, workers
      ensures Snapshot() == if old(workers[w]).Ready? then Exit(old(Snapshot()), w) else Drop(old(Snapshot()), w)
    {
      if workers[w].Sending? { dropped := dropped + [workers[w].val]; }
      wg := wg - 1;
      workers[w] := Done;
    }

    /** The closer, once the wait group is down to zero; every worker has returned by then. */
    method CloseOut()
      requires !closed && wg == 0
      modifies this
      ensures Snapshot() == Close(old(Snapshot()))
      ensures old(Valid()) ==> Valid() && forall w :: 0 <= w < workers.Length ==> workers[w].Done?
    {
      if Valid() {
        ClosedMeansAllGone(size, Snapshot());
        assert forall w :: 0 <= w < workers.Length ==> workers[w] == Snapshot().workers[w];
      }
      closed := true;
    }

    method TakeResult() returns (y: O)
      requires out != []
      modifies this
      ensures Snapshot() == Take(old(Snapshot())) && y == old(out)[0]
    {
      y := out[0];
      out := out[1..];
    }

    /** A lone worker that has no item in hand, and a drained, open output channel. */
    ghost predicate AloneAndReady()
      reads this, workers
    {
      && Valid() && size.buffer > 0 && workers.Length == 1
      && workers[0] == Ready && out == [] && !closed && dropped == [] && called == consumed
    }

    /** One round of a lone worker's loop, its result drained at once. */
    method ProcessAlone(x: I) returns (results: seq<O>)
      requires AloneAndReady()
      modifies this, workers
      ensures AloneAndReady()
      ensures results == Outcome(fn, old(consumed), x)
      ensures results == match fn(old(consumed), x) case None => [] case Some(y) => [y]
      ensures consumed == old(consumed) + [x] && emitted == old(emitted) + results
    {
      hide Inv;
      results := [];
      ghost var s0 := Snapshot();
      ReceiveItem(0, x);
      ghost var s1 := Snapshot();
      ReceiveInv(fn, size, s0, 0, x);
      assert workers[0] == s1.workers[0];
      CallFn(0);
      ghost var s2 := Snapshot();
      WorkInv(fn, size, s1, 0);
      assert workers[0] == s2.workers[0];
      if workers[0].Sending? {
        SendResult(0);
        ghost var s3 := Snapshot();
        SendInv(fn, size, s2, 0);
        assert workers[0] == s3.workers[0];
        var y := TakeResult();
        CloseTakeInv(fn, size, s3);
        assert workers[0] == Snapshot().workers[0];
        results := [y];
      }
    }

    /**
     The loop of a lone worker over an input channel that holds `input` and is then closed, with a
     consumer that keeps draining: the results come out in order, and the output is closed.
     */
    method RunAlone(input: seq<I>) returns (results: seq<O>)
      requires AloneAndReady() && consumed == [] && emitted == []
      modifies this, workers
      ensures Valid() && closed
      ensures results == Results(fn, input)
      ensures processed == |input| && errors + |results| == |input|
    {
      hide Inv;
      results := [];
      for i := 0 to |input|
        invariant AloneAndReady() && consumed == input[..i]
        invariant results == emitted == Results(fn, input[..i])
      {
        var more := ProcessAlone(input[i]);
        assert input[..i + 1][..i] == input[..i];
        results := results + more;
      }
      assert input[..|input|] == input;
      FinishAlone();
    }

    /** The input is closed: the lone worker returns, and the closer closes the output. */
    method FinishAlone()
      requires AloneAndReady()
      modifies this, workers
      ensures Valid() && closed
      ensures consumed == old(consumed) && emitted == old(emitted)
      ensures processed == |consumed| && errors + |emitted| == |consumed|
    {
      ExitInv(fn, size, Snapshot(), 0);
      Return(0);
      assert Snapshot().workers[0] == Done;
      ClosedMeansAllGone(size, Snapshot());
      CloseOut();
      Sums.SumZero(Snapshot().workers, Working);
      Sums.SumZero(Snapshot().workers, Holding);
    }
  }
}
