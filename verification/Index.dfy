/**
 EmbeddingIndex: near-duplicate detection by W workers. The search (under the read lock) and the add
 (under the write lock) are separate critical sections, so they are separate steps here. The graph is a
 map and a search is exact when the configuration says so; without that it names any stored document.
 */
module Index {
  import opened Wrappers
  import opened Sums

  type Vec = seq<real>

  datatype Doc = Doc(id: string, vec: Vec)

  /** As the source returns it: nearestId and similarity are zero values when nothing was found. */
  datatype DedupResult = DedupResult(id: string, isDuplicate: bool, nearestId: string, similarity: real)

  datatype Config = Config(workers: nat, threshold: real, sim: (Vec, Vec) -> real, exact: bool)

  /** Inside DedupAndIndex: called, or past the search with the answer in hand. */
  datatype Worker = Idle | Called(doc: Doc) | Searched(doc: Doc, result: DedupResult)

  /** The stretch of time from a document's search to its addition, and whose it was. */
  datatype Span = Span(worker: nat, searchAt: nat, addAt: nat)

  /** What was returned for a document, and how many documents had been added when it was searched. */
  datatype Report = Report(doc: Doc, result: DedupResult, seen: nat)

  /**
   What happened so far; no step reads it. `at` and `seen` are each worker's latest search: when it was, and
   how many documents had been added by then.
   */
  datatype History = History(clock: nat, at: seq<nat>, seen: seq<nat>, spans: map<string, Span>, added: seq<Doc>,
                             returned: seq<Report>)

  datatype State = State(graph: map<string, Vec>, processed: nat, duplicates: nat, workers: seq<Worker>, h: History)

  datatype Action = Call(w: nat, doc: Doc) | Search(w: nat, found: Option<string>) | Finish(w: nat)

  function Init(c: Config): State
  {
    State(map[], 0, 0, seq(c.workers, _ => Idle),
          History(0, seq(c.workers, _ => 0), seq(c.workers, _ => 0), map[], [], []))
  }

  /** An answer the search may give: a stored key, and under exact search a nearest one if there is any. */
  ghost predicate Answer(c: Config, graph: map<string, Vec>, vec: Vec, found: Option<string>)
  {
    && (found.Some? ==> found.value in graph)
    && (c.exact && found.None? ==> graph == map[])
    && (c.exact && found.Some? ==>
          forall k :: k in graph ==> c.sim(vec, graph[k]) <= c.sim(vec, graph[found.value]))
  }

  function Decide(c: Config, graph: map<string, Vec>, doc: Doc, found: Option<string>): DedupResult
    requires found.Some? ==> found.value in graph
  {
    match found
    case None => DedupResult(doc.id, false, "", 0.0)
    case Some(k) =>
      var similarity := c.sim(doc.vec, graph[k]);
      DedupResult(doc.id, similarity >= c.threshold, k, similarity)
  }

  ghost predicate Sized(c: Config, s: State)
  {
    |s.workers| == |s.h.at| == |s.h.seen| == c.workers
  }

  ghost predicate Enabled(c: Config, s: State, a: Action)
    requires Sized(c, s)
  {
    match a
    case Call(w, doc) => w < c.workers && s.workers[w].Idle?
    case Search(w, found) => w < c.workers && s.workers[w].Called? && Answer(c, s.graph, s.workers[w].doc.vec, found)
    case Finish(w) => w < c.workers && s.workers[w].Searched?
  }

  function Calling(s: State, w: nat, doc: Doc): State
    requires w < |s.workers|
  {
    State(s.graph, s.processed + 1, s.duplicates, s.workers[w := Called(doc)], s.h.(clock := s.h.clock + 1))
  }

  function Searching(c: Config, s: State, w: nat, found: Option<string>): State
    requires w < |s.workers| == |s.h.at| == |s.h.seen| && s.workers[w].Called?
    requires found.Some? ==> found.value in s.graph
  {
    var doc := s.workers[w].doc;
    State(s.graph, s.processed, s.duplicates,
          s.workers[w := Searched(doc, Decide(c, s.graph, doc, found))],
          s.h.(at := s.h.at[w := s.h.clock], seen := s.h.seen[w := |s.h.added|], clock := s.h.clock + 1))
  }

  function Finishing(s: State, w: nat): State
    requires w < |s.workers| == |s.h.at| == |s.h.seen| && s.workers[w].Searched?
  {
    var doc, result, h := s.workers[w].doc, s.workers[w].result, s.h;
    var report := Report(doc, result, h.seen[w]);
    if result.isDuplicate then
      State(s.graph, s.processed, s.duplicates + 1, s.workers[w := Idle],
            h.(returned := h.returned + [report], clock := h.clock + 1))
    else
      State(s.graph[doc.id := doc.vec], s.processed, s.duplicates, s.workers[w := Idle],
            History(h.clock + 1, h.at, h.seen, h.spans[doc.id := Span(w, h.at[w], h.clock)],
                    h.added + [doc], h.returned + [report]))
  }

  ghost function Next(c: Config, s: State, a: Action): (s': State)
    requires Sized(c, s) && Enabled(c, s, a)
    ensures Sized(c, s')
  {
    match a
    case Call(w, doc) => Calling(s, w, doc)
    case Search(w, found) => Searching(c, s, w, found)
    case Finish(w) => Finishing(s, w)
  }

  /** The state a run reaches, if every action of the run was enabled in its turn. */
  ghost function Exec(c: Config, acts: seq<Action>): (r: Option<State>)
    ensures r.Some? ==> Sized(c, r.value)
  {
    if acts == [] then Some(Init(c))
    else
      match Exec(c, acts[..|acts| - 1])
      case None => None
      case Some(s) =>
        if Enabled(c, s, acts[|acts| - 1]) then Some(Next(c, s, acts[|acts| - 1])) else None
  }

  // ---------- the invariant ----------

  ghost predicate ClockInv(c: Config, s: State)
    requires Sized(c, s)
  {
    && s.graph.Keys == s.h.spans.Keys
    && (forall k :: k in s.h.spans ==>
          s.h.spans[k].worker < c.workers && s.h.spans[k].searchAt < s.h.spans[k].addAt < s.h.clock)
    && (forall w :: 0 <= w < c.workers && s.workers[w].Searched? ==> s.h.at[w] < s.h.clock)
  }

  /** A worker handles one document at a time: its stretches do not overlap. */
  ghost predicate Disjoint(s: State)
  {
    forall j, k :: j in s.h.spans && k in s.h.spans && j != k && s.h.spans[j].worker == s.h.spans[k].worker ==>
      s.h.spans[j].addAt < s.h.spans[k].searchAt || s.h.spans[k].addAt < s.h.spans[j].searchAt
  }

  ghost predicate Behind(c: Config, s: State)
    requires Sized(c, s)
  {
    forall w, k :: 0 <= w < c.workers && s.workers[w].Searched? && k in s.h.spans && s.h.spans[k].worker == w ==>
      s.h.spans[k].addAt < s.h.at[w]
  }

  /** A stored document is below the threshold to all that were there when it was searched. */
  ghost predicate Sparse(c: Config, s: State)
    requires s.graph.Keys == s.h.spans.Keys
  {
    forall j, k :: j in s.graph && k in s.graph && s.h.spans[j].addAt < s.h.spans[k].searchAt ==>
      c.sim(s.graph[k], s.graph[j]) < c.threshold
  }

  /** And so is one about to be added. */
  ghost predicate Fresh(c: Config, s: State)
    requires Sized(c, s) && s.graph.Keys == s.h.spans.Keys
  {
    forall w, k :: 0 <= w < c.workers && s.workers[w].Searched? && !s.workers[w].result.isDuplicate
                   && k in s.graph && s.h.spans[k].addAt < s.h.at[w] ==>
      c.sim(s.workers[w].doc.vec, s.graph[k]) < c.threshold
  }

  lemma ClockStep(c: Config, s: State, a: Action)
    requires Sized(c, s) && ClockInv(c, s) && Enabled(c, s, a)
    ensures ClockInv(c, Next(c, s, a))
  {
    hide Answer, Decide;
    match a
    case Call(_, _) =>
    case Search(_, _) =>
    case Finish(w) => ClockFinish(c, s, w);
  }

  lemma ClockFinish(c: Config, s: State, w: nat)
    requires Sized(c, s) && ClockInv(c, s) && Enabled(c, s, Finish(w))
    ensures ClockInv(c, Next(c, s, Finish(w)))
  {
    var key, s' := s.workers[w].doc.id, Next(c, s, Finish(w));
    forall k | k in s'.h.spans
      ensures s'.h.spans[k].worker < c.workers && s'.h.spans[k].searchAt < s'.h.spans[k].addAt < s'.h.clock
    {
      assert s.workers[w].result.isDuplicate || k != key ==> s'.h.spans[k] == s.h.spans[k];
    }
  }

  lemma DisjointStep(c: Config, s: State, a: Action)
    requires Sized(c, s) && ClockInv(c, s) && Disjoint(s) && Behind(c, s) && Enabled(c, s, a)
    ensures Disjoint(Next(c, s, a))
  {
    hide Answer, Decide;
    if a.Finish? && !s.workers[a.w].result.isDuplicate {
      var w, key, spans := a.w, s.workers[a.w].doc.id, Next(c, s, a).h.spans;
      assert spans == s.h.spans[key := Span(w, s.h.at[w], s.h.clock)];
      hide Enabled, Next, ClockInv;
      forall j, k | j in spans && k in spans && j != k && spans[j].worker == spans[k].worker
        ensures spans[j].addAt < spans[k].searchAt || spans[k].addAt < spans[j].searchAt
      {
        if j == key {
          assert spans[k] == s.h.spans[k];
        } else if k == key {
          assert spans[j] == s.h.spans[j];
        } else {
          assert spans[j] == s.h.spans[j] && spans[k] == s.h.spans[k];
        }
      }
    }
  }

  lemma BehindStep(c: Config, s: State, a: Action)
    requires Sized(c, s) && ClockInv(c, s) && Behind(c, s) && Enabled(c, s, a)
    ensures Behind(c, Next(c, s, a))
  {
    hide Answer, Decide;
  }

  lemma SparseStep(c: Config, s: State, a: Action)
    requires Sized(c, s) && ClockInv(c, s) && Sparse(c, s) && Fresh(c, s) && Enabled(c, s, a)
    ensures ClockInv(c, Next(c, s, a)) && Sparse(c, Next(c, s, a))
  {
    ClockStep(c, s, a);
    hide Answer, Decide;
    if a.Finish? && !s.workers[a.w].result.isDuplicate {
      var w, key, s' := a.w, s.workers[a.w].doc.id, Next(c, s, a);
      forall j, k | j in s'.graph && k in s'.graph && s'.h.spans[j].addAt < s'.h.spans[k].searchAt
        ensures c.sim(s'.graph[k], s'.graph[j]) < c.threshold
      {
        assert j != key;
        assert s'.h.spans[j] == s.h.spans[j] && s'.graph[j] == s.graph[j];
        if k != key {
          assert s'.h.spans[k] == s.h.spans[k] && s'.graph[k] == s.graph[k];
        }
      }
    }
  }

  lemma FreshStep(c: Config, s: State, a: Action)
    requires Sized(c, s) && ClockInv(c, s) && Fresh(c, s) && Enabled(c, s, a) && c.exact
    ensures ClockInv(c, Next(c, s, a)) && Fresh(c, Next(c, s, a))
  {
    ClockStep(c, s, a);
    match a
    case Call(_, _) =>
    case Search(w, found) =>
      hide ClockInv;
    case Finish(w) =>
      hide Answer, Decide;
  }

  ghost predicate Inv(c: Config, s: State)
  {
    && Sized(c, s) && ClockInv(c, s) && Disjoint(s) && Behind(c, s)
    && (c.exact ==> Sparse(c, s) && Fresh(c, s))
  }

  lemma {:induction false} ReachableInv(c: Config, acts: seq<Action>)
    requires Exec(c, acts).Some?
    ensures Inv(c, Exec(c, acts).value)
    decreases |acts|
  {
    if acts == [] {
    } else {
      var s, a := Exec(c, acts[..|acts| - 1]).value, acts[|acts| - 1];
      ReachableInv(c, acts[..|acts| - 1]);
      hide ClockInv, Disjoint, Behind, Sparse, Fresh, Next, Enabled;
      ClockStep(c, s, a);
      DisjointStep(c, s, a);
      BehindStep(c, s, a);
      if c.exact {
        SparseStep(c, s, a);
        FreshStep(c, s, a);
      }
    }
  }

  // ---------- how many near-duplicates can be stored ----------

  /** Stored documents each of which is at least as similar to every other as the threshold. */
  ghost predicate Similar(c: Config, s: State, keys: set<string>)
  {
    && keys <= s.graph.Keys
    && forall j, k :: j in keys && k in keys && j != k ==> c.sim(s.graph[k], s.graph[j]) >= c.threshold
  }

  lemma {:induction false} Pigeonhole(keys: set<string>, f: map<string, nat>, n: nat)
    requires keys <= f.Keys && forall k :: k in keys ==> f[k] < n
    requires forall j, k :: j in keys && k in keys && j != k ==> f[j] != f[k]
    ensures |keys| <= n
    decreases n
  {
    if n == 0 {
      assert keys == {};
    } else if top :| top in keys && f[top] == n - 1 {
      Pigeonhole(keys - {top}, f, n - 1);
    } else {
      Pigeonhole(keys, f, n - 1);
    }
  }

  /** Their stretches overlap, every two of them: otherwise the later search had seen the earlier addition. */
  lemma SimilarOverlap(c: Config, s: State, keys: set<string>, j: string, k: string)
    requires Inv(c, s) && c.exact && Similar(c, s, keys) && j in keys && k in keys
    ensures s.h.spans[k].searchAt <= s.h.spans[j].addAt
  {
    if j != k {
      assert c.sim(s.graph[k], s.graph[j]) >= c.threshold;
    }
  }

  lemma {:induction false} LatestSearch(spans: map<string, Span>, keys: set<string>) returns (last: string)
    requires keys != {} && keys <= spans.Keys
    ensures last in keys && forall k :: k in keys ==> spans[k].searchAt <= spans[last].searchAt
    decreases |keys|
  {
    var k :| k in keys;
    if keys == {k} {
      last := k;
    } else {
      var rest := keys - {k};
      assert rest + {k} == keys;
      var other := LatestSearch(spans, rest);
      last := if spans[k].searchAt > spans[other].searchAt then k else other;
    }
  }

  /** The stretches that hold an instant t. */
  ghost predicate InFlight(s: State, keys: set<string>, t: nat)
    requires keys <= s.h.spans.Keys
  {
    forall k :: k in keys ==> s.h.spans[k].searchAt <= t <= s.h.spans[k].addAt
  }

  /**
   With W workers and exact search, however the critical sections interleave, at most W stored documents
   are pairwise as similar as the threshold, and all of them were between search and addition at once.
   */
  lemma SimilarAtMostWorkers(c: Config, acts: seq<Action>, keys: set<string>)
    requires c.exact && Exec(c, acts).Some? && Similar(c, Exec(c, acts).value, keys)
    ensures |keys| <= c.workers
    ensures var s := Exec(c, acts).value; keys <= s.h.spans.Keys && exists t: nat :: InFlight(s, keys, t)
  {
    ReachableInv(c, acts);
    var s := Exec(c, acts).value;
    forall j, k | j in keys && k in keys && j != k ensures s.h.spans[j].worker != s.h.spans[k].worker {
      SimilarOverlap(c, s, keys, j, k);
      SimilarOverlap(c, s, keys, k, j);
    }
    Pigeonhole(keys, map k | k in keys :: s.h.spans[k].worker, c.workers);
    if keys == {} {
      assert InFlight(s, keys, 0);
    } else {
      var last := LatestSearch(s.h.spans, keys);
      forall k | k in keys ensures s.h.spans[last].searchAt <= s.h.spans[k].addAt {
        SimilarOverlap(c, s, keys, k, last);
      }
      assert InFlight(s, keys, s.h.spans[last].searchAt);
    }
  }

  /** With one worker no two stored documents reach the threshold, in any reachable state. */
  lemma {:induction false} OneWorkerKeepsApart(c: Config, acts: seq<Action>, j: string, k: string)
    requires c.exact && c.workers == 1 && Exec(c, acts).Some?
    requires forall u, v :: c.sim(u, v) == c.sim(v, u)
    requires j in Exec(c, acts).value.graph && k in Exec(c, acts).value.graph && j != k
    ensures c.sim(Exec(c, acts).value.graph[j], Exec(c, acts).value.graph[k]) < c.threshold
  {
    var s := Exec(c, acts).value;
    if c.sim(s.graph[j], s.graph[k]) >= c.threshold {
      SimilarAtMostWorkers(c, acts, {j, k});
    }
  }

  // ---------- the bound is reached ----------

  lemma Extend(c: Config, acts: seq<Action>, a: Action)
    requires Exec(c, acts).Some? && Enabled(c, Exec(c, acts).value, a)
    ensures Exec(c, acts + [a]) == Some(Next(c, Exec(c, acts).value, a))
  {
    assert (acts + [a])[..|acts|] == acts;
  }

  function Unseen(doc: Doc): Worker
  {
    Searched(doc, DedupResult(doc.id, false, "", 0.0))
  }

  /** The state with nothing stored where the first j workers have got one step further than the others. */
  ghost predicate Halfway(c: Config, s: State, docs: seq<Doc>, j: nat, searching: bool)
    requires |docs| == c.workers && Sized(c, s)
  {
    && s.graph == map[]
    && forall w :: 0 <= w < c.workers ==>
         s.workers[w] == if searching then (if w < j then Unseen(docs[w]) else Called(docs[w]))
                         else if w < j then Called(docs[w]) else Idle
  }

  lemma {:induction false} CallAll(c: Config, docs: seq<Doc>, j: nat) returns (acts: seq<Action>)
    requires |docs| == c.workers && j <= c.workers
    ensures Exec(c, acts).Some? && Halfway(c, Exec(c, acts).value, docs, j, false)
  {
    if j == 0 {
      acts := [];
    } else {
      var before := CallAll(c, docs, j - 1);
      Extend(c, before, Call(j - 1, docs[j - 1]));
      acts := before + [Call(j - 1, docs[j - 1])];
    }
  }

  lemma {:induction false} SearchAll(c: Config, docs: seq<Doc>, j: nat) returns (acts: seq<Action>)
    requires |docs| == c.workers && j <= c.workers
    ensures Exec(c, acts).Some? && Halfway(c, Exec(c, acts).value, docs, j, true)
  {
    if j == 0 {
      acts := CallAll(c, docs, c.workers);
    } else {
      var before := SearchAll(c, docs, j - 1);
      Extend(c, before, Search(j - 1, None));
      acts := before + [Search(j - 1, None)];
    }
  }

  ghost predicate StoredUpTo(c: Config, s: State, docs: seq<Doc>, j: nat)
    requires |docs| == c.workers && Sized(c, s) && j <= c.workers
  {
    && (forall w :: j <= w < c.workers ==> s.workers[w] == Unseen(docs[w]))
    && (forall i :: 0 <= i < j ==> docs[i].id in s.graph && s.graph[docs[i].id] == docs[i].vec)
  }

  lemma StoreNext(c: Config, s: State, docs: seq<Doc>, j: nat)
    requires |docs| == c.workers && 0 < j <= c.workers && Sized(c, s) && StoredUpTo(c, s, docs, j - 1)
    requires forall i, k :: 0 <= i < k < |docs| ==> docs[i].id != docs[k].id
    ensures Enabled(c, s, Finish(j - 1)) && StoredUpTo(c, Next(c, s, Finish(j - 1)), docs, j)
  {
  }

  lemma {:induction false} FinishAll(c: Config, docs: seq<Doc>, j: nat) returns (acts: seq<Action>)
    requires |docs| == c.workers && j <= c.workers
    requires forall i, k :: 0 <= i < k < |docs| ==> docs[i].id != docs[k].id
    ensures Exec(c, acts).Some? && StoredUpTo(c, Exec(c, acts).value, docs, j)
  {
    if j == 0 {
      acts := SearchAll(c, docs, c.workers);
    } else {
      var before := FinishAll(c, docs, j - 1);
      StoreNext(c, Exec(c, before).value, docs, j);
      hide Enabled, Next, StoredUpTo;
      Extend(c, before, Finish(j - 1));
      acts := before + [Finish(j - 1)];
    }
  }

  function Ids(docs: seq<Doc>): (r: set<string>)
    ensures forall i :: 0 <= i < |docs| ==> docs[i].id in r
    ensures forall id :: id in r ==> exists i :: 0 <= i < |docs| && docs[i].id == id
  {
    set i | 0 <= i < |docs| :: docs[i].id
  }

  ghost predicate DistinctIds(docs: seq<Doc>)
  {
    forall i, k :: 0 <= i < k < |docs| ==> docs[i].id != docs[k].id
  }

  lemma {:induction false} IdsCount(docs: seq<Doc>)
    requires DistinctIds(docs)
    ensures |Ids(docs)| == |docs|
    decreases |docs|
  {
    if docs == [] {
    } else {
      var front, last := docs[..|docs| - 1], docs[|docs| - 1];
      IdsCount(front);
      assert docs == front + [last];
      assert Ids(docs) == Ids(front) + {last.id};
      assert last.id !in Ids(front);
    }
  }

  lemma AllSimilar(c: Config, s: State, docs: seq<Doc>)
    requires |docs| == c.workers && Sized(c, s) && StoredUpTo(c, s, docs, c.workers)
    requires forall i, k :: 0 <= i < |docs| && 0 <= k < |docs| && i != k ==>
               c.sim(docs[i].vec, docs[k].vec) >= c.threshold
    ensures Similar(c, s, Ids(docs))
  {
    var keys := Ids(docs);
    hide Ids, Sized;
    forall j, k | j in keys && k in keys && j != k ensures c.sim(s.graph[k], s.graph[j]) >= c.threshold {
      var a :| 0 <= a < |docs| && docs[a].id == j;
      var b :| 0 <= b < |docs| && docs[b].id == k;
      assert s.graph[j] == docs[a].vec && s.graph[k] == docs[b].vec && a != b;
    }
  }

  /** W documents with different ids that are as similar as the threshold can all end up stored: W is exact. */
  lemma BoundIsReached(c: Config, docs: seq<Doc>)
    requires |docs| == c.workers && DistinctIds(docs)
    requires forall i, k :: 0 <= i < |docs| && 0 <= k < |docs| && i != k ==>
               c.sim(docs[i].vec, docs[k].vec) >= c.threshold
    ensures exists acts, keys ::
              Exec(c, acts).Some? && Similar(c, Exec(c, acts).value, keys) && |keys| == c.workers
  {
    var acts := FinishAll(c, docs, c.workers);
    IdsCount(docs);
    AllSimilar(c, Exec(c, acts).value, docs);
    hide Exec, Similar, StoredUpTo, DistinctIds, Ids;
    assert Similar(c, Exec(c, acts).value, Ids(docs)) && |Ids(docs)| == c.workers;
  }

  // ---------- reports ----------

  /** What adding these documents, one after the other, leaves stored. */
  function Replay(docs: seq<Doc>): map<string, Vec>
  {
    if docs == [] then map[]
    else
      var doc := docs[|docs| - 1];
      Replay(docs[..|docs| - 1])[doc.id := doc.vec]
  }

  /** What an index with this graph may return for a document: one of the search's answers, decided on. */
  ghost predicate Settled(c: Config, graph: map<string, Vec>, doc: Doc, result: DedupResult)
  {
    exists found :: Answer(c, graph, doc.vec, found) && result == Decide(c, graph, doc, found)
  }

  /** The result is what the index calls for as it was at the search. */
  ghost predicate Grounded(c: Config, added: seq<Doc>, r: Report)
  {
    r.seen <= |added| && Settled(c, Replay(added[..r.seen]), r.doc, r.result)
  }

  ghost predicate ReportInv(c: Config, s: State)
    requires Sized(c, s)
  {
    && (forall w :: 0 <= w < c.workers && s.workers[w].Searched? ==>
          Grounded(c, s.h.added, Report(s.workers[w].doc, s.workers[w].result, s.h.seen[w])))
    && (forall i :: 0 <= i < |s.h.returned| ==> Grounded(c, s.h.added, s.h.returned[i]))
  }

  /** The graph is what was added, the latest under each id. */
  ghost predicate StoredInv(s: State)
  {
    s.graph == Replay(s.h.added)
  }

  function Busy(w: Worker): int
  {
    if w.Idle? then 0 else 1
  }

  function Rejected(r: Report): int
  {
    if r.result.isDuplicate then 1 else 0
  }

  /** Every document called for is returned or still with a worker; every one returned is added or a duplicate. */
  ghost predicate CountInv(s: State)
  {
    && s.processed == |s.h.returned| + Sum(s.workers, Busy)
    && s.duplicates == Sum(s.h.returned, Rejected)
    && |s.h.returned| == s.duplicates + |s.h.added|
  }

  lemma GroundedKept(c: Config, added: seq<Doc>, more: seq<Doc>, r: Report)
    requires added <= more && Grounded(c, added, r)
    ensures Grounded(c, more, r)
  {
    assert more[..r.seen] == added[..r.seen];
  }

  /** Nothing was named, and nothing held if the search is exact: there is no nearest document and no similarity. */
  ghost predicate NoneNamed(c: Config, graph: map<string, Vec>, r: DedupResult)
  {
    !r.isDuplicate && r.nearestId == "" && r.similarity == 0.0 && (c.exact ==> graph == map[])
  }

  /** A held document was named at its similarity, duplicate or not; under exact search none is more similar. */
  ghost predicate Named(c: Config, graph: map<string, Vec>, doc: Doc, r: DedupResult)
  {
    && r.nearestId in graph && r.similarity == c.sim(doc.vec, graph[r.nearestId])
    && (r.isDuplicate <==> r.similarity >= c.threshold)
    && (c.exact ==> forall k :: k in graph ==> c.sim(doc.vec, graph[k]) <= r.similarity)
  }

  /** What may be returned, with nothing said about how it is decided. */
  lemma SettledIff(c: Config, graph: map<string, Vec>, doc: Doc, r: DedupResult)
    ensures Settled(c, graph, doc, r) <==> r.id == doc.id && (NoneNamed(c, graph, r) || Named(c, graph, doc, r))
  {
    if r.id == doc.id && Named(c, graph, doc, r) {
      assert Answer(c, graph, doc.vec, Some(r.nearestId)) && r == Decide(c, graph, doc, Some(r.nearestId));
    } else if r.id == doc.id && NoneNamed(c, graph, r) {
      assert Answer(c, graph, doc.vec, None) && r == Decide(c, graph, doc, None);
    }
  }

  lemma DecideGrounded(c: Config, s: State, doc: Doc, found: Option<string>)
    requires StoredInv(s) && Answer(c, s.graph, doc.vec, found)
    ensures Grounded(c, s.h.added, Report(doc, Decide(c, s.graph, doc, found), |s.h.added|))
  {
    assert s.h.added[..|s.h.added|] == s.h.added;
  }

  lemma ReportStep(c: Config, s: State, a: Action)
    requires Sized(c, s) && ReportInv(c, s) && StoredInv(s) && Enabled(c, s, a)
    ensures ReportInv(c, Next(c, s, a))
  {
    var s' := Next(c, s, a);
    assert s.h.added <= s'.h.added;
    if a.Search? { DecideGrounded(c, s, s.workers[a.w].doc, a.found); }
    hide Grounded, Answer, Decide, StoredInv;
    forall w | 0 <= w < c.workers && s'.workers[w].Searched?
      ensures Grounded(c, s'.h.added, Report(s'.workers[w].doc, s'.workers[w].result, s'.h.seen[w]))
    {
      if !(a.Search? && w == a.w) {
        GroundedKept(c, s.h.added, s'.h.added, Report(s.workers[w].doc, s.workers[w].result, s.h.seen[w]));
      }
    }
    forall i | 0 <= i < |s'.h.returned| ensures Grounded(c, s'.h.added, s'.h.returned[i]) {
      GroundedKept(c, s.h.added, s'.h.added, s'.h.returned[i]);
    }
  }

  lemma StoredStep(c: Config, s: State, a: Action)
    requires Sized(c, s) && StoredInv(s) && Enabled(c, s, a)
    ensures StoredInv(Next(c, s, a))
  {
    hide Answer, Decide, Replay;
    if a.Finish? { ReplayLast(s.h.added, s.workers[a.w].doc); }
  }

  lemma ReplayLast(added: seq<Doc>, doc: Doc)
    ensures Replay(added + [doc]) == Replay(added)[doc.id := doc.vec]
  {
    assert (added + [doc])[..|added|] == added;
  }

  lemma CountStep(c: Config, s: State, a: Action)
    requires Sized(c, s) && CountInv(s) && Enabled(c, s, a)
    ensures CountInv(Next(c, s, a))
  {
    hide Answer, Decide;
    var s' := Next(c, s, a);
    SumUpdate(s.workers, a.w, s'.workers[a.w], Busy);
    if a.Finish? {
      var x := Report(s.workers[a.w].doc, s.workers[a.w].result, s.h.seen[a.w]);
      assert (s.h.returned + [x])[..|s.h.returned|] == s.h.returned;
    }
  }

  lemma {:induction false} ReachableReports(c: Config, acts: seq<Action>)
    requires Exec(c, acts).Some?
    ensures var s := Exec(c, acts).value; ReportInv(c, s) && StoredInv(s) && CountInv(s)
    decreases |acts|
  {
    if acts == [] {
      SumZero(Init(c).workers, Busy);
    } else {
      var s, a := Exec(c, acts[..|acts| - 1]).value, acts[|acts| - 1];
      ReachableReports(c, acts[..|acts| - 1]);
      hide ReportInv, StoredInv, CountInv, Next, Enabled;
      ReportStep(c, s, a);
      StoredStep(c, s, a);
      CountStep(c, s, a);
    }
  }

  lemma {:induction false} ReplayKeys(docs: seq<Doc>)
    ensures Replay(docs).Keys == Ids(docs)
    decreases |docs|
  {
    if docs == [] {
    } else {
      var front, doc := docs[..|docs| - 1], docs[|docs| - 1];
      ReplayKeys(front);
      assert docs == front + [doc];
      assert Ids(docs) == Ids(front) + {doc.id};
    }
  }

  /** With different ids what was stored once is stored for good. */
  lemma {:induction false} ReplayStays(docs: seq<Doc>, n: nat, k: string)
    requires DistinctIds(docs) && n <= |docs| && k in Replay(docs[..n])
    ensures k in Replay(docs) && Replay(docs)[k] == Replay(docs[..n])[k]
    decreases |docs|
  {
    if n == |docs| {
      assert docs[..n] == docs;
    } else {
      var front := docs[..|docs| - 1];
      assert front[..n] == docs[..n];
      ReplayStays(front, n, k);
      ReplayKeys(front);
    }
  }

  /**
   Without any assumption on the search: every report is what the index called for as it was when it was
   searched, no document is lost, and the graph holds the latest document added under each id.
   */
  lemma ReportsAreGrounded(c: Config, acts: seq<Action>)
    requires Exec(c, acts).Some?
    ensures var s := Exec(c, acts).value;
            && (forall i :: 0 <= i < |s.h.returned| ==> Grounded(c, s.h.added, s.h.returned[i]))
            && s.processed == s.duplicates + |s.h.added| + Sum(s.workers, Busy)
            && s.graph == Replay(s.h.added)
            && (DistinctIds(s.h.added) ==> |s.graph| + s.duplicates == |s.h.returned|)
  {
    ReachableReports(c, acts);
    var s := Exec(c, acts).value;
    ReplayKeys(s.h.added);
    if DistinctIds(s.h.added) {
      IdsCount(s.h.added);
      assert |s.graph| == |s.graph.Keys|;
    }
  }

  /** With different ids whatever document a report names is still stored, at the similarity reported. */
  lemma NamedIsStored(c: Config, acts: seq<Action>, i: nat)
    requires Exec(c, acts).Some? && DistinctIds(Exec(c, acts).value.h.added)
    requires i < |Exec(c, acts).value.h.returned|
    ensures var s := Exec(c, acts).value;
            var doc, r := s.h.returned[i].doc, s.h.returned[i].result;
            && r.id == doc.id
            && ((!r.isDuplicate && r.nearestId == "" && r.similarity == 0.0)
                || (r.nearestId in s.graph && r.similarity == c.sim(doc.vec, s.graph[r.nearestId])
                    && (r.isDuplicate <==> r.similarity >= c.threshold)))
  {
    ReachableReports(c, acts);
    var s := Exec(c, acts).value;
    var r := s.h.returned[i];
    assert Grounded(c, s.h.added, r);
    hide Exec;
    SettledIff(c, Replay(s.h.added[..r.seen]), r.doc, r.result);
    if Named(c, Replay(s.h.added[..r.seen]), r.doc, r.result) {
      ReplayStays(s.h.added, r.seen, r.result.nearestId);
    }
  }

  /** Some stored document reaches the threshold. */
  predicate Close(c: Config, graph: map<string, Vec>, vec: Vec)
  {
    exists k :: k in graph && c.sim(vec, graph[k]) >= c.threshold
  }

  /** An exact search reports a duplicate exactly when the index holds a document within the threshold. */
  lemma ExactDuplicateIff(c: Config, graph: map<string, Vec>, doc: Doc, found: Option<string>)
    requires c.exact && Answer(c, graph, doc.vec, found)
    ensures Decide(c, graph, doc, found).isDuplicate <==> Close(c, graph, doc.vec)
  {
  }

  // ---------- the index over its shared memory ----------

  /** Whose turn it is: with a document to start on, or to go on with the one in hand. */
  datatype Turn = Begin(w: nat, doc: Doc) | Continue(w: nat)

  function TurnOf(a: Action): Turn
  {
    match a
    case Call(w, doc) => Begin(w, doc)
    case Search(w, _) => Continue(w)
    case Finish(w) => Continue(w)
  }

  function Turns(acts: seq<Action>): seq<Turn>
  {
    if acts == [] then [] else Turns(acts[..|acts| - 1]) + [TurnOf(acts[|acts| - 1])]
  }

  lemma TurnsStep(acts: seq<Action>, a: Action)
    ensures Turns(acts + [a]) == Turns(acts) + [TurnOf(a)]
  {
    assert (acts + [a])[..|acts|] == acts;
  }

  function By(w: nat): Turn -> int
  {
    (turn: Turn) => if turn.w == w then 1 else 0
  }

  /** A document takes its worker three turns: calling, searching and finishing. */
  predicate HasTurn(workers: nat, turns: seq<Turn>, turn: Turn)
  {
    turn.w < workers && (turn.Begin? <==> Sum(turns, By(turn.w)) % 3 == 0)
  }

  /** The turns of a schedule that are possible after those before; the others do nothing. */
  function Possible(workers: nat, schedule: seq<Turn>): seq<Turn>
  {
    if schedule == [] then []
    else
      var before, turn := Possible(workers, schedule[..|schedule| - 1]), schedule[|schedule| - 1];
      before + (if HasTurn(workers, before, turn) then [turn] else [])
  }

  lemma PossibleAt(workers: nat, schedule: seq<Turn>, j: nat)
    requires j < |schedule|
    ensures var before := Possible(workers, schedule[..j]);
            Possible(workers, schedule[..j + 1])
            == before + (if HasTurn(workers, before, schedule[j]) then [schedule[j]] else [])
  {
    assert schedule[..j + 1][..j] == schedule[..j];
  }

  function Phase(worker: Worker): nat
  {
    match worker
    case Idle => 0
    case Called(_) => 1
    case Searched(_, _) => 2
  }

  /** Where a worker stands is a matter of how many turns it has had. */
  lemma {:induction false} PhaseIs(c: Config, acts: seq<Action>, w: nat)
    requires Exec(c, acts).Some? && w < c.workers
    ensures Phase(Exec(c, acts).value.workers[w]) == Sum(Turns(acts), By(w)) % 3
    decreases |acts|
  {
    if acts == [] {
      hide Enabled, Next;
    } else {
      hide Enabled, Next, Sum, Phase;
      var front, a := acts[..|acts| - 1], acts[|acts| - 1];
      assert Turns(acts) == Turns(front) + [TurnOf(a)];
      var s := Exec(c, front).value;
      assert Enabled(c, s, a) && Exec(c, acts) == Some(Next(c, s, a)) && TurnOf(a).w == a.w;
      hide *;
      PhaseIs(c, front, w);
      PhaseStep(c, s, a, w);
      OneTurnMore(Turns(front), TurnOf(a), w);
      Remainder(Sum(Turns(front), By(w)), if a.w == w then 1 else 0);
    }
  }

  lemma Remainder(x: int, d: int)
    ensures (x % 3 + d) % 3 == (x + d) % 3
  {
  }

  lemma PhaseStep(c: Config, s: State, a: Action, w: nat)
    requires Sized(c, s) && Enabled(c, s, a) && w < c.workers
    ensures Phase(Next(c, s, a).workers[w]) == (Phase(s.workers[w]) + (if a.w == w then 1 else 0)) % 3
  {
    hide Answer, Decide;
  }

  lemma OneTurnMore(turns: seq<Turn>, turn: Turn, w: nat)
    ensures Sum(turns + [turn], By(w)) == Sum(turns, By(w)) + (if turn.w == w then 1 else 0)
  {
    assert (turns + [turn])[..|turns|] == turns;
  }

  /** So a schedule of a run's turns is taken as it is. */
  lemma {:induction false} RunsArePossible(c: Config, acts: seq<Action>)
    requires Exec(c, acts).Some?
    ensures Possible(c.workers, Turns(acts)) == Turns(acts)
    decreases |acts|
  {
    if acts == [] {
    } else {
      var front, a := acts[..|acts| - 1], acts[|acts| - 1];
      RunsArePossible(c, front);
      PhaseIs(c, front, a.w);
      hide Answer, Decide, Sum;
      assert Turns(acts)[..|Turns(front)|] == Turns(front);
    }
  }

  class EmbeddingIndex {
    const c: Config
    var graph: map<string, Vec>
    var processed: nat
    var duplicates: nat
    var workers: seq<Worker>
    ghost var h: History

    ghost predicate Valid()
      reads this
    {
      c.exact && Sized(c, Snapshot())
    }

    ghost function Snapshot(): State
      reads this
    {
      State(graph, processed, duplicates, workers, h)
    }

    constructor (c: Config)
      ensures this.c == c && Snapshot() == Init(c)
    {
      this.c := c;
      graph, processed, duplicates := map[], 0, 0;
      workers := seq(c.workers, _ => Idle);
      h := Init(c).h;
    }

    /** NewEmbeddingIndex: thresholds outside (0, 1] are refused. */
    static method New(threshold: real, workers: nat, sim: (Vec, Vec) -> real)
      returns (r: Result<EmbeddingIndex, string>)
      ensures r.Ok? <==> 0.0 < threshold <= 1.0
      ensures r.Ok? ==>
                && fresh(r.value) && r.value.Valid()
                && r.value.c == Config(workers, threshold, sim, true) && r.value.Snapshot() == Init(r.value.c)
    {
      if threshold <= 0.0 || threshold > 1.0 {
        return Err("deduplication threshold must be between 0.0 and 1.0");
      }
      var index := new EmbeddingIndex(Config(workers, threshold, sim, true));
      return Ok(index);
    }

    method Call(w: nat, doc: Doc)
      requires Valid() && Enabled(c, Snapshot(), Action.Call(w, doc))
      modifies this
      ensures Valid() && Snapshot() == Next(c, old(Snapshot()), Action.Call(w, doc))
    {
      processed := processed + 1;
      workers := workers[w := Called(doc)];
      h := h.(clock := h.clock + 1);
    }

    /** The idealised search: a nearest of all stored documents. */
    method SearchWithDistance(vec: Vec) returns (found: Option<string>)
      requires Valid()
      ensures Answer(c, graph, vec, found)
    {
      found := None;
      var keys := graph.Keys;
      while keys != {}
        invariant keys <= graph.Keys
        invariant found.None? ==> keys == graph.Keys
        invariant found.Some? ==> found.value in graph
        invariant found.Some? ==>
                    forall k :: k in graph && k !in keys ==> c.sim(vec, graph[k]) <= c.sim(vec, graph[found.value])
        decreases keys
      {
        var k :| k in keys;
        if found.None? || c.sim(vec, graph[k]) > c.sim(vec, graph[found.value]) {
          found := Some(k);
        }
        keys := keys - {k};
      }
    }

    /** Under the read lock: search, and decide. */
    method Search(w: nat) returns (found: Option<string>)
      requires Valid() && w < c.workers && workers[w].Called?
      modifies this
      ensures Enabled(c, old(Snapshot()), Action.Search(w, found))
      ensures Valid() && Snapshot() == Next(c, old(Snapshot()), Action.Search(w, found))
      ensures var doc := old(workers[w].doc);
              && workers[w].Searched? && workers[w].doc == doc && workers[w].result.id == doc.id
              && (NoneNamed(c, graph, workers[w].result) || Named(c, graph, doc, workers[w].result))
    {
      var doc := workers[w].doc;
      found := SearchWithDistance(doc.vec);
      var bestId, bestScore, isDup := "", 0.0, false;
      if found.Some? {
        bestId := found.value;
        bestScore := c.sim(doc.vec, graph[bestId]);
        isDup := bestScore >= c.threshold;
      }
      workers := workers[w := Searched(doc, DedupResult(doc.id, isDup, bestId, bestScore))];
      h := h.(at := h.at[w := h.clock], seen := h.seen[w := |h.added|], clock := h.clock + 1);
    }

    /** Under the write lock: add what is no duplicate; count what is. */
    method Finish(w: nat) returns (result: DedupResult)
      requires Valid() && w < c.workers && workers[w].Searched?
      modifies this
      ensures Valid() && Snapshot() == Next(c, old(Snapshot()), Action.Finish(w))
      ensures result == old(workers[w].result)
    {
      var doc := workers[w].doc;
      result := workers[w].result;
      h := Finishing(Snapshot(), w).h;
      if !result.isDuplicate {
        graph := graph[doc.id := doc.vec];
      } else {
        duplicates := duplicates + 1;
      }
      workers := workers[w := Idle];
    }

    /** The whole of DedupAndIndex, with nobody else in between; `run` is how the index got here. */
    method DedupAndIndex(w: nat, doc: Doc, ghost run: seq<Action>)
      returns (result: DedupResult, ghost found: Option<string>)
      requires Valid() && w < c.workers && workers[w].Idle? && Exec(c, run) == Some(Snapshot())
      modifies this
      ensures Valid() && workers[w].Idle?
      ensures Exec(c, run + [Action.Call(w, doc)] + [Action.Search(w, found)] + [Action.Finish(w)]) == Some(Snapshot())
      ensures Settled(c, old(graph), doc, result) && result.id == doc.id
      ensures result.isDuplicate <==> Close(c, old(graph), doc.vec)
      ensures old(graph) == map[] ==> !result.isDuplicate && result.nearestId == "" && result.similarity == 0.0
      ensures old(graph) != map[] ==>
                && result.nearestId in old(graph)
                && result.similarity == c.sim(doc.vec, old(graph)[result.nearestId])
                && (result.isDuplicate <==> result.similarity >= c.threshold)
                && forall k :: k in old(graph) ==> c.sim(doc.vec, old(graph)[k]) <= result.similarity
      ensures graph == if result.isDuplicate then old(graph) else old(graph)[doc.id := doc.vec]
      ensures processed == old(processed) + 1
      ensures duplicates == old(duplicates) + if result.isDuplicate then 1 else 0
    {
      Call(w, doc);
      Extend(c, run, Action.Call(w, doc));
      found := Search(w);
      Extend(c, run + [Action.Call(w, doc)], Action.Search(w, found));
      ExactDuplicateIff(c, graph, doc, found);
      SettledIff(c, graph, doc, workers[w].result);
      result := Finish(w);
      Extend(c, run + [Action.Call(w, doc)] + [Action.Search(w, found)], Action.Finish(w));
    }

    /**
     Any interleaving of the workers' critical sections. What happens is a run of the step system, so however
     it went, no more stored documents than workers are pairwise as similar as the threshold.
     */
    method Run(schedule: seq<Turn>) returns (ghost taken: seq<Action>)
      requires Valid() && Snapshot() == Init(c)
      modifies this
      ensures Valid() && Exec(c, taken) == Some(Snapshot())
      ensures forall keys :: Similar(c, Snapshot(), keys) ==> |keys| <= c.workers
      ensures Turns(taken) == Possible(c.workers, schedule)
      ensures forall acts :: Exec(c, acts).Some? && Turns(acts) == schedule ==> Turns(taken) == schedule
    {
      taken := [];
      assert Exec(c, []) == Some(Snapshot());
      hide Exec, Init;
      for j := 0 to |schedule|
        invariant Valid() && Exec(c, taken) == Some(Snapshot())
        invariant Turns(taken) == Possible(c.workers, schedule[..j])
      {
        PossibleAt(c.workers, schedule, j);
        taken := TakeTurn(schedule[j], taken);
      }
      assert schedule[..|schedule|] == schedule;
      forall keys | Similar(c, Snapshot(), keys) ensures |keys| <= c.workers {
        SimilarAtMostWorkers(c, taken, keys);
      }
      forall acts | Exec(c, acts).Some? && Turns(acts) == schedule ensures Turns(taken) == schedule {
        RunsArePossible(c, acts);
      }
    }

    /** A worker's next step, if this is its turn. */
    method TakeTurn(turn: Turn, ghost run: seq<Action>) returns (ghost taken: seq<Action>)
      requires Valid() && Exec(c, run) == Some(Snapshot())
      modifies this
      ensures Valid() && Exec(c, taken) == Some(Snapshot())
      ensures Turns(taken) == Turns(run) + (if HasTurn(c.workers, Turns(run), turn) then [turn] else [])
    {
      taken := run;
      var w := turn.w;
      if w < c.workers { PhaseIs(c, run, w); }
      hide Answer, Decide, Next, Sum, Exec;
      if w >= c.workers {
      } else if turn.Begin? && workers[w].Idle? {
        Extend(c, run, Action.Call(w, turn.doc));
        taken := run + [Action.Call(w, turn.doc)];
        TurnsStep(run, Action.Call(w, turn.doc));
        Call(w, turn.doc);
      } else if turn.Continue? && workers[w].Called? {
        var found := Search(w);
        Extend(c, run, Action.Search(w, found));
        taken := run + [Action.Search(w, found)];
        TurnsStep(run, Action.Search(w, found));
      } else if turn.Continue? && workers[w].Searched? {
        Extend(c, run, Action.Finish(w));
        taken := run + [Action.Finish(w)];
        TurnsStep(run, Action.Finish(w));
        var _ := Finish(w);
      }
      assert Turns(run) + [] == Turns(run);
    }
  }
}
