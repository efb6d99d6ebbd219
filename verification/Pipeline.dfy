/**
 The pipeline as main configures it: generator, load, tokenize, embed, index, and the loop that prints.
 Whatever the schedule, what is printed are the index's answers to the embedded documents one by one,
 whether its search is exact or not.
 */
module Pipeline {
  import opened Wrappers
  import opened Utf8
  import opened Chain
  import opened LoadGenerator
  import opened Tokenize
  import opened Index
  import opened Deduplication
  import ChainProgress
  import ChainRun
  import Embed
  import Stage
  import Sums

  /** The generator makes its channel with this capacity, whatever buffer size it was constructed with. */
  const SOURCE_BUFFER := 100

  /** Four stages; only tokenize has more than one worker. */
  function Wired<T>(load: Stage.Fn<T, T>, tokenize: Stage.Fn<T, T>, embed: Stage.Fn<T, T>, index: Stage.Fn<T, T>)
    : Chain.Config<T>
  {
    Chain.Config(SOURCE_BUFFER,
                 [Stage.SizeOf(1, 100), Stage.SizeOf(3, 100), Stage.SizeOf(1, 100), Stage.SizeOf(1, 100)],
                 [load, tokenize, embed, index])
  }

  /**
   The configured pipeline never has more than 506 items in flight, loses at most six results to a
   cancellation and none otherwise, and gets m items through within 12 + 14 m steps.
   */
  lemma ConfiguredBounds<T>(
      load: Stage.Fn<T, T>, tokenize: Stage.Fn<T, T>, embed: Stage.Fn<T, T>, index: Stage.Fn<T, T>,
      acts: seq<Chain.Action<T>>)
    requires Chain.Exec(Wired(load, tokenize, embed, index), acts).Some?
    ensures var s := Chain.Exec(Wired(load, tokenize, embed, index), acts).value;
            && InFlightTo(s, 4) <= 506
            && DroppedTo(s, 4) <= (if s.cancelled then 6 else 0)
            && |s.sent| == |s.delivered| + ErrorsTo(s, 4) + DroppedTo(s, 4) + InFlightTo(s, 4)
            && |acts| <= 12 + 14 * |s.sent|
            && |s.stages| == 4 && |s.source| <= 100 && (forall j :: 0 <= j < 4 ==> |s.stages[j].out| <= 100)
            && |s.stages[0].workers| == |s.stages[2].workers| == |s.stages[3].workers| == 1
            && |s.stages[1].workers| == 3
  {
    var cfg := Wired(load, tokenize, embed, index);
    ConfiguredStages(cfg, acts);
    ItemsAccountedFor(cfg, acts);
    ChainProgress.RunsAreBounded(cfg, acts);
    WiredSizes(cfg);
  }

  lemma ConfiguredStages<T>(cfg: Chain.Config<T>, acts: seq<Chain.Action<T>>)
    requires cfg.Valid() && Chain.Exec(cfg, acts).Some?
    ensures var s := Chain.Exec(cfg, acts).value;
            && |s.source| <= cfg.sourceBuffer
            && forall j :: 0 <= j < |cfg.sizes| ==>
                 |s.stages[j].workers| == cfg.sizes[j].workers && |s.stages[j].out| <= cfg.sizes[j].buffer
  {
    Chain.ReachableInv(cfg, acts);
    var s := Chain.Exec(cfg, acts).value;
    forall j | 0 <= j < |cfg.sizes|
      ensures |s.stages[j].workers| == cfg.sizes[j].workers && |s.stages[j].out| <= cfg.sizes[j].buffer
    {
      assert StageOk(cfg, s, j);
    }
    hide Chain.Exec;
  }

  lemma WiredSizes<T>(cfg: Chain.Config<T>)
    requires cfg.sourceBuffer == SOURCE_BUFFER
    requires cfg.sizes == [Stage.SizeOf(1, 100), Stage.SizeOf(3, 100), Stage.SizeOf(1, 100), Stage.SizeOf(1, 100)]
    ensures CapacityTo(cfg, 4) == 506 && WorkersTo(cfg, 4) == 6
  {
    assert CapacityTo(cfg, 1) == 201 && WorkersTo(cfg, 1) == 1;
    assert CapacityTo(cfg, 2) == 304 && WorkersTo(cfg, 2) == 4;
    assert CapacityTo(cfg, 3) == 405 && WorkersTo(cfg, 3) == 5;
  }

  // ---------- the stages' functions ----------

  /** What flows between the stages. */
  datatype Item =
    | Request(config: DataLoadingConfig)
    | Loaded(doc: Document)
    | Tokenized(text: TokenizedDoc)
    | Embedded(vector: Embed.EmbeddedDoc)
    | Indexed(result: DedupResult)

  /**
   What the pipeline finds outside: files, Unicode tables, hash, square root, and the graph's search, which
   names a stored document, and a nearest one if it is said to be exact.
   */
  datatype World = World(
    read: DataLoadingConfig -> Option<seq<Byte>>, lower: Rune -> Rune, letter: Rune -> bool,
    hash: Embed.Hash, sqrt: real -> real, search: SearchFn, exact: bool)
  {
    function IndexConfig(): Index.Config
    {
      CONFIG.(exact := exact)
    }
  }

  ghost predicate Sound(w: World)
  {
    CaseMap(w.lower) && Embed.SquareRoot(w.sqrt) && Searches(w.IndexConfig(), w.search)
  }

  function Load(w: World): Item -> Option<Item>
  {
    (x: Item) =>
      if !x.Request? then None
      else
        match w.read(x.config)
        case None => None
        case Some(text) => Some(Loaded(Document(x.config.id, text)))
  }

  function Tokenizing(w: World): Item -> Option<Item>
    requires Sound(w)
  {
    (x: Item) =>
      if !x.Loaded? then None
      else Some(Tokenized(TokenizedDoc(x.doc.id, Tokens(w.lower, w.letter, x.doc.text))))
  }

  function Embedding(w: World): Item -> Option<Item>
    requires Sound(w)
  {
    (x: Item) =>
      if !x.Tokenized? then None
      else
        var e := Embed.Embedded(w.hash, DIMENSION, w.sqrt, x.text.tokens);
        Some(Embedded(Embed.EmbeddedDoc(x.text.id, Embed.Components(e, DIMENSION))))
  }

  /** The document an item of the last channel but one stands for. */
  function DocIn(x: Item): Option<Doc>
  {
    if x.Embedded? then Some(AsDoc(x.vector)) else None
  }

  function DocsIn(xs: seq<Item>): seq<Doc>
  {
    Stage.FilterMap(DocIn, xs)
  }

  /** What the index holds after those documents. */
  function Held(w: World, docs: seq<Doc>): map<string, Vec>
    requires Sound(w)
  {
    Stored(w.IndexConfig(), w.search, docs)
  }

  /** What it says to a document after those. */
  function AnswerTo(w: World, docs: seq<Doc>, doc: Doc): Item
    requires Sound(w)
  {
    Indexed(Decision(w.IndexConfig(), w.search, docs, Held(w, docs), doc))
  }

  /** DedupAndIndex after those calls: by then the index holds what one worker stores of their documents. */
  function IndexCall(w: World, past: seq<Item>, x: Item): Option<Item>
    requires Sound(w)
  {
    if x.Embedded? then Some(AnswerTo(w, DocsIn(past), AsDoc(x.vector))) else None
  }

  function Indexing(w: World): Stage.Fn<Item, Item>
    requires Sound(w)
  {
    (past: seq<Item>, x: Item) => IndexCall(w, past, x)
  }

  /** The stages before the index keep nothing between calls. */
  function PureStages(w: World): seq<Item -> Option<Item>>
    requires Sound(w)
  {
    [Load(w), Tokenizing(w), Embedding(w)]
  }

  function Configured(w: World): Chain.Config<Item>
    requires Sound(w)
  {
    Wired(Stage.Pure(Load(w)), Stage.Pure(Tokenizing(w)), Stage.Pure(Embedding(w)), Indexing(w))
  }

  /** The document a request is for: what is read, tokenized and embedded, under the request's id. */
  function DocForItem(w: World, x: Item): (d: Option<Doc>)
    requires Sound(w)
    ensures d.Some? ==> x.Request? && d.value.id == x.config.id
  {
    if !x.Request? then None
    else
      match w.read(x.config)
      case None => None
      case Some(text) =>
        Some(EmbeddedAs(w.hash, DIMENSION, w.sqrt,
                        TokenizedDoc(x.config.id, Tokens(w.lower, w.letter, text))))
  }

  /**
   From the request to the index: a document is made of exactly those requests that can be read, under the
   request's id, and if its raw vector in 1024 dimensions is not zero, its vector is that one over its length.
   */
  lemma DocForMeans(w: World, x: Item) returns (n: real)
    requires Sound(w)
    ensures DocFor(w)(x).Some? <==> x.Request? && w.read(x.config).Some?
    ensures DocFor(w)(x).Some? ==>
              var d := DocFor(w)(x).value;
              var raw := Embed.Raw(w.hash, 1024, Tokens(w.lower, w.letter, w.read(x.config).value));
              && d.id == x.config.id
              && if Embed.Zero(raw) then d.vec == []
                 else |d.vec| == 1024 && OverLength(d.vec, raw, n)
  {
    n := 0.0;
    if DocFor(w)(x).Some? {
      var tokens := Tokens(w.lower, w.letter, w.read(x.config).value);
      n := VecIsRaw(w.hash, DIMENSION, w.sqrt, TokenizedDoc(x.config.id, tokens));
      hide Embed.Raw, Embed.Zero, Tokens, Sound, OverLength;
    }
  }

  function DocFor(w: World): Item -> Option<Doc>
    requires Sound(w)
  {
    (x: Item) => DocForItem(w, x)
  }

  // ---------- what is printed ----------

  /** One request, stage by stage. */
  lemma ThroughStages(w: World, x: Item)
    requires Sound(w)
    ensures var y := Through(PureStages(w), 3, x);
            DocFor(w)(x) == (if y.Some? then DocIn(y.value) else None)
  {
    var fs := PureStages(w);
    assert Through(fs, 1, x) == Load(w)(x) by { assert Through(fs, 0, x) == Some(x); }
    assert Through(fs, 2, x) == match Load(w)(x) case None => None case Some(y) => Tokenizing(w)(y);
    assert Through(fs, 3, x) == match Through(fs, 2, x) case None => None case Some(y) => Embedding(w)(y);
    if x.Request? && w.read(x.config).Some? {
      var loaded := Document(x.config.id, w.read(x.config).value);
      var text := TokenizedDoc(loaded.id, Tokens(w.lower, w.letter, loaded.text));
      assert Load(w)(x) == Some(Loaded(loaded));
      assert Tokenizing(w)(Loaded(loaded)) == Some(Tokenized(text));
      var vector := Embed.Components(Embed.Embedded(w.hash, DIMENSION, w.sqrt, text.tokens), DIMENSION);
      var e := Embed.EmbeddedDoc(text.id, vector);
      assert Embedding(w)(Tokenized(text)) == Some(Embedded(e));
      assert DocIn(Embedded(e)) == Some(EmbeddedAs(w.hash, DIMENSION, w.sqrt, text));
      assert DocFor(w)(x) == Some(EmbeddedAs(w.hash, DIMENSION, w.sqrt, text));
    }
  }

  /** The documents behind what the pure stages pass on are those the requests are for. */
  lemma {:induction false} DocsPassedOn(w: World, xs: seq<Item>)
    requires Sound(w)
    ensures DocsIn(Stage.FilterMap(Pipe(PureStages(w), 3), xs)) == Stage.FilterMap(DocFor(w), xs)
    decreases |xs|
  {
    if xs == [] {
    } else {
      var f, front, x := Pipe(PureStages(w), 3), xs[..|xs| - 1], xs[|xs| - 1];
      DocsPassedOn(w, front);
      ThroughStages(w, x);
      var y := Stage.Kept(f, x);
      Stage.FilterMapAppend(DocIn, Stage.FilterMap(f, front), y);
      if y != [] { Stage.FilterMapOne(DocIn, y[0]); }
    }
  }

  /** An answer to document i, given what the documents before it left. */
  ghost predicate AnsweredAt(w: World, docs: seq<Doc>, i: nat, x: Item)
    requires Sound(w) && i < |docs|
  {
    x.Indexed? && Settled(w.IndexConfig(), Held(w, docs[..i]), docs[i], x.result)
  }

  ghost predicate Answers(w: World, docs: seq<Doc>, printed: seq<Item>)
    requires Sound(w)
  {
    |printed| <= |docs| && forall i :: 0 <= i < |printed| ==> AnsweredAt(w, docs, i, printed[i])
  }

  /**
   What an answer says, duplicate or not: either nothing was named, and of an exact search's results only if
   nothing was held, or a held document is named at its similarity, a duplicate from 0.8 on, and under exact
   search no document held is more similar.
   */
  lemma AnswerMeans(w: World, docs: seq<Doc>, i: nat, x: Item)
    requires Sound(w) && i < |docs| && AnsweredAt(w, docs, i, x)
    ensures var held, vec, r := Held(w, docs[..i]), docs[i].vec, x.result;
            && r.id == docs[i].id
            && ((!r.isDuplicate && r.nearestId == "" && r.similarity == 0.0 && (w.exact ==> held == map[]))
                || (r.nearestId in held && r.similarity == Cosine(vec, held[r.nearestId])
                    && (r.isDuplicate <==> r.similarity >= 0.8)
                    && (w.exact ==> forall k :: k in held ==> Cosine(vec, held[k]) <= r.similarity)))
            && (w.exact ==> (r.isDuplicate <==> exists k :: k in held && Cosine(vec, held[k]) >= 0.8))
            && (w.exact ==> held == Kept(CONFIG, docs[..i]) && SettledAt(CONFIG, docs, i, r))
  {
    SettledIff(w.IndexConfig(), Held(w, docs[..i]), docs[i], x.result);
    if w.exact {
      StoredIsKept(CONFIG, w.search, docs[..i]);
    }
    hide Held, Cosine, Settled, Kept;
  }

  /** Called one after the other, the index answers every document in turn. */
  lemma {:induction false} IndexAnswers(w: World, xs: seq<Item>)
    requires Sound(w)
    ensures |Stage.Results(Indexing(w), xs)| == |DocsIn(xs)|
    ensures Answers(w, DocsIn(xs), Stage.Results(Indexing(w), xs))
    decreases |xs|
  {
    hide *;
    if xs == [] {
      NoAnswers(w);
    } else {
      var front, x := xs[..|xs| - 1], xs[|xs| - 1];
      IndexAnswers(w, front);
      assert xs == front + [x];
      IndexStep(w, xs, front, x);
      if x.Embedded? {
        MoreAnswers(w, DocsIn(front), Stage.Results(Indexing(w), front), AsDoc(x.vector));
      }
    }
  }

  lemma NoAnswers(w: World)
    requires Sound(w)
    ensures DocsIn([]) == [] && Stage.Results(Indexing(w), []) == [] && Answers(w, [], [])
  {
    hide Sound, AnsweredAt;
  }

  lemma LastAnswer(w: World, docs: seq<Doc>, doc: Doc)
    requires Sound(w)
    ensures AnsweredAt(w, docs + [doc], |docs|, AnswerTo(w, docs, doc))
  {
    assert (docs + [doc])[..|docs|] == docs;
    DecisionIs(w.IndexConfig(), w.search, docs, Held(w, docs), doc);
    hide Settled, Searches, Held;
  }

  lemma MoreAnswers(w: World, docs: seq<Doc>, printed: seq<Item>, doc: Doc)
    requires Sound(w) && |printed| == |docs| && Answers(w, docs, printed)
    ensures Answers(w, docs + [doc], printed + [AnswerTo(w, docs, doc)])
  {
    LastAnswer(w, docs, doc);
    hide Settled, Held, Sound, AnswerTo;
    var more, last := docs + [doc], AnswerTo(w, docs, doc);
    forall i | 0 <= i <= |docs| ensures AnsweredAt(w, more, i, (printed + [last])[i]) {
      if i < |docs| {
        assert AnsweredAt(w, docs, i, printed[i]);
        assert more[..i] == docs[..i];
      }
    }
  }

  lemma StagesArePure(w: World)
    requires Sound(w)
    ensures Configured(w).Valid() && PureUpTo(Configured(w), PureStages(w))
  {
    hide Sound, Tokens, Embed.Embedded;
  }

  /**
   In every reachable state, cancelled or not: the index was called with part of the documents asked for,
   none twice, and what is printed are, in that order, the first of its answers.
   */
  lemma PrintedWithin(w: World, acts: seq<Chain.Action<Item>>)
    requires Sound(w) && Chain.Exec(Configured(w), acts).Some?
    ensures var s := Chain.Exec(Configured(w), acts).value;
            && multiset(DocsIn(s.stages[3].called)) <= multiset(Stage.FilterMap(DocFor(w), s.sent))
            && Answers(w, DocsIn(s.stages[3].called), s.delivered)
  {
    hide Sound, DocForItem, IndexCall, AnsweredAt;
    var cfg, fs := Configured(w), PureStages(w);
    StagesArePure(w);
    DeliveredWithin(cfg, acts, fs);
    var s := Chain.Exec(cfg, acts).value;
    IndexAnswers(w, s.stages[3].called);
    DocsPassedOn(w, s.sent);
    FirstAnswers(w, DocsIn(s.stages[3].called), s.delivered, Stage.Results(Indexing(w), s.stages[3].called));
    hide Stage.Results, Stage.FilterMap, DocsIn, Chain.Exec, Answers, Indexing;
    DocsMonotone(s.stages[3].called, Stage.FilterMap(Pipe(fs, 3), s.sent));
  }

  lemma FirstAnswers(w: World, docs: seq<Doc>, printed: seq<Item>, all: seq<Item>)
    requires Sound(w) && Answers(w, docs, all) && printed <= all
    ensures Answers(w, docs, printed)
  {
    forall i | 0 <= i < |printed| ensures AnsweredAt(w, docs, i, printed[i]) {
      assert AnsweredAt(w, docs, i, all[i]);
    }
  }

  lemma DocsMonotone(xs: seq<Item>, ys: seq<Item>)
    requires multiset(xs) <= multiset(ys)
    ensures multiset(DocsIn(xs)) <= multiset(DocsIn(ys))
  {
    Stage.FilterMapMonotone(DocIn, xs, ys);
  }

  /**
   A finished, uncancelled run has called the index once with every document asked for, in some order, and
   has printed its answers in that order, all of them.
   */
  lemma PrintedExactly(w: World, acts: seq<Chain.Action<Item>>)
    requires Sound(w) && Chain.Exec(Configured(w), acts).Some?
    requires var s := Chain.Exec(Configured(w), acts).value; !s.cancelled && Finished(s)
    ensures var s := Chain.Exec(Configured(w), acts).value;
            && multiset(DocsIn(s.stages[3].called)) == multiset(Stage.FilterMap(DocFor(w), s.sent))
            && |s.delivered| == |DocsIn(s.stages[3].called)|
            && Answers(w, DocsIn(s.stages[3].called), s.delivered)
  {
    var cfg, fs := Configured(w), PureStages(w);
    StagesArePure(w);
    DeliveredExactly(cfg, acts, fs);
    var s := Chain.Exec(cfg, acts).value;
    IndexAnswers(w, s.stages[3].called);
    DocsPassedOn(w, s.sent);
    hide Stage.Results, Stage.FilterMap, DocsIn, Chain.Exec, Sound, AnsweredAt, Finished;
    DocsMonotone(s.stages[3].called, Stage.FilterMap(Pipe(fs, 3), s.sent));
    DocsMonotone(Stage.FilterMap(Pipe(fs, 3), s.sent), s.stages[3].called);
  }

  /** A run of the index that took these documents, holds what is stored of them, and returned these results. */
  ghost predicate Ran(w: World, run: seq<Index.Action>, docs: seq<Doc>, results: seq<Item>)
    requires Sound(w)
  {
    && Index.Exec(w.IndexConfig(), run).Some?
    && var s := Index.Exec(w.IndexConfig(), run).value;
       s.workers[0].Idle? && s.graph == Held(w, docs) && Returned(docs, results, s.h.returned)
  }

  /** Whatever list of items the index stage is called with, its results are those of a run of the index. */
  lemma {:induction false} IndexRun(w: World, xs: seq<Item>) returns (run: seq<Index.Action>)
    requires Sound(w)
    ensures Ran(w, run, DocsIn(xs), Stage.Results(Indexing(w), xs))
    decreases |xs|
  {
    hide *;
    if xs == [] {
      run := [];
      NoRun(w);
    } else {
      var front, x := xs[..|xs| - 1], xs[|xs| - 1];
      run := IndexRun(w, front);
      assert xs == front + [x];
      IndexStep(w, xs, front, x);
      if x.Embedded? {
        run := RunOn(w, run, DocsIn(front), Stage.Results(Indexing(w), front), AsDoc(x.vector));
      }
    }
  }

  lemma NoRun(w: World)
    requires Sound(w)
    ensures Ran(w, [], DocsIn([]), Stage.Results(Indexing(w), []))
  {
    NoAnswers(w);
    hide Sound, DocsIn, Stage.Results;
    assert Index.Exec(w.IndexConfig(), []) == Some(Index.Init(w.IndexConfig()));
  }

  /** And one document more. */
  lemma RunOn(w: World, run: seq<Index.Action>, docs: seq<Doc>, results: seq<Item>, doc: Doc)
    returns (more: seq<Index.Action>)
    requires Sound(w) && Ran(w, run, docs, results)
    ensures Ran(w, more, docs + [doc], results + [AnswerTo(w, docs, doc)])
  {
    var held := Held(w, docs);
    assert Answer(w.IndexConfig(), held, doc.vec, w.search(held, docs, doc.vec));
    StoredLast(w.IndexConfig(), w.search, docs, doc);
    hide Index.Exec, Stored, Index.Close, Answer, Decide, Searches;
    more := TakeOneMore(w.IndexConfig(), run, doc, w.search(held, docs, doc.vec));
  }

  /** Reports and results go together, one by one, each for the document at its place. */
  ghost predicate Returned(docs: seq<Doc>, results: seq<Item>, reports: seq<Report>)
  {
    && |docs| == |results| == |reports|
    && forall i :: 0 <= i < |reports| ==> reports[i].doc == docs[i] && results[i] == Indexed(reports[i].result)
  }

  /** What a last call adds to the documents and the results. */
  lemma IndexStep(w: World, xs: seq<Item>, front: seq<Item>, x: Item)
    requires Sound(w) && xs == front + [x]
    ensures !x.Embedded? ==>
              DocsIn(xs) == DocsIn(front) && Stage.Results(Indexing(w), xs) == Stage.Results(Indexing(w), front)
    ensures x.Embedded? ==>
              && DocsIn(xs) == DocsIn(front) + [AsDoc(x.vector)]
              && Stage.Results(Indexing(w), xs)
                 == Stage.Results(Indexing(w), front) + [AnswerTo(w, DocsIn(front), AsDoc(x.vector))]
  {
    Stage.FilterMapLast(DocIn, front, x);
    Stage.ResultsStep(Indexing(w), front, x);
    hide Stage.Results, Stage.FilterMap, Held, Sound;
    assert DocsIn(front) + [] == DocsIn(front);
    assert Stage.Results(Indexing(w), front) + [] == Stage.Results(Indexing(w), front);
  }

  /**
   Behind every run of the pipeline is a run of the index with one worker: it was called with the same
   documents in the same order, its graph is what is held of them, and what was printed so far are the first
   of the results it returned. The search need not be exact.
   */
  lemma PrintedByIndex(w: World, acts: seq<Chain.Action<Item>>) returns (run: seq<Index.Action>)
    requires Sound(w) && Chain.Exec(Configured(w), acts).Some?
    ensures Index.Exec(w.IndexConfig(), run).Some?
    ensures var s, t := Chain.Exec(Configured(w), acts).value, Index.Exec(w.IndexConfig(), run).value;
            var docs := DocsIn(s.stages[3].called);
            && t.graph == Held(w, docs)
            && |s.delivered| <= |t.h.returned| == |docs|
            && (forall i :: 0 <= i < |docs| ==> t.h.returned[i].doc == docs[i])
            && (forall i :: 0 <= i < |s.delivered| ==> s.delivered[i] == Indexed(t.h.returned[i].result))
  {
    StagesArePure(w);
    DeliveredWithin(Configured(w), acts, PureStages(w));
    var s := Chain.Exec(Configured(w), acts).value;
    run := IndexRun(w, s.stages[3].called);
    hide Chain.Exec, Stage.Results, Stage.FilterMap, DocsIn, Indexing, Index.Exec, Held;
  }

  // ---------- what is kept ----------

  lemma DocsAreEmbedded(w: World, xs: seq<Item>, doc: Doc)
    requires Sound(w) && doc in Stage.FilterMap(DocFor(w), xs)
    ensures exists x :: x in xs && DocFor(w)(x) == Some(doc)
  {
    hide Sound, DocForItem;
    var i := Stage.FilterMapFrom(DocFor(w), xs, doc);
    assert xs[i] in xs;
  }

  /** The requests have different ids, as those of a generator do. */
  ghost predicate DistinctRequests(xs: seq<Item>)
  {
    forall i, j :: 0 <= i < j < |xs| && xs[i].Request? && xs[j].Request? ==> xs[i].config.id != xs[j].config.id
  }

  lemma DocForId(w: World, x: Item)
    requires Sound(w) && DocFor(w)(x).Some?
    ensures x.Request? && DocFor(w)(x).value.id == x.config.id
  {
  }

  lemma {:induction false} DistinctDocs(w: World, xs: seq<Item>)
    requires Sound(w) && DistinctRequests(xs)
    ensures DistinctIds(Stage.FilterMap(DocFor(w), xs))
    decreases |xs|
  {
    hide Sound, DocForItem;
    if xs == [] {
    } else {
      var front, x := xs[..|xs| - 1], xs[|xs| - 1];
      DistinctDocs(w, front);
      if DocFor(w)(x).Some? {
        assert xs == front + [x];
        NewId(w, front, x);
      }
    }
  }

  lemma NewId(w: World, front: seq<Item>, x: Item)
    requires Sound(w) && DistinctRequests(front + [x]) && DocFor(w)(x).Some?
    ensures forall d :: d in Stage.FilterMap(DocFor(w), front) ==> d.id != DocFor(w)(x).value.id
  {
    forall d | d in Stage.FilterMap(DocFor(w), front) ensures d.id != DocFor(w)(x).value.id {
      DocsAreEmbedded(w, front, d);
      var y :| y in front && DocFor(w)(y) == Some(d);
      DocForId(w, x);
      DocForId(w, y);
      hide DocFor, Stage.FilterMap;
      var j :| 0 <= j < |front| && front[j] == y;
      assert (front + [x])[j] == y && (front + [x])[|front|] == x;
    }
  }

  /** Different ids are a matter of which documents there are, not of their order. */
  lemma DistinctInAnyOrder(docs: seq<Doc>, due: seq<Doc>)
    requires DistinctIds(due) && multiset(docs) <= multiset(due)
    ensures DistinctIds(docs)
  {
    forall i, k | 0 <= i < k < |docs| ensures docs[i].id != docs[k].id {
      assert docs[i] in multiset(docs) && docs[k] in multiset(docs);
      var a :| 0 <= a < |due| && due[a] == docs[i];
      var b :| 0 <= b < |due| && due[b] == docs[k];
      if a == b {
        TwoCopies(docs, i, k);
        OneCopy(due, a);
      }
    }
  }

  lemma TwoCopies<T>(docs: seq<T>, i: nat, k: nat)
    requires i < k < |docs| && docs[i] == docs[k]
    ensures multiset(docs)[docs[i]] >= 2
  {
    assert docs == docs[..k] + [docs[k]] + docs[k + 1..];
    assert docs[..k][i] == docs[i];
  }

  /** Every document is held or close to one that is, whatever the search. */
  lemma HeldCovers(w: World, docs: seq<Doc>, i: nat)
    requires Sound(w) && DistinctIds(docs) && i < |docs|
    ensures || (docs[i].id in Held(w, docs) && Held(w, docs)[docs[i].id] == docs[i].vec)
            || Index.Close(CONFIG, Held(w, docs), docs[i].vec)
  {
    StoredCollects(w.IndexConfig(), w.search);
    assert docs[..|docs|] == docs;
    Covers(w.IndexConfig(), Storing(w.IndexConfig(), w.search), docs, i, |docs|);
    hide Collects, Stored, Searches;
  }

  /**
   What the index holds in a run, finished or not, if the requests have different ids: documents at
   similarities in [0, 1] to each other, and in [0, 0.8) under exact search, those without tokens by
   convention; and for every document called for so far, whatever the search, itself or one at 0.8 or more.
   */
  lemma KeptByPipeline(w: World, acts: seq<Chain.Action<Item>>)
    requires Sound(w) && Chain.Exec(Configured(w), acts).Some?
    requires DistinctRequests(Chain.Exec(Configured(w), acts).value.sent)
    ensures Deduplicated(w, DocsIn(Chain.Exec(Configured(w), acts).value.stages[3].called))
  {
    PrintedWithin(w, acts);
    var s := Chain.Exec(Configured(w), acts).value;
    var docs, due := DocsIn(s.stages[3].called), Stage.FilterMap(DocFor(w), s.sent);
    hide Chain.Exec, Answers, DocsIn, Configured, Sound, Held;
    DistinctDocs(w, s.sent);
    DistinctInAnyOrder(docs, due);
    forall j, k | j in Held(w, docs) && k in Held(w, docs) && j != k ensures SimilarAsHeld(w, docs, j, k) {
      HeldPair(w, s.sent, docs, j, k);
    }
    forall i | 0 <= i < |docs|
      ensures || (docs[i].id in Held(w, docs) && Held(w, docs)[docs[i].id] == docs[i].vec)
              || Index.Close(CONFIG, Held(w, docs), docs[i].vec)
    {
      HeldCovers(w, docs, i);
    }
  }

  ghost predicate Deduplicated(w: World, docs: seq<Doc>)
    requires Sound(w)
  {
    var held := Held(w, docs);
    && DistinctIds(docs)
    && (forall j, k :: j in held && k in held && j != k ==> SimilarAsHeld(w, docs, j, k))
    && (forall i :: 0 <= i < |docs| ==>
          (docs[i].id in held && held[docs[i].id] == docs[i].vec) || Index.Close(CONFIG, held, docs[i].vec))
  }

  ghost predicate SimilarAsHeld(w: World, docs: seq<Doc>, j: string, k: string)
    requires Sound(w) && j in Held(w, docs) && k in Held(w, docs)
  {
    var similarity := Cosine(Held(w, docs)[j], Held(w, docs)[k]);
    0.0 <= similarity <= 1.0 && (w.exact ==> similarity < 0.8)
  }

  lemma HeldPair(w: World, xs: seq<Item>, docs: seq<Doc>, j: string, k: string)
    requires Sound(w) && multiset(docs) <= multiset(Stage.FilterMap(DocFor(w), xs))
    requires j in Held(w, docs) && k in Held(w, docs) && j != k
    ensures SimilarAsHeld(w, docs, j, k)
  {
    hide Kept, Stored, Cosine, EmbeddedAs, Stage.FilterMap, DocFor, Searches;
    var s := TextOf(w, xs, docs, j);
    var t := TextOf(w, xs, docs, k);
    EmbeddedSimilarity(w.hash, DIMENSION, w.sqrt, s, t);
    if w.exact {
      StoredIsKept(CONFIG, w.search, docs);
      CosineSymmetric();
      KeptApart(CONFIG, docs, j, k);
    }
  }

  /** Whatever is held is the embedding of some tokenized text. */
  lemma TextOf(w: World, xs: seq<Item>, docs: seq<Doc>, k: string) returns (text: TokenizedDoc)
    requires Sound(w) && multiset(docs) <= multiset(Stage.FilterMap(DocFor(w), xs))
    requires k in Held(w, docs)
    ensures Held(w, docs)[k] == EmbeddedAs(w.hash, DIMENSION, w.sqrt, text).vec
  {
    var i := HeldIsDoc(w, docs, k);
    hide Held, Sound;
    assert docs[i] in multiset(docs);
    DocsAreEmbedded(w, xs, docs[i]);
    var x :| x in xs && DocFor(w)(x) == Some(docs[i]);
    text := TokenizedDoc(x.config.id, Tokens(w.lower, w.letter, w.read(x.config).value));
  }

  lemma HeldIsDoc(w: World, docs: seq<Doc>, k: string) returns (i: nat)
    requires Sound(w) && k in Held(w, docs)
    ensures i < |docs| && docs[i] == Doc(k, Held(w, docs)[k])
  {
    StoredCollects(w.IndexConfig(), w.search);
    assert docs[..|docs|] == docs;
    OnlyDocs(w.IndexConfig(), Storing(w.IndexConfig(), w.search), docs, |docs|, k);
    hide Collects, Stored, Searches;
    i :| 0 <= i < |docs| && docs[i] == Doc(k, Held(w, docs)[k]);
  }

  // ---------- requests of the generator ----------

  function Requests(configs: seq<DataLoadingConfig>): (xs: seq<Item>)
    ensures |xs| == |configs| && forall i :: 0 <= i < |xs| ==> xs[i] == Request(configs[i])
  {
    seq(|configs|, i requires 0 <= i < |configs| => Request(configs[i]))
  }

  /** Requests with different ids still have them when offered in any order, or in part, without repetition. */
  lemma RequestsStayDistinct(configs: seq<DataLoadingConfig>, xs: seq<Item>)
    requires forall i, j :: 0 <= i < j < |configs| ==> configs[i].id != configs[j].id
    requires multiset(xs) <= multiset(Requests(configs))
    ensures DistinctRequests(xs)
  {
    var all := Requests(configs);
    forall i, j | 0 <= i < j < |xs| && xs[i].Request? && xs[j].Request? ensures xs[i].config.id != xs[j].config.id {
      assert xs[i] in multiset(xs) && xs[j] in multiset(xs);
      var a :| 0 <= a < |all| && all[a] == xs[i];
      var b :| 0 <= b < |all| && all[b] == xs[j];
      if a == b {
        TwoCopies(xs, i, j);
        OneCopy(all, a);
      }
    }
  }

  lemma OneCopy<T>(xs: seq<T>, a: nat)
    requires a < |xs| && forall i :: 0 <= i < |xs| && i != a ==> xs[i] != xs[a]
    ensures multiset(xs)[xs[a]] == 1
  {
    assert xs == xs[..a] + [xs[a]] + xs[a + 1..];
    assert xs[a] !in xs[..a] && xs[a] !in xs[a + 1..];
  }

  // ---------- main ----------

  lemma PrintedAtAnyTime(w: World, acts: seq<Chain.Action<Item>>)
    requires Sound(w) && Chain.Exec(Configured(w), acts).Some?
    ensures var s := Chain.Exec(Configured(w), acts).value;
            && Answers(w, DocsIn(s.stages[3].called), s.delivered)
            && multiset(DocsIn(s.stages[3].called)) <= multiset(Stage.FilterMap(DocFor(w), s.sent))
            && (!s.cancelled && Finished(s) ==> |s.delivered| == |Stage.FilterMap(DocFor(w), s.sent)|)
  {
    PrintedWithin(w, acts);
    var s := Chain.Exec(Configured(w), acts).value;
    if !s.cancelled && Finished(s) {
      PrintedExactly(w, acts);
      assert |multiset(DocsIn(s.stages[3].called))| == |multiset(Stage.FilterMap(DocFor(w), s.sent))|;
    }
    hide Sound, Chain.Exec, Stage.FilterMap, DocsIn, Answers, Finished;
  }

  /**
   The stages under any schedule, an action that is not possible when scheduled doing nothing, and the loop
   that prints what arrives at the end. The items offered are sent one after the other.
   */
  method Run(w: World, offers: seq<Item>, schedule: seq<Chain.Action<Item>>)
    returns (printed: seq<Item>, ghost s: Chain.State<Item>, ghost taken: seq<Chain.Action<Item>>)
    requires Sound(w)
    ensures Chain.Exec(Configured(w), taken) == Some(s) && printed == s.delivered && s.sent <= offers
    ensures Answers(w, DocsIn(s.stages[3].called), printed)
    ensures multiset(DocsIn(s.stages[3].called)) <= multiset(Stage.FilterMap(DocFor(w), s.sent))
    ensures !s.cancelled && Finished(s) ==> |printed| == |Stage.FilterMap(DocFor(w), s.sent)|
    ensures taken == Driven(Configured(w), offers, schedule) && |printed| == Sums.Sum(taken, Delivers)
    ensures var t := Chain.Exec(Configured(w), schedule);
            t.Some? && t.value.sent <= offers ==> taken == schedule && s == t.value
  {
    hide Sound, Answers, Finished, Stage.FilterMap, DocsIn;
    StagesArePure(w);
    var chain := new ChainRun.ChainRun(Configured(w));
    assert Chain.Exec(chain.cfg, []) == Some(chain.Snapshot());
    hide Chain.Exec, Configured;
    printed, taken := chain.Drive(offers, schedule);
    s := chain.Snapshot();
    PrintedAtAnyTime(w, taken);
  }

  /** The same with the generator at the head, whose requests have different ids. */
  method RunGenerated(w: World, generator: Generator, draws: seq<Rng>, schedule: seq<Chain.Action<Item>>)
    returns (printed: seq<Item>, ghost requests: seq<Item>, ghost s: Chain.State<Item>,
             ghost taken: seq<Chain.Action<Item>>)
    requires Sound(w) && forall i :: 0 <= i < |draws| ==> Draws(draws[i])
    modifies generator
    ensures generator.counter == old(generator.counter) + |draws| == old(generator.counter) + |requests|
    ensures forall i :: 0 <= i < |requests| ==>
              && requests[i].Request? && Fits(generator.config, requests[i].config)
              && requests[i].config.id == Id(generator.config.idPrefix, old(generator.counter) + i)
    ensures Chain.Exec(Configured(w), taken) == Some(s) && printed == s.delivered && s.sent <= requests
    ensures taken == Driven(Configured(w), requests, schedule) && |printed| == Sums.Sum(taken, Delivers)
    ensures var t := Chain.Exec(Configured(w), schedule);
            t.Some? && t.value.sent <= requests ==> taken == schedule && s == t.value
    ensures Answers(w, DocsIn(s.stages[3].called), printed) && Deduplicated(w, DocsIn(s.stages[3].called))
    ensures !s.cancelled && Finished(s) ==> |printed| == |Stage.FilterMap(DocFor(w), s.sent)|
  {
    var configs := generator.Run(draws);
    requests := Requests(configs);
    hide Sound, Deduplicated, Fits, Answers, Chain.Exec, Finished, Driven;
    printed, s, taken := Run(w, Requests(configs), schedule);
    PartOf(s.sent, requests);
    RequestsStayDistinct(configs, s.sent);
    KeptByPipeline(w, taken);
  }

  lemma PartOf<T>(xs: seq<T>, ys: seq<T>)
    requires xs <= ys
    ensures multiset(xs) <= multiset(ys)
  {
    assert ys == xs + ys[|xs|..];
  }
}
