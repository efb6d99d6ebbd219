/**
 The index with one worker, as the pipeline configures it: what a whole sequence of documents leaves
 stored, and what that means for embedded texts.
 */
module Deduplication {
  import opened Wrappers
  import opened Tokenize
  import opened Index
  import Embed
  import Vectors

  /** The documents kept, taking them one by one and keeping those that are close to nothing kept so far. */
  function Kept(c: Config, docs: seq<Doc>): map<string, Vec>
  {
    if docs == [] then map[]
    else
      var before, doc := Kept(c, docs[..|docs| - 1]), docs[|docs| - 1];
      if Close(c, before, doc.vec) then before else before[doc.id := doc.vec]
  }

  lemma KeptStep(c: Config, docs: seq<Doc>, j: nat)
    requires j < |docs|
    ensures var before := Kept(c, docs[..j]);
            Kept(c, docs[..j + 1])
            == if Close(c, before, docs[j].vec) then before else before[docs[j].id := docs[j].vec]
  {
    assert docs[..j + 1][..j] == docs[..j];
  }

  /** The one worker has taken the first j documents; `run` is how. */
  ghost predicate Taken(index: EmbeddingIndex, docs: seq<Doc>, j: nat, run: seq<Action>)
    requires j <= |docs|
    reads index
  {
    && index.Valid() && index.c.workers == 1 && index.workers[0].Idle?
    && index.graph == Kept(index.c, docs[..j]) && Exec(index.c, run) == Some(index.Snapshot())
  }

  method IndexNext(index: EmbeddingIndex, docs: seq<Doc>, j: nat, ghost run: seq<Action>)
    returns (result: DedupResult, ghost run': seq<Action>)
    requires j < |docs| && Taken(index, docs, j, run)
    modifies index
    ensures Taken(index, docs, j + 1, run')
    ensures SettledAt(index.c, docs, j, result)
  {
    hide Kept, Exec, Close, Settled;
    ghost var found;
    result, found := index.DedupAndIndex(0, docs[j], run);
    KeptStep(index.c, docs, j);
    run' := run + [Call(0, docs[j])] + [Search(0, found)] + [Finish(0)];
  }

  /** Each result is what the documents kept before it call for. */
  ghost predicate AllSettled(c: Config, docs: seq<Doc>, results: seq<DedupResult>)
  {
    |results| <= |docs| && forall i :: 0 <= i < |results| ==> SettledAt(c, docs, i, results[i])
  }

  ghost predicate SettledAt(c: Config, docs: seq<Doc>, i: nat, result: DedupResult)
    requires i < |docs|
  {
    Settled(c, Kept(c, docs[..i]), docs[i], result)
  }

  method IndexAll(index: EmbeddingIndex, docs: seq<Doc>) returns (results: seq<DedupResult>, ghost run: seq<Action>)
    requires index.Valid() && index.c.workers == 1 && index.Snapshot() == Init(index.c)
    modifies index
    ensures index.graph == Kept(index.c, docs)
    ensures |results| == |docs| && AllSettled(index.c, docs, results)
    ensures Exec(index.c, run) == Some(index.Snapshot())
  {
    results, run := [], [];
    assert Taken(index, docs, 0, run);
    for j := 0 to |docs|
      invariant Taken(index, docs, j, run)
      invariant |results| == j && AllSettled(index.c, docs, results)
    {
      var result;
      result, run := IndexNext(index, docs, j, run);
      results := results + [result];
    }
    assert docs[..|docs|] == docs;
  }

  /** Under exact search a settled result says duplicate exactly when something stored reaches the threshold. */
  lemma SettledDuplicate(c: Config, graph: map<string, Vec>, doc: Doc, r: DedupResult)
    requires c.exact && Settled(c, graph, doc, r)
    ensures r.id == doc.id && (r.isDuplicate <==> Close(c, graph, doc.vec))
    ensures graph == map[] ==> r.nearestId == "" && r.similarity == 0.0
    ensures graph != map[] ==>
              && r.nearestId in graph && r.similarity == c.sim(doc.vec, graph[r.nearestId])
              && forall k :: k in graph ==> c.sim(doc.vec, graph[k]) <= r.similarity
  {
    SettledIff(c, graph, doc, r);
    var found :| Answer(c, graph, doc.vec, found) && r == Decide(c, graph, doc, found);
    ExactDuplicateIff(c, graph, doc, found);
  }

  ghost predicate Symmetric(sim: (Vec, Vec) -> real)
  {
    forall u, v :: sim(u, v) == sim(v, u)
  }

  /** Kept documents are below the threshold to each other. */
  lemma {:induction false} KeptApart(c: Config, docs: seq<Doc>, j: string, k: string)
    requires Symmetric(c.sim) && j in Kept(c, docs) && k in Kept(c, docs) && j != k
    ensures c.sim(Kept(c, docs)[j], Kept(c, docs)[k]) < c.threshold
    decreases |docs|
  {
    var front, doc := docs[..|docs| - 1], docs[|docs| - 1];
    var before := Kept(c, front);
    if j in before && k in before { KeptApart(c, front, j, k); }
    if !Close(c, before, doc.vec) {
      if j == doc.id {
        assert c.sim(doc.vec, before[k]) < c.threshold;
      } else if k == doc.id {
        assert c.sim(doc.vec, before[j]) < c.threshold;
      }
    }
  }

  // ---------- ways of keeping ----------

  /** Each document is added to what there is, or else is close to something there. */
  ghost predicate Collects(c: Config, g: seq<Doc> -> map<string, Vec>)
  {
    && g([]) == map[]
    && forall docs: seq<Doc>, doc: Doc ::
         || g(docs + [doc]) == g(docs)[doc.id := doc.vec]
         || (g(docs + [doc]) == g(docs) && Close(c, g(docs), doc.vec))
  }

  lemma Collected(c: Config, g: seq<Doc> -> map<string, Vec>, docs: seq<Doc>, j: nat)
    requires Collects(c, g) && j < |docs|
    ensures || g(docs[..j + 1]) == g(docs[..j])[docs[j].id := docs[j].vec]
            || (g(docs[..j + 1]) == g(docs[..j]) && Close(c, g(docs[..j]), docs[j].vec))
  {
    assert docs[..j + 1] == docs[..j] + [docs[j]];
    hide Close;
  }

  /** What is there stays, as long as its id does not come again. */
  lemma {:induction false} Stays(c: Config, g: seq<Doc> -> map<string, Vec>, docs: seq<Doc>, m: nat, n: nat, k: string)
    requires Collects(c, g) && m <= n <= |docs| && k in g(docs[..m])
    requires forall i :: m <= i < n ==> docs[i].id != k
    ensures k in g(docs[..n]) && g(docs[..n])[k] == g(docs[..m])[k]
    decreases n
  {
    if m < n {
      Stays(c, g, docs, m, n - 1, k);
      Collected(c, g, docs, n - 1);
    }
  }

  lemma {:induction false} OnlyDocs(c: Config, g: seq<Doc> -> map<string, Vec>, docs: seq<Doc>, n: nat, k: string)
    requires Collects(c, g) && n <= |docs| && k in g(docs[..n])
    ensures exists i :: 0 <= i < n && docs[i] == Doc(k, g(docs[..n])[k])
    decreases n
  {
    assert docs[..0] == [];
    if n == 0 {
    } else {
      Collected(c, g, docs, n - 1);
      if k in g(docs[..n - 1]) && g(docs[..n])[k] == g(docs[..n - 1])[k] {
        OnlyDocs(c, g, docs, n - 1, k);
      } else {
        assert docs[n - 1] == Doc(k, g(docs[..n])[k]);
      }
    }
  }

  /** So with different ids every document seen is there, or close to one that is. */
  lemma Covers(c: Config, g: seq<Doc> -> map<string, Vec>, docs: seq<Doc>, i: nat, n: nat)
    requires Collects(c, g) && DistinctIds(docs) && i < n <= |docs|
    ensures var kept := g(docs[..n]);
            (docs[i].id in kept && kept[docs[i].id] == docs[i].vec) || Close(c, kept, docs[i].vec)
  {
    var before, after := g(docs[..i]), g(docs[..i + 1]);
    Collected(c, g, docs, i);
    if after == before[docs[i].id := docs[i].vec] {
      Stays(c, g, docs, i + 1, n, docs[i].id);
    } else {
      var k :| k in before && c.sim(docs[i].vec, before[k]) >= c.threshold;
      OnlyDocs(c, g, docs, i, k);
      Stays(c, g, docs, i + 1, n, k);
    }
  }

  function Keeping(c: Config): seq<Doc> -> map<string, Vec>
  {
    (docs: seq<Doc>) => Kept(c, docs)
  }

  lemma KeptCollects(c: Config)
    ensures Collects(c, Keeping(c))
  {
    forall docs: seq<Doc>, doc: Doc
      ensures || Keeping(c)(docs + [doc]) == Keeping(c)(docs)[doc.id := doc.vec]
              || (Keeping(c)(docs + [doc]) == Keeping(c)(docs) && Close(c, Keeping(c)(docs), doc.vec))
    {
      assert (docs + [doc])[..|docs|] == docs;
    }
  }

  lemma KeptAreDocs(c: Config, docs: seq<Doc>, k: string)
    requires k in Kept(c, docs)
    ensures exists i :: 0 <= i < |docs| && docs[i] == Doc(k, Kept(c, docs)[k])
  {
    KeptCollects(c);
    assert docs[..|docs|] == docs;
    OnlyDocs(c, Keeping(c), docs, |docs|, k);
  }

  /** Every document seen is kept, or close to one that is. */
  lemma KeptCovers(c: Config, docs: seq<Doc>, i: nat, n: nat)
    requires DistinctIds(docs) && i < n <= |docs|
    ensures var kept := Kept(c, docs[..n]);
            (docs[i].id in kept && kept[docs[i].id] == docs[i].vec) || Close(c, kept, docs[i].vec)
  {
    KeptCollects(c);
    Covers(c, Keeping(c), docs, i, n);
  }

  /** So a document with the vector of an earlier one is always reported, whatever became of the earlier one. */
  lemma RepeatIsReported(c: Config, docs: seq<Doc>, i: nat, j: nat)
    requires DistinctIds(docs) && i < j < |docs| && docs[i].vec == docs[j].vec
    requires c.sim(docs[i].vec, docs[i].vec) >= c.threshold
    ensures Close(c, Kept(c, docs[..j]), docs[j].vec)
  {
    KeptCovers(c, docs, i, j);
  }

  // ---------- any search ----------

  /** What a search may go by: what is stored, the documents taken before (so the graph's shape), the vector. */
  type SearchFn = (map<string, Vec>, seq<Doc>, Vec) -> Option<string>

  ghost predicate Searches(c: Config, search: SearchFn)
  {
    forall graph, past, vec :: Answer(c, graph, vec, search(graph, past, vec))
  }

  /** What is decided about one more document. */
  function Decision(c: Config, search: SearchFn, past: seq<Doc>, graph: map<string, Vec>, doc: Doc): DedupResult
    requires Searches(c, search)
  {
    Decide(c, graph, doc, search(graph, past, doc.vec))
  }

  /** What one worker stores of those documents, searching in that way. */
  function Stored(c: Config, search: SearchFn, docs: seq<Doc>): map<string, Vec>
    requires Searches(c, search)
  {
    if docs == [] then map[]
    else
      var past, doc := docs[..|docs| - 1], docs[|docs| - 1];
      var before := Stored(c, search, past);
      if Decision(c, search, past, before, doc).isDuplicate then before else before[doc.id := doc.vec]
  }

  lemma StoredLast(c: Config, search: SearchFn, docs: seq<Doc>, doc: Doc)
    requires Searches(c, search)
    ensures var before := Stored(c, search, docs);
            Stored(c, search, docs + [doc])
            == if Decision(c, search, docs, before, doc).isDuplicate then before else before[doc.id := doc.vec]
  {
    assert (docs + [doc])[..|docs|] == docs;
  }

  /** A duplicate is never reported without reason; under exact search, whenever there is one. */
  lemma DecisionIs(c: Config, search: SearchFn, past: seq<Doc>, graph: map<string, Vec>, doc: Doc)
    requires Searches(c, search)
    ensures var r := Decision(c, search, past, graph, doc);
            && Settled(c, graph, doc, r)
            && (r.isDuplicate ==> Close(c, graph, doc.vec))
            && (c.exact ==> (r.isDuplicate <==> Close(c, graph, doc.vec)))
  {
    var found := search(graph, past, doc.vec);
    assert Answer(c, graph, doc.vec, found);
    if c.exact { ExactDuplicateIff(c, graph, doc, found); }
  }

  function Storing(c: Config, search: SearchFn): seq<Doc> -> map<string, Vec>
    requires Searches(c, search)
  {
    (docs: seq<Doc>) => Stored(c, search, docs)
  }

  lemma StoredCollects(c: Config, search: SearchFn)
    requires Searches(c, search)
    ensures Collects(c, Storing(c, search))
  {
    forall docs: seq<Doc>, doc: Doc
      ensures var g := Storing(c, search);
              || g(docs + [doc]) == g(docs)[doc.id := doc.vec]
              || (g(docs + [doc]) == g(docs) && Close(c, g(docs), doc.vec))
    {
      StoredLast(c, search, docs, doc);
      DecisionIs(c, search, docs, Stored(c, search, docs), doc);
    }
  }

  /** An exact search stores what is kept. */
  lemma {:induction false} StoredIsKept(c: Config, search: SearchFn, docs: seq<Doc>)
    requires Searches(c, search) && c.exact
    ensures Stored(c, search, docs) == Kept(c, docs)
    decreases |docs|
  {
    if docs == [] {
    } else {
      var past := docs[..|docs| - 1];
      StoredIsKept(c, search, past);
      DecisionIs(c, search, past, Kept(c, past), docs[|docs| - 1]);
    }
  }

  // ---------- texts ----------

  /** The similarity the index works with: 1 less the cosine distance of unit vectors. */
  function Cosine(u: Vec, v: Vec): real
  {
    if |u| == |v| then Embed.Similarity(u, v) else 0.0
  }

  lemma {:induction false} DotSymmetric(u: Vec, v: Vec, n: nat)
    requires n <= |u| == |v|
    ensures Vectors.DotTo(u, v, n) == Vectors.DotTo(v, u, n)
  {
    if n == 0 {
    } else {
      DotSymmetric(u, v, n - 1);
    }
  }

  lemma CosineSymmetric()
    ensures Symmetric(Cosine)
  {
    forall u, v ensures Cosine(u, v) == Cosine(v, u) {
      if |u| == |v| { DotSymmetric(u, v, |u|); }
    }
  }

  /** The vector of an embedding; one that is not a number is similar to nothing, itself included. */
  function VecOf(e: seq<Embed.Float>): Vec
  {
    if forall i :: 0 <= i < |e| ==> e[i].Number? then
      seq(|e|, i requires 0 <= i < |e| => if e[i].Number? then e[i].value else 0.0)
    else []
  }

  lemma VecOfComponents(e: Embed.Embedding, dim: nat)
    requires dim > 0
    ensures VecOf(Embed.Components(e, dim)) == if e.Unit? then e.v else []
  {
    if e.NotANumber? {
      assert Embed.Components(e, dim)[0] == Embed.NaN;
    }
  }

  function AsDoc(e: Embed.EmbeddedDoc): Doc
  {
    Doc(e.id, VecOf(e.embedding))
  }

  /** What the embedding stage makes of a tokenized document, as the index takes it. */
  function EmbeddedAs(hash: Embed.Hash, dim: nat, sqrt: real -> real, text: TokenizedDoc): Doc
    requires dim > 0 && Embed.SquareRoot(sqrt)
  {
    AsDoc(Embed.EmbeddedDoc(text.id, Embed.Components(Embed.Embedded(hash, dim, sqrt, text.tokens), dim)))
  }

  ghost predicate AreEmbedded(hash: Embed.Hash, dim: nat, sqrt: real -> real, texts: seq<TokenizedDoc>, docs: seq<Doc>)
    requires dim > 0 && Embed.SquareRoot(sqrt)
  {
    |docs| == |texts| && forall i :: 0 <= i < |docs| ==> docs[i] == EmbeddedAs(hash, dim, sqrt, texts[i])
  }

  /** A vector that is not a number is never close to anything. */
  lemma NothingIsClose(c: Config, graph: map<string, Vec>)
    requires c.sim == Cosine && c.threshold > 0.0
    ensures !Close(c, graph, [])
  {
    forall k | k in graph ensures Cosine([], graph[k]) == 0.0 {
    }
  }

  /**
   A document whose tokens are those of an earlier one in another order is reported as a duplicate, exactly
   if its embedding is a number.
   */
  lemma PermutationIsReported(c: Config, hash: Embed.Hash, dim: nat, sqrt: real -> real,
                              texts: seq<TokenizedDoc>, docs: seq<Doc>, i: nat, j: nat)
    requires dim > 0 && Embed.SquareRoot(sqrt) && AreEmbedded(hash, dim, sqrt, texts, docs)
    requires c.sim == Cosine && 0.0 < c.threshold <= 1.0 && DistinctIds(docs)
    requires i < j < |docs| && multiset(texts[i].tokens) == multiset(texts[j].tokens)
    ensures Close(c, Kept(c, docs[..j]), docs[j].vec)
            <==> !Embed.Zero(Embed.Raw(hash, dim, texts[j].tokens))
  {
    var e := Embed.Embedded(hash, dim, sqrt, texts[j].tokens);
    Embed.EmbeddingPermutation(hash, dim, sqrt, texts[i].tokens, texts[j].tokens);
    Embed.EmbeddingLength(hash, dim, sqrt, texts[j].tokens);
    VecOfComponents(e, dim);
    if e.Unit? {
      Embed.SimilarityBounds(hash, dim, sqrt, texts[j].tokens, texts[j].tokens);
      RepeatIsReported(c, docs, i, j);
    } else {
      NothingIsClose(c, Kept(c, docs[..j]));
    }
  }

  const DIMENSION := 1024
  const THRESHOLD := 0.8

  /** The index as the pipeline configures it. */
  const CONFIG := Config(1, THRESHOLD, Cosine, true)

  /** v is the raw vector, each component divided by the positive number n. */
  ghost predicate OverLength(v: seq<real>, raw: seq<int>, n: real)
  {
    |v| == |raw| && n > 0.0 && forall i :: 0 <= i < |v| ==> v[i] * n == raw[i] as real
  }

  /** A document's vector is its raw vector over its length, or empty if the raw vector is zero. */
  lemma VecIsRaw(hash: Embed.Hash, dim: nat, sqrt: real -> real, text: TokenizedDoc) returns (n: real)
    requires dim > 0 && Embed.SquareRoot(sqrt)
    ensures var v, raw := EmbeddedAs(hash, dim, sqrt, text).vec, Embed.Raw(hash, dim, text.tokens);
            if Embed.Zero(raw) then v == []
            else |v| == dim && OverLength(v, raw, n)
  {
    n := 0.0;
    var e := Embed.Embedded(hash, dim, sqrt, text.tokens);
    VecOfComponents(e, dim);
    Embed.EmbeddingLength(hash, dim, sqrt, text.tokens);
    assert EmbeddedAs(hash, dim, sqrt, text).vec == if e.Unit? then e.v else [];
    hide *;
    if e.Unit? { n := UnitIsRaw(hash, dim, sqrt, text.tokens); }
  }

  lemma UnitIsRaw(hash: Embed.Hash, dim: nat, sqrt: real -> real, tokens: seq<Token>) returns (n: real)
    requires dim > 0 && Embed.SquareRoot(sqrt) && !Embed.Zero(Embed.Raw(hash, dim, tokens))
    ensures var e := Embed.Embedded(hash, dim, sqrt, tokens);
            e.Unit? && |e.v| == dim && OverLength(e.v, Embed.Raw(hash, dim, tokens), n)
  {
    n := Embed.EmbeddingIsRaw(hash, dim, sqrt, tokens);
    hide Embed.Raw, Embed.Embedded, Embed.Zero;
  }

  /** What the index compares is the cosine: times both lengths, the dot product of the raw vectors. */
  lemma TextCosine(hash: Embed.Hash, dim: nat, sqrt: real -> real, s: TokenizedDoc, t: TokenizedDoc)
    returns (m: real, n: real)
    requires dim > 0 && Embed.SquareRoot(sqrt)
    requires !Embed.Zero(Embed.Raw(hash, dim, s.tokens)) && !Embed.Zero(Embed.Raw(hash, dim, t.tokens))
    ensures var u, v := Embed.Reals(Embed.Raw(hash, dim, s.tokens)), Embed.Reals(Embed.Raw(hash, dim, t.tokens));
            Embed.CosineOf(Cosine(EmbeddedAs(hash, dim, sqrt, s).vec, EmbeddedAs(hash, dim, sqrt, t).vec), u, v, m, n)
  {
    var a, b := Embed.Embedded(hash, dim, sqrt, s.tokens), Embed.Embedded(hash, dim, sqrt, t.tokens);
    VecOfComponents(a, dim);
    VecOfComponents(b, dim);
    assert a.Unit? ==> EmbeddedAs(hash, dim, sqrt, s).vec == a.v;
    assert b.Unit? ==> EmbeddedAs(hash, dim, sqrt, t).vec == b.v;
    assert a.Unit? && b.Unit? && |a.v| == |b.v| ==> Cosine(a.v, b.v) == Embed.Similarity(a.v, b.v);
    hide *;
    m, n := Embed.SimilarityIsCosine(hash, dim, sqrt, s.tokens, t.tokens);
  }

  /**
   In even dimension no two embedded documents have a negative similarity. For documents with a token this
   is their cosine; one without, whose embedding is NaN, is at 0 to everything by the convention above.
   */
  lemma EmbeddedSimilarity(hash: Embed.Hash, dim: nat, sqrt: real -> real, s: TokenizedDoc, t: TokenizedDoc)
    requires dim > 0 && dim % 2 == 0 && Embed.SquareRoot(sqrt)
    ensures var u, v := EmbeddedAs(hash, dim, sqrt, s).vec, EmbeddedAs(hash, dim, sqrt, t).vec;
            && 0.0 <= Cosine(u, v) <= 1.0
            && (s.tokens == [] || t.tokens == [] ==> Cosine(u, v) == 0.0)
            && (s.tokens != [] && t.tokens != [] ==> |u| == |v| == dim && Cosine(u, v) == Embed.Similarity(u, v))
  {
    VecOfComponents(Embed.Embedded(hash, dim, sqrt, s.tokens), dim);
    VecOfComponents(Embed.Embedded(hash, dim, sqrt, t.tokens), dim);
    Embed.EvenEmbedding(hash, dim, sqrt, s.tokens);
    Embed.EvenEmbedding(hash, dim, sqrt, t.tokens);
    Embed.EmbeddingLength(hash, dim, sqrt, s.tokens);
    Embed.EmbeddingLength(hash, dim, sqrt, t.tokens);
    hide Embed.Embedded, VecOf, Embed.Components;
    if s.tokens != [] && t.tokens != [] {
      Embed.EvenSimilarity(hash, dim, sqrt, s.tokens, t.tokens);
    }
  }

  /** So two kept ones, in the configuration, are at similarities in [0, 0.8). */
  lemma KeptSimilarity(hash: Embed.Hash, sqrt: real -> real, docs: seq<Doc>, j: string, k: string,
                       s: TokenizedDoc, t: TokenizedDoc)
    requires Embed.SquareRoot(sqrt)
    requires j in Kept(CONFIG, docs) && k in Kept(CONFIG, docs) && j != k
    requires Kept(CONFIG, docs)[j] == EmbeddedAs(hash, DIMENSION, sqrt, s).vec
    requires Kept(CONFIG, docs)[k] == EmbeddedAs(hash, DIMENSION, sqrt, t).vec
    ensures 0.0 <= Cosine(Kept(CONFIG, docs)[j], Kept(CONFIG, docs)[k]) < 0.8
  {
    CosineSymmetric();
    KeptApart(CONFIG, docs, j, k);
    EmbeddedSimilarity(hash, DIMENSION, sqrt, s, t);
    hide Kept, Cosine, EmbeddedAs, Symmetric;
  }

  lemma KeptText(hash: Embed.Hash, sqrt: real -> real, texts: seq<TokenizedDoc>, docs: seq<Doc>, k: string)
    returns (text: TokenizedDoc)
    requires Embed.SquareRoot(sqrt) && AreEmbedded(hash, DIMENSION, sqrt, texts, docs) && k in Kept(CONFIG, docs)
    ensures Kept(CONFIG, docs)[k] == EmbeddedAs(hash, DIMENSION, sqrt, text).vec
  {
    KeptAreDocs(CONFIG, docs, k);
    var i :| 0 <= i < |docs| && docs[i] == Doc(k, Kept(CONFIG, docs)[k]);
    text := texts[i];
  }

  /**
   In the configured pipeline the kept documents are at similarities in [0, 0.8) of each other, those without
   tokens by convention.
   */
  lemma ConfiguredIndex(hash: Embed.Hash, sqrt: real -> real, texts: seq<TokenizedDoc>, docs: seq<Doc>,
                        j: string, k: string)
    requires Embed.SquareRoot(sqrt) && AreEmbedded(hash, DIMENSION, sqrt, texts, docs)
    requires var kept := Kept(CONFIG, docs); j in kept && k in kept && j != k
    ensures var kept := Kept(CONFIG, docs); 0.0 <= Cosine(kept[j], kept[k]) < 0.8
  {
    hide Kept, Cosine, EmbeddedAs, AreEmbedded;
    var s := KeptText(hash, sqrt, texts, docs, j);
    var t := KeptText(hash, sqrt, texts, docs, k);
    KeptSimilarity(hash, sqrt, docs, j, k, s, t);
  }

  // ---------- the runs behind it ----------

  /** One worker takes one more document: call, search and finish, for whatever answer the search gives. */
  lemma TakeOneMore(c: Config, run: seq<Action>, doc: Doc, found: Option<string>) returns (more: seq<Action>)
    requires c.workers == 1 && Exec(c, run).Some?
    requires Exec(c, run).value.workers[0].Idle? && Answer(c, Exec(c, run).value.graph, doc.vec, found)
    ensures Exec(c, more).Some?
    ensures var s, t := Exec(c, run).value, Exec(c, more).value;
            var r := Decide(c, s.graph, doc, found);
            && t.workers[0].Idle?
            && t.graph == (if r.isDuplicate then s.graph else s.graph[doc.id := doc.vec])
            && t.h.returned == s.h.returned + [Report(doc, r, |s.h.added|)]
            && (c.exact ==> (r.isDuplicate <==> Close(c, s.graph, doc.vec)))
  {
    var s := Exec(c, run).value;
    if c.exact { ExactDuplicateIff(c, s.graph, doc, found); }
    hide Exec, Close, Answer, Decide;
    Extend(c, run, Call(0, doc));
    Extend(c, run + [Call(0, doc)], Search(0, found));
    Extend(c, run + [Call(0, doc)] + [Search(0, found)], Finish(0));
    more := run + [Call(0, doc)] + [Search(0, found)] + [Finish(0)];
  }
}
