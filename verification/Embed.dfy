/**
 Embed: signed feature hashing of the tokens into `dim` buckets, then scaling to unit length. The hash
 is an arbitrary function to 64 bits, the arithmetic exact, and the square root a parameter.
 */
module Embed {
  import opened Utf8
  import opened Sums
  import opened Tokenize
  import opened Vectors

  type Uint64 = h: int | 0 <= h < 0x1_0000_0000_0000_0000

  type Hash = seq<Byte> -> Uint64

  /** A component of a vector: a number, or what 0 divided by 0 gives. */
  datatype Float = Number(value: real) | NaN

  /** A vector of unit length, or one that cannot be scaled because it is zero. */
  datatype Embedding = Unit(v: seq<real>) | NotANumber

  datatype EmbeddedDoc = EmbeddedDoc(id: string, embedding: seq<Float>)

  // ---------- the raw vector ----------

  function Bucket(h: Uint64, dim: nat): (i: nat)
    requires dim > 0
    ensures i < dim
  {
    h % dim
  }

  function Sign(h: Uint64): int
  {
    if h % 2 == 1 then -1 else 1
  }

  /** What a token adds to bucket i. */
  function Share(hash: Hash, dim: nat, i: nat): Token -> int
    requires dim > 0
  {
    (t: Token) => if Bucket(hash(t.term), dim) == i then Sign(hash(t.term)) else 0
  }

  /** Bucket by bucket, the tokens with an even hash less those with an odd one. */
  function Raw(hash: Hash, dim: nat, tokens: seq<Token>): (r: seq<int>)
    requires dim > 0
    ensures |r| == dim && forall i :: 0 <= i < dim ==> r[i] == Sum(tokens, Share(hash, dim, i))
  {
    seq(dim, i requires 0 <= i < dim => Sum(tokens, Share(hash, dim, i)))
  }

  predicate Zero(v: seq<int>)
  {
    forall i :: 0 <= i < |v| ==> v[i] == 0
  }

  function Abs(x: int): int
  {
    if x < 0 then -x else x
  }

  /** From nothing, one more token takes 1 from its hash's bucket if the hash is odd, and adds 1 if it is even. */
  lemma RawStep(hash: Hash, dim: nat, tokens: seq<Token>, t: Token)
    requires dim > 0
    ensures |Raw(hash, dim, [])| == dim && forall i :: 0 <= i < dim ==> Raw(hash, dim, [])[i] == 0
    ensures var r, h := Raw(hash, dim, tokens), hash(t.term);
            Raw(hash, dim, tokens + [t]) == r[h % dim := r[h % dim] + if h % 2 == 1 then -1 else 1]
  {
    assert (tokens + [t])[..|tokens|] == tokens;
  }

  /** Two token lists put together: the vectors add up. */
  lemma RawAppend(hash: Hash, dim: nat, a: seq<Token>, b: seq<Token>)
    requires dim > 0
    ensures forall i :: 0 <= i < dim ==>
              Raw(hash, dim, a + b)[i] == Raw(hash, dim, a)[i] + Raw(hash, dim, b)[i]
  {
    forall i | 0 <= i < dim
      ensures Raw(hash, dim, a + b)[i] == Raw(hash, dim, a)[i] + Raw(hash, dim, b)[i]
    {
      SumAppend(a, b, Share(hash, dim, i));
    }
  }

  /** From texts to raw vectors is a homomorphism: joining texts by a non-letter adds their vectors. */
  lemma RawOfJoinedTexts(hash: Hash, dim: nat, lower: Rune -> Rune, letter: Rune -> bool,
                         a: seq<Byte>, sep: Rune, b: seq<Byte>)
    requires dim > 0 && CaseMap(lower) && Scalar(sep) && !letter(lower(sep))
    ensures forall i :: 0 <= i < dim ==>
              Raw(hash, dim, Tokens(lower, letter, a + Encode(sep) + b))[i]
              == Raw(hash, dim, Tokens(lower, letter, a))[i] + Raw(hash, dim, Tokens(lower, letter, b))[i]
  {
    TokensJoin(lower, letter, a, sep, b);
    RawAppend(hash, dim, Tokens(lower, letter, a), Tokens(lower, letter, b));
  }

  lemma RawPermutation(hash: Hash, dim: nat, a: seq<Token>, b: seq<Token>)
    requires dim > 0 && multiset(a) == multiset(b)
    ensures Raw(hash, dim, a) == Raw(hash, dim, b)
  {
    forall i | 0 <= i < dim ensures Raw(hash, dim, a)[i] == Raw(hash, dim, b)[i] {
      SumPermutation(a, b, Share(hash, dim, i));
    }
  }

  // ---------- even dimensions ----------

  /** In an even number of buckets a hash has the parity of its bucket. */
  lemma ParityOfBucket(h: Uint64, dim: nat)
    requires dim > 0 && dim % 2 == 0
    ensures Bucket(h, dim) % 2 == h % 2
  {
    var q, b := h / dim, h % dim;
    Division(h, dim);
    var x := Halved(dim, dim / 2, q);
    Parity(h, x, b);
  }

  lemma Division(h: Uint64, dim: nat)
    requires dim > 0
    ensures h == dim * (h / dim) + h % dim
  {
  }

  lemma Halved(dim: nat, k: nat, q: int) returns (x: int)
    requires dim == 2 * k
    ensures dim * q == 2 * x
  {
    x := k * q;
  }

  lemma Parity(h: int, x: int, b: int)
    requires h == 2 * x + b
    ensures b % 2 == h % 2
  {
  }

  /** How many tokens hash to bucket i. */
  function Hits(hash: Hash, dim: nat, i: nat): Token -> int
    requires dim > 0
  {
    (t: Token) => if Bucket(hash(t.term), dim) == i then 1 else 0
  }

  /** No cancellation: a bucket's magnitude is the number of its tokens, its sign the bucket's parity. */
  lemma {:induction false} EvenBucket(hash: Hash, dim: nat, tokens: seq<Token>, i: nat)
    requires dim > 0 && dim % 2 == 0 && i < dim
    ensures Raw(hash, dim, tokens)[i]
            == (if i % 2 == 0 then Sum(tokens, Hits(hash, dim, i)) else -Sum(tokens, Hits(hash, dim, i)))
    ensures Sum(tokens, Hits(hash, dim, i)) >= 0
    decreases |tokens|
  {
    if tokens == [] {
    } else {
      var t := tokens[|tokens| - 1];
      EvenBucket(hash, dim, tokens[..|tokens| - 1], i);
      ParityOfBucket(hash(t.term), dim);
    }
  }

  function L1(v: seq<int>): int
  {
    Sum(v, Abs)
  }

  lemma L1Zero(v: seq<int>)
    ensures L1(v) == 0 <==> Zero(v)
  {
    SumZero(v, Abs);
  }

  /** In even dimension the L1 norm of the raw vector is the number of tokens. */
  lemma {:induction false} EvenL1(hash: Hash, dim: nat, tokens: seq<Token>)
    requires dim > 0 && dim % 2 == 0
    ensures L1(Raw(hash, dim, tokens)) == |tokens|
    decreases |tokens|
  {
    if tokens == [] {
      L1Zero(Raw(hash, dim, []));
    } else {
      var before, t := tokens[..|tokens| - 1], tokens[|tokens| - 1];
      var r, b := Raw(hash, dim, before), Bucket(hash(t.term), dim);
      EvenL1(hash, dim, before);
      assert tokens == before + [t];
      RawStep(hash, dim, before, t);
      SumUpdate(r, b, r[b] + Sign(hash(t.term)), Abs);
      EvenBucket(hash, dim, before, b);
      ParityOfBucket(hash(t.term), dim);
    }
  }

  ghost predicate NeverCancels(dim: nat)
    requires dim > 0
  {
    forall hash: Hash, tokens: seq<Token> :: Zero(Raw(hash, dim, tokens)) ==> tokens == []
  }

  /** A document with tokens can never end up with a zero vector exactly when the dimension is even. */
  lemma NeverCancelsIff(dim: Uint64)
    requires dim > 0
    ensures NeverCancels(dim) <==> dim % 2 == 0
  {
    if dim % 2 == 0 {
      forall hash: Hash, tokens: seq<Token> | Zero(Raw(hash, dim, tokens)) ensures tokens == [] {
        EvenL1(hash, dim, tokens);
        L1Zero(Raw(hash, dim, tokens));
      }
    } else {
      OddCancels(dim);
    }
  }

  /** Two terms hashed to 0 and to an odd dimension share bucket 0 with opposite signs. */
  lemma OddCancels(dim: Uint64)
    requires dim > 0 && dim % 2 == 1
    ensures exists hash: Hash, tokens: seq<Token> :: tokens != [] && Zero(Raw(hash, dim, tokens))
  {
    var hash: Hash := (term: seq<Byte>) => if term == [97] then 0 else dim;
    var a, b := Token([97]), Token([98]);
    assert hash(a.term) == 0 && hash(b.term) == dim;
    assert [] + [a] == [a] && [a] + [b] == [a, b];
    assert 0 % dim == 0 && dim % dim == 0;
    RawStep(hash, dim, [], a);
    RawStep(hash, dim, [a], b);
    hide Raw;
    var none := Raw(hash, dim, []);
    assert Raw(hash, dim, [a]) == none[0 := 1];
    assert Raw(hash, dim, [a, b]) == none[0 := 1][0 := 0];
    assert Zero(Raw(hash, dim, [a, b]));
    assert [a, b] != [];
  }

  // ---------- normalisation ----------

  ghost predicate SquareRoot(sqrt: real -> real)
  {
    forall x :: x >= 0.0 ==> sqrt(x) >= 0.0 && sqrt(x) * sqrt(x) == x
  }

  function Reals(v: seq<int>): (r: seq<real>)
    ensures |r| == |v| && forall i :: 0 <= i < |v| ==> r[i] == v[i] as real
  {
    seq(|v|, i requires 0 <= i < |v| => v[i] as real)
  }

  /** The vector divided by its own length, which a zero vector does not allow. */
  function Normal(v: seq<real>, sqrt: real -> real): Embedding
    requires SquareRoot(sqrt)
  {
    NormZero(v, sqrt);
    if Dot(v, v) == 0.0 then NotANumber else Unit(Scaled(v, sqrt(Dot(v, v))))
  }

  lemma NormZero(v: seq<real>, sqrt: real -> real)
    requires SquareRoot(sqrt)
    ensures Dot(v, v) >= 0.0
    ensures sqrt(Dot(v, v)) == 0.0 <==> Dot(v, v) == 0.0
  {
    LengthZero(v, |v|);
    var n := sqrt(Dot(v, v));
    SquareIsProduct(n);
    hide Square;
  }

  function Numbers(v: seq<real>): (r: seq<Float>)
    ensures |r| == |v| && forall i :: 0 <= i < |v| ==> r[i] == Number(v[i])
  {
    seq(|v|, i requires 0 <= i < |v| => Number(v[i]))
  }

  lemma NumbersUpdate(v: seq<real>, i: nat, x: real)
    requires i < |v|
    ensures Numbers(v)[i] == Number(v[i]) && Numbers(v[i := x]) == Numbers(v)[i := Number(x)]
  {
  }

  /** An embedding of so many components, written out. */
  function Components(e: Embedding, dim: nat): seq<Float>
  {
    match e
    case Unit(v) => Numbers(v)
    case NotANumber => seq(dim, _ => NaN)
  }

  function Divide(x: real, y: real): Float
    requires y != 0.0 || x == 0.0
  {
    if y == 0.0 then NaN else Number(x / y)
  }

  /** Each component is the number that n times gives v's back; there is none if n is 0. */
  ghost predicate DividedBy(e: seq<Float>, v: seq<real>, n: real)
  {
    && |e| == |v|
    && forall i :: 0 <= i < |e| ==> if n == 0.0 then e[i].NaN? else e[i].Number? && e[i].value * n == v[i]
  }

  lemma AllDivided(e: seq<Float>, v: seq<real>, n: real)
    requires |e| == |v| && (n == 0.0 ==> forall i :: 0 <= i < |v| ==> v[i] == 0.0)
    requires forall i :: 0 <= i < |v| ==> e[i] == Divide(v[i], n)
    ensures DividedBy(e, v, n)
  {
    if n != 0.0 {
      forall i | 0 <= i < |v| ensures e[i].Number? && e[i].value * n == v[i] {
        Undivided(v[i], n);
      }
    }
  }

  /** The division is carried out whatever the length; a zero vector becomes NaN throughout. */
  method Normalize(vec: array<Float>, ghost v: seq<real>, sqrt: real -> real)
    requires SquareRoot(sqrt) && vec[..] == Numbers(v)
    modifies vec
    ensures vec[..] == Components(Normal(v, sqrt), vec.Length)
    ensures DividedBy(vec[..], v, sqrt(Dot(v, v)))
  {
    var sum := 0.0;
    for i := 0 to vec.Length
      invariant sum == DotTo(v, v, i)
    {
      assert vec[..][i] == Number(v[i]);
      sum := sum + vec[i].value * vec[i].value;
    }
    NormZero(v, sqrt);
    var norm := sqrt(sum);
    if norm == 0.0 {
      LengthZero(v, |v|);
    }
    for i := 0 to vec.Length
      invariant forall j :: 0 <= j < i ==> vec[j] == Divide(v[j], norm)
      invariant forall j :: i <= j < vec.Length ==> vec[j] == Number(v[j])
    {
      vec[i] := Divide(vec[i].value, norm);
    }
    assert norm != 0.0 ==> vec[..] == Numbers(Scaled(v, norm));
    ghost var e := vec[..];
    hide *;
    AllDivided(e, v, norm);
  }

  /** What a document's embedding is meant to be. */
  function Embedded(hash: Hash, dim: nat, sqrt: real -> real, tokens: seq<Token>): Embedding
    requires dim > 0 && SquareRoot(sqrt)
  {
    Normal(Reals(Raw(hash, dim, tokens)), sqrt)
  }

  /** One more token, over the reals. */
  lemma RealStep(hash: Hash, dim: nat, tokens: seq<Token>, t: Token)
    requires dim > 0
    ensures var raw, h := Reals(Raw(hash, dim, tokens)), hash(t.term);
            Reals(Raw(hash, dim, tokens + [t]))
            == raw[h % dim := raw[h % dim] + if h % 2 == 1 then -1.0 else 1.0]
  {
    RawStep(hash, dim, tokens, t);
  }

  ghost predicate IsLength(n: real, v: seq<real>)
  {
    n >= 0.0 && n * n == Dot(v, v)
  }

  lemma LengthOf(v: seq<real>, sqrt: real -> real) returns (n: real)
    requires SquareRoot(sqrt)
    ensures n == sqrt(Dot(v, v)) && IsLength(n, v)
  {
    n := sqrt(Dot(v, v));
    NormZero(v, sqrt);
  }

  method Embed(hash: Hash, dim: nat, sqrt: real -> real, doc: TokenizedDoc)
    returns (r: EmbeddedDoc, ghost n: real)
    requires dim > 0 && SquareRoot(sqrt)
    ensures r == EmbeddedDoc(doc.id, Components(Embedded(hash, dim, sqrt, doc.tokens), dim))
    ensures var v := Reals(Raw(hash, dim, doc.tokens));
            IsLength(n, v) && DividedBy(r.embedding, v, n)
  {
    var vec := new Float[dim](_ => Number(0.0));
    n := LengthOf(Reals(Raw(hash, dim, doc.tokens)), sqrt);
    ghost var raw := Reals(Raw(hash, dim, []));
    assert vec[..] == Numbers(raw);
    assert Embedded(hash, dim, sqrt, doc.tokens) == Normal(Reals(Raw(hash, dim, doc.tokens)), sqrt);
    hide *;
    for k := 0 to |doc.tokens|
      invariant raw == Reals(Raw(hash, dim, doc.tokens[..k])) && vec[..] == Numbers(raw)
    {
      var tok := doc.tokens[k];
      var h := hash(tok.term);
      var idx := h % dim;
      var sign := 1.0;
      if h % 2 == 1 {
        sign := -1.0;
      }
      assert doc.tokens[..k + 1] == doc.tokens[..k] + [tok];
      RealStep(hash, dim, doc.tokens[..k], tok);
      NumbersUpdate(raw, idx, raw[idx] + sign);
      assert vec[..][idx] == Number(raw[idx]);
      vec[idx] := Number(vec[idx].value + sign);
      raw := raw[idx := raw[idx] + sign];
    }
    assert doc.tokens[..|doc.tokens|] == doc.tokens;
    Normalize(vec, raw, sqrt);
    r := EmbeddedDoc(doc.id, vec[..]);
  }

  // ---------- what embeddings are good for ----------

  /** Cosine similarity of two embeddings of unit length: 1 less the distance the index works with. */
  function Similarity(a: seq<real>, b: seq<real>): real
    requires |a| == |b|
  {
    Dot(a, b)
  }

  lemma ZeroReals(v: seq<int>)
    ensures Zero(v) <==> Dot(Reals(v), Reals(v)) == 0.0
  {
    LengthZero(Reals(v), |v|);
    if Dot(Reals(v), Reals(v)) == 0.0 {
      forall i | 0 <= i < |v| ensures v[i] == 0 {
        assert Reals(v)[i] == 0.0;
      }
    }
  }

  /** An embedding is a number exactly when the raw vector is not zero, and then it has length one. */
  lemma EmbeddingLength(hash: Hash, dim: nat, sqrt: real -> real, tokens: seq<Token>)
    requires dim > 0 && SquareRoot(sqrt)
    ensures var e := Embedded(hash, dim, sqrt, tokens);
            && (e.Unit? <==> !Zero(Raw(hash, dim, tokens)))
            && (e.Unit? ==> |e.v| == dim && Dot(e.v, e.v) == 1.0)
  {
    var v := Reals(Raw(hash, dim, tokens));
    ZeroReals(Raw(hash, dim, tokens));
    NormZero(v, sqrt);
    if Dot(v, v) != 0.0 {
      var n := sqrt(Dot(v, v));
      DotScaled(v, v, n, n);
      CancelFactor(Dot(Scaled(v, n), Scaled(v, n)), n * n, Dot(v, v));
    }
  }

  lemma EmbeddingMultiple(hash: Hash, dim: nat, sqrt: real -> real, tokens: seq<Token>) returns (n: real)
    requires dim > 0 && SquareRoot(sqrt) && !Zero(Raw(hash, dim, tokens))
    ensures var e, v := Embedded(hash, dim, sqrt, tokens), Reals(Raw(hash, dim, tokens));
            e.Unit? && |e.v| == dim && n > 0.0 && IsLength(n, v) && Multiple(e.v, n, v)
  {
    var v := Reals(Raw(hash, dim, tokens));
    ZeroReals(Raw(hash, dim, tokens));
    NormZero(v, sqrt);
    n := sqrt(Dot(v, v));
    assert Embedded(hash, dim, sqrt, tokens) == Unit(Scaled(v, n)) && IsLength(n, v) && |v| == dim;
    hide *;
    ScaledIsMultiple(v, n);
  }

  /** An embedding that is a number is the raw vector, every component divided by the raw vector's length. */
  lemma EmbeddingIsRaw(hash: Hash, dim: nat, sqrt: real -> real, tokens: seq<Token>) returns (n: real)
    requires dim > 0 && SquareRoot(sqrt) && !Zero(Raw(hash, dim, tokens))
    ensures var e, raw := Embedded(hash, dim, sqrt, tokens), Raw(hash, dim, tokens);
            && e.Unit? && |e.v| == dim && n > 0.0 && n * n == Dot(Reals(raw), Reals(raw))
            && forall i :: 0 <= i < dim ==> e.v[i] * n == raw[i] as real
  {
    n := EmbeddingMultiple(hash, dim, sqrt, tokens);
    hide Embedded, Raw, Dot, Zero;
  }

  /** x is the cosine of u and v: times their lengths m and n it is their dot product. */
  ghost predicate CosineOf(x: real, u: seq<real>, v: seq<real>, m: real, n: real)
  {
    && |u| == |v| && m > 0.0 && m * m == Dot(u, u) && n > 0.0 && n * n == Dot(v, v)
    && x * (m * n) == Dot(u, v)
  }

  /** Two embeddings' similarity is the cosine: times both lengths, the dot product of the raw vectors. */
  lemma SimilarityIsCosine(hash: Hash, dim: nat, sqrt: real -> real, s: seq<Token>, t: seq<Token>)
    returns (m: real, n: real)
    requires dim > 0 && SquareRoot(sqrt) && !Zero(Raw(hash, dim, s)) && !Zero(Raw(hash, dim, t))
    ensures var a, b := Embedded(hash, dim, sqrt, s), Embedded(hash, dim, sqrt, t);
            var u, v := Reals(Raw(hash, dim, s)), Reals(Raw(hash, dim, t));
            a.Unit? && b.Unit? && |a.v| == |b.v| && CosineOf(Similarity(a.v, b.v), u, v, m, n)
  {
    m := EmbeddingMultiple(hash, dim, sqrt, s);
    n := EmbeddingMultiple(hash, dim, sqrt, t);
    var a, b := Embedded(hash, dim, sqrt, s).v, Embedded(hash, dim, sqrt, t).v;
    var u, v := Reals(Raw(hash, dim, s)), Reals(Raw(hash, dim, t));
    hide *;
    SimilarityOfMultiples(a, m, u, b, n, v);
  }

  lemma SimilarityOfMultiples(a: seq<real>, m: real, u: seq<real>, b: seq<real>, n: real, v: seq<real>)
    requires |a| == |b| && |u| == |v| && Multiple(a, m, u) && Multiple(b, n, v)
    requires m > 0.0 && IsLength(m, u) && n > 0.0 && IsLength(n, v)
    ensures CosineOf(Similarity(a, b), u, v, m, n)
  {
    DotUnscaled(a, m, u, b, n, v);
    hide Dot, Multiple;
  }

  lemma CancelFactor(x: real, k: real, c: real)
    requires x * k == c && k == c && c != 0.0
    ensures x == 1.0
  {
    assert (x - 1.0) * c == 0.0;
  }

  /** In even dimension every document with a token gets a unit vector, and only those. */
  lemma EvenEmbedding(hash: Hash, dim: nat, sqrt: real -> real, tokens: seq<Token>)
    requires dim > 0 && dim % 2 == 0 && SquareRoot(sqrt)
    ensures Embedded(hash, dim, sqrt, tokens).Unit? <==> tokens != []
  {
    EmbeddingLength(hash, dim, sqrt, tokens);
    EvenL1(hash, dim, tokens);
    L1Zero(Raw(hash, dim, tokens));
  }

  /** Similarities lie in [-1, 1], and only equal embeddings have similarity 1. */
  lemma SimilarityBounds(hash: Hash, dim: nat, sqrt: real -> real, s: seq<Token>, t: seq<Token>)
    requires dim > 0 && SquareRoot(sqrt)
    requires Embedded(hash, dim, sqrt, s).Unit? && Embedded(hash, dim, sqrt, t).Unit?
    ensures var a, b := Embedded(hash, dim, sqrt, s).v, Embedded(hash, dim, sqrt, t).v;
            && |a| == |b| && -1.0 <= Similarity(a, b) <= 1.0
            && (Similarity(a, b) == 1.0 <==> a == b)
  {
    EmbeddingLength(hash, dim, sqrt, s);
    EmbeddingLength(hash, dim, sqrt, t);
    UnitProduct(Embedded(hash, dim, sqrt, s).v, Embedded(hash, dim, sqrt, t).v);
  }

  /** Documents with the same tokens in another order have the same embedding. */
  lemma EmbeddingPermutation(hash: Hash, dim: nat, sqrt: real -> real, s: seq<Token>, t: seq<Token>)
    requires dim > 0 && SquareRoot(sqrt) && multiset(s) == multiset(t)
    ensures Embedded(hash, dim, sqrt, s) == Embedded(hash, dim, sqrt, t)
  {
    RawPermutation(hash, dim, s, t);
  }

  /** In even dimension two raw vectors never disagree in sign. */
  lemma EvenAgree(hash: Hash, dim: nat, s: seq<Token>, t: seq<Token>, i: nat)
    requires dim > 0 && dim % 2 == 0 && i < dim
    ensures Raw(hash, dim, s)[i] * Raw(hash, dim, t)[i] >= 0
  {
    EvenBucket(hash, dim, s, i);
    EvenBucket(hash, dim, t, i);
  }

  /** So in even dimension no two documents are at an obtuse angle. */
  lemma EvenDot(hash: Hash, dim: nat, s: seq<Token>, t: seq<Token>)
    requires dim > 0 && dim % 2 == 0
    ensures Dot(Reals(Raw(hash, dim, s)), Reals(Raw(hash, dim, t))) >= 0.0
  {
    var u, v := Reals(Raw(hash, dim, s)), Reals(Raw(hash, dim, t));
    forall i | 0 <= i < dim ensures u[i] * v[i] >= 0.0 {
      EvenAgree(hash, dim, s, t, i);
      ProductOfReals(Raw(hash, dim, s)[i], Raw(hash, dim, t)[i]);
    }
    DotNonNegative(u, v, dim);
  }

  lemma ProductOfReals(x: int, y: int)
    ensures (x as real) * (y as real) == (x * y) as real
  {
  }

  lemma EvenSimilarity(hash: Hash, dim: nat, sqrt: real -> real, s: seq<Token>, t: seq<Token>)
    requires dim > 0 && dim % 2 == 0 && SquareRoot(sqrt) && s != [] && t != []
    ensures var a, b := Embedded(hash, dim, sqrt, s), Embedded(hash, dim, sqrt, t);
            a.Unit? && b.Unit? && |a.v| == |b.v| && 0.0 <= Similarity(a.v, b.v) <= 1.0
  {
    EvenEmbedding(hash, dim, sqrt, s);
    EvenEmbedding(hash, dim, sqrt, t);
    SimilarityBounds(hash, dim, sqrt, s, t);
    EvenDot(hash, dim, s, t);
    var u, v := Reals(Raw(hash, dim, s)), Reals(Raw(hash, dim, t));
    NormZero(u, sqrt);
    NormZero(v, sqrt);
    var c, d := sqrt(Dot(u, u)), sqrt(Dot(v, v));
    DotScaled(u, v, c, d);
    SignOfProduct(Dot(Scaled(u, c), Scaled(v, d)), PositiveProduct(c, d));
  }

  lemma SignOfProduct(x: real, c: real)
    requires x * c >= 0.0 && c > 0.0
    ensures x >= 0.0
  {
  }
}
