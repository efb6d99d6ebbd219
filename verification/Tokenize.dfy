/**
 Tokenize: lower-case the text, split it on non-letters. Texts are Go strings, so any bytes at all.
 unicode.ToLower and unicode.IsLetter are parameters; all that is asked of the first is that it maps
 scalar values to scalar values.
 */
module Tokenize {
  import opened Utf8
  import opened Wrappers
  import Fields

  datatype Document = Document(id: string, text: seq<Byte>)

  datatype Token = Token(term: seq<Byte>)

  datatype TokenizedDoc = TokenizedDoc(id: string, tokens: seq<Token>)

  ghost predicate CaseMap(lower: Rune -> Rune)
  {
    forall r :: Scalar(r) ==> Scalar(lower(r))
  }

  ghost predicate AllScalar(rs: seq<Rune>)
  {
    forall r :: r in rs ==> Scalar(r)
  }

  // ---------- lower case ----------

  function Map(f: Rune -> Rune, rs: seq<Rune>): (r: seq<Rune>)
    ensures |r| == |rs| && forall i :: 0 <= i < |rs| ==> r[i] == f(rs[i])
  {
    seq(|rs|, i requires 0 <= i < |rs| => f(rs[i]))
  }

  /** Whatever the bytes, only scalar values are decoded. */
  lemma {:induction false} RunesScalar(p: seq<Byte>)
    ensures AllScalar(Runes(p))
    decreases |p|
  {
    if p == [] {
    } else {
      var (r, n) := Decode(p);
      if p[0] < 0x80 || n > 1 { DecodeSound(p); }
      assert Scalar(r);
      RunesScalar(p[n..]);
    }
  }

  lemma MapScalar(lower: Rune -> Rune, rs: seq<Rune>)
    requires CaseMap(lower) && AllScalar(rs)
    ensures AllScalar(Map(lower, rs))
  {
    forall r | r in Map(lower, rs) ensures Scalar(r) {
      var i :| 0 <= i < |rs| && r == lower(rs[i]);
      assert rs[i] in rs && Scalar(rs[i]);
    }
  }

  /** The runes of the lower-cased text. */
  function Lowered(lower: Rune -> Rune, text: seq<Byte>): (rs: seq<Rune>)
    requires CaseMap(lower)
    ensures AllScalar(rs)
  {
    RunesScalar(text);
    MapScalar(lower, Runes(text));
    Map(lower, Runes(text))
  }

  /** strings.ToLower: every rune replaced, a malformed byte by the encoding of RuneError. */
  function ToLower(lower: Rune -> Rune, text: seq<Byte>): seq<Byte>
    requires CaseMap(lower)
  {
    EncodeAll(Lowered(lower, text))
  }

  // ---------- splitting ----------

  /** Bytes taken by the first i runes of p. */
  function Offset(p: seq<Byte>, i: nat): (k: nat)
    requires i <= |Runes(p)|
    ensures k <= |p|
  {
    if i == 0 then 0 else Decode(p).1 + Offset(p[Decode(p).1..], i - 1)
  }

  lemma {:induction false} OffsetMonotone(p: seq<Byte>, i: nat, j: nat)
    requires i <= j <= |Runes(p)|
    ensures Offset(p, i) <= Offset(p, j)
    decreases |p|
  {
    if i == 0 {
    } else {
      OffsetMonotone(p[Decode(p).1..], i - 1, j - 1);
    }
  }

  /** The bytes of runes a to b - 1. */
  function Slice(p: seq<Byte>, a: nat, b: nat): seq<Byte>
    requires a <= b <= |Runes(p)|
  {
    OffsetMonotone(p, a, b);
    p[Offset(p, a)..Offset(p, b)]
  }

  /** strings.FieldsFunc, for the complement of its argument: slices of p, one for each maximal run. */
  function FieldsFunc(p: seq<Byte>, keep: Rune -> bool): (r: seq<seq<Byte>>)
    ensures |r| == |Fields.Spans(Runes(p), keep, 0)|
  {
    var spans := Fields.Spans(Runes(p), keep, 0);
    seq(|spans|, i requires 0 <= i < |spans| => Slice(p, spans[i].0, spans[i].1))
  }

  lemma {:induction false} EncodeAppend(a: seq<Rune>, b: seq<Rune>)
    requires AllScalar(a) && AllScalar(b)
    ensures EncodeAll(a + b) == EncodeAll(a) + EncodeAll(b)
    decreases |a|
  {
    if a == [] {
      assert a + b == b;
    } else {
      assert (a + b)[1..] == a[1..] + b;
      EncodeAppend(a[1..], b);
    }
  }

  lemma {:induction false} OffsetEncoded(rs: seq<Rune>, i: nat)
    requires AllScalar(rs) && i <= |rs|
    ensures |Runes(EncodeAll(rs))| == |rs|
    ensures Offset(EncodeAll(rs), i) == |EncodeAll(rs[..i])|
    decreases i
  {
    RunesEncodeAll(rs);
    hide Runes, Decode, Encode;
    if i == 0 {
    } else {
      var e, rest := Encode(rs[0]), EncodeAll(rs[1..]);
      DecodeEncode(rs[0], rest);
      assert (e + rest)[|e|..] == rest;
      OffsetEncoded(rs[1..], i - 1);
      assert rs[..i][1..] == rs[1..][..i - 1];
    }
  }

  /** Slicing encoded text between runes gives the encoding of the runes in between. */
  lemma SliceEncoded(rs: seq<Rune>, a: nat, b: nat)
    requires AllScalar(rs) && a <= b <= |rs|
    ensures |Runes(EncodeAll(rs))| == |rs|
    ensures AllScalar(rs[a..b]) && Slice(EncodeAll(rs), a, b) == EncodeAll(rs[a..b])
  {
    OffsetEncoded(rs, a);
    OffsetEncoded(rs, b);
    assert rs == rs[..b] + rs[b..] && rs[..b] == rs[..a] + rs[a..b];
    EncodeAppend(rs[..b], rs[b..]);
    EncodeAppend(rs[..a], rs[a..b]);
  }

  // ---------- the tokens ----------

  ghost predicate AllScalarIn(fields: seq<seq<Rune>>)
  {
    forall i :: 0 <= i < |fields| ==> AllScalar(fields[i])
  }

  function Encoded(fields: seq<seq<Rune>>): (r: seq<Token>)
    requires AllScalarIn(fields)
    ensures |r| == |fields| && forall i :: 0 <= i < |r| ==> r[i] == Token(EncodeAll(fields[i]))
  {
    seq(|fields|, i requires 0 <= i < |fields| => Token(EncodeAll(fields[i])))
  }

  lemma FieldsScalar(rs: seq<Rune>, keep: Rune -> bool)
    requires AllScalar(rs)
    ensures AllScalarIn(Fields.Fields(rs, keep))
  {
    Fields.FieldsAreTheMaximalRuns(rs, keep);
  }

  /** What a text's tokens are meant to be: its lower-cased letter runs, each encoded. */
  function Tokens(lower: Rune -> Rune, letter: Rune -> bool, text: seq<Byte>): seq<Token>
    requires CaseMap(lower)
  {
    FieldsScalar(Lowered(lower, text), letter);
    Encoded(Fields.Fields(Lowered(lower, text), letter))
  }

  method Tokenize(lower: Rune -> Rune, letter: Rune -> bool, doc: Document) returns (r: Result<TokenizedDoc, string>)
    requires CaseMap(lower)
    ensures r == Ok(TokenizedDoc(doc.id, Tokens(lower, letter, doc.text)))
  {
    if doc.text == [] {
      EmptyTokens(lower, letter);
      return Ok(TokenizedDoc(doc.id, []));
    }
    var text := ToLower(lower, doc.text);
    var fields := FieldsFunc(text, letter);
    FieldsFuncOfText(lower, letter, doc.text);
    hide *;
    ghost var want := Tokens(lower, letter, doc.text);
    var tokens: seq<Token> := [];
    var i := 0;
    while i < |fields|
      invariant 0 <= i <= |fields|
      invariant tokens == want[..i]
    {
      if |fields[i]| != 0 {
        tokens := tokens + [Token(fields[i])];
        FirstTokens(want, i);
      }
      i := i + 1;
    }
    FirstTokens(want, 0);
    return Ok(TokenizedDoc(doc.id, tokens));
  }

  lemma FirstTokens(want: seq<Token>, i: nat)
    ensures want[..|want|] == want
    ensures i < |want| ==> want[..i + 1] == want[..i] + [want[i]]
  {
  }

  /** The fields cut out of the lower-cased text are the tokens' terms; none is empty. */
  lemma FieldsFuncOfText(lower: Rune -> Rune, letter: Rune -> bool, text: seq<Byte>)
    requires CaseMap(lower)
    ensures var fields, want := FieldsFunc(ToLower(lower, text), letter), Tokens(lower, letter, text);
            |fields| == |want| && forall i :: 0 <= i < |want| ==> want[i] == Token(fields[i]) && fields[i] != []
  {
    var rs := Lowered(lower, text);
    RunesEncodeAll(rs);
    Fields.FieldsAreTheMaximalRuns(rs, letter);
    var spans, want := Fields.Spans(rs, letter, 0), Tokens(lower, letter, text);
    forall i | 0 <= i < |want|
      ensures want[i] == Token(FieldsFunc(ToLower(lower, text), letter)[i]) && want[i].term != []
    {
      SliceEncoded(rs, spans[i].0, spans[i].1);
    }
  }

  /** The tokens are the encodings of the maximal letter runs of the lower-cased text, each once, in order. */
  lemma TokensAreTheLetterRuns(lower: Rune -> Rune, letter: Rune -> bool, text: seq<Byte>)
    requires CaseMap(lower)
    ensures var rs, tokens := Lowered(lower, text), Tokens(lower, letter, text);
            var spans := Fields.Spans(rs, letter, 0);
            && |rs| == |Runes(text)| && (forall i :: 0 <= i < |rs| ==> rs[i] == lower(Runes(text)[i]))
            && |tokens| == |spans| && Fields.Apart(spans)
            && (forall i :: 0 <= i < |spans| ==>
                  AllScalar(rs[spans[i].0..spans[i].1])
                  && tokens[i] == Token(EncodeAll(rs[spans[i].0..spans[i].1])))
            && (forall a: nat, b: nat :: (a, b) in spans <==> Fields.MaximalRun(rs, letter, a, b))
  {
    Fields.FieldsAreTheMaximalRuns(Lowered(lower, text), letter);
  }

  /** Cutting before an encoded scalar, and after it, neither cuts nor merges a rune. */
  lemma RunesJoin(a: seq<Byte>, sep: Rune, b: seq<Byte>)
    requires Scalar(sep)
    ensures Runes(a + Encode(sep) + b) == Runes(a) + [sep] + Runes(b)
  {
    var e := Encode(sep);
    assert a + e + b == a + (e + b);
    RunesSplit(a, e + b);
    DecodeEncode(sep, b);
    assert (e + b)[|e|..] == b;
  }

  lemma EncodedAppend(f: seq<seq<Rune>>, g: seq<seq<Rune>>)
    requires AllScalarIn(f) && AllScalarIn(g)
    ensures AllScalarIn(f + g) && Encoded(f + g) == Encoded(f) + Encoded(g)
  {
    hide EncodeAll, AllScalar;
  }

  /** Joining two texts, well-formed or not, by any scalar that is no letter concatenates their tokens. */
  lemma TokensJoin(lower: Rune -> Rune, letter: Rune -> bool, a: seq<Byte>, sep: Rune, b: seq<Byte>)
    requires CaseMap(lower) && Scalar(sep) && !letter(lower(sep))
    ensures Tokens(lower, letter, a + Encode(sep) + b) == Tokens(lower, letter, a) + Tokens(lower, letter, b)
  {
    RunesJoin(a, sep, b);
    hide Runes, Encode, CaseMap;
    TokensOfRunes(lower, letter, a + Encode(sep) + b, a, sep, b);
  }

  lemma LoweredOfRunes(lower: Rune -> Rune, text: seq<Byte>, a: seq<Byte>, sep: Rune, b: seq<Byte>)
    requires CaseMap(lower) && Runes(text) == Runes(a) + [sep] + Runes(b)
    ensures Lowered(lower, text) == Lowered(lower, a) + [lower(sep)] + Lowered(lower, b)
  {
    hide Runes, CaseMap;
    MapJoin(lower, Runes(a), sep, Runes(b));
    hide Map;
  }

  lemma MapJoin(f: Rune -> Rune, a: seq<Rune>, sep: Rune, b: seq<Rune>)
    ensures Map(f, a + [sep] + b) == Map(f, a) + [f(sep)] + Map(f, b)
  {
  }

  lemma TokensOfRunes(lower: Rune -> Rune, letter: Rune -> bool, text: seq<Byte>, a: seq<Byte>, sep: Rune, b: seq<Byte>)
    requires CaseMap(lower) && !letter(lower(sep)) && Runes(text) == Runes(a) + [sep] + Runes(b)
    ensures Tokens(lower, letter, text) == Tokens(lower, letter, a) + Tokens(lower, letter, b)
  {
    var ra, rb := Lowered(lower, a), Lowered(lower, b);
    LoweredOfRunes(lower, text, a, sep, b);
    hide Lowered, Encoded, Fields.Fields, CaseMap, Runes;
    Fields.FieldsJoin(ra, lower(sep), rb, letter);
    FieldsScalar(ra, letter);
    FieldsScalar(rb, letter);
    EncodedAppend(Fields.Fields(ra, letter), Fields.Fields(rb, letter));
  }

  /** So does a byte at which nothing can be decoded, if U+FFFD in lower case is no letter. */
  lemma TokensAroundMalformed(lower: Rune -> Rune, letter: Rune -> bool, a: seq<Byte>, x: Byte, b: seq<Byte>)
    requires CaseMap(lower) && !letter(lower(0xFFFD))
    requires x >= 0x80 && !Straddled(a, [x] + b)
    requires forall r :: Scalar(r) ==> !(Encode(r) <= [x] + b)
    ensures Tokens(lower, letter, a + [x] + b) == Tokens(lower, letter, a) + Tokens(lower, letter, b)
  {
    RunesAroundMalformed(a, x, b);
    hide Runes, Encode, CaseMap, Straddled;
    TokensOfRunes(lower, letter, a + [x] + b, a, 0xFFFD, b);
  }

  // ---------- the way back ----------

  /** Something Tokenize may return as a term: letters only, and already in lower case. */
  ghost predicate Word(lower: Rune -> Rune, letter: Rune -> bool, w: seq<Rune>)
  {
    w != [] && forall r :: r in w ==> Scalar(r) && letter(r) && lower(r) == r
  }

  ghost function Joined(words: seq<seq<Rune>>, sep: Rune): seq<Byte>
    requires AllScalarIn(words) && Scalar(sep)
  {
    if words == [] then []
    else EncodeAll(words[0]) + Encode(sep) + Joined(words[1..], sep)
  }

  lemma EmptyTokens(lower: Rune -> Rune, letter: Rune -> bool)
    requires CaseMap(lower)
    ensures Tokens(lower, letter, []) == []
  {
    assert Lowered(lower, []) == [];
  }

  lemma OneField(letter: Rune -> bool, w: seq<Rune>)
    requires w != [] && forall i :: 0 <= i < |w| ==> letter(w[i])
    ensures Fields.Fields(w, letter) == [w]
  {
    var e := Fields.RunEnd(w, letter, 1);
    assert w[0..|w|] == w;
    assert e == |w| && Fields.Spans(w, letter, e) == [];
    assert Fields.Spans(w, letter, 0) == [(0, e)] + Fields.Spans(w, letter, e);
  }

  lemma OneWord(lower: Rune -> Rune, letter: Rune -> bool, w: seq<Rune>)
    requires CaseMap(lower) && Word(lower, letter, w)
    ensures Tokens(lower, letter, EncodeAll(w)) == [Token(EncodeAll(w))]
  {
    RunesEncodeAll(w);
    hide Runes, EncodeAll, CaseMap;
    assert Lowered(lower, EncodeAll(w)) == w by {
      assert forall i :: 0 <= i < |w| ==> w[i] in w && lower(w[i]) == w[i];
    }
    OneField(letter, w);
    hide Fields.Fields;
  }

  /** Every list of lower-case words is what Tokenize makes of them written out with separators. */
  lemma {:induction false} TokensOfJoined(lower: Rune -> Rune, letter: Rune -> bool, words: seq<seq<Rune>>, sep: Rune)
    requires CaseMap(lower) && Scalar(sep) && !letter(lower(sep))
    requires forall i :: 0 <= i < |words| ==> Word(lower, letter, words[i])
    ensures AllScalarIn(words)
    ensures Tokens(lower, letter, Joined(words, sep)) == Encoded(words)
    decreases |words|
  {
    hide Tokens, EncodeAll, CaseMap;
    if words == [] {
      EmptyTokens(lower, letter);
    } else {
      TokensOfJoined(lower, letter, words[1..], sep);
      OneWord(lower, letter, words[0]);
      TokensJoin(lower, letter, EncodeAll(words[0]), sep, Joined(words[1..], sep));
    }
  }
}
