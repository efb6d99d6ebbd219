/**
 UTF-8 as Go's utf8.DecodeRune reads it (the table of valid sequences is section 4 of RFC 3629): a
 sequence that is truncated or malformed consumes one byte and yields RuneError.
 */
module Utf8 {

  type Byte = b: int | 0 <= b < 256

  type Rune = int

  const RUNE_ERROR := 0xFFFD

  // ---------- decoding ----------

  /** Length announced by a first byte, 0 for one that starts nothing. */
  function Announced(p0: Byte): nat
  {
    if p0 < 0x80 then 1
    else if 0xC2 <= p0 <= 0xDF then 2
    else if 0xE0 <= p0 <= 0xEF then 3
    else if 0xF0 <= p0 <= 0xF4 then 4
    else 0
  }

  predicate Continuation(b: Byte)
  {
    0x80 <= b <= 0xBF
  }

  /** The second byte is further restricted: no overlong forms, no surrogates, nothing above 0x10FFFF. */
  predicate SecondOk(p0: Byte, b1: Byte)
  {
    && (if p0 == 0xE0 then 0xA0 else if p0 == 0xF0 then 0x90 else 0x80) <= b1
    && b1 <= (if p0 == 0xED then 0x9F else if p0 == 0xF4 then 0x8F else 0xBF)
  }

  /** The payload of a byte whose marker bits amount to `marker`. */
  function Payload(b: Byte, marker: int): int
  {
    (b as int) - marker
  }

  /** Six more bits, from a continuation byte. */
  function Shift(high: int, b: Byte): int
  {
    high * 0x40 + Payload(b, 0x80)
  }

  /** The rune at the front of p and the number of bytes it takes. */
  function Decode(p: seq<Byte>): (r: (Rune, nat))
    requires p != []
    ensures 1 <= r.1 <= |p| && r.1 <= 4
  {
    var p0 := p[0];
    var n := Announced(p0);
    if n == 1 then (p0, 1)
    else if n == 0 || |p| < n then (RUNE_ERROR, 1)
    else if !SecondOk(p0, p[1]) then (RUNE_ERROR, 1)
    else if n == 2 then (Shift(Payload(p0, 0xC0), p[1]), 2)
    else if !Continuation(p[2]) then (RUNE_ERROR, 1)
    else if n == 3 then (Shift(Shift(Payload(p0, 0xE0), p[1]), p[2]), 3)
    else if !Continuation(p[3]) then (RUNE_ERROR, 1)
    else (Shift(Shift(Shift(Payload(p0, 0xF0), p[1]), p[2]), p[3]), 4)
  }

  /** All of p, decoded. */
  function Runes(p: seq<Byte>): seq<Rune>
    decreases |p|
  {
    if p == [] then [] else [Decode(p).0] + Runes(p[Decode(p).1..])
  }

  // ---------- encoding ----------

  /** Unicode scalar values: what UTF-8 encodes. */
  predicate Scalar(r: Rune)
  {
    0 <= r <= 0x10FFFF && !(0xD800 <= r <= 0xDFFF)
  }

  function Encode(r: Rune): (p: seq<Byte>)
    requires Scalar(r)
    ensures 1 <= |p| <= 4
  {
    var q1 := r / 0x40;
    var q2 := q1 / 0x40;
    var q3 := q2 / 0x40;
    if r < 0x80 then [r]
    else if r < 0x800 then [0xC0 + q1, Tail(r)]
    else if r < 0x10000 then [0xE0 + q2, Tail(q1), Tail(r)]
    else [0xF0 + q3, Tail(q2), Tail(q1), Tail(r)]
  }

  /** A continuation byte with the low six bits of r. */
  function Tail(r: nat): Byte
  {
    0x80 + r % 0x40
  }

  function EncodeAll(rs: seq<Rune>): seq<Byte>
    requires forall r :: r in rs ==> Scalar(r)
  {
    if rs == [] then [] else Encode(rs[0]) + EncodeAll(rs[1..])
  }

  lemma ShiftTail(r: nat)
    ensures Shift(r / 0x40, Tail(r)) == r
    ensures Continuation(Tail(r))
  {
  }

  lemma ShiftParts(high: nat, b: Byte)
    requires Continuation(b)
    ensures Shift(high, b) / 0x40 == high && Tail(Shift(high, b)) == b
    ensures 0x40 * high <= Shift(high, b) < 0x40 * high + 0x40
  {
  }

  lemma DecodeShort(r: Rune, p: seq<Byte>)
    requires Scalar(r) && r < 0x800 && Encode(r) <= p
    ensures Decode(p) == (r, |Encode(r)|)
  {
    ShiftTail(r);
    hide Shift;
    assert p[0] == Encode(r)[0];
    if r >= 0x80 { assert p[1] == Encode(r)[1]; }
  }

  lemma DecodeThree(r: Rune, p: seq<Byte>)
    requires Scalar(r) && 0x800 <= r < 0x10000 && Encode(r) <= p
    ensures Decode(p) == (r, |Encode(r)|)
  {
    var q1 := r / 0x40;
    ShiftTail(r);
    ShiftTail(q1);
    hide Shift;
    assert p[0] == 0xE0 + q1 / 0x40 && p[1] == Tail(q1) && p[2] == Tail(r);
    assert SecondOk(p[0], p[1]);
  }

  lemma DecodeFour(r: Rune, p: seq<Byte>)
    requires Scalar(r) && 0x10000 <= r && Encode(r) <= p
    ensures Decode(p) == (r, |Encode(r)|)
  {
    var q1 := r / 0x40;
    var q2 := q1 / 0x40;
    ShiftTail(r);
    ShiftTail(q1);
    ShiftTail(q2);
    hide Shift;
    assert p[0] == 0xF0 + q2 / 0x40 && p[1] == Tail(q2) && p[2] == Tail(q1) && p[3] == Tail(r);
    assert SecondOk(p[0], p[1]);
  }

  /** Decoding an encoded scalar gives it back, whatever follows. */
  lemma DecodeEncode(r: Rune, rest: seq<Byte>)
    requires Scalar(r)
    ensures Decode(Encode(r) + rest) == (r, |Encode(r)|)
  {
    var p := Encode(r) + rest;
    assert Encode(r) <= p;
    hide Encode, Decode;
    if r < 0x800 {
      DecodeShort(r, p);
    } else if r < 0x10000 {
      DecodeThree(r, p);
    } else {
      DecodeFour(r, p);
    }
  }

  lemma {:induction false} RunesEncodeAll(rs: seq<Rune>)
    requires forall r :: r in rs ==> Scalar(r)
    ensures Runes(EncodeAll(rs)) == rs
    decreases |rs|
  {
    if rs == [] {
    } else {
      var e, rest := Encode(rs[0]), EncodeAll(rs[1..]);
      DecodeEncode(rs[0], rest);
      assert (e + rest)[|e|..] == rest;
      RunesEncodeAll(rs[1..]);
    }
  }

  /** Conversely, whatever is not reported as malformed is the encoding of a scalar. */
  lemma DecodeSound(p: seq<Byte>)
    requires p != [] && (p[0] < 0x80 || Decode(p).1 > 1)
    ensures Scalar(Decode(p).0) && Encode(Decode(p).0) == p[..Decode(p).1]
  {
    var n := Decode(p).1;
    if n == 2 {
      ShiftParts(Payload(p[0], 0xC0), p[1]);
    } else if n == 3 {
      SoundThree(p);
    } else if n == 4 {
      SoundFour(p);
    }
  }

  lemma SoundThree(p: seq<Byte>)
    requires p != [] && Decode(p).1 == 3
    ensures Scalar(Decode(p).0) && Encode(Decode(p).0) == p[..3]
  {
    var q2 := Payload(p[0], 0xE0);
    var q1 := Shift(q2, p[1]);
    assert Continuation(p[1]) && Continuation(p[2]) && Decode(p).0 == Shift(q1, p[2]);
    assert 0 <= q2 && 0x20 <= q1 < 0x400 && !(0x360 <= q1 < 0x380);
    assert p[..3] == [0xE0 + q2, p[1], p[2]];
    hide *;
    ShiftParts(q2, p[1]);
    ShiftParts(q1, p[2]);
    EncodeThree(Shift(q1, p[2]), q1, q2);
  }

  lemma EncodeThree(r: Rune, q1: nat, q2: nat)
    requires 0x800 <= r < 0x10000 && !(0xD800 <= r <= 0xDFFF) && r / 0x40 == q1 && q1 / 0x40 == q2
    ensures Scalar(r) && 0xE0 + q2 < 0x100 && Encode(r) == [0xE0 + q2, Tail(q1), Tail(r)]
  {
  }

  lemma SoundFour(p: seq<Byte>)
    requires p != [] && Decode(p).1 == 4
    ensures Scalar(Decode(p).0) && Encode(Decode(p).0) == p[..4]
  {
    var q3 := Payload(p[0], 0xF0);
    var q2 := Shift(q3, p[1]);
    var q1 := Shift(q2, p[2]);
    assert Continuation(p[1]) && Continuation(p[2]) && Continuation(p[3]) && Decode(p).0 == Shift(q1, p[3]);
    assert 0 <= q3 && 0x10 <= q2 < 0x110;
    assert p[..4] == [0xF0 + q3, p[1], p[2], p[3]];
    hide *;
    ShiftParts(q3, p[1]);
    ShiftParts(q2, p[2]);
    ShiftParts(q1, p[3]);
    EncodeFour(Shift(q1, p[3]), q1, q2, q3);
  }

  lemma EncodeFour(r: Rune, q1: nat, q2: nat, q3: nat)
    requires 0x10000 <= r < 0x110000 && r / 0x40 == q1 && q1 / 0x40 == q2 && q2 / 0x40 == q3
    ensures Scalar(r) && 0xF0 + q3 < 0x100 && Encode(r) == [0xF0 + q3, Tail(q2), Tail(q1), Tail(r)]
  {
  }

  /** A byte that is not ASCII is consumed alone, as U+FFFD, exactly when no encoded scalar starts there. */
  lemma MalformedIff(p: seq<Byte>)
    requires p != [] && p[0] >= 0x80
    ensures Decode(p) == (0xFFFD, 1) <==> forall r :: Scalar(r) ==> !(Encode(r) <= p)
    ensures Decode(p).1 == 1 ==> Decode(p).0 == 0xFFFD
  {
    var (q, n) := Decode(p);
    if n > 1 {
      DecodeSound(p);
      assert Scalar(q) && Encode(q) <= p;
    } else {
      forall r | Scalar(r) ensures !(Encode(r) <= p) {
        if Encode(r) <= p {
          assert p == Encode(r) + p[|Encode(r)|..];
          DecodeEncode(r, p[|Encode(r)|..]);
        }
      }
    }
  }

  /** Section 7 of RFC 3629 encodes U+2262, U+65E5 and U+233B4 so. */
  lemma WellFormedExamples()
    ensures Encode(0x41) == [0x41] && Encode(0x391) == [0xCE, 0x91] && Encode(0x2262) == [0xE2, 0x89, 0xA2]
    ensures Encode(0x65E5) == [0xE6, 0x97, 0xA5] && Encode(0x233B4) == [0xF0, 0xA3, 0x8E, 0xB4]
  {
  }

  /** Overlong forms, surrogates, values above U+10FFFF and stray or missing continuations are malformed. */
  lemma MalformedExamples()
    ensures Decode([0xC0, 0x80]) == Decode([0xE0, 0x80, 0x80]) == Decode([0xF0, 0x80, 0x80, 0x80]) == (0xFFFD, 1)
    ensures Decode([0xED, 0xA0, 0x80]) == Decode([0xF4, 0x90, 0x80, 0x80]) == Decode([0xF5]) == (0xFFFD, 1)
    ensures Decode([0x94, 0x62]) == Decode([0xE2, 0x89]) == Decode([0xE2, 0x89, 0x41]) == (0xFFFD, 1)
  {
  }

  // ---------- splitting ----------

  /** The encoding of some scalar begins within a and ends within b. */
  ghost predicate Straddled(a: seq<Byte>, b: seq<Byte>)
  {
    exists k, r :: 0 <= k < |a| && Scalar(r) && |Encode(r)| > |a| - k && Encode(r) <= a[k..] + b
  }

  lemma DecodeWithin(a: seq<Byte>, b: seq<Byte>)
    requires a != [] && !Straddled(a, b) && Decode(a + b).1 > 1
    ensures Decode(a + b) == Decode(a)
  {
    DecodeSound(a + b);
    var q := Decode(a + b).0;
    var e, rest := Encode(q), (a + b)[|Encode(q)|..];
    assert e <= a + b && a + b == e + rest;
    hide *;
    NotCut(a, b, q);
    PrefixOf(e, a, b);
    DecodeEncode(q, a[|e|..]);
    DecodeEncode(q, rest);
  }

  lemma NotCut(a: seq<Byte>, b: seq<Byte>, r: Rune)
    requires a != [] && !Straddled(a, b) && Scalar(r) && Encode(r) <= a + b
    ensures |Encode(r)| <= |a|
  {
    assert a[0..] == a;
    hide Encode;
  }

  lemma PrefixOf(e: seq<Byte>, a: seq<Byte>, b: seq<Byte>)
    requires e <= a + b && |e| <= |a|
    ensures a == e + a[|e|..]
  {
  }

  lemma DecodeFurther(a: seq<Byte>, b: seq<Byte>)
    requires a != [] && Decode(a).1 > 1
    ensures Decode(a + b) == Decode(a)
  {
    DecodeSound(a);
    var (r, m) := Decode(a);
    var e, rest := Encode(r), a[m..];
    assert a == e + rest;
    hide *;
    EndsOf(e, rest, b);
    DecodeEncode(r, rest);
    DecodeEncode(r, rest + b);
  }

  lemma EndsOf(e: seq<Byte>, rest: seq<Byte>, b: seq<Byte>)
    ensures e + rest + b == e + (rest + b)
  {
  }

  lemma DecodeUnstraddled(a: seq<Byte>, b: seq<Byte>)
    requires a != [] && !Straddled(a, b)
    ensures Decode(a + b) == Decode(a)
  {
    if Decode(a + b).1 > 1 { DecodeWithin(a, b); }
    if Decode(a).1 > 1 { DecodeFurther(a, b); }
    if a[0] >= 0x80 {
      MalformedIff(a);
      MalformedIff(a + b);
    }
    hide Straddled, Encode;
  }

  /** If no scalar is cut, the two sides decode separately, however malformed they are. */
  lemma {:induction false} RunesUnstraddled(a: seq<Byte>, b: seq<Byte>)
    requires !Straddled(a, b)
    ensures Runes(a + b) == Runes(a) + Runes(b)
    decreases |a|
  {
    if a == [] {
      assert a + b == b;
    } else {
      hide *;
      var n := Decode(a).1;
      DecodeUnstraddled(a, b);
      RunesFirst(a);
      RunesFirst(a + b);
      DropFront(a, n, b);
      if Straddled(a[n..], b) { StraddledLater(a, n, b); }
      RunesUnstraddled(a[n..], b);
      FrontOfBoth(Decode(a).0, Runes(a[n..]), Runes(b));
    }
  }

  lemma RunesFirst(p: seq<Byte>)
    requires p != []
    ensures Runes(p) == [Decode(p).0] + Runes(p[Decode(p).1..])
  {
    hide Decode;
  }

  lemma DropFront(a: seq<Byte>, n: nat, b: seq<Byte>)
    requires n <= |a|
    ensures (a + b)[n..] == a[n..] + b
  {
  }

  lemma FrontOfBoth(r: Rune, a: seq<Rune>, b: seq<Rune>)
    ensures [r] + (a + b) == [r] + a + b
  {
  }

  lemma StraddledLater(a: seq<Byte>, n: nat, b: seq<Byte>)
    requires n <= |a| && Straddled(a[n..], b)
    ensures Straddled(a, b)
  {
    var later := a[n..];
    var k, r :| 0 <= k < |later| && Scalar(r) && |Encode(r)| > |later| - k && Encode(r) <= later[k..] + b;
    assert later[k..] == a[n + k..];
  }

  /** A byte at which nothing can be decoded counts as U+FFFD, and separates what is around it. */
  lemma RunesAroundMalformed(a: seq<Byte>, x: Byte, b: seq<Byte>)
    requires x >= 0x80 && !Straddled(a, [x] + b)
    requires forall r :: Scalar(r) ==> !(Encode(r) <= [x] + b)
    ensures Runes(a + [x] + b) == Runes(a) + [0xFFFD] + Runes(b)
  {
    var p := [x] + b;
    MalformedIff(p);
    assert p[1..] == b && a + [x] + b == a + p;
    RunesUnstraddled(a, p);
    hide Decode, Encode;
    assert Runes(p) == [0xFFFD] + Runes(b);
  }

  /** b can be cut off what precedes it: it is empty, or starts with a byte that continues nothing. */
  predicate Boundary(b: seq<Byte>)
  {
    b != [] ==> !Continuation(b[0])
  }

  /** What follows a boundary has no effect on decoding what precedes it. */
  lemma DecodeStopsAtBoundary(a: seq<Byte>, b: seq<Byte>)
    requires a != [] && Boundary(b)
    ensures Decode(a + b) == Decode(a)
  {
    var p := a + b;
    assert forall i :: 0 <= i < |a| ==> p[i] == a[i];
    if b != [] && |a| < Announced(a[0]) {
      assert p[|a|] == b[0];
    }
  }

  /** Cutting any byte string, well-formed or not, at a boundary neither cuts nor merges a rune. */
  lemma {:induction false} RunesSplit(a: seq<Byte>, b: seq<Byte>)
    requires Boundary(b)
    ensures Runes(a + b) == Runes(a) + Runes(b)
    decreases |a|
  {
    if a == [] {
      assert a + b == b;
    } else {
      var n := Decode(a).1;
      DecodeStopsAtBoundary(a, b);
      assert (a + b)[n..] == a[n..] + b;
      RunesSplit(a[n..], b);
      assert Runes(a + b) == [Decode(a).0] + (Runes(a[n..]) + Runes(b));
    }
  }

  /** ASCII bytes are their own runes, and decode to nothing else. */
  lemma RunesAscii(b: Byte, rest: seq<Byte>)
    requires b < 0x80
    ensures Runes([b] + rest) == [b] + Runes(rest)
  {
    assert ([b] + rest)[1..] == rest;
  }

  /**
   What one decoding step consumes: an ASCII byte as itself, or only bytes that are not ASCII, as a
   rune that is not ASCII either.
   */
  lemma DecodeKind(p: seq<Byte>)
    requires p != []
    ensures var (r, n) := Decode(p);
            if p[0] < 0x80 then r == p[0] && n == 1
            else r >= 0x80 && forall i :: 0 <= i < n ==> p[i] >= 0x80
  {
  }
}
