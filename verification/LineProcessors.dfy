/** The counters: words, lines and characters of the lines they are given. */
module LineProcessors {
  import opened Utf8

  predicate IsSpace(r: Rune)
  {
    r == 0x20 || 0x09 <= r <= 0x0D
  }

  /** Blank, tab, newline, vertical tab, form feed and carriage return. */
  lemma SpacesAre(r: Rune)
    ensures IsSpace(r) <==> r in {0x20, 0x09, 0x0A, 0x0B, 0x0C, 0x0D}
  {
  }

  /** Words entered while reading rs, having been inside a word before it or not. */
  function WordsFrom(inWord: bool, rs: seq<Rune>): nat
    decreases |rs|
  {
    if rs == [] then 0
    else if IsSpace(rs[0]) then WordsFrom(false, rs[1..])
    else (if inWord then 0 else 1) + WordsFrom(true, rs[1..])
  }

  /** Words of a line: what WordCountProcessor adds for it. */
  function Words(line: seq<Byte>): nat
  {
    WordsFrom(false, Runes(line))
  }

  /** Characters of a line: what CharacterCountProcessor adds for it. */
  function Characters(line: seq<Byte>): nat
  {
    |Runes(line)|
  }

  // ---------- the processors ----------

  class WordCountProcessor {
    var counter: int

    constructor ()
      ensures counter == 0
    {
      counter := 0;
    }

    method Process(line: seq<Byte>)
      modifies this
      ensures counter == old(counter) + Words(line)
      ensures counter == old(counter)
                         + |set i: nat {:trigger line[i]} |
                              i < |line| && line[i] !in {0x20, 0x09, 0x0A, 0x0B, 0x0C, 0x0D}
                              && (i == 0 || line[i - 1] in {0x20, 0x09, 0x0A, 0x0B, 0x0C, 0x0D})|
    {
      WordsAreStarts(line);
      WordsNeedNoDecoding(false, line);
      var inWord, words := false, 0;
      var rest := line;
      while |rest| > 0
        invariant words + WordsFrom(inWord, Runes(rest)) == Words(line)
      {
        var (r, size) := Decode(rest);
        if IsSpace(r) {
          inWord := false;
        } else if !inWord {
          inWord := true;
          words := words + 1;
        }
        assert Runes(rest)[1..] == Runes(rest[size..]);
        rest := rest[size..];
      }
      counter := counter + words;
    }
  }

  class LineCountProcessor {
    var counter: int

    constructor ()
      ensures counter == 0
    {
      counter := 0;
    }

    method Process(line: seq<Byte>)
      modifies this
      ensures counter == old(counter) + 1
    {
      counter := counter + 1;
    }
  }

  class CharacterCountProcessor {
    var counter: int

    constructor ()
      ensures counter == 0
    {
      counter := 0;
    }

    method Process(line: seq<Byte>)
      modifies this
      ensures counter == old(counter) + Characters(line)
    {
      var count := 0;
      var rest := line;
      while |rest| > 0
        invariant count + |Runes(rest)| == Characters(line)
      {
        var (_, size) := Decode(rest);
        rest := rest[size..];
        count := count + 1;
      }
      counter := counter + count;
    }
  }

  // ---------- words, without decoding ----------

  /** Byte i begins a maximal run of non-space bytes. */
  predicate WordStart(p: seq<Rune>, i: nat)
    requires i < |p|
  {
    !IsSpace(p[i]) && (i == 0 || IsSpace(p[i - 1]))
  }

  ghost function WordStarts(p: seq<Rune>): set<nat>
  {
    set i: nat | i < |p| && WordStart(p, i)
  }

  predicate InWordAfter(inWord: bool, p: seq<Rune>)
  {
    if p == [] then inWord else !IsSpace(p[|p| - 1])
  }

  lemma {:induction false} WordsLast(inWord: bool, p: seq<Rune>, x: Rune)
    ensures WordsFrom(inWord, p + [x])
            == WordsFrom(inWord, p) + (if IsSpace(x) || InWordAfter(inWord, p) then 0 else 1)
    decreases |p|
  {
    if p == [] {
      assert p + [x] == [x] && [x][1..] == [];
    } else {
      assert (p + [x])[1..] == p[1..] + [x];
      WordsLast(!IsSpace(p[0]), p[1..], x);
    }
  }

  lemma WordStartsLast(p: seq<Rune>, x: Rune)
    ensures |WordStarts(p + [x])|
            == |WordStarts(p)| + (if IsSpace(x) || InWordAfter(false, p) then 0 else 1)
  {
    var q, n := p + [x], |p|;
    assert WordStart(q, n) == !(IsSpace(x) || InWordAfter(false, p));
    forall i: nat | i < n ensures WordStart(q, i) == WordStart(p, i) {
    }
    hide WordStart, InWordAfter, IsSpace;
    assert n !in WordStarts(p);
    assert WordStarts(q) == WordStarts(p) + (if WordStart(q, n) then {n} else {});
  }

  /** The scan counts the starts of the maximal runs of elements that are no spaces. */
  lemma WordsAreStarts(p: seq<Rune>)
    ensures WordsFrom(false, p)
            == |set i: nat {:trigger p[i]} | i < |p| && p[i] !in {0x20, 0x09, 0x0A, 0x0B, 0x0C, 0x0D}
                             && (i == 0 || p[i - 1] in {0x20, 0x09, 0x0A, 0x0B, 0x0C, 0x0D})|
  {
    var starts := set i: nat {:trigger p[i]} | i < |p| && p[i] !in {0x20, 0x09, 0x0A, 0x0B, 0x0C, 0x0D}
                               && (i == 0 || p[i - 1] in {0x20, 0x09, 0x0A, 0x0B, 0x0C, 0x0D});
    forall i: nat ensures i in starts <==> i in WordStarts(p) {
      if i < |p| {
        SpacesAre(p[i]);
        if i > 0 { SpacesAre(p[i - 1]); }
      }
    }
    assert starts == WordStarts(p);
    hide WordStarts;
    WordsCounted(p);
  }

  lemma {:induction false} WordsCounted(p: seq<Rune>)
    ensures WordsFrom(false, p) == |WordStarts(p)|
    decreases |p|
  {
    hide WordStarts;
    if p == [] {
      assert WordStarts([]) == {} by { WordStartsNone(); }
    } else {
      var n := |p| - 1;
      WordsLast(false, p[..n], p[n]);
      WordStartsLast(p[..n], p[n]);
      WordsCounted(p[..n]);
      assert p == p[..n] + [p[n]];
    }
  }

  lemma WordStartsNone()
    ensures WordStarts([]) == {}
  {
  }

  /** A space between two texts keeps their words apart. */
  lemma {:induction false} WordsSplit(inWord: bool, a: seq<Rune>, sep: Rune, b: seq<Rune>)
    requires IsSpace(sep)
    ensures WordsFrom(inWord, a + [sep] + b) == WordsFrom(inWord, a) + WordsFrom(false, b)
    decreases |a|
  {
    var all := a + [sep] + b;
    if a == [] {
      assert all[1..] == b;
    } else {
      assert all[1..] == a[1..] + [sep] + b;
      WordsSplit(!IsSpace(a[0]), a[1..], sep, b);
    }
  }

  lemma {:induction false} WordsThroughWord(inWord: bool, a: seq<Rune>, b: seq<Rune>)
    requires a != [] && forall i :: 0 <= i < |a| ==> !IsSpace(a[i])
    ensures WordsFrom(inWord, a + b) == (if inWord then 0 else 1) + WordsFrom(true, b)
    decreases |a|
  {
    assert (a + b)[1..] == a[1..] + b;
    if |a| > 1 {
      WordsThroughWord(true, a[1..], b);
    } else {
      assert a[1..] + b == b;
    }
  }

  /** Decoding has no effect on the word count: a scan of the raw bytes, malformed or not, finds the same words. */
  lemma {:induction false} WordsNeedNoDecoding(inWord: bool, p: seq<Byte>)
    ensures WordsFrom(inWord, Runes(p)) == WordsFrom(inWord, p)
    decreases |p|
  {
    if p == [] {
    } else {
      var (r, n) := Decode(p);
      DecodeKind(p);
      assert Runes(p)[1..] == Runes(p[n..]);
      WordsNeedNoDecoding(!IsSpace(r), p[n..]);
      if p[0] >= 0x80 {
        assert p == p[..n] + p[n..];
        WordsThroughWord(inWord, p[..n], p[n..]);
      }
    }
  }
}
