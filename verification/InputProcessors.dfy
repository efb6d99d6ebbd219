/** The two line splitters, the readers in front of them, and what the counters come to. */
module InputProcessors {
  import opened Wrappers
  import opened Utf8
  import opened LineProcessors
  import Sums

  const LF: Byte := 0x0A
  const CR: Byte := 0x0D

  /** bufio.MaxScanTokenSize: a line and its newline have to fit the scanner's buffer. */
  const MAX_TOKEN := 65536

  // ---------- lines ----------

  /** Where the first line of d ends: at its newline, or at the end of d. */
  function LineEnd(d: seq<Byte>): (k: nat)
    ensures k <= |d| && LF !in d[..k]
    ensures k < |d| ==> d[k] == LF
  {
    if d == [] || d[0] == LF then 0
    else
      assert d == [d[0]] + d[1..];
      assert d[..1 + LineEnd(d[1..])] == [d[0]] + d[1..][..LineEnd(d[1..])];
      1 + LineEnd(d[1..])
  }

  predicate EndsWithCR(line: seq<Byte>)
  {
    line != [] && line[|line| - 1] == CR
  }

  function DropCR(line: seq<Byte>): seq<Byte>
  {
    if EndsWithCR(line) then line[..|line| - 1] else line
  }

  /** The lines processBytes hands out: a last line without a newline keeps its carriage return. */
  function Lines(d: seq<Byte>): seq<seq<Byte>>
    decreases |d|
  {
    var k := LineEnd(d);
    if d == [] then []
    else if k == |d| then [d]
    else [DropCR(d[..k])] + Lines(d[k + 1..])
  }

  /** The tokens of bufio.ScanLines: every line loses a final carriage return. */
  function ScanLines(d: seq<Byte>): seq<seq<Byte>>
    decreases |d|
  {
    var k := LineEnd(d);
    if d == [] then []
    else if k == |d| then [DropCR(d)]
    else [DropCR(d[..k])] + ScanLines(d[k + 1..])
  }

  /** No line is too long for the scanner. */
  predicate FitsScanner(d: seq<Byte>)
    decreases |d|
  {
    var k := LineEnd(d);
    k < MAX_TOKEN && (k == |d| || FitsScanner(d[k + 1..]))
  }

  /** The tokens the scanner delivers before it meets a line that is too long, if it does. */
  function Scanned(d: seq<Byte>): seq<seq<Byte>>
    decreases |d|
  {
    var k := LineEnd(d);
    if d == [] || k >= MAX_TOKEN then []
    else if k == |d| then [DropCR(d)]
    else [DropCR(d[..k])] + Scanned(d[k + 1..])
  }

  // ---------- totals ----------

  datatype Totals = Totals(lines: int, words: int, characters: int)

  function Plus(a: Totals, b: Totals): Totals
  {
    Totals(a.lines + b.lines, a.words + b.words, a.characters + b.characters)
  }

  const ZERO := Totals(0, 0, 0)

  function LineTotals(line: seq<Byte>): Totals
  {
    Totals(1, Words(line), Characters(line))
  }

  function TotalsOf(lines: seq<seq<Byte>>): Totals
  {
    if lines == [] then ZERO else Plus(LineTotals(lines[0]), TotalsOf(lines[1..]))
  }

  lemma TotalsOfFirst(line: seq<Byte>, rest: seq<seq<Byte>>)
    ensures TotalsOf([line] + rest) == Plus(LineTotals(line), TotalsOf(rest))
  {
    assert ([line] + rest)[1..] == rest;
  }

  lemma {:induction false} TotalsOfLast(lines: seq<seq<Byte>>, line: seq<Byte>)
    ensures TotalsOf(lines + [line]) == Plus(TotalsOf(lines), LineTotals(line))
    decreases |lines|
  {
    hide LineTotals;
    if lines == [] {
      assert [] + [line] == [line] + [];
    } else {
      assert lines + [line] == [lines[0]] + (lines[1..] + [line]);
      TotalsOfFirst(lines[0], lines[1..] + [line]);
      TotalsOfLast(lines[1..], line);
    }
  }

  // ---------- the totals of the whole input, without splitting or (but for characters) decoding ----------

  function Newlines(d: seq<Byte>): nat
  {
    if d == [] then 0 else (if d[0] == LF then 1 else 0) + Newlines(d[1..])
  }

  function CrLfs(d: seq<Byte>): nat
  {
    if |d| < 2 then 0 else (if d[0] == CR && d[1] == LF then 1 else 0) + CrLfs(d[1..])
  }

  lemma {:induction false} NewlinesCut(l: seq<Byte>, rest: seq<Byte>)
    requires LF !in l
    ensures Newlines(l) == 0
    ensures Newlines(l + [LF] + rest) == 1 + Newlines(rest)
    decreases |l|
  {
    var d := l + [LF] + rest;
    if l == [] {
      assert d[1..] == rest;
    } else {
      assert d[1..] == l[1..] + [LF] + rest;
      NewlinesCut(l[1..], rest);
    }
  }

  lemma {:induction false} CrLfsCut(l: seq<Byte>, rest: seq<Byte>)
    requires LF !in l
    ensures CrLfs(l) == 0
    ensures CrLfs(l + [LF] + rest) == (if EndsWithCR(l) then 1 else 0) + CrLfs(rest)
    decreases |l|
  {
    var d := l + [LF] + rest;
    if l == [] {
      assert d[1..] == rest;
    } else {
      assert d[1..] == l[1..] + [LF] + rest;
      CrLfsCut(l[1..], rest);
    }
  }

  /** A line's carriage return is a space and a character of its own. */
  lemma DropCRTotals(line: seq<Byte>)
    ensures Words(DropCR(line)) == Words(line) == WordsFrom(false, line)
    ensures Characters(line) == Characters(DropCR(line)) + (if EndsWithCR(line) then 1 else 0)
  {
    WordsNeedNoDecoding(false, line);
    if EndsWithCR(line) {
      var front := line[..|line| - 1];
      assert line == front + [CR];
      WordsNeedNoDecoding(false, front);
      WordsLast(false, front, CR);
      RunesSplit(front, [CR]);
      assert [CR][1..] == [];
      assert Runes([CR]) == [CR];
    }
  }

  /** The first line, its newline and the rest decode separately and keep their words apart. */
  lemma CutTotals(l: seq<Byte>, rest: seq<Byte>)
    ensures |Runes(l + [LF] + rest)| == Characters(l) + 1 + |Runes(rest)|
    ensures WordsFrom(false, l + [LF] + rest) == WordsFrom(false, l) + WordsFrom(false, rest)
  {
    assert l + [LF] + rest == l + ([LF] + rest);
    RunesSplit(l, [LF] + rest);
    RunesAscii(LF, rest);
    WordsSplit(false, l, LF, rest);
  }

  /**
   For every byte string: the line total is the number of newlines, plus one for an unterminated last
   line; the word total is the number of maximal runs of non-space bytes; the runes of the whole input
   are the characters counted line by line, the newlines and the carriage returns dropped before them.
   */
  lemma ByteTotals(d: seq<Byte>)
    ensures TotalsOf(Lines(d)).lines == multiset(d)[0x0A] + (if d != [] && d[|d| - 1] != 0x0A then 1 else 0)
    ensures TotalsOf(Lines(d)).words
            == |set i: nat {:trigger d[i]} | i < |d| && d[i] !in {0x20, 0x09, 0x0A, 0x0B, 0x0C, 0x0D}
                             && (i == 0 || d[i - 1] in {0x20, 0x09, 0x0A, 0x0B, 0x0C, 0x0D})|
    ensures |Runes(d)| == TotalsOf(Lines(d)).characters + multiset(d)[0x0A]
                          + |set i: nat {:trigger d[i]} | i < |d| - 1 && d[i] == 0x0D && d[i + 1] == 0x0A|
  {
    hide Lines, TotalsOf, Newlines, CrLfs, Runes, WordsFrom;
    WordsAreStarts(d);
    NewlinesAre(d);
    CrLfsAre(d);
    ByteTotalsScan(d);
  }

  lemma {:induction false} NewlinesAre(d: seq<Byte>)
    ensures Newlines(d) == multiset(d)[0x0A]
    decreases |d|
  {
    if d == [] {
    } else {
      NewlinesAre(d[1..]);
      assert d == [d[0]] + d[1..];
    }
  }

  ghost function Ends(d: seq<Byte>): set<nat>
  {
    set i: nat {:trigger d[i]} | i < |d| - 1 && d[i] == 0x0D && d[i + 1] == 0x0A
  }

  lemma {:induction false} CrLfsAre(d: seq<Byte>)
    ensures CrLfs(d) == |Ends(d)|
    decreases |d|
  {
    if |d| < 2 {
      assert Ends(d) == {};
    } else {
      var rest := d[1..];
      CrLfsAre(rest);
      var further := Further(Ends(rest));
      OneFurther(Ends(rest));
      assert Ends(d) == further + (if d[0] == CR && d[1] == LF then {0} else {}) by {
        forall i: nat | i > 0 ensures i in Ends(d) <==> i in further {
          assert i in Ends(d) <==> i - 1 in Ends(rest);
          assert i in further <==> i - 1 in Ends(rest) by { if i - 1 in Ends(rest) { assert i - 1 + 1 == i; } }
        }
      }
      assert 0 !in further;
    }
  }

  function Further(s: set<nat>): set<nat>
  {
    set i | i in s :: i + 1
  }

  lemma {:induction false} OneFurther(s: set<nat>)
    ensures |Further(s)| == |s|
    decreases |s|
  {
    if s == {} {
      assert Further(s) == {};
    } else {
      var x :| x in s;
      var rest := s - {x};
      OneFurther(rest);
      forall j ensures j in Further(s) <==> j in Further(rest) || j == x + 1 {
        if j in Further(s) {
          var i :| i in s && j == i + 1;
          assert i in rest || i == x;
        }
      }
      assert Further(s) == Further(rest) + {x + 1} && x + 1 !in Further(rest);
    }
  }

  lemma OneLine(d: seq<Byte>)
    requires d != [] && LF !in d
    ensures Lines(d) == [d] && d[|d| - 1] != LF
  {
    assert LineEnd(d) == |d|;
    assert d[|d| - 1] in d;
  }

  lemma OneLineTotals(d: seq<Byte>)
    requires d != [] && LF !in d
    ensures Lines(d) == [d] && d[|d| - 1] != LF
    ensures TotalsOf(Lines(d)) == Totals(1, WordsFrom(false, d), |Runes(d)|)
    ensures Newlines(d) == CrLfs(d) == 0
  {
    OneLine(d);
    OneLineTotal(d);
    assert d + [LF] + [] == d + [LF];
    NewlinesCut(d, []);
    CrLfsCut(d, []);
    DropCRTotals(d);
    hide *;
  }

  lemma OneLineTotal(line: seq<Byte>)
    ensures TotalsOf([line]) == LineTotals(line) == Totals(1, Words(line), |Runes(line)|)
  {
    hide Words, Runes;
    assert [line] + [] == [line];
    TotalsOfFirst(line, []);
  }

  lemma {:induction false} ByteTotalsScan(d: seq<Byte>)
    ensures TotalsOf(Lines(d)).lines == Newlines(d) + (if d != [] && d[|d| - 1] != LF then 1 else 0)
    ensures TotalsOf(Lines(d)).words == WordsFrom(false, d)
    ensures |Runes(d)| == TotalsOf(Lines(d)).characters + Newlines(d) + CrLfs(d)
    decreases |d|
  {
    hide LineEnd, Words, Characters, DropCR, Decode;
    var k := LineEnd(d);
    var l := d[..k];
    if d == [] {
    } else if k == |d| {
      assert l == d;
      OneLineTotals(d);
    } else {
      var rest := d[k + 1..];
      assert d == l + [LF] + rest;
      ByteTotalsScan(rest);
      TotalsOfFirst(DropCR(l), Lines(rest));
      assert Lines(d) == [DropCR(l)] + Lines(rest);
      hide Lines, TotalsOf, Runes, WordsFrom, Newlines, CrLfs;
      DropCRTotals(l);
      NewlinesCut(l, rest);
      CrLfsCut(l, rest);
      CutTotals(l, rest);
    }
  }

  // ---------- the two splitters ----------

  /** MAX_TOKEN bytes from i on hold no newline. */
  predicate Unbroken(d: seq<Byte>, i: nat)
  {
    i + MAX_TOKEN <= |d| && LF !in d[i..i + MAX_TOKEN]
  }

  lemma UnbrokenAfter(d: seq<Byte>, k: nat, i: nat)
    requires k < |d| && k < MAX_TOKEN && d[k] == LF
    ensures Unbroken(d, i) <==> i > k && Unbroken(d[k + 1..], i - (k + 1))
  {
    if i + MAX_TOKEN <= |d| {
      if i <= k {
        assert d[i..i + MAX_TOKEN][k - i] == LF;
      } else {
        assert d[k + 1..][i - (k + 1)..i - (k + 1) + MAX_TOKEN] == d[i..i + MAX_TOKEN];
      }
    }
  }

  /**
   The scanner fails exactly on an input with 65536 bytes in a row that hold no newline, and
   otherwise delivers every line.
   */
  lemma ScannerFitsIff(d: seq<Byte>)
    ensures FitsScanner(d) <==> forall i: nat, j: nat :: j == i + 65536 && j <= |d| ==> 0x0A in d[i..j]
    ensures FitsScanner(d) ==> Scanned(d) == ScanLines(d)
  {
    ScannerFits(d);
    hide FitsScanner, Scanned, ScanLines;
    if !FitsScanner(d) {
      var i: nat :| Unbroken(d, i);
      var j := i + 65536;
      assert 0x0A !in d[i..j];
    } else {
      forall i: nat, j: nat | j == i + 65536 && j <= |d| ensures 0x0A in d[i..j] {
        assert !Unbroken(d, i);
      }
    }
  }

  lemma {:induction false} ScannerFits(d: seq<Byte>)
    ensures FitsScanner(d) <==> forall i: nat :: !Unbroken(d, i)
    ensures FitsScanner(d) ==> Scanned(d) == ScanLines(d)
    decreases |d|
  {
    hide DropCR;
    var k := LineEnd(d);
    if k >= MAX_TOKEN {
      assert d[0..MAX_TOKEN] == d[..k][..MAX_TOKEN];
      assert Unbroken(d, 0);
    } else if k < |d| {
      var rest := d[k + 1..];
      ScannerFits(rest);
      forall i: nat ensures Unbroken(d, i) <==> i > k && Unbroken(rest, i - (k + 1)) {
        UnbrokenAfter(d, k, i);
      }
      if i: nat :| Unbroken(rest, i) {
        assert Unbroken(d, i + (k + 1));
      }
    }
  }

  /**
   The two splitters hand out the same lines, but for a carriage return at the very end of the input, which
   one of them drops from the last line.
   */
  lemma SplittersDiffer(d: seq<Byte>)
    ensures ScanLines(d) == Lines(d) <==> !(d != [] && d[|d| - 1] == 0x0D)
    ensures d != [] && d[|d| - 1] == 0x0D ==>
              var n := |Lines(d)| - 1;
              n >= 0 && Lines(d)[n] != [] && ScanLines(d) == Lines(d)[..n] + [Lines(d)[n][..|Lines(d)[n]| - 1]]
    ensures TotalsOf(ScanLines(d)).lines == TotalsOf(Lines(d)).lines
    ensures TotalsOf(ScanLines(d)).words == TotalsOf(Lines(d)).words
    ensures TotalsOf(Lines(d)).characters
            == TotalsOf(ScanLines(d)).characters + (if d != [] && d[|d| - 1] == 0x0D then 1 else 0)
  {
    SplittersCompared(d);
    if EndsWithCR(d) { LastLineDiffers(d); }
  }

  /** The same lines, but for the last, which loses its last byte. */
  ghost predicate LastLoses(lines: seq<seq<Byte>>, fewer: seq<seq<Byte>>)
  {
    && lines != [] && lines[|lines| - 1] != []
    && fewer == lines[..|lines| - 1] + [lines[|lines| - 1][..|lines[|lines| - 1]| - 1]]
  }

  lemma LastLosesBehind(l: seq<Byte>, lines: seq<seq<Byte>>, fewer: seq<seq<Byte>>)
    requires LastLoses(lines, fewer)
    ensures LastLoses([l] + lines, [l] + fewer)
  {
    assert ([l] + lines)[..|lines|] == [l] + lines[..|lines| - 1];
  }

  lemma {:induction false} LastLineDiffers(d: seq<Byte>)
    requires EndsWithCR(d)
    ensures LastLoses(Lines(d), ScanLines(d))
    decreases |d|
  {
    var k := LineEnd(d);
    if k < |d| {
      var rest := d[k + 1..];
      assert EndsWithCR(rest);
      hide *;
      LastLineDiffers(rest);
      LinesCut(d, k);
      ScanLinesCut(d, k);
      LastLosesBehind(DropCR(d[..k]), Lines(rest), ScanLines(rest));
    }
  }

  lemma ScanLinesCut(d: seq<Byte>, k: nat)
    requires k < |d| && LineEnd(d) == k
    ensures ScanLines(d) == [DropCR(d[..k])] + ScanLines(d[k + 1..])
  {
    hide LineEnd, DropCR;
  }

  lemma {:induction false} SplittersCompared(d: seq<Byte>)
    ensures ScanLines(d) == Lines(d) <==> !EndsWithCR(d)
    ensures TotalsOf(ScanLines(d)).lines == TotalsOf(Lines(d)).lines
    ensures TotalsOf(ScanLines(d)).words == TotalsOf(Lines(d)).words
    ensures TotalsOf(Lines(d)).characters
            == TotalsOf(ScanLines(d)).characters + (if EndsWithCR(d) then 1 else 0)
    decreases |d|
  {
    hide LineEnd, LineTotals, DropCR;
    var k := LineEnd(d);
    if d == [] {
    } else if k == |d| {
      OnlyLineDiffers(d);
    } else {
      var l, rest := DropCR(d[..k]), d[k + 1..];
      SplittersCompared(rest);
      assert Lines(d) == [l] + Lines(rest) && ScanLines(d) == [l] + ScanLines(rest);
      assert EndsWithCR(d) <==> EndsWithCR(rest);
      TotalsOfFirst(l, Lines(rest));
      TotalsOfFirst(l, ScanLines(rest));
      assert ([l] + Lines(rest))[1..] == Lines(rest) && ([l] + ScanLines(rest))[1..] == ScanLines(rest);
    }
  }

  lemma OnlyLineDiffers(d: seq<Byte>)
    requires d != [] && LineEnd(d) == |d|
    ensures ScanLines(d) == Lines(d) <==> !EndsWithCR(d)
    ensures TotalsOf(ScanLines(d)).lines == TotalsOf(Lines(d)).lines
    ensures TotalsOf(ScanLines(d)).words == TotalsOf(Lines(d)).words
    ensures TotalsOf(Lines(d)).characters
            == TotalsOf(ScanLines(d)).characters + (if EndsWithCR(d) then 1 else 0)
  {
    DropCRTotals(d);
    OneLineTotal(d);
    OneLineTotal(DropCR(d));
    assert Lines(d) == [d] && ScanLines(d) == [DropCR(d)] && [d][0] == d && [DropCR(d)][0] == DropCR(d);
    assert EndsWithCR(d) <==> DropCR(d) != d;
    hide *;
  }

  /** The shortest input on which they differ: a lone carriage return, kept by one and dropped by the other. */
  lemma LoneCarriageReturn()
    ensures Lines([0x0D]) == [[0x0D]] && ScanLines([0x0D]) == Scanned([0x0D]) == [[]]
    ensures FitsScanner([0x0D]) && TotalsOf(Lines([0x0D])) != TotalsOf(Scanned([0x0D]))
  {
    assert LineEnd([CR]) == 1;
    assert DropCR([CR]) == [];
    ScannerFitsIff([CR]);
    SplittersCompared([CR]);
  }

  /**
   Where the scanner does not fail, the two paths report the same lines and words; the byte path
   reports one character more exactly when the input ends in a carriage return.
   */
  lemma PathsAgree(d: seq<Byte>)
    requires FitsScanner(d)
    ensures TotalsOf(Lines(d)) == TotalsOf(Scanned(d)) <==> !(d != [] && d[|d| - 1] == 0x0D)
    ensures var more := if d != [] && d[|d| - 1] == 0x0D then 1 else 0;
            TotalsOf(Lines(d)) == Plus(TotalsOf(Scanned(d)), Totals(0, 0, more))
  {
    hide Lines, TotalsOf, ScanLines, Scanned, FitsScanner;
    ScannerFitsIff(d);
    SplittersCompared(d);
  }

  // ---------- what the lines are ----------

  /** The lines with what ended each of them put back. */
  function Woven(lines: seq<seq<Byte>>, ends: seq<seq<Byte>>): seq<Byte>
    requires |lines| == |ends|
  {
    if lines == [] then [] else lines[0] + ends[0] + Woven(lines[1..], ends[1..])
  }

  /** What may end line i of n: a newline with a carriage return before it if there is one, or the input's end. */
  ghost predicate EndsLine(line: seq<Byte>, end: seq<Byte>, last: bool)
  {
    && 0x0A !in line
    && (end == [0x0D, 0x0A] || end == [0x0A] || (end == [] && last && line != []))
    && (end == [0x0A] && line != [] ==> line[|line| - 1] != 0x0D)
  }

  ghost predicate EndsLines(lines: seq<seq<Byte>>, ends: seq<seq<Byte>>)
  {
    |ends| == |lines| && forall i :: 0 <= i < |ends| ==> EndsLine(lines[i], ends[i], i == |ends| - 1)
  }

  lemma WovenBehind(l: seq<Byte>, end: seq<Byte>, lines: seq<seq<Byte>>, ends: seq<seq<Byte>>)
    requires EndsLine(l, end, false) && EndsLines(lines, ends)
    ensures EndsLines([l] + lines, [end] + ends)
    ensures Woven([l] + lines, [end] + ends) == l + end + Woven(lines, ends)
  {
    assert ([l] + lines)[1..] == lines && ([end] + ends)[1..] == ends;
    forall i | 0 <= i <= |ends| ensures EndsLine(([l] + lines)[i], ([end] + ends)[i], i == |ends|) {
      if i > 0 {
        assert EndsLine(lines[i - 1], ends[i - 1], i - 1 == |ends| - 1);
      }
    }
  }

  /** The lines handed out are the input, cut at its newlines and less their carriage returns. */
  lemma {:induction false} LinesAreTheInput(d: seq<Byte>) returns (ends: seq<seq<Byte>>)
    ensures EndsLines(Lines(d), ends) && Woven(Lines(d), ends) == d
    decreases |d|
  {
    var k := LineEnd(d);
    if d == [] {
      ends := [];
    } else if k == |d| {
      ends := [[]];
      assert d[..k] == d;
      OneLineWoven(d);
    } else {
      var l, rest := d[..k], d[k + 1..];
      var end := if EndsWithCR(l) then [0x0D, 0x0A] else [0x0A];
      assert d == l + [0x0A] + rest && 0x0A !in l;
      LineWithEnd(l, end);
      hide *;
      LinesCut(d, k);
      ends := LinesAreTheInput(rest);
      WovenBehind(DropCR(l), end, Lines(rest), ends);
      ends := [end] + ends;
    }
  }

  lemma OneLineWoven(d: seq<Byte>)
    requires d != [] && 0x0A !in d
    ensures EndsLines(Lines(d), [[]]) && Woven(Lines(d), [[]]) == d
  {
    OneLine(d);
    var none: seq<seq<Byte>> := [];
    assert [d][1..] == none && Woven(none, none) == [];
    assert d + [] + [] == d;
  }

  lemma LineWithEnd(l: seq<Byte>, end: seq<Byte>)
    requires 0x0A !in l && end == if EndsWithCR(l) then [0x0D, 0x0A] else [0x0A]
    ensures DropCR(l) + end == l + [0x0A] && EndsLine(DropCR(l), end, false)
  {
  }

  /** What is before fits, and what is after begins with a line that does not, if there is anything. */
  ghost predicate FitsBefore(before: seq<Byte>, after: seq<Byte>)
  {
    && FitsScanner(before)
    && (after != [] ==>
          && (before != [] ==> before[|before| - 1] == 0x0A)
          && |after| >= 65536 && 0x0A !in after[..65536])
  }

  /** The scanner delivers the lines before the first that does not fit. */
  lemma {:induction false} ScannedBefore(d: seq<Byte>) returns (before: seq<Byte>, after: seq<Byte>)
    ensures d == before + after && FitsBefore(before, after)
    ensures Scanned(d) == ScanLines(before) && (FitsScanner(d) <==> after == [])
    decreases |d|
  {
    var e := LineEnd(d);
    if FitsScanner(d) {
      before, after := d, [];
      hide *;
      ScannerFits(d);
    } else if e >= MAX_TOKEN {
      before, after := [], d;
      TooLongAtOnce(d);
      hide *;
    } else {
      var l, rest := d[..e], d[e + 1..];
      NotTheLast(d, e);
      assert d == l + [LF] + rest;
      hide *;
      before, after := ScannedBefore(rest);
      ScannedFurther(d, l, before, after);
      before := l + [LF] + before;
    }
  }

  lemma TooLongAtOnce(d: seq<Byte>)
    requires LineEnd(d) >= MAX_TOKEN
    ensures FitsBefore([], d) && Scanned(d) == ScanLines([]) && !FitsScanner(d) && d != []
  {
    assert d[..65536] == d[..LineEnd(d)][..65536];
    assert Scanned(d) == [] && ScanLines([]) == [];
  }

  lemma NotTheLast(d: seq<Byte>, e: nat)
    requires LineEnd(d) == e < MAX_TOKEN && !FitsScanner(d)
    ensures e < |d| && d[e] == LF && LF !in d[..e]
  {
  }

  /** A first line that fits. */
  lemma FirstLineFits(d: seq<Byte>, l: seq<Byte>, rest: seq<Byte>)
    requires LF !in l && |l| < MAX_TOKEN && d == l + [LF] + rest
    ensures FitsScanner(d) == FitsScanner(rest)
    ensures Scanned(d) == [DropCR(l)] + Scanned(rest) && ScanLines(d) == [DropCR(l)] + ScanLines(rest)
  {
    var k := |l|;
    assert d[..k] == l && d[k] == LF && d[k + 1..] == rest;
    LineEndIs(d, k);
    hide DropCR, LineEnd;
  }

  lemma Regrouped(l: seq<Byte>, before: seq<Byte>, after: seq<Byte>)
    ensures var front := l + [LF] + before;
            && l + [LF] + (before + after) == front + after && front != []
            && front[|front| - 1] == if before == [] then LF else before[|before| - 1]
  {
  }

  lemma ScannedFurther(d: seq<Byte>, l: seq<Byte>, before: seq<Byte>, after: seq<Byte>)
    requires LF !in l && |l| < MAX_TOKEN && d == l + [LF] + (before + after)
    requires FitsBefore(before, after) && Scanned(before + after) == ScanLines(before)
    requires FitsScanner(before + after) <==> after == []
    ensures d == l + [LF] + before + after && FitsBefore(l + [LF] + before, after)
    ensures Scanned(d) == ScanLines(l + [LF] + before) && (FitsScanner(d) <==> after == [])
  {
    FirstLineFits(d, l, before + after);
    FirstLineFits(l + [LF] + before, l, before);
    Regrouped(l, before, after);
    FitsBehind(l + [LF] + before, before, after);
    hide *;
  }

  lemma FitsBehind(front: seq<Byte>, before: seq<Byte>, after: seq<Byte>)
    requires FitsBefore(before, after) && FitsScanner(front) == FitsScanner(before)
    requires front != [] && front[|front| - 1] == if before == [] then LF else before[|before| - 1]
    ensures FitsBefore(front, after)
  {
  }

  // ---------- readers ----------

  /** What an io.Reader hands over, call by call: data, data with the end of input, or data with an error. */
  datatype Reads = More(data: seq<Byte>, next: Reads) | End(data: seq<Byte>) | Fail(data: seq<Byte>)

  function Content(r: Reads): seq<Byte>
  {
    match r
    case More(data, next) => data + Content(next)
    case End(data) => data
    case Fail(data) => data
  }

  predicate Fails(r: Reads)
  {
    match r
    case More(_, next) => Fails(next)
    case End(_) => false
    case Fail(_) => true
  }

  /** These chunks, the last one with the end of input or with an error. */
  function ReadsOf(chunks: seq<seq<Byte>>, fails: bool): Reads
    requires chunks != []
  {
    if |chunks| > 1 then More(chunks[0], ReadsOf(chunks[1..], fails))
    else if fails then Fail(chunks[0])
    else End(chunks[0])
  }

  /** What is read is all the chunks' bytes in order, those that come with the end or with an error included. */
  lemma {:induction false} ContentOfReads(chunks: seq<seq<Byte>>, fails: bool, i: nat, j: nat)
    requires i < |chunks| && j < |chunks[i]|
    ensures var r := ReadsOf(chunks, fails);
            && (Fails(r) <==> fails)
            && |Content(r)| == Sums.Sum(chunks, Length)
            && var at := Sums.Sum(chunks[..i], Length) + j; 0 <= at < |Content(r)| && Content(r)[at] == chunks[i][j]
    decreases |chunks|
  {
    ContentLength(chunks, fails);
    if |chunks| > 1 && i > 0 {
      ContentOfReads(chunks[1..], fails, i - 1, j);
      assert chunks[..i] == [chunks[0]] + chunks[1..][..i - 1];
      Sums.SumAppend([chunks[0]], chunks[1..][..i - 1], Length);
    }
    assert chunks[..0] == [];
  }

  function Length(chunk: seq<Byte>): int
  {
    |chunk|
  }

  lemma {:induction false} ContentLength(chunks: seq<seq<Byte>>, fails: bool)
    requires chunks != []
    ensures var r := ReadsOf(chunks, fails); (Fails(r) <==> fails) && |Content(r)| == Sums.Sum(chunks, Length)
    decreases |chunks|
  {
    if |chunks| > 1 {
      ContentLength(chunks[1..], fails);
      assert chunks == [chunks[0]] + chunks[1..];
      Sums.SumAppend([chunks[0]], chunks[1..], Length);
    }
    var first := [chunks[0]];
    assert first[..0] == [];
    assert |chunks| == 1 ==> chunks == first;
  }

  datatype Error = NilReader | ReadError | TokenTooLong

  // ---------- the runs ----------

  /** The three processors a run feeds, in the order the command line lists them; `handed` is what they were fed. */
  class Counters {
    const lc: LineCountProcessor
    const wc: WordCountProcessor
    const cc: CharacterCountProcessor
    ghost var handed: seq<seq<Byte>>

    constructor ()
      ensures lc.counter == wc.counter == cc.counter == 0 && handed == []
      ensures fresh(lc) && fresh(wc) && fresh(cc)
    {
      lc := new LineCountProcessor();
      wc := new WordCountProcessor();
      cc := new CharacterCountProcessor();
      handed := [];
    }

    /** What the three counters show. */
    ghost function Counts(): Totals
      reads this, lc, wc, cc
    {
      Totals(lc.counter, wc.counter, cc.counter)
    }

    /** The counters have been fed these lines, and show that much more. */
    twostate predicate Fed(lines: seq<seq<Byte>>)
      reads this, lc, wc, cc
    {
      handed == old(handed) + lines && Counts() == Plus(old(Counts()), TotalsOf(lines))
    }

    method ProcessLine(line: seq<Byte>)
      modifies this, lc, wc, cc
      ensures Counts() == Plus(old(Counts()), LineTotals(line)) && handed == old(handed) + [line]
    {
      hide Words, Characters;
      lc.Process(line);
      wc.Process(line);
      cc.Process(line);
      handed := handed + [line];
    }

    method ProcessBytes(data: seq<Byte>)
      modifies this, lc, wc, cc
      ensures Fed(Lines(data))
    {
      hide LineTotals, TotalsOf, Lines, NoNewline, Plus;
      ghost var before, first := Counts(), handed;
      ghost var out: seq<seq<Byte>> := [];
      NoLines(before);
      assert first + [] == first;
      if |data| == 0 {
        return;
      }
      NoNewlineStep(data, 0, 0);
      assert data[0..] == data && [] + Lines(data) == Lines(data);
      var start := 0;
      for i := 0 to |data|
        invariant 0 <= start <= i && NoNewline(data, start, i)
        invariant Lines(data) == out + Lines(data[start..])
        invariant handed == first + out && Counts() == Plus(before, TotalsOf(out))
      {
        NoNewlineStep(data, start, i);
        if data[i] == LF {
          var end := i;
          if end > start && data[end - 1] == CR {
            end := end - 1;
          }
          var line := data[start..end];
          NextLine(data, start, i, line);
          OneMore(before, first, out, line, Lines(data[i + 1..]));
          ProcessLine(line);
          out := out + [line];
          start := i + 1;
          NoNewlineStep(data, start, start);
        }
      }
      if start < |data| {
        LastLine(data, start);
        OneMore(before, first, out, data[start..], []);
        ProcessLine(data[start..]);
      } else {
        assert data[start..] == [];
        assert Lines([]) == [] && out + [] == out by { NoLines(before); }
      }
    }

    /** io.ReadAll, then the byte path: nothing is processed when the reader fails. */
    method RunUpFront(reader: Option<Reads>) returns (r: Result<(), Error>)
      modifies this, lc, wc, cc
      ensures r == match reader
                   case None => Err(NilReader)
                   case Some(input) => if Fails(input) then Err(ReadError) else Ok(())
      ensures Fed(if r.Ok? then Lines(Content(reader.value)) else [])
    {
      hide TotalsOf, Lines, Plus, Content, Fails;
      NoLines(Counts());
      if reader.None? { return Err(NilReader); }
      if Fails(reader.value) { return Err(ReadError); }
      ProcessBytes(Content(reader.value));
      return Ok(());
    }

    /** The buffering path: append chunk after chunk, then the byte path; however the input was chunked. */
    method RunBuffering(reader: Option<Reads>) returns (r: Result<(), Error>)
      modifies this, lc, wc, cc
      ensures r == match reader
                   case None => Err(NilReader)
                   case Some(input) => if Fails(input) then Err(ReadError) else Ok(())
      ensures Fed(if r.Ok? then Lines(Content(reader.value)) else [])
    {
      hide TotalsOf, Lines, Plus, Content, Fails;
      NoLines(Counts());
      if reader.None? { return Err(NilReader); }
      var buffer, failed := Buffered(reader.value);
      if failed { return Err(ReadError); }
      ProcessBytes(buffer);
      return Ok(());
    }

    /** The scanner's loop: every token is processed as it comes, up to a line that is too long. */
    method ScanAll(content: seq<Byte>) returns (tooLong: bool)
      modifies this, lc, wc, cc
      ensures tooLong <==> !FitsScanner(content)
      ensures Fed(Scanned(content))
    {
      hide Scanned, FitsScanner, LineTotals, TotalsOf, Plus;
      ghost var before, first := Counts(), handed;
      ghost var out: seq<seq<Byte>> := [];
      NoLines(before);
      assert first + [] == first;
      var scanner := new Scanner(content);
      var more, line := scanner.Scan();
      assert forall tokens: seq<seq<Byte>> :: [] + tokens == tokens;
      while more
        invariant fresh(scanner)
        invariant handed == first + out && Counts() == Plus(before, TotalsOf(out))
        invariant Scanned(content) == out + Pending(more, line, scanner.rest)
        invariant FitsScanner(content) == if more then FitsScanner(scanner.rest) else scanner.rest == []
        decreases |scanner.rest|, more
      {
        OneMore(before, first, out, line, Scanned(scanner.rest));
        ProcessLine(line);
        out := out + [line];
        more, line := scanner.Scan();
      }
      assert out + [] == out;
      tooLong := scanner.rest != [];
    }

    /** The scanner path: what the reader delivers is processed even if the reader or the scanner then fails. */
    method RunScanner(reader: Option<Reads>) returns (r: Result<(), Error>)
      modifies this, lc, wc, cc
      ensures r == match reader
                   case None => Err(NilReader)
                   case Some(input) =>
                     if !FitsScanner(Content(input)) then Err(TokenTooLong)
                     else if Fails(input) then Err(ReadError)
                     else Ok(())
      ensures Fed(if reader.None? then [] else Scanned(Content(reader.value)))
    {
      hide Scanned, FitsScanner, Content, Fails, TotalsOf, Plus;
      NoLines(Counts());
      if reader.None? { return Err(NilReader); }
      var tooLong := ScanAll(Content(reader.value));
      if tooLong { return Err(TokenTooLong); }
      return if Fails(reader.value) then Err(ReadError) else Ok(());
    }
  }

  lemma NoLines(before: Totals)
    ensures Plus(before, TotalsOf([])) == before && Lines([]) == []
  {
  }

  /** One line more is handed out, and counted. */
  lemma OneMore(before: Totals, first: seq<seq<Byte>>, out: seq<seq<Byte>>, line: seq<Byte>, rest: seq<seq<Byte>>)
    ensures Plus(Plus(before, TotalsOf(out)), LineTotals(line)) == Plus(before, TotalsOf(out + [line]))
    ensures first + out + [line] == first + (out + [line])
    ensures out + ([line] + rest) == out + [line] + rest
    ensures rest == [] ==> out + [line] + rest == out + [line]
  {
    TotalsOfLast(out, line);
  }

  /** The buffering reader's loop: whatever the chunks, and whether or not data comes with the end of input. */
  method Buffered(reader: Reads) returns (buffer: seq<Byte>, failed: bool)
    ensures buffer == Content(reader)
    ensures failed == Fails(reader)
  {
    buffer := [];
    var input := reader;
    while input.More?
      invariant buffer + Content(input) == Content(reader)
      invariant Fails(input) == Fails(reader)
      decreases input
    {
      assert buffer + (input.data + Content(input.next)) == buffer + input.data + Content(input.next);
      if |input.data| > 0 {
        buffer := buffer + input.data;
      }
      input := input.next;
    }
    if |input.data| > 0 {
      buffer := buffer + input.data;
    }
    failed := input.Fail?;
  }

  /** bufio.Scanner with ScanLines: what is left to scan, and the next token on demand. */
  class Scanner {
    var rest: seq<Byte>

    constructor (content: seq<Byte>)
      ensures rest == content
    {
      rest := content;
    }

    /** The next token, or none: at the end of the input, or before a line that is too long. */
    method Scan() returns (more: bool, token: seq<Byte>)
      modifies this
      ensures Scanned(old(rest)) == Pending(more, token, rest)
      ensures FitsScanner(old(rest)) == if more then FitsScanner(rest) else rest == []
      ensures if more then |rest| < |old(rest)| else rest == old(rest)
    {
      hide Scanned, FitsScanner, DropCR, LineEnd;
      var k := LineEnd(rest);
      if rest == [] || k >= MAX_TOKEN {
        ScannedNone(rest);
        return false, [];
      }
      ScannedFirst(rest);
      more, token := true, DropCR(rest[..k]);
      rest := if k == |rest| then [] else rest[k + 1..];
    }
  }

  /** A token in hand, and those that are left to scan after it; none if there is none in hand. */
  function Pending(more: bool, token: seq<Byte>, rest: seq<Byte>): seq<seq<Byte>>
  {
    if more then [token] + Scanned(rest) else []
  }

  predicate NoNewline(data: seq<Byte>, from: nat, to: nat)
    requires to <= |data|
  {
    forall j :: from <= j < to ==> data[j] != LF
  }

  lemma NoNewlineStep(data: seq<Byte>, from: nat, i: nat)
    requires from <= i <= |data|
    ensures NoNewline(data, i, i)
    ensures i < |data| && NoNewline(data, from, i) && data[i] != LF ==> NoNewline(data, from, i + 1)
  {
  }

  lemma SliceOfSlice(data: seq<Byte>, start: nat, k: nat)
    requires start + k < |data|
    ensures data[start..][..k] == data[start..start + k]
    ensures data[start..][k + 1..] == data[start + k + 1..]
  {
  }

  /** The first line of what is left, as the loop cuts it out. */
  lemma NextLine(data: seq<Byte>, start: nat, i: nat, line: seq<Byte>)
    requires start <= i < |data| && NoNewline(data, start, i) && data[i] == LF
    requires line == data[start..if i > start && data[i - 1] == CR then i - 1 else i]
    ensures Lines(data[start..]) == [line] + Lines(data[i + 1..])
  {
    hide LineEnd, Lines;
    var d, k := data[start..], i - start;
    assert LF !in d[..k] by {
      assert forall j :: 0 <= j < k ==> d[..k][j] == data[start + j];
    }
    LineEndIs(d, k);
    LinesCut(d, k);
    SliceOfSlice(data, start, k);
    assert DropCR(d[..k]) == line;
  }

  lemma LinesCut(d: seq<Byte>, k: nat)
    requires k < |d| && LineEnd(d) == k
    ensures Lines(d) == [DropCR(d[..k])] + Lines(d[k + 1..])
  {
    hide LineEnd, DropCR;
  }

  lemma LineEndIs(d: seq<Byte>, k: nat)
    requires k < |d| && LF !in d[..k] && d[k] == LF
    ensures LineEnd(d) == k
  {
  }

  lemma LastLine(data: seq<Byte>, start: nat)
    requires start < |data| && NoNewline(data, start, |data|)
    ensures Lines(data[start..]) == [data[start..]]
    ensures [data[start..]] + [] == [data[start..]]
  {
    var d := data[start..];
    assert forall j :: 0 <= j < |d| ==> d[j] == data[start + j];
    OneLine(d);
  }

  lemma ScannedNone(d: seq<Byte>)
    requires d == [] || LineEnd(d) >= MAX_TOKEN
    ensures Scanned(d) == []
    ensures FitsScanner(d) <==> d == []
  {
    hide LineEnd;
  }

  lemma ScannedFirst(d: seq<Byte>)
    requires d != [] && LineEnd(d) < MAX_TOKEN
    ensures var k := LineEnd(d);
            var rest := if k == |d| then [] else d[k + 1..];
            && Scanned(d) == [DropCR(d[..k])] + Scanned(rest)
            && FitsScanner(d) == FitsScanner(rest)
  {
    hide DropCR;
    assert d[..|d|] == d;
    assert LineEnd([]) == 0 && Scanned([]) == [];
    assert [DropCR(d)] + [] == [DropCR(d)];
  }
}
