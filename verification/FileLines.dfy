/** The lines of a file as it is given to the indexer, and which of them it keeps. */
module FileLines {
  import opened Bytes
  import opened Lines

  /** The lines from `p` on; the last one need not end in a newline. */
  function LinesFrom(text: Text, p: nat): seq<Text>
    requires p <= |text|
    decreases |text| - p
  {
    if p == |text| then []
    else
      var e := LineEnd(text, p);
      [text[p..e]] + (if e == |text| then [] else LinesFrom(text, e + 1))
  }

  function AllLines(text: Text): seq<Text> {
    LinesFrom(text, 0)
  }

  /** The text these lines make up, each with a newline after it. */
  function Join(lines: seq<Text>): Text {
    if lines == [] then [] else lines[0] + [NEWLINE] + Join(lines[1..])
  }

  /** The newline that is missing at the end of the text. */
  function MissingNewline(text: Text, p: nat): Text
    requires p <= |text|
  {
    if p == |text| || text[|text| - 1] == NEWLINE then [] else [NEWLINE]
  }

  /** The lines from `p` on make up the text from `p` on. */
  predicate Rejoins(text: Text, p: nat)
    requires p <= |text|
  {
    Join(LinesFrom(text, p)) == text[p..] + MissingNewline(text, p)
  }

  /** Splitting into lines loses nothing but whether the last newline was there. */
  lemma {:induction false} LinesJoin(text: Text, p: nat)
    requires p <= |text|
    ensures Rejoins(text, p)
    decreases |text| - p
  {
    if p == |text| {
      NothingAtEnd(text);
      JoinFirst([], []);
    } else {
      hide Rejoins;
      var e := LineEnd(text, p);
      if e < |text| {
        LinesJoin(text, e + 1);
        OneMoreJoins(text, p, e);
      } else {
        LastJoins(text, p);
      }
    }
  }

  lemma OneMoreJoins(text: Text, p: nat, e: nat)
    requires p <= e < |text| && e == LineEnd(text, p) && Rejoins(text, e + 1)
    ensures Rejoins(text, p)
  {
    FirstLine(text, p);
    hide LineEnd, Join, LinesFrom, MissingNewline;
    JoinFirst(text[p..e], LinesFrom(text, e + 1));
    SameMissing(text, p, e);
    CutAtNewline(text, p, e, MissingNewline(text, p));
  }

  lemma SameMissing(text: Text, p: nat, e: nat)
    requires p <= e < |text| && text[e] == NEWLINE
    ensures MissingNewline(text, e + 1) == MissingNewline(text, p)
  {
  }

  lemma LastJoins(text: Text, p: nat)
    requires p < |text| == LineEnd(text, p)
    ensures Rejoins(text, p)
  {
    FirstLine(text, p);
    LastByte(text, p);
    hide LineEnd, Join, LinesFrom;
    JoinFirst(text[p..|text|], []);
  }

  lemma FirstLine(text: Text, p: nat)
    requires p < |text|
    ensures var e := LineEnd(text, p);
      LinesFrom(text, p) == [text[p..e]] + if e == |text| then [] else LinesFrom(text, e + 1)
  {
  }

  lemma JoinFirst(line: Text, lines: seq<Text>)
    ensures Join([line] + lines) == line + [NEWLINE] + Join(lines)
    ensures Join([]) == []
  {
    assert ([line] + lines)[1..] == lines;
  }

  lemma CutAtNewline(text: Text, p: nat, e: nat, end: Text)
    requires p <= e < |text| && text[e] == NEWLINE
    ensures text[p..] + end == text[p..e] + [NEWLINE] + (text[e + 1..] + end)
  {
  }

  lemma LastByte(text: Text, p: nat)
    requires p < |text| && NoNewline(text, p, |text|)
    ensures text[|text| - 1] != NEWLINE && text[p..|text|] == text[p..]
  {
  }

  /** The text ends in a line of one byte without a newline, which the indexer drops. */
  predicate DropsLast(text: Text) {
    && text != [] && text[|text| - 1] != NEWLINE
    && (|text| == 1 || text[|text| - 2] == NEWLINE)
  }

  /** The lines the indexer keeps. */
  function Kept(text: Text): seq<Text> {
    var lines := AllLines(text);
    if DropsLast(text) && lines != [] then lines[..|lines| - 1] else lines
  }

  /** Every line is kept, exactly unless the text ends in an unterminated line of one byte. */
  lemma KeptExactly(text: Text)
    ensures Kept(text) == AllLines(text) <==> !DropsLast(text)
  {
    if DropsLast(text) {
      assert |LinesFrom(text, 0)| > 0;
    }
  }

  /** Lines too long for the index become empty. */
  function Shorten(limit: nat, line: Text): Text {
    if |line| + 1 >= limit then [] else line
  }

  function ShortenAll(limit: nat, lines: seq<Text>): (r: seq<Text>)
    ensures |r| == |lines| && forall i | 0 <= i < |r| :: r[i] == Shorten(limit, lines[i])
  {
    seq(|lines|, i requires 0 <= i < |lines| => Shorten(limit, lines[i]))
  }

  /** The lines that end in a newline, before `p`. */
  function LinesBefore(text: Text, p: nat): seq<Text>
    requires p <= |text| && (p == 0 || text[p - 1] == NEWLINE)
    decreases p
  {
    if p == 0 then []
    else
      var a := LineStart(text, p - 1);
      LinesBefore(text, a) + [text[a..p - 1]]
  }

  /** What has been read and what has not are all the lines. */
  lemma {:induction false} BeforeAndFrom(text: Text, p: nat)
    requires p <= |text| && (p == 0 || text[p - 1] == NEWLINE)
    ensures LinesBefore(text, p) + LinesFrom(text, p) == AllLines(text)
    decreases p
  {
    if p > 0 {
      var a := LineStart(text, p - 1);
      BeforeAndFrom(text, a);
      AroundLine(text, a, p);
      hide LineEnd, LineStart, LinesFrom, LinesBefore;
      assert LinesBefore(text, p) + LinesFrom(text, p) == LinesBefore(text, a) + ([text[a..p - 1]] + LinesFrom(text, p));
    }
  }

  lemma AroundLine(text: Text, a: nat, p: nat)
    requires 0 < p <= |text| && text[p - 1] == NEWLINE && a == LineStart(text, p - 1)
    ensures a < p && LinesBefore(text, p) == LinesBefore(text, a) + [text[a..p - 1]]
    ensures LinesFrom(text, a) == [text[a..p - 1]] + LinesFrom(text, p)
  {
    hide LineEnd, LinesFrom, LineStart;
    EndIs(text, a, p - 1);
    FirstLine(text, a);
    NothingAtEnd(text);
  }

  lemma NothingAtEnd(text: Text)
    ensures LinesFrom(text, |text|) == []
  {
  }

  lemma {:induction false} EndIs(text: Text, a: nat, e: nat)
    requires a <= e < |text| && NoNewline(text, a, e) && text[e] == NEWLINE
    ensures LineEnd(text, a) == e
    decreases e - a
  {
    if a < e {
      EndIs(text, a + 1, e);
    }
  }

  lemma NextLine(text: Text, p: nat, e: nat)
    requires p <= e < |text| && (p == 0 || text[p - 1] == NEWLINE) && NoNewline(text, p, e) && text[e] == NEWLINE
    ensures LinesBefore(text, e + 1) == LinesBefore(text, p) + [text[p..e]]
  {
    StartIs(text, p, e);
  }

  lemma {:induction false} StartIs(text: Text, p: nat, e: nat)
    requires p <= e <= |text| && (p == 0 || text[p - 1] == NEWLINE) && NoNewline(text, p, e)
    ensures LineStart(text, e) == p
  {
    if p < e {
      StartIs(text, p, e - 1);
    }
  }

  /** At the end of the loop over newlines, at most one unterminated line is left. */
  lemma LastLine(text: Text, p: nat)
    requires p <= |text| && (p == 0 || text[p - 1] == NEWLINE) && LineEnd(text, p) == |text|
    ensures p + 1 < |text| ==> Kept(text) == LinesBefore(text, p) + [text[p..]]
    ensures p + 1 >= |text| ==> Kept(text) == LinesBefore(text, p)
  {
    BeforeAndFrom(text, p);
    WhatIsLeft(text, p);
    hide LinesFrom, LinesBefore, LineEnd, LineStart;
  }

  lemma WhatIsLeft(text: Text, p: nat)
    requires p <= |text| && (p == 0 || text[p - 1] == NEWLINE) && LineEnd(text, p) == |text|
    ensures p < |text| ==> LinesFrom(text, p) == [text[p..]]
    ensures p == |text| ==> LinesFrom(text, p) == []
    ensures DropsLast(text) <==> p + 1 == |text|
  {
    if p < |text| {
      LastByte(text, p);
      hide LineEnd;
      if p + 1 < |text| {
        assert text[|text| - 2] != NEWLINE;
      }
    }
  }

  // ----- The lines of a file, by their bytes -----

  /** How many newlines come before `p`. */
  function Newlines(text: Text, p: nat): nat
    requires p <= |text|
  {
    multiset(text[..p])['\n' as int]
  }

  /** The bytes `a..b` are line `n` of the file, counted from 0; a last line without a newline is not empty. */
  predicate LineOf(text: Text, n: nat, a: int, b: int) {
    && 0 <= a <= b <= |text| && (a == 0 || text[a - 1] == '\n' as int)
    && (forall k | a <= k < b :: text[k] != '\n' as int)
    && (if b < |text| then text[b] == '\n' as int else a < b)
    && Newlines(text, a) == n
  }

  /** All lines but an unterminated last one of one byte. */
  predicate KeptLine(text: Text, n: nat, a: int, b: int) {
    LineOf(text, n, a, b) && !(b == |text| && b == a + 1)
  }

  /** How many lines that makes. */
  function LineCount(text: Text): nat {
    var last := |text| - 1;
    Newlines(text, |text|)
    + if last >= 1 && text[last] != '\n' as int && text[last - 1] != '\n' as int then 1 else 0
  }

  lemma NewlinesNext(text: Text, p: nat)
    requires p < |text|
    ensures Newlines(text, p + 1) == Newlines(text, p) + if text[p] == '\n' as int then 1 else 0
  {
    assert text[..p + 1] == text[..p] + [text[p]];
  }

  lemma {:induction false} NewlinesWithin(text: Text, a: nat, b: nat)
    requires a <= b <= |text| && NoNewline(text, a, b)
    ensures Newlines(text, b) == Newlines(text, a)
    decreases b - a
  {
    if a < b {
      NewlinesWithin(text, a, b - 1);
      NewlinesNext(text, b - 1);
    }
  }

  /** Between two line starts there is a newline. */
  lemma {:induction false} NewlinesGrow(text: Text, a: nat, b: nat)
    requires a <= b <= |text|
    ensures Newlines(text, a) <= Newlines(text, b)
    ensures a < b && text[b - 1] == '\n' as int ==> Newlines(text, a) < Newlines(text, b)
    decreases b - a
  {
    if a < b {
      NewlinesGrow(text, a, b - 1);
      NewlinesNext(text, b - 1);
    }
  }

  /** A line is determined by its number. */
  lemma LineOfUnique(text: Text, n: nat, a: int, b: int, c: int, d: int)
    requires LineOf(text, n, a, b) && LineOf(text, n, c, d)
    ensures a == c && b == d
  {
    hide Newlines;
    if a < c {
      NewlinesGrow(text, a, c);
    } else if c < a {
      NewlinesGrow(text, c, a);
    }
  }

  ghost predicate NumberedLine(text: Text, n: nat, line: Text) {
    exists a, b :: LineOf(text, n, a, b) && line == text[a..b]
  }

  /** These are the lines from line `m` on. */
  ghost predicate LinesAre(text: Text, m: nat, lines: seq<Text>) {
    forall k | 0 <= k < |lines| :: NumberedLine(text, m + k, lines[k])
  }

  /** One line more if the text does not end in a newline. */
  function Unterminated(text: Text, p: nat): nat {
    if p < |text| && text[|text| - 1] != '\n' as int then 1 else 0
  }

  /** Splitting gives the lines by their numbers, and all of them. */
  lemma {:induction false} LinesFromAre(text: Text, p: nat)
    requires p <= |text| && (p == 0 || text[p - 1] == '\n' as int)
    ensures LinesAre(text, Newlines(text, p), LinesFrom(text, p))
    ensures |LinesFrom(text, p)| == Newlines(text, |text|) - Newlines(text, p) + Unterminated(text, p)
    decreases |text| - p
  {
    hide LinesFrom, LineEnd, Newlines, NumberedLine, LinesAre;
    if p < |text| {
      var e, m := LineEnd(text, p), Newlines(text, p);
      NewlinesWithin(text, p, e);
      FirstLine(text, p);
      FirstIsLine(text, p, e);
      if e < |text| {
        NewlinesNext(text, e);
        LinesFromAre(text, e + 1);
        LinesAreNext(text, m, text[p..e], LinesFrom(text, e + 1));
      } else {
        NoLinesAre(text, m + 1);
        LinesAreNext(text, m, text[p..e], []);
        assert [text[p..e]] + [] == [text[p..e]];
        assert text[|text| - 1] != '\n' as int;
      }
    } else {
      NothingAtEnd(text);
      NoLinesAre(text, Newlines(text, p));
    }
  }

  lemma NoLinesAre(text: Text, m: nat)
    ensures LinesAre(text, m, [])
  {
  }

  lemma FirstIsLine(text: Text, p: nat, e: nat)
    requires p < |text| && (p == 0 || text[p - 1] == '\n' as int) && e == LineEnd(text, p)
    ensures NumberedLine(text, Newlines(text, p), text[p..e])
  {
    assert LineOf(text, Newlines(text, p), p, e);
  }

  lemma LinesAreNext(text: Text, m: nat, line: Text, rest: seq<Text>)
    requires NumberedLine(text, m, line) && LinesAre(text, m + 1, rest)
    ensures LinesAre(text, m, [line] + rest)
  {
    hide NumberedLine;
    var lines := [line] + rest;
    forall k | 0 <= k < |lines| ensures NumberedLine(text, m + k, lines[k]) {
      if k > 0 {
        assert lines[k] == rest[k - 1] && NumberedLine(text, m + 1 + (k - 1), rest[k - 1]);
      }
    }
  }

  ghost predicate NumberedKept(text: Text, n: nat, line: Text) {
    exists a, b :: KeptLine(text, n, a, b) && line == text[a..b]
  }

  /** The lines kept are the kept ones by their bytes and numbers, and all of them. */
  lemma KeptIs(text: Text)
    ensures |Kept(text)| == LineCount(text)
    ensures forall n | 0 <= n < |Kept(text)| :: NumberedKept(text, n, Kept(text)[n])
  {
    hide LinesFrom, Newlines, NumberedKept, LinesAre;
    LinesFromAre(text, 0);
    EndCounts(text);
    forall n | 0 <= n < |Kept(text)| ensures NumberedKept(text, n, Kept(text)[n]) {
      LineAt(text, AllLines(text), n);
      LineIsKept(text, n, AllLines(text)[n]);
    }
  }

  lemma LineAt(text: Text, lines: seq<Text>, n: nat)
    requires LinesAre(text, 0, lines) && n < |lines|
    ensures NumberedLine(text, n, lines[n])
  {
    assert NumberedLine(text, 0 + n, lines[n]);
  }

  /** Only the line after the last newline may be dropped. */
  lemma LineIsKept(text: Text, n: nat, line: Text)
    requires NumberedLine(text, n, line) && (DropsLast(text) ==> n != Newlines(text, |text|))
    ensures NumberedKept(text, n, line)
  {
    hide Newlines;
    var a, b :| LineOf(text, n, a, b) && line == text[a..b];
    if b == |text| && b == a + 1 {
      EndCounts(text);
      assert false;
    }
    assert KeptLine(text, n, a, b);
  }

  lemma EndCounts(text: Text)
    ensures Newlines(text, 0) == 0
    ensures text != [] && text[|text| - 1] != '\n' as int ==> Newlines(text, |text| - 1) == Newlines(text, |text|)
  {
    if text != [] {
      NewlinesNext(text, |text| - 1);
    }
  }

  lemma KeptBelow(text: Text, n: nat, a: int, b: int)
    requires KeptLine(text, n, a, b)
    ensures n < LineCount(text)
  {
    NewlinesWithin(text, a, b);
    if b < |text| {
      NewlinesNext(text, b);
      NewlinesGrow(text, b + 1, |text|);
    }
  }

  /** A line as the index has it: empty if it is too long, its newline counted. */
  ghost predicate SearchedLine(text: Text, limit: nat, n: nat, line: Text) {
    exists a, b :: KeptLine(text, n, a, b) && line == if b - a + 1 < limit then text[a..b] else []
  }

  lemma SearchedIs(text: Text, limit: nat, n: nat, line: Text)
    ensures SearchedLine(text, limit, n, line) <==> n < |Kept(text)| && line == Shorten(limit, Kept(text)[n])
  {
    KeptIs(text);
    hide Newlines, LinesFrom, LineCount;
    if n < |Kept(text)| {
      assert NumberedKept(text, n, Kept(text)[n]);
      var a, b :| KeptLine(text, n, a, b) && Kept(text)[n] == text[a..b];
      assert KeptLine(text, n, a, b) && Shorten(limit, Kept(text)[n]) == if b - a + 1 < limit then text[a..b] else [];
      if c, d :| KeptLine(text, n, c, d) && line == if d - c + 1 < limit then text[c..d] else [] {
        LineOfUnique(text, n, a, b, c, d);
      }
    } else if a, b :| KeptLine(text, n, a, b) {
      KeptBelow(text, n, a, b);
    }
  }
}
