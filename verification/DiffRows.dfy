/** Hunks of a unified diff, and their rows side by side. */
module DiffRows {
  import opened Bytes

  datatype LineType = AddLine | DeleteLine | ContextLine | NoNewlineLine | HunkLine | UnknownLine

  function TypeOf(line: Text): LineType {
    if line == [] then UnknownLine
    else if line[0] == '+' as int then AddLine
    else if line[0] == '-' as int then DeleteLine
    else if line[0] == ' ' as int then ContextLine
    else if line[0] == '\\' as int then NoNewlineLine
    else
      UnknownLine
  }

  datatype DiffLine = DiffLine(text: Text, kind: LineType, oldNumber: int, newNumber: int)

  predicate WellTyped(line: DiffLine) {
    line.kind != HunkLine ==> line.text != []
  }

  function Content(line: DiffLine): Text
    requires line.text != []
  {
    line.text[1..]
  }

  datatype Cell = Cell(content: Text, number: int)

  datatype Row =
    | ModifiedRow(before: Cell, after: Cell)
    | DeletedRow(data: Cell)
    | AddedRow(data: Cell)
    | ContextRow(content: Text, beforeNumber: int, afterNumber: int)
    | HunkRow(header: Text, index: nat)

  // ----- The two sides -----

  function LeftOf(row: Row): seq<Cell> {
    match row
    case ModifiedRow(before, _) => [before]
    case DeletedRow(data) => [data]
    case ContextRow(content, n, _) => [Cell(content, n)]
    case _ => []
  }

  function RightOf(row: Row): seq<Cell> {
    match row
    case ModifiedRow(_, after) => [after]
    case AddedRow(data) => [data]
    case ContextRow(content, _, n) => [Cell(content, n)]
    case _ => []
  }

  function HeaderOf(row: Row): seq<Text> {
    if row.HunkRow? then [row.header] else []
  }

  /** What the rows hold, in their order. */
  function Gather<T>(rows: seq<Row>, of: Row -> seq<T>): seq<T> {
    if rows == [] then [] else Gather(rows[..|rows| - 1], of) + of(rows[|rows| - 1])
  }

  /** The cells on the left. */
  function Left(rows: seq<Row>): seq<Cell> {
    Gather(rows, LeftOf)
  }

  function Right(rows: seq<Row>): seq<Cell> {
    Gather(rows, RightOf)
  }

  function Headers(rows: seq<Row>): seq<Text> {
    Gather(rows, HeaderOf)
  }

  predicate AllTyped(lines: seq<DiffLine>) {
    forall i | 0 <= i < |lines| :: WellTyped(lines[i])
  }

  /** The old version of a hunk: its context and deleted lines. */
  function OldSide(lines: seq<DiffLine>): seq<Cell>
    requires AllTyped(lines)
  {
    if lines == [] then []
    else
      var l := lines[|lines| - 1];
      OldSide(lines[..|lines| - 1]) +
      if l.kind == ContextLine || l.kind == DeleteLine then [Cell(Content(l), l.oldNumber)] else []
  }

  function NewSide(lines: seq<DiffLine>): seq<Cell>
    requires AllTyped(lines)
  {
    if lines == [] then []
    else
      var l := lines[|lines| - 1];
      NewSide(lines[..|lines| - 1]) +
      if l.kind == ContextLine || l.kind == AddLine then [Cell(Content(l), l.newNumber)] else []
  }

  /** Both sides of some rows. */
  ghost predicate Shows(rows: seq<Row>, l: seq<Cell>, r: seq<Cell>) {
    Left(rows) == l && Right(rows) == r
  }

  lemma {:induction false} GatherAppend<T>(a: seq<Row>, b: seq<Row>, of: Row -> seq<T>)
    ensures Gather(a + b, of) == Gather(a, of) + Gather(b, of)
  {
    if b == [] {
      assert a + b == a;
    } else {
      var n := |b| - 1;
      assert (a + b)[..|a + b| - 1] == a + b[..n];
      GatherAppend(a, b[..n], of);
    }
  }

  lemma RowsAppend(a: seq<Row>, b: seq<Row>)
    ensures Left(a + b) == Left(a) + Left(b) && Right(a + b) == Right(a) + Right(b) && Headers(a + b) == Headers(a) + Headers(b)
  {
    GatherAppend(a, b, LeftOf);
    GatherAppend(a, b, RightOf);
    GatherAppend(a, b, HeaderOf);
  }

  lemma SidePush(lines: seq<DiffLine>, l: DiffLine)
    requires AllTyped(lines) && WellTyped(l)
    ensures AllTyped(lines + [l])
    ensures OldSide(lines + [l]) == OldSide(lines) + OldSide([l]) && NewSide(lines + [l]) == NewSide(lines) + NewSide([l])
  {
    assert (lines + [l])[..|lines|] == lines && [l][..0] == [];
  }

  // ----- Parsing a hunk -----

  predicate Starts(line: Text, c: char) {
    line != [] && line[0] == c as int
  }

  /** A line of a hunk. */
  predicate IsBody(line: Text) {
    Starts(line, '+') || Starts(line, '-') || Starts(line, ' ')
  }

  /** The marker of a missing newline. */
  predicate IsMarker(line: Text) {
    Starts(line, '\\') && |line| >= 12
  }

  /** The lines of the hunk: up to the first that is none, without the markers of a missing newline. */
  function Body(input: seq<Text>): (body: seq<Text>)
    ensures forall i | 0 <= i < |body| :: IsBody(body[i])
  {
    if input == [] then []
    else if IsBody(input[0]) then [input[0]] + Body(input[1..])
    else if IsMarker(input[0]) then Body(input[1..])
    else
      []
  }

  /** The line that ends the hunk is empty, and its first byte is asked for all the same. */
  predicate StopsAtEmpty(input: seq<Text>) {
    && input != []
    && (input[0] == [] || ((IsBody(input[0]) || IsMarker(input[0])) && StopsAtEmpty(input[1..])))
  }

  lemma TypeIs(line: Text)
    ensures TypeOf(line) == AddLine <==> Starts(line, '+')
    ensures TypeOf(line) == DeleteLine <==> Starts(line, '-')
    ensures TypeOf(line) == ContextLine <==> Starts(line, ' ')
    ensures TypeOf(line) == NoNewlineLine <==> Starts(line, '\\')
    ensures TypeOf(line) in {AddLine, DeleteLine, ContextLine} <==> IsBody(line)
    ensures line == [] ==> TypeOf(line) == UnknownLine
    ensures TypeOf(line) in {AddLine, DeleteLine, ContextLine, NoNewlineLine, UnknownLine}
  {
  }

  /** The contents of the context lines and of those that start with the sign. */
  function Contents(lines: seq<Text>, sign: char): seq<Text>
    requires forall i | 0 <= i < |lines| :: lines[i] != []
  {
    if lines == [] then []
    else
      Contents(lines[..|lines| - 1], sign) +
      if Starts(lines[|lines| - 1], ' ') || Starts(lines[|lines| - 1], sign) then [lines[|lines| - 1][1..]] else []
  }

  /** These texts, numbered from `start` on. */
  function Numbered(texts: seq<Text>, start: int): (r: seq<Cell>)
    ensures |r| == |texts|
  {
    seq(|texts|, i requires 0 <= i < |texts| => Cell(texts[i], start + i))
  }

  lemma NumberedPush(texts: seq<Text>, t: Text, start: int)
    ensures Numbered(texts + [t], start) == Numbered(texts, start) + [Cell(t, start + |texts|)]
  {
  }

  function Line(text: Text, oldNumber: int, newNumber: int): DiffLine {
    match TypeOf(text)
    case AddLine => DiffLine(text, AddLine, 0, newNumber)
    case DeleteLine => DiffLine(text, DeleteLine, oldNumber, 0)
    case _ => DiffLine(text, ContextLine, oldNumber, newNumber)
  }

  /** The lines of the first `done` texts of the body have been added, and the counters are past them. */
  ghost predicate Parsed(lines: seq<DiffLine>, body: seq<Text>, done: nat, before: int, after: int, oldStart: int, newStart: int) {
    && AllTyped(lines) && done <= |body| && (forall i | 0 <= i < |body| :: body[i] != [])
    && OldSide(lines) == Numbered(Contents(body[..done], '-'), oldStart)
    && NewSide(lines) == Numbered(Contents(body[..done], '+'), newStart)
    && before == oldStart + |Contents(body[..done], '-')|
    && after == newStart + |Contents(body[..done], '+')|
  }

  /** What a hunk is made of: its header, and then these texts in their order, each for what its first byte says. */
  predicate HunkLines(lines: seq<DiffLine>, header: Text, body: seq<Text>) {
    && |lines| == 1 + |body| && lines[0] == DiffLine(header, HunkLine, 0, 0)
    && forall k | 0 <= k < |body| :: IsLineOf(lines[k + 1], body[k])
  }

  predicate IsLineOf(line: DiffLine, text: Text) {
    && line.text == text && text != []
    && line.kind == if text[0] == '+' as int then AddLine else if text[0] == '-' as int then DeleteLine else ContextLine
  }

  /**
   * `parseGitDiffHunk`, with the numbers of the hunk's header: the old side of
   * the hunk is its context and deleted lines, numbered consecutively from the
   * old start, and the new side its context and added lines from the new one.
   * An empty line at the end of the hunk is an index out of range.
   */
  method ParseHunk(header: Text, oldStart: int, newStart: int, input: seq<Text>) returns (ok: bool, lines: seq<DiffLine>)
    ensures ok <==> !StopsAtEmpty(input)
    ensures AllTyped(lines) && HunkLines(lines, header, Body(input))
    ensures (forall i | 0 <= i < |Body(input)| :: Body(input)[i] != [])
    ensures OldSide(lines) == Numbered(Contents(Body(input), '-'), oldStart)
    ensures NewSide(lines) == Numbered(Contents(Body(input), '+'), newStart)
  {
    ghost var body, done := Body(input), 0;
    var before, after := oldStart, newStart;
    ok, lines := true, [DiffLine(header, HunkLine, 0, 0)];
    HeaderSides(lines, body, oldStart, newStart);
    ReadNone(input);
    assert body[..0] == [];
    hide Parsed, Contents, OldSide, NewSide, TypeOf, Line, Body, StopsAtEmpty, HunkLines, ReadTo, Starts;
    var i := 0;
    while i < |input|
      invariant done <= |body| && HunkLines(lines, header, body[..done]) && Parsed(lines, body, done, before, after, oldStart, newStart)
      invariant i <= |input| && ReadTo(input, i, body, done)
    {
      var line := input[i];
      ReadLine(input, i, body, done);
      TypeIs(line);
      var kind := TypeOf(line);
      if kind == UnknownLine {
        ok := line != [];
        break;
      }
      i := i + 1;
      if kind == NoNewlineLine {
        if |line| < 12 {
          break;
        }
        continue;
      }
      NextLine(lines, body, done, line, before, after, oldStart, newStart);
      HunkGrows(lines, header, body, done, Line(line, before, after));
      lines := lines + [Line(line, before, after)];
      if kind != AddLine {
        before := before + 1;
      }
      if kind != DeleteLine {
        after := after + 1;
      }
      done := done + 1;
    }
    if i == |input| {
      ReadAll(input, body, done);
    }
    assert body[..|body|] == body;
    WhatIsParsed(lines, body, before, after, oldStart, newStart);
  }

  lemma HunkGrows(lines: seq<DiffLine>, header: Text, body: seq<Text>, done: nat, line: DiffLine)
    requires done < |body| && HunkLines(lines, header, body[..done]) && IsLineOf(line, body[done])
    ensures HunkLines(lines + [line], header, body[..done + 1])
  {
    assert body[..done + 1] == body[..done] + [body[done]];
  }

  lemma WhatIsParsed(lines: seq<DiffLine>, body: seq<Text>, before: int, after: int, oldStart: int, newStart: int)
    requires Parsed(lines, body, |body|, before, after, oldStart, newStart)
    ensures AllTyped(lines)
    ensures OldSide(lines) == Numbered(Contents(body, '-'), oldStart)
    ensures NewSide(lines) == Numbered(Contents(body, '+'), newStart)
  {
    assert body[..|body|] == body;
  }

  /** The lines before `i` have been read, among them `done` of the body, and none ends the hunk. */
  ghost predicate ReadTo(input: seq<Text>, i: nat, body: seq<Text>, done: nat) {
    && i <= |input| && done <= |body| && body[done..] == Body(input[i..])
    && (StopsAtEmpty(input) <==> StopsAtEmpty(input[i..]))
  }

  lemma ReadNone(input: seq<Text>)
    ensures ReadTo(input, 0, Body(input), 0)
  {
    assert input[0..] == input;
  }

  lemma ReadLine(input: seq<Text>, i: nat, body: seq<Text>, done: nat)
    requires i < |input| && ReadTo(input, i, body, done)
    ensures if IsBody(input[i]) then done < |body| && body[done] == input[i] && ReadTo(input, i + 1, body, done + 1)
      else if IsMarker(input[i]) then ReadTo(input, i + 1, body, done)
      else done == |body| && (StopsAtEmpty(input) <==> input[i] == [])
  {
    assert input[i..][0] == input[i] && input[i..][1..] == input[i + 1..];
    assert done < |body| ==> body[done..][0] == body[done] && body[done..][1..] == body[done + 1..];
  }

  lemma ReadAll(input: seq<Text>, body: seq<Text>, done: nat)
    requires ReadTo(input, |input|, body, done)
    ensures done == |body| && !StopsAtEmpty(input)
  {
  }

  lemma HeaderSides(lines: seq<DiffLine>, body: seq<Text>, oldStart: int, newStart: int)
    requires |lines| == 1 && lines[0].kind == HunkLine && forall i | 0 <= i < |body| :: body[i] != []
    ensures Parsed(lines, body, 0, oldStart, newStart, oldStart, newStart)
  {
    assert lines[..0] == [] && body[..0] == [];
  }

  lemma ContentsNext(body: seq<Text>, done: nat, sign: char)
    requires done < |body| && forall i | 0 <= i < |body| :: body[i] != []
    ensures Contents(body[..done + 1], sign) ==
      Contents(body[..done], sign) + if Starts(body[done], ' ') || Starts(body[done], sign) then [body[done][1..]] else []
  {
    assert body[..done + 1][..done] == body[..done];
  }

  lemma NextLine(lines: seq<DiffLine>, body: seq<Text>, done: nat, line: Text, before: int, after: int, oldStart: int, newStart: int)
    requires Parsed(lines, body, done, before, after, oldStart, newStart)
    requires done < |body| && body[done] == line && TypeOf(line) in {AddLine, DeleteLine, ContextLine}
    ensures IsLineOf(Line(line, before, after), line)
    ensures Parsed(lines + [Line(line, before, after)], body, done + 1,
                   before + (if TypeOf(line) == AddLine then 0 else 1), after + (if TypeOf(line) == DeleteLine then 0 else 1),
                   oldStart, newStart)
  {
    TypeIs(line);
    hide Contents, OldSide, NewSide, Numbered, TypeOf;
    OldNext(lines, body, done, line, before, after, oldStart);
    NewNext(lines, body, done, line, before, after, newStart);
  }

  lemma OldNext(lines: seq<DiffLine>, body: seq<Text>, done: nat, line: Text, before: int, after: int, oldStart: int)
    requires AllTyped(lines) && done < |body| && body[done] == line && forall i | 0 <= i < |body| :: body[i] != []
    requires TypeOf(line) in {AddLine, DeleteLine, ContextLine}
    requires OldSide(lines) == Numbered(Contents(body[..done], '-'), oldStart)
    requires before == oldStart + |Contents(body[..done], '-')|
    ensures AllTyped(lines + [Line(line, before, after)])
    ensures OldSide(lines + [Line(line, before, after)]) == Numbered(Contents(body[..done + 1], '-'), oldStart)
    ensures |Contents(body[..done + 1], '-')| == before - oldStart + if TypeOf(line) == AddLine then 0 else 1
  {
    TypeIs(line);
    hide Contents, OldSide, NewSide, Numbered, TypeOf;
    var l := Line(line, before, after);
    assert WellTyped(l) && l.kind == TypeOf(line) && Content(l) == line[1..] && (l.kind != AddLine ==> l.oldNumber == before);
    SidePush(lines, l);
    OneSide(l);
    ContentsNext(body, done, '-');
    assert OldSide(lines) + [] == OldSide(lines) && Contents(body[..done], '-') + [] == Contents(body[..done], '-');
    hide AllTyped, Line;
    NumberedPush(Contents(body[..done], '-'), line[1..], oldStart);
  }

  lemma NewNext(lines: seq<DiffLine>, body: seq<Text>, done: nat, line: Text, before: int, after: int, newStart: int)
    requires AllTyped(lines) && done < |body| && body[done] == line && forall i | 0 <= i < |body| :: body[i] != []
    requires TypeOf(line) in {AddLine, DeleteLine, ContextLine}
    requires NewSide(lines) == Numbered(Contents(body[..done], '+'), newStart)
    requires after == newStart + |Contents(body[..done], '+')|
    ensures AllTyped(lines + [Line(line, before, after)])
    ensures NewSide(lines + [Line(line, before, after)]) == Numbered(Contents(body[..done + 1], '+'), newStart)
    ensures |Contents(body[..done + 1], '+')| == after - newStart + if TypeOf(line) == DeleteLine then 0 else 1
  {
    TypeIs(line);
    hide Contents, OldSide, NewSide, Numbered, TypeOf;
    var l := Line(line, before, after);
    assert WellTyped(l) && l.kind == TypeOf(line) && Content(l) == line[1..] && (l.kind != DeleteLine ==> l.newNumber == after);
    SidePush(lines, l);
    OneSide(l);
    ContentsNext(body, done, '+');
    assert NewSide(lines) + [] == NewSide(lines) && Contents(body[..done], '+') + [] == Contents(body[..done], '+');
    hide AllTyped, Line;
    NumberedPush(Contents(body[..done], '+'), line[1..], newStart);
  }

  lemma OneSide(l: DiffLine)
    requires WellTyped(l)
    ensures OldSide([l]) == if l.kind == ContextLine || l.kind == DeleteLine then [Cell(Content(l), l.oldNumber)] else []
    ensures NewSide([l]) == if l.kind == ContextLine || l.kind == AddLine then [Cell(Content(l), l.newNumber)] else []
  {
    assert [l][..0] == [];
  }

  // ----- Rows -----

  predicate Changes(lines: seq<DiffLine>) {
    AllTyped(lines) && forall i | 0 <= i < |lines| :: lines[i].kind in {AddLine, DeleteLine}
  }

  /** The deleted and the added lines of a run of changes. */
  method SplitChanges(lines: seq<DiffLine>) returns (deleted: seq<Cell>, added: seq<Cell>)
    requires Changes(lines)
    ensures deleted == OldSide(lines) && added == NewSide(lines)
  {
    added, deleted := [], [];
    for i := 0 to |lines|
      invariant deleted == OldSide(lines[..i]) && added == NewSide(lines[..i])
    {
      assert lines[..i + 1][..i] == lines[..i];
      if lines[i].kind == AddLine {
        added := added + [Cell(Content(lines[i]), lines[i].newNumber)];
      } else {
        deleted := deleted + [Cell(Content(lines[i]), lines[i].oldNumber)];
      }
    }
    assert lines[..|lines|] == lines;
  }

  lemma MoreShown(rows: seq<Row>, x: Row)
    ensures Left(rows + [x]) == Left(rows) + LeftOf(x) && Right(rows + [x]) == Right(rows) + RightOf(x)
    ensures Headers(rows + [x]) == Headers(rows) + HeaderOf(x)
  {
    assert (rows + [x])[..|rows|] == rows;
  }

  /** Row `i` of a run with these deletions and additions: both, as far as both go, then what is left of either. */
  function PairedRow(deleted: seq<Cell>, added: seq<Cell>, i: nat): Row
    requires i < |deleted| || i < |added|
  {
    if i < |deleted| && i < |added| then ModifiedRow(deleted[i], added[i])
    else if i < |deleted| then DeletedRow(deleted[i])
    else
      AddedRow(added[i])
  }

  function Paired(deleted: seq<Cell>, added: seq<Cell>): (rows: seq<Row>) {
    var n := if |deleted| >= |added| then |deleted| else |added|;
    seq(n, i requires 0 <= i < n => PairedRow(deleted, added, i))
  }

  /** `getModifiedDiffRows`: additions and deletions paired as far as they go. */
  method ModifiedRows(lines: seq<DiffLine>) returns (rows: seq<Row>)
    requires Changes(lines)
    ensures rows == Paired(OldSide(lines), NewSide(lines))
    ensures Shows(rows, OldSide(lines), NewSide(lines)) && Headers(rows) == []
  {
    hide Left, Right, Headers, OldSide, NewSide;
    var deleted, added := SplitChanges(lines);
    rows := [];
    NoRows();
    var i := 0;
    while i < |added| && i < |deleted|
      invariant i <= |added| && i <= |deleted| && Left(rows) == deleted[..i] && Right(rows) == added[..i] && Headers(rows) == []
      invariant |rows| == i && forall k | 0 <= k < i :: rows[k] == PairedRow(deleted, added, k)
      decreases |added| - i
    {
      MoreShown(rows, ModifiedRow(deleted[i], added[i]));
      rows := rows + [ModifiedRow(deleted[i], added[i])];
      i := i + 1;
    }
    for k := i to |deleted|
      invariant Left(rows) == deleted[..k] && Right(rows) == added[..i] && Headers(rows) == []
      invariant |rows| == k && forall j | 0 <= j < k :: rows[j] == PairedRow(deleted, added, j)
    {
      MoreShown(rows, DeletedRow(deleted[k]));
      rows := rows + [DeletedRow(deleted[k])];
    }
    for k := i to |added|
      invariant Left(rows) == deleted && Right(rows) == added[..k] && Headers(rows) == []
      invariant |rows| == |deleted| - i + k && forall j | 0 <= j < |rows| :: rows[j] == PairedRow(deleted, added, j)
    {
      MoreShown(rows, AddedRow(added[k]));
      rows := rows + [AddedRow(added[k])];
    }
  }

  lemma NoRows()
    ensures Left([]) == [] && Right([]) == [] && Headers([]) == []
  {
  }

  /** The headers among the lines of a hunk. */
  function HeaderTexts(lines: seq<DiffLine>): seq<Text> {
    if lines == [] then []
    else HeaderTexts(lines[..|lines| - 1]) + if lines[|lines| - 1].kind == HunkLine then [lines[|lines| - 1].text] else []
  }

  /** The rows made so far and the changes still held back show the lines read so far. */
  ghost predicate Shown(rows: seq<Row>, modified: seq<DiffLine>, lines: seq<DiffLine>) {
    && AllTyped(lines) && Changes(modified)
    && Left(rows) + OldSide(modified) == OldSide(lines) && Right(rows) + NewSide(modified) == NewSide(lines)
    && Headers(rows) == HeaderTexts(lines)
  }

  lemma HeldBack(rows: seq<Row>, modified: seq<DiffLine>, lines: seq<DiffLine>, line: DiffLine)
    requires Shown(rows, modified, lines) && WellTyped(line) && line.kind in {AddLine, DeleteLine}
    ensures Shown(rows, modified + [line], lines + [line])
  {
    hide OldSide, NewSide, Left, Right, Headers, HeaderTexts;
    SidePush(modified, line);
    SidePush(lines, line);
    HeaderPush(lines, line);
    HeldSides(Left(rows), OldSide(modified), OldSide([line]));
    HeldSides(Right(rows), NewSide(modified), NewSide([line]));
    assert HeaderTexts(lines) + [] == HeaderTexts(lines);
  }

  lemma HeldSides(a: seq<Cell>, b: seq<Cell>, c: seq<Cell>)
    ensures a + (b + c) == a + b + c
  {
  }

  lemma Flushed(rows: seq<Row>, modified: seq<DiffLine>, lines: seq<DiffLine>, more: seq<Row>)
    requires Shown(rows, modified, lines) && Shows(more, OldSide(modified), NewSide(modified)) && Headers(more) == []
    ensures Shown(rows + more, [], lines)
  {
    hide Left, Right, Headers;
    RowsAppend(rows, more);
    assert OldSide([]) == [] && NewSide([]) == [];
  }

  function RowOf(line: DiffLine, hunkIndex: nat): Row
    requires WellTyped(line) && line.kind in {ContextLine, HunkLine}
  {
    if line.kind == HunkLine then HunkRow(line.text, hunkIndex)
    else
      ContextRow(Content(line), line.oldNumber, line.newNumber)
  }

  lemma NoSides()
    ensures OldSide([]) == [] && NewSide([]) == []
  {
  }

  lemma HeaderPush(lines: seq<DiffLine>, line: DiffLine)
    ensures HeaderTexts(lines + [line]) == HeaderTexts(lines) + if line.kind == HunkLine then [line.text] else []
  {
    assert (lines + [line])[..|lines|] == lines;
  }

  /** The row of a line has the line's cells. */
  lemma RowHas(line: DiffLine, hunkIndex: nat)
    requires WellTyped(line) && line.kind in {ContextLine, HunkLine}
    ensures var row := RowOf(line, hunkIndex);
      && LeftOf(row) == OldSide([line]) && RightOf(row) == NewSide([line])
      && HeaderOf(row) == if line.kind == HunkLine then [line.text] else []
  {
    OneSide(line);
  }

  lemma ShownOne(rows: seq<Row>, lines: seq<DiffLine>, line: DiffLine, hunkIndex: nat)
    requires Shown(rows, [], lines) && WellTyped(line) && line.kind in {ContextLine, HunkLine}
    ensures Shown(rows + [RowOf(line, hunkIndex)], [], lines + [line])
  {
    hide OldSide, NewSide, Left, Right, Headers, HeaderTexts, RowOf, LeftOf, RightOf, HeaderOf;
    NoSides();
    SidePush(lines, line);
    HeaderPush(lines, line);
    RowHas(line, hunkIndex);
    MoreShown(rows, RowOf(line, hunkIndex));
    assert Left(rows) == OldSide(lines) && Right(rows) == NewSide(lines);
  }

  predicate IsChange(line: DiffLine) {
    line.kind == AddLine || line.kind == DeleteLine
  }

  /** How many changes come first. */
  function RunLength(lines: seq<DiffLine>): (n: nat)
    ensures n <= |lines| && (forall i | 0 <= i < n :: IsChange(lines[i])) && (n < |lines| ==> !IsChange(lines[n]))
  {
    if lines != [] && IsChange(lines[0]) then 1 + RunLength(lines[1..]) else 0
  }

  /** The rows of a hunk: the runs of changes paired, and each other line a row of its own between them. */
  function RowsOf(lines: seq<DiffLine>, hunkIndex: nat): seq<Row>
    requires AllTyped(lines)
    decreases |lines|
  {
    if lines == [] then []
    else
      var n := RunLength(lines);
      if n > 0 then Paired(OldSide(lines[..n]), NewSide(lines[..n])) + RowsOf(lines[n..], hunkIndex)
      else
        var line := lines[0];
        [if line.kind == HunkLine then HunkRow(line.text, hunkIndex)
         else ContextRow(line.text[1..], line.oldNumber, line.newNumber)]
        + RowsOf(lines[1..], hunkIndex)
  }

  /** Held-back changes and what follows them: the changes are a run of their own once another line comes. */
  lemma RunFirst(modified: seq<DiffLine>, rest: seq<DiffLine>, hunkIndex: nat)
    requires Changes(modified) && AllTyped(rest) && (rest == [] || !IsChange(rest[0]))
    ensures AllTyped(modified + rest)
    ensures RowsOf(modified + rest, hunkIndex) ==
      (if modified == [] then [] else Paired(OldSide(modified), NewSide(modified))) + RowsOf(rest, hunkIndex)
  {
    var all, n := modified + rest, RunLength(modified + rest);
    assert n == |modified| by {
      assert forall i | 0 <= i < |modified| :: IsChange(modified[i]) && all[i] == modified[i];
      assert rest != [] ==> all[|modified|] == rest[0];
    }
    assert all[..n] == modified && all[n..] == rest;
    if modified == [] {
      assert all == rest;
    }
  }

  /** The rows made so far, those of the changes held back and of the lines from `i` on are all the rows. */
  ghost predicate Made(rows: seq<Row>, modified: seq<DiffLine>, lines: seq<DiffLine>, i: nat, hunkIndex: nat)
    requires AllTyped(lines)
  {
    && i <= |lines| && Changes(modified) && AllTyped(modified + lines[i..])
    && rows + RowsOf(modified + lines[i..], hunkIndex) == RowsOf(lines, hunkIndex)
  }

  lemma MadeNone(lines: seq<DiffLine>, hunkIndex: nat)
    requires AllTyped(lines)
    ensures Made([], [], lines, 0, hunkIndex)
  {
    hide RowsOf;
    assert [] + lines[0..] == lines;
  }

  lemma MadeHeld(rows: seq<Row>, modified: seq<DiffLine>, lines: seq<DiffLine>, i: nat, hunkIndex: nat)
    requires AllTyped(lines) && i < |lines| && Made(rows, modified, lines, i, hunkIndex) && IsChange(lines[i])
    ensures Made(rows, modified + [lines[i]], lines, i + 1, hunkIndex)
  {
    hide RowsOf;
    assert modified + lines[i..] == modified + [lines[i]] + lines[i + 1..];
  }

  /** The rows of the changes held back. */
  function HeldRows(modified: seq<DiffLine>): seq<Row>
    requires AllTyped(modified)
  {
    if modified == [] then [] else Paired(OldSide(modified), NewSide(modified))
  }

  lemma MadeOne(rows: seq<Row>, modified: seq<DiffLine>, lines: seq<DiffLine>, i: nat, hunkIndex: nat)
    requires AllTyped(lines) && i < |lines| && Made(rows, modified, lines, i, hunkIndex)
    requires lines[i].kind in {ContextLine, HunkLine}
    ensures AllTyped(modified) && WellTyped(lines[i])
    ensures Made(rows + HeldRows(modified) + [RowOf(lines[i], hunkIndex)], [], lines, i + 1, hunkIndex)
  {
    var rest := lines[i + 1..];
    RunFirst(modified, lines[i..], hunkIndex);
    OwnRow(lines[i], rest, hunkIndex);
    hide RowsOf, HeldRows, RowOf;
    assert lines[i..] == [lines[i]] + rest && [] + rest == rest;
    Regroup(rows, HeldRows(modified), [RowOf(lines[i], hunkIndex)], RowsOf(rest, hunkIndex));
  }

  lemma Regroup(a: seq<Row>, b: seq<Row>, c: seq<Row>, d: seq<Row>)
    ensures a + b + c + d == a + (b + (c + d))
  {
  }

  lemma MadeAll(rows: seq<Row>, modified: seq<DiffLine>, lines: seq<DiffLine>, hunkIndex: nat)
    requires AllTyped(lines) && Made(rows, modified, lines, |lines|, hunkIndex)
    ensures AllTyped(modified) && rows + HeldRows(modified) == RowsOf(lines, hunkIndex)
  {
    RunFirst(modified, [], hunkIndex);
    assert modified + lines[|lines|..] == modified + [];
    assert RowsOf([], hunkIndex) == [];
  }

  lemma OwnRow(line: DiffLine, rest: seq<DiffLine>, hunkIndex: nat)
    requires WellTyped(line) && line.kind in {ContextLine, HunkLine} && AllTyped(rest)
    ensures AllTyped([line] + rest)
    ensures RowsOf([line] + rest, hunkIndex) == [RowOf(line, hunkIndex)] + RowsOf(rest, hunkIndex)
  {
    assert ([line] + rest)[1..] == rest;
  }

  /** `getDiffRowsFromHunk`: nothing is lost on either side, whatever the runs of changes look like. */
  method RowsFromHunk(lines: seq<DiffLine>, hunkIndex: nat) returns (rows: seq<Row>)
    requires AllTyped(lines) && forall i | 0 <= i < |lines| :: lines[i].kind in {AddLine, DeleteLine, ContextLine, HunkLine}
    ensures rows == RowsOf(lines, hunkIndex)
    ensures Shows(rows, OldSide(lines), NewSide(lines)) && Headers(rows) == HeaderTexts(lines)
  {
    hide Shown, Made, RowOf, OldSide, NewSide, Left, Right, Headers, RowsOf, Paired, Changes;
    rows := [];
    var modified: seq<DiffLine> := [];
    NothingShown(lines);
    MadeNone(lines, hunkIndex);
    assert lines[..|lines|] == lines;
    for i := 0 to |lines|
      invariant Shown(rows, modified, lines[..i]) && Made(rows, modified, lines, i, hunkIndex)
    {
      var line := lines[i];
      assert lines[..i + 1] == lines[..i] + [line];
      if line.kind == AddLine || line.kind == DeleteLine {
        HeldBack(rows, modified, lines[..i], line);
        MadeHeld(rows, modified, lines, i, hunkIndex);
        modified := modified + [line];
        continue;
      }
      MadeOne(rows, modified, lines, i, hunkIndex);
      assert rows + [] == rows;
      if |modified| > 0 {
        HeldIsChanges(rows, modified, lines[..i]);
        var more := ModifiedRows(modified);
        Flushed(rows, modified, lines[..i], more);
        rows := rows + more;
        modified := [];
      }
      ShownOne(rows, lines[..i], line, hunkIndex);
      rows := rows + [RowOf(line, hunkIndex)];
    }
    MadeAll(rows, modified, lines, hunkIndex);
    assert rows + [] == rows;
    if |modified| > 0 {
      HeldIsChanges(rows, modified, lines);
      var more := ModifiedRows(modified);
      Flushed(rows, modified, lines, more);
      rows := rows + more;
    }
    AllShown(rows, lines);
  }

  lemma NothingShown(lines: seq<DiffLine>)
    ensures Shown([], [], lines[..0])
  {
  }

  lemma HeldIsChanges(rows: seq<Row>, modified: seq<DiffLine>, lines: seq<DiffLine>)
    requires Shown(rows, modified, lines)
    ensures Changes(modified)
  {
  }

  lemma AllShown(rows: seq<Row>, lines: seq<DiffLine>)
    requires Shown(rows, [], lines)
    ensures AllTyped(lines) && Shows(rows, OldSide(lines), NewSide(lines)) && Headers(rows) == HeaderTexts(lines)
  {
    assert OldSide([]) == [] && NewSide([]) == [];
  }

  /**
   * From the text of a hunk to its rows: reading the left cells in row order
   * gives exactly the context and deleted lines with consecutive old numbers,
   * and reading the right cells the context and added lines with new ones.
   */
  method SplitRows(header: Text, oldStart: int, newStart: int, input: seq<Text>, hunkIndex: nat)
    returns (ok: bool, rows: seq<Row>, ghost lines: seq<DiffLine>)
    ensures ok <==> !StopsAtEmpty(input)
    ensures AllTyped(lines) && HunkLines(lines, header, Body(input))
    ensures OldSide(lines) == Numbered(Contents(Body(input), '-'), oldStart)
    ensures NewSide(lines) == Numbered(Contents(Body(input), '+'), newStart)
    ensures ok ==> rows == RowsOf(lines, hunkIndex)
    ensures forall i | 0 <= i < |Body(input)| :: Body(input)[i] != []
    ensures ok ==> Left(rows) == Numbered(Contents(Body(input), '-'), oldStart)
    ensures ok ==> Right(rows) == Numbered(Contents(Body(input), '+'), newStart)
  {
    var parsed;
    ok, parsed := ParseHunk(header, oldStart, newStart, input);
    lines, rows := parsed, [];
    if ok {
      KindsOf(parsed, header, Body(input));
      rows := RowsFromHunk(parsed, hunkIndex);
    }
  }

  lemma KindsOf(lines: seq<DiffLine>, header: Text, body: seq<Text>)
    requires HunkLines(lines, header, body)
    ensures forall i | 0 <= i < |lines| :: lines[i].kind in {AddLine, DeleteLine, ContextLine, HunkLine}
  {
    forall i | 0 <= i < |lines| ensures lines[i].kind in {AddLine, DeleteLine, ContextLine, HunkLine} {
      assert i > 0 ==> IsLineOf(lines[i - 1 + 1], body[i - 1]);
    }
  }
}
