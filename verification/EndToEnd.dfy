/** From the files as they were given to the reports: what the index finds, a search of the files would. */
module EndToEnd {
  import opened Bytes
  import opened Lines
  import opened FileContents
  import opened IndexTypes
  import opened Indexing
  import opened Finalizing
  import opened SuffixArrays
  import Grep
  import Regexps
  import Reporting
  import Search

  /** A search of a file: it is asked for, and line `lno` is this one, valid text and matches. */
  ghost predicate GrepsText(q: Query, file: IndexedFile, text: Text, limit: nat, lno: nat, line: Text) {
    Grep.Chosen(q, file) && LineIs(text, limit, lno, line) && LineMatches(q.line, line) && q.valid(line)
  }

  /** Where a line of a file is stored, if the file has that many. */
  predicate StoredAt(index: Index, f: nat, lno: nat) {
    f < |index.files| && 1 <= lno <= |index.files[f].content| && Grep.InText(index, index.files[f].content[lno - 1])
  }

  /** Searching the stored lines is searching the lines of the file. */
  lemma GrepsIsGrepsText(index: Index, q: Query, f: nat, lno: nat, text: Text, limit: nat)
    requires HasLines(index, f, Indexed(limit, text))
    ensures Grep.Greps(index, q, f, lno) <==> exists line :: GrepsText(q, index.files[f], text, limit, lno, line)
    ensures forall line | LineIs(text, limit, lno, line) ::
      StoredAt(index, f, lno) && index.files[f].content[lno - 1].len == |line|
  {
    IndexedIs(limit, text);
    hide LineMatches, Grep.Chosen, Indexed, LineIs;
    var lines := Indexed(limit, text);
    if 1 <= lno <= |lines| {
      var p := index.files[f].content[lno - 1];
      assert HasLine(index, p, lines[lno - 1]);
      assert Grep.PieceText(index, p) == lines[lno - 1];
      assert GrepsText(q, index.files[f], text, limit, lno, lines[lno - 1]) <==> Grep.Greps(index, q, f, lno);
    }
  }

  ghost predicate Found(queue: seq<Result>, f: nat, lno: nat) {
    exists i | 0 <= i < |queue| :: queue[i].file == f && queue[i].lno == lno
  }

  /** The piece is line `lno` of the file. */
  ghost predicate ShowsLine(index: Index, p: Piece, text: Text, limit: nat, lno: int) {
    lno >= 1 && exists line :: LineIs(text, limit, lno, line) && HasLine(index, p, line)
  }

  /** The report shows line `lno` with as many lines before and after it as are asked for, or there are. */
  ghost predicate Shows(index: Index, text: Text, limit: nat, context: nat, r: Result) {
    && 1 <= r.lno <= LinesOf(text) && ShowsLine(index, r.line, text, limit, r.lno)
    && |r.before| == Least(context, r.lno - 1) && |r.after| == Least(context, LinesOf(text) - r.lno)
    && (forall i | 0 <= i < |r.before| :: ShowsLine(index, r.before[i], text, limit, r.lno - 1 - i))
    && (forall i | 0 <= i < |r.after| :: ShowsLine(index, r.after[i], text, limit, r.lno + 1 + i))
  }

  function Least(a: int, b: int): int {
    if a <= b then a else b
  }

  /** Every report is of a line that a search of the files given to the indexer finds, and shows it in its context. */
  ghost predicate OnlyText(index: Index, texts: seq<Text>, limit: nat, q: Query, queue: seq<Result>) {
    forall r | r in queue :: RightlyText(index, texts, limit, q, r)
  }

  ghost predicate RightlyText(index: Index, texts: seq<Text>, limit: nat, q: Query, r: Result) {
    && r.file < |index.files| && r.file < |texts|
    && (exists line :: GrepsText(q, index.files[r.file], texts[r.file], limit, r.lno, line))
    && Shows(index, texts[r.file], limit, q.context, r)
  }

  /** A search of the files finds the line. */
  ghost predicate GrepsFile(index: Index, texts: seq<Text>, limit: nat, q: Query, f: nat, lno: nat, line: Text) {
    f < |index.files| && f < |texts| && GrepsText(q, index.files[f], texts[f], limit, lno, line)
  }

  ghost predicate FoundIfText(index: Index, texts: seq<Text>, limit: nat, q: Query, queue: seq<Result>,
                              f: nat, lno: nat, line: Text) {
    && GrepsFile(index, texts, limit, q, f, lno, line)
    && (line != [] || (StoredAt(index, f, lno) && Grep.Findable(index, q, index.files[f].content[lno - 1])))
    ==> Found(queue, f, lno)
  }

  /** Every line that a search of the files finds is reported, but perhaps an empty one that ends a chunk, or a range if restricted. */
  ghost predicate AllText(index: Index, texts: seq<Text>, limit: nat, q: Query, queue: seq<Result>) {
    forall f: nat, lno: nat, line: Text :: FoundIfText(index, texts, limit, q, queue, f, lno, line)
  }

  ghost predicate FoundExactly(index: Index, texts: seq<Text>, limit: nat, q: Query, queue: seq<Result>,
                               f: nat, lno: nat, line: Text) {
    GrepsFile(index, texts, limit, q, f, lno, line) ==>
      && StoredAt(index, f, lno)
      && (Found(queue, f, lno) <==> !Grep.PassedOver(index, q, index.files[f].content[lno - 1]))
  }

  ghost predicate AllTextExactly(index: Index, texts: seq<Text>, limit: nat, q: Query, queue: seq<Result>) {
    forall f: nat, lno: nat, line: Text :: FoundExactly(index, texts, limit, q, queue, f, lno, line)
  }

  /** Finishes the index and searches it. */
  method IndexAndSearch(x: Indexer, suffixes: seq<seq<nat>>, re: Regexps.Regexp, q: Query, order: seq<nat>)
    returns (index: Index, queue: seq<Result>, filtered: bool)
    requires x.Valid() && |suffixes| == |x.chunks| && Search.IsOrder(order, |x.chunks|)
    requires forall c | 0 <= c < |x.chunks| :: IsSuffixArray(Munged(x.chunks[c].data), suffixes[c])
    requires Regexps.InScope(re) && Grep.Engine(re, q.line)
    ensures IndexValid(index) && index.files == x.files && |x.texts| == |x.files|
    ensures forall f | 0 <= f < |x.files| :: HasLines(index, f, Indexed(x.lineLimit, x.texts[f]))
    ensures OnlyText(index, x.texts, x.lineLimit, q, queue)
    ensures !filtered || Regexps.ForgetsNoRepetition(re) ==> AllText(index, x.texts, x.lineLimit, q, queue)
    ensures !filtered || (Regexps.ForgetsNoRepetition(re) && Search.AllShort(index)) ==> Reporting.Once(queue)
    ensures !filtered && q.filePat.None? && q.treePat.None? ==> AllTextExactly(index, x.texts, x.lineLimit, q, queue)
  {
    hide IndexValid, HasLines, Indexed, Grep.Engine, Regexps.InScope, Regexps.ForgetsNoRepetition, IsSuffixArray;
    hide Search.IsOrder, Grep.OnlyRightlyReported, Grep.AllFindableReported, Grep.AllReportedUnlessPassedOver;
    hide OnlyText, AllText, AllTextExactly;
    index := Finalize(x, suffixes);
    ghost var tree;
    queue, filtered, tree := Grep.Match(re, index, q, order);
    OnlyTextReported(index, x.texts, x.lineLimit, q, queue);
    if !filtered || Regexps.ForgetsNoRepetition(re) {
      AllTextReported(index, x.texts, x.lineLimit, q, queue);
    }
    if !filtered && !q.Restricted() {
      ExactlyTextReported(index, x.texts, x.lineLimit, q, queue);
    }
  }

  /** The files' lines are stored in the index. */
  ghost predicate Stored(index: Index, texts: seq<Text>, limit: nat) {
    |texts| == |index.files| && forall f | 0 <= f < |texts| :: HasLines(index, f, Indexed(limit, texts[f]))
  }

  lemma OnlyTextReported(index: Index, texts: seq<Text>, limit: nat, q: Query, queue: seq<Result>)
    requires Stored(index, texts, limit) && Grep.OnlyRightlyReported(index, q, queue)
    ensures OnlyText(index, texts, limit, q, queue)
  {
    hide HasLines, Indexed, GrepsText, Shows;
    forall r | r in queue ensures RightlyText(index, texts, limit, q, r) {
      RightlyInRange(index, q, r);
      GrepsIsGrepsText(index, q, r.file, r.lno, texts[r.file], limit);
      SameCount(index, r.file, Indexed(limit, texts[r.file]));
      ReportShows(index, q, r.file, r.lno, texts[r.file], limit);
    }
  }

  lemma SameCount(index: Index, f: nat, lines: seq<Text>)
    requires HasLines(index, f, lines)
    ensures |index.files[f].content| == |lines|
  {
  }

  lemma RightlyInRange(index: Index, q: Query, r: Result)
    requires Grep.RightlyReported(index, q, r)
    ensures r.file < |index.files| && Grep.Greps(index, q, r.file, r.lno)
    ensures 1 <= r.lno <= |index.files[r.file].content| && r == Grep.TheReport(index, q, r.file, r.lno)
  {
  }

  lemma ReportShows(index: Index, q: Query, f: nat, lno: nat, text: Text, limit: nat)
    requires HasLines(index, f, Indexed(limit, text)) && 1 <= lno <= |Indexed(limit, text)|
    ensures Shows(index, text, limit, q.context, Grep.TheReport(index, q, f, lno))
  {
    IndexedIs(limit, text);
    hide HasLine, Before, Indexed, LineIs, LinesOf;
    BeforeIs(index.files[f].content, lno - 1, q.context);
    forall k | 0 <= k < |Indexed(limit, text)| ensures ShowsLine(index, index.files[f].content[k], text, limit, k + 1) {
      assert LineIs(text, limit, k + 1, Indexed(limit, text)[k]);
    }
  }

  /** A report with a file and line number is the report of that line. */
  lemma FoundIsReported(index: Index, q: Query, queue: seq<Result>, f: nat, lno: nat)
    requires f < |index.files| && 1 <= lno <= |index.files[f].content| && Grep.OnlyRightlyReported(index, q, queue)
    ensures Found(queue, f, lno) <==> Grep.TheReport(index, q, f, lno) in queue
  {
    hide Report, Grep.Greps;
    Grep.ReportSays(index, q, f, lno);
    if i :| 0 <= i < |queue| && queue[i].file == f && queue[i].lno == lno {
      assert Grep.RightlyReported(index, q, queue[i]);
      RightlyInRange(index, q, queue[i]);
    }
    if Grep.TheReport(index, q, f, lno) in queue {
      var i :| 0 <= i < |queue| && queue[i] == Grep.TheReport(index, q, f, lno);
    }
  }

  /** A line that a search of the files finds is one that a search of the stored lines finds. */
  lemma GrepsFileGreps(index: Index, texts: seq<Text>, limit: nat, q: Query, f: nat, lno: nat, line: Text)
    requires Stored(index, texts, limit) && GrepsFile(index, texts, limit, q, f, lno, line)
    ensures StoredAt(index, f, lno) && Grep.Greps(index, q, f, lno)
    ensures line != [] ==> Grep.Findable(index, q, index.files[f].content[lno - 1])
  {
    GrepsIsGrepsText(index, q, f, lno, texts[f], limit);
  }

  lemma AllTextReported(index: Index, texts: seq<Text>, limit: nat, q: Query, queue: seq<Result>)
    requires Stored(index, texts, limit) && Grep.OnlyRightlyReported(index, q, queue)
    requires Grep.AllFindableReported(index, q, queue)
    ensures AllText(index, texts, limit, q, queue)
  {
    hide Stored, GrepsFile, Report, Grep.Greps, Grep.Findable, Grep.OnlyRightlyReported, Found;
    forall f: nat, lno: nat, line: Text ensures FoundIfText(index, texts, limit, q, queue, f, lno, line) {
      if GrepsFile(index, texts, limit, q, f, lno, line) {
        GrepsFileGreps(index, texts, limit, q, f, lno, line);
        assert Grep.ReportedIfFindable(index, q, queue, f, lno);
        FoundIsReported(index, q, queue, f, lno);
      }
    }
  }

  lemma ExactlyTextReported(index: Index, texts: seq<Text>, limit: nat, q: Query, queue: seq<Result>)
    requires Stored(index, texts, limit) && Grep.OnlyRightlyReported(index, q, queue)
    requires Grep.AllReportedUnlessPassedOver(index, q, queue)
    ensures AllTextExactly(index, texts, limit, q, queue)
  {
    hide Stored, GrepsFile, Report, Grep.Greps, Grep.PassedOver, Grep.OnlyRightlyReported, Found;
    forall f: nat, lno: nat, line: Text ensures FoundExactly(index, texts, limit, q, queue, f, lno, line) {
      if GrepsFile(index, texts, limit, q, f, lno, line) {
        GrepsFileGreps(index, texts, limit, q, f, lno, line);
        assert Grep.ReportedUnlessPassedOver(index, q, queue, f, lno);
        FoundIsReported(index, q, queue, f, lno);
      }
    }
  }
}
