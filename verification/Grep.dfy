/** The search of the index reports what a plain search of the stored lines would. */
module Grep {
  import opened Bytes
  import opened Lines
  import opened FileContents
  import opened IndexTypes
  import opened Searchers
  import opened Scanning
  import opened Reporting
  import opened Search
  import Regexps
  import Planner = QueryPlanner
  import PlanSoundness
  import P = Plans
  import Q = QueryPlans

  predicate InText(index: Index, p: Piece) {
    p.chunk < |index.chunks| && p.off + p.len <= |index.chunks[p.chunk].data|
  }

  function PieceText(index: Index, p: Piece): Text
    requires InText(index, p)
  {
    index.chunks[p.chunk].data[p.off..p.off + p.len]
  }

  /** The file is one the query asks for, by its path and by the name of its tree. */
  ghost predicate Chosen(q: Query, file: IndexedFile) {
    && (q.filePat.Some? ==> q.filePat.value(file.path)) && !(q.notFilePat.Some? && q.notFilePat.value(file.path))
    && (q.treePat.Some? ==> q.treePat.value(file.tree)) && !(q.notTreePat.Some? && q.notTreePat.value(file.tree))
  }

  lemma ChosenIsAccepted(q: Query, file: IndexedFile)
    ensures q.Accepts(file) <==> Chosen(q, file)
  {
  }

  /** A search of the stored lines: line `lno` of file `f` is valid text that matches, and the file is asked for. */
  ghost predicate Greps(index: Index, q: Query, f: nat, lno: nat) {
    && f < |index.files| && Chosen(q, index.files[f]) && 1 <= lno <= |index.files[f].content|
    && var p := index.files[f].content[lno - 1];
      InText(index, p) && LineMatches(q.line, PieceText(index, p)) && q.valid(PieceText(index, p))
  }

  /** The line as it should be reported. */
  function TheReport(index: Index, q: Query, f: nat, lno: nat): Result
    requires f < |index.files| && 1 <= lno <= |index.files[f].content|
  {
    Report(index.files[f].content, lno - 1, f, q.context)
  }

  /** The empty line that ends a chunk. */
  predicate EndsChunk(index: Index, p: Piece)
    requires InText(index, p)
  {
    p.len == 0 && p.off == |index.chunks[p.chunk].data| - 1
  }

  /** The empty last line of a chunk is passed over if the scan from the last match before it comes to stop there. */
  ghost predicate PassedOver(index: Index, q: Query, p: Piece)
    requires InText(index, p)
  {
    && EndsChunk(index, p)
    && var data := index.chunks[p.chunk].data;
      Lands(data, AfterLastMatch(q, data, p.off), p.off)
  }

  /** In a chunk of no more than a megabyte: if it is the only line, or the one before it matches. */
  lemma PassedOverShort(index: Index, q: Query, p: Piece)
    requires InText(index, p) && EndsChunk(index, p) && p.off <= 0x10_0000
    ensures PassedOver(index, q, p) <==> p.off == 0 || PreviousMatches(q, index.chunks[p.chunk].data, p.off)
  {
    hide PreviousMatches;
    var data := index.chunks[p.chunk].data;
    var a := AfterLastMatch(q, data, p.off);
    if a < p.off {
      assert !Lands(data, p.off + 1, p.off);
    }
  }

  /**
   * The line may be relied on to be found: only an empty one at the end of a
   * chunk, or of a range in restricted searches, may be passed over.
   */
  ghost predicate Findable(index: Index, q: Query, p: Piece)
    requires InText(index, p)
  {
    p.len > 0
    || (!EndsChunk(index, p) && (q.filePat.Some? || q.treePat.Some? ==> !EndsRange(index, q, p.chunk, p.off)))
  }

  /** The report is one that should be made. */
  ghost predicate RightlyReported(index: Index, q: Query, r: Result) {
    Greps(index, q, r.file, r.lno) && r == TheReport(index, q, r.file, r.lno)
  }

  ghost predicate ReportedIfFindable(index: Index, q: Query, queue: seq<Result>, f: nat, lno: nat) {
    Greps(index, q, f, lno) && Findable(index, q, index.files[f].content[lno - 1]) ==> TheReport(index, q, f, lno) in queue
  }

  ghost predicate ReportedUnlessPassedOver(index: Index, q: Query, queue: seq<Result>, f: nat, lno: nat) {
    Greps(index, q, f, lno) ==>
      (TheReport(index, q, f, lno) in queue <==> !PassedOver(index, q, index.files[f].content[lno - 1]))
  }

  // ----- Nothing else is reported -----

  lemma WantedIsGrep(index: Index, q: Query, f: nat, lno: nat)
    requires f < |index.files| && q.Accepts(index.files[f]) && 1 <= lno <= |index.files[f].content|
    requires WantedPiece(index, q, index.files[f].content[lno - 1])
    ensures Greps(index, q, f, lno)
  {
    ChosenIsAccepted(q, index.files[f]);
  }

  /** Where a report comes from. */
  lemma ReportSource(index: Index, q: Query, handed: seq<Piece>, r: Result)
    requires IndexValid(index) && forall i | 0 <= i < |handed| :: VisitsFine(index, handed[i])
    requires r in AllReports(index, q, handed)
    ensures r.file < |index.files| && q.Accepts(index.files[r.file]) && 1 <= r.lno <= |index.files[r.file].content|
    ensures r == TheReport(index, q, r.file, r.lno) && index.files[r.file].content[r.lno - 1] in handed
  {
    hide IndexValid, VisitsFine, LineReports, Report, Query.Accepts;
    AllReportsAre(index, q, handed, r);
    var line :| line in handed && InLineReports(index, q, line, r);
    ReportHasLine(index, q, line, r);
  }

  lemma OnlyGreps(index: Index, q: Query, handed: seq<Piece>, r: Result)
    requires IndexValid(index) && AllWanted(index, q, handed) && forall i | 0 <= i < |handed| :: VisitsFine(index, handed[i])
    requires r in AllReports(index, q, handed)
    ensures RightlyReported(index, q, r)
  {
    hide IndexValid, VisitsFine, AllReports, WantedPiece, Query.Accepts, Report, Greps;
    ReportSource(index, q, handed, r);
    var line := index.files[r.file].content[r.lno - 1];
    var i :| 0 <= i < |handed| && handed[i] == line;
    WantedIsGrep(index, q, r.file, r.lno);
  }

  // ----- Everything is reported -----

  /** A line of a file lies in one of its ranges. */
  lemma HeldSomewhere(index: Index, f: nat, k: nat) returns (j: nat)
    requires IndexValid(index) && f < |index.files| && k < |index.files[f].content|
    ensures var p := index.files[f].content[k];
      p.chunk < |index.chunks| && Holds(index.chunks[p.chunk], j, f, p) && IsLine(index.chunks[p.chunk].data, p.off, p.off + p.len)
  {
    assert FileValid(index, f);
    var p := index.files[f].content[k];
    assert p in index.files[f].content;
    j :| Holds(index.chunks[p.chunk], j, f, p);
  }

  /** A findable line that a plain search finds is due. */
  lemma GrepsIsDue(index: Index, q: Query, f: nat, lno: nat)
    requires IndexValid(index) && Greps(index, q, f, lno) && Findable(index, q, index.files[f].content[lno - 1])
    ensures var p := index.files[f].content[lno - 1]; Due(index, q, p.chunk, p.off, p.off + p.len)
  {
    hide Greps, Findable, IndexValid, Query.Accepts, Due, IsLine, Accepted;
    GrepsFacts(index, q, f, lno);
    var p := index.files[f].content[lno - 1];
    var j := HeldSomewhere(index, f, lno - 1);
    HolderAccepted(index, q, p.chunk, j, f);
    HeldIsDue(index, q, f, lno, j);
  }

  lemma HeldIsDue(index: Index, q: Query, f: nat, lno: nat, j: nat)
    requires Greps(index, q, f, lno) && Findable(index, q, index.files[f].content[lno - 1])
    requires var p := index.files[f].content[lno - 1];
      && p.chunk < |index.chunks| && Holds(index.chunks[p.chunk], j, f, p) && Accepted(index, q, p.chunk, j)
      && IsLine(index.chunks[p.chunk].data, p.off, p.off + p.len)
    ensures var p := index.files[f].content[lno - 1]; Due(index, q, p.chunk, p.off, p.off + p.len)
  {
    hide LineMatches, Chosen, Accepted;
    var p := index.files[f].content[lno - 1];
    assert InRange(index.chunks[p.chunk].files[j], p.off, p.off + p.len);
  }

  /** A range that lists an accepted file is an accepted one. */
  lemma HolderAccepted(index: Index, q: Query, c: nat, j: nat, f: nat)
    requires IndexValid(index) && c < |index.chunks| && j < |index.chunks[c].files|
    requires f in index.chunks[c].files[j].files && f < |index.files| && q.Accepts(index.files[f])
    ensures Accepted(index, q, c, j)
  {
    ChunkFacts(index, c);
    hide IndexValid, Query.Accepts;
    var x := index.chunks[c].files[j];
    var i :| 0 <= i < |x.files| && x.files[i] == f;
    assert q.Accepts(index.files[x.files[i]]);
  }

  lemma GrepsFacts(index: Index, q: Query, f: nat, lno: nat)
    requires Greps(index, q, f, lno)
    ensures f < |index.files| && q.Accepts(index.files[f]) && 1 <= lno <= |index.files[f].content|
  {
    ChosenIsAccepted(q, index.files[f]);
  }

  /** A line that was handed on is reported for every accepted file and line number that has it. */
  lemma HandedIsReported(index: Index, q: Query, handed: seq<Piece>, f: nat, lno: nat)
    requires IndexValid(index) && forall i | 0 <= i < |handed| :: VisitsFine(index, handed[i])
    requires Greps(index, q, f, lno) && index.files[f].content[lno - 1] in handed
    ensures TheReport(index, q, f, lno) in AllReports(index, q, handed)
  {
    GrepsFacts(index, q, f, lno);
    hide LineReports, AllReports, Query.Accepts, Greps, Reports, IsLine, Report, IndexValid, VisitsFine, Holds;
    var content := index.files[f].content;
    var p, r := content[lno - 1], TheReport(index, q, f, lno);
    InReports(content, p, f, q.context, lno - 1);
    var j := HeldSomewhere(index, f, lno - 1);
    var i :| 0 <= i < |handed| && handed[i] == p;
    assert VisitsFine(index, handed[i]);
    assert FileReports(index, q, f, p, r);
    HeldIsReported(index, q, p, r, f, j);
    AllReportsAre(index, q, handed, r);
    assert InLineReports(index, q, p, r);
  }

  /** A report is made for every range that holds the line. */
  lemma HeldIsReported(index: Index, q: Query, p: Piece, r: Result, f: nat, j: int)
    requires IndexValid(index) && VisitsFine(index, p) && p.chunk < |index.chunks| && FileReports(index, q, f, p, r)
    requires Holds(index.chunks[p.chunk], j, f, p)
    ensures r in LineReports(index, q, p)
  {
    hide IndexValid, FileReports, LineReports;
    assert index.chunks[p.chunk].files[j] in index.chunks[p.chunk].files;
    LineReportsAre(index, q, p, r);
  }

  lemma InReports(content: seq<Piece>, line: Piece, f: nat, context: nat, k: nat)
    requires k < |content| && content[k] == line
    ensures Report(content, k, f, context) in Reports(content, line, f, context, |content|)
  {
    ReportsExactly(content, line, f, context, |content|);
    hide Reports, Report, Before, After;
    var rs := Reports(content, line, f, context, |content|);
    assert k + 1 in LineNumbers(rs);
    var i :| 0 <= i < |rs| && rs[i].lno == k + 1;
    assert RightReport(content, line, f, context, |content|, rs[i]);
  }

  lemma AllGreps(index: Index, q: Query, order: seq<nat>, handed: seq<Piece>, f: nat, lno: nat)
    requires IndexValid(index) && forall i | 0 <= i < |handed| :: VisitsFine(index, handed[i])
    requires IsOrder(order, |index.chunks|) && AllComplete(index, q, order, handed)
    ensures ReportedIfFindable(index, q, AllReports(index, q, handed), f, lno)
  {
    if Greps(index, q, f, lno) && Findable(index, q, index.files[f].content[lno - 1]) {
      var p := index.files[f].content[lno - 1];
      var j := HeldSomewhere(index, f, lno - 1);
      hide VisitsFine, AllReports, LineMatches, Query.Accepts, Report, IndexValid;
      GrepsIsDue(index, q, f, lno);
      hide Due;
      assert Complete(index, q, p.chunk, handed);
      assert p == Piece(p.chunk, p.off, p.off + p.len - p.off);
      HandedIsReported(index, q, handed, f, lno);
    }
  }

  // ----- The whole search -----

  /** The regular-expression engine matches nothing that the expression does not. */
  ghost predicate Engine(re: Regexps.Regexp, m: Pattern) {
    forall line: Text, i: nat, j: nat | i <= j <= |line| && m(line, i, j) :: Regexps.Matches(re, line[i..j])
  }

  ghost predicate OnlyRightlyReported(index: Index, q: Query, queue: seq<Result>) {
    forall r | r in queue :: RightlyReported(index, q, r)
  }

  ghost predicate AllFindableReported(index: Index, q: Query, queue: seq<Result>) {
    forall f: nat, lno: nat :: ReportedIfFindable(index, q, queue, f, lno)
  }

  ghost predicate AllReportedUnlessPassedOver(index: Index, q: Query, queue: seq<Result>) {
    forall f: nat, lno: nat :: ReportedUnlessPassedOver(index, q, queue, f, lno)
  }

  /** The plan accepts from somewhere in the line. */
  ghost predicate PlanFinds(tree: P.Plan, line: Text) {
    tree.Node? && tree.edges != [] && exists i :: PlanSoundness.WalksFrom(tree, line, i)
  }

  ghost predicate PlannedGreps(index: Index, q: Query, tree: P.Plan, f: nat, lno: nat) {
    Greps(index, q, f, lno) && PlanFinds(tree, PieceText(index, index.files[f].content[lno - 1]))
  }

  ghost predicate ReportedIfPlanFinds(index: Index, q: Query, queue: seq<Result>, tree: P.Plan, f: nat, lno: nat) {
    PlannedGreps(index, q, tree, f, lno) ==> TheReport(index, q, f, lno) in queue
  }

  ghost predicate AllPlannedReported(index: Index, q: Query, queue: seq<Result>, tree: P.Plan) {
    forall f: nat, lno: nat :: ReportedIfPlanFinds(index, q, queue, tree, f, lno)
  }

  /** A line that a plain search finds and from a position of which the plan accepts is reported. */
  lemma PlanGreps(index: Index, q: Query, order: seq<nat>, handed: seq<Piece>, tree: P.Plan, f: nat, lno: nat)
    requires IndexValid(index) && forall i | 0 <= i < |handed| :: VisitsFine(index, handed[i])
    requires IsOrder(order, |index.chunks|) && AllPlanHanded(index, q, order, tree, handed)
    ensures ReportedIfPlanFinds(index, q, AllReports(index, q, handed), tree, f, lno)
  {
    hide VisitsFine, AllReports, PlannedGreps, Report, IsOrder, IndexValid, P.Walk, PlanSoundness.WalksFrom;
    if PlannedGreps(index, q, tree, f, lno) {
      PlannedFacts(index, q, tree, f, lno);
      var p := index.files[f].content[lno - 1];
      var j := HeldSomewhere(index, f, lno - 1);
      GrepsIsDue(index, q, f, lno);
      assert p.chunk in order by { InOrderAll(order, |index.chunks|, p.chunk); }
      hide Due, AcceptsIn, PlanFinds, Holds, IsLine;
      assert PlanHanded(index, q, p.chunk, tree, handed);
      assert p == Piece(p.chunk, p.off, p.off + p.len - p.off);
      HandedIsReported(index, q, handed, f, lno);
    }
  }

  lemma PlannedFacts(index: Index, q: Query, tree: P.Plan, f: nat, lno: nat)
    requires PlannedGreps(index, q, tree, f, lno)
    ensures Greps(index, q, f, lno) && f < |index.files| && 1 <= lno <= |index.files[f].content|
    ensures var p := index.files[f].content[lno - 1];
      InText(index, p) && p.len > 0 && AcceptsIn(index, p.chunk, tree, p.off, p.off + p.len)
  {
    PlanFindsIn(index, tree, index.files[f].content[lno - 1]);
  }

  lemma PlanFindsIn(index: Index, tree: P.Plan, p: Piece)
    requires InText(index, p) && PlanFinds(tree, PieceText(index, p))
    ensures p.len > 0 && AcceptsIn(index, p.chunk, tree, p.off, p.off + p.len)
  {
    hide P.Walk;
    var data := index.chunks[p.chunk].data;
    var k :| PlanSoundness.WalksFrom(tree, PieceText(index, p), k);
    HitInside(tree, data, p.off, p.off + p.len, k);
  }

  /**
   * Plans the query, searches every chunk and collects the reports. `filtered`
   * says that the suffix arrays were used.
   */
  method Match(re: Regexps.Regexp, index: Index, q: Query, order: seq<nat>)
    returns (queue: seq<Result>, filtered: bool, ghost tree: P.Plan)
    requires IndexValid(index) && Regexps.InScope(re) && Engine(re, q.line) && IsOrder(order, |index.chunks|)
    ensures OnlyRightlyReported(index, q, queue)
    ensures filtered ==> AllPlannedReported(index, q, queue, tree)
    ensures !filtered || Regexps.ForgetsNoRepetition(re) ==> AllFindableReported(index, q, queue)
    ensures !filtered || (Regexps.ForgetsNoRepetition(re) && AllShort(index)) ==> Once(queue)
    ensures !filtered && q.filePat.None? && q.treePat.None? ==> AllReportedUnlessPassedOver(index, q, queue)
  {
    var key: Q.QueryPlan?;
    ghost var nodes: set<Q.QueryPlan>;
    key, nodes := Planner.ConstructQueryPlan(re);
    filtered := Filters(key);
    if key == null {
      nodes := {};
    } else if Regexps.ForgetsNoRepetition(re) {
      SoundSelects(re, q.line, key.tree);
    }
    var s := new Searcher(index, q);
    SearchIndex(s, key, nodes, order);
    queue := s.queue;
    tree := if filtered then key.tree else P.Tail;
    if filtered {
      forall f: nat, lno: nat ensures ReportedIfPlanFinds(index, q, queue, tree, f, lno) {
        PlanGreps(index, q, order, s.handed, tree, f, lno);
      }
    }
    Conclude(index, q, order, s.handed, filtered, !filtered || Regexps.ForgetsNoRepetition(re));
    if !filtered || (Regexps.ForgetsNoRepetition(re) && AllShort(index)) {
      AllOnce(index, q, s.handed);
    }
  }

  lemma SoundSelects(re: Regexps.Regexp, m: Pattern, tree: P.Plan)
    requires Engine(re, m) && forall w | Regexps.Matches(re, w) :: exists i :: PlanSoundness.WalksFrom(tree, w, i)
    ensures Selects(tree, m)
  {
  }

  lemma Conclude(index: Index, q: Query, order: seq<nat>, handed: seq<Piece>, filtered: bool, useful: bool)
    requires IndexValid(index) && IsOrder(order, |index.chunks|)
    requires AllWanted(index, q, handed) && forall i | 0 <= i < |handed| :: VisitsFine(index, handed[i])
    requires useful ==> AllComplete(index, q, order, handed)
    requires !filtered ==> useful && LastsExactly(index, q, order, handed)
    ensures OnlyRightlyReported(index, q, AllReports(index, q, handed))
    ensures useful ==> AllFindableReported(index, q, AllReports(index, q, handed))
    ensures !filtered && q.filePat.None? && q.treePat.None? ==>
      AllReportedUnlessPassedOver(index, q, AllReports(index, q, handed))
  {
    hide IndexValid, VisitsFine, LastsExactly, AllComplete, IsOrder, AllWanted, Once, AllReports;
    hide RightlyReported, ReportedIfFindable, ReportedUnlessPassedOver;
    var queue := AllReports(index, q, handed);
    forall r | r in queue ensures RightlyReported(index, q, r) {
      OnlyGreps(index, q, handed, r);
    }
    if useful {
      forall f: nat, lno: nat ensures ReportedIfFindable(index, q, queue, f, lno) {
        AllGreps(index, q, order, handed, f, lno);
      }
    }
    if !filtered && !q.Restricted() {
      forall f: nat, lno: nat ensures ReportedUnlessPassedOver(index, q, queue, f, lno) {
        ExactlyUnpassed(index, q, order, handed, f, lno);
      }
    }
  }

  lemma ExactlyUnpassed(index: Index, q: Query, order: seq<nat>, handed: seq<Piece>, f: nat, lno: nat)
    requires IndexValid(index) && IsOrder(order, |index.chunks|) && !q.Restricted()
    requires forall i | 0 <= i < |handed| :: VisitsFine(index, handed[i])
    requires AllComplete(index, q, order, handed) && LastsExactly(index, q, order, handed)
    ensures ReportedUnlessPassedOver(index, q, AllReports(index, q, handed), f, lno)
  {
    hide AllComplete, AllReports, LastsExactly, AfterLastMatch, LineMatches;
    if Greps(index, q, f, lno) {
      var p := index.files[f].content[lno - 1];
      if EndsChunk(index, p) {
        LastLineFate(index, q, order, handed, f, lno);
        HandedOrNot(index, q, handed, f, lno);
      } else {
        AllGreps(index, q, order, handed, f, lno);
      }
    }
  }

  lemma LastLineFate(index: Index, q: Query, order: seq<nat>, handed: seq<Piece>, f: nat, lno: nat)
    requires IndexValid(index) && IsOrder(order, |index.chunks|) && !q.Restricted()
    requires LastsExactly(index, q, order, handed)
    requires Greps(index, q, f, lno) && EndsChunk(index, index.files[f].content[lno - 1])
    ensures var p := index.files[f].content[lno - 1]; p in handed <==> !PassedOver(index, q, p)
  {
    hide IndexValid, LineMatches, Query.Accepts, AfterLastMatch, Lands, Holds, IsOrder;
    var p := index.files[f].content[lno - 1];
    var j := HeldSomewhere(index, f, lno - 1);
    assert p.chunk in order by { InOrderAll(order, |index.chunks|, p.chunk); }
    assert LastExactly(index, q, p.chunk, handed);
    assert p == Piece(p.chunk, p.off, 0);
  }

  lemma InOrderAll(order: seq<nat>, n: nat, c: nat)
    requires IsOrder(order, n) && c < n
    ensures c in order
  {
  }

  /** A line is reported exactly if it was handed on. */
  lemma HandedOrNot(index: Index, q: Query, handed: seq<Piece>, f: nat, lno: nat)
    requires IndexValid(index) && forall i | 0 <= i < |handed| :: VisitsFine(index, handed[i])
    requires Greps(index, q, f, lno)
    ensures TheReport(index, q, f, lno) in AllReports(index, q, handed) <==> index.files[f].content[lno - 1] in handed
  {
    hide IndexValid, VisitsFine, AllReports, Query.Accepts, LineMatches;
    ReportSays(index, q, f, lno);
    hide Report;
    if index.files[f].content[lno - 1] in handed {
      HandedIsReported(index, q, handed, f, lno);
    }
    if TheReport(index, q, f, lno) in AllReports(index, q, handed) {
      ReportSource(index, q, handed, TheReport(index, q, f, lno));
    }
  }

  lemma ReportSays(index: Index, q: Query, f: nat, lno: nat)
    requires f < |index.files| && 1 <= lno <= |index.files[f].content|
    ensures TheReport(index, q, f, lno).file == f && TheReport(index, q, f, lno).lno == lno
  {
  }
}
