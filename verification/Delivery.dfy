/**
 * A whole call of `match` with its threads: each chunk is searched by whichever
 * worker takes it, and what the caller is given in the end, in whatever
 * interleaving, are the reports that a plain search of the stored lines makes.
 */
module Delivery {
  import opened FileContents
  import opened IndexTypes
  import opened Sequences
  import opened Searchers
  import opened Scanning
  import opened Search
  import opened Reporting
  import opened Workers
  import Grep
  import Regexps
  import Planner = QueryPlanner
  import Q = QueryPlans

  /** The pieces of a list of lists, one after the other. */
  function Flat<T>(s: seq<seq<T>>): seq<T> {
    if s == [] then [] else Flat(s[..|s| - 1]) + s[|s| - 1]
  }

  /** What the search of chunk `c` handed on and reported. */
  ghost predicate ChunkSearched(index: Index, q: Query, c: nat, handed: seq<Piece>, reports: seq<Result>,
                                filtered: bool, useful: bool) {
    && c < |index.chunks| && HandedFine(index, q, handed) && reports == AllReports(index, q, handed)
    && (useful ==> Complete(index, q, c, handed))
    && (Single(index, filtered, useful) ==> Increasing(index, q, c, handed, |index.chunks[c].data|))
    && (!filtered ==> LastExactly(index, q, c, handed))
  }

  /** No line is handed on twice: all is scanned once, or no line is so long that it could be scanned twice. */
  ghost predicate Single(index: Index, filtered: bool, useful: bool) {
    !filtered || (useful && AllShort(index))
  }

  ghost predicate HandedFine(index: Index, q: Query, handed: seq<Piece>) {
    AllWanted(index, q, handed) && forall i | 0 <= i < |handed| :: VisitsFine(index, handed[i])
  }

  /** A worker's search of one chunk, with a buffer of its own. */
  method SearchOne(index: Index, q: Query, key: Q.QueryPlan?, ghost nodes: set<Q.QueryPlan>, c: nat)
    returns (reports: seq<Result>, ghost handed: seq<Piece>)
    requires IndexValid(index) && c < |index.chunks| && Q.Closed(nodes) && Q.In(key, nodes)
    ensures ChunkSearched(index, q, c, handed, reports, Filters(key), Filters(key) ==> Selects(key.tree, q.line))
  {
    hide IndexValid, Q.Closed, Selects, Complete, Increasing, LastExactly, ShortLines;
    var s := new Searcher(index, q);
    var indexes := new nat[index.chunkSize / kMinFilterRatio](_ => 0);
    SearchChunk(s, key, nodes, indexes, c);
    reports, handed := s.queue, s.handed;
    assert handed[0..] == handed;
  }

  // ----- The chunks together -----

  ghost predicate AllSearched(index: Index, q: Query, handed: seq<seq<Piece>>, out: seq<seq<Result>>, filtered: bool, useful: bool) {
    && |handed| == |out| == |index.chunks|
    && forall c | 0 <= c < |out| :: ChunkSearched(index, q, c, handed[c], out[c], filtered, useful)
  }

  lemma {:induction false} AllReportsJoin(index: Index, q: Query, a: seq<Piece>, b: seq<Piece>)
    requires HandedFine(index, q, a) && HandedFine(index, q, b)
    ensures HandedFine(index, q, a + b)
    ensures AllReports(index, q, a + b) == AllReports(index, q, a) + AllReports(index, q, b)
    decreases |b|
  {
    hide VisitsFine, WantedPiece, LineReports;
    if b == [] {
      assert a + b == a;
    } else {
      var n := |b| - 1;
      AllReportsJoin(index, q, a, b[..n]);
      assert (a + b)[..|a + b| - 1] == a + b[..n];
    }
  }

  /** What is known of the first `k` chunks together. */
  ghost predicate Together(index: Index, q: Query, k: nat, handed: seq<Piece>, reports: seq<Result>, filtered: bool, useful: bool) {
    && HandedFine(index, q, handed) && reports == AllReports(index, q, handed)
    && (useful ==> AllComplete(index, q, Numbers(k), handed))
    && (Single(index, filtered, useful) ==> NoRepeats(handed) && OfChunks(handed, Numbers(k)))
    && (!filtered ==> LastsExactly(index, q, Numbers(k), handed))
  }

  lemma TogetherMore(index: Index, q: Query, k: nat, h0: seq<Piece>, r0: seq<Result>, h: seq<Piece>, r: seq<Result>,
                     filtered: bool, useful: bool)
    requires Together(index, q, k, h0, r0, filtered, useful) && ChunkSearched(index, q, k, h, r, filtered, useful)
    ensures Together(index, q, k + 1, h0 + h, r0 + r, filtered, useful)
  {
    hide HandedFine, Complete, Increasing, LastExactly, NoRepeats, OfChunks, AllComplete, LastsExactly, AllShort;
    AllReportsJoin(index, q, h0, h);
    assert Numbers(k + 1) == Numbers(k) + [k];
    assert (h0 + h)[..|h0|] == h0 && (h0 + h)[|h0|..] == h;
    if useful {
      CompleteMore(index, q, k, h, h0 + h);
      StillComplete(index, q, Numbers(k), k, h0, h0 + h);
    }
    if Single(index, filtered, useful) {
      StillNoRepeats(index, q, Numbers(k), k, h0, h0 + h, |index.chunks[k].data|);
    }
    if !filtered {
      StillLastsExactly(index, q, Numbers(k), k, h0, h0 + h, |index.chunks[k].data|);
    }
  }

  lemma CompleteMore(index: Index, q: Query, c: nat, few: seq<Piece>, handed: seq<Piece>)
    requires Complete(index, q, c, few) && forall x | x in few :: x in handed
    ensures Complete(index, q, c, handed)
  {
    hide Due;
  }

  lemma FlatOfNone<T>(s: seq<seq<T>>)
    ensures Flat(s[..0]) == []
  {
  }

  lemma FlatNext<T>(s: seq<seq<T>>, n: nat)
    requires n < |s|
    ensures Flat(s[..n + 1]) == Flat(s[..n]) + s[n]
  {
    assert s[..n + 1][..n] == s[..n];
  }

  lemma NothingTogether(index: Index, q: Query, filtered: bool, useful: bool)
    ensures Together(index, q, 0, [], [], filtered, useful)
  {
    assert Numbers(0) == [];
    NothingYet(index, q);
  }

  lemma {:induction false} TogetherUpTo(index: Index, q: Query, handed: seq<seq<Piece>>, out: seq<seq<Result>>,
                                        filtered: bool, useful: bool, k: nat)
    requires AllSearched(index, q, handed, out, filtered, useful) && k <= |out|
    ensures Together(index, q, k, Flat(handed[..k]), Flat(out[..k]), filtered, useful)
    decreases k
  {
    NothingTogether(index, q, filtered, useful);
    hide ChunkSearched, Together, Flat;
    FlatOfNone(handed);
    FlatOfNone(out);
    if k > 0 {
      var n := k - 1;
      TogetherUpTo(index, q, handed, out, filtered, useful, n);
      FlatNext(handed, n);
      FlatNext(out, n);
      TogetherMore(index, q, n, Flat(handed[..n]), Flat(out[..n]), handed[n], out[n], filtered, useful);
    }
  }

  lemma {:induction false} EverythingIs(out: seq<seq<Result>>, r: Result)
    ensures Everything(out, r) == multiset(Flat(out))[r]
  {
    if out != [] {
      EverythingIs(out[..|out| - 1], r);
    }
  }

  lemma NumbersOrder(n: nat)
    ensures IsOrder(Numbers(n), n)
  {
    forall c: nat | c < n ensures c in Numbers(n) {
      assert Numbers(n)[c] == c;
    }
  }

  // ----- What the caller is given -----

  /** What a call may rely on; `filtered` says that the suffix arrays were used, `useful` that their plan loses nothing. */
  ghost predicate Answers(index: Index, q: Query, given: seq<Result>, filtered: bool, useful: bool) {
    && Grep.OnlyRightlyReported(index, q, given)
    && (useful ==> Grep.AllFindableReported(index, q, given))
    && (Single(index, filtered, useful) ==> Once(given))
    && (!filtered && q.filePat.None? && q.treePat.None? ==> Grep.AllReportedUnlessPassedOver(index, q, given))
  }

  lemma OncePermuted(a: seq<Result>, b: seq<Result>)
    requires multiset(a) == multiset(b) && Once(b)
    ensures Once(a)
  {
    forall i, j | 0 <= i < j < |a| ensures a[i].file != a[j].file || a[i].lno != a[j].lno {
      DistinctPermuted(a, b, i, j);
      assert a[i] in multiset(b) && a[j] in multiset(b);
      var k :| 0 <= k < |b| && b[k] == a[i];
      var l :| 0 <= l < |b| && b[l] == a[j];
      assert k < l || l < k;
    }
  }

  lemma AnswersPermuted(index: Index, q: Query, a: seq<Result>, b: seq<Result>, filtered: bool, useful: bool)
    requires multiset(a) == multiset(b) && Answers(index, q, b, filtered, useful)
    ensures Answers(index, q, a, filtered, useful)
  {
    hide Grep.RightlyReported, Grep.Greps, Grep.TheReport, Grep.Findable, Grep.PassedOver, Once;
    assert forall r :: r in a <==> r in multiset(a);
    assert forall r :: r in b <==> r in multiset(b);
    if Single(index, filtered, useful) {
      OncePermuted(a, b);
    }
    forall f: nat, lno: nat ensures Grep.ReportedIfFindable(index, q, b, f, lno) ==> Grep.ReportedIfFindable(index, q, a, f, lno)
      ensures Grep.ReportedUnlessPassedOver(index, q, b, f, lno) ==> Grep.ReportedUnlessPassedOver(index, q, a, f, lno)
    {
    }
  }

  /** A run to the return of the call, with what the chunks' searches find. */
  ghost predicate RunOf(run: seq<State>, out: seq<seq<Result>>) {
    run != [] && Run(run) && run[0].out == out && run[|run| - 1].caller.Returned?
  }

  /**
   * When the call returns, in whatever interleaving, it has delivered the
   * answers to the query, if the search of each chunk is the one above.
   */
  lemma DeliversAnswers(run: seq<State>, index: Index, q: Query, handed: seq<seq<Piece>>, out: seq<seq<Result>>,
                        filtered: bool, useful: bool)
    requires IndexValid(index) && AllSearched(index, q, handed, out, filtered, useful) && (!filtered ==> useful)
    requires RunOf(run, out)
    ensures Answers(index, q, run[|run| - 1].delivered, filtered, useful)
  {
    var given := run[|run| - 1].delivered;
    Delivered(run);
    TogetherUpTo(index, q, handed, out, filtered, useful, |out|);
    hide IndexValid, Run, AllComplete, NoRepeats, LastsExactly, OfChunks, AllWanted, VisitsFine, AllReports, Everything;
    assert handed[..|out|] == handed && out[..|out|] == out;
    NumbersOrder(|out|);
    Grep.Conclude(index, q, Numbers(|out|), Flat(handed), filtered, useful);
    if Single(index, filtered, useful) {
      AllOnce(index, q, Flat(handed));
    }
    forall r ensures multiset(given)[r] == multiset(Flat(out))[r] {
      assert Count(given, r) == Everything(out, r);
      EverythingIs(out, r);
    }
    AnswersPermuted(index, q, given, Flat(out), filtered, useful);
  }

  /** Plans the query and says what the search of each chunk finds. */
  method MatchApart(re: Regexps.Regexp, index: Index, q: Query)
    returns (out: seq<seq<Result>>, filtered: bool, ghost handed: seq<seq<Piece>>)
    requires IndexValid(index) && Regexps.InScope(re) && Grep.Engine(re, q.line)
    ensures AllSearched(index, q, handed, out, filtered, !filtered || Regexps.ForgetsNoRepetition(re))
    ensures forall run: seq<State> | RunOf(run, out) ::
      Answers(index, q, run[|run| - 1].delivered, filtered, !filtered || Regexps.ForgetsNoRepetition(re))
  {
    hide IndexValid, Regexps.InScope, Regexps.ForgetsNoRepetition, Grep.Engine, Selects, ChunkSearched, Answers, Run;
    var key: Q.QueryPlan?;
    ghost var nodes: set<Q.QueryPlan>;
    key, nodes := Planner.ConstructQueryPlan(re);
    filtered := Filters(key);
    ghost var useful := !filtered || Regexps.ForgetsNoRepetition(re);
    if key == null {
      nodes := {};
    } else if Regexps.ForgetsNoRepetition(re) {
      Grep.SoundSelects(re, q.line, key.tree);
    }
    out, handed := [], [];
    for c := 0 to |index.chunks|
      invariant |out| == |handed| == c && Q.Closed(nodes) && Q.In(key, nodes) && filtered == Filters(key)
      invariant filtered && useful ==> Selects(key.tree, q.line)
      invariant forall i | 0 <= i < c :: ChunkSearched(index, q, i, handed[i], out[i], filtered, useful)
    {
      var reports;
      ghost var lines;
      reports, lines := SearchOne(index, q, key, nodes, c);
      SearchedWeaker(index, q, c, lines, reports, filtered, filtered ==> Selects(key.tree, q.line), useful);
      out, handed := out + [reports], handed + [lines];
    }
    forall run: seq<State> | RunOf(run, out)
      ensures Answers(index, q, run[|run| - 1].delivered, filtered, useful)
    {
      DeliversAnswers(run, index, q, handed, out, filtered, useful);
    }
  }

  lemma SearchedWeaker(index: Index, q: Query, c: nat, handed: seq<Piece>, reports: seq<Result>, filtered: bool,
                       complete: bool, useful: bool)
    requires ChunkSearched(index, q, c, handed, reports, filtered, complete) && (useful ==> complete)
    ensures ChunkSearched(index, q, c, handed, reports, filtered, useful)
  {
  }
}
