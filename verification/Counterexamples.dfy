/** Inputs on which the search, or a part of it, misses something, stated on the model of the code as it is. */
module Counterexamples {
  import opened Bytes
  import opened Lines
  import opened ChunkFiles
  import opened FileContents
  import opened IndexTypes
  import opened Scanning
  import opened SuffixArrays
  import opened Wrappers
  import Grep
  import SuffixSearch
  import Regexps
  import P = Plans
  import Q = QueryPlans
  import PlanSoundness
  import PlanConcat
  import IndexWalker
  import Runes

  // ----- A forgotten repetition -----

  function Letter(b: Byte): Regexps.Regexp
    requires b < 0x80
  {
    Regexps.Literal(b)
  }

  /** `w(x+|y)z` */
  function RepeatedAlternative(): Regexps.Regexp {
    Regexps.Concat([Letter(119), Regexps.Alternate([Regexps.Plus(Letter(120)), Letter(121)]), Letter(122)])
  }

  const wxxz: seq<Byte> := [119, 120, 120, 122]

  lemma InOrderStep(head: Regexps.Regexp, rest: seq<Regexps.Regexp>, u: seq<Byte>, v: seq<Byte>)
    requires Regexps.Matches(head, u) && Regexps.MatchesInOrder(rest, v)
    ensures Regexps.MatchesInOrder([head] + rest, u + v)
  {
    assert (u + v)[..|u|] == u && (u + v)[|u|..] == v && ([head] + rest)[1..] == rest;
  }

  lemma TimesStep(re: Regexps.Regexp, u: seq<Byte>, v: seq<Byte>, n: nat)
    requires Regexps.Matches(re, u) && Regexps.MatchesTimes(re, v, n)
    ensures Regexps.MatchesTimes(re, u + v, n + 1)
  {
    assert (u + v)[..|u|] == u && (u + v)[|u|..] == v;
  }

  lemma TwoMatchPlus(re: Regexps.Regexp, u: seq<Byte>, v: seq<Byte>)
    requires Regexps.Matches(re, u) && Regexps.Matches(re, v)
    ensures Regexps.Matches(Regexps.Plus(re), u + v)
  {
    TimesStep(re, v, [], 0);
    assert v + [] == v;
    TimesStep(re, u, v, 1);
  }

  lemma ThreeInOrder(a: Regexps.Regexp, b: Regexps.Regexp, c: Regexps.Regexp, u: seq<Byte>, v: seq<Byte>, w: seq<Byte>)
    requires Regexps.Matches(a, u) && Regexps.Matches(b, v) && Regexps.Matches(c, w)
    ensures Regexps.MatchesInOrder([a, b, c], u + (v + w))
  {
    hide Regexps.Matches;
    InOrderStep(c, [], w, []);
    assert [c] + [] == [c] && w + [] == w;
    InOrderStep(b, [c], v, w);
    assert [b] + [c] == [b, c];
    InOrderStep(a, [b, c], u, v + w);
    assert [a] + [b, c] == [a, b, c];
  }

  lemma LetterMatches(b: Byte)
    requires b < 0x80
    ensures Regexps.Matches(Letter(b), [b])
  {
  }

  lemma SomeMatches(subs: seq<Regexps.Regexp>, i: nat, w: seq<Byte>)
    requires i < |subs| && Regexps.Matches(subs[i], w)
    ensures Regexps.Matches(Regexps.Alternate(subs), w)
  {
  }

  lemma MatchesTwoX(a: Regexps.Regexp)
    requires a == Regexps.Alternate([Regexps.Plus(Letter(120)), Letter(121)])
    ensures Regexps.Matches(a, [120, 120])
  {
    LetterMatches(120);
    assert [120] + [120] == [120, 120];
    SomeMatches(a.subs, 0, [120, 120]) by {
      hide Regexps.Matches;
      TwoMatchPlus(Letter(120), [120], [120]);
    }
  }

  lemma ConcatMatches(subs: seq<Regexps.Regexp>, w: seq<Byte>)
    requires Regexps.MatchesInOrder(subs, w)
    ensures Regexps.Matches(Regexps.Concat(subs), w)
  {
  }

  lemma MatchesRepeated()
    ensures Regexps.Matches(RepeatedAlternative(), wxxz)
  {
    hide Regexps.Matches, Regexps.MatchesInOrder;
    var a := Regexps.Alternate([Regexps.Plus(Letter(120)), Letter(121)]);
    MatchesTwoX(a);
    LetterMatches(119);
    LetterMatches(122);
    ThreeInOrder(Letter(119), a, Letter(122), [119], [120, 120], [122]);
    assert [119] + ([120, 120] + [122]) == wxxz;
    ConcatMatches([Letter(119), a, Letter(122)], wxxz);
  }

  lemma {:induction false} LiteralPath(s: seq<Byte>, t: seq<Byte>)
    ensures P.Path(IndexWalker.LiteralTree(s), t) <==> t == s
  {
    if s != [] && t != [] {
      LiteralPath(s[1..], t[1..]);
      assert s == [s[0]] + s[1..] && t == [t[0]] + t[1..];
      assert P.Covers(IndexWalker.LiteralTree(s).edges[0], t[0]) <==> s[0] == t[0];
    }
  }

  /** The plan of `w(o)z` for a plan `o`. */
  function Joined(o: P.Plan): P.Plan {
    P.Subst(P.Subst(IndexWalker.LiteralTree([119]), o), IndexWalker.LiteralTree([122]))
  }

  lemma PathOfJoined(o: P.Plan, t: seq<Byte>)
    requires P.Proper(o) && P.Path(Joined(o), t)
    requires P.Alternates(IndexWalker.LiteralTree([120]), IndexWalker.LiteralTree([121]), o)
    ensures |t| == 3 && t[0] == 119 && t[2] == 122
  {
    var w, z := IndexWalker.LiteralTree([119]), IndexWalker.LiteralTree([122]);
    hide P.Proper, P.WellFormed, P.Path, P.Subst, P.Alternates, IndexWalker.LiteralTree;
    var n := P.SubstPathSplits(P.Subst(w, o), z, t);
    var m := P.SubstPathSplits(w, o, t[..n]);
    LiteralPath([119], t[..n][..m]);
    LiteralPath([122], t[n..]);
    XorYPath(o, t[..n][m..]);
    assert t == t[..n][..m] + t[..n][m..] + t[n..];
  }

  /** Any plan for `x|y` that gives up nowhere misses "wxxz" between a `w` and a `z`. */
  lemma JoinedMisses(o: P.Plan, i: nat)
    requires i <= |wxxz| && P.Proper(o) && P.WellFormed(o)
    requires P.Alternates(IndexWalker.LiteralTree([120]), IndexWalker.LiteralTree([121]), o)
    ensures !P.Walk(Joined(o), wxxz[i..])
  {
    JoinedProper(o);
    hide P.Proper, P.WellFormed, P.Walk, P.Path, Joined, P.Alternates, IndexWalker.LiteralTree;
    P.WalkIsPathPrefix(Joined(o), wxxz[i..]);
    if k :| 0 <= k <= |wxxz[i..]| && P.Path(Joined(o), wxxz[i..][..k]) {
      var t := wxxz[i..][..k];
      NoSuchPart(i, k);
      PathOfJoined(o, t);
    }
  }

  /** "wxxz" holds no `w` two bytes before a `z`. */
  lemma NoSuchPart(i: nat, k: nat)
    requires i + k <= |wxxz|
    ensures var t := wxxz[i..][..k]; !(|t| == 3 && t[0] == 119 && t[2] == 122)
  {
    var t := wxxz[i..][..k];
    if k == 3 {
      assert t[2] == wxxz[i + 2];
    }
  }

  lemma JoinedProper(o: P.Plan)
    requires P.Proper(o) && P.WellFormed(o)
    ensures P.Proper(Joined(o))
  {
    var w, z := IndexWalker.LiteralTree([119]), IndexWalker.LiteralTree([122]);
    IndexWalker.LiteralTreeShape([119]);
    IndexWalker.LiteralTreeShape([122]);
    hide P.Proper, P.WellFormed, IndexWalker.LiteralTree;
    P.SubstWellFormed(w, o);
    P.SubstWellFormed(P.Subst(w, o), z);
  }

  lemma XorYPath(o: P.Plan, t: seq<Byte>)
    requires P.Proper(o) && P.Path(o, t)
    requires P.Alternates(IndexWalker.LiteralTree([120]), IndexWalker.LiteralTree([121]), o)
    ensures |t| == 1
  {
    LiteralPath([120], t);
    LiteralPath([121], t);
  }

  lemma RepeatedInScope()
    ensures Regexps.InScope(RepeatedAlternative()) && !Regexps.ForgetsNoRepetition(RepeatedAlternative())
  {
    var a := Regexps.Alternate([Regexps.Plus(Letter(120)), Letter(121)]);
    assert Regexps.MayRepeat(a.subs[0]);
    assert Regexps.ForgetsRepetition(a.subs);
    assert !Regexps.ForgetsNoRepetition(a);
    assert RepeatedAlternative().subs[1] == a;
  }

  /** The plan of one letter is one edge that ends a path. */
  lemma OneEdge(key: Q.QueryPlan, nodes: set<Q.QueryPlan>, c: Byte)
    requires Q.Closed(nodes) && key in nodes && key.tree == IndexWalker.LiteralTree([c])
    ensures |key.edges| == 1 && Q.Flat(key)
  {
    assert key.Reflects(nodes);
    assert key.tree.edges[0].next == P.Tail;
    assert key.edges[0].next != null ==> key.edges[0].next.Reflects(nodes);
  }

  /**
   * The planner's steps on `w(x+|y)z` when it gives up nowhere: the plans of the
   * letters, the mark for `x+`, alternation, and two joins. The plan they build
   * accepts from no offset of "wxxz", which the expression matches.
   */
  method RepetitionForgotten() returns (key: Q.QueryPlan, ghost nodes: set<Q.QueryPlan>)
    ensures fresh(nodes) && key in nodes && Q.Closed(nodes)
    ensures Regexps.InScope(RepeatedAlternative()) && !Regexps.ForgetsNoRepetition(RepeatedAlternative())
    ensures Regexps.Matches(RepeatedAlternative(), wxxz) && !exists i :: PlanSoundness.WalksFrom(key.tree, wxxz, i)
  {
    MatchesRepeated();
    RepeatedInScope();
    hide Q.Closed, Q.CacheValid, P.Alternates, P.WellFormed, P.Proper, P.Subst, IndexWalker.LiteralTree;
    hide Regexps.Matches, Regexps.ForgetsNoRepetition, Regexps.InScope;
    var alternative, last;
    ghost var anodes, wnodes, znodes;
    alternative, anodes := PlanOfXorY();
    key, wnodes := LetterPlan(119);
    last, znodes := LetterPlan(122);
    ghost var o := alternative.tree;
    nodes := PlanConcat.Concat(key, alternative, wnodes, anodes);
    JoinedHasEdges(key, nodes, o);
    nodes := PlanConcat.Concat(key, last, nodes, znodes);
    forall i | PlanSoundness.WalksFrom(key.tree, wxxz, i) ensures false {
      JoinedMisses(o, i);
    }
  }

  lemma JoinedHasEdges(key: Q.QueryPlan, nodes: set<Q.QueryPlan>, o: P.Plan)
    requires Q.Closed(nodes) && key in nodes && key.tree == P.Subst(IndexWalker.LiteralTree([119]), o)
    ensures key.edges != []
  {
    assert key.Reflects(nodes);
  }

  /** The plan of a letter, with one edge. */
  method LetterPlan(c: Byte) returns (key: Q.QueryPlan, ghost nodes: set<Q.QueryPlan>)
    requires c != NEWLINE && c < 255
    ensures fresh(nodes) && key in nodes && Q.Closed(nodes) && key.anchor == Q.kAnchorBoth
    ensures |key.edges| == 1 && Q.Flat(key) && key.tree == IndexWalker.LiteralTree([c])
    ensures P.Proper(key.tree)
  {
    IndexWalker.LiteralTreeShape([c]);
    hide Q.Closed, P.Proper, IndexWalker.LiteralTree;
    key, nodes := IndexWalker.LiteralPlan([c]);
    OneEdge(key, nodes, c);
  }

  /** The plan of `x+|y`. */
  method PlanOfXorY() returns (key: Q.QueryPlan, ghost nodes: set<Q.QueryPlan>)
    ensures fresh(nodes) && key in nodes && Q.Closed(nodes) && key.edges != [] && key.anchor == Q.kAnchorBoth
    ensures P.Proper(key.tree) && P.WellFormed(key.tree)
    ensures P.Alternates(IndexWalker.LiteralTree([120]), IndexWalker.LiteralTree([121]), key.tree)
  {
    hide P.Alternates, P.Proper, P.WellFormed, IndexWalker.LiteralTree, Q.AlternateResult, Q.Closed;
    var x, y, out;
    ghost var xnodes, ynodes, cache;
    x, xnodes := LetterPlan(120);
    x.anchor := PlanSoundness.PlusAnchor(x.anchor);
    y, ynodes := LetterPlan(121);
    IndexWalker.UnionClosed(xnodes, ynodes);
    assert Q.Flat(x) && Q.Flat(y) && Q.Merges(x, y, 0);
    hide Q.Flat, Q.Merges;
    out, cache, nodes := Q.Alternate(map[], x, y, 0, xnodes + ynodes);
    XorYWhole(x, y, out, nodes);
    key := out;
  }

  /** Nothing was given up, so the plan is anchored on both sides. */
  lemma XorYWhole(x: Q.QueryPlan, y: Q.QueryPlan, out: Q.QueryPlan?, nodes: set<Q.QueryPlan>)
    requires Q.In(out, nodes) && Q.Closed(nodes) && x != y && Q.AlternateResult(x, y, out)
    requires Q.Flat(x) && Q.Flat(y) && P.Proper(x.tree) && P.Proper(y.tree)
    requires out != null ==> Q.KeepsAnchors(x, y, out)
    requires PlanSoundness.Whole(x.anchor) && PlanSoundness.Whole(y.anchor)
    ensures out != null && out in nodes && out.edges != [] && out.anchor == Q.kAnchorBoth
    ensures P.Proper(out.tree) && P.WellFormed(out.tree) && P.Alternates(x.tree, y.tree, out.tree)
  {
    hide P.Alternates, P.Proper, P.WellFormed, Q.Flat;
  }

  // ----- A range of Cyrillic letters -----

  /** The plan of the range from U+0430 to U+044F, the lower-case Russian letters: 32 runes, whose encodings start with D0 or D1. */
  function CyrillicTree(): P.Plan {
    P.Node([P.Edge(0xD0, 0xD0, P.Tail), P.Edge(0xD1, 0xD1, P.Node([P.Edge(0x8F, 0x8F, P.Tail)]))])
  }

  lemma CyrillicTreeIs()
    ensures CyrillicTree() == IndexWalker.LexTree(Runes.Encode(0x430), Runes.Encode(0x44F))
    ensures !Runes.SameButLast(Runes.Encode(0x430), Runes.Encode(0x44F))
  {
    var lo, hi := Runes.Encode(0x430), Runes.Encode(0x44F);
    assert lo == [0xD0, 0xB0] && hi == [0xD1, 0x8F];
    assert lo[1..] == [0xB0] && hi[1..] == [0x8F];
    assert lo[..1] == [0xD0] && hi[..1] == [0xD1];
    assert IndexWalker.LexTree([0xB0], [0x8F]) == P.Node([P.Edge(0x8F, 0x8F, P.Tail)]);
  }

  /**
   * The planner's graph for that range misses its second half: the encodings of
   * the letters from U+0440 on, but the last, are accepted from no offset. A
   * class is spared this if it has no ASCII range, as it is then given up.
   */
  lemma CyrillicMissed(r: Runes.Rune, i: nat)
    requires 0x440 <= r < 0x44F && i <= |Runes.Encode(r)|
    ensures !P.Walk(IndexWalker.LexTree(Runes.Encode(0x430), Runes.Encode(0x44F)), Runes.Encode(r)[i..])
  {
    CyrillicTreeIs();
    hide IndexWalker.LexTree;
    var s := Runes.Encode(r);
    assert s == [0xD1, 0x80 + r % 0x40] && s[0..] == s;
    var below := P.Node([P.Edge(0x8F, 0x8F, P.Tail)]);
    OneLevel(below, s[1..]);
  }

  /** A node with one edge accepts by its first byte. */
  lemma OneLevel(p: P.Plan, s: seq<Byte>)
    requires p == P.Node([P.Edge(0x8F, 0x8F, P.Tail)])
    ensures P.Walk(p, s) ==> s != [] && s[0] == 0x8F
  {
  }

  // ----- An empty last line -----

  function TwoLines(): Text {
    [97, NEWLINE, NEWLINE]
  }

  function OneRange(): seq<ChunkFile> {
    [ChunkFile([0], 0, 2)]
  }

  /** One file, the lines "a" and "", alone in the index. */
  function SmallIndex(): Index {
    Index(
      [Chunk(TwoLines(), [2, 1, 0], OneRange(), {[]}, BuildTree(OneRange(), 0, 1))],
      [IndexedFile([], [], [Piece(0, 0, 1), Piece(0, 2, 0)])],
      2048)
  }

  /** A query every line matches. */
  function EveryLine(): Query {
    Query((_, _, _) => true, _ => true, None, None, None, None, 0)
  }

  lemma SmallSuffixes()
    ensures SuffixSearch.Index(TwoLines(), [2, 1, 0])
  {
    var m := Munged(TwoLines());
    assert m == [97, 0, 0];
    assert m[2..] == [0] && m[1..] == [0, 0] && m[0..] == m;
    assert LexLe(m[2..], m[1..]) by {
      assert m[2..][1..] == [];
    }
    var s: seq<nat> := [2, 1, 0];
    assert LexLe(m[1..], m[0..]);
    hide LexLe, Munged;
    forall p: nat | p < 3 ensures p in s {
      assert s[2 - p] == p;
    }
  }

  lemma SmallIndexValid()
    ensures IndexValid(SmallIndex())
  {
    var index := SmallIndex();
    SmallSuffixes();
    var chunk := index.chunks[0];
    assert IsLine(TwoLines(), 0, 1) && IsLine(TwoLines(), 2, 2);
    assert Holds(chunk, 0, 0, Piece(0, 0, 1)) && Holds(chunk, 0, 0, Piece(0, 2, 0));
    assert FileValid(index, 0);
    SmallChunkValid();
    hide ChunkValid, SuffixSearch.Index, Holds, IsLine;
    assert OneRangePerLine(chunk);
  }

  lemma SmallChunkValid()
    ensures ChunkValid(SmallIndex(), SmallIndex().chunks[0])
  {
    SmallSuffixes();
    var files, ranges := SmallIndex().files, OneRange();
    assert files[ranges[0].files[0]].tree in TreeNames(files, ranges);
  }

  /** The line "" at the end of the chunk matches, and yet an exact search does not report it. */
  lemma EmptyLastLineMissed(queue: seq<Result>)
    requires Grep.AllReportedUnlessPassedOver(SmallIndex(), EveryLine(), queue)
    ensures IndexValid(SmallIndex()) && !EveryLine().Restricted()
    ensures Grep.Greps(SmallIndex(), EveryLine(), 0, 2) && Grep.TheReport(SmallIndex(), EveryLine(), 0, 2) !in queue
  {
    SmallIndexValid();
    var index, q, line := SmallIndex(), EveryLine(), TwoLines()[0..1];
    hide IndexValid, Report;
    assert q.line([], 0, 0) && LineMatches(q.line, []);
    assert TwoLines()[2..2] == [];
    assert Grep.Greps(index, q, 0, 2);
    assert q.line(line, 0, 0) && LineMatches(q.line, line);
    assert LineStart(TwoLines(), 1) == 0;
    assert Grep.PassedOver(index, q, Piece(0, 2, 0));
    assert Grep.ReportedUnlessPassedOver(index, q, queue, 0, 2);
  }
}
