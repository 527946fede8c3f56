/** The search of a chunk through its suffix array, and the search of the whole index. */
module Search {
  import opened Bytes
  import opened Lines
  import opened ChunkFiles
  import opened FileContents
  import opened IndexTypes
  import opened Searchers
  import opened Scanning
  import opened RadixSort
  import SuffixSearch
  import PlanSoundness
  import P = Plans
  import Q = QueryPlans

  /** Every line that is due has been handed on, except perhaps an empty line at the end of the chunk. */
  ghost predicate Complete(index: Index, q: Query, c: nat, handed: seq<Piece>) {
    forall a: nat, b: nat | Due(index, q, c, a, b) && a < |index.chunks[c].data| - 1 :: Piece(c, a, b - a) in handed
  }

  /** Some of the positions lies in the line, before its newline. */
  ghost predicate Hit(idx: seq<nat>, a: int, b: int) {
    exists k | 0 <= k < |idx| :: a <= idx[k] < b
  }

  /** The newline before the line of `p`, or the start of the text. */
  function LineStartOrNewline(data: Text, p: nat): (r: nat)
    requires p <= |data|
    ensures r <= LineStart(data, p) && Boundary(data, r)
  {
    var a := LineStart(data, p);
    if a == 0 then 0 else a - 1
  }

  lemma {:induction false} LineStartMonotone(data: Text, p: nat, r: nat)
    requires p <= r <= |data|
    ensures LineStart(data, p) <= LineStart(data, r)
  {
  }

  lemma LineEndMonotone(data: Text, p: nat, r: nat)
    requires p <= r <= |data|
    ensures LineEnd(data, p) <= LineEnd(data, r)
  {
  }

  predicate InOrder(idx: seq<nat>) {
    forall i, j | 0 <= i < j < |idx| :: idx[i] <= idx[j]
  }

  /**
   * Between two scans: the lines hit before `g` are done, the current interval
   * starts at the line of hit `g` and reaches hit `i - 1`, and the finger is not
   * beyond the last interval scanned.
   */
  ghost predicate Between(index: Index, q: Query, c: nat, idx: seq<nat>, handed: seq<Piece>, it: nat,
                          lastMin: nat, lastEnd: nat, min: nat, max: nat, g: nat, i: nat)
  {
    && c < |index.chunks| && g < |idx| && i <= |idx| && g <= i && (i > 0 ==> g < i)
    && idx[g] <= |index.chunks[c].data| && min == LineStartOrNewline(index.chunks[c].data, idx[g])
    && max == idx[if i == 0 then 0 else i - 1] < |index.chunks[c].data|
    && lastMin <= min && lastEnd <= LineEnd(index.chunks[c].data, max)
    && (q.Restricted() ==> PassedBy(index, q, c, 0, it, lastEnd))
    && CoveredTo(index, q, c, handed, lastMin, lastEnd, lastEnd)
    && HitsDone(index, q, c, idx, handed, g)
  }

  /** The lines hit by the first `g` positions are done. */
  ghost predicate HitsDone(index: Index, q: Query, c: nat, idx: seq<nat>, handed: seq<Piece>, g: nat)
  {
    forall a: nat, b: nat, k | Due(index, q, c, a, b) && a < b && 0 <= k < g && k < |idx| && a <= idx[k] <= b ::
      Piece(c, a, b - a) in handed
  }

  /** The finger may be used for the next interval. */
  lemma FingerFits(index: Index, q: Query, c: nat, handed: seq<Piece>, it: nat, lastMin: nat, lastEnd: nat, min: nat, end: nat)
    requires c < |index.chunks| && lastMin <= min && lastEnd <= end
    requires q.Restricted() ==> PassedBy(index, q, c, 0, it, lastEnd)
    requires CoveredTo(index, q, c, handed, lastMin, lastEnd, lastEnd)
    ensures FingerDone(index, q, c, it, min, end, handed, min)
    ensures q.Restricted() ==> PassedBy(index, q, c, 0, it, end)
  {
    hide Wanted, Query.AcceptsAny;
    if q.Restricted() {
      forall j | 0 <= j < it && Accepted(index, q, c, j)
        ensures RangeDone(index, q, c, index.chunks[c].files[j], min, end, handed)
      {
        forall a: nat, b: nat | Wanted(q, index.chunks[c].data, a, b) && Inside(index, q, c, a, b) && min <= a && b <= end
          && InRange(index.chunks[c].files[j], a, b)
          ensures Piece(c, a, b - a) in handed
        {
          assert Due(index, q, c, a, b);
        }
      }
    }
  }

  /** After scanning the current interval, the lines hit up to `i` are done. */
  lemma IntervalDone(index: Index, q: Query, c: nat, idx: seq<nat>, handed0: seq<Piece>, handed: seq<Piece>,
                     it0: nat, lastMin: nat, lastEnd: nat, min: nat, max: nat, g: nat, i: nat, end: nat)
    requires InOrder(idx) && Between(index, q, c, idx, handed0, it0, lastMin, lastEnd, min, max, g, i)
    requires end == LineEnd(index.chunks[c].data, max) && i > 0
    requires CoveredTo(index, q, c, handed, min, end, end)
    requires forall x | x in handed0 :: x in handed
    ensures HitsDone(index, q, c, idx, handed, i)
  {
    hide Wanted, Query.AcceptsAny;
    var data := index.chunks[c].data;
    forall a: nat, b: nat, k | Due(index, q, c, a, b) && a < b && 0 <= k < i && k < |idx| && a <= idx[k] <= b
      ensures Piece(c, a, b - a) in handed
    {
      if k >= g {
        assert idx[g] <= idx[k] <= max;
        DueLine(index, q, c, a, b);
        LineUnique(data, a, b, idx[k]);
        LineStartMonotone(data, idx[g], idx[k]);
        LineEndMonotone(data, idx[k], max);
      }
    }
  }

  lemma DueLine(index: Index, q: Query, c: nat, a: nat, b: nat)
    requires Due(index, q, c, a, b)
    ensures c < |index.chunks| && IsLine(index.chunks[c].data, a, b)
  {
  }

  // ----- No line twice -----

  /** Between any two hits on one line that are 250 bytes or more apart there is another. */
  ghost predicate CloseHits(data: Text, hits: seq<nat>) {
    forall p, r | p in hits && r in hits && p + 250 <= r < |data| && NoNewline(data, p, r) ::
      exists t | t in hits :: p < t < r
  }

  ghost predicate ShortLines(data: Text) {
    forall a, b | IsLine(data, a, b) :: b - a < 250
  }

  /** On short lines all hits are close. */
  lemma ShortIsClose(data: Text, hits: seq<nat>)
    requires Terminated(data) && ShortLines(data)
    ensures CloseHits(data, hits)
  {
    forall p, r | p in hits && r in hits && p + 250 <= r < |data| && NoNewline(data, p, r) ensures false {
      LineAround(data, p);
    }
  }

  /** Neighbouring hits that are scanned apart are on different lines. */
  lemma FarApart(data: Text, hits: seq<nat>, p: nat, r: nat)
    requires Terminated(data) && CloseHits(data, hits) && p + 250 <= r < |data|
    requires p in hits && r in hits && forall t | t in hits :: !(p < t < r)
    ensures LineEnd(data, p) <= LineStartOrNewline(data, r) && data[LineStartOrNewline(data, r)] == NEWLINE
  {
    var b := LineEnd(data, p);
    assert b < r;
    LineStartMonotone(data, b + 1, r);
  }

  /** In a sorted list nothing is between neighbours. */
  lemma Neighbours(idx: seq<nat>, i: nat)
    requires InOrder(idx) && 0 < i < |idx|
    ensures forall t | t in idx :: !(idx[i - 1] < t < idx[i])
  {
    forall t | t in idx ensures !(idx[i - 1] < t < idx[i]) {
      var k :| 0 <= k < |idx| && idx[k] == t;
    }
  }

  /** What has been handed on is in order, and the next interval starts at a newline after it. */
  ghost predicate Fresh(index: Index, q: Query, c: nat, added: seq<Piece>, lastEnd: nat, min: nat) {
    && Increasing(index, q, c, added, lastEnd + 1)
    && (added == [] || (lastEnd <= min < |index.chunks[c].data| && index.chunks[c].data[min] == NEWLINE))
  }

  lemma FreshJoin(index: Index, q: Query, c: nat, added: seq<Piece>, lastEnd: nat, min: nat, more: seq<Piece>, end: nat)
    requires Fresh(index, q, c, added, lastEnd, min) && Increasing(index, q, c, more, end + 1)
    requires AllAfter(index.chunks[c].data, more, min) && lastEnd <= end
    ensures Increasing(index, q, c, added + more, end + 1)
  {
    hide Wanted;
    var all := added + more;
    forall i | 0 <= i < |all| ensures all[i] == if i < |added| then added[i] else more[i - |added|] {
    }
  }

  /** Under which no line is scanned twice. */
  ghost predicate OnceEach(index: Index, q: Query, c: nat, hits: seq<nat>) {
    c < |index.chunks| && NeverEmpty(q.line) && CloseHits(index.chunks[c].data, hits)
  }

  lemma NeverEmptyThen(index: Index, q: Query, c: nat, hits: seq<nat>)
    requires OnceEach(index, q, c, hits)
    ensures NeverEmpty(q.line)
  {
  }

  lemma FreshStart(index: Index, q: Query, c: nat, min: nat)
    requires c < |index.chunks|
    ensures Fresh(index, q, c, [], 0, min)
  {
  }

  lemma FreshNext(index: Index, q: Query, c: nat, idx: seq<nat>, i: nat, added: seq<Piece>, end: nat, max: nat, next: nat)
    requires OnceEach(index, q, c, idx) && Terminated(index.chunks[c].data) && max + kMinSkip <= next < |index.chunks[c].data|
    requires InOrder(idx) && 0 < i < |idx| && max == idx[i - 1] && next == idx[i]
    requires end == LineEnd(index.chunks[c].data, max) && Increasing(index, q, c, added, end + 1)
    ensures Fresh(index, q, c, added, end, LineStartOrNewline(index.chunks[c].data, next))
  {
    Neighbours(idx, i);
    FarApart(index.chunks[c].data, idx, max, next);
  }

  lemma FreshEnd(index: Index, q: Query, c: nat, added: seq<Piece>, end: nat)
    requires c < |index.chunks| && Increasing(index, q, c, added, end + 1) && end < |index.chunks[c].data|
    ensures Increasing(index, q, c, added, |index.chunks[c].data|)
  {
    IncreasingLater(index, q, c, added, end + 1, |index.chunks[c].data|);
  }

  /** `search_lines`: scans around the hits, or the whole chunk if there are many of them. */
  method SearchLines(s: Searcher, indexes: array<nat>, count: nat, c: nat)
    requires s.Valid() && c < |s.index.chunks| && s.index.chunks[c].data != []
    requires count > indexes.Length ==> count * kMinFilterRatio > |s.index.chunks[c].data|
    requires count <= indexes.Length ==> forall i | 0 <= i < count :: indexes[i] < |s.index.chunks[c].data|
    modifies s, indexes
    ensures s.Valid() && |old(s.handed)| <= |s.handed| && s.handed[..|old(s.handed)|] == old(s.handed)
    ensures count > indexes.Length ==> Complete(s.index, s.q, c, s.handed)
    ensures count <= indexes.Length ==> HitsHanded(s.index, s.q, c, old(indexes[..count]), s.handed)
    ensures count > indexes.Length || old(OnceEach(s.index, s.q, c, indexes[..count])) ==>
      Increasing(s.index, s.q, c, s.handed[|old(s.handed)|..], |s.index.chunks[c].data|)
  {
    hide Due, IndexValid, OnceEach, HitsHanded, Complete, Increasing;
    var dense: bool := *;
    ghost var hits := if count <= indexes.Length then indexes[..count] else [];
    if count == 0 {
      NoHits(s.index, s.q, c, hits, s.handed);
    } else if count * kMinFilterRatio > |s.index.chunks[c].data| || (s.q.Restricted() && dense) {
      s.FullSearch(c);
      AllCovered(s.index, s.q, c, s.handed);
      CompleteHits(s.index, s.q, c, hits, s.handed);
    } else {
      SizeBound(s, c);
      LsdRadixSort(indexes, count);
      SortedHits(s.index, s.q, c, hits, indexes[..count]);
      ScanHits(s, indexes, count, c);
      UnsortedHits(s.index, s.q, c, hits, indexes[..count], s.handed);
    }
  }

  lemma AllCovered(index: Index, q: Query, c: nat, handed: seq<Piece>)
    requires c < |index.chunks| && var maxpos := |index.chunks[c].data| - 1; CoveredTo(index, q, c, handed, 0, maxpos, maxpos)
    ensures Complete(index, q, c, handed)
  {
  }

  /** Every line due that one of the positions lies in has been handed on. */
  ghost predicate HitsHanded(index: Index, q: Query, c: nat, hits: seq<nat>, handed: seq<Piece>) {
    forall a: nat, b: nat | Due(index, q, c, a, b) && Hit(hits, a, b) :: Piece(c, a, b - a) in handed
  }

  lemma NoHits(index: Index, q: Query, c: nat, hits: seq<nat>, handed: seq<Piece>)
    requires hits == [] && c < |index.chunks|
    ensures HitsHanded(index, q, c, hits, handed) && Increasing(index, q, c, handed[|handed|..], |index.chunks[c].data|)
  {
  }

  lemma CompleteHits(index: Index, q: Query, c: nat, hits: seq<nat>, handed: seq<Piece>)
    requires Complete(index, q, c, handed)
    ensures HitsHanded(index, q, c, hits, handed)
  {
    forall a: nat, b: nat | Due(index, q, c, a, b) && Hit(hits, a, b) ensures Piece(c, a, b - a) in handed {
      DueLine(index, q, c, a, b);
    }
  }

  lemma SizeBound(s: Searcher, c: nat)
    requires s.Valid() && c < |s.index.chunks|
    ensures |s.index.chunks[c].data| < kLimit && Terminated(s.index.chunks[c].data)
  {
    assert ChunkValid(s.index, s.index.chunks[c]);
  }

  lemma SortedHits(index: Index, q: Query, c: nat, s: seq<nat>, t: seq<nat>)
    requires multiset(s) == multiset(t)
    ensures OnceEach(index, q, c, s) ==> OnceEach(index, q, c, t)
    ensures forall k | 0 <= k < |t| :: t[k] in s
  {
    hide Due;
    SameMembers(s, t);
  }

  lemma SameMembers(s: seq<nat>, t: seq<nat>)
    requires multiset(s) == multiset(t)
    ensures forall x :: x in s <==> x in t
  {
    forall x ensures x in s <==> x in t {
      assert x in multiset(s) <==> x in multiset(t);
    }
  }

  lemma UnsortedHits(index: Index, q: Query, c: nat, s: seq<nat>, t: seq<nat>, handed: seq<Piece>)
    requires multiset(s) == multiset(t) && HitsHanded(index, q, c, t, handed)
    ensures HitsHanded(index, q, c, s, handed)
  {
    hide Due;
    SameMembers(s, t);
    forall a: nat, b: nat | Due(index, q, c, a, b) && Hit(s, a, b) ensures Piece(c, a, b - a) in handed {
      var k :| 0 <= k < |s| && a <= s[k] < b;
      assert s[k] in s;
      var l :| 0 <= l < |t| && t[l] == s[k];
      assert Hit(t, a, b);
    }
  }

  /** The loop over the sorted hits. */
  method ScanHits(s: Searcher, indexes: array<nat>, count: nat, c: nat)
    requires s.Valid() && c < |s.index.chunks| && 0 < count <= indexes.Length
    requires forall i | 0 <= i < count :: indexes[i] < |s.index.chunks[c].data|
    requires InOrder(indexes[..count])
    modifies s
    ensures s.Valid() && |old(s.handed)| <= |s.handed| && s.handed[..|old(s.handed)|] == old(s.handed)
    ensures HitsHanded(s.index, s.q, c, indexes[..count], s.handed)
    ensures OnceEach(s.index, s.q, c, indexes[..count]) ==>
      Increasing(s.index, s.q, c, s.handed[|old(s.handed)|..], |s.index.chunks[c].data|)
  {
    hide Due, IndexValid, HitsDone, CoveredTo, PassedBy, HitsHanded, FingerDone, LastLineExactly, Increasing, Between, InOrder;
    hide OnceEach, Fresh, AllAfter;
    ghost var before := s.handed;
    SizeBound(s, c);
    var data := s.index.chunks[c].data;
    ghost var idx := indexes[..count];
    var finger := new MatchFinger();
    var max: nat, min: nat := indexes[0], LineStartOrNewline(data, indexes[0]);
    ghost var g: nat, lastMin: nat, lastEnd: nat := 0, 0, 0;
    StartHits(s.index, s.q, c, idx, s.handed, min, max);
    FreshStart(s.index, s.q, c, min);
    assert s.handed[|before|..] == [];
    for i := 0 to count + 1
      invariant s.Valid() && finger.it <= |s.index.chunks[c].files| && indexes[..count] == idx
      invariant |old(s.handed)| <= |s.handed| && s.handed[..|old(s.handed)|] == old(s.handed)
      invariant i <= count ==>
        Between(s.index, s.q, c, idx, s.handed, finger.it, lastMin, lastEnd, min, max, g, i)
      invariant i == count + 1 ==> HitsDone(s.index, s.q, c, idx, s.handed, count)
      invariant OnceEach(s.index, s.q, c, idx) && i <= count ==>
        Fresh(s.index, s.q, c, s.handed[|before|..], lastEnd, min)
      invariant OnceEach(s.index, s.q, c, idx) && i == count + 1 ==>
        Increasing(s.index, s.q, c, s.handed[|before|..], |data|)
    {
      HitFacts(s.index, s.q, c, idx, s.handed, finger.it, lastMin, lastEnd, min, max, g, i);
      if i != count {
        assert indexes[i] == idx[i];
        if indexes[i] < max + kMinSkip {
          Extend(s.index, s.q, c, idx, s.handed, finger.it, lastMin, lastEnd, min, max, g, i);
          if indexes[i] < max {
            continue;
          }
          max := indexes[i];
          continue;
        }
      }
      EndsAtNewline(data, max);
      var end := LineEnd(data, max);
      FingerFits(s.index, s.q, c, s.handed, finger.it, lastMin, lastEnd, min, end);
      ghost var handed0, it0 := s.handed, finger.it;
      s.FullSearchIn(finger, c, min, end);
      if OnceEach(s.index, s.q, c, idx) {
        NeverEmptyThen(s.index, s.q, c, idx);
        IntervalFresh(s.index, s.q, c, before, handed0, s.handed, lastEnd, min, end);
        if i != count {
          FreshNext(s.index, s.q, c, idx, i, s.handed[|before|..], end, max, indexes[i]);
        }
      }
      Scanned(s.index, s.q, c, idx, handed0, s.handed, it0, finger.it, lastMin, lastEnd, min, max, g, i, end);
      lastMin, lastEnd := min, end;
      if i != count {
        max := indexes[i];
        min := LineStartOrNewline(data, max);
        g := i;
      }
    }
    AllDone(s.index, s.q, c, idx, s.handed);
  }

  lemma IntervalFresh(index: Index, q: Query, c: nat, before: seq<Piece>, handed0: seq<Piece>, handed: seq<Piece>,
                      lastEnd: nat, min: nat, end: nat)
    requires c < |index.chunks| && |before| <= |handed0| <= |handed| && handed[..|handed0|] == handed0
    requires Fresh(index, q, c, handed0[|before|..], lastEnd, min) && lastEnd <= end < |index.chunks[c].data|
    requires Increasing(index, q, c, handed[|handed0|..], end + 1)
    requires AllAfter(index.chunks[c].data, handed[|handed0|..], min)
    ensures Increasing(index, q, c, handed[|before|..], end + 1)
    ensures Increasing(index, q, c, handed[|before|..], |index.chunks[c].data|)
  {
    hide Increasing, AllAfter;
    FreshJoin(index, q, c, handed0[|before|..], lastEnd, min, handed[|handed0|..], end);
    assert handed == handed0 + handed[|handed0|..];
    assert handed[|before|..] == handed0[|before|..] + handed[|handed0|..];
    FreshEnd(index, q, c, handed[|before|..], end);
  }

  lemma StartHits(index: Index, q: Query, c: nat, idx: seq<nat>, handed: seq<Piece>, min: nat, max: nat)
    requires c < |index.chunks| && idx != [] && idx[0] < |index.chunks[c].data|
    requires max == idx[0] && min == LineStartOrNewline(index.chunks[c].data, max)
    ensures Between(index, q, c, idx, handed, 0, 0, 0, min, max, 0, 0)
  {
  }

  lemma HitFacts(index: Index, q: Query, c: nat, idx: seq<nat>, handed: seq<Piece>, it: nat,
                 lastMin: nat, lastEnd: nat, min: nat, max: nat, g: nat, i: nat)
    requires Between(index, q, c, idx, handed, it, lastMin, lastEnd, min, max, g, i) && InOrder(idx)
    ensures max < |index.chunks[c].data| && Boundary(index.chunks[c].data, min) && min <= max
    ensures lastMin <= min && lastEnd <= LineEnd(index.chunks[c].data, max)
    ensures q.Restricted() ==> PassedBy(index, q, c, 0, it, lastEnd)
    ensures CoveredTo(index, q, c, handed, lastMin, lastEnd, lastEnd)
    ensures i < |idx| ==> max <= idx[i] && max == if i == 0 then idx[0] else idx[i - 1]
  {
    assert idx[g] <= max;
  }

  lemma Extend(index: Index, q: Query, c: nat, idx: seq<nat>, handed: seq<Piece>, it: nat,
               lastMin: nat, lastEnd: nat, min: nat, max: nat, g: nat, i: nat)
    requires Between(index, q, c, idx, handed, it, lastMin, lastEnd, min, max, g, i) && InOrder(idx)
    requires i < |idx| && idx[i] < |index.chunks[c].data|
    ensures max <= idx[i]
    ensures Between(index, q, c, idx, handed, it, lastMin, lastEnd, min, idx[i], g, i + 1)
  {
    LineEndMonotone(index.chunks[c].data, max, idx[i]);
  }

  lemma Scanned(index: Index, q: Query, c: nat, idx: seq<nat>, handed0: seq<Piece>, handed: seq<Piece>, it0: nat, it: nat,
                lastMin: nat, lastEnd: nat, min: nat, max: nat, g: nat, i: nat, end: nat)
    requires InOrder(idx) && Between(index, q, c, idx, handed0, it0, lastMin, lastEnd, min, max, g, i)
    requires end == LineEnd(index.chunks[c].data, max) && i > 0
    requires |handed0| <= |handed| && handed[..|handed0|] == handed0
    requires CoveredTo(index, q, c, handed, min, end, end)
    requires q.Restricted() ==> PassedBy(index, q, c, 0, it, end)
    ensures HitsDone(index, q, c, idx, handed, i)
    ensures i < |idx| && idx[i] < |index.chunks[c].data| ==>
      Between(index, q, c, idx, handed, it, min, end, LineStartOrNewline(index.chunks[c].data, idx[i]), idx[i], i, i + 1)
  {
    forall x | x in handed0 ensures x in handed {
      var k :| 0 <= k < |handed0| && handed0[k] == x;
      assert handed[k] == handed[..|handed0|][k];
    }
    hide Due, HitsDone;
    IntervalDone(index, q, c, idx, handed0, handed, it0, lastMin, lastEnd, min, max, g, i, end);
    if i < |idx| && idx[i] < |index.chunks[c].data| {
      LineStartMonotone(index.chunks[c].data, idx[g], idx[i]);
      LineEndMonotone(index.chunks[c].data, max, idx[i]);
    }
  }

  lemma AllDone(index: Index, q: Query, c: nat, idx: seq<nat>, handed: seq<Piece>)
    requires HitsDone(index, q, c, idx, handed, |idx|)
    ensures HitsHanded(index, q, c, idx, handed)
  {
    hide Due;
  }

  // ----- Searching one chunk -----

  /** Whatever the pattern matches holds an offset from which the plan accepts. */
  ghost predicate Selects(tree: P.Plan, m: Pattern) {
    forall line: Text, i: nat, j: nat | i <= j <= |line| && m(line, i, j) ::
      exists k :: PlanSoundness.WalksFrom(tree, line[i..j], k)
  }

  /** A plan with edges accepts only from a position within the text it is found in. */
  lemma HitInside(tree: P.Plan, data: Text, x: nat, y: nat, k: nat)
    requires tree.Node? && tree.edges != [] && x <= y <= |data| && PlanSoundness.WalksFrom(tree, data[x..y], k)
    ensures x + k < y && P.Walk(tree, data[x + k..])
  {
    var w := data[x..y];
    assert w[k..] != [];
    assert data[x + k..] == w[k..] + data[y..];
    P.WalkExtends(tree, w[k..], data[y..]);
  }

  lemma MatchIsHit(tree: P.Plan, m: Pattern, data: Text, a: nat, b: nat) returns (p: nat)
    requires tree.Node? && tree.edges != [] && Selects(tree, m)
    requires a <= b <= |data| && LineMatches(m, data[a..b])
    ensures a <= p < b && P.Walk(tree, data[p..])
  {
    hide P.Walk, PlanSoundness.WalksFrom;
    var i: nat, j: nat :| i <= j <= |data[a..b]| && m(data[a..b], i, j);
    var k :| PlanSoundness.WalksFrom(tree, data[a..b][i..j], k);
    SliceOfSlice(data, a, b, i, j);
    FromStart(tree, data[a + i..a + j], k);
    HitInside(tree, data, a + i, a + j, k);
    p := a + i + k;
  }

  lemma SliceOfSlice(data: Text, a: nat, b: nat, i: nat, j: nat)
    requires i <= j && a + j <= b <= |data|
    ensures data[a..b][i..j] == data[a + i..a + j]
  {
    var l, r := data[a..b][i..j], data[a + i..a + j];
    assert |l| == |r|;
    assert forall k | 0 <= k < |l| :: l[k] == r[k];
  }

  lemma FromStart(tree: P.Plan, w: Text, k: int)
    requires PlanSoundness.WalksFrom(tree, w, k)
    ensures 0 <= k
  {
  }

  /** The plan accepts from a position in the line. */
  ghost predicate AcceptsIn(index: Index, c: nat, tree: P.Plan, a: int, b: int) {
    c < |index.chunks|
    && exists p :: 0 <= p < |index.chunks[c].data| && a <= p < b && P.Walk(tree, index.chunks[c].data[p..])
  }

  /** Every line due from a position of which the plan accepts has been handed on. */
  ghost predicate PlanHanded(index: Index, q: Query, c: nat, tree: P.Plan, handed: seq<Piece>) {
    forall a: nat, b: nat | Due(index, q, c, a, b) && AcceptsIn(index, c, tree, a, b) :: Piece(c, a, b - a) in handed
  }

  lemma PlanHits(index: Index, q: Query, c: nat, tree: P.Plan, hits: seq<nat>, handed: seq<Piece>)
    requires c < |index.chunks| && HitsHanded(index, q, c, hits, handed)
    requires forall p | 0 <= p < |index.chunks[c].data| && P.Walk(tree, index.chunks[c].data[p..]) :: p in hits
    ensures PlanHanded(index, q, c, tree, handed)
  {
    hide P.Walk, Due;
    forall a: nat, b: nat | Due(index, q, c, a, b) && AcceptsIn(index, c, tree, a, b) ensures Piece(c, a, b - a) in handed {
      var p :| 0 <= p < |index.chunks[c].data| && a <= p < b && P.Walk(tree, index.chunks[c].data[p..]);
      var k :| 0 <= k < |hits| && hits[k] == p;
      assert Hit(hits, a, b);
    }
  }

  lemma CompletePlan(index: Index, q: Query, c: nat, tree: P.Plan, handed: seq<Piece>)
    requires Complete(index, q, c, handed)
    ensures PlanHanded(index, q, c, tree, handed)
  {
    hide P.Walk, Due;
    forall a: nat, b: nat | Due(index, q, c, a, b) && AcceptsIn(index, c, tree, a, b) ensures Piece(c, a, b - a) in handed {
      DueLine(index, q, c, a, b);
    }
  }

  /** A plan that selects all matches finds every line due. */
  lemma SelectsComplete(index: Index, q: Query, c: nat, tree: P.Plan, handed: seq<Piece>)
    requires tree.Node? && tree.edges != [] && Selects(tree, q.line) && PlanHanded(index, q, c, tree, handed)
    ensures Complete(index, q, c, handed)
  {
    hide Selects, P.Walk, LineMatches;
    forall a: nat, b: nat | Due(index, q, c, a, b) ensures Piece(c, a, b - a) in handed {
      var p := MatchIsHit(tree, q.line, index.chunks[c].data, a, b);
    }
  }

  /** A buffer of the configured size that was too small forces a full scan. */
  lemma OverflowForcesFull(size: nat, chunkSize: nat, count: nat)
    requires size <= chunkSize && count == chunkSize / kMinFilterRatio + 1
    ensures count * kMinFilterRatio > size
  {
  }

  /** `filtered_search`: the suffix walk, then the lines around its hits. */
  method FilteredSearch(s: Searcher, key: Q.QueryPlan, ghost nodes: set<Q.QueryPlan>, indexes: array<nat>, c: nat)
    requires s.Valid() && c < |s.index.chunks| && indexes.Length == s.index.chunkSize / kMinFilterRatio
    requires Q.Closed(nodes) && key in nodes && key.edges != []
    modifies s, indexes
    ensures s.Valid() && |old(s.handed)| <= |s.handed| && s.handed[..|old(s.handed)|] == old(s.handed)
    ensures PlanHanded(s.index, s.q, c, key.tree, s.handed)
    ensures Selects(key.tree, s.q.line) ==> Complete(s.index, s.q, c, s.handed)
    ensures Selects(key.tree, s.q.line) && ShortLines(s.index.chunks[c].data) ==>
      Increasing(s.index, s.q, c, s.handed[|old(s.handed)|..], |s.index.chunks[c].data|)
  {
    hide Selects, Complete, HitsHanded, PlanHanded, OnceEach, SuffixSearch.Index, P.Walk, ShortLines, NeverEmpty, Increasing,
      SuffixSearch.AllStops, SuffixSearch.Emitted;
    SearchFacts(s, c);
    ghost var tree := key.tree;
    assert tree.Node? && tree.edges != [] by {
      assert key.Reflects(nodes);
    }
    var data := s.index.chunks[c].data;
    var count := SuffixSearch.Search(data, s.index.chunks[c].suffixes, key, indexes, nodes);
    if count > indexes.Length {
      OverflowForcesFull(|data|, s.index.chunkSize, count);
    }
    ghost var hits := if count <= indexes.Length then indexes[..count] else [];
    if count <= indexes.Length {
      EmittedHits(data, tree, hits);
    }
    if Selects(tree, s.q.line) {
      SelectsNeverEmpty(tree, s.q.line);
      ShortOnceEach(s.index, s.q, c, hits);
    }
    SearchLines(s, indexes, count, c);
    if count > indexes.Length {
      CompletePlan(s.index, s.q, c, tree, s.handed);
    } else {
      PlanHits(s.index, s.q, c, tree, hits, s.handed);
    }
    if Selects(tree, s.q.line) {
      SelectsComplete(s.index, s.q, c, tree, s.handed);
    }
  }

  lemma EmittedHits(data: Text, tree: P.Plan, hits: seq<nat>)
    requires SuffixSearch.Emitted(data, tree, hits)
    ensures forall a | 0 <= a < |hits| :: hits[a] < |data|
  {
    hide SuffixSearch.Stops;
    forall a | 0 <= a < |hits| ensures hits[a] < |data| {
      assert hits[a] in hits;
    }
  }

  lemma ShortOnceEach(index: Index, q: Query, c: nat, hits: seq<nat>)
    requires c < |index.chunks| && NeverEmpty(q.line) && Terminated(index.chunks[c].data)
    ensures ShortLines(index.chunks[c].data) ==> OnceEach(index, q, c, hits)
  {
    hide NeverEmpty, ShortLines, CloseHits;
    if ShortLines(index.chunks[c].data) {
      ShortIsClose(index.chunks[c].data, hits);
    }
  }

  /** A plan with edges accepts no empty text. */
  lemma SelectsNeverEmpty(tree: P.Plan, m: Pattern)
    requires tree.Node? && tree.edges != [] && Selects(tree, m)
    ensures NeverEmpty(m)
  {
    forall line: Text, i: nat | i <= |line| ensures !m(line, i, i) {
      assert line[i..i] == [];
    }
  }

  lemma SearchFacts(s: Searcher, c: nat)
    requires s.Valid() && c < |s.index.chunks|
    ensures SuffixSearch.Index(s.index.chunks[c].data, s.index.chunks[c].suffixes)
    ensures 0 < |s.index.chunks[c].data| <= s.index.chunkSize && Terminated(s.index.chunks[c].data)
  {
    assert ChunkValid(s.index, s.index.chunks[c]);
  }

  /** `should_search_chunk`: some tree of the chunk may be asked for. */
  predicate ShouldSearchChunk(q: Query, chunk: Chunk) {
    q.treePat.None? || exists name | name in chunk.treeNames :: q.treePat.value(name)
  }

  /** A chunk that is skipped holds no line of an accepted file. */
  lemma SkippedChunk(index: Index, q: Query, c: nat, handed: seq<Piece>)
    requires IndexValid(index) && c < |index.chunks| && !ShouldSearchChunk(q, index.chunks[c])
    ensures Complete(index, q, c, handed)
  {
    hide LineMatches;
    forall a: nat, b: nat | Due(index, q, c, a, b) ensures false {
      var j :| Accepted(index, q, c, j) && InRange(index.chunks[c].files[j], a, b);
      var name := AcceptedTree(index, q, c, j);
      assert false;
    }
  }

  lemma AcceptedTree(index: Index, q: Query, c: nat, j: nat) returns (name: Text)
    requires IndexValid(index) && Accepted(index, q, c, j) && q.treePat.Some?
    ensures name in index.chunks[c].treeNames && q.treePat.value(name)
  {
    var chunk := index.chunks[c];
    assert ChunkValid(index, chunk);
    var i :| 0 <= i < |chunk.files[j].files| && q.Accepts(index.files[chunk.files[j].files[i]]);
    name := index.files[chunk.files[j].files[i]].tree;
  }

  /** Is there a plan to filter by? */
  predicate Filters(key: Q.QueryPlan?)
    reads key
  {
    key != null && key.edges != []
  }

  /** `searcher::operator()`: the search of one chunk. */
  method SearchChunk(s: Searcher, key: Q.QueryPlan?, ghost nodes: set<Q.QueryPlan>, indexes: array<nat>, c: nat)
    requires s.Valid() && c < |s.index.chunks| && indexes.Length == s.index.chunkSize / kMinFilterRatio
    requires Q.Closed(nodes) && Q.In(key, nodes)
    modifies s, indexes
    ensures s.Valid() && |old(s.handed)| <= |s.handed| && s.handed[..|old(s.handed)|] == old(s.handed)
    ensures (Filters(key) ==> Selects(key.tree, s.q.line)) ==> Complete(s.index, s.q, c, s.handed)
    ensures Filters(key) ==> PlanHanded(s.index, s.q, c, key.tree, s.handed)
    ensures !Filters(key) || (Selects(key.tree, s.q.line) && ShortLines(s.index.chunks[c].data)) ==>
      Increasing(s.index, s.q, c, s.handed[|old(s.handed)|..], |s.index.chunks[c].data|)
    ensures !Filters(key) ==> LastExactly(s.index, s.q, c, s.handed[|old(s.handed)|..])
  {
    hide Selects, Complete, PlanHanded, Increasing, Due, LastLineExactly, ShortLines;
    SearchFacts(s, c);
    if !ShouldSearchChunk(s.q, s.index.chunks[c]) {
      SkippedChunk(s.index, s.q, c, s.handed);
      if Filters(key) {
        CompletePlan(s.index, s.q, c, key.tree, s.handed);
      }
      NoneIncreasing(s.index, s.q, c, s.handed[|s.handed|..]);
    } else if key != null && key.edges != [] {
      FilteredSearch(s, key, nodes, indexes, c);
    } else {
      s.FullSearch(c);
      AllCovered(s.index, s.q, c, s.handed);
    }
  }

  /** The fate of an empty last line, where it is simple. */
  ghost predicate LastExactly(index: Index, q: Query, c: nat, handed: seq<Piece>) {
    && c < |index.chunks| && index.chunks[c].data != []
    && var maxpos := |index.chunks[c].data| - 1;
      LastLine(index, q, c, 0, maxpos) ==> LastLineExactly(index, q, c, handed, maxpos)
  }

  lemma NoneIncreasing(index: Index, q: Query, c: nat, added: seq<Piece>)
    requires c < |index.chunks| && index.chunks[c].data != [] && added == [] && q.treePat.Some?
    ensures Increasing(index, q, c, added, |index.chunks[c].data|) && LastExactly(index, q, c, added)
  {
  }

  // ----- Searching all chunks -----

  ghost predicate NoRepeats(handed: seq<Piece>) {
    forall i, j | 0 <= i < j < |handed| :: handed[i] != handed[j]
  }

  ghost predicate OfChunks(handed: seq<Piece>, done: seq<nat>) {
    forall i | 0 <= i < |handed| :: handed[i].chunk in done
  }

  ghost predicate AllComplete(index: Index, q: Query, done: seq<nat>, handed: seq<Piece>) {
    forall c | c in done :: Complete(index, q, c, handed)
  }

  ghost predicate AllPlanHanded(index: Index, q: Query, done: seq<nat>, tree: P.Plan, handed: seq<Piece>) {
    forall c | c in done :: PlanHanded(index, q, c, tree, handed)
  }

  /** Every number below `n`, each once. */
  predicate IsOrder(order: seq<nat>, n: nat) {
    && (forall i | 0 <= i < |order| :: order[i] < n)
    && (forall i, j | 0 <= i < j < |order| :: order[i] != order[j])
    && (forall c: nat | c < n :: c in order)
  }

  ghost predicate LastsExactly(index: Index, q: Query, done: seq<nat>, handed: seq<Piece>) {
    forall c | c in done :: LastExactly(index, q, c, handed)
  }

  ghost predicate AllShort(index: Index) {
    forall c | 0 <= c < |index.chunks| :: ShortLines(index.chunks[c].data)
  }

  /** What has been found stays found. */
  lemma StillComplete(index: Index, q: Query, done: seq<nat>, c: nat, handed0: seq<Piece>, handed: seq<Piece>)
    requires AllComplete(index, q, done, handed0)
    requires |handed0| <= |handed| && handed[..|handed0|] == handed0 && Complete(index, q, c, handed)
    ensures AllComplete(index, q, done + [c], handed)
  {
    hide Due;
    forall x | x in handed0 ensures x in handed {
      var k :| 0 <= k < |handed0| && handed0[k] == x;
      assert handed[k] == handed[..|handed0|][k];
    }
  }

  lemma StillPlanHanded(index: Index, q: Query, done: seq<nat>, c: nat, tree: P.Plan, handed0: seq<Piece>, handed: seq<Piece>)
    requires AllPlanHanded(index, q, done, tree, handed0)
    requires |handed0| <= |handed| && handed[..|handed0|] == handed0 && PlanHanded(index, q, c, tree, handed)
    ensures AllPlanHanded(index, q, done + [c], tree, handed)
  {
    hide Due, AcceptsIn;
    forall x | x in handed0 ensures x in handed {
      SamePieces(handed0, handed, x);
    }
    forall d | d in done ensures PlanHanded(index, q, d, tree, handed) {
      assert PlanHanded(index, q, d, tree, handed0);
    }
  }

  lemma StillNoRepeats(index: Index, q: Query, done: seq<nat>, c: nat, handed0: seq<Piece>, handed: seq<Piece>, pos: nat)
    requires NoRepeats(handed0) && OfChunks(handed0, done) && c !in done
    requires |handed0| <= |handed| && handed[..|handed0|] == handed0
    requires Increasing(index, q, c, handed[|handed0|..], pos)
    ensures NoRepeats(handed) && OfChunks(handed, done + [c])
  {
    hide Wanted;
    var n, added := |handed0|, handed[|handed0|..];
    forall i | 0 <= i < |handed| ensures handed[i] == if i < n then handed0[i] else added[i - n] {
      assert i < n ==> handed[i] == handed[..n][i];
    }
    forall i, j | 0 <= i < j < |handed| ensures handed[i] != handed[j] {
      if n <= i {
        assert added[i - n].off < added[j - n].off;
      }
    }
  }

  lemma StillLastsExactly(index: Index, q: Query, done: seq<nat>, c: nat, handed0: seq<Piece>, handed: seq<Piece>, pos: nat)
    requires OfChunks(handed0, done) && c !in done
    requires |handed0| <= |handed| && handed[..|handed0|] == handed0
    requires Increasing(index, q, c, handed[|handed0|..], pos)
    requires LastsExactly(index, q, done, handed0) && LastExactly(index, q, c, handed[|handed0|..])
    ensures LastsExactly(index, q, done + [c], handed)
  {
    hide Wanted, LastLine, AfterLastMatch, Lands, LastExactly, LastsExactly;
    forall x: Piece | x.chunk in done ensures x in handed <==> x in handed0 {
      SamePieces(handed0, handed, x);
    }
    forall x: Piece | x.chunk == c ensures x in handed <==> x in handed[|handed0|..] {
      SamePieces(handed0, handed, x);
    }
    LastsSame(index, q, done, c, handed0, handed, handed[|handed0|..]);
  }

  lemma SamePieces(handed0: seq<Piece>, handed: seq<Piece>, x: Piece)
    requires |handed0| <= |handed| && handed[..|handed0|] == handed0
    ensures x in handed <==> x in handed0 || x in handed[|handed0|..]
  {
    assert handed == handed0 + handed[|handed0|..];
  }

  lemma LastsSame(index: Index, q: Query, done: seq<nat>, c: nat, handed0: seq<Piece>, handed: seq<Piece>, added: seq<Piece>)
    requires LastsExactly(index, q, done, handed0) && LastExactly(index, q, c, added)
    requires forall x: Piece | x.chunk in done :: x in handed <==> x in handed0
    requires forall x: Piece | x.chunk == c :: x in handed <==> x in added
    ensures LastsExactly(index, q, done + [c], handed)
  {
    hide Wanted, LastLine, AfterLastMatch, Lands;
    forall d | d in done + [c] ensures LastExactly(index, q, d, handed) {
      if d in done {
        assert LastExactly(index, q, d, handed0);
      }
    }
  }

  /**
   * The chunks of the index, in the order in which the workers take them. Every
   * line that is due is handed on. Without a plan to filter by none is twice,
   * nor with one if no line is as long as the distance that divides two scans.
   */
  method SearchIndex(s: Searcher, key: Q.QueryPlan?, ghost nodes: set<Q.QueryPlan>, order: seq<nat>)
    requires s.Valid() && s.handed == [] && Q.Closed(nodes) && Q.In(key, nodes) && IsOrder(order, |s.index.chunks|)
    modifies s
    ensures s.Valid()
    ensures (Filters(key) ==> Selects(key.tree, s.q.line)) ==> AllComplete(s.index, s.q, order, s.handed)
    ensures Filters(key) ==> AllPlanHanded(s.index, s.q, order, key.tree, s.handed)
    ensures !Filters(key) || (Selects(key.tree, s.q.line) && AllShort(s.index)) ==> NoRepeats(s.handed)
    ensures !Filters(key) ==> LastsExactly(s.index, s.q, order, s.handed)
  {
    hide LastsExactly, LastExactly, Selects, AllComplete, Complete, AllPlanHanded, PlanHanded, Increasing, NoRepeats, OfChunks, Q.Closed, IndexValid, ShortLines;
    var indexes := new nat[s.index.chunkSize / kMinFilterRatio](_ => 0);
    ghost var useful := Filters(key) ==> Selects(key.tree, s.q.line);
    ghost var single := !Filters(key) || (Selects(key.tree, s.q.line) && AllShort(s.index));
    NothingYet(s.index, s.q);
    ghost var tree := if Filters(key) then key.tree else P.Tail;
    NothingPlanned(s.index, s.q, tree);
    for i := 0 to |order|
      invariant s.Valid() && Q.Closed(nodes) && fresh(indexes)
      invariant useful ==> AllComplete(s.index, s.q, order[..i], s.handed)
      invariant Filters(key) ==> key.tree == tree && AllPlanHanded(s.index, s.q, order[..i], tree, s.handed)
      invariant single ==> NoRepeats(s.handed) && OfChunks(s.handed, order[..i])
      invariant !Filters(key) ==> LastsExactly(s.index, s.q, order[..i], s.handed)
    {
      var c := order[i];
      ghost var handed0 := s.handed;
      SearchChunk(s, key, nodes, indexes, c);
      assert order[..i + 1] == order[..i] + [c];
      if useful {
        StillComplete(s.index, s.q, order[..i], c, handed0, s.handed);
      }
      if Filters(key) {
        StillPlanHanded(s.index, s.q, order[..i], c, tree, handed0, s.handed);
      }
      if single {
        StillNoRepeats(s.index, s.q, order[..i], c, handed0, s.handed, |s.index.chunks[c].data|);
      }
      if !Filters(key) {
        StillLastsExactly(s.index, s.q, order[..i], c, handed0, s.handed, |s.index.chunks[c].data|);
      }
    }
    assert order[..|order|] == order;
  }

  lemma NothingPlanned(index: Index, q: Query, tree: P.Plan)
    ensures AllPlanHanded(index, q, [], tree, [])
  {
  }

  lemma NothingYet(index: Index, q: Query)
    ensures AllComplete(index, q, [], []) && NoRepeats([]) && OfChunks([], []) && LastsExactly(index, q, [], [])
  {
  }
}
