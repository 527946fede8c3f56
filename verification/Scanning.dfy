/**
 * Scanning a chunk for matching lines: the whole of it, or the ranges of
 * accepted files, or intervals around the hits of the suffix array.
 */
module Scanning {
  import opened Bytes
  import opened Lines
  import opened ChunkFiles
  import opened FileContents
  import opened IndexTypes
  import opened Searchers

  /** A line the query is after. */
  ghost predicate Wanted(q: Query, data: Text, a: int, b: int) {
    IsLine(data, a, b) && LineMatches(q.line, data[a..b]) && q.valid(data[a..b])
  }

  /** Position in the ranges of a chunk, shared by successive scans. */
  class MatchFinger {
    var it: nat

    constructor ()
      ensures it == 0
    {
      it := 0;
    }
  }

  predicate InRange(x: ChunkFile, a: int, b: int) {
    x.left <= a && b <= x.right
  }

  /** An accepted range ends here. */
  ghost predicate EndsRange(index: Index, q: Query, c: nat, a: int) {
    exists j :: Accepted(index, q, c, j) && index.chunks[c].files[j].right == a
  }

  /** Not an empty line at which an accepted range ends. */
  ghost predicate Inside(index: Index, q: Query, c: nat, a: int, b: int) {
    a < b || (a == b && !EndsRange(index, q, c, a))
  }

  /** The wanted lines of range `x` within `lo..hi` have been handed on, but for an empty one at the end of a range. */
  ghost predicate RangeDone(index: Index, q: Query, c: nat, x: ChunkFile, lo: int, hi: int, handed: seq<Piece>)
    requires c < |index.chunks|
  {
    forall a: nat, b: nat
      | Wanted(q, index.chunks[c].data, a, b) && Inside(index, q, c, a, b) && lo <= a && b <= hi && InRange(x, a, b) ::
      Piece(c, a, b - a) in handed
  }

  /** A position scans start from or end at: a line's start, or a newline. */
  predicate Boundary(data: Text, p: int) {
    0 <= p <= |data| && (p == 0 || data[p - 1] == NEWLINE || (p < |data| && data[p] == NEWLINE))
  }

  /** The piece is a wanted line of its chunk. */
  ghost predicate WantedPiece(index: Index, q: Query, x: Piece) {
    x.chunk < |index.chunks| && Wanted(q, index.chunks[x.chunk].data, x.off, x.off + x.len)
  }

  ghost predicate AllWanted(index: Index, q: Query, handed: seq<Piece>) {
    forall i | 0 <= i < |handed| :: WantedPiece(index, q, handed[i])
  }

  lemma RootRanges(index: Index, c: nat)
    requires IndexValid(index) && c < |index.chunks|
    ensures InOrder(index.chunks[c].root) == index.chunks[c].files
    ensures Augmented(index.chunks[c].root) && FilesExist(index, index.chunks[c].files)
  {
    assert ChunkValid(index, index.chunks[c]);
    BuildTreeCorrect(index.chunks[c].files, 0, |index.chunks[c].files|);
    assert index.chunks[c].files[0..|index.chunks[c].files|] == index.chunks[c].files;
  }

  ghost predicate VisitsFine(index: Index, line: Piece) {
    line.chunk < |index.chunks| && FilesExist(index, Visits(index.chunks[line.chunk].root, line.off))
  }

  ghost function LineReports(index: Index, q: Query, line: Piece): seq<Result>
    requires VisitsFine(index, line)
  {
    RangesReports(index, q, Visits(index.chunks[line.chunk].root, line.off), line)
  }

  ghost function AllReports(index: Index, q: Query, handed: seq<Piece>): seq<Result>
    requires forall i | 0 <= i < |handed| :: VisitsFine(index, handed[i])
  {
    if handed == [] then []
    else AllReports(index, q, handed[..|handed| - 1]) + LineReports(index, q, handed[|handed| - 1])
  }

  lemma WantedIsLine(index: Index, q: Query, line: Piece)
    requires WantedPiece(index, q, line)
    ensures PieceIsLine(Texts(index), line) && line.chunk < |index.chunks|
  {
  }

  /** One more line, and its reports. */
  lemma HandedOnce(index: Index, q: Query, handed: seq<Piece>, line: Piece)
    requires AllWanted(index, q, handed) && WantedPiece(index, q, line)
    requires (forall i | 0 <= i < |handed| :: VisitsFine(index, handed[i])) && VisitsFine(index, line)
    ensures AllWanted(index, q, handed + [line])
    ensures forall i | 0 <= i < |handed + [line]| :: VisitsFine(index, (handed + [line])[i])
    ensures AllReports(index, q, handed + [line]) == AllReports(index, q, handed) + LineReports(index, q, line)
  {
    hide VisitsFine, WantedPiece, LineReports;
    assert (handed + [line])[..|handed|] == handed;
  }

  class Searcher {
    const index: Index
    const q: Query
    var queue: seq<Result>
    ghost var handed: seq<Piece>

    constructor (index: Index, q: Query)
      requires IndexValid(index)
      ensures this.index == index && this.q == q && Valid() && handed == []
    {
      this.index := index;
      this.q := q;
      queue := [];
      handed := [];
    }

    /** The queue holds exactly the reports of the lines handed on. */
    ghost predicate Valid()
      reads this
    {
      && IndexValid(index) && AllWanted(index, q, handed)
      && (forall i | 0 <= i < |handed| :: VisitsFine(index, handed[i]))
      && queue == AllReports(index, q, handed)
    }

    /** Hands a line on: everything the files hold of it is reported. */
    method Hand(line: Piece)
      requires Valid() && WantedPiece(index, q, line)
      modifies this
      ensures Valid() && handed == old(handed) + [line]
    {
      WantedIsLine(index, q, line);
      RootRanges(index, line.chunk);
      FileValidAll(index);
      hide IndexValid, PieceIsLine, Texts, WantedPiece;
      var results := FindMatch(index, q, index.chunks[line.chunk].root, line);
      HandedOnce(index, q, handed, line);
      queue, handed := queue + results, handed + [line];
    }

    /** Hands the line `a..b` of a chunk on, if it is valid text. */
    method HandValid(c: nat, a: nat, b: nat)
      requires Valid() && c < |index.chunks| && a <= b <= |index.chunks[c].data|
      requires IsLine(index.chunks[c].data, a, b) && LineMatches(q.line, index.chunks[c].data[a..b])
      modifies this
      ensures Valid() && handed == HandOn(q, index.chunks[c].data, c, old(handed), a, b)
    {
      hide Valid, IsLine, LineMatches;
      if q.valid(index.chunks[c].data[a..b]) {
        Hand(Piece(c, a, b - a));
      }
    }

    /**
     * Moves on to the next part of `pos..maxpos` that may hold lines of accepted
     * files; without path restrictions that is all of it.
     */
    method NextRange(finger: MatchFinger, c: nat, pos: nat, maxpos: nat) returns (pos': nat, endpos: nat)
      requires IndexValid(index) && c < |index.chunks| && finger.it <= |index.chunks[c].files|
      requires pos < maxpos < |index.chunks[c].data| && index.chunks[c].data[maxpos] == NEWLINE
      requires Boundary(index.chunks[c].data, pos)
      modifies finger
      ensures pos <= pos' <= endpos <= maxpos && Boundary(index.chunks[c].data, pos')
      ensures index.chunks[c].data[endpos] == NEWLINE
      ensures old(finger.it) <= finger.it <= |index.chunks[c].files|
      ensures !q.Restricted() ==> pos' == pos && endpos == maxpos && finger.it == old(finger.it)
      ensures q.Restricted() ==> PassedBy(index, q, c, old(finger.it), finger.it, endpos)
      ensures q.Restricted() ==> NothingBetween(index, q, c, old(finger.it), pos, pos', maxpos)
    {
      if !q.Restricted() {
        return pos, maxpos;
      }
      hide IndexValid, Accepted, PassedBy, PassedBefore, NothingBetween;
      var files, data := index.chunks[c].files, index.chunks[c].data;
      var end := |files|;
      ghost var from := finger.it;
      PassNone(index, q, c, from, pos);
      while finger.it != end && (files[finger.it].right < pos || !Accepted(index, q, c, finger.it))
            && files[finger.it].left < maxpos
        invariant from <= finger.it <= end
        invariant PassedBefore(index, q, c, from, finger.it, pos)
        decreases end - finger.it
      {
        PassOneBefore(index, q, c, from, finger.it, pos);
        finger.it := finger.it + 1;
      }
      if finger.it == end || files[finger.it].left >= maxpos {
        NothingLeft(index, q, c, from, finger.it, pos, maxpos);
        return maxpos, maxpos;
      }
      RangeFact(index, c, finger.it);
      NothingSkipped(index, q, c, from, finger.it, pos, maxpos);
      pos' := if files[finger.it].left > pos then files[finger.it].left else pos;
      endpos := files[finger.it].right;
      endpos := Coalesce(finger, c, endpos, maxpos, from);
      endpos := if maxpos < endpos then maxpos else endpos;
    }

    /** Runs the finger over the ranges that continue the current one without a large gap. */
    method Coalesce(finger: MatchFinger, c: nat, endpos0: nat, maxpos: nat, ghost from: nat) returns (endpos: nat)
      requires IndexValid(index) && c < |index.chunks| && from <= finger.it < |index.chunks[c].files|
      requires maxpos < |index.chunks[c].data| && index.chunks[c].files[finger.it].left < maxpos
      requires endpos0 < |index.chunks[c].data| && index.chunks[c].data[endpos0] == NEWLINE
      requires endpos0 == index.chunks[c].files[finger.it].right && Accepted(index, q, c, finger.it)
      requires PassedBy(index, q, c, from, finger.it, endpos0) && PassedBy(index, q, c, from, finger.it, maxpos)
      modifies finger
      ensures endpos0 <= endpos < |index.chunks[c].data| && index.chunks[c].data[endpos] == NEWLINE
      ensures old(finger.it) <= finger.it <= |index.chunks[c].files|
      ensures PassedBy(index, q, c, from, finger.it, endpos)
      ensures PassedBy(index, q, c, from, finger.it, maxpos)
    {
      hide IndexValid, Accepted, PassedBy;
      var files, data := index.chunks[c].files, index.chunks[c].data;
      var end := |files|;
      endpos := endpos0;
      while true
        invariant old(finger.it) <= finger.it < end && files[finger.it].left < maxpos
        invariant endpos0 <= endpos < |data| && data[endpos] == NEWLINE
        invariant PassedBy(index, q, c, from, finger.it, endpos)
        invariant PassedBy(index, q, c, from, finger.it, maxpos)
        invariant endpos < maxpos || (finger.it == old(finger.it) && endpos == endpos0)
        decreases end - finger.it
      {
        var x := files[finger.it];
        RangeFact(index, c, finger.it);
        if x.left >= endpos + kMinSkip {
          break;
        }
        if x.right >= endpos && Accepted(index, q, c, finger.it) {
          PassedLater(index, q, c, from, finger.it, endpos, x.right);
          endpos := if x.right > endpos then x.right else endpos;
          if endpos >= maxpos {
            break;
          }
        }
        PassOne(index, q, c, from, finger.it, endpos);
        PassOne(index, q, c, from, finger.it, maxpos);
        finger.it := finger.it + 1;
        if finger.it == end || files[finger.it].left >= maxpos {
          break;
        }
      }
    }

    /** One match at most, in the part of `pos..end` that is scanned at once. */
    method ScanPart(c: nat, pos: nat, end: nat, ghost before: seq<Piece>, ghost it: nat, ghost minpos: nat, ghost maxpos: nat)
      returns (pos': nat)
      requires Valid() && c < |index.chunks| && pos <= end <= maxpos && pos < maxpos < |index.chunks[c].data|
      requires index.chunks[c].data[end] == NEWLINE && (!q.Restricted() ==> end == maxpos) && Terminated(index.chunks[c].data)
      requires ScanState(index, q, c, before, handed, it, minpos, maxpos, pos, end)
      modifies this
      ensures Valid() && pos < pos' <= maxpos + 1
      ensures ScanState(index, q, c, before, handed, it, minpos, maxpos, pos', end)
    {
      hide Valid, ScanState, Leftmost, MatchesAt, LineMatches, NoEarlier, IsLine, HandOn, MatchesWithin;
      var data := index.chunks[c].data;
      ScanFacts(index, q, c, before, handed, it, minpos, maxpos, pos, end);
      var limit := end;
      if limit - pos > kMaxScan {
        limit := LineEnd(data, pos + kMaxScan);
      }
      NewlineLimit(data, pos, end, limit);
      var found, s, e := FirstMatch(q.line, data, pos, limit);
      if !found {
        ScanMisses(index, q, c, before, handed, it, minpos, maxpos, pos, end, limit);
        return limit + 1;
      }
      var a, b := LineStart(data, s), LineEnd(data, e);
      NoEarlierMatch(q.line, data, pos, s, limit);
      LeftmostLine(q, data, pos, limit, s, e);
      ScanFound(index, q, c, before, handed, it, minpos, maxpos, pos, end, limit, s, e, a, b);
      HandValid(c, a, b);
      pos' := b + 1;
    }

    /** `full_search` within `minpos..maxpos`: hands on the matching lines of the ranges it is sent to. */
    method FullSearchIn(finger: MatchFinger, c: nat, minpos: nat, maxpos: nat)
      requires Valid() && c < |index.chunks| && finger.it <= |index.chunks[c].files|
      requires minpos <= maxpos < |index.chunks[c].data| && index.chunks[c].data[maxpos] == NEWLINE
      requires Boundary(index.chunks[c].data, minpos)
      requires FingerDone(index, q, c, finger.it, minpos, maxpos, handed, minpos)
      requires q.Restricted() ==> PassedBy(index, q, c, 0, finger.it, maxpos)
      modifies this, finger
      ensures Valid() && old(finger.it) <= finger.it <= |index.chunks[c].files|
      ensures q.Restricted() ==> PassedBy(index, q, c, 0, finger.it, maxpos)
      ensures |old(handed)| <= |handed| && handed[..|old(handed)|] == old(handed)
      ensures Increasing(index, q, c, handed[|old(handed)|..], maxpos + 1)
      ensures CoveredTo(index, q, c, handed, minpos, maxpos, maxpos)
      ensures LastLine(index, q, c, minpos, maxpos) ==> LastLineExactly(index, q, c, handed[|old(handed)|..], maxpos)
      ensures NeverEmpty(q.line) ==> AllAfter(index.chunks[c].data, handed[|old(handed)|..], minpos)
    {
      hide Valid, IndexValid, ScanState, PassedBy, NothingBetween, Increasing, CoveredTo, LastLineExactly, Leftmost, NeverEmpty,
           MatchesAt, LineMatches, NoEarlier, IsLine, Boundary;
      ghost var before := handed;
      var data := index.chunks[c].data;
      TerminatedChunk(this, c);
      ScanStart(index, q, c, handed, finger.it, minpos, maxpos);
      var pos: nat, end: nat := minpos, minpos;
      while pos < maxpos
        invariant Valid() && old(finger.it) <= finger.it <= |index.chunks[c].files|
        invariant end <= maxpos && minpos <= pos <= maxpos + 1
        invariant ScanState(index, q, c, before, handed, finger.it, minpos, maxpos, pos, end)
        decreases maxpos + 1 - pos
      {
        ScanFacts(index, q, c, before, handed, finger.it, minpos, maxpos, pos, end);
        if pos >= end {
          ghost var it, end0, pos0 := finger.it, end, pos;
          pos, end := NextRange(finger, c, pos, maxpos);
          ScanRange(index, q, c, before, handed, it, finger.it, minpos, maxpos, pos0, end0, pos, end);
        }
        if pos >= maxpos {
          break;
        }
        pos := ScanPart(c, pos, end, before, finger.it, minpos, maxpos);
      }
      ScanEnd(index, q, c, before, handed, finger.it, minpos, maxpos, pos, end);
    }

    /** `full_search` of a whole chunk. */
    method FullSearch(c: nat)
      requires Valid() && c < |index.chunks| && index.chunks[c].data != []
      modifies this
      ensures Valid() && |old(handed)| <= |handed| && handed[..|old(handed)|] == old(handed)
      ensures var maxpos := |index.chunks[c].data| - 1;
        && Increasing(index, q, c, handed[|old(handed)|..], maxpos + 1)
        && CoveredTo(index, q, c, handed, 0, maxpos, maxpos)
        && (LastLine(index, q, c, 0, maxpos) ==> LastLineExactly(index, q, c, handed[|old(handed)|..], maxpos))
    {
      hide Valid, IndexValid, Increasing, CoveredTo, LastLine, LastLineExactly, FingerDone, PassedBy, Boundary;
      var finger := new MatchFinger();
      TerminatedChunk(this, c);
      FreshFinger(index, q, c, handed, |index.chunks[c].data| - 1);
      FullSearchIn(finger, c, 0, |index.chunks[c].data| - 1);
    }
  }

  /** A wanted line that is also in reach of the path restrictions. */
  ghost predicate Due(index: Index, q: Query, c: nat, a: int, b: int) {
    && c < |index.chunks| && Wanted(q, index.chunks[c].data, a, b)
    && (q.Restricted() ==>
      Inside(index, q, c, a, b) && exists j :: Accepted(index, q, c, j) && InRange(index.chunks[c].files[j], a, b))
  }

  /** The lines due in `lo..hi` that start before `pos` have been handed on. */
  ghost predicate CoveredTo(index: Index, q: Query, c: nat, handed: seq<Piece>, lo: int, hi: int, pos: int) {
    forall a: nat, b: nat | Due(index, q, c, a, b) && lo <= a < pos && a < hi && b <= hi :: Piece(c, a, b - a) in handed
  }

  /** The ranges before the finger end by `end`, or have nothing left to hand on in `lo..hi`. */
  ghost predicate FingerDone(index: Index, q: Query, c: nat, it: nat, lo: int, hi: int, handed: seq<Piece>, end: int) {
    q.Restricted() ==> forall j | 0 <= j < it && Accepted(index, q, c, j) ::
      index.chunks[c].files[j].right <= end
      || RangeDone(index, q, c, index.chunks[c].files[j], lo, hi, handed)
  }

  /** Wanted lines of the chunk, in increasing order, all ended before `pos`. */
  ghost predicate Increasing(index: Index, q: Query, c: nat, added: seq<Piece>, pos: int) {
    && c < |index.chunks|
    && (forall i | 0 <= i < |added| ::
      && added[i].chunk == c
      && Wanted(q, index.chunks[c].data, added[i].off, added[i].off + added[i].len)
      && added[i].off + added[i].len < pos)
    && (forall i, j | 0 <= i < j < |added| :: added[i].off < added[j].off)
  }

  /** An unrestricted scan from the start, up to an empty line. */
  predicate LastLine(index: Index, q: Query, c: nat, minpos: int, maxpos: int) {
    && c < |index.chunks| && !q.Restricted() && minpos == 0
    && IsLine(index.chunks[c].data, maxpos, maxpos)
  }

  /** The line that ends before `p` matches. */
  ghost predicate PreviousMatches(q: Query, data: Text, p: int)
    requires 0 < p <= |data|
  {
    data[p - 1] == NEWLINE && LineMatches(q.line, data[LineStart(data, p - 1)..p - 1])
  }

  /** The end of the last matching line before `hi`, its newline included. */
  ghost function AfterLastMatch(q: Query, data: Text, hi: nat): (p: nat)
    requires hi <= |data|
    ensures p <= hi && (p > 0 ==> PreviousMatches(q, data, p))
    ensures forall x | p < x <= hi :: !PreviousMatches(q, data, x)
  {
    if hi == 0 || PreviousMatches(q, data, hi) then hi else AfterLastMatch(q, data, hi - 1)
  }

  /** How far is scanned at once, from `pos` on. */
  function PartEnd(data: Text, pos: nat, hi: nat): nat
    requires pos <= hi <= |data|
  {
    if hi - pos > kMaxScan then LineEnd(data, pos + kMaxScan) else hi
  }

  /** Scanning part by part from `pos` on without a match, some part begins exactly at `hi`. */
  predicate Lands(data: Text, pos: nat, hi: nat)
    requires hi <= |data|
    decreases hi - pos
  {
    pos == hi || (pos < hi && Lands(data, PartEnd(data, pos, hi) + 1, hi))
  }

  /** The empty last line is handed on exactly if the scan from the last match before it does not stop there. */
  ghost predicate LastLineExactly(index: Index, q: Query, c: nat, added: seq<Piece>, maxpos: nat) {
    && c < |index.chunks| && maxpos <= |index.chunks[c].data|
    && var data := index.chunks[c].data;
      Wanted(q, data, maxpos, maxpos) ==>
      (Piece(c, maxpos, 0) in added <==> !Lands(data, AfterLastMatch(q, data, maxpos), maxpos))
  }

  /** The scan has not come to the last match yet, or goes on from there part by part. */
  ghost predicate TailState(index: Index, q: Query, c: nat, added: seq<Piece>, maxpos: nat, pos: nat) {
    && c < |index.chunks| && maxpos <= |index.chunks[c].data|
    && var data := index.chunks[c].data;
    var p := AfterLastMatch(q, data, maxpos);
    && (pos <= maxpos ==>
      && Piece(c, maxpos, 0) !in added && (0 < pos ==> data[pos - 1] == NEWLINE)
      && (pos <= p || (Lands(data, p, maxpos) <==> Lands(data, pos, maxpos))))
    && (pos > maxpos ==>
      !Lands(data, p, maxpos) && (Wanted(q, data, maxpos, maxpos) ==> Piece(c, maxpos, 0) in added))
  }

  /** What holds whenever the scan looks for its next match. */
  ghost predicate ScanState(index: Index, q: Query, c: nat, before: seq<Piece>, handed: seq<Piece>, it: nat,
                            lo: nat, hi: nat, pos: nat, end: nat)
  {
    && c < |index.chunks| && hi < |index.chunks[c].data|
    && end <= hi && lo <= pos <= hi + 1 && Boundary(index.chunks[c].data, pos)
    && (pos < end ==> index.chunks[c].data[end] == NEWLINE)
    && (!q.Restricted() ==> end == hi || (end == lo == pos))
    && (q.Restricted() ==> PassedBy(index, q, c, 0, it, hi))
    && FingerDone(index, q, c, it, lo, hi, handed, end)
    && |before| <= |handed| && handed[..|before|] == before
    && Increasing(index, q, c, handed[|before|..], pos)
    && CoveredTo(index, q, c, handed, lo, hi, pos)
    && (LastLine(index, q, c, lo, hi) ==> TailState(index, q, c, handed[|before|..], hi, pos))
    && (NeverEmpty(q.line) ==> AllAfter(index.chunks[c].data, handed[|before|..], lo))
  }

  /** After a scan from a newline on: the lines handed on start after it. */
  ghost predicate AllAfter(data: Text, added: seq<Piece>, lo: nat) {
    lo < |data| && data[lo] == NEWLINE ==> forall i | 0 <= i < |added| :: lo < added[i].off
  }

  lemma ScanFacts(index: Index, q: Query, c: nat, before: seq<Piece>, handed: seq<Piece>, it: nat,
                  lo: nat, hi: nat, pos: nat, end: nat)
    requires ScanState(index, q, c, before, handed, it, lo, hi, pos, end)
    ensures Boundary(index.chunks[c].data, pos)
    ensures pos < end ==> index.chunks[c].data[end] == NEWLINE && (!q.Restricted() ==> end == hi)
  {
  }

  lemma FreshFinger(index: Index, q: Query, c: nat, handed: seq<Piece>, maxpos: nat)
    requires c < |index.chunks|
    ensures FingerDone(index, q, c, 0, 0, maxpos, handed, 0) && PassedBy(index, q, c, 0, 0, maxpos)
    ensures Boundary(index.chunks[c].data, 0)
  {
  }

  lemma ScanStart(index: Index, q: Query, c: nat, handed: seq<Piece>, it: nat, lo: nat, hi: nat)
    requires c < |index.chunks| && lo <= hi < |index.chunks[c].data| && Boundary(index.chunks[c].data, lo)
    requires FingerDone(index, q, c, it, lo, hi, handed, lo)
    requires q.Restricted() ==> PassedBy(index, q, c, 0, it, hi)
    ensures ScanState(index, q, c, handed, handed, it, lo, hi, lo, lo)
  {
    hide Accepted, Wanted;
  }

  lemma ScanRange(index: Index, q: Query, c: nat, before: seq<Piece>, handed: seq<Piece>, it0: nat, it1: nat,
                  lo: nat, hi: nat, pos0: nat, end0: nat, pos: nat, end: nat)
    requires ScanState(index, q, c, before, handed, it0, lo, hi, pos0, end0) && end0 <= pos0 && it0 <= it1
    requires pos0 <= pos <= end <= hi && Boundary(index.chunks[c].data, pos) && index.chunks[c].data[end] == NEWLINE
    requires !q.Restricted() ==> pos == pos0 && end == hi
    requires q.Restricted() ==> PassedBy(index, q, c, it0, it1, end) && NothingBetween(index, q, c, it0, pos0, pos, hi)
    ensures ScanState(index, q, c, before, handed, it1, lo, hi, pos, end)
  {
    hide PassedBy, FingerDone, Increasing, CoveredTo, TailState, Boundary, NeverEmpty, AllAfter;
    RangeTaken(index, q, c, it0, it1, lo, hi, handed, end0, pos0, pos, end);
    IncreasingLater(index, q, c, handed[|before|..], pos0, pos);
  }

  lemma ScanMisses(index: Index, q: Query, c: nat, before: seq<Piece>, handed: seq<Piece>, it: nat,
                    lo: nat, hi: nat, pos: nat, end: nat, limit: nat)
    requires ScanState(index, q, c, before, handed, it, lo, hi, pos, end) && pos <= limit <= end && pos < hi
    requires index.chunks[c].data[limit] == NEWLINE && !MatchesWithin(q.line, index.chunks[c].data, pos, limit)
    requires end < |index.chunks[c].data| && limit == PartEnd(index.chunks[c].data, pos, end)
    requires !q.Restricted() ==> end == hi
    ensures ScanState(index, q, c, before, handed, it, lo, hi, limit + 1, end)
  {
    hide PassedBy, FingerDone, Increasing, CoveredTo, TailState, MatchesWithin, NeverEmpty, AllAfter;
    NothingFound(index, q, c, handed, lo, hi, pos, limit);
    TailNothingFound(index, q, c, handed[|before|..], lo, hi, pos, limit);
    IncreasingLater(index, q, c, handed[|before|..], pos, limit + 1);
  }

  lemma ScanFound(index: Index, q: Query, c: nat, before: seq<Piece>, handed: seq<Piece>, it: nat,
                  lo: nat, hi: nat, pos: nat, end: nat, limit: nat, s: nat, e: nat, a: nat, b: nat)
    requires ScanState(index, q, c, before, handed, it, lo, hi, pos, end) && pos <= limit <= end && pos < hi
    requires end < |index.chunks[c].data| && limit == PartEnd(index.chunks[c].data, pos, end)
    requires !q.Restricted() ==> end == hi
    requires Leftmost(q, index.chunks[c].data, pos, limit, s, e, a, b)
    ensures a <= b < |index.chunks[c].data| && pos <= b <= hi
    ensures IsLine(index.chunks[c].data, a, b) && LineMatches(q.line, index.chunks[c].data[a..b])
    ensures ScanState(index, q, c, before, HandOn(q, index.chunks[c].data, c, handed, a, b), it, lo, hi, b + 1, end)
  {
    hide PassedBy, FingerDone, Increasing, CoveredTo, TailState, MatchesAt, NoEarlier, LineMatches, NeverEmpty, AllAfter;
    var data := index.chunks[c].data;
    LineFound(index, q, c, handed, lo, hi, pos, limit, s, e, a, b);
    TailFound(index, q, c, handed[|before|..], lo, hi, pos, limit, s, e, a, b);
    IncreasingMore(index, q, c, handed[|before|..], pos, limit, s, e, a, b);
    if NeverEmpty(q.line) {
      AfterMore(q, data, c, handed[|before|..], lo, pos, limit, s, e, a, b);
    }
    FingerDoneMore(index, q, c, it, lo, hi, handed, end, Piece(c, a, b - a));
    var handed' := HandOn(q, data, c, handed, a, b);
    assert handed'[..|before|] == before;
    assert handed'[|before|..] == HandOn(q, data, c, handed[|before|..], a, b);
  }

  lemma ScanEnd(index: Index, q: Query, c: nat, before: seq<Piece>, handed: seq<Piece>, it: nat,
                lo: nat, hi: nat, pos: nat, end: nat)
    requires ScanState(index, q, c, before, handed, it, lo, hi, pos, end) && hi <= pos
    ensures q.Restricted() ==> PassedBy(index, q, c, 0, it, hi)
    ensures |before| <= |handed| && handed[..|before|] == before
    ensures Increasing(index, q, c, handed[|before|..], hi + 1)
    ensures CoveredTo(index, q, c, handed, lo, hi, hi)
    ensures LastLine(index, q, c, lo, hi) ==> LastLineExactly(index, q, c, handed[|before|..], hi)
    ensures NeverEmpty(q.line) ==> AllAfter(index.chunks[c].data, handed[|before|..], lo)
  {
    hide PassedBy, FingerDone, Wanted, Due, NeverEmpty, AllAfter;
  }

  lemma NoEarlierMatch(m: Pattern, data: Text, pos: nat, s: nat, limit: nat)
    requires limit <= |data| && forall s', e' | pos <= s' < s && s' <= e' <= limit :: !MatchesAt(m, data, s', e')
    ensures NoEarlier(m, data, pos, s, limit)
  {
  }

  lemma IncreasingLater(index: Index, q: Query, c: nat, added: seq<Piece>, pos: nat, later: nat)
    requires Increasing(index, q, c, added, pos) && pos <= later
    ensures Increasing(index, q, c, added, later)
  {
  }

  /** After `NextRange`: what was skipped held nothing that is still due. */
  lemma RangeTaken(index: Index, q: Query, c: nat, it0: nat, it1: nat, lo: nat, hi: nat, handed: seq<Piece>,
                   end0: nat, pos0: nat, pos: nat, end: nat)
    requires c < |index.chunks| && end0 <= pos0 <= pos <= end <= hi && it0 <= it1
    requires CoveredTo(index, q, c, handed, lo, hi, pos0) && lo <= pos0
    requires FingerDone(index, q, c, it0, lo, hi, handed, end0)
    requires q.Restricted() ==> PassedBy(index, q, c, 0, it0, hi) && PassedBy(index, q, c, it0, it1, end)
    requires q.Restricted() ==> NothingBetween(index, q, c, it0, pos0, pos, hi)
    requires !q.Restricted() ==> pos == pos0
    ensures CoveredTo(index, q, c, handed, lo, hi, pos)
    ensures FingerDone(index, q, c, it1, lo, hi, handed, end)
    ensures q.Restricted() ==> PassedBy(index, q, c, 0, it1, hi)
  {
    hide Wanted, Query.AcceptsAny;
    forall a: nat, b: nat | Due(index, q, c, a, b) && lo <= a < pos && a < hi && b <= hi
      ensures Piece(c, a, b - a) in handed
    {
      if pos0 <= a {
        var j :| Accepted(index, q, c, j) && InRange(index.chunks[c].files[j], a, b);
        assert j < it0;
      }
    }
  }

  /** A scan up to a newline that finds no match leaves nothing due. */
  lemma NothingFound(index: Index, q: Query, c: nat, handed: seq<Piece>, lo: nat, hi: nat, pos: nat, limit: nat)
    requires c < |index.chunks| && pos <= limit <= hi < |index.chunks[c].data| && index.chunks[c].data[limit] == NEWLINE
    requires CoveredTo(index, q, c, handed, lo, hi, pos) && lo <= pos
    requires !MatchesWithin(q.line, index.chunks[c].data, pos, limit)
    ensures CoveredTo(index, q, c, handed, lo, hi, limit + 1)
  {
    hide MatchesAt, LineMatches, Accepted;
    var data := index.chunks[c].data;
    forall a: nat, b: nat | Due(index, q, c, a, b) && lo <= a < limit + 1 && a < hi && b <= hi
      ensures Piece(c, a, b - a) in handed
    {
      if pos <= a {
        EndsByNewline(data, a, b, limit);
        var s, e := LineMatchIsWithin(q.line, data, a, b);
      }
    }
  }

  lemma EndsByNewline(data: Text, a: nat, b: nat, limit: nat)
    requires IsLine(data, a, b) && a <= limit < |data| && data[limit] == NEWLINE
    ensures b <= limit
  {
  }

  /** The leftmost match `s..e` in `pos..limit`, with the line `a..b` it lies in. */
  ghost predicate Leftmost(q: Query, data: Text, pos: nat, limit: nat, s: nat, e: nat, a: nat, b: nat) {
    && pos <= s <= e <= limit < |data| && data[limit] == NEWLINE
    && MatchesAt(q.line, data, s, e) && NoEarlier(q.line, data, pos, s, limit)
    && IsLine(data, a, b) && a <= s <= e <= b <= limit && LineMatches(q.line, data[a..b])
  }

  lemma LeftmostLine(q: Query, data: Text, pos: nat, limit: nat, s: nat, e: nat)
    requires Terminated(data) && pos <= s <= e <= limit < |data| && data[limit] == NEWLINE
    requires MatchesAt(q.line, data, s, e) && NoEarlier(q.line, data, pos, s, limit)
    ensures Leftmost(q, data, pos, limit, s, e, LineStart(data, s), LineEnd(data, e))
  {
    hide LineMatches;
    MatchIsInLine(q.line, data, s, e);
    var a, b := LineStart(data, s), LineEnd(data, s);
    LineUnique(data, a, b, e);
    EndsByNewline(data, a, b, limit);
  }

  function HandOn(q: Query, data: Text, c: nat, handed: seq<Piece>, a: nat, b: nat): seq<Piece>
    requires a <= b <= |data|
  {
    if q.valid(data[a..b]) then handed + [Piece(c, a, b - a)] else handed
  }

  /** Once the line of the leftmost match is dealt with, everything up to its end is. */
  lemma LineFound(index: Index, q: Query, c: nat, handed: seq<Piece>, lo: nat, hi: nat, pos: nat, limit: nat,
                  s: nat, e: nat, a: nat, b: nat)
    requires c < |index.chunks| && Leftmost(q, index.chunks[c].data, pos, limit, s, e, a, b)
    requires CoveredTo(index, q, c, handed, lo, hi, pos) && lo <= pos
    ensures CoveredTo(index, q, c, HandOn(q, index.chunks[c].data, c, handed, a, b), lo, hi, b + 1)
  {
    hide Accepted, LineMatches, MatchesAt;
    var data := index.chunks[c].data;
    var handed' := HandOn(q, data, c, handed, a, b);
    forall x: nat, y: nat | Due(index, q, c, x, y) && lo <= x < b + 1 && x < hi && y <= hi
      ensures Piece(c, x, y - x) in handed'
    {
      if pos <= x {
        if x < a {
          LinesApart(data, x, y, a, b);
          NoMatchBefore(q.line, data, pos, s, limit, x, y);
        } else {
          LineUnique(data, a, b, x);
          LineUnique(data, x, y, x);
        }
      }
    }
  }

  ghost predicate NoEarlier(m: Pattern, data: Text, pos: nat, s: nat, limit: nat) {
    limit <= |data| && forall s': nat, e': nat | pos <= s' < s && s' <= e' <= limit :: !MatchesAt(m, data, s', e')
  }

  lemma NoMatchBefore(m: Pattern, data: Text, pos: nat, s: nat, limit: nat, x: nat, y: nat)
    requires NoEarlier(m, data, pos, s, limit) && IsLine(data, x, y) && pos <= x && y < s && y <= limit <= |data|
    ensures !LineMatches(m, data[x..y])
  {
    hide MatchesAt;
    if LineMatches(m, data[x..y]) {
      var s', e' := LineMatchIsWithin(m, data, x, y);
      assert false;
    }
  }

  lemma IncreasingMore(index: Index, q: Query, c: nat, added: seq<Piece>, pos: nat, limit: nat, s: nat, e: nat, a: nat, b: nat)
    requires Increasing(index, q, c, added, pos)
    requires c < |index.chunks| && Leftmost(q, index.chunks[c].data, pos, limit, s, e, a, b)
    ensures Increasing(index, q, c, HandOn(q, index.chunks[c].data, c, added, a, b), b + 1)
  {
    hide LineMatches, MatchesAt, NoEarlier;
    var data := index.chunks[c].data;
    forall i | 0 <= i < |added| ensures added[i].off < a {
      assert data[added[i].off + added[i].len] == NEWLINE;
    }
  }

  /** A match that is not empty starts after the newline the scan starts at, and so does its line. */
  lemma AfterMore(q: Query, data: Text, c: nat, added: seq<Piece>, lo: nat, pos: nat, limit: nat, s: nat, e: nat, a: nat, b: nat)
    requires NeverEmpty(q.line) && lo <= pos && Leftmost(q, data, pos, limit, s, e, a, b) && AllAfter(data, added, lo)
    ensures AllAfter(data, HandOn(q, data, c, added, a, b), lo)
  {
    hide LineMatches, NoEarlier;
    assert s < e && data[s] != NEWLINE;
    LineUnique(data, a, b, s);
  }

  lemma FingerDoneMore(index: Index, q: Query, c: nat, it: nat, lo: nat, hi: nat, handed: seq<Piece>, end: nat, x: Piece)
    requires FingerDone(index, q, c, it, lo, hi, handed, end)
    ensures FingerDone(index, q, c, it, lo, hi, handed + [x], end)
  {
    hide Wanted, Accepted;
  }

  lemma TailNothingFound(index: Index, q: Query, c: nat, added: seq<Piece>, lo: nat, hi: nat, pos: nat, limit: nat)
    requires LastLine(index, q, c, lo, hi) ==> TailState(index, q, c, added, hi, pos)
    requires c < |index.chunks| && pos < hi < |index.chunks[c].data|
    requires LastLine(index, q, c, lo, hi) ==> limit == PartEnd(index.chunks[c].data, pos, hi)
    requires limit <= hi && index.chunks[c].data[limit] == NEWLINE && !MatchesWithin(q.line, index.chunks[c].data, pos, limit)
    ensures LastLine(index, q, c, lo, hi) ==> TailState(index, q, c, added, hi, limit + 1)
  {
    if LastLine(index, q, c, lo, hi) {
      var data := index.chunks[c].data;
      hide MatchesAt, LineMatches, PreviousMatches, MatchesWithin;
      var p := AfterLastMatch(q, data, hi);
      if pos < p <= limit + 1 {
        MatchBefore(q, data, pos, limit, p);
      }
      assert Lands(data, pos, hi) <==> Lands(data, limit + 1, hi);
      if limit == hi && Wanted(q, data, hi, hi) {
        MatchAtEnd(q, data, pos, hi);
      }
    }
  }

  /** A matching line that starts after `pos` is found in any scan up to its end. */
  lemma MatchBefore(q: Query, data: Text, pos: nat, limit: nat, p: nat)
    requires pos < p <= limit + 1 && p <= |data| && PreviousMatches(q, data, p) && (pos == 0 || data[pos - 1] == NEWLINE)
    ensures pos <= LineStart(data, p - 1) && IsLine(data, LineStart(data, p - 1), p - 1)
    ensures MatchesWithin(q.line, data, pos, limit)
  {
    hide LineMatches, MatchesAt;
    var s, e := LineMatchIsWithin(q.line, data, LineStart(data, p - 1), p - 1);
  }

  lemma MatchAtEnd(q: Query, data: Text, pos: nat, hi: nat)
    requires pos <= hi && Wanted(q, data, hi, hi)
    ensures MatchesWithin(q.line, data, pos, hi)
  {
    hide LineMatches, MatchesAt;
    var s, e := LineMatchIsWithin(q.line, data, hi, hi);
  }

  lemma TailFound(index: Index, q: Query, c: nat, added: seq<Piece>, lo: nat, hi: nat, pos: nat, limit: nat,
                  s: nat, e: nat, a: nat, b: nat)
    requires LastLine(index, q, c, lo, hi) ==> TailState(index, q, c, added, hi, pos)
    requires c < |index.chunks| && pos < hi < |index.chunks[c].data|
    requires LastLine(index, q, c, lo, hi) ==> limit == PartEnd(index.chunks[c].data, pos, hi) && limit <= hi
    requires Leftmost(q, index.chunks[c].data, pos, limit, s, e, a, b)
    ensures LastLine(index, q, c, lo, hi) ==>
      TailState(index, q, c, HandOn(q, index.chunks[c].data, c, added, a, b), hi, b + 1)
  {
    if LastLine(index, q, c, lo, hi) {
      var data := index.chunks[c].data;
      if b == hi {
        EndFound(q, data, hi, pos, limit, s, e, a, b);
        hide Leftmost, PreviousMatches;
        assert Lands(data, pos, hi) <==> Lands(data, hi + 1, hi);
      } else {
        EarlierFound(q, data, hi, pos, limit, s, e, a, b);
        hide Leftmost, PreviousMatches, Lands;
      }
    }
  }

  /** If the empty line at the end is found, no line from `pos` on matches before it. */
  lemma EndFound(q: Query, data: Text, hi: nat, pos: nat, limit: nat, s: nat, e: nat, a: nat, b: nat)
    requires IsLine(data, hi, hi) && pos < hi && limit <= hi && b == hi && (pos == 0 || data[pos - 1] == NEWLINE)
    requires Leftmost(q, data, pos, limit, s, e, a, b)
    ensures a == hi && limit == hi && AfterLastMatch(q, data, hi) <= pos
  {
    hide LineMatches, MatchesAt;
    LineUnique(data, a, b, hi);
    LineUnique(data, hi, hi, hi);
    var p := AfterLastMatch(q, data, hi);
    if pos < p {
      MatchBefore(q, data, pos, limit, p);
      NoMatchBefore(q.line, data, pos, s, limit, LineStart(data, p - 1), p - 1);
    }
  }

  lemma EarlierFound(q: Query, data: Text, hi: nat, pos: nat, limit: nat, s: nat, e: nat, a: nat, b: nat)
    requires b < hi <= |data| && Leftmost(q, data, pos, limit, s, e, a, b)
    ensures data[b] == NEWLINE && a < hi && b + 1 <= AfterLastMatch(q, data, hi)
  {
    hide MatchesAt, NoEarlier;
    LineUnique(data, a, b, b);
    assert PreviousMatches(q, data, b + 1);
  }

  /** Lines from `pos` on, up to a newline at `limit`, end by `limit`. */
  lemma NewlineLimit(data: Text, pos: nat, end: nat, limit: nat)
    requires pos <= end < |data| && data[end] == NEWLINE
    requires limit == PartEnd(data, pos, end)
    ensures pos <= limit <= end && data[limit] == NEWLINE
  {
  }

  /** Range `j` lists an accepted file. */
  predicate Accepted(index: Index, q: Query, c: nat, j: int) {
    && c < |index.chunks| && 0 <= j < |index.chunks[c].files|
    && Below(index.chunks[c].files[j].files, |index.files|) && q.AcceptsAny(index, index.chunks[c].files[j].files)
  }

  /** The accepted ranges passed over end by `bound`. */
  ghost predicate PassedBy(index: Index, q: Query, c: nat, from: int, to: int, bound: int) {
    forall j | from <= j < to && Accepted(index, q, c, j) :: index.chunks[c].files[j].right <= bound
  }

  ghost predicate PassedBefore(index: Index, q: Query, c: nat, from: int, to: int, bound: int) {
    forall j | from <= j < to && Accepted(index, q, c, j) :: index.chunks[c].files[j].right < bound
  }

  /** No line of an accepted range, from number `from` on, starts in `pos..pos'`, but for an empty one at its end. */
  ghost predicate NothingBetween(index: Index, q: Query, c: nat, from: int, pos: int, pos': int, maxpos: int) {
    forall j, a, b | from <= j && Accepted(index, q, c, j) && InRange(index.chunks[c].files[j], a, b)
      && pos <= a <= b <= maxpos :: pos' <= a
  }

  lemma PassNone(index: Index, q: Query, c: nat, from: nat, bound: nat)
    ensures PassedBefore(index, q, c, from, from, bound) && PassedBy(index, q, c, from, from, bound)
  {
  }

  lemma PassOneBefore(index: Index, q: Query, c: nat, from: nat, j: nat, bound: nat)
    requires PassedBefore(index, q, c, from, j, bound)
    requires Accepted(index, q, c, j) ==> index.chunks[c].files[j].right < bound
    ensures PassedBefore(index, q, c, from, j + 1, bound)
  {
  }

  lemma PassOne(index: Index, q: Query, c: nat, from: nat, j: nat, bound: nat)
    requires PassedBy(index, q, c, from, j, bound)
    requires Accepted(index, q, c, j) ==> index.chunks[c].files[j].right <= bound
    ensures PassedBy(index, q, c, from, j + 1, bound)
  {
  }

  lemma PassedLater(index: Index, q: Query, c: nat, from: nat, to: nat, bound: nat, later: nat)
    requires PassedBy(index, q, c, from, to, bound)
    ensures bound <= later ==> PassedBy(index, q, c, from, to, later)
  {
  }

  lemma RangeFact(index: Index, c: nat, j: nat)
    requires IndexValid(index) && c < |index.chunks| && j < |index.chunks[c].files|
    ensures RangeOfLines(index.chunks[c].data, index.chunks[c].files[j])
  {
    assert ChunkValid(index, index.chunks[c]);
  }

  lemma NothingLeft(index: Index, q: Query, c: nat, from: nat, first: nat, pos: nat, maxpos: nat)
    requires IndexValid(index) && c < |index.chunks|
    requires PassedBefore(index, q, c, from, first, pos) && first <= |index.chunks[c].files|
    requires first < |index.chunks[c].files| ==> index.chunks[c].files[first].left >= maxpos
    requires pos <= maxpos
    ensures NothingBetween(index, q, c, from, pos, maxpos, maxpos) && PassedBy(index, q, c, from, first, maxpos)
  {
    ChunkFacts(index, c);
    hide Query.AcceptsAny, IndexValid;
    var files := index.chunks[c].files;
    forall j | first <= j < |files|
      ensures maxpos <= files[j].left
    {
      if j > first {
        assert KeyLess(files[first], files[j]);
      }
    }
  }

  lemma NothingSkipped(index: Index, q: Query, c: nat, from: nat, first: nat, pos: nat, maxpos: nat)
    requires IndexValid(index) && c < |index.chunks|
    requires PassedBefore(index, q, c, from, first, pos) && first < |index.chunks[c].files| && pos < maxpos
    requires index.chunks[c].files[first].left < maxpos && index.chunks[c].files[first].right >= pos
    ensures NothingBetween(index, q, c, from, pos, Max(pos, index.chunks[c].files[first].left), maxpos)
    ensures PassedBy(index, q, c, from, first, maxpos) && PassedBy(index, q, c, from, first, index.chunks[c].files[first].right)
  {
    var pos' := Max(pos, index.chunks[c].files[first].left);
    ChunkFacts(index, c);
    hide Query.AcceptsAny, IndexValid;
    var files := index.chunks[c].files;
    forall j, a, b | from <= j && Accepted(index, q, c, j) && InRange(files[j], a, b) && pos <= a <= b <= maxpos
      ensures pos' <= a
    {
      if j > first {
        assert KeyLess(files[first], files[j]);
      }
    }
  }

  lemma FileValidAll(index: Index)
    requires IndexValid(index)
    ensures forall f | 0 <= f < |index.files| :: FileValid(index, f)
  {
  }

  lemma TerminatedChunk(s: Searcher, c: nat)
    requires s.Valid() && c < |s.index.chunks|
    ensures Terminated(s.index.chunks[c].data) && IndexValid(s.index)
  {
    assert ChunkValid(s.index, s.index.chunks[c]);
  }

  lemma ChunkFacts(index: Index, c: nat)
    requires IndexValid(index) && c < |index.chunks|
    ensures var chunk := index.chunks[c];
      && Terminated(chunk.data) && StrictlyOrdered(chunk.files)
      && (forall j | 0 <= j < |chunk.files| :: RangeOfLines(chunk.data, chunk.files[j]) && Below(chunk.files[j].files, |index.files|))
  {
    assert ChunkValid(index, index.chunks[c]);
  }
}
