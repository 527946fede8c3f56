/** One search over one chunk at a time: which lines are found, and what is reported of them. */
module Searchers {
  import opened ChunkFiles
  import opened FileContents
  import opened IndexTypes

  const kMinSkip := 250
  const kMinFilterRatio := 50
  const kMaxScan := 0x10_0000

  // ----- Reporting a line -----

  /** What is reported of `line` for the files of one range. */
  function RangeReports(index: Index, q: Query, files: seq<nat>, line: Piece): seq<Result>
    requires Below(files, |index.files|)
  {
    if files == [] then []
    else
      var f := files[|files| - 1];
      RangeReports(index, q, files[..|files| - 1], line) +
      (if q.Accepts(index.files[f])
       then Reports(index.files[f].content, line, f, q.context, |index.files[f].content|) else [])
  }

  predicate FilesExist(index: Index, ranges: seq<ChunkFile>) {
    forall i | 0 <= i < |ranges| :: Below(ranges[i].files, |index.files|)
  }

  /** What is reported of `line` for a list of ranges. */
  function RangesReports(index: Index, q: Query, ranges: seq<ChunkFile>, line: Piece): seq<Result>
    requires FilesExist(index, ranges)
  {
    if ranges == [] then []
    else RangesReports(index, q, ranges[..|ranges| - 1], line) + RangeReports(index, q, ranges[|ranges| - 1].files, line)
  }

  lemma RangesReportsPush(index: Index, q: Query, a: seq<ChunkFile>, c: ChunkFile, line: Piece)
    requires FilesExist(index, a) && Below(c.files, |index.files|)
    ensures FilesExist(index, a + [c])
    ensures RangesReports(index, q, a + [c], line) == RangesReports(index, q, a, line) + RangeReports(index, q, c.files, line)
  {
    assert (a + [c])[..|a|] == a;
  }

  lemma RangesReportsNone(index: Index, q: Query, line: Piece)
    ensures RangesReports(index, q, [], line) == []
  {
  }

  /** Tries the accepted files of one range. */
  method TryRange(index: Index, q: Query, files: seq<nat>, line: Piece) returns (results: seq<Result>)
    requires forall f | 0 <= f < |index.files| :: FileValid(index, f)
    requires PieceIsLine(Texts(index), line) && Below(files, |index.files|)
    ensures results == RangeReports(index, q, files, line)
  {
    results := [];
    assert files[..0] == [];
    for i := 0 to |files|
      invariant results == RangeReports(index, q, files[..i], line)
    {
      assert files[..i + 1][..i] == files[..i];
      var f := files[i];
      if q.Accepts(index.files[f]) {
        assert FileValid(index, f);
        var more := TryMatch(Texts(index), index.files[f].content, line, f, q.context);
        results := results + more;
      }
    }
    assert files[..|files|] == files;
  }

  // ----- Finding the ranges of a line -----

  /** The ranges still to be visited, with the top of the stack first. */
  function Pending(stack: seq<Tree>, off: nat): seq<ChunkFile> {
    if stack == [] then [] else Visits(stack[|stack| - 1], off) + Pending(stack[..|stack| - 1], off)
  }

  function Size(t: Tree): nat {
    match t
    case Leaf => 1
    case Node(_, _, l, r) => 1 + Size(l) + Size(r)
  }

  function Sizes(stack: seq<Tree>): nat {
    if stack == [] then 0 else Sizes(stack[..|stack| - 1]) + Size(stack[|stack| - 1])
  }

  /** Pushing the subtrees that may hold `off`: the right one below the left one. */
  function PushChildren(rest: seq<Tree>, n: Tree, off: nat): seq<Tree>
    requires n.Node?
  {
    PushNode(if off >= n.chunk.left then PushNode(rest, n.right) else rest, n.left)
  }

  function PushNode(s: seq<Tree>, t: Tree): seq<Tree> {
    if t.Node? then s + [t] else s
  }

  lemma PendingTop(s: seq<Tree>, t: Tree, off: nat)
    ensures Pending(s + [t], off) == Visits(t, off) + Pending(s, off)
    ensures Sizes(s + [t]) == Sizes(s) + Size(t)
  {
    assert (s + [t])[..|s|] == s;
  }

  lemma PendingPush(rest: seq<Tree>, n: Tree, off: nat)
    requires n.Node? && off <= n.rightLimit
    ensures Pending(rest + [n], off) == (if Contains(n.chunk, off) then [n.chunk] else []) + Pending(PushChildren(rest, n, off), off)
    ensures Sizes(PushChildren(rest, n, off)) < Sizes(rest + [n])
  {
    var s := if off >= n.chunk.left then PushNode(rest, n.right) else rest;
    var here := if Contains(n.chunk, off) then [n.chunk] else [];
    var r := if off >= n.chunk.left then Visits(n.right, off) else [];
    assert Visits(n, off) == here + Visits(n.left, off) + r;
    hide Pending, Sizes, Visits, Contains;
    PendingTop(rest, n, off);
    PendingNode(rest, n.right, off);
    PendingNode(s, n.left, off);
    Regroup(here, Visits(n.left, off), r, Pending(rest, off));
    assert Pending(s, off) == r + Pending(rest, off);
  }

  lemma Regroup<T>(a: seq<T>, b: seq<T>, c: seq<T>, d: seq<T>)
    ensures a + b + c + d == a + (b + (c + d))
  {
  }

  lemma PendingNode(s: seq<Tree>, t: Tree, off: nat)
    ensures Pending(PushNode(s, t), off) == Visits(t, off) + Pending(s, off)
    ensures Sizes(PushNode(s, t)) <= Sizes(s) + Size(t)
  {
    if t.Node? {
      PendingTop(s, t, off);
    }
  }

  lemma PendingSkip(rest: seq<Tree>, n: Tree, off: nat)
    requires n.Node? && off > n.rightLimit
    ensures Pending(rest + [n], off) == Pending(rest, off) && Sizes(rest) < Sizes(rest + [n])
  {
    assert (rest + [n])[..|rest|] == rest;
  }

  lemma PendingRoot(root: Tree, off: nat)
    ensures Pending([], off) == []
    ensures root.Node? ==> Pending([root], off) == Visits(root, off)
    ensures root.Leaf? ==> Visits(root, off) == []
  {
    assert [root][..0] == [];
  }

  lemma {:induction false} VisitsExist(index: Index, t: Tree, off: nat)
    requires FilesExist(index, InOrder(t))
    ensures FilesExist(index, Visits(t, off))
  {
    match t
    case Leaf =>
    case Node(c, _, l, r) =>
      var s, a, b := InOrder(t), InOrder(l), InOrder(r);
      assert forall i | 0 <= i < |a| :: s[i] == a[i];
      assert forall i | 0 <= i < |b| :: s[|a| + 1 + i] == b[i];
      assert s[|a|] == c;
      VisitsExist(index, l, off);
      VisitsExist(index, r, off);
  }

  /** `find_match`: walks the tree of ranges with a stack. */
  method FindMatch(index: Index, q: Query, root: Tree, line: Piece) returns (results: seq<Result>)
    requires forall f | 0 <= f < |index.files| :: FileValid(index, f)
    requires PieceIsLine(Texts(index), line) && FilesExist(index, InOrder(root))
    ensures FilesExist(index, Visits(root, line.off))
    ensures results == RangesReports(index, q, Visits(root, line.off), line)
  {
    hide FileValid, Texts, PieceIsLine, RangesReports, RangeReports, Pending, Visits, Sizes;
    var off := line.off;
    VisitsExist(index, root, off);
    RangesReportsNone(index, q, line);
    PendingRoot(root, off);
    results := [];
    var stack := [];
    if root.Node? {
      stack := [root];
    }
    ghost var all := Visits(root, off);
    ghost var seen: seq<ChunkFile> := [];
    while stack != []
      invariant forall k | 0 <= k < |stack| :: stack[k].Node?
      invariant seen + Pending(stack, off) == all
      invariant FilesExist(index, seen) && results == RangesReports(index, q, seen, line)
      decreases Sizes(stack)
    {
      var n := stack[|stack| - 1];
      ghost var rest := stack[..|stack| - 1];
      assert stack == rest + [n];
      stack := stack[..|stack| - 1];
      if off > n.rightLimit {
        PendingSkip(rest, n, off);
        continue;
      }
      PendingPush(rest, n, off);
      if off >= n.chunk.left {
        if n.right.Node? {
          stack := stack + [n.right];
        }
        if off <= n.chunk.right {
          assert all[|seen|] == n.chunk;
          var more := TryRange(index, q, n.chunk.files, line);
          RangesReportsPush(index, q, seen, n.chunk, line);
          seen := seen + [n.chunk];
          results := results + more;
        }
      }
      if n.left.Node? {
        stack := stack + [n.left];
      }
      assert stack == PushChildren(rest, n, off);
    }
    assert seen == all by {
      PendingRoot(Leaf, off);
    }
  }

  /** `find_match_brute`: looks at every range of the chunk. */
  method FindMatchBrute(index: Index, q: Query, files: seq<ChunkFile>, line: Piece) returns (results: seq<Result>)
    requires forall f | 0 <= f < |index.files| :: FileValid(index, f)
    requires PieceIsLine(Texts(index), line) && FilesExist(index, files)
    ensures FilesExist(index, Scan(files, line.off))
    ensures results == RangesReports(index, q, Scan(files, line.off), line)
  {
    hide FileValid, Texts, PieceIsLine;
    results := [];
    for i := 0 to |files|
      invariant FilesExist(index, Scan(files[..i], line.off))
      invariant results == RangesReports(index, q, Scan(files[..i], line.off), line)
    {
      assert files[..i + 1][..i] == files[..i];
      assert Scan(files[..i], line.off) + [] == Scan(files[..i], line.off);
      if files[i].left <= line.off <= files[i].right {
        var more := TryRange(index, q, files[i].files, line);
        RangesReportsPush(index, q, Scan(files[..i], line.off), files[i], line);
        results := results + more;
      }
    }
    assert files[..|files|] == files;
  }
}
