/** The ranges of a chunk that a file occupies, while the file is being indexed. */
module ChunkRanges {
  import opened Bytes
  import opened Lines
  import opened ChunkFiles
  import opened IndexTypes

  const kMaxGap := 0x400

  predicate Disjoint(x: ChunkFile, y: ChunkFile) {
    x.right < y.left || y.right < x.left
  }

  predicate Encloses(x: ChunkFile, l: nat, r: nat) {
    x.left <= l && r <= x.right
  }

  /** Ranges of whole lines that belong to one file and do not meet. */
  ghost predicate OwnRanges(data: Text, cur: seq<ChunkFile>, sf: nat) {
    && (forall i | 0 <= i < |cur| :: RangeOfLines(data, cur[i]) && cur[i].files == [sf])
    && (forall i, j | 0 <= i < j < |cur| :: Disjoint(cur[i], cur[j]))
  }

  /** Some range holds the whole line. */
  ghost predicate Enclosed(cur: seq<ChunkFile>, l: nat, r: nat) {
    exists i | 0 <= i < |cur| :: Encloses(cur[i], l, r)
  }

  /** How far the line is from a range. */
  function Distance(x: ChunkFile, l: nat, r: nat): int {
    if l <= x.left then (if x.left - r > 0 then x.left - r else 0)
    else if r >= x.right then (if l - x.right > 0 then l - x.right else 0)
    else 0
  }

  /** Lines are atoms: a line at no distance from a range of lines lies in it. */
  lemma NoDistance(data: Text, x: ChunkFile, l: nat, r: nat)
    requires RangeOfLines(data, x) && IsLine(data, l, r)
    ensures Distance(x, l, r) == 0 <==> Encloses(x, l, r)
    ensures Distance(x, l, r) == 0 || r < x.left || l > x.right
  {
    if l < x.left <= r {
      assert false;
    }
    if l <= x.right < r {
      assert false;
    }
  }

  function Expand(x: ChunkFile, l: nat, r: nat): ChunkFile {
    x.(left := if l < x.left then l else x.left, right := if r > x.right then r else x.right)
  }

  /** Growing the nearest range to take the line in does not make it meet another one. */
  lemma ExpandApart(data: Text, x: ChunkFile, y: ChunkFile, l: nat, r: nat)
    requires RangeOfLines(data, x) && RangeOfLines(data, y) && IsLine(data, l, r)
    requires Disjoint(x, y) && Distance(x, l, r) <= Distance(y, l, r)
    ensures Disjoint(Expand(x, l, r), y)
  {
    NoDistance(data, x, l, r);
    NoDistance(data, y, l, r);
  }

  /** The range `k` is a nearest one among the first `n`. */
  ghost predicate Nearest(cur: seq<ChunkFile>, l: nat, r: nat, k: nat, n: nat) {
    k < n <= |cur| && forall i | 0 <= i < n :: Distance(cur[k], l, r) <= Distance(cur[i], l, r)
  }

  /** A nearest range, if it is near enough, has taken the line in; otherwise the line is a range of its own. */
  ghost predicate TookIn(cur: seq<ChunkFile>, cur': seq<ChunkFile>, sf: nat, l: nat, r: nat) {
    if exists i :: 0 <= i < |cur| && Distance(cur[i], l, r) < kMaxGap then
      exists k: nat :: Nearest(cur, l, r, k, |cur|) && cur' == cur[k := Expand(cur[k], l, r)]
    else
      cur' == cur + [ChunkFile([sf], l, r)]
  }

  /**
   * `add_chunk_file`: the nearest range takes the line in, unless it is too far
   * away or there is none. The ranges stay apart, and lose no line.
   */
  method AddChunkFile(ghost data: Text, cur: seq<ChunkFile>, sf: nat, l: nat, r: nat) returns (cur': seq<ChunkFile>)
    requires OwnRanges(data, cur, sf) && IsLine(data, l, r)
    ensures OwnRanges(data, cur', sf) && Enclosed(cur', l, r)
    ensures forall a: nat, b: nat | Enclosed(cur, a, b) :: Enclosed(cur', a, b)
    ensures TookIn(cur, cur', sf, l, r)
  {
    var f: int, minDist: int := -1, 0;
    for i := 0 to |cur|
      invariant -1 <= f < i && (i > 0 ==> f >= 0)
      invariant f >= 0 ==> minDist == Distance(cur[f], l, r) && Nearest(cur, l, r, f, i)
    {
      var dist := Distance(cur[i], l, r);
      NoDistance(data, cur[i], l, r);
      assert dist == 0 || r < cur[i].left || l > cur[i].right;
      if f < 0 || dist < minDist {
        minDist := dist;
        f := i;
      }
    }
    if f >= 0 && minDist < kMaxGap {
      cur' := cur[f := Expand(cur[f], l, r)];
      Expanded(data, cur, sf, l, r, f);
      return;
    }
    cur' := cur + [ChunkFile([sf], l, r)];
    Added(data, cur, sf, l, r);
  }

  lemma Expanded(data: Text, cur: seq<ChunkFile>, sf: nat, l: nat, r: nat, k: nat)
    requires OwnRanges(data, cur, sf) && IsLine(data, l, r) && Nearest(cur, l, r, k, |cur|)
    ensures var cur' := cur[k := Expand(cur[k], l, r)];
      && OwnRanges(data, cur', sf) && Enclosed(cur', l, r)
      && forall a: nat, b: nat | Enclosed(cur, a, b) :: Enclosed(cur', a, b)
  {
    var x := Expand(cur[k], l, r);
    var cur' := cur[k := x];
    forall i | 0 <= i < |cur| && i != k ensures Disjoint(x, cur[i]) {
      assert i < k ==> Disjoint(cur[i], cur[k]);
      assert i > k ==> Disjoint(cur[k], cur[i]);
      ExpandApart(data, cur[k], cur[i], l, r);
    }
    assert Encloses(cur'[k], l, r);
    forall a: nat, b: nat | Enclosed(cur, a, b) ensures Enclosed(cur', a, b) {
      var i :| 0 <= i < |cur| && Encloses(cur[i], a, b);
      assert Encloses(cur'[i], a, b);
    }
  }

  lemma Added(data: Text, cur: seq<ChunkFile>, sf: nat, l: nat, r: nat)
    requires OwnRanges(data, cur, sf) && IsLine(data, l, r)
    requires forall i | 0 <= i < |cur| :: Distance(cur[i], l, r) >= kMaxGap
    ensures var cur' := cur + [ChunkFile([sf], l, r)];
      && OwnRanges(data, cur', sf) && Enclosed(cur', l, r)
      && forall a: nat, b: nat | Enclosed(cur, a, b) :: Enclosed(cur', a, b)
  {
    var cur' := cur + [ChunkFile([sf], l, r)];
    forall i | 0 <= i < |cur| ensures Disjoint(cur[i], cur'[|cur|]) {
      NoDistance(data, cur[i], l, r);
    }
    assert Encloses(cur'[|cur|], l, r);
    forall a: nat, b: nat | Enclosed(cur, a, b) ensures Enclosed(cur', a, b) {
      var i :| 0 <= i < |cur| && Encloses(cur[i], a, b);
      assert Encloses(cur'[i], a, b);
    }
  }

  /** A line lies in at most one range. */
  lemma EnclosedOnce(data: Text, cur: seq<ChunkFile>, sf: nat, l: nat, r: nat, i: nat, j: nat)
    requires OwnRanges(data, cur, sf) && IsLine(data, l, r) && i < |cur| && j < |cur|
    requires Encloses(cur[i], l, r) && Encloses(cur[j], l, r)
    ensures i == j
  {
    if i != j {
      assert false;
    }
  }

  /** More text after the lines leaves the ranges what they are. */
  lemma OwnRangesExtend(data: Text, more: Text, cur: seq<ChunkFile>, sf: nat)
    requires OwnRanges(data, cur, sf)
    ensures OwnRanges(data + more, cur, sf)
  {
  }

  // ----- Sorting, as the library does it -----

  function Insert(s: seq<ChunkFile>, x: ChunkFile): seq<ChunkFile> {
    if s == [] then [x]
    else if KeyLess(x, s[0]) then [x] + s
    else
      [s[0]] + Insert(s[1..], x)
  }

  function Sort(s: seq<ChunkFile>): seq<ChunkFile> {
    if s == [] then [] else Insert(Sort(s[..|s| - 1]), s[|s| - 1])
  }

  predicate NoneBelow(s: seq<ChunkFile>, x: ChunkFile) {
    forall i | 0 <= i < |s| :: !KeyLess(s[i], x)
  }

  lemma OrderedPush(x: ChunkFile, s: seq<ChunkFile>)
    ensures Ordered([x] + s) <==> Ordered(s) && NoneBelow(s, x)
  {
    var t := [x] + s;
    forall i, j | Ordered(t) && 0 <= i < j < |s| ensures !KeyLess(s[j], s[i]) {
      assert !KeyLess(t[j + 1], t[i + 1]);
    }
    forall i | Ordered(t) && 0 <= i < |s| ensures !KeyLess(s[i], x) {
      assert !KeyLess(t[i + 1], t[0]);
    }
  }

  lemma {:induction false} InsertNoneBelow(s: seq<ChunkFile>, x: ChunkFile, y: ChunkFile)
    requires NoneBelow(s, y) && !KeyLess(x, y)
    ensures NoneBelow(Insert(s, x), y)
  {
    if s != [] && !KeyLess(x, s[0]) {
      InsertNoneBelow(s[1..], x, y);
    }
  }

  lemma {:induction false} InsertSorts(s: seq<ChunkFile>, x: ChunkFile)
    requires Ordered(s)
    ensures Ordered(Insert(s, x)) && multiset(Insert(s, x)) == multiset(s) + multiset{x}
  {
    if s == [] {
      OrderedPush(x, s);
    } else {
      hide Ordered, NoneBelow;
      assert s == [s[0]] + s[1..];
      OrderedPush(s[0], s[1..]);
      if KeyLess(x, s[0]) {
        BelowFirst(s, x);
        OrderedPush(x, s);
      } else {
        InsertSorts(s[1..], x);
        InsertNoneBelow(s[1..], x, s[0]);
        OrderedPush(s[0], Insert(s[1..], x));
      }
    }
  }

  lemma BelowFirst(s: seq<ChunkFile>, x: ChunkFile)
    requires s != [] && KeyLess(x, s[0]) && NoneBelow(s[1..], s[0])
    ensures NoneBelow(s, x)
  {
    forall i | 0 < i < |s| ensures !KeyLess(s[i], x) {
      assert s[i] == s[1..][i - 1];
    }
  }

  lemma {:induction false} SortSorts(s: seq<ChunkFile>)
    ensures Ordered(Sort(s)) && multiset(Sort(s)) == multiset(s)
  {
    if s != [] {
      SortSorts(s[..|s| - 1]);
      InsertSorts(Sort(s[..|s| - 1]), s[|s| - 1]);
      assert s == s[..|s| - 1] + [s[|s| - 1]];
    }
  }

  /** Being a file's own ranges does not depend on the order. */
  lemma SortedOwnRanges(data: Text, cur: seq<ChunkFile>, sf: nat)
    requires OwnRanges(data, cur, sf)
    ensures OwnRanges(data, Sort(cur), sf)
    ensures forall i, j | 0 <= i < j < |Sort(cur)| :: Sort(cur)[i].right < Sort(cur)[j].left
  {
    SortSorts(cur);
    var s := Sort(cur);
    hide Sort, Ordered, RangeOfLines;
    forall i | 0 <= i < |s| ensures RangeOfLines(data, s[i]) && s[i].files == [sf] {
      var k := SameElement(s, cur, i);
    }
    forall i, j | 0 <= i < j < |s| ensures Disjoint(s[i], s[j]) && !KeyLess(s[j], s[i]) {
      DistinctElements(s, cur, data, sf, i, j);
      OrderedAt(s, i, j);
    }
    forall i, j | 0 <= i < j < |s| ensures s[i].right < s[j].left {
      NotEmpty(data, s[i]);
      NotEmpty(data, s[j]);
    }
  }

  lemma NotEmpty(data: Text, x: ChunkFile)
    requires RangeOfLines(data, x)
    ensures x.left <= x.right
  {
  }

  lemma OrderedAt(s: seq<ChunkFile>, i: nat, j: nat)
    requires Ordered(s) && i < j < |s|
    ensures !KeyLess(s[j], s[i])
  {
  }

  /** Different places of a sequence go to different places of a permutation. */
  lemma TwoElements<T>(s: seq<T>, t: seq<T>, i: nat, j: nat) returns (a: nat, b: nat)
    requires multiset(s) == multiset(t) && i < j < |s|
    ensures a < |t| && b < |t| && a != b && t[a] == s[i] && t[b] == s[j]
  {
    a := SameElement(s, t, i);
    b := OtherElement(s, t, i, j, a);
  }

  lemma OtherElement<T>(s: seq<T>, t: seq<T>, i: nat, j: nat, a: nat) returns (b: nat)
    requires multiset(s) == multiset(t) && i < j < |s| && a < |t| && t[a] == s[i]
    ensures b < |t| && b != a && t[b] == s[j]
  {
    var rest, others := s[..i] + s[i + 1..], t[..a] + t[a + 1..];
    WithoutOne(s, i);
    WithoutOne(t, a);
    assert rest[j - 1] == s[j];
    var k := SameElement(rest, others, j - 1);
    b := if k < a then k else k + 1;
  }

  lemma SameElement<T>(s: seq<T>, t: seq<T>, k: nat) returns (i: nat)
    requires multiset(s) == multiset(t) && k < |s|
    ensures i < |t| && t[i] == s[k]
  {
    assert s[k] in multiset(t);
    i :| 0 <= i < |t| && t[i] == s[k];
  }

  lemma WithoutOne<T>(s: seq<T>, i: nat)
    requires i < |s|
    ensures multiset(s[..i] + s[i + 1..]) == multiset(s) - multiset{s[i]}
  {
    assert s == s[..i] + [s[i]] + s[i + 1..];
  }

  lemma DistinctElements(s: seq<ChunkFile>, cur: seq<ChunkFile>, data: Text, sf: nat, i: nat, j: nat)
    requires multiset(s) == multiset(cur) && OwnRanges(data, cur, sf) && i < j < |s|
    ensures Disjoint(s[i], s[j])
  {
    var a, b := TwoElements(s, cur, i, j);
    assert if a < b then Disjoint(cur[a], cur[b]) else Disjoint(cur[b], cur[a]);
  }

  /**
   * `finish_file`: the ranges in order, checked not to meet, join those of the
   * other files.
   */
  method FinishFile(ghost data: Text, files: seq<ChunkFile>, cur: seq<ChunkFile>, ghost sf: nat) returns (files': seq<ChunkFile>)
    requires OwnRanges(data, cur, sf)
    ensures files' == files + Sort(cur) && OwnRanges(data, Sort(cur), sf)
  {
    var right := -1;
    var s := Sort(cur);
    SortedOwnRanges(data, cur, sf);
    for i := 0 to |s|
      invariant right == if i == 0 then -1 else s[i - 1].right
    {
      assert right < s[i].left;
      right := if s[i].right > right then s[i].right else right;
    }
    files' := files + s;
  }
}
