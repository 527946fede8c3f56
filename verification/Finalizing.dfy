/** Finishing an index: the suffix arrays, the compacted ranges with their trees, and what the result stores. */
module Finalizing {
  import opened Bytes
  import opened Lines
  import opened ChunkFiles
  import opened FileContents
  import opened IndexTypes
  import opened ChunkRanges
  import opened Indexing
  import opened SuffixArrays
  import Reporting
  import opened Sequences

  // ----- Ranges as a multiset of file, left end and right end -----

  /** No entry twice, every entry a range of lines of a known file, and those of one file apart. */
  ghost predicate RefsFine(data: Text, refs: multiset<Ref>, n: nat) {
    && (forall r | r in refs :: refs[r] == 1 && r.file < n && RangeOfLines(data, ChunkFile([r.file], r.left, r.right)))
    && (forall r, s | r in refs && s in refs && r != s && r.file == s.file :: r.right < s.left || s.right < r.left)
  }

  lemma FinishedInit(data: Text, files: seq<ChunkFile>, n: nat)
    requires Finished(data, files, n) && files != []
    ensures Finished(data, files[..|files| - 1], n)
  {
    var s := files[..|files| - 1];
    assert forall i | 0 <= i < |s| :: s[i] == files[i];
  }

  /** An entry of finished ranges is one of them. */
  lemma RefOf(files: seq<ChunkFile>, r: Ref) returns (i: nat)
    requires r in Refs(files) && forall i | 0 <= i < |files| :: |files[i].files| == 1
    ensures i < |files| && files[i] == ChunkFile([r.file], r.left, r.right)
  {
    RefIn(files, r);
    i :| 0 <= i < |files| && files[i].left == r.left && files[i].right == r.right && r.file in files[i].files;
  }

  lemma {:induction false} FinishedRefs(data: Text, files: seq<ChunkFile>, n: nat)
    requires Finished(data, files, n)
    ensures RefsFine(data, Refs(files), n)
  {
    hide Refs, RangeOfLines;
    forall r | r in Refs(files)
      ensures Refs(files)[r] == 1 && r.file < n && RangeOfLines(data, ChunkFile([r.file], r.left, r.right))
    {
      var i := RefOf(files, r);
      RefCount(data, files, n, r, i);
    }
    forall r, s | r in Refs(files) && s in Refs(files) && r != s && r.file == s.file
      ensures r.right < s.left || s.right < r.left
    {
      var i := RefOf(files, r);
      var j := RefOf(files, s);
      assert if i < j then Disjoint(files[i], files[j]) else Disjoint(files[j], files[i]);
    }
  }

  lemma {:induction false} RefCount(data: Text, files: seq<ChunkFile>, n: nat, r: Ref, i: nat)
    requires Finished(data, files, n) && i < |files| && files[i] == ChunkFile([r.file], r.left, r.right)
    ensures Refs(files)[r] == 1
  {
    hide RangeOfLines, RefsOf;
    var m := |files| - 1;
    OneFile(files[m]);
    assert files[..m] + [files[m]] == files;
    RefsPush(files[..m], files[m]);
    FinishedInit(data, files, n);
    if i < m {
      assert Disjoint(files[i], files[m]) || files[i].files != files[m].files;
      RangeNotEmpty(data, files, n, i);
      RangeNotEmpty(data, files, n, m);
      RefCount(data, files[..m], n, r, i);
    } else if r in Refs(files[..m]) {
      var k := RefOf(files[..m], r);
      assert files[k] == files[m];
      RangeNotEmpty(data, files, n, m);
      assert false;
    }
  }

  lemma RangeNotEmpty(data: Text, files: seq<ChunkFile>, n: nat, i: nat)
    requires Finished(data, files, n) && i < |files|
    ensures files[i].left <= files[i].right && |files[i].files| == 1
  {
  }

  lemma {:induction false} RefsAppend(a: seq<ChunkFile>, b: seq<ChunkFile>)
    ensures Refs(a + b) == Refs(a) + Refs(b)
  {
    hide RefsOf;
    if b == [] {
      assert a + b == a;
    } else {
      assert (a + b)[..|a + b| - 1] == a + b[..|b| - 1];
      RefsAppend(a, b[..|b| - 1]);
    }
  }

  lemma RefsTakeOut(s: seq<ChunkFile>, i: nat)
    requires i < |s|
    ensures Refs(s) == Refs(s[..i] + s[i + 1..]) + Refs([s[i]])
    ensures multiset(s[..i] + s[i + 1..]) == multiset(s) - multiset{s[i]}
  {
    hide Refs;
    WithoutOne(s, i);
    assert s == s[..i] + ([s[i]] + s[i + 1..]);
    RefsAppend(s[..i], [s[i]] + s[i + 1..]);
    RefsAppend([s[i]], s[i + 1..]);
    RefsAppend(s[..i], s[i + 1..]);
  }

  /** Sorting leaves the entries the same. */
  lemma {:induction false} RefsPermuted(a: seq<ChunkFile>, b: seq<ChunkFile>)
    requires multiset(a) == multiset(b)
    ensures Refs(a) == Refs(b)
    decreases |a|
  {
    hide Refs;
    if a == [] {
      assert |b| == |multiset(b)| == 0;
    } else {
      var k := SameElement(a, b, 0);
      RefsTakeOut(a, 0);
      RefsTakeOut(b, k);
      RefsPermuted(a[..0] + a[1..], b[..k] + b[k + 1..]);
    }
  }

  lemma {:induction false} FileRefsCount(files: seq<nat>, f: nat, left: nat, right: nat)
    ensures FileRefs(files, left, right)[Ref(f, left, right)] == multiset(files)[f]
  {
    if files != [] {
      FileRefsCount(files[..|files| - 1], f, left, right);
      assert files == files[..|files| - 1] + [files[|files| - 1]];
    }
  }

  lemma {:induction false} RefsOfWithin(s: seq<ChunkFile>, j: nat)
    requires j < |s|
    ensures RefsOf(s[j]) <= Refs(s)
  {
    hide RefsOf;
    if j < |s| - 1 {
      RefsOfWithin(s[..|s| - 1], j);
    }
  }

  /** Compacted entries are ranges of lines of known files, and no line is in two of one file's. */
  lemma CompactedFine(data: Text, files: seq<ChunkFile>, n: nat)
    requires StrictlyOrdered(files) && RefsFine(data, Refs(files), n)
    requires forall i | 0 <= i < |files| :: files[i].files != []
    ensures forall j | 0 <= j < |files| :: RangeOfLines(data, files[j]) && Below(files[j].files, n) && Distinct(files[j].files)
    ensures forall i, j, f | 0 <= i < j < |files| && f in files[i].files && f in files[j].files :: files[i].right < files[j].left
  {
    hide Refs, RangeOfLines;
    forall j, a | 0 <= j < |files| && 0 <= a < |files[j].files|
      ensures Ref(files[j].files[a], files[j].left, files[j].right) in Refs(files)
    {
      RefIn(files, Ref(files[j].files[a], files[j].left, files[j].right));
    }
    forall j | 0 <= j < |files|
      ensures RangeOfLines(data, files[j]) && Below(files[j].files, n) && Distinct(files[j].files)
    {
      OneCompacted(data, files, n, j);
    }
    forall i, j, f | 0 <= i < j < |files| && f in files[i].files && f in files[j].files
      ensures files[i].right < files[j].left
    {
      Different(data, files, n, i, j, f);
    }
  }

  lemma Different(data: Text, files: seq<ChunkFile>, n: nat, i: nat, j: nat, f: nat)
    requires StrictlyOrdered(files) && RefsFine(data, Refs(files), n)
    requires i < j < |files| && f in files[i].files && f in files[j].files
    ensures files[i].right < files[j].left
  {
    hide Refs;
    var r, s := Ref(f, files[i].left, files[i].right), Ref(f, files[j].left, files[j].right);
    RefIn(files, r);
    RefIn(files, s);
    assert KeyLess(files[i], files[j]);
    assert RangeOfLines(data, ChunkFile([f], r.left, r.right)) && RangeOfLines(data, ChunkFile([f], s.left, s.right));
  }

  lemma OneCompacted(data: Text, files: seq<ChunkFile>, n: nat, j: nat)
    requires RefsFine(data, Refs(files), n) && j < |files| && files[j].files != []
    ensures RangeOfLines(data, files[j]) && Below(files[j].files, n) && Distinct(files[j].files)
  {
    hide Refs, RangeOfLines, RefsFine;
    forall a | 0 <= a < |files[j].files| ensures files[j].files[a] < n && RangeOfLines(data, files[j]) {
      EntryOf(data, files, n, j, a);
    }
    assert files[j].files[0] < n;
    forall a, b | 0 <= a < b < |files[j].files| ensures files[j].files[a] != files[j].files[b] {
      EntryOf(data, files, n, j, a);
      OneEntryEach(files, j, a, b);
    }
  }

  lemma EntryOf(data: Text, files: seq<ChunkFile>, n: nat, j: nat, a: nat)
    requires RefsFine(data, Refs(files), n) && j < |files| && a < |files[j].files|
    ensures files[j].files[a] < n && RangeOfLines(data, files[j])
    ensures Refs(files)[Ref(files[j].files[a], files[j].left, files[j].right)] == 1
  {
    hide Refs, RangeOfLines, RefsFine;
    var r := Ref(files[j].files[a], files[j].left, files[j].right);
    RefIn(files, r);
    FineEntry(data, Refs(files), n, r, files[j]);
  }

  lemma FineEntry(data: Text, refs: multiset<Ref>, n: nat, r: Ref, x: ChunkFile)
    requires RefsFine(data, refs, n) && r in refs && x.left == r.left && x.right == r.right
    ensures refs[r] == 1 && r.file < n && RangeOfLines(data, x)
  {
  }

  lemma OneEntryEach(files: seq<ChunkFile>, j: nat, a: nat, b: nat)
    requires j < |files| && a < b < |files[j].files|
    requires Refs(files)[Ref(files[j].files[a], files[j].left, files[j].right)] == 1
    ensures files[j].files[a] != files[j].files[b]
  {
    hide Refs, FileRefs;
    var x := files[j];
    RefsOfWithin(files, j);
    FileRefsCount(x.files, x.files[a], x.left, x.right);
    if x.files[a] == x.files[b] {
      Reporting.Twice(x.files, a, b);
      assert false;
    }
  }

  // ----- One chunk -----

  predicate KnownFiles(files: seq<IndexedFile>, ranges: seq<ChunkFile>) {
    forall j | 0 <= j < |ranges| :: Below(ranges[j].files, |files|)
  }

  /** The tree of file `i` of range `j`. */
  function TreeAt(files: seq<IndexedFile>, ranges: seq<ChunkFile>, j: nat, i: nat): Text
    requires KnownFiles(files, ranges) && j < |ranges| && i < |ranges[j].files|
  {
    assert Below(ranges[j].files, |files|);
    files[ranges[j].files[i]].tree
  }

  /** The names of the trees that have a file in the chunk. */
  method BuildTreeNames(files: seq<IndexedFile>, ranges: seq<ChunkFile>) returns (names: set<Text>)
    requires KnownFiles(files, ranges)
    ensures names == TreeNames(files, ranges)
  {
    names := {};
    hide KnownFiles;
    for j := 0 to |ranges|
      invariant forall k: nat, i: nat | k < j && i < |ranges[k].files| :: TreeAt(files, ranges, k, i) in names
      invariant names <= TreeNames(files, ranges)
    {
      for i := 0 to |ranges[j].files|
        invariant forall k: nat, m: nat | k < j && m < |ranges[k].files| :: TreeAt(files, ranges, k, m) in names
        invariant forall m: nat | m < i :: TreeAt(files, ranges, j, m) in names
        invariant names <= TreeNames(files, ranges)
      {
        ATreeName(files, ranges, j, i);
        names := names + {TreeAt(files, ranges, j, i)};
      }
    }
    AllTreeNames(files, ranges, names);
  }

  lemma ATreeName(files: seq<IndexedFile>, ranges: seq<ChunkFile>, j: nat, i: nat)
    requires KnownFiles(files, ranges) && j < |ranges| && i < |ranges[j].files|
    ensures TreeAt(files, ranges, j, i) in TreeNames(files, ranges)
  {
    assert Below(ranges[j].files, |files|);
  }

  lemma AllTreeNames(files: seq<IndexedFile>, ranges: seq<ChunkFile>, names: set<Text>)
    requires KnownFiles(files, ranges)
    requires forall j: nat, i: nat | j < |ranges| && i < |ranges[j].files| :: TreeAt(files, ranges, j, i) in names
    ensures TreeNames(files, ranges) <= names
  {
    forall t | t in TreeNames(files, ranges) ensures t in names {
      var j: int, i: int :| 0 <= j < |ranges| && 0 <= i < |ranges[j].files| && ranges[j].files[i] < |files|
        && files[ranges[j].files[i]].tree == t;
      assert t == TreeAt(files, ranges, j, i);
    }
  }

  /** `finalize` and `finalize_files`: the suffix sorter's result comes as a parameter. */
  method FinalizeChunk(files: seq<IndexedFile>, chunkSize: nat, chunk: OpenChunk, suffixes: seq<nat>) returns (r: Chunk)
    requires ChunkOk(chunk, chunkSize, |files|) && IsSuffixArray(Munged(chunk.data), suffixes)
    ensures r.data == chunk.data && Refs(r.files) == Refs(chunk.files)
    ensures ChunkValid(Index([], files, chunkSize), r) && OneRangePerLine(r)
  {
    var munged := Replace(chunk.data, NEWLINE, 0);
    var data := Replace(munged, 0, NEWLINE);
    MungeRestores(chunk.data);
    assert data == chunk.data;
    SortSorts(chunk.files);
    SortedFinished(chunk.data, chunk.files, |files|);
    hide RangeOfLines, Refs, Ordered, StrictlyOrdered, RefsFine;
    var ranges := Compact(Sort(chunk.files));
    CompactedFine(chunk.data, ranges, |files|);
    var names := BuildTreeNames(files, ranges);
    r := Chunk(data, suffixes, ranges, names, BuildTree(ranges, 0, |ranges|));
  }

  lemma SortedFinished(data: Text, files: seq<ChunkFile>, n: nat)
    requires Finished(data, files, n)
    ensures Ordered(Sort(files)) && (forall i | 0 <= i < |Sort(files)| :: |Sort(files)[i].files| == 1)
    ensures Refs(Sort(files)) == Refs(files) && RefsFine(data, Refs(files), n)
  {
    hide Sort, Refs, RangeOfLines, Ordered;
    SortSorts(files);
    RefsPermuted(files, Sort(files));
    FinishedRefs(data, files, n);
    forall i | 0 <= i < |Sort(files)| ensures |Sort(files)[i].files| == 1 {
      var k := SameElement(Sort(files), files, i);
    }
  }

  // ----- The whole index -----

  /** The stored lines of a file, in order. */
  ghost predicate HasLines(index: Index, f: nat, lines: seq<Text>) {
    && f < |index.files| && |index.files[f].content| == |lines|
    && forall k | 0 <= k < |lines| :: HasLine(index, index.files[f].content[k], lines[k])
  }

  ghost predicate HasLine(index: Index, p: Piece, text: Text) {
    PieceIsLine(Texts(index), p) && TextOf(Texts(index), p) == text
  }

  method Finalize(x: Indexer, suffixes: seq<seq<nat>>) returns (index: Index)
    requires x.Valid() && |suffixes| == |x.chunks|
    requires forall c | 0 <= c < |x.chunks| :: IsSuffixArray(Munged(x.chunks[c].data), suffixes[c])
    ensures IndexValid(index) && index.files == x.files && index.chunkSize == x.chunkSize
    ensures |x.texts| == |index.files| && |index.chunks| == |x.chunks|
    ensures forall f | 0 <= f < |x.files| :: HasLines(index, f, Indexed(x.lineLimit, x.texts[f]))
  {
    hide ChunkValid, OneRangePerLine, IsSuffixArray, ChunkOk, Refs, FileOk, HasLines;
    var chunks: seq<Chunk> := [];
    for c := 0 to |x.chunks|
      invariant |chunks| == c
      invariant forall d | 0 <= d < c :: Finalized(x.files, x.chunkSize, x.chunks[d], chunks[d])
    {
      var chunk := FinalizeChunk(x.files, x.chunkSize, x.chunks[c], suffixes[c]);
      chunks := chunks + [chunk];
    }
    index := Index(chunks, x.files, x.chunkSize);
    AllFinalized(x.chunks, index);
    forall f | 0 <= f < |x.files|
      ensures HasLines(index, f, Indexed(x.lineLimit, x.texts[f])) && FileValid(index, f)
    {
      FinalizedFile(x.chunks, index, f, Indexed(x.lineLimit, x.texts[f]));
    }
  }

  ghost predicate Finalized(files: seq<IndexedFile>, chunkSize: nat, x: OpenChunk, y: Chunk) {
    && y.data == x.data && Refs(y.files) == Refs(x.files)
    && ChunkValid(Index([], files, chunkSize), y) && OneRangePerLine(y)
  }

  lemma AllFinalized(chunks: seq<OpenChunk>, index: Index)
    requires |chunks| == |index.chunks|
    requires forall c | 0 <= c < |chunks| :: Finalized(index.files, index.chunkSize, chunks[c], index.chunks[c])
    ensures forall c | 0 <= c < |chunks| :: ChunkValid(index, index.chunks[c]) && OneRangePerLine(index.chunks[c])
  {
    forall c | 0 <= c < |chunks| ensures ChunkValid(index, index.chunks[c]) && OneRangePerLine(index.chunks[c]) {
      hide IsSuffixArray, RangeOfLines, StrictlyOrdered, BuildTree;
      assert Finalized(index.files, index.chunkSize, chunks[c], index.chunks[c]);
    }
  }

  /** A stored line is still stored, and held by a range of the compacted chunk. */
  lemma FinalizedLine(chunks: seq<OpenChunk>, index: Index, f: nat, p: Piece, text: Text) returns (j: nat)
    requires |chunks| == |index.chunks|
    requires forall c | 0 <= c < |chunks| :: Finalized(index.files, index.chunkSize, chunks[c], index.chunks[c])
    requires Holding(chunks, f, p, text)
    ensures HasLine(index, p, text) && Holds(index.chunks[p.chunk], j, f, p)
  {
    hide ChunkValid, OneRangePerLine, Refs, IsLine;
    var x, y := chunks[p.chunk], index.chunks[p.chunk];
    assert Finalized(index.files, index.chunkSize, x, y);
    var i :| 0 <= i < |x.files| && x.files[i].files == [f] && Encloses(x.files[i], p.off, p.off + p.len);
    var r := Ref(f, x.files[i].left, x.files[i].right);
    assert f in x.files[i].files;
    RefIn(x.files, r);
    RefIn(y.files, r);
    j :| 0 <= j < |y.files| && y.files[j].left == r.left && y.files[j].right == r.right && r.file in y.files[j].files;
  }

  lemma FinalizedFile(chunks: seq<OpenChunk>, index: Index, f: nat, lines: seq<Text>)
    requires |chunks| == |index.chunks| && f < |index.files|
    requires forall c | 0 <= c < |chunks| :: Finalized(index.files, index.chunkSize, chunks[c], index.chunks[c])
    requires FileOk(chunks, index.files[f].content, lines, f)
    ensures HasLines(index, f, lines) && FileValid(index, f)
  {
    hide Finalized, Holding, Texts, Holds;
    var content := index.files[f].content;
    forall k | 0 <= k < |content|
      ensures HasLine(index, content[k], lines[k]) && content[k].chunk < |index.chunks|
      ensures exists j :: Holds(index.chunks[content[k].chunk], j, f, content[k])
    {
      assert Holding(chunks, f, content[k], lines[k]);
      var j := FinalizedLine(chunks, index, f, content[k], lines[k]);
    }
  }
}
