/** A finished index, dumped and loaded again: the search of the loaded one answers for the first. */
module Reloading {
  import opened ChunkFiles
  import opened FileContents
  import opened IndexTypes
  import opened DumpLoad
  import opened Finalizing
  import Images
  import Search
  import Grep
  import Delivery
  import Regexps

  // ----- What the index in memory is for the search -----

  ghost predicate FileIs(x: Live, index: Index, f: nat)
    requires f < |x.files| == |index.files|
  {
    && x.files[f].tree < |x.trees|
    && index.files[f] == IndexedFile(x.trees[x.files[f].tree].name, x.files[f].path, x.files[f].content)
  }

  ghost predicate ChunkIs(c: StoredChunk, chunk: Chunk) {
    c.size <= |c.buffer| && chunk.data == c.buffer[..c.size] && chunk.suffixes == c.suffixes && chunk.files == c.ranges
  }

  /** `x` holds the index: its trees by number, and its chunks without what is built from their ranges. */
  ghost predicate Represents(x: Live, index: Index) {
    && x.chunkSize == index.chunkSize && |x.files| == |index.files| && |x.chunks| == |index.chunks|
    && (forall f | 0 <= f < |x.files| :: FileIs(x, index, f))
    && (forall c | 0 <= c < |x.chunks| :: ChunkIs(x.chunks[c], index.chunks[c]))
  }

  method RebuildFiles(x: Live, ghost index: Index) returns (files: seq<IndexedFile>)
    requires Represents(x, index)
    ensures files == index.files
  {
    files := [];
    for f := 0 to |x.files|
      invariant files == index.files[..f]
    {
      assert FileIs(x, index, f);
      files := files + [IndexedFile(x.trees[x.files[f].tree].name, x.files[f].path, x.files[f].content)];
    }
    assert index.files[..|x.files|] == index.files;
  }

  /** `load_chunk`, from its ranges on: the names and the tree are built again. */
  method RebuildChunk(files: seq<IndexedFile>, c: StoredChunk, ghost index: Index, ghost chunk: Chunk) returns (r: Chunk)
    requires files == index.files && ChunkIs(c, chunk) && ChunkValid(index, chunk)
    ensures r == chunk
  {
    var names := BuildTreeNames(files, c.ranges);
    r := Chunk(c.buffer[..c.size], c.suffixes, c.ranges, names, BuildTree(c.ranges, 0, |c.ranges|));
  }

  /** The index the search reads, from what was loaded. */
  method Rebuild(x: Live, ghost index: Index) returns (r: Index)
    requires Represents(x, index) && IndexValid(index)
    ensures r == index
  {
    var files := RebuildFiles(x, index);
    var chunks: seq<Chunk> := [];
    hide ChunkValid, ChunkIs;
    for c := 0 to |x.chunks|
      invariant chunks == index.chunks[..c]
    {
      assert ChunkIs(x.chunks[c], index.chunks[c]) && ChunkValid(index, index.chunks[c]);
      var chunk := RebuildChunk(files, x.chunks[c], index, index.chunks[c]);
      chunks := chunks + [chunk];
    }
    assert index.chunks[..|x.chunks|] == index.chunks;
    r := Index(chunks, files, x.chunkSize);
  }

  /**
   * Dumps an index, loads the file and searches what was loaded: if it can be
   * loaded, the reports are the answers of the index that was dumped.
   */
  method SearchReloaded(x: Live, ghost index: Index, re: Regexps.Regexp, q: Query, order: seq<nat>)
    returns (ok: bool, queue: seq<Result>, filtered: bool, ghost file: Images.Image)
    requires Represents(x, index) && IndexValid(index)
    requires Fits(x) && Untrimmed(x) && DataPosition(x.chunkSize, |x.chunks|) + kPageSize - 1 < Images.kMax32
    requires Regexps.InScope(re) && Grep.Engine(re, q.line) && Search.IsOrder(order, |index.chunks|)
    ensures |file| < Images.Power(8) ==> (ok <==> x.trees != [] && EndsWithRecords(x))
    ensures |file| < Images.Power(8) && ok ==>
      Delivery.Answers(index, q, queue, filtered, !filtered || Regexps.ForgetsNoRepetition(re))
  {
    hide Fits, EndsWithRecords, IndexValid, Regexps.InScope, Grep.Engine, Search.IsOrder, FileIs, ChunkIs;
    var y: Live;
    var image;
    image, ok, y := DumpAndLoad(x);
    file, queue, filtered := image, [], false;
    if ok && |image| < 0x1_0000_0000 * 0x1_0000_0000 {
      Images.Powers();
      SameFiles(x, y, index);
      var loaded := Rebuild(y, index);
      ghost var tree;
      queue, filtered, tree := Grep.Match(re, loaded, q, order);
    }
  }

  /** What a content chunk holds beyond its records is nothing to the search. */
  lemma SameFiles(x: Live, y: Live, index: Index)
    requires Represents(x, index) && y == x.(rest := [])
    ensures Represents(y, index)
  {
    forall f | 0 <= f < |y.files| ensures FileIs(y, index, f) {
      assert FileIs(x, index, f);
    }
  }
}
