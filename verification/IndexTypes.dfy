/** The finished index, as the search reads it, and the queries put to it. */
module IndexTypes {
  import opened Bytes
  import opened Lines
  import opened ChunkFiles
  import opened FileContents
  import SuffixSearch
  import opened Sequences
  import opened Wrappers

  datatype Chunk = Chunk(data: Text, suffixes: seq<nat>, files: seq<ChunkFile>, treeNames: set<Text>, root: Tree)

  datatype IndexedFile = IndexedFile(tree: Text, path: Text, content: seq<Piece>)

  datatype Index = Index(chunks: seq<Chunk>, files: seq<IndexedFile>, chunkSize: nat)

  predicate Below(files: seq<nat>, n: nat) {
    forall i | 0 <= i < |files| :: files[i] < n
  }

  datatype Query = Query(
    line: Pattern,
    valid: Text -> bool,
    filePat: Option<Text -> bool>,
    treePat: Option<Text -> bool>,
    notFilePat: Option<Text -> bool>,
    notTreePat: Option<Text -> bool>,
    context: nat)
  {
    /** Only these two restrict which ranges are scanned. */
    predicate Restricted() {
      filePat.Some? || treePat.Some?
    }

    predicate Accepts(file: IndexedFile) {
      if filePat.Some? && !filePat.value(file.path) then false
      else if treePat.Some? && !treePat.value(file.tree) then false
      else if notFilePat.Some? && notFilePat.value(file.path) then false
      else if notTreePat.Some? && notTreePat.value(file.tree) then false
      else true
    }

    predicate AcceptsAny(index: Index, files: seq<nat>)
      requires Below(files, |index.files|)
    {
      exists i | 0 <= i < |files| :: Accepts(index.files[files[i]])
    }
  }

  function Texts(index: Index): (r: seq<Text>)
    ensures |r| == |index.chunks| && forall c | 0 <= c < |r| :: r[c] == index.chunks[c].data
  {
    seq(|index.chunks|, c requires 0 <= c < |index.chunks| => index.chunks[c].data)
  }

  /** A range starts where a line starts and ends at a newline. */
  predicate RangeOfLines(data: Text, x: ChunkFile) {
    && x.left <= x.right < |data|
    && (x.left == 0 || data[x.left - 1] == NEWLINE)
    && data[x.right] == NEWLINE
  }

  /** Range `j` lists file `f` and holds the whole line. */
  predicate Holds(chunk: Chunk, j: int, f: nat, line: Piece) {
    && 0 <= j < |chunk.files| && f in chunk.files[j].files
    && chunk.files[j].left <= line.off && line.off + line.len <= chunk.files[j].right
  }

  /** The names of the trees that have a file in a range. */
  function TreeNames(files: seq<IndexedFile>, ranges: seq<ChunkFile>): set<Text> {
    set j, i | 0 <= j < |ranges| && 0 <= i < |ranges[j].files| && ranges[j].files[i] < |files| ::
      files[ranges[j].files[i]].tree
  }

  ghost predicate ChunkValid(index: Index, chunk: Chunk) {
    && SuffixSearch.Index(chunk.data, chunk.suffixes) && 0 < |chunk.data| <= index.chunkSize
    && StrictlyOrdered(chunk.files)
    && chunk.root == BuildTree(chunk.files, 0, |chunk.files|)
    && (forall j | 0 <= j < |chunk.files| :: RangeOfLines(chunk.data, chunk.files[j]))
    && (forall j | 0 <= j < |chunk.files| :: Below(chunk.files[j].files, |index.files|))
    && chunk.treeNames == TreeNames(index.files, chunk.files)
  }

  /** A file's pieces are lines of chunks, and each lies in exactly one range of its file. */
  ghost predicate FileValid(index: Index, f: nat)
    requires f < |index.files|
  {
    forall p | p in index.files[f].content ::
      && PieceIsLine(Texts(index), p)
      && (exists j :: Holds(index.chunks[p.chunk], j, f, p))
  }

  /** No two ranges of a chunk list the same file and meet, and none lists a file twice. */
  ghost predicate OneRangePerLine(chunk: Chunk) {
    && (forall i, j, f | 0 <= i < j < |chunk.files| && f in chunk.files[i].files && f in chunk.files[j].files ::
      chunk.files[i].right < chunk.files[j].left)
    && (forall j | 0 <= j < |chunk.files| :: Distinct(chunk.files[j].files))
  }

  /** The largest chunk size that may be configured. */
  const kMaxChunkSize := 0x2000_0000

  ghost predicate IndexValid(index: Index) {
    && index.chunkSize <= kMaxChunkSize
    && (forall c | 0 <= c < |index.chunks| :: ChunkValid(index, index.chunks[c]) && OneRangePerLine(index.chunks[c]))
    && (forall f | 0 <= f < |index.files| :: FileValid(index, f))
  }
}
