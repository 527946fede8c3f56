/** Writing a finished index to a file, and mapping the file back into an index. */
module DumpLoad {
  import opened Bytes
  import opened Images
  import opened FileContents
  import opened ChunkFiles

  const kIndexMagic := 0xc0d3_5eac
  const kIndexVersion := 17
  const kPageSize := 0x4000
  const kContentChunkSize := 0x40_0000

  // ----- The index in memory -----

  datatype TreeRecord = TreeRecord(name: Image, version: Image, metadata: Image)

  datatype FileRecord = FileRecord(tree: nat, path: Image, content: seq<Piece>)

  /** A chunk's buffer, of which the first `size` bytes are text. */
  datatype StoredChunk = StoredChunk(buffer: Image, size: nat, suffixes: seq<nat>, ranges: seq<ChunkFile>)

  datatype NameIndex = NameIndex(data: Image, suffixes: seq<nat>, positions: seq<nat>)

  /**
   * `groups` says how many files' records each content chunk holds, and `rest`
   * is what the last content chunk holds after its records, up to its end.
   */
  datatype Live = Live(
    chunkSize: nat, timestamp: nat, name: Image, trees: seq<TreeRecord>, files: seq<FileRecord>,
    chunks: seq<StoredChunk>, groups: seq<nat>, rest: Image, fileNames: NameIndex, treeNames: NameIndex)

  function Sum(s: seq<nat>): nat {
    if s == [] then 0 else Sum(s[..|s| - 1]) + s[|s| - 1]
  }

  lemma {:induction false} SumPrefix(s: seq<nat>, i: nat)
    requires i <= |s|
    ensures Sum(s[..i]) <= Sum(s)
    ensures i < |s| ==> Sum(s[..i + 1]) == Sum(s[..i]) + s[i]
    decreases |s|
  {
    if i < |s| {
      assert s[..i + 1][..i] == s[..i];
      if i < |s| - 1 {
        SumPrefix(s[..|s| - 1], i);
        assert s[..|s| - 1][..i] == s[..i] && s[..|s| - 1][..i + 1] == s[..i + 1];
      } else {
        assert s[..i + 1] == s;
      }
    } else {
      assert s[..i] == s;
    }
  }

  // ----- How its parts are encoded -----

  function EncTree(t: TreeRecord): Image {
    String(t.name) + String(t.version) + String(t.metadata)
  }

  function EncFile(f: FileRecord): Image {
    Int4(f.tree) + String(f.path)
  }

  function EncRange(x: ChunkFile): Image {
    Int4(|x.files|) + List(Int4, x.files) + Int4(x.left) + Int4(x.right)
  }

  function EncPiece(p: Piece): Image {
    Int4(p.chunk) + Int4(p.off) + Int4(p.len)
  }

  function EncRecord(f: FileRecord): Image {
    Int4(|f.content|) + List(EncPiece, f.content)
  }

  datatype ChunkHeader = ChunkHeader(dataOff: nat, filesOff: nat, size: nat, nfiles: nat)

  function EncChunkHeader(h: ChunkHeader): Image {
    Int(8, h.dataOff) + Int(8, h.filesOff) + Int(4, h.size) + Int(4, h.nfiles)
  }

  datatype ContentHeader = ContentHeader(fileOff: nat, size: nat)

  function EncContentHeader(h: ContentHeader): Image {
    Int(8, h.fileOff) + Int(4, h.size)
  }

  function EncData(c: StoredChunk): Image {
    c.buffer + List(Int4, c.suffixes)
  }

  /** The files whose records are in content chunk `i`. */
  function Group(x: Live, i: nat): seq<FileRecord>
    requires i < |x.groups| && Sum(x.groups) == |x.files|
  {
    SumPrefix(x.groups, i);
    SumPrefix(x.groups, i + 1);
    x.files[Sum(x.groups[..i])..Sum(x.groups[..i + 1])]
  }

  /** What content chunk `i` holds up to its end: back-to-back records, and the rest of the last one. */
  function Content(x: Live, i: nat): Image
    requires i < |x.groups| && Sum(x.groups) == |x.files|
  {
    List(EncRecord, Group(x, i)) + Rest(x, i)
  }

  function Rest(x: Live, i: nat): Image
    requires i < |x.groups|
  {
    if i == |x.groups| - 1 then x.rest else []
  }

  /**
   * The end of `chunk_allocator::finalize`, which sets the end of the last
   * content chunk to where its records end. It is not reached without a chunk.
   */
  function Trimmed(x: Live): Live {
    if x.chunks == [] then x else x.(rest := [])
  }

  datatype Header = Header(
    magic: nat, version: nat, chunkSize: nat, timestamp: nat, nameOff: nat, ntrees: nat, refsOff: nat,
    nfiles: nat, filesOff: nat, nchunks: nat, chunksOff: nat, ncontent: nat, contentOff: nat,
    nfiledata: nat, filedataOff: nat, filesuffixesOff: nat, fileposOff: nat,
    ntreedata: nat, treedataOff: nat, treesuffixesOff: nat, treeposOff: nat)

  const kHeaderWidths: seq<nat> := [4, 4, 4, 8, 8, 4, 8, 4, 8, 4, 8, 4, 8, 4, 8, 8, 8, 4, 8, 8, 8]
  const kHeaderSize := 132

  function Fields(h: Header): (r: seq<nat>)
    ensures |r| == |kHeaderWidths|
  {
    [h.magic, h.version, h.chunkSize, h.timestamp, h.nameOff, h.ntrees, h.refsOff, h.nfiles, h.filesOff, h.nchunks,
     h.chunksOff, h.ncontent, h.contentOff, h.nfiledata, h.filedataOff, h.filesuffixesOff, h.fileposOff,
     h.ntreedata, h.treedataOff, h.treesuffixesOff, h.treeposOff]
  }

  function FromFields(v: seq<nat>): Header
    requires |v| == |kHeaderWidths|
  {
    Header(v[0], v[1], v[2], v[3], v[4], v[5], v[6], v[7], v[8], v[9], v[10], v[11], v[12], v[13], v[14], v[15], v[16],
           v[17], v[18], v[19], v[20])
  }

  function EncHeader(h: Header): Image {
    Packed(kHeaderWidths, Fields(h))
  }

  lemma HeaderSize(h: Header)
    ensures |EncHeader(h)| == kHeaderSize
  {
    PackedSize(kHeaderWidths, Fields(h));
    TotalOfHeader();
  }

  /** The first two fields have four bytes each. */
  lemma HeaderFront(h: Header)
    ensures |EncHeader(h)| == 132 && EncHeader(h)[..4] == Int(4, h.magic) && EncHeader(h)[4..8] == Int(4, h.version)
  {
    HeaderSize(h);
    var e, w, v := EncHeader(h), kHeaderWidths, Fields(h);
    assert e[0..|e|] == e;
    FieldAt(e, 0, w, v, 0);
    FieldAt(e, 0, w, v, 1);
    assert w[..0] == [] && Total([]) == 0 && w[..1] == [4];
  }

  lemma TotalPush(w: seq<nat>, x: nat)
    ensures Total(w + [x]) == Total(w) + x
  {
    assert (w + [x])[..|w|] == w;
  }

  lemma TotalParts(a: seq<nat>, b: seq<nat>)
    ensures Total(a + b) == Total(a) + Total(b)
  {
    if b == [] {
      assert a + b == a;
    } else {
      assert (a + b)[..|a + b| - 1] == a + b[..|b| - 1];
      TotalParts(a, b[..|b| - 1]);
    }
  }

  lemma TotalOf3(a: nat, b: nat, c: nat)
    ensures Total([a, b, c]) == a + b + c
  {
    TotalPush([], a);
    TotalPush([a], b);
    TotalPush([a, b], c);
    assert [] + [a] == [a] && [a] + [b] == [a, b] && [a, b] + [c] == [a, b, c];
  }

  lemma TotalOfHeader()
    ensures Total(kHeaderWidths) == kHeaderSize
  {
    hide Total;
    TotalOf3(4, 4, 4);
    TotalOf3(8, 8, 4);
    TotalOf3(8, 4, 8);
    TotalOf3(4, 8, 4);
    TotalOf3(8, 8, 8);
    var a, b, c, d, e, f, g := [4, 4, 4], [8, 8, 4], [8, 4, 8], [4, 8, 4], [8, 4, 8], [8, 8, 4], [8, 8, 8];
    TotalParts(a, b);
    TotalParts(a + b, c);
    TotalParts(a + b + c, d);
    TotalParts(a + b + c + d, e);
    TotalParts(a + b + c + d + e, f);
    TotalParts(a + b + c + d + e + f, g);
    assert kHeaderWidths == a + b + c + d + e + f + g;
  }

  // ----- What fits -----

  predicate StringsFit(t: TreeRecord) {
    |t.name| < kMax32 && |t.version| < kMax32 && |t.metadata| < kMax32
  }

  predicate PieceFits(p: Piece) {
    p.chunk < kMax32 && p.off < kMax32 && p.len < kMax32
  }

  predicate PiecesFit(s: seq<Piece>) {
    forall k | 0 <= k < |s| :: PieceFits(s[k])
  }

  predicate FileFits(f: FileRecord) {
    f.tree < kMax32 && |f.path| < kMax32 && |f.content| < kMax32 && PiecesFit(f.content)
  }

  predicate RangeFits(r: ChunkFile) {
    |r.files| < kMax32 && All32(r.files) && r.left < kMax32 && r.right < kMax32
  }

  predicate RangesFit(s: seq<ChunkFile>) {
    forall k | 0 <= k < |s| :: RangeFits(s[k])
  }

  predicate ChunkFits(c: StoredChunk, chunkSize: nat) {
    && |c.buffer| == chunkSize && |c.suffixes| == c.size <= chunkSize && All32(c.suffixes)
    && |c.ranges| < kMax32 && RangesFit(c.ranges)
  }

  predicate NamesFit(n: NameIndex, count: nat) {
    && |n.data| < kMax32 && |n.suffixes| == |n.data| && |n.positions| == count && All32(n.suffixes) && All32(n.positions)
  }

  /** A content chunk is begun for a record that does not fit in the one before. */
  predicate ContentsFit(x: Live) {
    && Sum(x.groups) == |x.files| && (x.groups == [] ==> x.rest == [])
    && forall i | 0 <= i < |x.groups| :: x.groups[i] > 0 && |Content(x, i)| <= kContentChunkSize
  }

  /** Before it is trimmed, the last content chunk ends with its buffer. */
  predicate Untrimmed(x: Live) {
    ContentsFit(x) && (x.groups != [] ==> |Content(x, |x.groups| - 1)| == kContentChunkSize)
  }

  predicate Fits(x: Live) {
    && x.chunkSize < kMax32 && x.timestamp < Power(8) && |x.name| < kMax32
    && |x.trees| < kMax32 && |x.files| < kMax32 && |x.chunks| < kMax32 && |x.groups| < kMax32
    && (forall i | 0 <= i < |x.trees| :: StringsFit(x.trees[i]))
    && (forall i | 0 <= i < |x.files| :: FileFits(x.files[i]))
    && (forall i | 0 <= i < |x.chunks| :: ChunkFits(x.chunks[i], x.chunkSize))
    && ContentsFit(x)
    && NamesFit(x.fileNames, |x.files|) && NamesFit(x.treeNames, |x.trees|)
  }

  // ----- What a file that stores the index holds -----

  ghost predicate HeaderSays(h: Header, x: Live, chs: seq<ChunkHeader>, ghs: seq<ContentHeader>) {
    && h.magic == kIndexMagic && h.version == kIndexVersion && h.chunkSize == x.chunkSize && h.timestamp == x.timestamp
    && h.ntrees == |x.trees| && h.nfiles == |x.files| && h.nchunks == |x.chunks| == |chs| && h.ncontent == |x.groups| == |ghs|
    && h.nfiledata == |x.fileNames.data| && h.ntreedata == |x.treeNames.data|
  }

  ghost predicate Metadata(file: Image, h: Header, x: Live, chs: seq<ChunkHeader>, ghs: seq<ContentHeader>) {
    && At(file, h.nameOff, String(x.name)) && At(file, h.refsOff, List(EncTree, x.trees))
    && At(file, h.filesOff, List(EncFile, x.files))
    && At(file, h.chunksOff, List(EncChunkHeader, chs)) && At(file, h.contentOff, List(EncContentHeader, ghs))
  }

  ghost predicate Names(file: Image, dataOff: nat, suffixesOff: nat, posOff: nat, n: NameIndex) {
    && At(file, dataOff, n.data) && At(file, suffixesOff, List(Int4, n.suffixes)) && At(file, posOff, List(Int4, n.positions))
  }

  ghost predicate ChunkStored(file: Image, h: ChunkHeader, c: StoredChunk) {
    && h.size == c.size && h.nfiles == |c.ranges| && h.dataOff < Power(8) && h.filesOff < Power(8)
    && At(file, h.dataOff, EncData(c)) && At(file, h.filesOff, List(EncRange, c.ranges))
  }

  ghost predicate ContentStored(file: Image, h: ContentHeader, enc: Image) {
    h.fileOff < Power(8) && h.size == |enc| && At(file, h.fileOff, enc)
  }

  /** Every offset is at or before the last section, and the file ends with that. */
  ghost predicate Within(file: Image, h: Header, x: Live, chs: seq<ChunkHeader>, ghs: seq<ContentHeader>) {
    && h.nameOff <= h.treeposOff && h.refsOff <= h.treeposOff && h.filesOff <= h.treeposOff
    && h.chunksOff <= h.treeposOff && h.contentOff <= h.treeposOff
    && h.filedataOff <= h.treeposOff && h.filesuffixesOff <= h.treeposOff && h.fileposOff <= h.treeposOff
    && h.treedataOff <= h.treeposOff && h.treesuffixesOff <= h.treeposOff
    && (forall i | 0 <= i < |chs| :: chs[i].dataOff <= h.treeposOff && chs[i].filesOff <= h.treeposOff)
    && (forall i | 0 <= i < |ghs| :: ghs[i].fileOff + ghs[i].size <= h.treeposOff)
    && |file| == h.treeposOff + 4 * |x.trees|
  }

  ghost predicate Stores(file: Image, h: Header, chs: seq<ChunkHeader>, ghs: seq<ContentHeader>, x: Live) {
    && Fits(x) && Fit(kHeaderWidths, Fields(h)) && At(file, 0, EncHeader(h)) && HeaderSays(h, x, chs, ghs)
    && Metadata(file, h, x, chs, ghs)
    && Names(file, h.filedataOff, h.filesuffixesOff, h.fileposOff, x.fileNames)
    && Names(file, h.treedataOff, h.treesuffixesOff, h.treeposOff, x.treeNames)
    && (forall i | 0 <= i < |chs| :: ChunkStored(file, chs[i], x.chunks[i]))
    && (forall i | 0 <= i < |ghs| :: ContentStored(file, ghs[i], Content(x, i)))
    && Within(file, h, x, chs, ghs)
  }

  /** An index file starts with these eight bytes: the mark of its kind, and version 17. */
  predicate Marked(file: Image) {
    |file| >= 132 && file[..8] == [0xac, 0x5e, 0xd3, 0xc0, 17, 0, 0, 0]
  }

  lemma MarkedIs(file: Image)
    requires |file| >= 132
    ensures Marked(file) <==> Value(file[0..4]) == kIndexMagic && Value(file[4..8]) == kIndexVersion
  {
    FourBytes(file[0..4]);
    FourBytes(file[4..8]);
    hide Value;
    var mark := file[..8];
    assert file[0..4] == mark[..4] && file[4..8] == mark[4..];
    assert mark == [mark[0], mark[1], mark[2], mark[3], mark[4], mark[5], mark[6], mark[7]];
  }

  lemma HeaderMarks(file: Image, h: Header)
    requires At(file, 0, EncHeader(h)) && h.magic == kIndexMagic && h.version == kIndexVersion
    ensures Marked(file)
  {
    HeaderSize(h);
    HeaderFront(h);
    hide EncHeader, Marked;
    var e := EncHeader(h);
    assert file[0..4] == e[..4] && file[4..8] == e[4..8];
    Powers();
    ValueOfInt(4, kIndexMagic);
    ValueOfInt(4, kIndexVersion);
    MarkedIs(file);
  }

  // ----- Loading -----

  method LoadTree(file: Image, p: nat, ghost t: TreeRecord) returns (r: TreeRecord, p': nat)
    requires At(file, p, EncTree(t)) && StringsFit(t)
    ensures r == t && p' == p + |EncTree(t)|
  {
    AtParts(file, p, String(t.name) + String(t.version), String(t.metadata));
    AtParts(file, p, String(t.name), String(t.version));
    hide String;
    var name, version, metadata;
    name, p' := LoadString(file, p, t.name);
    version, p' := LoadString(file, p', t.version);
    metadata, p' := LoadString(file, p', t.metadata);
    r := TreeRecord(name, version, metadata);
  }

  method LoadTrees(file: Image, p: nat, n: nat, ghost ts: seq<TreeRecord>) returns (r: seq<TreeRecord>)
    requires At(file, p, List(EncTree, ts)) && n == |ts| && forall i | 0 <= i < |ts| :: StringsFit(ts[i])
    ensures r == ts
  {
    r := [];
    var q := p;
    for i := 0 to n
      invariant r == ts[..i] && q == p + |List(EncTree, ts[..i])|
    {
      ElementAt(file, p, EncTree, ts, i);
      var t;
      t, q := LoadTree(file, q, ts[i]);
      r := r + [t];
    }
    assert ts[..n] == ts;
  }

  /** `load_file`: the content comes later. */
  method LoadFile(file: Image, p: nat, ghost f: FileRecord) returns (r: FileRecord, p': nat)
    requires At(file, p, EncFile(f)) && FileFits(f)
    ensures r == f.(content := []) && p' == p + |EncFile(f)|
  {
    Powers();
    AtParts(file, p, Int4(f.tree), String(f.path));
    hide String;
    var tree, path;
    tree, p' := LoadInt(file, p, 4, f.tree);
    path, p' := LoadString(file, p', f.path);
    r := FileRecord(tree, path, []);
  }

  method LoadFiles(file: Image, p: nat, n: nat, ghost fs: seq<FileRecord>) returns (r: seq<FileRecord>)
    requires At(file, p, List(EncFile, fs)) && n == |fs| && forall i | 0 <= i < |fs| :: FileFits(fs[i])
    ensures |r| == |fs| && forall i | 0 <= i < |fs| :: r[i] == fs[i].(content := [])
  {
    hide EncFile, FileFits, At;
    r := [];
    var q := p;
    assert List(EncFile, fs[..0]) == [];
    for i := 0 to n
      invariant |r| == i && (forall k | 0 <= k < i :: r[k] == fs[k].(content := [])) && q == p + |List(EncFile, fs[..i])|
    {
      ElementAt(file, p, EncFile, fs, i);
      var f;
      f, q := LoadFile(file, q, fs[i]);
      r := r + [f];
    }
  }

  method LoadRange(file: Image, p: nat, ghost x: ChunkFile) returns (r: ChunkFile, p': nat)
    requires At(file, p, EncRange(x)) && RangeFits(x)
    ensures r == x && p' == p + |EncRange(x)|
  {
    Powers();
    AtParts(file, p, Int4(|x.files|) + List(Int4, x.files) + Int4(x.left), Int4(x.right));
    AtParts(file, p, Int4(|x.files|) + List(Int4, x.files), Int4(x.left));
    AtParts(file, p, Int4(|x.files|), List(Int4, x.files));
    var n, files, left, right;
    n, p' := LoadInt(file, p, 4, |x.files|);
    files, p' := LoadInts(file, p', n, x.files);
    left, p' := LoadInt(file, p', 4, x.left);
    right, p' := LoadInt(file, p', 4, x.right);
    r := ChunkFile(files, left, right);
  }

  method LoadRanges(file: Image, p: nat, n: nat, ghost s: seq<ChunkFile>) returns (r: seq<ChunkFile>)
    requires At(file, p, List(EncRange, s)) && n == |s| && RangesFit(s)
    ensures r == s
  {
    r := [];
    var q := p;
    for i := 0 to n
      invariant r == s[..i] && q == p + |List(EncRange, s[..i])|
    {
      ElementAt(file, p, EncRange, s, i);
      var x;
      x, q := LoadRange(file, q, s[i]);
      r := r + [x];
    }
    assert s[..n] == s;
  }

  method LoadChunkHeader(file: Image, p: nat, ghost h: ChunkHeader) returns (r: ChunkHeader, p': nat)
    requires At(file, p, EncChunkHeader(h)) && h.dataOff < Power(8) && h.filesOff < Power(8) && h.size < kMax32 && h.nfiles < kMax32
    ensures r == h && p' == p + 24
  {
    Powers();
    AtParts(file, p, Int(8, h.dataOff) + Int(8, h.filesOff) + Int(4, h.size), Int(4, h.nfiles));
    AtParts(file, p, Int(8, h.dataOff) + Int(8, h.filesOff), Int(4, h.size));
    AtParts(file, p, Int(8, h.dataOff), Int(8, h.filesOff));
    var a, b, c, d;
    a, p' := LoadInt(file, p, 8, h.dataOff);
    b, p' := LoadInt(file, p', 8, h.filesOff);
    c, p' := LoadInt(file, p', 4, h.size);
    d, p' := LoadInt(file, p', 4, h.nfiles);
    r := ChunkHeader(a, b, c, d);
  }

  method LoadContentHeader(file: Image, p: nat, ghost h: ContentHeader) returns (r: ContentHeader, p': nat)
    requires At(file, p, EncContentHeader(h)) && h.fileOff < Power(8) && h.size < kMax32
    ensures r == h && p' == p + 12
  {
    Powers();
    AtParts(file, p, Int(8, h.fileOff), Int(4, h.size));
    var a, b;
    a, p' := LoadInt(file, p, 8, h.fileOff);
    b, p' := LoadInt(file, p', 4, h.size);
    r := ContentHeader(a, b);
  }

  /** `load_chunk`, with the asserted bound on every pointer. */
  method LoadChunk(file: Image, chunkSize: nat, h: ChunkHeader, ghost c: StoredChunk) returns (ok: bool, r: StoredChunk)
    requires ChunkStored(file, h, c) && ChunkFits(c, chunkSize)
    ensures ok <==> h.dataOff < |file| && h.filesOff < |file|
    ensures ok ==> r == c
  {
    ok := h.dataOff < |file| && h.filesOff < |file|;
    if !ok {
      return ok, StoredChunk([], 0, [], []);
    }
    AtParts(file, h.dataOff, c.buffer, List(Int4, c.suffixes));
    var buffer := file[h.dataOff..h.dataOff + chunkSize];
    var suffixes, q := LoadInts(file, h.dataOff + chunkSize, h.size, c.suffixes);
    var ranges := LoadRanges(file, h.filesOff, h.nfiles, c.ranges);
    r := StoredChunk(buffer, h.size, suffixes, ranges);
  }

  method LoadPiece(file: Image, p: nat, ghost x: Piece) returns (r: Piece, p': nat)
    requires At(file, p, EncPiece(x)) && PieceFits(x)
    ensures r == x && p' == p + |EncPiece(x)|
  {
    Powers();
    AtParts(file, p, Int4(x.chunk) + Int4(x.off), Int4(x.len));
    AtParts(file, p, Int4(x.chunk), Int4(x.off));
    var a, b, c;
    a, p' := LoadInt(file, p, 4, x.chunk);
    b, p' := LoadInt(file, p', 4, x.off);
    c, p' := LoadInt(file, p', 4, x.len);
    r := Piece(a, b, c);
  }

  /** One content record, which says how long it is. */
  method LoadRecord(file: Image, p: nat, ghost f: FileRecord) returns (content: seq<Piece>, p': nat)
    requires At(file, p, EncRecord(f)) && FileFits(f)
    ensures content == f.content && p' == p + |EncRecord(f)|
  {
    Powers();
    AtParts(file, p, Int4(|f.content|), List(EncPiece, f.content));
    var n, q := LoadInt(file, p, 4, |f.content|);
    content, p' := [], q;
    for i := 0 to n
      invariant content == f.content[..i] && p' == q + |List(EncPiece, f.content[..i])|
    {
      ElementAt(file, q, EncPiece, f.content, i);
      var x;
      x, p' := LoadPiece(file, p', f.content[i]);
      content := content + [x];
    }
    assert f.content[..n] == f.content;
  }

  /** Records are not empty: the walk over them ends exactly after the last one. */
  lemma {:induction false} RecordsGrow(fs: seq<FileRecord>, i: nat)
    requires i <= |fs|
    ensures |List(EncRecord, fs[..i])| <= |List(EncRecord, fs)|
    ensures |List(EncRecord, fs[..i])| == |List(EncRecord, fs)| <==> i == |fs|
    decreases |fs|
  {
    if i < |fs| {
      RecordsGrow(fs[..|fs| - 1], i);
      assert fs[..|fs| - 1][..i] == fs[..i];
    } else {
      assert fs[..i] == fs;
    }
  }

  /** The files with their contents filled in up to `j` of the group. */
  function Filled(files: seq<FileRecord>, it: nat, fs: seq<FileRecord>, j: nat): seq<FileRecord>
    requires j <= |fs| && it + |fs| <= |files|
  {
    files[..it] + fs[..j] + files[it + j..]
  }

  lemma FillNext(files: seq<FileRecord>, it: nat, fs: seq<FileRecord>, j: nat)
    requires j < |fs| && it + |fs| <= |files| && files[it + j] == fs[j].(content := [])
    ensures |Filled(files, it, fs, j)| == |files| && Filled(files, it, fs, j)[it + j] == fs[j].(content := [])
    ensures Filled(files, it, fs, j)[it + j := fs[j]] == Filled(files, it, fs, j + 1)
  {
  }

  lemma FillNone(files: seq<FileRecord>, it: nat, fs: seq<FileRecord>)
    requires it + |fs| <= |files|
    ensures Filled(files, it, fs, 0) == files
  {
  }

  /**
   * Back-to-back records go to consecutive files. The walk goes on up to the end
   * of the content chunk, and past the last file if there is more than records.
   */
  method LoadGroup(file: Image, h: ContentHeader, files: seq<FileRecord>, it: nat, ghost fs: seq<FileRecord>, ghost rest: Image)
    returns (ok: bool, r: seq<FileRecord>, it': nat)
    requires ContentStored(file, h, List(EncRecord, fs) + rest) && (forall k | 0 <= k < |fs| :: FileFits(fs[k]))
    requires it + |fs| <= |files| && forall k | 0 <= k < |fs| :: files[it + k] == fs[k].(content := [])
    requires rest != [] ==> it + |fs| == |files|
    ensures ok <==> rest == []
    ensures ok ==> it' == it + |fs| && r == Filled(files, it, fs, |fs|)
  {
    hide Filled, EncRecord, FileFits;
    AtParts(file, h.fileOff, List(EncRecord, fs), rest);
    r, it' := files, it;
    var p := h.fileOff;
    ghost var j := 0;
    FillNone(files, it, fs);
    assert fs[..0] == [];
    while p < h.fileOff + h.size
      invariant j <= |fs| && it' == it + j && p == h.fileOff + |List(EncRecord, fs[..j])|
      invariant r == Filled(files, it, fs, j)
      decreases |fs| - j
    {
      RecordsGrow(fs, j);
      if it' == |files| {
        return false, [], 0;
      }
      ElementAt(file, h.fileOff, EncRecord, fs, j);
      FillNext(files, it, fs, j);
      var content;
      content, p := LoadRecord(file, p, fs[j]);
      r := r[it' := r[it'].(content := content)];
      it', j := it' + 1, j + 1;
    }
    RecordsGrow(fs, j);
    ok := true;
  }

  /** Contents are known for the first `n` files. */
  ghost predicate ContentsKnown(x: Live, r: seq<FileRecord>, n: nat) {
    |r| == |x.files| && forall k | 0 <= k < |r| :: r[k] == if k < n then x.files[k] else x.files[k].(content := [])
  }

  /** The contents of the files in the first `i` content chunks are known; there are `it` of them. */
  ghost predicate KnownTo(x: Live, r: seq<FileRecord>, it: nat, i: nat) {
    i <= |x.groups| && it == Sum(x.groups[..i]) && ContentsKnown(x, r, it)
  }

  lemma GroupKnown(x: Live, r: seq<FileRecord>, it: nat, i: nat)
    requires Sum(x.groups) == |x.files| && i < |x.groups| && KnownTo(x, r, it, i)
    ensures var fs := Group(x, i);
      && |fs| == x.groups[i] && it + |fs| <= |r|
      && (forall k | 0 <= k < |fs| :: r[it + k] == fs[k].(content := []))
      && KnownTo(x, Filled(r, it, fs, |fs|), it + |fs|, i + 1)
  {
    SumPrefix(x.groups, i);
    SumPrefix(x.groups, i + 1);
    hide Sum, Filled;
    var fs := Group(x, i);
    FilledIs(r, it, fs);
    assert ContentsKnown(x, Filled(r, it, fs, |fs|), it + |fs|);
  }

  lemma FilledIs(files: seq<FileRecord>, it: nat, fs: seq<FileRecord>)
    requires it + |fs| <= |files|
    ensures var r := Filled(files, it, fs, |fs|);
      |r| == |files| && forall k | 0 <= k < |r| :: r[k] == if it <= k < it + |fs| then fs[k - it] else files[k]
  {
  }

  lemma GroupFits(x: Live, i: nat)
    requires Fits(x) && i < |x.groups|
    ensures forall k | 0 <= k < |Group(x, i)| :: FileFits(Group(x, i)[k])
    ensures |Content(x, i)| < kMax32
  {
    hide FileFits, EncRecord;
    SumPrefix(x.groups, i);
    SumPrefix(x.groups, i + 1);
  }

  lemma LastGroup(x: Live, it: nat, r: seq<FileRecord>, i: nat)
    requires Sum(x.groups) == |x.files| && i < |x.groups| && KnownTo(x, r, it, i)
    ensures Rest(x, i) != [] ==> it + |Group(x, i)| == |r|
  {
    SumPrefix(x.groups, i);
    SumPrefix(x.groups, i + 1);
    if i == |x.groups| - 1 {
      assert x.groups[..i + 1] == x.groups;
    }
  }

  /** One content chunk: its records become the contents of the next files. */
  method LoadNextGroup(file: Image, chdr: nat, r: seq<FileRecord>, it: nat, ghost gh: ContentHeader, ghost x: Live, ghost i: nat)
    returns (ok: bool, r': seq<FileRecord>, it': nat, chdr': nat)
    requires Fits(x) && i < |x.groups| && Sum(x.groups) == |x.files| && At(file, chdr, EncContentHeader(gh))
    requires ContentStored(file, gh, Content(x, i)) && KnownTo(x, r, it, i)
    ensures ok <==> gh.fileOff < |file| && gh.fileOff + gh.size < |file| && Rest(x, i) == []
    ensures ok ==> chdr' == chdr + |EncContentHeader(gh)| && KnownTo(x, r', it', i + 1) && it' == it + x.groups[i]
  {
    GroupFits(x, i);
    hide Fits, ContentStored, KnownTo, EncContentHeader, Filled, Group, Sum, FileFits, At, List, EncRecord, Rest;
    StoredFits(file, gh, Content(x, i));
    EncodedSizes(gh);
    var h;
    h, chdr' := LoadContentHeader(file, chdr, gh);
    r', it' := [], 0;
    ok := h.fileOff < |file| && h.fileOff + h.size < |file|;
    if ok {
      GroupKnown(x, r, it, i);
      LastGroup(x, it, r, i);
      ok, r', it' := LoadGroup(file, h, r, it, Group(x, i), Rest(x, i));
    }
  }

  /** All content chunks stand in the file, before `bound`. */
  ghost predicate ContentsStored(file: Image, ghs: seq<ContentHeader>, x: Live, bound: nat) {
    && |ghs| == |x.groups| && Sum(x.groups) == |x.files|
    && forall i | 0 <= i < |ghs| :: ContentStored(file, ghs[i], Content(x, i)) && ghs[i].fileOff + ghs[i].size <= bound
  }

  lemma ContentIs(file: Image, ghs: seq<ContentHeader>, x: Live, bound: nat, i: nat)
    requires ContentsStored(file, ghs, x, bound) && i < |ghs|
    ensures Sum(x.groups) == |x.files| && i < |x.groups|
    ensures ContentStored(file, ghs[i], Content(x, i)) && ghs[i].fileOff + ghs[i].size <= bound
  {
  }

  lemma NoneKnown(x: Live, r: seq<FileRecord>)
    requires ContentsKnown(x, r, 0)
    ensures KnownTo(x, r, 0, 0)
  {
  }

  method LoadContents(file: Image, p: nat, n: nat, files: seq<FileRecord>, ghost ghs: seq<ContentHeader>, ghost x: Live, ghost bound: nat)
    returns (ok: bool, r: seq<FileRecord>, groups: seq<nat>)
    requires Fits(x) && n == |ghs| == |x.groups| && At(file, p, List(EncContentHeader, ghs)) && ContentsStored(file, ghs, x, bound)
    requires ContentsKnown(x, files, 0)
    ensures ok ==> x.rest == [] && r == x.files && groups == x.groups
    ensures bound < |file| && x.rest == [] ==> ok
  {
    hide Fits, ContentStored, ContentsStored, KnownTo, ContentsKnown, EncContentHeader, Group, At, List, Sum;
    r, groups := files, [];
    var it, chdr := 0, p;
    NoneKnown(x, r);
    NothingListed();
    for i := 0 to n
      invariant groups == x.groups[..i] && KnownTo(x, r, it, i)
      invariant chdr == p + |List(EncContentHeader, ghs[..i])|
      invariant 0 < i == n ==> x.rest == []
    {
      ElementAt(file, p, EncContentHeader, ghs, i);
      ContentIs(file, ghs, x, bound, i);
      var start := it;
      ok, r, it, chdr := LoadNextGroup(file, chdr, r, it, ghs[i], x, i);
      if !ok {
        return false, [], [];
      }
      groups := groups + [it - start];
      assert x.groups[..i + 1] == x.groups[..i] + [x.groups[i]];
    }
    assert x.groups[..n] == x.groups;
    SumsUp(x);
    AllKnown(x, r);
    ok := true;
  }

  lemma NothingListed()
    ensures List(EncContentHeader, []) == []
  {
  }

  lemma SumsUp(x: Live)
    requires Fits(x)
    ensures Sum(x.groups) == |x.files| && (x.groups == [] ==> x.rest == [])
  {
  }

  lemma StoredFits(file: Image, h: ContentHeader, enc: Image)
    requires ContentStored(file, h, enc)
    ensures h.fileOff < Power(8) && h.size == |enc|
  {
  }

  lemma EncodedSizes(h: ContentHeader)
    ensures |EncContentHeader(h)| == 12
  {
  }

  lemma AllKnown(x: Live, r: seq<FileRecord>)
    requires exists it :: KnownTo(x, r, it, |x.groups|)
    requires Sum(x.groups) == |x.files|
    ensures r == x.files
  {
    assert x.groups[..|x.groups|] == x.groups;
  }

  method LoadNames(file: Image, dataOff: nat, suffixesOff: nat, posOff: nat, ndata: nat, count: nat, ghost n: NameIndex)
    returns (ok: bool, r: NameIndex)
    requires Names(file, dataOff, suffixesOff, posOff, n) && ndata == |n.data| && NamesFit(n, count)
    ensures ok <==> dataOff < |file| && suffixesOff < |file| && posOff < |file|
    ensures ok ==> r == n
  {
    ok := dataOff < |file| && suffixesOff < |file| && posOff < |file|;
    if !ok {
      return ok, NameIndex([], [], []);
    }
    var data := file[dataOff..dataOff + ndata];
    var suffixes, q := LoadInts(file, suffixesOff, ndata, n.suffixes);
    var positions;
    positions, q := LoadInts(file, posOff, count, n.positions);
    r := NameIndex(data, suffixes, positions);
  }

  /** All chunks stand in the file, at or before `bound`. */
  ghost predicate ChunksStored(file: Image, chs: seq<ChunkHeader>, x: Live, chunkSize: nat, bound: nat) {
    && |chs| == |x.chunks| && chunkSize < kMax32
    && forall i | 0 <= i < |chs| ::
      && ChunkFits(x.chunks[i], chunkSize) && ChunkStored(file, chs[i], x.chunks[i])
      && chs[i].dataOff <= bound && chs[i].filesOff <= bound
  }

  /** One chunk, whose header is at `p`. */
  method LoadNextChunk(file: Image, p: nat, chunkSize: nat, ghost h: ChunkHeader, ghost c: StoredChunk)
    returns (ok: bool, r: StoredChunk, p': nat)
    requires At(file, p, EncChunkHeader(h)) && ChunkStored(file, h, c) && ChunkFits(c, chunkSize) && chunkSize < kMax32
    ensures p' == p + |EncChunkHeader(h)|
    ensures ok <==> h.dataOff < |file| && h.filesOff < |file|
    ensures ok ==> r == c
  {
    hide EncData, EncRange, At, List, RangesFit;
    var header;
    header, p' := LoadChunkHeader(file, p, h);
    ok, r := LoadChunk(file, chunkSize, header, c);
  }

  method LoadChunks(file: Image, p: nat, n: nat, chunkSize: nat, ghost chs: seq<ChunkHeader>, ghost x: Live, ghost bound: nat)
    returns (ok: bool, r: seq<StoredChunk>)
    requires n == |chs| && At(file, p, List(EncChunkHeader, chs)) && ChunksStored(file, chs, x, chunkSize, bound)
    ensures bound < |file| ==> ok
    ensures ok ==> r == x.chunks
  {
    hide EncChunkHeader, ChunkFits, ChunkStored, List, At;
    r := [];
    var q := p;
    assert List(EncChunkHeader, chs[..0]) == [] by { NoHeaders(); }
    for i := 0 to n
      invariant r == x.chunks[..i] && q == p + |List(EncChunkHeader, chs[..i])|
    {
      ElementAt(file, p, EncChunkHeader, chs, i);
      var c, good;
      good, c, q := LoadNextChunk(file, q, chunkSize, chs[i], x.chunks[i]);
      if !good {
        return false, [];
      }
      r := r + [c];
    }
    assert x.chunks[..n] == x.chunks;
    ok := true;
  }

  lemma NoHeaders()
    ensures List(EncChunkHeader, []) == []
  {
  }

  function Nothing(): Live {
    Live(0, 0, [], [], [], [], [], [], NameIndex([], [], []), NameIndex([], [], []))
  }

  /** Only the positions of the trees come after the last offset. */
  lemma Bounds(file: Image, h: Header, chs: seq<ChunkHeader>, ghs: seq<ContentHeader>, x: Live)
    requires Stores(file, h, chs, ghs, x)
    ensures h.treeposOff < |file| <==> x.trees != []
    ensures h.nameOff <= h.treeposOff && h.refsOff <= h.treeposOff && h.filesOff <= h.treeposOff
    ensures h.chunksOff <= h.treeposOff && h.contentOff <= h.treeposOff
  {
    hide ChunkStored, ContentStored, Fits, Names, EncHeader, Metadata, At;
  }

  method LoadHeader(file: Image, ghost h: Header, ghost chs: seq<ChunkHeader>, ghost ghs: seq<ContentHeader>, ghost x: Live)
    returns (hd: Header)
    requires Stores(file, h, chs, ghs, x)
    ensures hd == h && HeaderSays(h, x, chs, ghs)
  {
    hide ChunkStored, ContentStored, Fits, Names, Metadata, Within;
    var fields, q := LoadPacked(file, 0, kHeaderWidths, Fields(h));
    hd := FromFields(fields);
    FieldsBack(h);
  }

  lemma FieldsBack(h: Header)
    ensures FromFields(Fields(h)) == h
  {
    var v := Fields(h);
    assert v[0] == h.magic && v[10] == h.chunksOff && v[20] == h.treeposOff;
  }

  /** The name, the trees, and the files without their contents. */
  method LoadMetadata(file: Image, h: Header, ghost chs: seq<ChunkHeader>, ghost ghs: seq<ContentHeader>, ghost x: Live)
    returns (name: Image, trees: seq<TreeRecord>, files: seq<FileRecord>)
    requires Stores(file, h, chs, ghs, x)
    ensures name == x.name && trees == x.trees && ContentsKnown(x, files, 0)
  {
    hide ChunkStored, ContentStored, ContentsFit, ChunkFits, StringsFit, FileFits, NamesFit, Names, EncHeader, Within;
    hide EncTree, EncFile, EncChunkHeader, EncContentHeader, String, At;
    var q;
    name, q := LoadString(file, h.nameOff, x.name);
    trees := LoadTrees(file, h.refsOff, h.ntrees, x.trees);
    files := LoadFiles(file, h.filesOff, h.nfiles, x.files);
  }

  /** The chunks and the contents of the files. */
  method LoadData(file: Image, h: Header, files: seq<FileRecord>,
                  ghost chs: seq<ChunkHeader>, ghost ghs: seq<ContentHeader>, ghost x: Live)
    returns (ok: bool, chunks: seq<StoredChunk>, r: seq<FileRecord>, groups: seq<nat>)
    requires Stores(file, h, chs, ghs, x) && ContentsKnown(x, files, 0)
    ensures ok ==> x.rest == [] && chunks == x.chunks && r == x.files && groups == x.groups
    ensures h.treeposOff < |file| && x.rest == [] ==> ok
  {
    hide ChunkStored, ContentStored, ContentsFit, Content, ChunkFits, StringsFit, FileFits, NamesFit, Names, EncHeader;
    hide EncTree, EncFile, EncChunkHeader, EncContentHeader, String, At, ContentsKnown;
    r, groups := [], [];
    ok, chunks := LoadChunks(file, h.chunksOff, h.nchunks, h.chunkSize, chs, x, h.treeposOff);
    if !ok || h.contentOff >= |file| {
      return false, [], [], [];
    }
    SumsUp(x);
    ok, r, groups := LoadContents(file, h.contentOff, h.ncontent, files, ghs, x, h.treeposOff);
  }

  method LoadIndexes(file: Image, h: Header, nfiles: nat, ntrees: nat,
                     ghost chs: seq<ChunkHeader>, ghost ghs: seq<ContentHeader>, ghost x: Live)
    returns (ok: bool, fileNames: NameIndex, treeNames: NameIndex)
    requires Stores(file, h, chs, ghs, x) && nfiles == |x.files| && ntrees == |x.trees|
    ensures ok <==> h.treeposOff < |file|
    ensures ok ==> fileNames == x.fileNames && treeNames == x.treeNames
  {
    hide ChunkStored, ContentStored, ContentsFit, ChunkFits, StringsFit, FileFits, EncHeader, Metadata, At;
    treeNames := NameIndex([], [], []);
    ok, fileNames := LoadNames(file, h.filedataOff, h.filesuffixesOff, h.fileposOff, h.nfiledata, nfiles, x.fileNames);
    if ok {
      ok, treeNames := LoadNames(file, h.treedataOff, h.treesuffixesOff, h.treeposOff, h.ntreedata, ntrees, x.treeNames);
    }
  }

  /**
   * Maps a stored index back, and refuses a file that is not marked as one. Every pointer into the file is checked to lie
   * within it, which fails exactly if the index has no tree; and the walk over
   * the records passes the last file exactly if more than records was stored.
   */
  method Load(file: Image, ghost h: Header, ghost chs: seq<ChunkHeader>, ghost ghs: seq<ContentHeader>, ghost x: Live)
    returns (ok: bool, y: Live)
    requires |file| >= kHeaderSize && (Marked(file) ==> Stores(file, h, chs, ghs, x))
    ensures ok <==> Marked(file) && x.trees != [] && x.rest == []
    ensures ok ==> y == x
  {
    hide Stores, ContentsKnown, Marked;
    MarkedIs(file);
    ok, y := false, Nothing();
    if Value(file[0..4]) != kIndexMagic || Value(file[4..8]) != kIndexVersion {
      return;
    }
    Bounds(file, h, chs, ghs, x);
    var hd := LoadHeader(file, h, chs, ghs, x);
    if !(hd.chunksOff < |file| && hd.nameOff < |file| && hd.refsOff < |file| && hd.filesOff < |file|) {
      return;
    }
    var name, trees, files := LoadMetadata(file, hd, chs, ghs, x);
    var good, chunks, contents, groups := LoadData(file, hd, files, chs, ghs, x);
    if !good {
      return;
    }
    var fileNames, treeNames;
    good, fileNames, treeNames := LoadIndexes(file, hd, |contents|, |trees|, chs, ghs, x);
    if !good {
      return;
    }
    ok := true;
    y := Live(hd.chunkSize, hd.timestamp, name, trees, contents, chunks, groups, [], fileNames, treeNames);
  }

  // ----- Dumping -----

  /** `alignp`: the mask has 32 bits, so a position is cut to those. */
  function Align(pos: nat): nat {
    (pos + kPageSize - 1) / kPageSize * kPageSize % kMax32
  }

  function RoundUp(pos: nat): nat {
    (pos + kPageSize - 1) / kPageSize * kPageSize
  }

  lemma RoundUpBounds(pos: nat)
    ensures pos <= RoundUp(pos) < pos + kPageSize
  {
  }

  /** Aligning goes to the next page, exactly as long as that is below four gigabytes; then it goes back. */
  lemma AlignExactly(pos: nat)
    ensures Align(pos) == RoundUp(pos) <==> pos + kPageSize - 1 < kMax32
    ensures Align(pos) >= pos <==> pos + kPageSize - 1 < kMax32
  {
    RoundUpBounds(pos);
    var pages := (pos + kPageSize - 1) / kPageSize;
    if pos + kPageSize - 1 >= kMax32 {
      assert pages >= kMax32 / kPageSize;
      assert pages * kPageSize >= kMax32;
      if pos < kMax32 {
        assert pages == kMax32 / kPageSize;
      }
    }
  }

  /** Where the data of chunk `i` is aligned from. */
  function DataPosition(chunkSize: nat, i: nat): nat {
    if i == 0 then RoundUp(kHeaderSize) else RoundUp(DataPosition(chunkSize, i - 1)) + 5 * chunkSize
  }

  lemma {:induction false} PositionsGrow(chunkSize: nat, i: nat, n: nat)
    requires i <= n
    ensures DataPosition(chunkSize, i) <= DataPosition(chunkSize, n)
    decreases n
  {
    if i < n {
      PositionsGrow(chunkSize, i, n - 1);
      RoundUpBounds(DataPosition(chunkSize, n - 1));
    }
  }

  type Part = (nat, Image)

  class Dumper {
    var file: Image
    /** What stands where, after the header. */
    ghost var parts: set<Part>

    ghost predicate Valid()
      reads this
    {
      kHeaderSize <= |file| && forall s | s in parts :: kHeaderSize <= s.0 && At(file, s.0, s.1)
    }

    constructor (chunkSize: nat)
      ensures Valid() && |file| == kHeaderSize && parts == {}
    {
      var h := Header(kIndexMagic, kIndexVersion, chunkSize, 0, 0, 0, 0, 0, 0, 0, 0, 0, 0, 0, 0, 0, 0, 0, 0, 0, 0);
      HeaderSize(h);
      file, parts := EncHeader(h), {};
    }

    /** Writes at the end. */
    method Put(enc: Image) returns (off: nat)
      requires Valid()
      modifies this
      ensures Valid() && off == old(|file|) && |file| == old(|file|) + |enc| && parts == old(parts) + {(off, enc)}
    {
      off := |file|;
      file := file + enc;
      parts := parts + {(off, enc)};
      assert file[off..] == enc;
      forall s | s in parts ensures kHeaderSize <= s.0 && At(file, s.0, s.1) {
        if s != (off, enc) {
          AtExtends(old(file), enc, s.0, s.1);
        }
      }
    }

    /** Moves the end on; what is between reads as zeros. */
    method SeekTo(pos: nat)
      requires Valid() && |file| <= pos
      modifies this
      ensures Valid() && |file| == pos && parts == old(parts)
    {
      var zeros := seq(pos - |file|, _ => 0 as Byte);
      forall s | s in parts ensures At(file + zeros, s.0, s.1) {
        AtExtends(file, zeros, s.0, s.1);
      }
      file := file + zeros;
    }

    method AlignP()
      requires Valid() && |file| + kPageSize - 1 < kMax32
      modifies this
      ensures Valid() && |file| == RoundUp(old(|file|)) && parts == old(parts)
    {
      AlignExactly(|file|);
      SeekTo(Align(|file|));
    }

    /** A list, element by element. */
    method PutInts(s: seq<nat>) returns (off: nat)
      requires Valid()
      modifies this
      ensures Valid() && off == old(|file|) && |file| == old(|file|) + |List(Int4, s)|
      ensures parts == old(parts) + {(off, List(Int4, s))}
    {
      var enc: Image := [];
      for i := 0 to |s|
        invariant enc == List(Int4, s[..i]) && file == old(file) && parts == old(parts)
      {
        ListNext(Int4, s, i);
        enc := enc + Int4(s[i]);
      }
      assert s[..|s|] == s;
      off := Put(enc);
    }

    method DumpChunkData(c: StoredChunk, chunkSize: nat) returns (off: nat)
      requires Valid() && |file| + kPageSize - 1 < kMax32 && ChunkFits(c, chunkSize)
      modifies this
      ensures Valid() && old(parts) <= parts && (off, EncData(c)) in parts
      ensures |file| == RoundUp(old(|file|)) + 5 * chunkSize && off % 0x4000 == 0
    {
      AlignP();
      IntsSize(c.suffixes);
      off := Put(EncData(c));
      SeekTo(off + 5 * chunkSize);
    }

    method DumpNames(n: NameIndex) returns (dataOff: nat, suffixesOff: nat, posOff: nat)
      requires Valid()
      modifies this
      ensures Valid() && old(parts) <= parts
      ensures (dataOff, n.data) in parts && (suffixesOff, List(Int4, n.suffixes)) in parts && (posOff, List(Int4, n.positions)) in parts
      ensures |file| == posOff + 4 * |n.positions| && dataOff <= suffixesOff <= posOff
      ensures forall s | s in old(parts) :: s.0 + |s.1| <= dataOff
    {
      ghost var before := parts;
      assert forall s | s in before :: At(file, s.0, s.1);
      dataOff := Put(n.data);
      suffixesOff := PutInts(n.suffixes);
      posOff := PutInts(n.positions);
      IntsSize(n.positions);
    }
  }

  lemma {:induction false} IntsSize(s: seq<nat>)
    ensures |List(Int4, s)| == 4 * |s|
  {
    if s != [] {
      IntsSize(s[..|s| - 1]);
    }
  }

  /** Every part stands before `end`. */
  ghost predicate Before(parts: set<Part>, end: nat) {
    forall s | s in parts :: s.0 + |s.1| <= end
  }

  ghost predicate DataParts(parts: set<Part>, offs: seq<nat>, x: Live) {
    |offs| == |x.chunks| && forall i | 0 <= i < |offs| :: (offs[i], EncData(x.chunks[i])) in parts
  }

  /** The headers of the first content chunks, which stand where they say. */
  ghost predicate FirstContents(parts: set<Part>, ghs: seq<ContentHeader>, x: Live) {
    && |ghs| <= |x.groups| && Sum(x.groups) == |x.files|
    && forall i | 0 <= i < |ghs| :: ghs[i].size == |Content(x, i)| && (ghs[i].fileOff, Content(x, i)) in parts
  }

  ghost predicate ContentParts(parts: set<Part>, ghs: seq<ContentHeader>, x: Live) {
    |ghs| == |x.groups| && FirstContents(parts, ghs, x)
  }

  lemma NextContent(few: set<Part>, parts: set<Part>, ghs: seq<ContentHeader>, x: Live, off: nat)
    requires FirstContents(few, ghs, x) && |ghs| < |x.groups| && few <= parts && (off, Content(x, |ghs|)) in parts
    ensures FirstContents(parts, ghs + [ContentHeader(off, |Content(x, |ghs|)|)], x)
  {
    hide Content, Sum;
  }

  ghost predicate RangeParts(parts: set<Part>, chs: seq<ChunkHeader>, offs: seq<nat>, x: Live) {
    && |chs| == |x.chunks| == |offs|
    && forall i | 0 <= i < |chs| ::
      && chs[i].dataOff == offs[i] && chs[i].size == x.chunks[i].size && chs[i].nfiles == |x.chunks[i].ranges|
      && (chs[i].filesOff, List(EncRange, x.chunks[i].ranges)) in parts
  }

  /** The data of all chunks, each on a page. */
  method DumpChunks(d: Dumper, x: Live) returns (offs: seq<nat>)
    requires d.Valid() && |d.file| == DataPosition(x.chunkSize, 0)
    requires DataPosition(x.chunkSize, |x.chunks|) + kPageSize - 1 < kMax32
    requires forall i | 0 <= i < |x.chunks| :: ChunkFits(x.chunks[i], x.chunkSize)
    modifies d
    ensures d.Valid() && old(d.parts) <= d.parts && |offs| == |x.chunks|
    ensures |d.file| == DataPosition(x.chunkSize, |x.chunks|)
    ensures DataParts(d.parts, offs, x) && forall i | 0 <= i < |offs| :: offs[i] % 0x4000 == 0
  {
    hide ChunkFits, EncData;
    offs := [];
    for i := 0 to |x.chunks|
      invariant d.Valid() && old(d.parts) <= d.parts && |offs| == i && |d.file| == DataPosition(x.chunkSize, i)
      invariant forall k | 0 <= k < i :: (offs[k], EncData(x.chunks[k])) in d.parts
      invariant forall k | 0 <= k < i :: offs[k] % 0x4000 == 0
    {
      PositionsGrow(x.chunkSize, i, |x.chunks|);
      var off := d.DumpChunkData(x.chunks[i], x.chunkSize);
      offs := offs + [off];
    }
  }

  /** The content chunks, as they are in memory, each up to its end. */
  method DumpContents(d: Dumper, x: Live) returns (ghs: seq<ContentHeader>)
    requires d.Valid() && Fits(x)
    modifies d
    ensures d.Valid() && old(d.parts) <= d.parts && ContentParts(d.parts, ghs, x)
  {
    SumsUp(x);
    hide Fits, Content, Sum, FirstContents, Dumper.Valid;
    ghs := [];
    assert FirstContents(d.parts, ghs, x) by { NoContents(d.parts, x); }
    for i := 0 to |x.groups|
      invariant d.Valid() && old(d.parts) <= d.parts && |ghs| == i && FirstContents(d.parts, ghs, x)
    {
      ghost var before := d.parts;
      var enc := Content(x, i);
      var off := d.Put(enc);
      NextContent(before, d.parts, ghs, x, off);
      ghs := ghs + [ContentHeader(off, |enc|)];
    }
  }

  lemma NoContents(parts: set<Part>, x: Live)
    requires Sum(x.groups) == |x.files|
    ensures FirstContents(parts, [], x)
  {
  }

  /** The ranges of every chunk, and the chunk headers. */
  method DumpRanges(d: Dumper, x: Live, offs: seq<nat>) returns (chs: seq<ChunkHeader>)
    requires d.Valid() && |offs| == |x.chunks|
    modifies d
    ensures d.Valid() && old(d.parts) <= d.parts && RangeParts(d.parts, chs, offs, x)
  {
    hide EncRange;
    chs := [];
    for i := 0 to |x.chunks|
      invariant d.Valid() && old(d.parts) <= d.parts && |chs| == i
      invariant forall k | 0 <= k < i ::
        && chs[k].dataOff == offs[k] && chs[k].size == x.chunks[k].size && chs[k].nfiles == |x.chunks[k].ranges|
        && (chs[k].filesOff, List(EncRange, x.chunks[k].ranges)) in d.parts
    {
      var c := x.chunks[i];
      var off := d.Put(List(EncRange, c.ranges));
      chs := chs + [ChunkHeader(offs[i], off, c.size, |c.ranges|)];
    }
  }

  ghost predicate TreeParts(parts: set<Part>, h: Header, x: Live) {
    && (h.treedataOff, x.treeNames.data) in parts && (h.treesuffixesOff, List(Int4, x.treeNames.suffixes)) in parts
    && (h.treeposOff, List(Int4, x.treeNames.positions)) in parts
  }

  ghost predicate SingleParts(parts: set<Part>, h: Header, x: Live, chs: seq<ChunkHeader>, ghs: seq<ContentHeader>) {
    && (h.nameOff, String(x.name)) in parts && (h.refsOff, List(EncTree, x.trees)) in parts
    && (h.filesOff, List(EncFile, x.files)) in parts
    && (h.chunksOff, List(EncChunkHeader, chs)) in parts && (h.contentOff, List(EncContentHeader, ghs)) in parts
    && (h.filedataOff, x.fileNames.data) in parts && (h.filesuffixesOff, List(Int4, x.fileNames.suffixes)) in parts
    && (h.fileposOff, List(Int4, x.fileNames.positions)) in parts
  }

  /** Where the parts of the index are, by name; those of the tree names come last. */
  ghost predicate PartsOf(parts: set<Part>, h: Header, x: Live, chs: seq<ChunkHeader>, ghs: seq<ContentHeader>, offs: seq<nat>) {
    SingleParts(parts, h, x, chs, ghs) && DataParts(parts, offs, x) && RangeParts(parts, chs, offs, x) && ContentParts(parts, ghs, x)
  }

  lemma MoreParts(few: set<Part>, parts: set<Part>, chs: seq<ChunkHeader>, ghs: seq<ContentHeader>, offs: seq<nat>, x: Live)
    requires few <= parts
    ensures DataParts(few, offs, x) ==> DataParts(parts, offs, x)
    ensures ContentParts(few, ghs, x) ==> ContentParts(parts, ghs, x)
    ensures RangeParts(few, chs, offs, x) ==> RangeParts(parts, chs, offs, x)
  {
    hide EncData, EncRecord, EncRange, List;
  }

  /**
   * Writes an index to a file: everything after room for the header, and then
   * the header over that room. The data of every chunk starts a page of 16 KB.
   */
  method Dump(x: Live) returns (file: Image, ghost h: Header, ghost chs: seq<ChunkHeader>, ghost ghs: seq<ContentHeader>)
    requires Fits(x) && DataPosition(x.chunkSize, |x.chunks|) + kPageSize - 1 < kMax32
    ensures Marked(file) && forall i | 0 <= i < |chs| :: chs[i].dataOff % 0x4000 == 0
    ensures |file| < Power(8) ==> Stores(file, h, chs, ghs, x)
  {
    hide Fits, String, EncTree, EncFile, EncRange, EncRecord, EncData, EncChunkHeader, EncContentHeader, Stores, DataPosition;
    hide Marked;
    SumsUp(x);
    ChunksFit(x);
    PositionsGrow(x.chunkSize, 0, |x.chunks|);
    FirstPosition(x.chunkSize);
    var d := new Dumper(x.chunkSize);
    d.AlignP();
    var offs := DumpChunks(d, x);
    d.AlignP();
    var hd;
    hd, chs, ghs := DumpMetadata(d, x, offs);
    file := EncHeader(hd) + d.file[kHeaderSize..];
    h := hd;
    HeaderStands(d, file, h);
    HeaderMarks(file, h);
    DumpedStores(d, file, h, chs, ghs, x);
  }

  /** All parts are there, and nothing but the last positions comes after the last offset. */
  ghost predicate Complete(d: Dumper, h: Header, x: Live, chs: seq<ChunkHeader>, ghs: seq<ContentHeader>)
    reads d
  {
    && HeaderSays(h, x, chs, ghs)
    && TreeParts(d.parts, h, x) && |d.file| == h.treeposOff + 4 * |x.treeNames.positions|
    && h.treedataOff <= h.treesuffixesOff <= h.treeposOff
    && exists early, offs :: early <= d.parts && PartsOf(early, h, x, chs, ghs, offs) && Before(early, h.treedataOff)
  }

  /** Content records, name, trees and files. */
  method DumpRecords(d: Dumper, x: Live) returns (contents: seq<ContentHeader>, nameOff: nat, refsOff: nat, filesOff: nat)
    requires d.Valid() && Fits(x)
    modifies d
    ensures d.Valid() && old(d.parts) <= d.parts && ContentParts(d.parts, contents, x)
    ensures (nameOff, String(x.name)) in d.parts && (refsOff, List(EncTree, x.trees)) in d.parts
    ensures (filesOff, List(EncFile, x.files)) in d.parts
  {
    SumsUp(x);
    hide Fits, String, EncTree, EncFile, EncRecord, Dumper.Valid, List;
    contents := DumpContents(d, x);
    nameOff := d.Put(String(x.name));
    refsOff := d.Put(List(EncTree, x.trees));
    filesOff := d.Put(List(EncFile, x.files));
  }

  /** The ranges of the chunks, and the headers of chunks and content chunks. */
  method DumpHeaders(d: Dumper, x: Live, offs: seq<nat>, contents: seq<ContentHeader>)
    returns (chunks: seq<ChunkHeader>, chunksOff: nat, contentOff: nat)
    requires d.Valid() && |offs| == |x.chunks|
    modifies d
    ensures d.Valid() && old(d.parts) <= d.parts && RangeParts(d.parts, chunks, offs, x)
    ensures (chunksOff, List(EncChunkHeader, chunks)) in d.parts && (contentOff, List(EncContentHeader, contents)) in d.parts
  {
    hide EncRange, EncChunkHeader, EncContentHeader, Dumper.Valid, List;
    chunks := DumpRanges(d, x, offs);
    chunksOff := d.Put(List(EncChunkHeader, chunks));
    contentOff := d.Put(List(EncContentHeader, contents));
  }

  ghost predicate DataAt(chs: seq<ChunkHeader>, offs: seq<nat>) {
    |chs| == |offs| && forall i | 0 <= i < |chs| :: chs[i].dataOff == offs[i]
  }

  /** What comes after the chunks' data. */
  method DumpMetadata(d: Dumper, x: Live, offs: seq<nat>) returns (h: Header, ghost chs: seq<ChunkHeader>, ghost ghs: seq<ContentHeader>)
    requires d.Valid() && Fits(x) && DataParts(d.parts, offs, x)
    modifies d
    ensures d.Valid() && Complete(d, h, x, chs, ghs)
    ensures h.magic == kIndexMagic && h.version == kIndexVersion
    ensures DataAt(chs, offs)
  {
    SumsUp(x);
    hide Fits, String, EncTree, EncFile, EncRange, EncRecord, EncData, EncChunkHeader, EncContentHeader, Dumper.Valid, List, NamesFit;
    hide DataParts, ContentParts, RangeParts, DataAt;
    ghost var p0 := d.parts;
    var contents, nameOff, refsOff, filesOff := DumpRecords(d, x);
    ghost var p1 := d.parts;
    var chunks, chunksOff, contentOff := DumpHeaders(d, x, offs, contents);
    ghost var p2 := d.parts;
    var filedataOff, filesuffixesOff, fileposOff := d.DumpNames(x.fileNames);
    ghost var early := d.parts;
    MoreParts(p0, early, chunks, contents, offs, x);
    MoreParts(p1, early, chunks, contents, offs, x);
    MoreParts(p2, early, chunks, contents, offs, x);
    var treedataOff, treesuffixesOff, treeposOff := d.DumpNames(x.treeNames);
    h := Header(kIndexMagic, kIndexVersion, x.chunkSize, x.timestamp, nameOff, |x.trees|, refsOff, |x.files|, filesOff,
                |x.chunks|, chunksOff, |x.groups|, contentOff, |x.fileNames.data|, filedataOff, filesuffixesOff, fileposOff,
                |x.treeNames.data|, treedataOff, treesuffixesOff, treeposOff);
    chs, ghs := chunks, contents;
    assert PartsOf(early, h, x, chs, ghs, offs);
    HeadersMatch(early, chs, ghs, offs, x);
  }

  lemma HeadersMatch(parts: set<Part>, chs: seq<ChunkHeader>, ghs: seq<ContentHeader>, offs: seq<nat>, x: Live)
    requires RangeParts(parts, chs, offs, x) && ContentParts(parts, ghs, x)
    ensures |chs| == |x.chunks| && |ghs| == |x.groups| && DataAt(chs, offs)
  {
  }

  /** A part stands in the finished file where it was put. */
  lemma PartStands(d: Dumper, file: Image, h: Header, s: Part)
    requires d.Valid() && s in d.parts && file == EncHeader(h) + d.file[kHeaderSize..]
    ensures At(file, s.0, s.1)
  {
    HeaderSize(h);
    AtAfter(d.file, EncHeader(h), s.0, s.1);
  }

  lemma HeaderStands(d: Dumper, file: Image, h: Header)
    requires d.Valid() && file == EncHeader(h) + d.file[kHeaderSize..]
    ensures At(file, 0, EncHeader(h)) && |file| == |d.file|
  {
    HeaderSize(h);
  }

  lemma DumpedStores(d: Dumper, file: Image, h: Header, chs: seq<ChunkHeader>, ghs: seq<ContentHeader>, x: Live)
    requires d.Valid() && Fits(x) && Complete(d, h, x, chs, ghs) && file == EncHeader(h) + d.file[kHeaderSize..]
    ensures |file| < Power(8) ==> Stores(file, h, chs, ghs, x)
  {
    hide EncHeader, String, EncTree, EncFile, EncRange, Content, EncData, EncChunkHeader, EncContentHeader, At, List;
    var early, offs :| early <= d.parts && PartsOf(early, h, x, chs, ghs, offs) && Before(early, h.treedataOff);
    HeaderStands(d, file, h);
    forall s | s in d.parts ensures At(file, s.0, s.1) {
      PartStands(d, file, h, s);
    }
    if |file| < Power(8) {
      EarlyWithin(early, file, h, chs, ghs, offs, x);
      OffsetsFit(h, x, chs, ghs, |file|);
    }
  }

  lemma EarlyWithin(early: set<Part>, file: Image, h: Header, chs: seq<ChunkHeader>, ghs: seq<ContentHeader>, offs: seq<nat>, x: Live)
    requires PartsOf(early, h, x, chs, ghs, offs) && Before(early, h.treedataOff) && NamesFit(x.treeNames, |x.trees|)
    requires h.treedataOff <= h.treesuffixesOff <= h.treeposOff && |file| == h.treeposOff + 4 * |x.treeNames.positions|
    ensures Within(file, h, x, chs, ghs)
  {
  }

  lemma OffsetsFit(h: Header, x: Live, chs: seq<ChunkHeader>, ghs: seq<ContentHeader>, size: nat)
    requires Fits(x) && HeaderSays(h, x, chs, ghs) && h.treeposOff <= size < Power(8)
    requires h.nameOff <= h.treeposOff && h.refsOff <= h.treeposOff && h.filesOff <= h.treeposOff
    requires h.chunksOff <= h.treeposOff && h.contentOff <= h.treeposOff
    requires h.filedataOff <= h.treeposOff && h.filesuffixesOff <= h.treeposOff && h.fileposOff <= h.treeposOff
    requires h.treedataOff <= h.treeposOff && h.treesuffixesOff <= h.treeposOff
    ensures Fit(kHeaderWidths, Fields(h))
  {
    hide ContentsFit, StringsFit, FileFits, ChunkFits;
    Powers();
    var v := Fields(h);
    assert v[0] < Power(4) && v[1] < Power(4) && v[2] < Power(4) && v[5] < Power(4) && v[7] < Power(4) && v[9] < Power(4)
      && v[11] < Power(4) && v[13] < Power(4) && v[17] < Power(4);
  }

  lemma ChunksFit(x: Live)
    requires Fits(x)
    ensures forall i | 0 <= i < |x.chunks| :: ChunkFits(x.chunks[i], x.chunkSize)
  {
  }

  lemma FirstPosition(chunkSize: nat)
    ensures DataPosition(chunkSize, 0) == RoundUp(kHeaderSize) && RoundUp(kHeaderSize) >= kHeaderSize
  {
  }

  /** Nothing follows the records of the last content chunk once the index has been finalized. */
  predicate EndsWithRecords(x: Live)
    requires ContentsFit(x)
  {
    x.chunks != [] || x.files == [] || |List(EncRecord, Group(x, |x.groups| - 1))| == kContentChunkSize
  }

  lemma TrimmedFits(x: Live)
    requires Fits(x) && Untrimmed(x)
    ensures Fits(Trimmed(x)) && (Trimmed(x).rest == [] <==> EndsWithRecords(x))
  {
  }

  /**
   * Finalizing an index, dumping it and loading the file gives the index back,
   * exactly if it has a tree and a chunk, or else no files, or content records
   * that fill their last chunk to the end.
   */
  method DumpAndLoad(x: Live) returns (file: Image, ok: bool, y: Live)
    requires Fits(x) && Untrimmed(x) && DataPosition(x.chunkSize, |x.chunks|) + kPageSize - 1 < kMax32
    ensures |file| < Power(8) ==> (ok <==> x.trees != [] && EndsWithRecords(x)) && (ok ==> y == x.(rest := []))
  {
    ghost var h, chs, ghs;
    TrimmedFits(x);
    hide Stores, Fits, EndsWithRecords;
    Powers();
    file, h, chs, ghs := Dump(Trimmed(x));
    ok, y := false, Nothing();
    if |file| < 0x1_0000_0000 * 0x1_0000_0000 {
      ok, y := Load(file, h, chs, ghs, Trimmed(x));
    }
  }

  /** One tree with one empty file: no line was ever indexed, so there is no chunk. */
  function OneEmptyFile(rest: Image): Live {
    var names := NameIndex([0], [0], [0]);
    Live(0x800_0000, 0, [], [TreeRecord([], [], [])], [FileRecord(0, [], [])], [], [1], rest, names, names)
  }

  /** Whatever its buffer holds, that index is not loaded back. */
  method EmptyFileNotLoaded(rest: Image) returns (file: Image, ok: bool, y: Live)
    requires |rest| == kContentChunkSize - 4
    ensures Fits(OneEmptyFile(rest)) && Untrimmed(OneEmptyFile(rest)) && OneEmptyFile(rest).trees != []
    ensures |file| < Power(8) ==> !ok
  {
    var x := OneEmptyFile(rest);
    Powers();
    assert x.groups[..0] == [] && x.groups[..1] == x.groups && Sum([]) == 0 && Sum(x.groups) == 1;
    assert Group(x, 0) == x.files && |List(EncRecord, x.files)| == 4;
    file, ok, y := DumpAndLoad(x);
  }
}
