/** Indexing files: each line is stored once per chunk, and each file becomes a list of stored lines. */
module Indexing {
  import opened Bytes
  import opened Lines
  import opened ChunkFiles
  import opened FileContents
  import opened IndexTypes
  import opened ChunkRanges
  import opened FileLines

  /** Content records of this size or more are not stored. */
  const kContentChunkSize := 0x40_0000

  /** A chunk under construction, with the ranges of finished files and of the current one. */
  datatype OpenChunk = OpenChunk(data: Text, files: seq<ChunkFile>, cur: seq<ChunkFile>)

  // ----- What holds of the chunks -----

  predicate TextOk(data: Text, size: nat) {
    0 < |data| <= size && Terminated(data) && 0 !in data
  }

  /** Ranges of whole lines, one file each and below `n`; those of one file do not meet. */
  ghost predicate Finished(data: Text, files: seq<ChunkFile>, n: nat) {
    && (forall i | 0 <= i < |files| :: |files[i].files| == 1 && files[i].files[0] < n && RangeOfLines(data, files[i]))
    && (forall i, j | 0 <= i < j < |files| && files[i].files == files[j].files :: Disjoint(files[i], files[j]))
  }

  ghost predicate ChunkOk(chunk: OpenChunk, size: nat, sf: nat) {
    TextOk(chunk.data, size) && Finished(chunk.data, chunk.files, sf) && OwnRanges(chunk.data, chunk.cur, sf)
  }

  ghost predicate ChunksOk(chunks: seq<OpenChunk>, size: nat, sf: nat) {
    forall c | 0 <= c < |chunks| :: ChunkOk(chunks[c], size, sf)
  }

  /** The piece is a line of its chunk, and this is its text. */
  ghost predicate Stored(chunks: seq<OpenChunk>, p: Piece, text: Text) {
    && p.chunk < |chunks| && IsLine(chunks[p.chunk].data, p.off, p.off + p.len)
    && chunks[p.chunk].data[p.off..p.off + p.len] == text
  }

  /** A range of the finished file `f` holds the line. */
  ghost predicate Filed(chunk: OpenChunk, f: nat, p: Piece) {
    exists j | 0 <= j < |chunk.files| :: chunk.files[j].files == [f] && Encloses(chunk.files[j], p.off, p.off + p.len)
  }

  /** The piece is the given line, and a range of the finished file `f` holds it. */
  ghost predicate Holding(chunks: seq<OpenChunk>, f: nat, p: Piece, text: Text) {
    Stored(chunks, p, text) && Filed(chunks[p.chunk], f, p)
  }

  ghost predicate FileOk(chunks: seq<OpenChunk>, content: seq<Piece>, lines: seq<Text>, f: nat) {
    && |content| == |lines|
    && (forall k | 0 <= k < |content| :: Holding(chunks, f, content[k], lines[k]))
  }

  /** The same for the file being indexed. */
  ghost predicate HoldingNow(chunks: seq<OpenChunk>, p: Piece, text: Text) {
    Stored(chunks, p, text) && Enclosed(chunks[p.chunk].cur, p.off, p.off + p.len)
  }

  ghost predicate Filing(chunks: seq<OpenChunk>, content: seq<Piece>, lines: seq<Text>) {
    && |content| == |lines|
    && (forall k | 0 <= k < |content| :: HoldingNow(chunks, content[k], lines[k]))
  }

  /** The table of known lines holds lines of the current chunk only. */
  ghost predicate TableOk(chunks: seq<OpenChunk>, lines: map<Text, Piece>) {
    forall t | t in lines :: Stored(chunks, lines[t], t) && lines[t].chunk == |chunks| - 1
  }

  // ----- How chunks change -----

  ghost predicate GrownChunk(x: OpenChunk, y: OpenChunk) {
    && x.data <= y.data && y.files == x.files
    && forall a: nat, b: nat | Enclosed(x.cur, a, b) :: Enclosed(y.cur, a, b)
  }

  ghost predicate Grown(xs: seq<OpenChunk>, ys: seq<OpenChunk>) {
    |xs| <= |ys| && forall c | 0 <= c < |xs| :: GrownChunk(xs[c], ys[c])
  }

  /** Nothing new is stored. */
  ghost predicate SameTexts(xs: seq<OpenChunk>, ys: seq<OpenChunk>) {
    |xs| == |ys| && forall c | 0 <= c < |xs| :: ys[c].data == xs[c].data
  }

  lemma GrownTrans(xs: seq<OpenChunk>, ys: seq<OpenChunk>, zs: seq<OpenChunk>)
    requires Grown(xs, ys) && Grown(ys, zs)
    ensures Grown(xs, zs)
  {
    hide Enclosed;
    forall c | 0 <= c < |xs| ensures GrownChunk(xs[c], zs[c]) {
      assert GrownChunk(xs[c], ys[c]) && GrownChunk(ys[c], zs[c]);
    }
  }

  lemma LineStays(x: Text, y: Text, a: nat, b: nat)
    requires x <= y && IsLine(x, a, b)
    ensures IsLine(y, a, b) && y[a..b] == x[a..b]
  {
    assert y == x + y[|x|..];
  }

  lemma GrownStored(xs: seq<OpenChunk>, ys: seq<OpenChunk>, p: Piece, text: Text)
    requires Grown(xs, ys) && Stored(xs, p, text)
    ensures Stored(ys, p, text)
  {
    assert GrownChunk(xs[p.chunk], ys[p.chunk]);
    LineStays(xs[p.chunk].data, ys[p.chunk].data, p.off, p.off + p.len);
  }

  lemma GrownHolding(xs: seq<OpenChunk>, ys: seq<OpenChunk>, f: nat, p: Piece, text: Text)
    requires Grown(xs, ys)
    ensures Holding(xs, f, p, text) ==> Holding(ys, f, p, text)
    ensures HoldingNow(xs, p, text) ==> HoldingNow(ys, p, text)
  {
    hide IsLine, Enclosed;
    if Stored(xs, p, text) {
      GrownStored(xs, ys, p, text);
      assert GrownChunk(xs[p.chunk], ys[p.chunk]);
    }
  }

  lemma GrownFile(xs: seq<OpenChunk>, ys: seq<OpenChunk>, content: seq<Piece>, lines: seq<Text>, f: nat)
    requires Grown(xs, ys) && FileOk(xs, content, lines, f)
    ensures FileOk(ys, content, lines, f)
  {
    hide Holding, HoldingNow, Grown;
    forall k | 0 <= k < |content| ensures Holding(ys, f, content[k], lines[k]) {
      GrownHolding(xs, ys, f, content[k], lines[k]);
    }
  }

  lemma GrownFiling(xs: seq<OpenChunk>, ys: seq<OpenChunk>, content: seq<Piece>, lines: seq<Text>)
    requires Grown(xs, ys) && Filing(xs, content, lines)
    ensures Filing(ys, content, lines)
  {
    hide Holding, HoldingNow, Grown;
    forall k | 0 <= k < |content| ensures HoldingNow(ys, content[k], lines[k]) {
      GrownHolding(xs, ys, 0, content[k], lines[k]);
    }
  }

  /** Putting a line at the end of a chunk's text. */
  lemma AppendLine(data: Text, text: Text)
    requires Terminated(data) && NEWLINE !in text
    ensures Terminated(data + text + [NEWLINE]) && data <= data + text + [NEWLINE]
    ensures IsLine(data + text + [NEWLINE], |data|, |data| + |text|)
    ensures (data + text + [NEWLINE])[|data|..|data| + |text|] == text
  {
    var d := data + text + [NEWLINE];
    assert forall i | |data| <= i < |data| + |text| :: d[i] == text[i - |data|];
  }

  lemma FinishedExtends(data: Text, more: Text, files: seq<ChunkFile>, n: nat)
    requires Finished(data, files, n)
    ensures Finished(data + more, files, n)
  {
  }

  /** A chunk with one more line. */
  lemma ChunkWithLine(chunk: OpenChunk, text: Text, size: nat, sf: nat)
    requires Terminated(chunk.data) && 0 !in chunk.data && Finished(chunk.data, chunk.files, sf) && OwnRanges(chunk.data, chunk.cur, sf)
    requires NEWLINE !in text && 0 !in text && |chunk.data| + |text| + 1 <= size
    ensures var chunk' := chunk.(data := chunk.data + text + [NEWLINE]);
      ChunkOk(chunk', size, sf) && GrownChunk(chunk, chunk')
  {
    AppendLine(chunk.data, text);
    assert chunk.data + text + [NEWLINE] == chunk.data + (text + [NEWLINE]);
    FinishedExtends(chunk.data, text + [NEWLINE], chunk.files, sf);
    OwnRangesExtend(chunk.data, text + [NEWLINE], chunk.cur, sf);
  }

  lemma OneChanged(xs: seq<OpenChunk>, c: nat, y: OpenChunk, size: nat, sf: nat)
    requires ChunksOk(xs, size, sf) && c < |xs| && ChunkOk(y, size, sf) && GrownChunk(xs[c], y)
    ensures ChunksOk(xs[c := y], size, sf) && Grown(xs, xs[c := y])
  {
    hide ChunkOk, Enclosed;
  }

  lemma OneAdded(xs: seq<OpenChunk>, y: OpenChunk, size: nat, sf: nat)
    requires ChunksOk(xs, size, sf) && ChunkOk(y, size, sf)
    ensures ChunksOk(xs + [y], size, sf) && Grown(xs, xs + [y])
  {
    hide ChunkOk, Enclosed;
  }

  // ----- The content of a file -----

  /** `extend`: a piece that starts where the last one ends would be joined to it. */
  function Extend(pieces: seq<Piece>, p: Piece): seq<Piece> {
    if pieces != [] && p.len > 0 && Follows(pieces[|pieces| - 1], p)
    then pieces[..|pieces| - 1] + [pieces[|pieces| - 1].(len := pieces[|pieces| - 1].len + p.len)]
    else pieces + [p]
  }

  predicate Follows(q: Piece, p: Piece) {
    q.chunk == p.chunk && q.off + q.len == p.off
  }

  /** No stored line starts where another ends, because a newline is there: pieces are never joined. */
  lemma NeverJoined(chunks: seq<OpenChunk>, pieces: seq<Piece>, lines: seq<Text>, p: Piece, text: Text)
    requires Filing(chunks, pieces, lines) && Stored(chunks, p, text)
    ensures Extend(pieces, p) == pieces + [p]
  {
    hide IsLine, Enclosed;
    if pieces != [] {
      var q := pieces[|pieces| - 1];
      assert HoldingNow(chunks, q, lines[|pieces| - 1]);
      AfterLine(chunks, q, lines[|pieces| - 1]);
      StartOfLine(chunks, p, text);
    }
  }

  lemma AfterLine(chunks: seq<OpenChunk>, q: Piece, text: Text)
    requires Stored(chunks, q, text)
    ensures q.off + q.len < |chunks[q.chunk].data| && chunks[q.chunk].data[q.off + q.len] == NEWLINE
  {
  }

  lemma StartOfLine(chunks: seq<OpenChunk>, p: Piece, text: Text)
    requires Stored(chunks, p, text)
    ensures p.off < |chunks[p.chunk].data| && (p.len > 0 ==> chunks[p.chunk].data[p.off] != NEWLINE)
  {
  }

  predicate TooLarge(pieces: nat) {
    4 * (1 + 3 * pieces) >= kContentChunkSize
  }

  /** The lines a file is indexed with. */
  function Indexed(limit: nat, text: Text): seq<Text> {
    if TooLarge(|Kept(text)|) then [] else ShortenAll(limit, Kept(text))
  }

  /** Line `lno` of a file, counted from 1, as it is searched; a file whose record takes four megabytes has none. */
  ghost predicate LineIs(text: Text, limit: nat, lno: nat, line: Text) {
    4 + 12 * LineCount(text) < 0x40_0000 && lno >= 1 && SearchedLine(text, limit, lno - 1, line)
  }

  /** How many lines of a file are searched. */
  function LinesOf(text: Text): nat {
    if 4 + 12 * LineCount(text) < 0x40_0000 then LineCount(text) else 0
  }

  /** What a file is indexed with are its own lines, each under its number, and those alone. */
  lemma IndexedIs(limit: nat, text: Text)
    ensures |Indexed(limit, text)| == LinesOf(text)
    ensures forall lno: nat, line ::
      LineIs(text, limit, lno, line) <==> 1 <= lno <= |Indexed(limit, text)| && line == Indexed(limit, text)[lno - 1]
  {
    KeptIs(text);
    hide LineCount, Kept, SearchedLine;
    forall lno: nat, line
      ensures LineIs(text, limit, lno, line) <==> 1 <= lno <= |Indexed(limit, text)| && line == Indexed(limit, text)[lno - 1]
    {
      if lno >= 1 {
        SearchedIs(text, limit, lno - 1, line);
      }
    }
  }

  lemma FilingPush(chunks: seq<OpenChunk>, content: seq<Piece>, lines: seq<Text>, p: Piece, text: Text)
    requires Filing(chunks, content, lines) && Stored(chunks, p, text)
    requires Enclosed(chunks[p.chunk].cur, p.off, p.off + p.len)
    ensures Filing(chunks, content + [p], lines + [text])
  {
    hide Stored, Enclosed;
  }

  // ----- Finishing a file -----

  ghost predicate FinishedChunk(x: OpenChunk, y: OpenChunk) {
    y.data == x.data && y.cur == [] && y.files == x.files + Sort(x.cur)
  }

  lemma FinishChunk(x: OpenChunk, y: OpenChunk, size: nat, sf: nat)
    requires ChunkOk(x, size, sf) && FinishedChunk(x, y)
    ensures ChunkOk(y, size, sf + 1)
  {
    SortedOwnRanges(x.data, x.cur, sf);
    hide Sort, RangeOfLines, TextOk;
    var s := Sort(x.cur);
    forall i | 0 <= i < |y.files|
      ensures if i < |x.files| then y.files[i].files[0] < sf else y.files[i] == s[i - |x.files|] && y.files[i].files == [sf]
    {
    }
  }

  /** A line in the current file's ranges is in its ranges once it is finished. */
  lemma FinishedFiled(x: OpenChunk, y: OpenChunk, sf: nat, p: Piece)
    requires OwnRanges(x.data, x.cur, sf) && FinishedChunk(x, y) && Enclosed(x.cur, p.off, p.off + p.len)
    ensures Filed(y, sf, p)
  {
    var i :| 0 <= i < |x.cur| && Encloses(x.cur[i], p.off, p.off + p.len);
    SortSorts(x.cur);
    var k := SameElement(x.cur, Sort(x.cur), i);
    assert y.files[|x.files| + k] == x.cur[i];
  }

  lemma StillFiled(x: OpenChunk, y: OpenChunk, f: nat, p: Piece)
    requires FinishedChunk(x, y) && Filed(x, f, p)
    ensures Filed(y, f, p)
  {
    var j :| 0 <= j < |x.files| && x.files[j].files == [f] && Encloses(x.files[j], p.off, p.off + p.len);
    assert y.files[j] == x.files[j];
  }

  ghost predicate FinishedChunks(xs: seq<OpenChunk>, ys: seq<OpenChunk>) {
    |ys| == |xs| && forall c | 0 <= c < |xs| :: FinishedChunk(xs[c], ys[c])
  }

  lemma FinishedContents(xs: seq<OpenChunk>, ys: seq<OpenChunk>, size: nat, sf: nat, content: seq<Piece>, lines: seq<Text>)
    requires ChunksOk(xs, size, sf) && FinishedChunks(xs, ys)
    ensures ChunksOk(ys, size, sf + 1)
    ensures Filing(xs, content, lines) ==> FileOk(ys, content, lines, sf)
    ensures forall f: nat :: FileOk(xs, content, lines, f) ==> FileOk(ys, content, lines, f)
  {
    hide Sort, FinishedChunk, Holding, HoldingNow;
    forall c | 0 <= c < |ys| ensures ChunkOk(ys[c], size, sf + 1) {
      FinishChunk(xs[c], ys[c], size, sf);
    }
    forall k, f: nat | 0 <= k < |content| && k < |lines|
      ensures HoldingNow(xs, content[k], lines[k]) ==> Holding(ys, sf, content[k], lines[k])
      ensures Holding(xs, f, content[k], lines[k]) ==> Holding(ys, f, content[k], lines[k])
    {
      FinishedHolding(xs, ys, size, sf, f, content[k], lines[k]);
    }
  }

  lemma FinishedHolding(xs: seq<OpenChunk>, ys: seq<OpenChunk>, size: nat, sf: nat, f: nat, p: Piece, text: Text)
    requires ChunksOk(xs, size, sf) && FinishedChunks(xs, ys)
    ensures HoldingNow(xs, p, text) ==> Holding(ys, sf, p, text)
    ensures Holding(xs, f, p, text) ==> Holding(ys, f, p, text)
  {
    hide Sort, Filed, Enclosed, FinishedChunk, IsLine, Finished, OwnRanges;
    if Stored(xs, p, text) {
      var x, y := xs[p.chunk], ys[p.chunk];
      assert ChunkOk(x, size, sf);
      SameData(x, y);
      if Enclosed(x.cur, p.off, p.off + p.len) {
        FinishedFiled(x, y, sf, p);
      }
      if Filed(x, f, p) {
        StillFiled(x, y, f, p);
      }
    }
  }

  lemma SameData(x: OpenChunk, y: OpenChunk)
    requires FinishedChunk(x, y)
    ensures y.data == x.data
  {
  }

  // ----- The indexer -----

  class Indexer {
    const chunkSize: nat
    const lineLimit: nat
    const compress: bool
    var chunks: seq<OpenChunk>
    var lines: map<Text, Piece>
    var files: seq<IndexedFile>
    /** The files as they were given. */
    ghost var texts: seq<Text>

    constructor (chunkSize: nat, lineLimit: nat, compress: bool)
      requires 1 < chunkSize <= kMaxChunkSize && lineLimit <= chunkSize
      ensures Valid() && files == [] && texts == [] && this.chunkSize == chunkSize && this.lineLimit == lineLimit
    {
      this.chunkSize, this.lineLimit, this.compress := chunkSize, lineLimit, compress;
      chunks, lines, files, texts := [], map[], [], [];
    }

    ghost predicate FilesOkIn(chunks: seq<OpenChunk>)
      reads this
    {
      |texts| == |files| && forall f | 0 <= f < |files| :: FileOk(chunks, files[f].content, Indexed(lineLimit, texts[f]), f)
    }

    /** Between files. */
    ghost predicate Valid()
      reads this
    {
      && 1 < chunkSize <= kMaxChunkSize && lineLimit <= chunkSize
      && ChunksOk(chunks, chunkSize, |files|) && (forall c | 0 <= c < |chunks| :: chunks[c].cur == [])
      && TableOk(chunks, lines) && (!compress ==> lines == map[])
      && FilesOkIn(chunks)
    }

    /** Within a file: `sf` is its number, `prev` the chunk of the last line that was new. */
    ghost predicate Adding(sf: nat, prev: int, content: seq<Piece>, stored: seq<Text>)
      reads this
    {
      && 1 < chunkSize <= kMaxChunkSize && lineLimit <= chunkSize && -1 <= prev < |chunks|
      && ChunksOk(chunks, chunkSize, sf)
      && TableOk(chunks, lines) && (!compress ==> lines == map[])
      && Filing(chunks, content, stored)
    }

    /** `alloc`: room for a line in the current chunk, or in a new one. */
    method AllocLine(text: Text, ghost sf: nat) returns (piece: Piece)
      requires ChunksOk(chunks, chunkSize, sf) && |text| + 1 < chunkSize && NEWLINE !in text && 0 !in text
      modifies this`chunks
      ensures ChunksOk(chunks, chunkSize, sf) && Grown(old(chunks), chunks)
      ensures Stored(chunks, piece, text) && piece.chunk == |chunks| - 1
      ensures if old(chunks) == [] || |old(chunks)[|old(chunks)| - 1].data| + |text| + 1 > chunkSize
        then |chunks| == |old(chunks)| + 1 && piece.off == 0 else |chunks| == |old(chunks)|
    {
      hide Finished, OwnRanges, Enclosed, GrownChunk;
      var n := |chunks|;
      if n == 0 || |chunks[n - 1].data| + |text| + 1 > chunkSize {
        var chunk := OpenChunk([], [], []);
        NewChunk(sf);
        AppendLine([], text);
        ChunkWithLine(chunk, text, chunkSize, sf);
        chunk := chunk.(data := chunk.data + text + [NEWLINE]);
        OneAdded(chunks, chunk, chunkSize, sf);
        chunks := chunks + [chunk];
        piece := Piece(n, 0, |text|);
      } else {
        var chunk := chunks[n - 1];
        assert ChunkOk(chunk, chunkSize, sf);
        AppendLine(chunk.data, text);
        ChunkWithLine(chunk, text, chunkSize, sf);
        piece := Piece(n - 1, |chunk.data|, |text|);
        var chunk' := chunk.(data := chunk.data + text + [NEWLINE]);
        OneChanged(chunks, n - 1, chunk', chunkSize, sf);
        chunks := chunks[n - 1 := chunk'];
      }
    }

    /** Adds a stored line to the current file's ranges in its chunk. */
    method AddRange(piece: Piece, ghost text: Text, sf: nat)
      requires ChunksOk(chunks, chunkSize, sf) && Stored(chunks, piece, text)
      modifies this`chunks
      ensures ChunksOk(chunks, chunkSize, sf) && Grown(old(chunks), chunks) && SameTexts(old(chunks), chunks)
      ensures Stored(chunks, piece, text) && Enclosed(chunks[piece.chunk].cur, piece.off, piece.off + piece.len)
    {
      hide Finished, OwnRanges, Enclosed;
      var chunk := chunks[piece.chunk];
      assert ChunkOk(chunk, chunkSize, sf);
      var cur := AddChunkFile(chunk.data, chunk.cur, sf, piece.off, piece.off + piece.len);
      OneChanged(chunks, piece.chunk, chunk.(cur := cur), chunkSize, sf);
      chunks := chunks[piece.chunk := chunk.(cur := cur)];
    }

    /** Stores one line of the current file, unless the table of lines has it; afterwards it has. */
    method AddLine(line: Text, sf: nat, prev: int, content: seq<Piece>, ghost stored: seq<Text>)
      returns (prev': int, content': seq<Piece>)
      requires Adding(sf, prev, content, stored) && NEWLINE !in line && 0 !in line
      modifies this`chunks, this`lines
      ensures Adding(sf, prev', content', stored + [Shorten(lineLimit, line)])
      ensures Grown(old(chunks), chunks)
      ensures compress ==> Shorten(lineLimit, line) in lines
      ensures compress && Shorten(lineLimit, line) in old(lines) ==> SameTexts(old(chunks), chunks) && lines == old(lines)
    {
      hide ChunksOk, Grown, Stored, Filing, Enclosed, TableOk;
      var text := if |line| + 1 >= lineLimit then [] else line;
      var piece;
      prev' := prev;
      if compress && text in lines {
        piece := lines[text];
        Known(chunks, lines, text);
        GrownSame(chunks);
      } else {
        ghost var before := chunks;
        piece := AllocLine(text, sf);
        GrownFiling(before, chunks, content, stored);
        var current := |chunks| - 1;
        if current == prev {
          TableGrown(before, chunks, lines);
        }
        TableEmpty(chunks);
        if compress {
          if current != prev {
            lines := map[];
          }
          TablePut(chunks, lines, text, piece);
          lines := lines[text := piece];
        }
        prev' := current;
      }
      ghost var before := chunks;
      AddRange(piece, text, sf);
      GrownFiling(before, chunks, content, stored);
      TableGrown(before, chunks, lines);
      GrownTrans(old(chunks), before, chunks);
      NeverJoined(chunks, content, stored, piece, text);
      FilingPush(chunks, content, stored, piece, text);
      content' := Extend(content, piece);
    }

    /** `finish_file` for every chunk. */
    method FinishFiles(ghost sf: nat)
      requires ChunksOk(chunks, chunkSize, sf)
      modifies this`chunks
      ensures FinishedChunks(old(chunks), chunks)
    {
      hide ChunkOk, Sort, OwnRanges, Finished;
      ghost var before := chunks;
      for c := 0 to |chunks|
        invariant |chunks| == |before|
        invariant forall d | 0 <= d < c :: FinishedChunk(before[d], chunks[d])
        invariant forall d | c <= d < |chunks| :: chunks[d] == before[d]
      {
        var x := chunks[c];
        OkParts(x, chunkSize, sf);
        var files := FinishFile(x.data, x.files, x.cur, sf);
        chunks := chunks[c := OpenChunk(x.data, files, [])];
      }
    }

    /** Stores the lines of a file. */
    method IndexLines(sf: nat, contents: Text) returns (content: seq<Piece>)
      requires Adding(sf, -1, [], []) && 0 !in contents
      modifies this`chunks, this`lines
      ensures Adding(sf, -1, content, ShortenAll(lineLimit, Kept(contents))) && Grown(old(chunks), chunks)
    {
      hide ChunksOk, Grown, Stored, Filing, TableOk, LinesBefore, LineEnd, Shorten, ShortenAll, Kept;
      var p, prev := 0, -1;
      content := [];
      ghost var stored: seq<Text> := [];
      GrownSame(chunks);
      NoLines(lineLimit, contents);
      while LineEnd(contents, p) < |contents|
        invariant p <= |contents| && (p == 0 || contents[p - 1] == NEWLINE)
        invariant Adding(sf, prev, content, stored) && Grown(old(chunks), chunks)
        invariant stored == ShortenAll(lineLimit, LinesBefore(contents, p))
        decreases |contents| - p
      {
        var f := LineEnd(contents, p);
        CleanLine(contents, p, f);
        OneMoreLine(lineLimit, contents, p, f);
        ghost var before := chunks;
        prev, content := AddLine(contents[p..f], sf, prev, content, stored);
        stored := stored + [Shorten(lineLimit, contents[p..f])];
        GrownTrans(old(chunks), before, chunks);
        p := f + 1;
      }
      UnterminatedLine(lineLimit, contents, p);
      if p + 1 < |contents| {
        CleanLine(contents, p, |contents|);
        ghost var before := chunks;
        prev, content := AddLine(contents[p..|contents|], sf, prev, content, stored);
        GrownTrans(old(chunks), before, chunks);
      }
    }

    /**
     * `index_file`: files with a NUL byte are skipped; of any other, every line is
     * stored, too long ones as empty lines, and the file lists its lines in order.
     */
    method IndexFile(tree: Text, path: Text, contents: Text)
      requires Valid()
      modifies this
      ensures Valid()
      ensures 0 in contents ==> files == old(files) && texts == old(texts) && chunks == old(chunks)
      ensures 0 !in contents ==> texts == old(texts) + [contents] && NewFile(old(files), files, tree, path)
    {
      if 0 in contents {
        return;
      }
      hide ChunksOk, Grown, Filing, TableOk, FileOk, Kept, ShortenAll;
      NothingFiled(chunks);
      ghost var first := chunks;
      var content := IndexLines(|files|, contents);
      AddFile(tree, path, content, contents, first);
    }

    /** Records a file once its lines are stored. */
    method AddFile(tree: Text, path: Text, content: seq<Piece>, ghost contents: Text, ghost first: seq<OpenChunk>)
      requires Adding(|files|, -1, content, ShortenAll(lineLimit, Kept(contents))) && Grown(first, chunks)
      requires FilesOkIn(first)
      modifies this
      ensures Valid() && texts == old(texts) + [contents] && NewFile(old(files), files, tree, path)
    {
      hide ChunksOk, Grown, Filing, TableOk, FileOk, FinishedChunks, Indexed, Kept, ShortenAll, TooLarge;
      var built := if TooLarge(|content|) then [] else content;
      ghost var before := chunks;
      FinishFiles(|files|);
      AllDone(first, before, chunks, chunkSize, lineLimit, lines, files, texts, content, built, contents);
      files := files + [IndexedFile(tree, path, built)];
      texts := texts + [contents];
    }
  }

  predicate NewFile(files: seq<IndexedFile>, files': seq<IndexedFile>, tree: Text, path: Text) {
    |files'| > 0 && files' == files + [IndexedFile(tree, path, files'[|files'| - 1].content)]
  }

  // ----- Steps of indexing a file -----

  lemma OkParts(x: OpenChunk, size: nat, sf: nat)
    requires ChunkOk(x, size, sf)
    ensures OwnRanges(x.data, x.cur, sf)
  {
  }

  lemma GrownSame(xs: seq<OpenChunk>)
    ensures Grown(xs, xs)
  {
  }

  lemma NothingFiled(chunks: seq<OpenChunk>)
    ensures Filing(chunks, [], [])
  {
  }

  lemma NoLines(limit: nat, text: Text)
    ensures ShortenAll(limit, LinesBefore(text, 0)) == []
  {
  }

  lemma CleanLine(text: Text, p: nat, e: nat)
    requires 0 !in text && p <= e <= |text| && NoNewline(text, p, e)
    ensures 0 !in text[p..e] && NEWLINE !in text[p..e]
  {
  }

  lemma OneMoreLine(limit: nat, text: Text, p: nat, e: nat)
    requires p <= e < |text| && (p == 0 || text[p - 1] == NEWLINE) && NoNewline(text, p, e) && text[e] == NEWLINE
    ensures ShortenAll(limit, LinesBefore(text, e + 1)) == ShortenAll(limit, LinesBefore(text, p)) + [Shorten(limit, text[p..e])]
  {
    hide LinesBefore, Shorten;
    NextLine(text, p, e);
  }

  lemma UnterminatedLine(limit: nat, text: Text, p: nat)
    requires p <= |text| && (p == 0 || text[p - 1] == NEWLINE) && LineEnd(text, p) == |text|
    ensures NoNewline(text, p, |text|)
    ensures p + 1 < |text| ==>
      ShortenAll(limit, Kept(text)) == ShortenAll(limit, LinesBefore(text, p)) + [Shorten(limit, text[p..|text|])]
    ensures p + 1 >= |text| ==> ShortenAll(limit, Kept(text)) == ShortenAll(limit, LinesBefore(text, p))
  {
    LastLine(text, p);
    assert text[p..] == text[p..|text|];
    ShortenPush(limit, LinesBefore(text, p), text[p..|text|]);
    hide LinesBefore, Kept, LineEnd, ShortenAll;
  }

  lemma ShortenPush(limit: nat, lines: seq<Text>, line: Text)
    ensures ShortenAll(limit, lines + [line]) == ShortenAll(limit, lines) + [Shorten(limit, line)]
  {
  }

  lemma Known(chunks: seq<OpenChunk>, lines: map<Text, Piece>, text: Text)
    requires TableOk(chunks, lines) && text in lines
    ensures Stored(chunks, lines[text], text)
  {
  }

  lemma TableEmpty(chunks: seq<OpenChunk>)
    ensures TableOk(chunks, map[])
  {
  }

  lemma TableGrown(xs: seq<OpenChunk>, ys: seq<OpenChunk>, lines: map<Text, Piece>)
    requires TableOk(xs, lines) && Grown(xs, ys) && |xs| == |ys|
    ensures TableOk(ys, lines)
  {
    hide Stored, Grown;
    forall t | t in lines ensures Stored(ys, lines[t], t) {
      GrownStored(xs, ys, lines[t], t);
    }
  }

  lemma TablePut(chunks: seq<OpenChunk>, lines: map<Text, Piece>, text: Text, piece: Piece)
    requires TableOk(chunks, lines) && Stored(chunks, piece, text) && piece.chunk == |chunks| - 1
    ensures TableOk(chunks, lines[text := piece])
  {
    hide Stored;
  }

  lemma TableFinished(xs: seq<OpenChunk>, ys: seq<OpenChunk>, lines: map<Text, Piece>)
    requires TableOk(xs, lines) && FinishedChunks(xs, ys)
    ensures TableOk(ys, lines)
  {
    hide Sort, FinishedChunk, IsLine;
    forall t | t in lines ensures Stored(ys, lines[t], t) {
      SameData(xs[lines[t].chunk], ys[lines[t].chunk]);
    }
  }

  lemma NewChunk(sf: nat)
    ensures Finished([], [], sf) && OwnRanges([], [], sf)
  {
  }

  /** The state after a file has been indexed. */
  lemma AllDone(first: seq<OpenChunk>, before: seq<OpenChunk>, after: seq<OpenChunk>, size: nat, limit: nat, lines: map<Text, Piece>,
                files: seq<IndexedFile>, texts: seq<Text>, content: seq<Piece>, built: seq<Piece>, text: Text)
    requires Grown(first, before) && FinishedChunks(before, after) && ChunksOk(before, size, |files|) && TableOk(before, lines)
    requires |texts| == |files|
    requires forall f | 0 <= f < |files| :: FileOk(first, files[f].content, Indexed(limit, texts[f]), f)
    requires Filing(before, content, ShortenAll(limit, Kept(text)))
    requires built == if TooLarge(|content|) then [] else content
    ensures ChunksOk(after, size, |files| + 1) && (forall c | 0 <= c < |after| :: after[c].cur == []) && TableOk(after, lines)
    ensures forall f | 0 <= f < |files| :: FileOk(after, files[f].content, Indexed(limit, texts[f]), f)
    ensures FileOk(after, built, Indexed(limit, text), |files|)
  {
    FinishedContents(before, after, size, |files|, content, ShortenAll(limit, Kept(text)));
    TableFinished(before, after, lines);
    assert forall c | 0 <= c < |after| :: FinishedChunk(before[c], after[c]);
    FilingLength(before, content, ShortenAll(limit, Kept(text)));
    EmptyFile(after, |files|);
    hide Grown, FinishedChunks, ChunksOk, TableOk, FileOk, Filing, Kept;
    forall f | 0 <= f < |files| ensures FileOk(after, files[f].content, Indexed(limit, texts[f]), f) {
      GrownFile(first, before, files[f].content, Indexed(limit, texts[f]), f);
      FinishedContents(before, after, size, |files|, files[f].content, Indexed(limit, texts[f]));
    }
  }

  lemma FilingLength(chunks: seq<OpenChunk>, content: seq<Piece>, lines: seq<Text>)
    requires Filing(chunks, content, lines)
    ensures |content| == |lines|
  {
  }

  lemma EmptyFile(chunks: seq<OpenChunk>, f: nat)
    ensures FileOk(chunks, [], [], f)
  {
  }
}
