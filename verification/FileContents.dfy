/**
 * A file as the index stores it, a list of pieces of chunk text, and the search
 * for the line numbers at which a file holds a given stored line.
 */
module FileContents {
  import opened Bytes
  import opened Lines

  /** `len` bytes of a chunk's text, from `off`. */
  datatype Piece = Piece(chunk: nat, off: nat, len: nat)

  /** The piece is a whole line of its chunk. */
  predicate PieceIsLine(texts: seq<Text>, p: Piece) {
    p.chunk < |texts| && IsLine(texts[p.chunk], p.off, p.off + p.len)
  }

  function TextOf(texts: seq<Text>, p: Piece): Text
    requires PieceIsLine(texts, p)
  {
    texts[p.chunk][p.off..p.off + p.len]
  }

  datatype Result = Result(file: nat, lno: nat, line: Piece, before: seq<Piece>, after: seq<Piece>)

  // ----- What is to be reported -----

  /** Up to `n` pieces before index `k`, the nearest first. */
  function Before(content: seq<Piece>, k: nat, n: nat): seq<Piece>
    requires k <= |content|
  {
    if n == 0 || k == 0 then [] else [content[k - 1]] + Before(content, k - 1, n - 1)
  }

  /** Up to `n` pieces after index `k`, in order. */
  function After(content: seq<Piece>, k: nat, n: nat): seq<Piece>
    requires k < |content|
  {
    if k + 1 + n <= |content| then content[k + 1..k + 1 + n] else content[k + 1..]
  }

  function Report(content: seq<Piece>, k: nat, file: nat, context: nat): Result
    requires k < |content|
  {
    Result(file, k + 1, content[k], Before(content, k, context), After(content, k, context))
  }

  /** A report for each of the first `n` pieces that is the line, in order. */
  function Reports(content: seq<Piece>, line: Piece, file: nat, context: nat, n: nat): seq<Result>
    requires n <= |content|
  {
    if n == 0 then []
    else
      var r := Reports(content, line, file, context, n - 1);
      if content[n - 1] == line then r + [Report(content, n - 1, file, context)] else r
  }

  lemma {:induction false} BeforeIs(content: seq<Piece>, k: nat, n: nat)
    requires k <= |content|
    ensures |Before(content, k, n)| == if n <= k then n else k
    ensures forall i | 0 <= i < |Before(content, k, n)| :: Before(content, k, n)[i] == content[k - 1 - i]
  {
    if n > 0 && k > 0 {
      BeforeIs(content, k - 1, n - 1);
    }
  }

  lemma AfterIs(content: seq<Piece>, k: nat, n: nat)
    requires k < |content|
    ensures |After(content, k, n)| == if n < |content| - k then n else |content| - k - 1
    ensures forall i | 0 <= i < |After(content, k, n)| :: After(content, k, n)[i] == content[k + 1 + i]
  {
  }

  /** A right report about one of the first `n` pieces. */
  predicate RightReport(content: seq<Piece>, line: Piece, file: nat, context: nat, n: nat, x: Result)
    requires n <= |content|
  {
    1 <= x.lno <= n && content[x.lno - 1] == line && x == Report(content, x.lno - 1, file, context)
  }

  /** Every report is right, and their line numbers increase. */
  ghost predicate ReportsRight(content: seq<Piece>, line: Piece, file: nat, context: nat, n: nat, r: seq<Result>)
    requires n <= |content|
  {
    && (forall i | 0 <= i < |r| :: RightReport(content, line, file, context, n, r[i]))
    && (forall i, j | 0 <= i < j < |r| :: r[i].lno < r[j].lno)
  }

  /** Every piece that is the line is reported. */
  ghost predicate ReportsComplete(content: seq<Piece>, line: Piece, n: nat, r: seq<Result>)
    requires n <= |content|
  {
    forall k | 0 <= k < n && content[k] == line :: k + 1 in LineNumbers(r)
  }

  /** Exactly the line numbers that hold the line, each once, in increasing order. */
  lemma ReportsExactly(content: seq<Piece>, line: Piece, file: nat, context: nat, n: nat)
    requires n <= |content|
    ensures ReportsRight(content, line, file, context, n, Reports(content, line, file, context, n))
    ensures ReportsComplete(content, line, n, Reports(content, line, file, context, n))
  {
    AllRight(content, line, file, context, n);
    EveryReported(content, line, file, context, n);
  }

  lemma {:induction false} AllRight(content: seq<Piece>, line: Piece, file: nat, context: nat, n: nat)
    requires n <= |content|
    ensures ReportsRight(content, line, file, context, n, Reports(content, line, file, context, n))
  {
    if n > 0 {
      AllRight(content, line, file, context, n - 1);
      hide Before, After;
      var s := Reports(content, line, file, context, n - 1);
      var x := Report(content, n - 1, file, context);
      assert forall i | 0 <= i < |s| :: s[i].lno < n && RightReport(content, line, file, context, n, s[i]);
      assert content[n - 1] == line ==> RightReport(content, line, file, context, n, x);
    }
  }

  lemma {:induction false} EveryReported(content: seq<Piece>, line: Piece, file: nat, context: nat, n: nat)
    requires n <= |content|
    ensures ReportsComplete(content, line, n, Reports(content, line, file, context, n))
  {
    if n > 0 {
      EveryReported(content, line, file, context, n - 1);
      hide Report;
      var r, s := Reports(content, line, file, context, n), Reports(content, line, file, context, n - 1);
      ReportNumber(content, n - 1, file, context);
      LineNumbersPush(s, Report(content, n - 1, file, context));
    }
  }

  lemma LineNumbersPush(s: seq<Result>, x: Result)
    ensures LineNumbers(s + [x]) == LineNumbers(s) + {x.lno}
  {
    var r := s + [x];
    forall n | n in LineNumbers(s) + {x.lno} ensures n in LineNumbers(r) {
      if n in LineNumbers(s) {
        var i :| 0 <= i < |s| && s[i].lno == n;
        assert r[i].lno == n;
      } else {
        assert r[|s|].lno == n;
      }
    }
  }

  lemma ReportNumber(content: seq<Piece>, k: nat, file: nat, context: nat)
    requires k < |content|
    ensures var r := Report(content, k, file, context); r.lno == k + 1 && r.file == file && r.line == content[k]
  {
  }

  /** The line numbers reported. */
  function LineNumbers(r: seq<Result>): set<nat> {
    set i | 0 <= i < |r| :: r[i].lno
  }

  // ----- How it is found -----

  /** The number of newlines in `a..b`. */
  function CountNewlines(data: Text, a: nat, b: nat): nat
    requires a <= b <= |data|
    decreases b - a
  {
    if a == b then 0 else (if data[a] == NEWLINE then 1 else 0) + CountNewlines(data, a + 1, b)
  }

  lemma {:induction false} NoneToCount(data: Text, a: nat, b: nat)
    requires a <= b <= |data| && NoNewline(data, a, b)
    ensures CountNewlines(data, a, b) == 0
    decreases b - a
  {
    if a < b {
      NoneToCount(data, a + 1, b);
    }
  }

  /** The position after the last newline in `lo..p`, or `lo`. */
  function BackTo(data: Text, lo: nat, p: nat): (r: nat)
    requires lo <= p <= |data|
    ensures lo <= r <= p
  {
    if p == lo || data[p - 1] == NEWLINE then p else BackTo(data, lo, p - 1)
  }

  /** The first newline in `p..hi`, or `hi`. */
  function ForwardTo(data: Text, p: nat, hi: nat): (r: nat)
    requires p <= hi <= |data|
    ensures p <= r <= hi
    decreases hi - p
  {
    if p == hi || data[p] == NEWLINE then p else ForwardTo(data, p + 1, hi)
  }

  /** `find_line` within one piece, around the empty match at `p`. */
  function FindLine(texts: seq<Text>, piece: Piece, p: nat): Piece
    requires PieceIsLine(texts, piece) && piece.off <= p <= piece.off + piece.len
  {
    var data := texts[piece.chunk];
    var a, b := BackTo(data, piece.off, p), ForwardTo(data, p, piece.off + piece.len);
    Piece(piece.chunk, a, b - a)
  }

  lemma {:induction false} BackToStart(data: Text, lo: nat, p: nat)
    requires lo <= p <= |data| && NoNewline(data, lo, p)
    ensures BackTo(data, lo, p) == lo
  {
    if lo < p {
      BackToStart(data, lo, p - 1);
    }
  }

  lemma {:induction false} ForwardToEnd(data: Text, p: nat, hi: nat)
    requires p <= hi <= |data| && NoNewline(data, p, hi)
    ensures ForwardTo(data, p, hi) == hi
    decreases hi - p
  {
    if p < hi {
      ForwardToEnd(data, p + 1, hi);
    }
  }

  /** Within a piece that is a line, the line found is the piece. */
  lemma FindLineIsPiece(texts: seq<Text>, piece: Piece, p: nat)
    requires PieceIsLine(texts, piece) && piece.off <= p <= piece.off + piece.len
    ensures FindLine(texts, piece, p) == piece
  {
    BackToStart(texts[piece.chunk], piece.off, p);
    ForwardToEnd(texts[piece.chunk], p, piece.off + piece.len);
  }

  /** Two lines one of which starts inside the other are the same. */
  lemma SameLine(texts: seq<Text>, p: Piece, q: Piece)
    requires PieceIsLine(texts, p) && PieceIsLine(texts, q)
    requires p.chunk == q.chunk && p.off <= q.off <= p.off + p.len
    ensures p == q
  {
    var data := texts[p.chunk];
    LineUnique(data, p.off, p.off + p.len, q.off);
    LineUnique(data, q.off, q.off + q.len, q.off);
  }

  method ContextBefore(texts: seq<Text>, content: seq<Piece>, line: Piece, it: nat, context: nat)
    returns (before: seq<Piece>)
    requires forall p | p in content :: PieceIsLine(texts, p)
    requires it < |content| && content[it] == line
    ensures before == Before(content, it, context)
  {
    before := [];
    var bit, l := it, line;
    var i := 0;
    while i < context
      invariant i <= context && i <= it && bit == it - i && l == content[bit]
      invariant before + Before(content, bit, context - i) == Before(content, it, context)
    {
      var at := l.off;
      if l.chunk == content[bit].chunk && l.off == content[bit].off {
        if bit == 0 {
          break;
        }
        bit := bit - 1;
        at := content[bit].off + content[bit].len + 1;
      }
      assert content[bit] in content;
      FindLineIsPiece(texts, content[bit], at - 1);
      l := FindLine(texts, content[bit], at - 1);
      assert before + Before(content, bit + 1, context - i) == before + [l] + Before(content, bit, context - i - 1);
      before := before + [l];
      i := i + 1;
    }
    assert Before(content, bit, context - i) == [];
  }

  method ContextAfter(texts: seq<Text>, content: seq<Piece>, line: Piece, it: nat, context: nat)
    returns (after: seq<Piece>)
    requires forall p | p in content :: PieceIsLine(texts, p)
    requires it < |content| && content[it] == line
    ensures after == After(content, it, context)
  {
    after := [];
    var fit, l := it, line;
    var i := 0;
    while i < context
      invariant i <= context && fit == it + i < |content| && l == content[fit]
      invariant after == content[it + 1..fit + 1]
    {
      var at := l.off + l.len + 1;
      if l.off + l.len == content[fit].off + content[fit].len {
        fit := fit + 1;
        if fit == |content| {
          break;
        }
        at := content[fit].off;
      }
      assert content[fit] in content;
      FindLineIsPiece(texts, content[fit], at);
      l := FindLine(texts, content[fit], at);
      after := after + [l];
      i := i + 1;
    }
  }

  /** The line numbers at which a file holds a stored line, with their contexts. */
  method TryMatch(texts: seq<Text>, content: seq<Piece>, line: Piece, file: nat, context: nat)
    returns (results: seq<Result>)
    requires PieceIsLine(texts, line) && forall p | p in content :: PieceIsLine(texts, p)
    ensures results == Reports(content, line, file, context, |content|)
  {
    results := [];
    var lno, it := 1, 0;
    while true
      invariant it <= |content| && lno == it + 1
      invariant results == Reports(content, line, file, context, it)
      decreases |content| - it
    {
      while it != |content|
        invariant it <= |content| && lno == it + 1
        invariant results == Reports(content, line, file, context, it)
      {
        var p := content[it];
        assert p in content;
        if p.chunk == line.chunk && p.off <= line.off <= p.off + p.len {
          NoneToCount(texts[p.chunk], p.off, line.off);
          lno := lno + CountNewlines(texts[p.chunk], p.off, line.off);
          break;
        }
        NoneToCount(texts[p.chunk], p.off, p.off + p.len);
        lno := lno + CountNewlines(texts[p.chunk], p.off, p.off + p.len) + 1;
        it := it + 1;
      }
      if it == |content| {
        return;
      }
      assert content[it] in content;
      SameLine(texts, content[it], line);
      var before := ContextBefore(texts, content, line, it, context);
      var after := ContextAfter(texts, content, line, it, context);
      results := results + [Result(file, lno, line, before, after)];
      it := it + 1;
      lno := lno + 1;
    }
  }
}
