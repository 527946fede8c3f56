/** What the reports of the lines handed on amount to: which ones there are, and that none is there twice. */
module Reporting {
  import opened ChunkFiles
  import opened FileContents
  import opened IndexTypes
  import opened Sequences
  import opened Searchers
  import opened Scanning

  // ----- Which reports there are -----

  /** A report about file `f` for the line, as `TryMatch` makes it. */
  ghost predicate FileReports(index: Index, q: Query, f: int, line: Piece, r: Result) {
    && 0 <= f < |index.files| && q.Accepts(index.files[f])
    && r in Reports(index.files[f].content, line, f, q.context, |index.files[f].content|)
  }

  lemma InButLast<T>(s: seq<T>)
    requires s != []
    ensures forall x :: x in s <==> x in s[..|s| - 1] || x == s[|s| - 1]
  {
    assert s == s[..|s| - 1] + [s[|s| - 1]];
  }

  lemma {:induction false} RangeReportsAre(index: Index, q: Query, files: seq<nat>, line: Piece, r: Result)
    requires Below(files, |index.files|)
    ensures r in RangeReports(index, q, files, line) <==> exists f | f in files :: FileReports(index, q, f, line, r)
  {
    hide Query.Accepts, Reports;
    if files != [] {
      var n := |files| - 1;
      RangeReportsAre(index, q, files[..n], line, r);
      InButLast(files);
      assert FileReports(index, q, files[n], line, r) ==> files[n] in files;
    }
  }

  ghost predicate InRangeReports(index: Index, q: Query, x: ChunkFile, line: Piece, r: Result) {
    Below(x.files, |index.files|) && r in RangeReports(index, q, x.files, line)
  }

  lemma {:induction false} RangesReportsAre(index: Index, q: Query, ranges: seq<ChunkFile>, line: Piece, r: Result)
    requires FilesExist(index, ranges)
    ensures r in RangesReports(index, q, ranges, line) <==> exists x | x in ranges :: InRangeReports(index, q, x, line, r)
  {
    hide RangeReports;
    if ranges != [] {
      var n := |ranges| - 1;
      RangesReportsAre(index, q, ranges[..n], line, r);
      InButLast(ranges);
      assert InRangeReports(index, q, ranges[n], line, r) ==> ranges[n] in ranges;
    }
  }

  ghost predicate InLineReports(index: Index, q: Query, line: Piece, r: Result) {
    VisitsFine(index, line) && r in LineReports(index, q, line)
  }

  lemma {:induction false} AllReportsAre(index: Index, q: Query, handed: seq<Piece>, r: Result)
    requires forall i | 0 <= i < |handed| :: VisitsFine(index, handed[i])
    ensures r in AllReports(index, q, handed) <==> exists line | line in handed :: InLineReports(index, q, line, r)
  {
    hide LineReports, VisitsFine;
    if handed != [] {
      var n := |handed| - 1;
      AllReportsAre(index, q, handed[..n], r);
      InButLast(handed);
      assert InLineReports(index, q, handed[n], r) ==> handed[n] in handed;
    }
  }

  /** The walk visits exactly the ranges of the chunk that contain the line. */
  lemma VisitedRanges(index: Index, line: Piece)
    requires IndexValid(index) && line.chunk < |index.chunks|
    ensures var chunk := index.chunks[line.chunk];
      && multiset(Visits(chunk.root, line.off)) == multiset(Scan(chunk.files, line.off))
      && (forall x :: x in Visits(chunk.root, line.off) <==> x in chunk.files && Contains(x, line.off))
  {
    var chunk := index.chunks[line.chunk];
    RootRanges(index, line.chunk);
    assert ChunkValid(index, chunk);
    StrictIsOrdered(chunk.files);
    VisitsAreScan(chunk.root, line.off);
    forall x ensures x in Visits(chunk.root, line.off) <==> x in chunk.files && Contains(x, line.off) {
      ScanIs(chunk.files, line.off, x);
      assert x in multiset(Visits(chunk.root, line.off)) <==> x in multiset(Scan(chunk.files, line.off));
    }
  }

  lemma StrictIsOrdered(s: seq<ChunkFile>)
    requires StrictlyOrdered(s)
    ensures Ordered(s)
  {
    forall i, j | 0 <= i < j < |s| ensures !KeyLess(s[j], s[i]) {
      assert KeyLess(s[i], s[j]);
    }
  }

  lemma {:induction false} ScanIs(s: seq<ChunkFile>, off: nat, x: ChunkFile)
    ensures x in Scan(s, off) <==> x in s && Contains(x, off)
  {
    if s != [] {
      var n := |s| - 1;
      ScanIs(s[..n], off, x);
      assert s == s[..n] + [s[n]];
    }
  }

  /** The reports of a line are about the accepted files that have it in one of their ranges. */
  lemma LineReportsAre(index: Index, q: Query, line: Piece, r: Result)
    requires IndexValid(index) && VisitsFine(index, line)
    ensures r in LineReports(index, q, line) <==>
      exists x, f | x in index.chunks[line.chunk].files && Contains(x, line.off) && f in x.files ::
        FileReports(index, q, f, line, r)
  {
    hide IndexValid, FileReports, RangeReports, RangesReports, Contains;
    var chunk := index.chunks[line.chunk];
    var visits := Visits(chunk.root, line.off);
    VisitedRanges(index, line);
    RangesReportsAre(index, q, visits, line, r);
    forall x | x in visits
      ensures Below(x.files, |index.files|)
      ensures InRangeReports(index, q, x, line, r) <==> exists f | f in x.files :: FileReports(index, q, f, line, r)
    {
      var i :| 0 <= i < |visits| && visits[i] == x;
      assert Below(visits[i].files, |index.files|);
      RangeReportsAre(index, q, x.files, line, r);
    }
  }

  // ----- None is there twice -----

  /** No line number of a file is reported twice. */
  ghost predicate Once(rs: seq<Result>) {
    forall i, j | 0 <= i < j < |rs| :: rs[i].file != rs[j].file || rs[i].lno != rs[j].lno
  }

  lemma OnceAppend(a: seq<Result>, b: seq<Result>)
    requires Once(a) && Once(b)
    requires forall x, y | x in a && y in b :: x.file != y.file || x.lno != y.lno
    ensures Once(a + b)
  {
    var s := a + b;
    forall i, j | 0 <= i < j < |s| ensures s[i].file != s[j].file || s[i].lno != s[j].lno {
      if i < |a| <= j {
        assert a[i] in a && b[j - |a|] in b;
      }
    }
  }

  lemma FileReportsOnce(content: seq<Piece>, line: Piece, f: nat, context: nat)
    ensures Once(Reports(content, line, f, context, |content|))
    ensures forall r | r in Reports(content, line, f, context, |content|) ::
      r.file == f && 1 <= r.lno <= |content| && content[r.lno - 1] == line && r == Report(content, r.lno - 1, f, context)
  {
    ReportsExactly(content, line, f, context, |content|);
    hide Reports, Before, After;
    var rs := Reports(content, line, f, context, |content|);
    forall r | r in rs ensures RightReport(content, line, f, context, |content|, r) {
      var i :| 0 <= i < |rs| && rs[i] == r;
    }
  }

  lemma {:induction false} RangeOnce(index: Index, q: Query, files: seq<nat>, line: Piece)
    requires Below(files, |index.files|) && Distinct(files)
    ensures Once(RangeReports(index, q, files, line))
    ensures forall r | r in RangeReports(index, q, files, line) :: r.file in files
  {
    if files != [] {
      var n := |files| - 1;
      var f := files[n];
      RangeOnce(index, q, files[..n], line);
      FileReportsOnce(index.files[f].content, line, f, q.context);
      hide Reports, Once, Query.Accepts;
      assert f !in files[..n];
      if q.Accepts(index.files[f]) {
        OnceAppend(RangeReports(index, q, files[..n], line),
                   Reports(index.files[f].content, line, f, q.context, |index.files[f].content|));
      }
      assert files == files[..n] + [f];
    }
  }

  /** No file is listed by two of the ranges, or twice by one. */
  ghost predicate Apart(ranges: seq<ChunkFile>) {
    && (forall i, j, f | 0 <= i < j < |ranges| :: !(f in ranges[i].files && f in ranges[j].files))
    && (forall i | 0 <= i < |ranges| :: Distinct(ranges[i].files))
  }

  lemma {:induction false} RangesOnce(index: Index, q: Query, ranges: seq<ChunkFile>, line: Piece)
    requires FilesExist(index, ranges) && Apart(ranges)
    ensures Once(RangesReports(index, q, ranges, line))
    ensures forall r | r in RangesReports(index, q, ranges, line) :: exists i :: 0 <= i < |ranges| && r.file in ranges[i].files
  {
    if ranges != [] {
      hide Once, RangeReports, Distinct;
      var n := |ranges| - 1;
      RangesOnce(index, q, ranges[..n], line);
      RangeOnce(index, q, ranges[n].files, line);
      var a, b := RangesReports(index, q, ranges[..n], line), RangeReports(index, q, ranges[n].files, line);
      forall x | x in a ensures exists i :: 0 <= i < n && x.file in ranges[i].files {
        var i :| 0 <= i < n && x.file in ranges[..n][i].files;
        assert ranges[i] == ranges[..n][i];
      }
      OnceAppend(a, b);
    }
  }

  lemma {:induction false} ScanDistinct(s: seq<ChunkFile>, off: nat)
    requires StrictlyOrdered(s)
    ensures forall i, j | 0 <= i < j < |Scan(s, off)| :: Scan(s, off)[i] != Scan(s, off)[j]
  {
    if s != [] {
      var n := |s| - 1;
      ScanDistinct(s[..n], off);
      forall i | 0 <= i < |Scan(s[..n], off)| ensures Scan(s[..n], off)[i] != s[n] {
        ScanIs(s[..n], off, Scan(s[..n], off)[i]);
        var k :| 0 <= k < n && s[..n][k] == Scan(s[..n], off)[i];
        assert KeyLess(s[k], s[n]);
      }
    }
  }

  /** Whether elements repeat does not depend on their order. */
  lemma DistinctPermuted<T>(s: seq<T>, t: seq<T>, i: nat, j: nat)
    requires multiset(s) == multiset(t) && i < j < |s|
    requires forall a, b | 0 <= a < b < |t| :: t[a] != t[b]
    ensures s[i] != s[j]
  {
    if s[i] == s[j] {
      Twice(s, i, j);
      assert s[i] in multiset(t);
      var k :| 0 <= k < |t| && t[k] == s[i];
      AtMostOnce(t, k);
      assert false;
    }
  }

  lemma Twice<T>(s: seq<T>, i: nat, j: nat)
    requires i < j < |s| && s[i] == s[j]
    ensures multiset(s)[s[i]] >= 2
  {
    assert s == s[..i] + [s[i]] + s[i + 1..j] + [s[j]] + s[j + 1..];
  }

  lemma AtMostOnce<T>(t: seq<T>, k: nat)
    requires k < |t| && forall a, b | 0 <= a < b < |t| :: t[a] != t[b]
    ensures multiset(t)[t[k]] <= 1
  {
    assert t == t[..k] + [t[k]] + t[k + 1..];
    assert t[k] !in multiset(t[..k]) && t[k] !in multiset(t[k + 1..]);
  }

  lemma OtherFiles(chunk: Chunk, a: nat, b: nat, f: nat, off: nat)
    requires OneRangePerLine(chunk) && a < |chunk.files| && b < |chunk.files| && a != b
    requires Contains(chunk.files[a], off) && Contains(chunk.files[b], off)
    ensures !(f in chunk.files[a].files && f in chunk.files[b].files)
  {
    hide Distinct;
  }

  lemma ChunkApart(index: Index, c: nat)
    requires IndexValid(index) && c < |index.chunks|
    ensures StrictlyOrdered(index.chunks[c].files) && OneRangePerLine(index.chunks[c])
  {
    ChunkFacts(index, c);
    hide ChunkValid, FileValid;
  }

  /** The range that entry `i` of the visits is. */
  lemma VisitedAt(chunk: Chunk, v: seq<ChunkFile>, off: nat, i: nat) returns (a: nat)
    requires i < |v| && forall x | x in v :: x in chunk.files && Contains(x, off)
    ensures a < |chunk.files| && chunk.files[a] == v[i] && Contains(v[i], off)
  {
    assert v[i] in v;
    a :| 0 <= a < |chunk.files| && chunk.files[a] == v[i];
  }

  lemma VisitsApart(index: Index, line: Piece)
    requires IndexValid(index) && line.chunk < |index.chunks|
    ensures Apart(Visits(index.chunks[line.chunk].root, line.off))
  {
    hide IndexValid, Visits, Scan, StrictlyOrdered, Distinct, OneRangePerLine, Contains;
    var chunk := index.chunks[line.chunk];
    var v := Visits(chunk.root, line.off);
    VisitedRanges(index, line);
    ChunkApart(index, line.chunk);
    ScanDistinct(chunk.files, line.off);
    forall i | 0 <= i < |v| ensures Distinct(v[i].files) {
      var a := VisitedAt(chunk, v, line.off, i);
      OwnFiles(chunk, a);
    }
    forall i, j, f | 0 <= i < j < |v| ensures !(f in v[i].files && f in v[j].files) {
      DistinctPermuted(v, Scan(chunk.files, line.off), i, j);
      var a := VisitedAt(chunk, v, line.off, i);
      var b := VisitedAt(chunk, v, line.off, j);
      OtherFiles(chunk, a, b, f, line.off);
    }
  }

  lemma OwnFiles(chunk: Chunk, a: nat)
    requires OneRangePerLine(chunk) && a < |chunk.files|
    ensures Distinct(chunk.files[a].files)
  {
  }

  lemma {:induction false} AllOnce(index: Index, q: Query, handed: seq<Piece>)
    requires IndexValid(index) && forall i | 0 <= i < |handed| :: VisitsFine(index, handed[i])
    requires forall i, j | 0 <= i < j < |handed| :: handed[i] != handed[j]
    ensures Once(AllReports(index, q, handed))
  {
    if handed != [] {
      hide Once, LineReports, VisitsFine, IndexValid;
      var n := |handed| - 1;
      AllOnce(index, q, handed[..n]);
      var a, b := AllReports(index, q, handed[..n]), LineReports(index, q, handed[n]);
      LineOnce(index, q, handed[n]);
      forall x, y | x in a && y in b ensures x.file != y.file || x.lno != y.lno {
        OtherLine(index, q, handed, n, x, y);
      }
      OnceAppend(a, b);
    }
  }

  lemma OtherLine(index: Index, q: Query, handed: seq<Piece>, n: nat, x: Result, y: Result)
    requires IndexValid(index) && n < |handed| && forall i | 0 <= i < |handed| :: VisitsFine(index, handed[i])
    requires forall i, j | 0 <= i < j < |handed| :: handed[i] != handed[j]
    requires x in AllReports(index, q, handed[..n]) && y in LineReports(index, q, handed[n])
    ensures x.file != y.file || x.lno != y.lno
  {
    hide IndexValid, VisitsFine, LineReports, AllReports, Report;
    AllReportsAre(index, q, handed[..n], x);
    var line :| line in handed[..n] && InLineReports(index, q, line, x);
    ReportHasLine(index, q, line, x);
    ReportHasLine(index, q, handed[n], y);
  }

  lemma LineOnce(index: Index, q: Query, line: Piece)
    requires IndexValid(index) && VisitsFine(index, line)
    ensures Once(LineReports(index, q, line))
  {
    VisitsApart(index, line);
    RangesOnce(index, q, Visits(index.chunks[line.chunk].root, line.off), line);
  }

  /** What a report of a line says. */
  lemma ReportHasLine(index: Index, q: Query, line: Piece, r: Result)
    requires IndexValid(index) && InLineReports(index, q, line, r)
    ensures r.file < |index.files| && q.Accepts(index.files[r.file])
    ensures var content := index.files[r.file].content;
      && 1 <= r.lno <= |content| && content[r.lno - 1] == line && r == Report(content, r.lno - 1, r.file, q.context)
  {
    hide IndexValid, LineReports, Contains, Query.Accepts, Report;
    LineReportsAre(index, q, line, r);
    var x, f :| x in index.chunks[line.chunk].files && Contains(x, line.off) && f in x.files && FileReports(index, q, f, line, r);
    FileReportsOnce(index.files[f].content, line, f, q.context);
  }

  // ----- The tree and the linear scan report the same -----

  lemma {:induction false} RangesReportsAppend(index: Index, q: Query, a: seq<ChunkFile>, b: seq<ChunkFile>, line: Piece)
    requires FilesExist(index, a) && FilesExist(index, b)
    ensures FilesExist(index, a + b)
    ensures RangesReports(index, q, a + b, line) == RangesReports(index, q, a, line) + RangesReports(index, q, b, line)
  {
    if b == [] {
      assert a + b == a;
    } else {
      hide RangeReports;
      var n := |b| - 1;
      assert (a + b)[..|a + b| - 1] == a + b[..n];
      RangesReportsAppend(index, q, a, b[..n], line);
    }
  }

  /** The order of the ranges does not matter to what is reported. */
  lemma {:induction false} RangesReportsPermuted(index: Index, q: Query, a: seq<ChunkFile>, b: seq<ChunkFile>, line: Piece)
    requires FilesExist(index, a) && FilesExist(index, b) && multiset(a) == multiset(b)
    ensures multiset(RangesReports(index, q, a, line)) == multiset(RangesReports(index, q, b, line))
  {
    hide RangesReports, RangeReports, FilesExist;
    if a == [] {
      assert |b| == |multiset(b)| == 0;
    } else {
      assert a[0] in multiset(b);
      var k :| 0 <= k < |b| && b[k] == a[0];
      TakeOut(index, q, a, 0, line);
      TakeOut(index, q, b, k, line);
      var a', b' := a[..0] + a[1..], b[..k] + b[k + 1..];
      assert multiset(a') == multiset(a) - multiset{a[0]} == multiset(b');
      RangesReportsPermuted(index, q, a', b', line);
    }
  }

  lemma TakeOut(index: Index, q: Query, b: seq<ChunkFile>, k: nat, line: Piece)
    requires FilesExist(index, b) && k < |b|
    ensures multiset(b) == multiset(b[..k] + b[k + 1..]) + multiset{b[k]}
    ensures FilesExist(index, b[..k] + b[k + 1..])
    ensures multiset(RangesReports(index, q, b, line))
      == multiset(RangesReports(index, q, b[..k] + b[k + 1..], line)) + multiset(RangesReports(index, q, [b[k]], line))
  {
    hide RangesReports;
    assert b == b[..k] + ([b[k]] + b[k + 1..]);
    RangesReportsAppend(index, q, [b[k]], b[k + 1..], line);
    RangesReportsAppend(index, q, b[..k], [b[k]] + b[k + 1..], line);
    RangesReportsAppend(index, q, b[..k], b[k + 1..], line);
  }

  /** `find_match` reports what `find_match_brute` does. */
  lemma TreeReportsLikeBrute(index: Index, q: Query, line: Piece)
    requires IndexValid(index) && line.chunk < |index.chunks|
    ensures var chunk := index.chunks[line.chunk];
      && FilesExist(index, Visits(chunk.root, line.off)) && FilesExist(index, Scan(chunk.files, line.off))
      && multiset(RangesReports(index, q, Visits(chunk.root, line.off), line))
        == multiset(RangesReports(index, q, Scan(chunk.files, line.off), line))
  {
    var chunk := index.chunks[line.chunk];
    VisitedRanges(index, line);
    RootRanges(index, line.chunk);
    VisitsExist(index, chunk.root, line.off);
    forall i | 0 <= i < |Scan(chunk.files, line.off)| ensures Below(Scan(chunk.files, line.off)[i].files, |index.files|) {
      ScanIs(chunk.files, line.off, Scan(chunk.files, line.off)[i]);
    }
    RangesReportsPermuted(index, q, Visits(chunk.root, line.off), Scan(chunk.files, line.off), line);
  }
}
