/**
 * The search of file names. All names stand in one text, each followed by a NUL,
 * and the positions at which the plan may match are taken back to the files.
 */
module NameSearch {
  import opened Bytes
  import opened Lines
  import opened IndexTypes
  import opened Wrappers
  import Grep

  // ----- Where the names are -----

  /** Name `f` starts at `starts[f]`. */
  ghost predicate Laid(files: seq<IndexedFile>, starts: seq<nat>) {
    && |starts| == |files|
    && forall f | 0 <= f < |files| - 1 :: starts[f + 1] == starts[f] + |files[f].path| + 1
  }

  ghost predicate Within(files: seq<IndexedFile>, starts: seq<nat>, f: int, h: int) {
    0 <= f < |files| && f < |starts| && starts[f] <= h < starts[f] + |files[f].path|
  }

  /** Positions in names, sorted and distinct. */
  ghost predicate Hits(files: seq<IndexedFile>, starts: seq<nat>, hits: seq<nat>) {
    && (forall i | 0 <= i < |hits| :: exists f :: Within(files, starts, f, hits[i]))
    && (forall i, j | 0 <= i < j < |hits| :: hits[i] < hits[j])
  }

  lemma {:induction false} StartsGrow(files: seq<IndexedFile>, starts: seq<nat>, f: nat, g: nat)
    requires Laid(files, starts) && f < g < |starts|
    ensures starts[f] + |files[f].path| < starts[g]
    decreases g
  {
    if f < g - 1 {
      StartsGrow(files, starts, f, g - 1);
    }
    assert starts[g - 1 + 1] == starts[g - 1] + |files[g - 1].path| + 1;
  }

  /** `std::lower_bound`, from `from` on: the first start not below `h`, or the end. */
  method LowerBound(starts: seq<nat>, from: nat, h: nat) returns (k: nat)
    requires from <= |starts| && forall f, g | 0 <= f < g < |starts| :: starts[f] < starts[g]
    ensures from <= k <= |starts|
    ensures forall f | from <= f < k :: starts[f] < h
    ensures k < |starts| ==> h <= starts[k]
  {
    var lo, hi := from, |starts|;
    while lo < hi
      invariant from <= lo <= hi <= |starts|
      invariant forall f | from <= f < lo :: starts[f] < h
      invariant hi < |starts| ==> h <= starts[hi]
    {
      var mid := lo + (hi - lo) / 2;
      if starts[mid] < h {
        lo := mid + 1;
      } else {
        hi := mid;
      }
    }
    k := lo;
  }

  // ----- How often a file is tried -----

  /** The name has a hit at its first byte. */
  predicate HitAtStart(starts: seq<nat>, hits: seq<nat>, f: int) {
    0 <= f < |starts| && starts[f] in hits
  }

  /** The name has a hit after its first byte. */
  ghost predicate HitInside(files: seq<IndexedFile>, starts: seq<nat>, hits: seq<nat>, f: int) {
    exists i :: 0 <= i < |hits| && Within(files, starts, f, hits[i]) && starts[f] < hits[i]
  }

  /** A hit at the start of a name counts only without one inside the name before; the hits inside a name count once. */
  ghost function Tries(files: seq<IndexedFile>, starts: seq<nat>, hits: seq<nat>, f: int): nat {
    (if HitAtStart(starts, hits, f) && !HitInside(files, starts, hits, f - 1) then 1 else 0)
    + (if HitInside(files, starts, hits, f) then 1 else 0)
  }

  // ----- The loop over the hits -----

  /** `h` is in name `f`, and the first start not below it is `k`. */
  ghost predicate At(files: seq<IndexedFile>, starts: seq<nat>, h: nat, f: int, k: int) {
    Within(files, starts, f, h) && k == FirstFor(starts, h, f)
  }

  function FirstFor(starts: seq<nat>, h: nat, f: int): int
    requires 0 <= f < |starts|
  {
    if h == starts[f] then f else f + 1
  }

  lemma AtUnique(files: seq<IndexedFile>, starts: seq<nat>, h: nat, f: int, k: int, g: int)
    requires Laid(files, starts) && At(files, starts, h, f, k) && Within(files, starts, g, h)
    ensures g == f
  {
    if f < g {
      StartsGrow(files, starts, f, g);
    } else if g < f {
      StartsGrow(files, starts, g, f);
    }
  }

  /** What is read for the first start not below a hit. */
  function First(starts: seq<nat>, k: int, beyond: int): int {
    if 0 <= k < |starts| then starts[k] else beyond
  }

  lemma NextInside(files: seq<IndexedFile>, starts: seq<nat>, hits: seq<nat>, h: nat, f: int, k: int, g: int)
    requires Laid(files, starts) && At(files, starts, h, f, k)
    ensures HitInside(files, starts, hits + [h], g) <==> HitInside(files, starts, hits, g) || (g == f && k == f + 1)
  {
    var more := hits + [h];
    assert more[|hits|] == h;
    if i :| 0 <= i < |more| && Within(files, starts, g, more[i]) && starts[g] < more[i] {
      if i < |hits| {
        assert more[i] == hits[i];
      } else {
        AtUnique(files, starts, h, f, k, g);
      }
    }
    if i :| 0 <= i < |hits| && Within(files, starts, g, hits[i]) && starts[g] < hits[i] {
      assert more[i] == hits[i];
    }
  }

  lemma NextStart(files: seq<IndexedFile>, starts: seq<nat>, hits: seq<nat>, h: nat, f: int, k: int, g: int)
    requires Laid(files, starts) && At(files, starts, h, f, k)
    ensures HitAtStart(starts, hits + [h], g) <==> HitAtStart(starts, hits, g) || (g == f && k == f)
  {
    if 0 <= g < |starts| && starts[g] == h && files[g].path != [] {
      AtUnique(files, starts, h, f, k, g);
    } else if 0 <= g < f {
      StartsGrow(files, starts, g, f);
    } else if f < g < |starts| {
      StartsGrow(files, starts, f, g);
    }
  }

  /** Nothing has been hit at or after `h`. */
  ghost predicate AllBefore(hits: seq<nat>, h: nat) {
    forall i | 0 <= i < |hits| :: hits[i] < h
  }

  /** The last hit has the same first start exactly if something was hit between there and the one before. */
  lemma SameFirst(files: seq<IndexedFile>, starts: seq<nat>, hits: seq<nat>, f0: int, k0: int, h: nat, f: int, k: int)
    requires Laid(files, starts) && hits != [] && AllBefore(hits, h) && Sorted(hits)
    requires At(files, starts, hits[|hits| - 1], f0, k0) && At(files, starts, h, f, k)
    ensures k0 == k <==> HitInside(files, starts, hits, k - 1)
  {
    var last := hits[|hits| - 1];
    StartsOrder(files, starts, f, f0);
    if k0 == k {
      assert Within(files, starts, k - 1, last) && starts[k - 1] < last;
    } else if i :| 0 <= i < |hits| && Within(files, starts, k - 1, hits[i]) && starts[k - 1] < hits[i] {
      assert hits[i] <= last < h;
      StartsOrder(files, starts, f0, k - 1);
    }
  }

  /** A position below another is in no later name. */
  lemma StartsOrder(files: seq<IndexedFile>, starts: seq<nat>, f: int, g: int)
    requires Laid(files, starts) && 0 <= f < |starts| && 0 <= g < |starts|
    ensures f < g ==> starts[f] + |files[f].path| < starts[g]
    ensures g < f ==> starts[g] + |files[g].path| < starts[f]
  {
    if f < g {
      StartsGrow(files, starts, f, g);
    } else if g < f {
      StartsGrow(files, starts, g, f);
    }
  }

  predicate Sorted(hits: seq<nat>) {
    forall i, j | 0 <= i < j < |hits| :: hits[i] < hits[j]
  }

  /** What is read beyond the last start is no position in a name. */
  ghost predicate NoStart(files: seq<IndexedFile>, starts: seq<nat>, beyond: int) {
    beyond != -1 && forall f | 0 <= f < |starts| && f < |files| :: !(starts[f] <= beyond <= starts[f] + |files[f].path|)
  }

  lemma FirstTells(files: seq<IndexedFile>, starts: seq<nat>, beyond: int, k: nat, m: nat)
    requires Laid(files, starts) && NoStart(files, starts, beyond) && k <= |starts| && m <= |starts|
    ensures First(starts, k, beyond) == First(starts, m, beyond) <==> k == m
    ensures First(starts, k, beyond) != -1
  {
    if k < m < |starts| {
      StartsGrow(files, starts, k, m);
    } else if m < k < |starts| {
      StartsGrow(files, starts, m, k);
    }
  }

  /** Every file has been tried as often as the first hits say. */
  ghost predicate Tried(files: seq<IndexedFile>, starts: seq<nat>, hits: seq<nat>, tried: seq<nat>) {
    (forall i | 0 <= i < |tried| :: tried[i] < |files|)
    && forall f: nat :: multiset(tried)[f] == Tries(files, starts, hits, f)
  }

  /** What was read for the last hit. */
  ghost predicate Previous(files: seq<IndexedFile>, starts: seq<nat>, hits: seq<nat>, previous: int, beyond: int) {
    if hits == [] then previous == -1
    else
      var last := hits[|hits| - 1];
      exists f :: Within(files, starts, f, last) && previous == First(starts, FirstFor(starts, last, f), beyond)
  }

  /** The search for the next start may begin here. */
  ghost predicate MayBegin(starts: seq<nat>, hits: seq<nat>, left: nat) {
    left == 0 || (left < |starts| && hits != [] && starts[left] <= hits[|hits| - 1])
  }

  lemma NothingTried(files: seq<IndexedFile>, starts: seq<nat>)
    ensures Tried(files, starts, [], [])
  {
  }

  /** One more hit: it is skipped, or its file is tried. */
  lemma OneHit(files: seq<IndexedFile>, starts: seq<nat>, hits: seq<nat>, tried: seq<nat>, previous: int, beyond: int,
               h: nat, f: int, k: nat)
    requires Laid(files, starts) && NoStart(files, starts, beyond) && AllBefore(hits, h) && Sorted(hits)
    requires Tried(files, starts, hits, tried) && Previous(files, starts, hits, previous, beyond) && At(files, starts, h, f, k)
    ensures Tried(files, starts, hits + [h], if previous == First(starts, k, beyond) then tried else tried + [f])
    ensures Previous(files, starts, hits + [h], First(starts, k, beyond), beyond)
  {
    var skip := previous == First(starts, k, beyond);
    FirstTells(files, starts, beyond, k, k);
    SkipTells(files, starts, hits, previous, beyond, h, f, k);
    var tried' := if skip then tried else tried + [f];
    hide Laid, Previous, NoStart, HitInside, HitAtStart, Within, First;
    forall g: nat ensures multiset(tried')[g] == Tries(files, starts, hits + [h], g) {
      MoreTries(files, starts, hits, h, f, k, g);
    }
    assert (hits + [h])[|hits + [h]| - 1] == h;
    StillPrevious(files, starts, hits, beyond, h, f, k);
    Bounded(files, starts, h, f);
  }

  lemma Bounded(files: seq<IndexedFile>, starts: seq<nat>, h: nat, f: int)
    requires Within(files, starts, f, h)
    ensures 0 <= f < |files|
  {
  }

  lemma StillPrevious(files: seq<IndexedFile>, starts: seq<nat>, hits: seq<nat>, beyond: int, h: nat, f: int, k: nat)
    requires At(files, starts, h, f, k)
    ensures Previous(files, starts, hits + [h], First(starts, k, beyond), beyond)
  {
    var more := hits + [h];
    assert more != [] && more[|more| - 1] == h;
    assert Within(files, starts, f, h) && FirstFor(starts, h, f) == k;
  }

  /** A hit is skipped exactly if something was hit inside the name before the first start. */
  lemma SkipTells(files: seq<IndexedFile>, starts: seq<nat>, hits: seq<nat>, previous: int, beyond: int, h: nat, f: int, k: nat)
    requires Laid(files, starts) && NoStart(files, starts, beyond) && AllBefore(hits, h) && Sorted(hits)
    requires Previous(files, starts, hits, previous, beyond) && At(files, starts, h, f, k)
    ensures k <= |starts|
    ensures previous == First(starts, k, beyond) <==> HitInside(files, starts, hits, k - 1)
  {
    hide NoStart, First, Laid;
    FirstTells(files, starts, beyond, k, k);
    if hits != [] {
      var last := hits[|hits| - 1];
      var f0 :| Within(files, starts, f0, last) && previous == First(starts, FirstFor(starts, last, f0), beyond);
      var k0 := FirstFor(starts, last, f0);
      FirstTells(files, starts, beyond, k0, k);
      SameFirst(files, starts, hits, f0, k0, h, f, k);
    }
  }

  /** A hit at a start adds a try unless there was one inside the name before; a hit inside, unless it is not the first. */
  lemma MoreTries(files: seq<IndexedFile>, starts: seq<nat>, hits: seq<nat>, h: nat, f: int, k: int, g: nat)
    requires Laid(files, starts) && AllBefore(hits, h) && At(files, starts, h, f, k)
    ensures Tries(files, starts, hits + [h], g) ==
      Tries(files, starts, hits, g) + if g == f && !HitInside(files, starts, hits, k - 1) then 1 else 0
  {
    NextInside(files, starts, hits, h, f, k, g);
    NextInside(files, starts, hits, h, f, k, g - 1);
    NextStart(files, starts, hits, h, f, k, g);
    NotYet(files, starts, hits, h, f, k, g);
    hide Laid, AllBefore, HitInside, HitAtStart;
  }

  /** The start of a name is hit once, and before anything in the names after it. */
  lemma NotYet(files: seq<IndexedFile>, starts: seq<nat>, hits: seq<nat>, h: nat, f: int, k: int, g: nat)
    requires Laid(files, starts) && AllBefore(hits, h) && At(files, starts, h, f, k)
    ensures k == f ==> !HitAtStart(starts, hits, f)
    ensures g == f + 1 ==> !HitAtStart(starts, hits, g)
  {
    if g == f + 1 < |starts| {
      StartsGrow(files, starts, f, g);
    }
  }

  lemma NoPrevious(files: seq<IndexedFile>, starts: seq<nat>, beyond: int)
    ensures Previous(files, starts, [], -1, beyond)
  {
  }

  lemma StartsSorted(files: seq<IndexedFile>, starts: seq<nat>)
    requires Laid(files, starts)
    ensures forall f, g | 0 <= f < g < |starts| :: starts[f] < starts[g]
  {
    forall f, g | 0 <= f < g < |starts| ensures starts[f] < starts[g] {
      StartsGrow(files, starts, f, g);
    }
  }

  /** The name a hit is in, and that all hits before it are below it. */
  lemma NameOf(files: seq<IndexedFile>, starts: seq<nat>, hits: seq<nat>, i: nat) returns (f: nat)
    requires Hits(files, starts, hits) && i < |hits|
    ensures Within(files, starts, f, hits[i]) && AllBefore(hits[..i], hits[i]) && Sorted(hits[..i])
  {
    f :| Within(files, starts, f, hits[i]);
  }

  /** The search from `left` on finds the first start of all not below the hit. */
  lemma LowerIs(files: seq<IndexedFile>, starts: seq<nat>, hits: seq<nat>, i: nat, left: nat, f: nat, lb: nat)
    requires Laid(files, starts) && i < |hits| && Within(files, starts, f, hits[i]) && AllBefore(hits[..i], hits[i])
    requires MayBegin(starts, hits[..i], left) && left <= lb <= |starts|
    requires (forall g | left <= g < lb :: starts[g] < hits[i]) && (lb < |starts| ==> hits[i] <= starts[lb])
    ensures At(files, starts, hits[i], f, lb)
  {
    if left > 0 {
      assert hits[..i][|hits[..i]| - 1] < hits[i];
      StartsOrder(files, starts, f, left);
    }
    if lb < |starts| {
      StartsOrder(files, starts, f, lb);
    }
    if f < |starts| - 1 {
      StartsGrow(files, starts, f, f + 1);
    }
  }

  /** The start read is the hit exactly if the hit is at the start of its name. */
  lemma Differs(files: seq<IndexedFile>, starts: seq<nat>, beyond: int, hits: seq<nat>, i: nat, f: nat, lb: nat)
    requires Laid(files, starts) && NoStart(files, starts, beyond) && i < |hits| && At(files, starts, hits[i], f, lb)
    ensures First(starts, lb, beyond) == hits[i] <==> lb == f
  {
    if f + 1 < |starts| {
      StartsGrow(files, starts, f, f + 1);
    }
  }

  lemma StillMayBegin(files: seq<IndexedFile>, starts: seq<nat>, hits: seq<nat>, i: nat, left: nat, f: nat)
    requires i < |hits| && MayBegin(starts, hits[..i], left) && Within(files, starts, f, hits[i]) && AllBefore(hits[..i], hits[i])
    ensures MayBegin(starts, hits[..i + 1], left) && MayBegin(starts, hits[..i + 1], f)
  {
    assert hits[..i + 1][|hits[..i + 1]| - 1] == hits[i];
    if left > 0 {
      assert hits[..i][|hits[..i]| - 1] < hits[i];
    }
  }

  /**
   * The loop of the searcher over the sorted hits. A hit is skipped if the same
   * first start was read for the hit before it, which for one inside a name is
   * that of the next name.
   */
  method TryFiles(files: seq<IndexedFile>, starts: seq<nat>, hits: seq<nat>, beyond: int) returns (tried: seq<nat>)
    requires Laid(files, starts) && Hits(files, starts, hits) && NoStart(files, starts, beyond)
    ensures forall i | 0 <= i < |tried| :: tried[i] < |files|
    ensures forall f: nat :: multiset(tried)[f] == Tries(files, starts, hits, f)
  {
    hide Tried, Previous, NoStart, Tries, Laid, Hits;
    tried := [];
    NothingTried(files, starts);
    StartsSorted(files, starts);
    var left: nat, previous: int := 0, -1;
    NoPrevious(files, starts, beyond);
    assert hits[..0] == [];
    for i := 0 to |hits|
      invariant Tried(files, starts, hits[..i], tried) && Previous(files, starts, hits[..i], previous, beyond)
      invariant MayBegin(starts, hits[..i], left)
    {
      ghost var f := NameOf(files, starts, hits, i);
      assert hits[..i + 1] == hits[..i] + [hits[i]];
      var lb := LowerBound(starts, left, hits[i]);
      LowerIs(files, starts, hits, i, left, f, lb);
      var first := First(starts, lb, beyond);
      OneHit(files, starts, hits[..i], tried, previous, beyond, hits[i], f, lb);
      Differs(files, starts, beyond, hits, i, f, lb);
      StillMayBegin(files, starts, hits, i, left, f);
      if first != previous {
        previous := first;
        if first != hits[i] {
          lb := lb - 1;
        }
        tried := tried + [lb];
        left := lb;
      }
    }
    assert hits[..|hits|] == hits;
    TriedIs(files, starts, hits, tried);
  }

  lemma TriedIs(files: seq<IndexedFile>, starts: seq<nat>, hits: seq<nat>, tried: seq<nat>)
    requires Tried(files, starts, hits, tried)
    ensures forall i | 0 <= i < |tried| :: tried[i] < |files|
    ensures forall f: nat :: multiset(tried)[f] == Tries(files, starts, hits, f)
  {
  }

  // ----- The search -----

  /** The file is asked for, and the expression matches its path. */
  ghost predicate Named(q: Query, file: IndexedFile) {
    Grep.Chosen(q, file) && LineMatches(q.line, file.path)
  }

  /** `match_filename`. */
  method MatchFileName(q: Query, file: IndexedFile) returns (found: bool)
    ensures found <==> Named(q, file)
  {
    Grep.ChosenIsAccepted(q, file);
    hide Query.Accepts, Grep.Chosen;
    found := q.Accepts(file) && exists i, j | 0 <= i <= |file.path| && i <= j <= |file.path| :: q.line(file.path, i, j);
    assert LineMatches(q.line, file.path) <==>
      exists i, j | 0 <= i <= |file.path| && i <= j <= |file.path| :: q.line(file.path, i, j);
  }

  /** Every file that is tried and is to be reported is reported, as often as it is tried. */
  ghost predicate Reported(q: Query, files: seq<IndexedFile>, tried: seq<nat>, found: seq<nat>)
    requires forall i | 0 <= i < |tried| :: tried[i] < |files|
  {
    forall f: nat | f < |files| :: multiset(found)[f] == if Named(q, files[f]) then multiset(tried)[f] else 0
  }

  method MatchTried(q: Query, files: seq<IndexedFile>, tried: seq<nat>) returns (found: seq<nat>)
    requires forall i | 0 <= i < |tried| :: tried[i] < |files|
    ensures forall i | 0 <= i < |found| :: found[i] < |files|
    ensures Reported(q, files, tried, found)
  {
    hide Named;
    found := [];
    assert tried[..0] == [];
    for i := 0 to |tried|
      invariant forall k | 0 <= k < |found| :: found[k] < |files|
      invariant Reported(q, files, tried[..i], found)
    {
      assert tried[..i + 1] == tried[..i] + [tried[i]];
      var matches := MatchFileName(q, files[tried[i]]);
      if matches {
        found := found + [tried[i]];
      }
    }
    assert tried[..|tried|] == tried;
  }

  /** All files, once each. */
  method EveryFile(n: nat) returns (all: seq<nat>)
    ensures forall i | 0 <= i < |all| :: all[i] < n
    ensures forall f: nat | f < n :: multiset(all)[f] == 1
  {
    all := [];
    for i := 0 to n
      invariant |all| == i && forall k | 0 <= k < i :: all[k] == k
      invariant forall f: nat :: multiset(all)[f] == if f < i then 1 else 0
    {
      all := all + [i];
    }
  }

  /** The only hit in the name is at its start, and something is hit inside the name before. */
  ghost predicate Missed(files: seq<IndexedFile>, starts: seq<nat>, hits: seq<nat>, f: nat) {
    !HitInside(files, starts, hits, f) && HitInside(files, starts, hits, f - 1)
  }

  /** The name is hit at its start and inside, and nothing is hit inside the name before. */
  ghost predicate Twice(files: seq<IndexedFile>, starts: seq<nat>, hits: seq<nat>, f: nat) {
    HitAtStart(starts, hits, f) && HitInside(files, starts, hits, f) && !HitInside(files, starts, hits, f - 1)
  }

  /** The plan may match somewhere in the name. */
  ghost predicate Hit(files: seq<IndexedFile>, starts: seq<nat>, hits: seq<nat>, f: nat) {
    exists i :: 0 <= i < |hits| && Within(files, starts, f, hits[i])
  }

  lemma HitSomewhere(files: seq<IndexedFile>, starts: seq<nat>, hits: seq<nat>, f: nat)
    requires Hit(files, starts, hits, f)
    ensures HitAtStart(starts, hits, f) || HitInside(files, starts, hits, f)
  {
    var i :| 0 <= i < |hits| && Within(files, starts, f, hits[i]);
    assert hits[i] in hits;
  }

  /**
   * The file-name searcher. If the hits do not fit the buffer all files are
   * tried. Otherwise a file that is to be reported, and has a hit, is missed or
   * reported twice exactly in the cases above, and else reported once.
   */
  method SearchNames(q: Query, files: seq<IndexedFile>, starts: seq<nat>, fits: bool, hits: seq<nat>, beyond: int)
    returns (found: seq<nat>)
    requires fits ==> Laid(files, starts) && Hits(files, starts, hits) && NoStart(files, starts, beyond)
    ensures forall i | 0 <= i < |found| :: found[i] < |files| && Named(q, files[found[i]])
    ensures !fits ==> forall f: nat | f < |files| && Named(q, files[f]) :: multiset(found)[f] == 1
    ensures fits ==> forall f: nat | f < |files| && Named(q, files[f]) && Hit(files, starts, hits, f) ::
      multiset(found)[f] == if Missed(files, starts, hits, f) then 0 else if Twice(files, starts, hits, f) then 2 else 1
  {
    hide Laid, Hits, NoStart, Named, HitInside, HitAtStart, Hit;
    var tried;
    if fits {
      tried := TryFiles(files, starts, hits, beyond);
    } else {
      tried := EveryFile(|files|);
    }
    found := MatchTried(q, files, tried);
    forall i | 0 <= i < |found| ensures Named(q, files[found[i]]) {
      assert found[i] in found && multiset(found)[found[i]] > 0;
    }
    forall f: nat | f < |files| && Hit(files, starts, hits, f) && Named(q, files[f])
      ensures fits ==>
        multiset(found)[f] == if Missed(files, starts, hits, f) then 0 else if Twice(files, starts, hits, f) then 2 else 1
    {
      HitSomewhere(files, starts, hits, f);
    }
  }

  // ----- A file that is missed, and one reported twice -----

  function AFile(path: Text): IndexedFile {
    IndexedFile([], path, [])
  }

  /** The letter a, anywhere. */
  function TheLetterA(): Query {
    Query((line: Text, i: nat, j: nat) => i < |line| && j == i + 1 && line[i] == 'a' as int, line => true, None, None, None, None, 0)
  }

  lemma HasLetterA(path: Text, i: nat)
    requires i < |path| && path[i] == 'a' as int
    ensures Named(TheLetterA(), AFile(path))
  {
    assert TheLetterA().line(path, i, i + 1);
  }

  /** The first name ends in the letter, and the second is the letter: both are hit, and the second is not found. */
  method NameMissed(front: Text, beyond: int) returns (found: seq<nat>)
    requires front != [] && 'a' as int !in front && beyond > |front| + 4
    ensures var files := [AFile(front + ['a' as int]), AFile(['a' as int])];
      Named(TheLetterA(), files[0]) && Named(TheLetterA(), files[1])
    ensures 0 in found && 1 !in found
  {
    var n := |front|;
    var files, starts, hits := [AFile(front + ['a' as int]), AFile(['a' as int])], [0, n + 2], [n, n + 2];
    HasLetterA(files[0].path, n);
    HasLetterA(files[1].path, 0);
    assert Within(files, starts, 0, hits[0]) && Within(files, starts, 1, hits[1]);
    found := SearchNames(TheLetterA(), files, starts, true, hits, beyond);
    assert HitInside(files, starts, hits, 0) && !HitInside(files, starts, hits, 1) && !HitInside(files, starts, hits, -1);
    hide HitInside, HitAtStart, Named;
    assert Hit(files, starts, hits, 0) && Hit(files, starts, hits, 1);
    assert multiset(found)[0] >= 1 && multiset(found)[1] == 0;
  }

  /** A name of two such letters is found twice. */
  method NameTwice(beyond: int) returns (found: seq<nat>)
    requires beyond > 2
    ensures Named(TheLetterA(), AFile(['a' as int, 'a' as int])) && multiset(found)[0] == 2
  {
    var files, starts, hits := [AFile(['a' as int, 'a' as int])], [0], [0, 1];
    HasLetterA(files[0].path, 0);
    assert Within(files, starts, 0, hits[0]) && Within(files, starts, 0, hits[1]);
    found := SearchNames(TheLetterA(), files, starts, true, hits, beyond);
    assert starts[0] in hits && HitAtStart(starts, hits, 0) && HitInside(files, starts, hits, 0) && !HitInside(files, starts, hits, -1);
    assert Hit(files, starts, hits, 0);
  }
}
