/**
 * The ranges of a chunk in which a file has lines, their compaction once all
 * files are known, and the augmented search tree over them.
 */
module ChunkFiles {

  /** Some lines of each of `files` lie in the bytes `left` through `right`. */
  datatype ChunkFile = ChunkFile(files: seq<nat>, left: nat, right: nat)

  predicate KeyLess(x: ChunkFile, y: ChunkFile) {
    x.left < y.left || (x.left == y.left && x.right < y.right)
  }

  predicate SameKey(x: ChunkFile, y: ChunkFile) {
    x.left == y.left && x.right == y.right
  }

  predicate Contains(x: ChunkFile, off: nat) {
    x.left <= off <= x.right
  }

  predicate Ordered(s: seq<ChunkFile>) {
    forall i, j | 0 <= i < j < |s| :: !KeyLess(s[j], s[i])
  }

  predicate StrictlyOrdered(s: seq<ChunkFile>) {
    forall i, j | 0 <= i < j < |s| :: s[i].left < s[j].left || (s[i].left == s[j].left && s[i].right < s[j].right)
  }

  // ----- What the ranges say: which file has which range -----

  datatype Ref = Ref(file: nat, left: nat, right: nat)

  ghost function RefsOf(x: ChunkFile): multiset<Ref> {
    FileRefs(x.files, x.left, x.right)
  }

  ghost function FileRefs(files: seq<nat>, left: nat, right: nat): multiset<Ref> {
    if files == [] then multiset{}
    else FileRefs(files[..|files| - 1], left, right) + multiset{Ref(files[|files| - 1], left, right)}
  }

  ghost function Refs(s: seq<ChunkFile>): multiset<Ref> {
    if s == [] then multiset{} else Refs(s[..|s| - 1]) + RefsOf(s[|s| - 1])
  }

  lemma RefsPush(s: seq<ChunkFile>, x: ChunkFile)
    ensures Refs(s + [x]) == Refs(s) + RefsOf(x)
  {
    assert (s + [x])[..|s|] == s;
  }

  lemma FileRefsPush(files: seq<nat>, f: nat, left: nat, right: nat)
    ensures FileRefs(files + [f], left, right) == FileRefs(files, left, right) + multiset{Ref(f, left, right)}
  {
    assert (files + [f])[..|files|] == files;
  }

  lemma RefsLast(s: seq<ChunkFile>, x: ChunkFile, f: nat)
    requires s != [] && x == s[|s| - 1]
    ensures Refs(s[..|s| - 1] + [x.(files := x.files + [f])]) == Refs(s) + multiset{Ref(f, x.left, x.right)}
  {
    RefsPush(s[..|s| - 1], x.(files := x.files + [f]));
    FileRefsPush(x.files, f, x.left, x.right);
  }

  lemma {:induction false} RefsOfFile(files: seq<nat>, f: nat, left: nat, right: nat)
    ensures Ref(f, left, right) in FileRefs(files, left, right) <==> f in files
    ensures forall r | r in FileRefs(files, left, right) :: r.left == left && r.right == right && r.file in files
  {
    if files != [] {
      RefsOfFile(files[..|files| - 1], f, left, right);
      assert files == files[..|files| - 1] + [files[|files| - 1]];
    }
  }

  lemma {:induction false} RefIn(s: seq<ChunkFile>, r: Ref)
    ensures r in Refs(s) <==> exists i | 0 <= i < |s| :: s[i].left == r.left && s[i].right == r.right && r.file in s[i].files
  {
    if s != [] {
      var n := |s| - 1;
      RefIn(s[..n], r);
      RefsOfFile(s[n].files, r.file, s[n].left, s[n].right);
      if i :| 0 <= i < n && s[..n][i].left == r.left && s[..n][i].right == r.right && r.file in s[..n][i].files {
        assert s[i] == s[..n][i];
      }
      if i :| 0 <= i < |s| && s[i].left == r.left && s[i].right == r.right && r.file in s[i].files {
        if i < n {
          assert s[..n][i] == s[i];
        }
      }
    }
  }

  /**
   * The compaction of `finalize_files`, in place: `output` and `input` run over
   * the same vector, and ranges with the same key end up in one entry.
   */
  method Compact(ordered: seq<ChunkFile>) returns (files: seq<ChunkFile>)
    requires Ordered(ordered) && forall i | 0 <= i < |ordered| :: |ordered[i].files| == 1
    ensures StrictlyOrdered(files) && Refs(files) == Refs(ordered)
    ensures forall i | 0 <= i < |files| :: files[i].files != []
  {
    hide Compacted, Refs, Ordered;
    files := ordered;
    CompactNothing();
    var output, input := 0, 0;
    while input != |files|
      invariant output <= input <= |files| == |ordered|
      invariant forall k | input <= k < |files| :: files[k] == ordered[k]
      invariant Compacted(files[..output], ordered[..input])
      invariant 0 < output && input < |files| ==> KeyLess(files[output - 1], ordered[input])
    {
      CompactNew(files[..output], ordered[..input], ordered[input]);
      assert ordered[..input + 1] == ordered[..input] + [ordered[input]];
      ghost var from := files[..output];
      files := files[output := files[input]];
      assert files[..output + 1] == from + [ordered[input]];
      input := input + 1;
      while input != |files| && SameKey(files[output], files[input])
        invariant output < input <= |files| == |ordered|
        invariant forall k | input <= k < |files| :: files[k] == ordered[k]
        invariant Compacted(files[..output + 1], ordered[..input])
        invariant SameKey(files[output], ordered[input - 1])
      {
        CompactSame(files[..output + 1], ordered[..input], ordered[input]);
        assert ordered[..input + 1] == ordered[..input] + [ordered[input]];
        ghost var before := files[..output + 1];
        files := files[output := files[output].(files := files[output].files + [files[input].files[0]])];
        assert files[..output + 1] == before[..output] + [files[output]];
        input := input + 1;
      }
      NextKey(ordered, input);
      output := output + 1;
    }
    assert ordered[..input] == ordered;
    files := files[..output];
    CompactedParts(files, ordered);
  }

  lemma NextKey(ordered: seq<ChunkFile>, k: nat)
    requires Ordered(ordered) && 0 < k
    ensures k < |ordered| && !SameKey(ordered[k - 1], ordered[k]) ==> KeyLess(ordered[k - 1], ordered[k])
  {
  }

  lemma CompactedParts(done: seq<ChunkFile>, seen: seq<ChunkFile>)
    requires Compacted(done, seen)
    ensures StrictlyOrdered(done) && Refs(done) == Refs(seen)
    ensures forall i | 0 <= i < |done| :: done[i].files != []
  {
  }

  /** `done` is the compaction of `seen`. */
  ghost predicate Compacted(done: seq<ChunkFile>, seen: seq<ChunkFile>) {
    && StrictlyOrdered(done) && Refs(done) == Refs(seen)
    && (forall i | 0 <= i < |done| :: done[i].files != [])
  }

  lemma CompactNothing()
    ensures Compacted([], [])
  {
  }

  lemma CompactNew(done: seq<ChunkFile>, seen: seq<ChunkFile>, x: ChunkFile)
    requires Compacted(done, seen) && x.files != [] && (done != [] ==> KeyLess(done[|done| - 1], x))
    ensures Compacted(done + [x], seen + [x])
  {
    hide Refs, RefsOf;
    RefsPush(done, x);
    RefsPush(seen, x);
    var d := done + [x];
    forall i, j | 0 <= i < j < |d| ensures KeyLess(d[i], d[j]) {
      if j == |done| && i < |done| - 1 {
        assert KeyLess(done[i], done[|done| - 1]);
      }
    }
  }

  lemma CompactSame(done: seq<ChunkFile>, seen: seq<ChunkFile>, x: ChunkFile)
    requires Compacted(done, seen) && done != [] && SameKey(done[|done| - 1], x) && |x.files| == 1
    ensures var y := done[|done| - 1];
      Compacted(done[..|done| - 1] + [y.(files := y.files + [x.files[0]])], seen + [x])
  {
    hide FileRefs, Refs;
    var n := |done| - 1;
    var y := done[n];
    var d := done[..n] + [y.(files := y.files + [x.files[0]])];
    RefsLast(done, y, x.files[0]);
    RefsPush(seen, x);
    OneFile(x);
    forall i, j | 0 <= i < j < |d| ensures KeyLess(d[i], d[j]) {
      assert KeyLess(done[i], done[j]);
    }
  }

  lemma OneFile(x: ChunkFile)
    requires |x.files| == 1
    ensures RefsOf(x) == multiset{Ref(x.files[0], x.left, x.right)}
  {
    FileRefsPush([], x.files[0], x.left, x.right);
    assert [] + [x.files[0]] == x.files;
  }

  // ----- The search tree -----

  datatype Tree = Leaf | Node(chunk: ChunkFile, rightLimit: nat, left: Tree, right: Tree)

  function InOrder(t: Tree): seq<ChunkFile> {
    match t
    case Leaf => []
    case Node(c, _, l, r) => InOrder(l) + [c] + InOrder(r)
  }

  function Max(a: nat, b: nat): nat {
    if b > a then b else a
  }

  function BuildTree(files: seq<ChunkFile>, left: nat, right: nat): (t: Tree)
    requires left <= right <= |files|
    decreases right - left
  {
    if right == left then Leaf
    else
      var mid := (left + right) / 2;
      var l, r := BuildTree(files, left, mid), BuildTree(files, mid + 1, right);
      var a := if l.Node? then Max(files[mid].right, l.rightLimit) else files[mid].right;
      var b := if r.Node? then Max(a, r.rightLimit) else a;
      Node(files[mid], b, l, r)
  }

  /** Every node's limit is the greatest right end below it. */
  ghost predicate Augmented(t: Tree) {
    match t
    case Leaf => true
    case Node(_, limit, l, r) =>
      && Augmented(l) && Augmented(r)
      && (forall i | 0 <= i < |InOrder(t)| :: InOrder(t)[i].right <= limit)
      && (exists i | 0 <= i < |InOrder(t)| :: InOrder(t)[i].right == limit)
  }

  /** The tree lists its part of the vector, balanced at every node around the middle. */
  lemma {:induction false} BuildTreeCorrect(files: seq<ChunkFile>, left: nat, right: nat)
    requires left <= right <= |files|
    ensures InOrder(BuildTree(files, left, right)) == files[left..right]
    ensures Augmented(BuildTree(files, left, right))
    decreases right - left, 1
  {
    if left < right {
      BuildTreeInner(files, left, right);
    }
  }

  lemma {:induction false} BuildTreeInner(files: seq<ChunkFile>, left: nat, right: nat)
    requires left < right <= |files|
    ensures InOrder(BuildTree(files, left, right)) == files[left..right]
    ensures Augmented(BuildTree(files, left, right))
    decreases right - left, 0
  {
    hide Augmented, BuildTree, InOrder;
    var mid := (left + right) / 2;
    BuildTreeCorrect(files, left, mid);
    BuildTreeCorrect(files, mid + 1, right);
    var t := BuildTree(files, left, right);
    BuildTreeNode(files, left, right, mid);
    InOrderNode(t);
    Split(files, left, mid, right);
    LimitExact(t, files[mid]);
  }

  lemma Split(s: seq<ChunkFile>, l: nat, m: nat, r: nat)
    requires l <= m < r <= |s|
    ensures s[l..r] == s[l..m] + [s[m]] + s[m + 1..r]
  {
  }

  lemma InOrderNode(t: Tree)
    requires t.Node?
    ensures InOrder(t) == InOrder(t.left) + [t.chunk] + InOrder(t.right)
  {
  }

  lemma BuildTreeNode(files: seq<ChunkFile>, left: nat, right: nat, mid: nat)
    requires left < right <= |files| && mid == (left + right) / 2
    ensures var t, l, r := BuildTree(files, left, right), BuildTree(files, left, mid), BuildTree(files, mid + 1, right);
      var a := if l.Node? then Max(files[mid].right, l.rightLimit) else files[mid].right;
      t == Node(files[mid], if r.Node? then Max(a, r.rightLimit) else a, l, r)
  {
  }

  lemma LimitExact(t: Tree, c: ChunkFile)
    requires t.Node? && t.chunk == c && Augmented(t.left) && Augmented(t.right)
    requires var a := if t.left.Node? then Max(c.right, t.left.rightLimit) else c.right;
      t.rightLimit == if t.right.Node? then Max(a, t.right.rightLimit) else a
    ensures Augmented(t)
  {
    var s, l, r := InOrder(t), InOrder(t.left), InOrder(t.right);
    forall i | 0 <= i < |s| ensures s[i].right <= t.rightLimit {
      if i < |l| {
        assert s[i] == l[i];
      } else if i > |l| {
        assert s[i] == r[i - |l| - 1];
      }
    }
    assert s[|l|] == c;
    if t.left.Node? && t.rightLimit == t.left.rightLimit {
      var i :| 0 <= i < |l| && l[i].right == t.left.rightLimit;
      assert s[i] == l[i];
    } else if t.right.Node? && t.rightLimit == t.right.rightLimit {
      var i :| 0 <= i < |r| && r[i].right == t.right.rightLimit;
      assert s[|l| + 1 + i] == r[i];
    }
  }

  /** The ranges a pruned walk visits, in its order: node, left subtree, right subtree. */
  function Visits(t: Tree, off: nat): seq<ChunkFile> {
    match t
    case Leaf => []
    case Node(c, limit, l, r) =>
      if off > limit then []
      else (if Contains(c, off) then [c] else []) + Visits(l, off) + (if off >= c.left then Visits(r, off) else [])
  }

  /** The ranges a linear scan visits. */
  function Scan(s: seq<ChunkFile>, off: nat): seq<ChunkFile> {
    if s == [] then [] else Scan(s[..|s| - 1], off) + (if Contains(s[|s| - 1], off) then [s[|s| - 1]] else [])
  }

  lemma {:induction false} ScanAppend(a: seq<ChunkFile>, b: seq<ChunkFile>, off: nat)
    ensures Scan(a + b, off) == Scan(a, off) + Scan(b, off)
  {
    if b == [] {
      assert a + b == a;
    } else {
      assert (a + b)[..|a + b| - 1] == a + b[..|b| - 1];
      ScanAppend(a, b[..|b| - 1], off);
    }
  }

  lemma {:induction false} ScanNothing(s: seq<ChunkFile>, off: nat)
    requires forall i | 0 <= i < |s| :: !Contains(s[i], off)
    ensures Scan(s, off) == []
  {
    if s != [] {
      ScanNothing(s[..|s| - 1], off);
    }
  }

  /** Pruning loses nothing and repeats nothing: the walk visits what the scan visits. */
  lemma {:induction false} VisitsAreScan(t: Tree, off: nat)
    requires Augmented(t) && Ordered(InOrder(t))
    ensures multiset(Visits(t, off)) == multiset(Scan(InOrder(t), off))
  {
    match t
    case Leaf =>
    case Node(c, limit, l, r) =>
      var a, b := InOrder(l), InOrder(r);
      if off > limit {
        ScanNothing(InOrder(t), off);
      } else {
        ScanAppend(a + [c], b, off);
        ScanAppend(a, [c], off);
        ScanOne(c, off);
        OrderedParts(a, c, b, off);
        VisitsAreScan(l, off);
        VisitsAreScan(r, off);
      }
  }

  lemma OrderedParts(a: seq<ChunkFile>, c: ChunkFile, b: seq<ChunkFile>, off: nat)
    requires Ordered(a + [c] + b)
    ensures Ordered(a) && Ordered(b)
    ensures off < c.left ==> Scan(b, off) == []
  {
    var s := a + [c] + b;
    assert forall i | 0 <= i < |a| :: s[i] == a[i];
    assert forall i | 0 <= i < |b| :: s[|a| + 1 + i] == b[i];
    assert s[|a|] == c;
    if off < c.left {
      forall i | 0 <= i < |b| ensures !Contains(b[i], off) {
        assert !KeyLess(s[|a| + 1 + i], s[|a|]);
      }
      ScanNothing(b, off);
    }
  }

  lemma ScanOne(c: ChunkFile, off: nat)
    ensures Scan([c], off) == if Contains(c, off) then [c] else []
  {
    assert [c][..0] == [];
  }
}
