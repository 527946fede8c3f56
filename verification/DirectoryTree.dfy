/**
 * The tree of a directory listing. Nodes live in an arena and a pointer is an
 * index: node 0 is the root, and node `i + 1` is entry `i` of the listing.
 */
module DirectoryTree {
  import opened Bytes
  import opened Sequences
  import opened Wrappers

  const SLASH: Byte := 47

  datatype Kind = TreeEntry | OtherEntry

  datatype Entry = Entry(path: Text, kind: Kind)

  /** The number of slashes. */
  function Depth(path: Text): nat {
    if path == [] then 0 else Depth(path[..|path| - 1]) + if path[|path| - 1] == SLASH then 1 else 0
  }

  lemma {:induction false} DepthParts(a: Text, b: Text)
    ensures Depth(a + b) == Depth(a) + Depth(b)
  {
    if b == [] {
      assert a + b == a;
    } else {
      assert (a + b)[..|a + b| - 1] == a + b[..|b| - 1];
      DepthParts(a, b[..|b| - 1]);
    }
  }

  /** `p` is below directory `d`. */
  predicate Under(d: Text, p: Text) {
    |d| < |p| && p[..|d|] == d && p[|d|] == '/' as int
  }

  /** `p` is directly below directory `d`. */
  predicate In(d: Text, p: Text) {
    Under(d, p) && Top(p[|d| + 1..])
  }

  /** `p` is in the root. */
  predicate Top(p: Text) {
    forall k | 0 <= k < |p| :: p[k] != '/' as int
  }

  lemma {:induction false} NoSlash(s: Text)
    ensures Depth(s) == 0 <==> Top(s)
  {
    if s != [] {
      NoSlash(s[..|s| - 1]);
      assert s == s[..|s| - 1] + [s[|s| - 1]];
    }
  }

  lemma DeeperUnder(d: Text, p: Text)
    requires Under(d, p)
    ensures Depth(p) >= Depth(d) + 1
    ensures In(d, p) ==> Depth(p) == Depth(d) + 1
  {
    var rest := p[|d| + 1..];
    assert p == (d + [SLASH]) + rest;
    DepthParts(d + [SLASH], rest);
    DepthParts(d, [SLASH]);
    assert [SLASH][..0] == [];
    NoSlash(rest);
  }

  // ----- The tree -----

  datatype Tree = Tree(entries: seq<Entry>, parent: seq<nat>, children: seq<seq<nat>>)

  /** Children come after their parent. */
  predicate Upward(children: seq<seq<nat>>) {
    forall k, i | 0 <= k < |children| && 0 <= i < |children[k]| :: k < children[k][i] < |children|
  }

  function Preorder(children: seq<seq<nat>>, k: nat): seq<nat>
    requires Upward(children) && k < |children|
    decreases |children| - k, |children[k]| + 1
  {
    [k] + PreorderAll(children, k, children[k])
  }

  function PreorderAll(children: seq<seq<nat>>, k: nat, cs: seq<nat>): seq<nat>
    requires Upward(children) && k < |children| && forall i | 0 <= i < |cs| :: k < cs[i] < |children|
    decreases |children| - k, |cs|
  {
    if cs == [] then []
    else
      PreorderAll(children, k, cs[..|cs| - 1]) + Preorder(children, cs[|cs| - 1])
  }

  /** The arena with one more node, the last child of `top`. */
  function Added(children: seq<seq<nat>>, top: nat): seq<seq<nat>>
    requires top < |children|
  {
    children[top := children[top] + [|children|]] + [[]]
  }

  lemma AddedUpward(children: seq<seq<nat>>, top: nat)
    requires Upward(children) && top < |children|
    ensures Upward(Added(children, top))
  {
    var c := Added(children, top);
    forall k, i | 0 <= k < |c| && 0 <= i < |c[k]| ensures k < c[k][i] < |c| {
      if k == top {
        assert i < |children[top]| ==> c[k][i] == children[top][i];
      } else if k < |children| {
        assert c[k] == children[k];
      }
    }
  }

  /** Subtrees without `top` stay what they are. */
  lemma {:induction false} Elsewhere(children: seq<seq<nat>>, top: nat, k: nat)
    requires Upward(children) && top < |children| && k < |children| && top !in Preorder(children, k)
    ensures Upward(Added(children, top)) && Preorder(Added(children, top), k) == Preorder(children, k)
    decreases |children| - k, |children[k]| + 1
  {
    AddedUpward(children, top);
    ElsewhereAll(children, top, k, children[k]);
    assert Added(children, top)[k] == children[k];
  }

  lemma {:induction false} ElsewhereAll(children: seq<seq<nat>>, top: nat, k: nat, cs: seq<nat>)
    requires Upward(children) && top < |children| && k < |children| && forall i | 0 <= i < |cs| :: k < cs[i] < |children|
    requires top !in PreorderAll(children, k, cs)
    ensures Upward(Added(children, top)) && PreorderAll(Added(children, top), k, cs) == PreorderAll(children, k, cs)
    decreases |children| - k, |cs|
  {
    AddedUpward(children, top);
    if cs != [] {
      ElsewhereAll(children, top, k, cs[..|cs| - 1]);
      Elsewhere(children, top, cs[|cs| - 1]);
    }
  }

  /** The directories from the root down to the current one, each the last child of the one before. */
  ghost predicate Spine(children: seq<seq<nat>>, parent: seq<nat>, stack: seq<nat>) {
    && stack != [] && stack[0] == 0 && |parent| == |children|
    && (forall s | 0 <= s < |stack| :: stack[s] < |children|)
    && (forall s | 0 <= s < |stack| - 1 :: parent[stack[s + 1]] == stack[s] && LastChild(children, stack[s], stack[s + 1]))
  }

  predicate LastChild(children: seq<seq<nat>>, k: nat, c: nat)
    requires k < |children|
  {
    children[k] != [] && children[k][|children[k]| - 1] == c
  }

  lemma DistinctParts(a: seq<nat>, b: seq<nat>)
    requires Distinct(a + b)
    ensures Distinct(a) && Distinct(b) && forall x | x in b :: x !in a
  {
    var s := a + b;
    assert forall i | 0 <= i < |a| :: s[i] == a[i];
    forall i, j | 0 <= i < j < |b| ensures b[i] != b[j] {
      assert s[|a| + i] == b[i] && s[|a| + j] == b[j];
    }
    forall i, j | 0 <= i < |a| && 0 <= j < |b| ensures a[i] != b[j] {
      assert s[i] != s[|a| + j];
    }
  }

  lemma PreorderOfNew(children: seq<seq<nat>>, top: nat)
    requires Upward(children) && top < |children|
    ensures Upward(Added(children, top)) && Preorder(Added(children, top), |children|) == [|children|]
  {
    AddedUpward(children, top);
    assert Added(children, top)[|children|] == [];
  }

  /** A new child comes last in its parent's subtree. */
  lemma AddedHere(children: seq<seq<nat>>, k: nat)
    requires Upward(children) && k < |children| && Distinct(Preorder(children, k))
    ensures Upward(Added(children, k)) && Preorder(Added(children, k), k) == Preorder(children, k) + [|children|]
    ensures k in Preorder(children, k)
  {
    var cs, n := children[k], |children|;
    var more := Added(children, k);
    AddedUpward(children, k);
    TopNotBelow(children, k);
    ElsewhereAll(children, k, k, cs);
    PreorderOfNew(children, k);
    assert more[k] == cs + [n] && (cs + [n])[..|cs|] == cs;
    var below := PreorderAll(children, k, cs);
    assert PreorderAll(more, k, cs + [n]) == below + [n];
    assert Preorder(children, k) == [k] + below && k in [k];
    hide PreorderAll, Added, Upward, Distinct;
  }

  /** What comes last in the last child's subtree comes last in the parent's. */
  lemma AddedBelow(children: seq<seq<nat>>, top: nat, k: nat, c: nat)
    requires Upward(children) && top < |children| && k < |children| && k != top && LastChild(children, k, c)
    requires Distinct(Preorder(children, k)) && top in Preorder(children, c)
    requires Upward(Added(children, top)) && Preorder(Added(children, top), c) == Preorder(children, c) + [|children|]
    ensures Preorder(Added(children, top), k) == Preorder(children, k) + [|children|] && top in Preorder(children, k)
  {
    hide PreorderAll, Preorder, Added, Upward, Distinct, LastChild;
    AddedElsewhere(children, top, k, c);
    PreorderSplit(children, k, c);
    PreorderSplit(Added(children, top), k, c);
    var init := children[k][..|children[k]| - 1];
    var front := PreorderAll(children, k, init);
    InLastPart(k, front, Preorder(children, c), top);
    ElsewhereAll(children, top, k, init);
    Regroup([k] + front, Preorder(children, c), [|children|]);
  }

  lemma AddedElsewhere(children: seq<seq<nat>>, top: nat, k: nat, c: nat)
    requires top < |children| && k < |children| && k != top && LastChild(children, k, c)
    ensures |Added(children, top)| > k && Added(children, top)[k] == children[k] && LastChild(Added(children, top), k, c)
  {
  }

  lemma InLastPart(k: nat, front: seq<nat>, last: seq<nat>, x: nat)
    requires Distinct([k] + front + last) && x in last
    ensures x !in front && x in [k] + front + last
  {
    DistinctParts([k] + front, last);
    assert x in front ==> x in [k] + front;
  }

  /** A subtree ends with the last child's. */
  lemma PreorderSplit(children: seq<seq<nat>>, k: nat, c: nat)
    requires Upward(children) && k < |children| && LastChild(children, k, c)
    ensures k < c < |children| && forall i | 0 <= i < |children[k]| - 1 :: k < children[k][i] < |children|
    ensures Preorder(children, k) ==
      [k] + PreorderAll(children, k, children[k][..|children[k]| - 1]) + Preorder(children, c)
  {
    Regroup([k], PreorderAll(children, k, children[k][..|children[k]| - 1]), Preorder(children, c));
  }

  lemma Regroup(a: seq<nat>, b: seq<nat>, c: seq<nat>)
    ensures a + (b + c) == a + b + c
  {
  }

  /** The last child's subtree is part of its parent's. */
  lemma DistinctBelow(children: seq<seq<nat>>, k: nat, c: nat)
    requires Upward(children) && k < |children| && LastChild(children, k, c) && Distinct(Preorder(children, k))
    ensures c < |children| && Distinct(Preorder(children, c))
  {
    PreorderSplit(children, k, c);
    DistinctParts([k] + PreorderAll(children, k, children[k][..|children[k]| - 1]), Preorder(children, c));
  }

  /** A node added under the top of the spine comes last in every subtree along the spine. */
  lemma {:induction false} AddedLast(children: seq<seq<nat>>, parent: seq<nat>, stack: seq<nat>, s: nat)
    requires Upward(children) && Spine(children, parent, stack) && s < |stack| && Distinct(Preorder(children, stack[s]))
    ensures var top := stack[|stack| - 1];
      && Upward(Added(children, top)) && Preorder(Added(children, top), stack[s]) == Preorder(children, stack[s]) + [|children|]
      && top in Preorder(children, stack[s])
    decreases |stack| - s
  {
    hide Preorder, Added, Upward, Distinct;
    if s == |stack| - 1 {
      AddedHere(children, stack[s]);
    } else {
      assert LastChild(children, stack[s], stack[s + 1]);
      DistinctBelow(children, stack[s], stack[s + 1]);
      AddedLast(children, parent, stack, s + 1);
      TopIsAbove(children, parent, stack, s);
      AddedBelow(children, stack[|stack| - 1], stack[s], stack[s + 1]);
    }
  }

  lemma TopNotBelow(children: seq<seq<nat>>, k: nat)
    requires Upward(children) && k < |children| && Distinct(Preorder(children, k))
    ensures k !in PreorderAll(children, k, children[k])
  {
    DistinctParts([k], PreorderAll(children, k, children[k]));
    assert k in [k];
  }

  lemma {:induction false} TopIsAbove(children: seq<seq<nat>>, parent: seq<nat>, stack: seq<nat>, s: nat)
    requires Upward(children) && Spine(children, parent, stack) && s < |stack| - 1
    ensures stack[s] < stack[|stack| - 1]
    decreases |stack| - s
  {
    assert LastChild(children, stack[s], stack[s + 1]);
    if s + 1 < |stack| - 1 {
      TopIsAbove(children, parent, stack, s + 1);
    }
  }

  // ----- Building it -----

  /** What holds between entries, for any listing. */
  ghost predicate Building(t: Tree, stack: seq<nat>, currDir: nat, prevDepth: nat) {
    && Upward(t.children) && |t.children| == |t.entries| + 1 && Spine(t.children, t.parent, stack)
    && |stack| == prevDepth + 1 && currDir == stack[prevDepth]
    && Preorder(t.children, 0) == Numbers(|t.children|)
  }

  /** Below directory `j` from there on. */
  predicate Open(entries: seq<Entry>, j: nat, i: nat) {
    j < i <= |entries| && entries[j].kind.TreeEntry? && forall m | j < m < i :: Under(entries[j].path, entries[m].path)
  }

  /** `j` is the directory that entry `i` is in, listed before it with nothing but its own entries between. */
  predicate Owner(entries: seq<Entry>, j: nat, i: nat) {
    j < i < |entries| && Open(entries, j, i) && In(entries[j].path, entries[i].path)
  }

  /** A listing in preorder: entries below the top have their directory listed. */
  ghost predicate InPreorder(entries: seq<Entry>) {
    forall i | 0 <= i < |entries| :: Top(entries[i].path) || exists j: nat :: Owner(entries, j, i)
  }

  /** Open directories are on the stack, as deep as their paths are. */
  ghost predicate OpenOnStack(entries: seq<Entry>, stack: seq<nat>) {
    forall j: nat | Open(entries, j, |entries|) ::
      Depth(entries[j].path) + 1 < |stack| && stack[Depth(entries[j].path) + 1] == j + 1
  }

  /** Entry `i` hangs under the root or under its own directory. */
  ghost predicate HangsRight(t: Tree, i: nat) {
    && i < |t.entries| && i + 1 < |t.parent|
    && (Top(t.entries[i].path) ==> t.parent[i + 1] == 0)
    && (!Top(t.entries[i].path) ==>
      exists j: nat :: Owner(t.entries, j, i) && t.parent[i + 1] == j + 1)
  }

  ghost predicate AllHangRight(t: Tree) {
    |t.parent| == |t.entries| + 1 && forall i | 0 <= i < |t.entries| :: HangsRight(t, i)
  }

  /** Every node is the child of its parent. */
  ghost predicate Linked(t: Tree) {
    && |t.parent| == |t.children|
    && forall k | 0 < k < |t.parent| :: t.parent[k] < k && k in t.children[t.parent[k]]
  }

  function NewTree(t: Tree, e: Entry, top: nat): Tree
    requires top < |t.children|
  {
    Tree(t.entries + [e], t.parent + [top], Added(t.children, top))
  }

  lemma StackPop(t: Tree, stack: seq<nat>, currDir: nat, prevDepth: nat)
    requires Building(t, stack, currDir, prevDepth) && prevDepth > 0
    ensures currDir < |t.parent| && Building(t, stack[..prevDepth], t.parent[currDir], prevDepth - 1)
  {
    assert stack[prevDepth] == stack[prevDepth - 1 + 1];
  }

  lemma NodeAdded(t: Tree, stack: seq<nat>, currDir: nat, prevDepth: nat, e: Entry)
    requires Building(t, stack, currDir, prevDepth) && Linked(t)
    ensures var t' := NewTree(t, e, currDir);
      && Building(t', stack, currDir, prevDepth) && Linked(t')
      && Building(t', stack + [|t.children|], |t.children|, prevDepth + 1)
  {
    var t' := NewTree(t, e, currDir);
    AddedUpward(t.children, currDir);
    AddedLast(t.children, t.parent, stack, 0);
    forall s | 0 <= s < |stack| - 1 ensures stack[s] != currDir && LastChild(t'.children, stack[s], stack[s + 1]) {
      TopIsAbove(t.children, t.parent, stack, s);
      assert LastChild(t.children, stack[s], stack[s + 1]);
    }
    forall k | 0 < k < |t'.parent| ensures t'.parent[k] < k && k in t'.children[t'.parent[k]] {
      StillChild(t, currDir, k);
    }
    assert LastChild(t'.children, currDir, |t.children|);
    assert Numbers(|t.children| + 1) == Numbers(|t.children|) + [|t.children|];
  }

  lemma StillChild(t: Tree, top: nat, k: nat)
    requires Linked(t) && top < |t.children| && 0 < k <= |t.children|
    ensures var c, p := Added(t.children, top), (t.parent + [top])[k]; p < k && k in c[p]
  {
    var c := Added(t.children, top);
    assert c[top] == t.children[top] + [|t.children|];
    assert c[top][|t.children[top]|] == |t.children|;
    if k < |t.children| && t.parent[k] == top {
      var i :| 0 <= i < |t.children[top]| && t.children[top][i] == k;
      assert c[top][i] == k;
    }
  }

  /** After popping, the stack is as deep as the entry's path, and what stays open is still on it. */
  lemma OpenPopped(entries: seq<Entry>, stack: seq<nat>, e: Entry, depth: nat)
    requires OpenOnStack(entries, stack) && depth == Depth(e.path) && stack != []
    ensures var left := if |stack| > depth + 1 then stack[..depth + 1] else stack;
      forall j: nat | Open(entries + [e], j, |entries| + 1) && j < |entries| ::
        Depth(entries[j].path) + 1 < |left| && left[Depth(entries[j].path) + 1] == j + 1
  {
    var all := entries + [e];
    forall j: nat | Open(all, j, |entries| + 1) && j < |entries|
      ensures Open(entries, j, |entries|) && Depth(entries[j].path) + 1 <= depth
    {
      assert all[|entries|] == e && all[j] == entries[j];
      assert Under(all[j].path, all[|entries|].path);
      DeeperUnder(entries[j].path, e.path);
      forall m | j < m < |entries| ensures Under(entries[j].path, entries[m].path) {
        assert all[m] == entries[m];
      }
    }
  }

  /** In a preorder listing, the top of the popped stack is the entry's directory. */
  lemma TopOwns(all: seq<Entry>, i: nat, stack: seq<nat>)
    requires i < |all| && OpenOnStack(all[..i], stack) && stack != [] && stack[0] == 0
    requires Top(all[i].path) || exists j: nat :: Owner(all, j, i)
    ensures var depth := Depth(all[i].path);
      && |stack| > depth
      && (depth == 0 ==> stack[depth] == 0)
      && (depth > 0 ==> exists j: nat :: Owner(all, j, i) && stack[depth] == j + 1)
  {
    NoSlash(all[i].path);
    if !Top(all[i].path) {
      var j: nat :| Owner(all, j, i);
      DeeperUnder(all[j].path, all[i].path);
      assert Open(all[..i], j, i) by {
        forall m | j < m < i ensures Under(all[..i][j].path, all[..i][m].path) {
          assert all[..i][m] == all[m];
        }
      }
    }
  }

  /** After an entry: what is still open is on the new stack. */
  lemma StillOpen(entries: seq<Entry>, stack: seq<nat>, e: Entry, left: seq<nat>, stack': seq<nat>)
    requires OpenOnStack(entries, stack) && stack != []
    requires left == if |stack| > Depth(e.path) + 1 then stack[..Depth(e.path) + 1] else stack
    requires stack' == if e.kind.TreeEntry? then left + [|entries| + 1] else left
    requires e.kind.TreeEntry? ==> |left| == Depth(e.path) + 1
    ensures OpenOnStack(entries + [e], stack')
  {
    OpenPopped(entries, stack, e, Depth(e.path));
    var all := entries + [e];
    forall j: nat | Open(all, j, |all|)
      ensures Depth(all[j].path) + 1 < |stack'| && stack'[Depth(all[j].path) + 1] == j + 1
    {
      if j < |entries| {
        assert all[j] == entries[j];
      } else {
        assert all[j] == e;
      }
    }
  }

  lemma HungRight(t: Tree, e: Entry, top: nat, all: seq<Entry>)
    requires AllHangRight(t) && top < |t.children| && |t.entries| < |all| && all[..|t.entries| + 1] == t.entries + [e]
    requires Top(e.path) ==> top == 0
    requires !Top(e.path) ==> exists j: nat :: Owner(all, j, |t.entries|) && top == j + 1
    ensures AllHangRight(NewTree(t, e, top))
  {
    var t', n := NewTree(t, e, top), |t.entries|;
    forall i | 0 <= i < |t'.entries| ensures HangsRight(t', i) {
      if i < n {
        assert HangsRight(t, i) && t'.entries[i] == t.entries[i];
        if !Top(t.entries[i].path) {
          var j: nat :| Owner(t.entries, j, i) && t.parent[i + 1] == j + 1;
          OwnerLater(t.entries, t'.entries, j, i);
        }
      } else if !Top(e.path) {
        var j: nat :| Owner(all, j, n) && top == j + 1;
        OwnerEarlier(all, t'.entries, j, n);
      }
    }
  }

  lemma OwnerLater(few: seq<Entry>, all: seq<Entry>, j: nat, i: nat)
    requires Owner(few, j, i) && few <= all
    ensures Owner(all, j, i)
  {
    forall m | 0 <= m <= i ensures few[m] == all[m] {
    }
  }

  lemma OwnerEarlier(all: seq<Entry>, few: seq<Entry>, j: nat, i: nat)
    requires Owner(all, j, i) && few <= all && i < |few|
    ensures Owner(few, j, i)
  {
    forall m | 0 <= m <= i ensures few[m] == all[m] {
    }
  }

  /** Everything that holds between entries. */
  ghost predicate Listed(t: Tree, all: seq<Entry>, i: nat, stack: seq<nat>, currDir: nat, prevDepth: nat) {
    && i <= |all| && t.entries == all[..i] && Building(t, stack, currDir, prevDepth) && Linked(t)
    && (InPreorder(all) ==> AllHangRight(t) && OpenOnStack(t.entries, stack))
  }

  lemma NothingListed(all: seq<Entry>)
    ensures Listed(Tree([], [0], [[]]), all, 0, [0], 0, 0)
  {
    var t := Tree([], [0], [[]]);
    assert t.children[0] == [];
    assert Preorder(t.children, 0) == [0] == Numbers(1);
  }

  /** One entry, once the current directory has been popped to its depth. */
  lemma OneListed(t: Tree, all: seq<Entry>, i: nat, stack: seq<nat>, top: nat, depth: nat, left: seq<nat>)
    requires i < |all| && t.entries == all[..i] && Linked(t)
    requires stack != [] && stack[0] == 0
    requires left == (if |stack| > Depth(all[i].path) + 1 then stack[..Depth(all[i].path) + 1] else stack)
    requires Building(t, left, top, depth)
    requires InPreorder(all) ==> AllHangRight(t) && OpenOnStack(t.entries, stack)
    ensures var t', e := NewTree(t, all[i], top), all[i];
      if e.kind.TreeEntry? then Listed(t', all, i + 1, left + [i + 1], i + 1, depth + 1)
      else Listed(t', all, i + 1, left, top, depth)
  {
    NodeAdded(t, left, top, depth, all[i]);
    assert all[..i + 1] == all[..i] + [all[i]];
    if InPreorder(all) {
      BuildingTop(t, left, top, depth);
      OneHangs(t, all, i, stack, top, left);
    }
    hide InPreorder, AllHangRight, OpenOnStack;
  }

  lemma BuildingTop(t: Tree, stack: seq<nat>, currDir: nat, prevDepth: nat)
    requires Building(t, stack, currDir, prevDepth)
    ensures |t.children| == |t.entries| + 1 && currDir < |t.children| && stack != [] && stack[|stack| - 1] == currDir
  {
  }

  /** In a listing in preorder the entry hangs under its own directory. */
  lemma OneHangs(t: Tree, all: seq<Entry>, i: nat, stack: seq<nat>, top: nat, left: seq<nat>)
    requires i < |all| && t.entries == all[..i] && top < |t.children| && InPreorder(all)
    requires stack != [] && stack[0] == 0 && left != [] && left[|left| - 1] == top
    requires left == (if |stack| > Depth(all[i].path) + 1 then stack[..Depth(all[i].path) + 1] else stack)
    requires AllHangRight(t) && OpenOnStack(t.entries, stack)
    ensures AllHangRight(NewTree(t, all[i], top))
    ensures OpenOnStack(t.entries + [all[i]], if all[i].kind.TreeEntry? then left + [i + 1] else left)
  {
    hide Depth, Top, Owner;
    var e := all[i];
    assert all[..i + 1] == all[..i] + [e];
    assert Top(e.path) || exists j: nat :: Owner(all, j, i);
    TopOwns(all, i, stack);
    NoSlash(e.path);
    hide AllHangRight, OpenOnStack;
    HungRight(t, e, top, all);
    StillOpen(t.entries, stack, e, left, if e.kind.TreeEntry? then left + [i + 1] else left);
  }

  /**
   * `buildDirectoryTree`: fails at the first line that is no entry. Reading the
   * tree in preorder gives the listing back, whatever it is; and the entries of
   * a listing in preorder hang under their own directories. Popping never goes
   * above the root.
   */
  method BuildDirectoryTree(lines: seq<Option<Entry>>, ghost all: seq<Entry>) returns (r: Option<Tree>)
    requires |all| == |lines| && forall i | 0 <= i < |lines| && lines[i].Some? :: all[i] == lines[i].value
    ensures r.None? <==> None in lines
    ensures r.Some? ==>
      && r.value.entries == all && Linked(r.value) && Upward(r.value.children) && |r.value.children| == |all| + 1
      && Preorder(r.value.children, 0) == Numbers(|all| + 1)
      && (InPreorder(all) ==> AllHangRight(r.value))
  {
    hide Building, Linked, InPreorder, AllHangRight, OpenOnStack, Listed, Preorder, Upward;
    var t := Tree([], [0], [[]]);
    var currDir: nat, prevDepth: nat := 0, 0;
    ghost var stack: seq<nat> := [0];
    NothingListed(all);
    for i := 0 to |lines|
      invariant Listed(t, all, i, stack, currDir, prevDepth) && None !in lines[..i]
    {
      if lines[i].None? {
        return None;
      }
      var e := lines[i].value;
      var pathDepth := Depth(e.path);
      ListedFacts(t, all, i, stack, currDir, prevDepth);
      ghost var before := stack;
      while prevDepth > pathDepth
        invariant currDir < |t.parent| && Building(t, stack, currDir, prevDepth)
        invariant stack == if |before| > prevDepth + 1 then before[..prevDepth + 1] else before
        invariant if |before| > pathDepth + 1 then prevDepth >= pathDepth else stack == before
        invariant |stack| == prevDepth + 1
      {
        StackPop(t, stack, currDir, prevDepth);
        currDir := t.parent[currDir];
        prevDepth := prevDepth - 1;
        stack := stack[..prevDepth + 1];
        BuildingFacts(t, stack, currDir, prevDepth);
      }
      OneListed(t, all, i, before, currDir, prevDepth, stack);
      BuildingFacts(t, stack, currDir, prevDepth);
      t := NewTree(t, e, currDir);
      if e.kind.TreeEntry? {
        currDir := i + 1;
        prevDepth := prevDepth + 1;
        stack := stack + [i + 1];
      }
    }
    assert lines[..|lines|] == lines;
    Finished(t, all, stack, currDir, prevDepth);
    r := Some(t);
  }

  lemma BuildingFacts(t: Tree, stack: seq<nat>, currDir: nat, prevDepth: nat)
    requires Building(t, stack, currDir, prevDepth)
    ensures currDir < |t.parent| == |t.children| && |stack| == prevDepth + 1 && stack[0] == 0
  {
  }

  lemma ListedFacts(t: Tree, all: seq<Entry>, i: nat, stack: seq<nat>, currDir: nat, prevDepth: nat)
    requires Listed(t, all, i, stack, currDir, prevDepth)
    ensures t.entries == all[..i] && Building(t, stack, currDir, prevDepth) && Linked(t)
    ensures currDir < |t.parent| && |stack| == prevDepth + 1 && stack[0] == 0
    ensures InPreorder(all) ==> AllHangRight(t) && OpenOnStack(t.entries, stack)
  {
  }

  lemma Finished(t: Tree, all: seq<Entry>, stack: seq<nat>, currDir: nat, prevDepth: nat)
    requires Listed(t, all, |all|, stack, currDir, prevDepth)
    ensures t.entries == all && Linked(t) && Upward(t.children) && |t.children| == |all| + 1
    ensures Preorder(t.children, 0) == Numbers(|all| + 1) && (InPreorder(all) ==> AllHangRight(t))
  {
  }
}
