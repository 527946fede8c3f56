/**
 * The value a query plan denotes: a trie over byte ranges.
 *
 * `Tail` is the null successor of an edge; a node without edges is the plan
 * that knows nothing and therefore accepts everything from there on.
 */
module Plans {
  import opened Bytes
  import opened Wrappers

  /** An edge for the bytes `lo` through `hi`, inclusive on both sides. */
  datatype Edge<+T> = Edge(lo: Byte, hi: Byte, next: T)

  datatype Plan = Tail | Node(edges: seq<Edge<Plan>>)

  predicate Covers<T>(e: Edge<T>, c: Byte) {
    e.lo <= c <= e.hi
  }

  /** The suffix walk started in `p` accepts some prefix of `s`. */
  predicate Walk(p: Plan, s: seq<Byte>)
    decreases |s|
  {
    || p.Tail?
    || p.edges == []
    || (s != [] && exists i | 0 <= i < |p.edges| :: Covers(p.edges[i], s[0]) && Walk(p.edges[i].next, s[1..]))
  }

  /** `t` spells one path from the root of `p` to a null successor. */
  predicate Path(p: Plan, t: seq<Byte>)
    decreases |t|
  {
    match p
    case Tail => t == []
    case Node(edges) =>
      t != [] && exists i | 0 <= i < |edges| :: Covers(edges[i], t[0]) && Path(edges[i].next, t[1..])
  }

  /** No node of `p` is empty: every maximal walk ends at a null successor. */
  predicate Proper(p: Plan)
    decreases p
  {
    match p
    case Tail => true
    case Node(edges) => edges != [] && forall i | 0 <= i < |edges| :: Proper(edges[i].next)
  }

  /** The edges are non-empty ranges, in increasing order and pairwise disjoint. */
  predicate Sorted<T>(edges: seq<Edge<T>>) {
    && (forall i | 0 <= i < |edges| :: edges[i].lo <= edges[i].hi)
    && (forall i, j | 0 <= i < j < |edges| :: edges[i].hi < edges[j].lo)
  }

  /** What the suffix walk needs of an edge: `hi + 1` is a byte, and no newline. */
  predicate Walkable<T>(e: Edge<T>) {
    e.hi < 255 && !Covers(e, NEWLINE)
  }

  /** The representation invariant of a plan, at every node. */
  predicate WellFormed(p: Plan)
    decreases p
  {
    match p
    case Tail => true
    case Node(edges) =>
      Sorted(edges) && forall i | 0 <= i < |edges| :: Walkable(edges[i]) && WellFormed(edges[i].next)
  }

  /** The successor for byte `c`; with sorted edges there is at most one. */
  function At<T>(edges: seq<Edge<T>>, c: Byte): (r: Option<T>)
    ensures r.Some? ==> exists i | 0 <= i < |edges| :: Covers(edges[i], c) && edges[i].next == r.value
    ensures r.None? ==> forall i | 0 <= i < |edges| :: !Covers(edges[i], c)
  {
    if edges == [] then None
    else if Covers(edges[0], c) then Some(edges[0].next)
    else
      var r := At(edges[1..], c);
      assert r.Some? ==> exists i | 0 <= i < |edges[1..]| :: Covers(edges[1..][i], c) && edges[1..][i].next == r.value;
      assert forall i | 1 <= i < |edges| :: edges[i] == edges[1..][i - 1];
      r
  }

  lemma AtEdge<T>(edges: seq<Edge<T>>, i: nat, c: Byte)
    requires Sorted(edges) && i < |edges| && Covers(edges[i], c)
    ensures At(edges, c) == Some(edges[i].next)
  {
    var r := At(edges, c);
    var j :| 0 <= j < |edges| && Covers(edges[j], c) && edges[j].next == r.value;
  }

  lemma WalkAt(edges: seq<Edge<Plan>>, s: seq<Byte>)
    requires Sorted(edges) && edges != []
    ensures Walk(Node(edges), s) <==>
      s != [] && At(edges, s[0]).Some? && Walk(At(edges, s[0]).value, s[1..])
  {
    if s != [] {
      if i :| 0 <= i < |edges| && Covers(edges[i], s[0]) {
        AtEdge(edges, i, s[0]);
      }
    }
  }

  lemma PathAt(edges: seq<Edge<Plan>>, t: seq<Byte>)
    requires Sorted(edges)
    ensures Path(Node(edges), t) <==>
      t != [] && At(edges, t[0]).Some? && Path(At(edges, t[0]).value, t[1..])
  {
    if t != [] {
      if i :| 0 <= i < |edges| && Covers(edges[i], t[0]) {
        AtEdge(edges, i, t[0]);
      }
    }
  }

  /** More text to the right never makes the walk fail. */
  lemma {:induction false} WalkExtends(p: Plan, s: seq<Byte>, t: seq<Byte>)
    requires Walk(p, s)
    ensures Walk(p, s + t)
    decreases |s|
  {
    if p.Node? && p.edges != [] {
      var i :| 0 <= i < |p.edges| && Covers(p.edges[i], s[0]) && Walk(p.edges[i].next, s[1..]);
      WalkExtends(p.edges[i].next, s[1..], t);
      assert (s + t)[1..] == s[1..] + t;
    }
  }

  lemma {:induction false} PathWalks(p: Plan, t: seq<Byte>)
    requires Path(p, t)
    ensures Walk(p, t)
    decreases |t|
  {
    if p.Node? {
      var i :| 0 <= i < |p.edges| && Covers(p.edges[i], t[0]) && Path(p.edges[i].next, t[1..]);
      PathWalks(p.edges[i].next, t[1..]);
    }
  }

  /** In a proper plan the walk accepts `s` exactly when a path is a prefix of `s`. */
  lemma {:induction false} WalkIsPathPrefix(p: Plan, s: seq<Byte>)
    requires Proper(p)
    ensures Walk(p, s) <==> exists k | 0 <= k <= |s| :: Path(p, s[..k])
    decreases |s|
  {
    if p.Tail? {
      assert Path(p, s[..0]);
    } else if Walk(p, s) {
      var i :| 0 <= i < |p.edges| && Covers(p.edges[i], s[0]) && Walk(p.edges[i].next, s[1..]);
      WalkIsPathPrefix(p.edges[i].next, s[1..]);
      var k :| 0 <= k <= |s[1..]| && Path(p.edges[i].next, s[1..][..k]);
      assert s[..k + 1][1..] == s[1..][..k];
      assert Path(p, s[..k + 1]);
    } else if k :| 0 <= k <= |s| && Path(p, s[..k]) {
      assert s == s[..k] + s[k..];
      PathWalks(p, s[..k]);
      WalkExtends(p, s[..k], s[k..]);
    }
  }

  // ----- Depth -----

  function Depth(t: Plan): nat
    decreases t, 2
  {
    match t
    case Tail => 0
    case Node(edges) => 1 + DepthBelow(t, |edges|)
  }

  /** The greatest depth below the first `k` edges. */
  function DepthBelow(t: Plan, k: nat): nat
    requires t.Node? && k <= |t.edges|
    decreases t, 1, k
  {
    if k == 0 then 0
    else
      var d, e := Depth(t.edges[k - 1].next), DepthBelow(t, k - 1);
      if d >= e then d else e
  }

  lemma {:induction false} DepthBound(t: Plan, k: nat, i: nat)
    requires t.Node? && i < k <= |t.edges|
    ensures Depth(t.edges[i].next) <= DepthBelow(t, k)
    decreases k
  {
    if i < k - 1 {
      DepthBound(t, k - 1, i);
    }
  }

  lemma {:induction false} PathNoLongerThanDepth(t: Plan, w: seq<Byte>)
    requires Path(t, w)
    ensures |w| <= Depth(t)
    decreases |w|
  {
    match t
    case Tail =>
    case Node(edges) =>
      var i :| 0 <= i < |edges| && Covers(edges[i], w[0]) && Path(edges[i].next, w[1..]);
      PathNoLongerThanDepth(edges[i].next, w[1..]);
      DepthBound(t, |edges|, i);
  }

  // ----- Concatenation: every null successor is replaced -----

  function Subst(p: Plan, r: Plan): Plan
    decreases p
  {
    match p
    case Tail => r
    case Node(edges) =>
      Node(seq(|edges|, i requires 0 <= i < |edges| => edges[i].(next := Subst(edges[i].next, r))))
  }

  lemma {:induction false} SubstWalk(p: Plan, r: Plan, u: seq<Byte>, v: seq<Byte>)
    requires Path(p, u) && Walk(r, v)
    ensures Walk(Subst(p, r), u + v)
    decreases |u|
  {
    match p
    case Tail =>
      assert u + v == v;
    case Node(edges) =>
      var i :| 0 <= i < |edges| && Covers(edges[i], u[0]) && Path(edges[i].next, u[1..]);
      SubstWalk(edges[i].next, r, u[1..], v);
      assert (u + v)[1..] == u[1..] + v;
      assert Covers(Subst(p, r).edges[i], (u + v)[0]);
  }

  lemma {:induction false} SubstPath(p: Plan, r: Plan, u: seq<Byte>, v: seq<Byte>)
    requires Path(p, u) && Path(r, v)
    ensures Path(Subst(p, r), u + v)
    decreases |u|
  {
    match p
    case Tail =>
      assert u + v == v;
    case Node(edges) =>
      var i :| 0 <= i < |edges| && Covers(edges[i], u[0]) && Path(edges[i].next, u[1..]);
      SubstPath(edges[i].next, r, u[1..], v);
      assert (u + v)[1..] == u[1..] + v;
      assert Covers(Subst(p, r).edges[i], (u + v)[0]);
  }

  lemma {:induction false} SubstPathSplits(p: Plan, r: Plan, t: seq<Byte>) returns (k: nat)
    requires Path(Subst(p, r), t)
    ensures k <= |t| && Path(p, t[..k]) && Path(r, t[k..])
    decreases p
  {
    match p
    case Tail =>
      k := 0;
    case Node(edges) =>
      var es := Subst(p, r).edges;
      var i :| 0 <= i < |es| && Covers(es[i], t[0]) && Path(es[i].next, t[1..]);
      k := SubstPathSplits(edges[i].next, r, t[1..]);
      assert t[..k + 1][1..] == t[1..][..k] && t[k + 1..] == t[1..][k..];
      assert Covers(edges[i], t[..k + 1][0]);
      k := k + 1;
  }

  /** The paths of a concatenation are exactly the concatenations of the paths. */
  lemma SubstPaths(p: Plan, r: Plan, t: seq<Byte>)
    ensures Path(Subst(p, r), t) <==> exists k | 0 <= k <= |t| :: Path(p, t[..k]) && Path(r, t[k..])
  {
    if Path(Subst(p, r), t) {
      var k := SubstPathSplits(p, r, t);
    }
    if k :| 0 <= k <= |t| && Path(p, t[..k]) && Path(r, t[k..]) {
      assert t == t[..k] + t[k..];
      SubstPath(p, r, t[..k], t[k..]);
    }
  }

  lemma {:induction false} SubstWellFormed(p: Plan, r: Plan)
    requires WellFormed(p) && WellFormed(r)
    ensures WellFormed(Subst(p, r))
    ensures Proper(p) && Proper(r) ==> Proper(Subst(p, r))
    decreases p
  {
    match p
    case Tail =>
    case Node(edges) =>
      forall i | 0 <= i < |edges|
        ensures WellFormed(Subst(edges[i].next, r))
        ensures Proper(p) && Proper(r) ==> Proper(Subst(edges[i].next, r))
      {
        SubstWellFormed(edges[i].next, r);
      }
  }

  // ----- Alternation -----

  /**
   * `o` may stand for "l or r": it accepts whatever either accepts, and when it
   * contains no give-up node its paths are exactly those of `l` and `r`.
   */
  ghost predicate Alternates(l: Plan, r: Plan, o: Plan) {
    && WellFormed(o)
    && (forall s | Walk(l, s) || Walk(r, s) :: Walk(o, s))
    && (Proper(o) ==>
      && Proper(l) && Proper(r)
      && (forall t :: Path(o, t) <==> Path(l, t) || Path(r, t)))
  }

  /** What the merged node must do for one byte. */
  ghost predicate Combines(l: Option<Plan>, r: Option<Plan>, o: Option<Plan>) {
    if l.None? then o == r
    else if r.None? then o == l
    else o.Some? && Alternates(l.value, r.value, o.value)
  }

  lemma GiveUpAlternates(l: Plan, r: Plan)
    ensures Alternates(l, r, Node([]))
  {
  }

  /** `os` merges `ls` and `rs` byte by byte. */
  ghost predicate Merged(ls: seq<Edge<Plan>>, rs: seq<Edge<Plan>>, os: seq<Edge<Plan>>) {
    forall c: Byte :: Combines(At(ls, c), At(rs, c), At(os, c))
  }

  /** Merging byte by byte is alternation of the whole nodes. */
  lemma MergedAlternates(ls: seq<Edge<Plan>>, rs: seq<Edge<Plan>>, os: seq<Edge<Plan>>)
    requires WellFormed(Node(ls)) && WellFormed(Node(rs)) && WellFormed(Node(os))
    requires ls != [] && rs != [] && Merged(ls, rs, os)
    ensures os != [] && Alternates(Node(ls), Node(rs), Node(os))
  {
    AtEdge(ls, 0, ls[0].lo);
    assert Combines(At(ls, ls[0].lo), At(rs, ls[0].lo), At(os, ls[0].lo));
    forall s | Walk(Node(ls), s) || Walk(Node(rs), s)
      ensures Walk(Node(os), s)
    {
      MergedWalks(ls, rs, os, s);
    }
    if Proper(Node(os)) {
      MergedProper(ls, rs, os);
      MergedProper(rs, ls, os);
      forall t
        ensures Path(Node(os), t) <==> Path(Node(ls), t) || Path(Node(rs), t)
      {
        MergedPaths(ls, rs, os, t);
      }
    }
  }

  lemma MergedWalks(ls: seq<Edge<Plan>>, rs: seq<Edge<Plan>>, os: seq<Edge<Plan>>, s: seq<Byte>)
    requires Sorted(ls) && Sorted(rs) && Sorted(os)
    requires ls != [] && rs != [] && os != [] && Merged(ls, rs, os)
    requires Walk(Node(ls), s) || Walk(Node(rs), s)
    ensures Walk(Node(os), s)
  {
    WalkAt(ls, s);
    WalkAt(rs, s);
    WalkAt(os, s);
    assert Combines(At(ls, s[0]), At(rs, s[0]), At(os, s[0]));
  }

  lemma MergedPaths(ls: seq<Edge<Plan>>, rs: seq<Edge<Plan>>, os: seq<Edge<Plan>>, t: seq<Byte>)
    requires Sorted(ls) && Sorted(rs) && Sorted(os)
    requires Proper(Node(os)) && Merged(ls, rs, os)
    ensures Path(Node(os), t) <==> Path(Node(ls), t) || Path(Node(rs), t)
  {
    PathAt(ls, t);
    PathAt(rs, t);
    PathAt(os, t);
    if t != [] {
      assert Combines(At(ls, t[0]), At(rs, t[0]), At(os, t[0]));
    }
  }

  lemma MergedProper(ls: seq<Edge<Plan>>, rs: seq<Edge<Plan>>, os: seq<Edge<Plan>>)
    requires Sorted(ls) && Sorted(os) && ls != []
    requires Proper(Node(os))
    requires forall c: Byte :: Combines(At(ls, c), At(rs, c), At(os, c)) || Combines(At(rs, c), At(ls, c), At(os, c))
    ensures Proper(Node(ls))
  {
    forall i | 0 <= i < |ls|
      ensures Proper(ls[i].next)
    {
      var c := ls[i].lo;
      AtEdge(ls, i, c);
      assert Combines(At(ls, c), At(rs, c), At(os, c)) || Combines(At(rs, c), At(ls, c), At(os, c));
      assert At(os, c).Some?;
    }
  }

  // ----- The state of a merge: what is written, and what is left of each side -----

  /**
   * `os` is the merge of what has been consumed of `ls` and `rs`; `lrem` and
   * `rrem` are the edges still to come, the first one possibly cut at the left.
   */
  ghost predicate Merging(ls: seq<Edge<Plan>>, rs: seq<Edge<Plan>>, os: seq<Edge<Plan>>,
                          lrem: seq<Edge<Plan>>, rrem: seq<Edge<Plan>>) {
    && WellFormed(Node(os)) && WellFormed(Node(lrem)) && WellFormed(Node(rrem))
    && Before(os, lrem) && Before(os, rrem)
    && (forall c: Byte :: if At(os, c).None?
          then At(lrem, c) == At(ls, c) && At(rrem, c) == At(rs, c)
          else Combines(At(ls, c), At(rs, c), At(os, c)))
  }

  predicate Before<T>(os: seq<Edge<T>>, es: seq<Edge<T>>) {
    forall i, j | 0 <= i < |os| && 0 <= j < |es| :: os[i].hi < es[j].lo
  }

  /** What is left of `es` once the bytes up to `cut` of its first edge are gone. */
  function Trim<T>(es: seq<Edge<T>>, cut: Byte): seq<Edge<T>>
    requires es != [] && cut <= es[0].hi
  {
    if cut == es[0].hi then es[1..] else [es[0].(lo := cut + 1)] + es[1..]
  }

  lemma TrimAt<T>(es: seq<Edge<T>>, cut: Byte, c: Byte)
    requires Sorted(es) && es != [] && es[0].lo <= cut <= es[0].hi
    ensures Sorted(Trim(es, cut))
    ensures At(Trim(es, cut), c) == if c <= cut then None else At(es, c)
  {
    var r := Trim(es, cut);
    assert Sorted(r);
    assert forall i | 0 <= i < |r| :: cut < r[i].lo;
    if cut < c && At(es, c).Some? {
      var i :| 0 <= i < |es| && Covers(es[i], c) && es[i].next == At(es, c).value;
      var j := if cut == es[0].hi then i - 1 else i;
      assert Covers(r[j], c) && r[j].next == es[i].next;
      AtEdge(r, j, c);
    }
  }

  lemma AppendAt<T>(os: seq<Edge<T>>, e: Edge<T>, c: Byte)
    requires Sorted(os + [e])
    ensures At(os + [e], c) == if Covers(e, c) then Some(e.next) else At(os, c)
  {
    var r := os + [e];
    if Covers(e, c) {
      AtEdge(r, |os|, c);
    } else if At(os, c).Some? {
      var i :| 0 <= i < |os| && Covers(os[i], c) && os[i].next == At(os, c).value;
      assert r[i] == os[i];
      AtEdge(r, i, c);
    } else {
      assert forall i | 0 <= i < |r| :: !Covers(r[i], c);
    }
  }

  /** Below every edge there is nothing. */
  lemma AtBelow<T>(es: seq<Edge<T>>, c: Byte)
    requires Sorted(es) && (es != [] ==> c < es[0].lo)
    ensures At(es, c) == None
  {
    if i :| 0 <= i < |es| && Covers(es[i], c) {
      assert 0 < i ==> es[0].hi < es[i].lo;
    }
  }

  /** Move the first bytes of the left side, up to `cut`, to the output. */
  lemma TakeLeft(ls: seq<Edge<Plan>>, rs: seq<Edge<Plan>>, os: seq<Edge<Plan>>,
                 lrem: seq<Edge<Plan>>, rrem: seq<Edge<Plan>>, cut: Byte)
    requires Merging(ls, rs, os, lrem, rrem)
    requires lrem != [] && lrem[0].lo <= cut <= lrem[0].hi && (rrem != [] ==> cut < rrem[0].lo)
    ensures Merging(ls, rs, os + [lrem[0].(hi := cut)], Trim(lrem, cut), rrem)
  {
    var e := lrem[0].(hi := cut);
    TakenWellFormed(os, e, lrem, rrem, cut);
    forall c: Byte
      ensures if At(os + [e], c).None?
        then At(Trim(lrem, cut), c) == At(ls, c) && At(rrem, c) == At(rs, c)
        else Combines(At(ls, c), At(rs, c), At(os + [e], c))
    {
      AppendAt(os, e, c);
      TrimAt(lrem, cut, c);
      if Covers(e, c) {
        AtEdge(lrem, 0, c);
        AtBelow(rrem, c);
        NotYet(os, lrem, c);
      } else if c <= cut {
        AtBelow(lrem, c);
      }
    }
  }

  lemma TakeRight(ls: seq<Edge<Plan>>, rs: seq<Edge<Plan>>, os: seq<Edge<Plan>>,
                  lrem: seq<Edge<Plan>>, rrem: seq<Edge<Plan>>, cut: Byte)
    requires Merging(ls, rs, os, lrem, rrem)
    requires rrem != [] && rrem[0].lo <= cut <= rrem[0].hi && (lrem != [] ==> cut < lrem[0].lo)
    ensures Merging(ls, rs, os + [rrem[0].(hi := cut)], lrem, Trim(rrem, cut))
  {
    var e := rrem[0].(hi := cut);
    TakenWellFormed(os, e, rrem, lrem, cut);
    forall c: Byte
      ensures if At(os + [e], c).None?
        then At(lrem, c) == At(ls, c) && At(Trim(rrem, cut), c) == At(rs, c)
        else Combines(At(ls, c), At(rs, c), At(os + [e], c))
    {
      AppendAt(os, e, c);
      TrimAt(rrem, cut, c);
      if Covers(e, c) {
        AtEdge(rrem, 0, c);
        AtBelow(lrem, c);
        NotYet(os, rrem, c);
      } else if c <= cut {
        AtBelow(rrem, c);
      }
    }
  }

  /** Merge the first bytes of both sides, up to `cut`, under an alternation of their successors. */
  lemma TakeBoth(ls: seq<Edge<Plan>>, rs: seq<Edge<Plan>>, os: seq<Edge<Plan>>,
                 lrem: seq<Edge<Plan>>, rrem: seq<Edge<Plan>>, cut: Byte, next: Plan)
    requires Merging(ls, rs, os, lrem, rrem)
    requires lrem != [] && rrem != [] && lrem[0].lo == rrem[0].lo
    requires lrem[0].lo <= cut <= lrem[0].hi && cut <= rrem[0].hi
    requires Alternates(lrem[0].next, rrem[0].next, next)
    ensures Merging(ls, rs, os + [Edge(lrem[0].lo, cut, next)], Trim(lrem, cut), Trim(rrem, cut))
  {
    var e := Edge(lrem[0].lo, cut, next);
    TrimAt(rrem, cut, cut);
    TrimAt(lrem, cut, cut);
    TakenWellFormed(os, e, lrem, Trim(rrem, cut), cut);
    TakenWellFormed(os, e, rrem, Trim(lrem, cut), cut);
    forall c: Byte
      ensures if At(os + [e], c).None?
        then At(Trim(lrem, cut), c) == At(ls, c) && At(Trim(rrem, cut), c) == At(rs, c)
        else Combines(At(ls, c), At(rs, c), At(os + [e], c))
    {
      TakeBothAt(ls, rs, os, lrem, rrem, e, c);
    }
  }

  lemma TakeBothAt(ls: seq<Edge<Plan>>, rs: seq<Edge<Plan>>, os: seq<Edge<Plan>>,
                   lrem: seq<Edge<Plan>>, rrem: seq<Edge<Plan>>, e: Edge<Plan>, c: Byte)
    requires Merging(ls, rs, os, lrem, rrem) && Sorted(os + [e])
    requires lrem != [] && rrem != [] && lrem[0].lo == rrem[0].lo == e.lo
    requires e.lo <= e.hi <= lrem[0].hi && e.hi <= rrem[0].hi
    requires Alternates(lrem[0].next, rrem[0].next, e.next)
    ensures if At(os + [e], c).None?
      then At(Trim(lrem, e.hi), c) == At(ls, c) && At(Trim(rrem, e.hi), c) == At(rs, c)
      else Combines(At(ls, c), At(rs, c), At(os + [e], c))
  {
    AppendAt(os, e, c);
    if Covers(e, c) {
      AtEdge(lrem, 0, c);
      AtEdge(rrem, 0, c);
      NotYet(os, rrem, c);
    } else {
      TrimAt(lrem, e.hi, c);
      TrimAt(rrem, e.hi, c);
      if c <= e.hi {
        AtBelow(lrem, c);
        AtBelow(rrem, c);
      }
    }
  }

  lemma NotYet<T>(os: seq<Edge<T>>, es: seq<Edge<T>>, c: Byte)
    requires Before(os, es) && es != [] && es[0].lo <= c
    ensures At(os, c) == None
  {
  }

  lemma TakenWellFormed(os: seq<Edge<Plan>>, e: Edge<Plan>, es: seq<Edge<Plan>>, fs: seq<Edge<Plan>>, cut: Byte)
    requires WellFormed(Node(os)) && WellFormed(Node(es)) && Before(os, es) && Before(os, fs)
    requires es != [] && es[0].lo <= cut <= es[0].hi && (fs != [] ==> Sorted(fs) && cut < fs[0].lo)
    requires e.lo == es[0].lo && e.hi == cut && WellFormed(e.next)
    ensures WellFormed(Node(os + [e])) && WellFormed(Node(Trim(es, cut)))
    ensures Before(os + [e], Trim(es, cut)) && Before(os + [e], fs)
  {
    TrimAt(es, cut, cut);
    var r := os + [e];
    assert Sorted(r);
    assert forall i | 0 <= i < |r| :: Walkable(r[i]) && WellFormed(r[i].next);
  }

  /** When both sides are used up the output is the alternation. */
  lemma MergingDone(ls: seq<Edge<Plan>>, rs: seq<Edge<Plan>>, os: seq<Edge<Plan>>)
    requires WellFormed(Node(ls)) && WellFormed(Node(rs)) && ls != [] && rs != []
    requires Merging(ls, rs, os, [], [])
    ensures os != [] && Alternates(Node(ls), Node(rs), Node(os))
  {
    MergedAlternates(ls, rs, os);
  }
}
