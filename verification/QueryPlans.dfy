/**
 * The planner's own data structure: nodes with mutable edges and anchors, shared
 * between plans. The ghost field `tree` is the trie a node unfolds to; a set of
 * nodes closed under successors keeps every node's `tree` in step with its edges.
 */
module QueryPlans {
  import opened Bytes
  import opened Plans

  const kMaxRecursion := 10

  datatype Anchor = Anchor(left: bool, right: bool, repeat: bool)

  const kAnchorNone := Anchor(false, false, false)
  const kAnchorBoth := Anchor(true, true, false)

  // ----- Edges are kept in the order of (lo, hi); an existing key is not replaced -----

  function InsertEdge<T>(es: seq<Edge<T>>, e: Edge<T>): seq<Edge<T>> {
    if es == [] then [e]
    else if e.lo < es[0].lo || (e.lo == es[0].lo && e.hi < es[0].hi) then [e] + es
    else if e.lo == es[0].lo && e.hi == es[0].hi then es
    else [es[0]] + InsertEdge(es[1..], e)
  }

  lemma {:induction false} InsertLast<T>(es: seq<Edge<T>>, e: Edge<T>)
    requires Sorted(es + [e])
    ensures InsertEdge(es, e) == es + [e]
  {
    if es != [] {
      assert (es + [e])[0] == es[0] && (es + [e])[|es|] == e;
      assert (es + [e])[1..] == es[1..] + [e];
      InsertLast(es[1..], e);
    }
  }

  class QueryPlan {
    var edges: seq<Edge<QueryPlan?>>
    var anchor: Anchor
    ghost var tree: Plan

    constructor (anchor: Anchor)
      ensures edges == [] && this.anchor == anchor && tree == Node([])
    {
      edges := [];
      this.anchor := anchor;
      tree := Node([]);
    }

    /** This node's edges lead into `nodes`, and `tree` is what they unfold to. */
    ghost predicate Reflects(nodes: set<QueryPlan>)
      reads `edges, `tree, nodes`tree
    {
      && tree.Node?
      && Into(edges, nodes)
      && Mirrors(edges, tree.edges)
    }

    method Insert(e: Edge<QueryPlan?>, ghost nodes: set<QueryPlan>)
      requires this !in nodes && Reflects(nodes) && (e.next != null ==> e.next in nodes)
      modifies this
      ensures Reflects(nodes)
      ensures edges == InsertEdge(old(edges), e)
      ensures tree == Node(InsertEdge(old(tree.edges), Edge(e.lo, e.hi, TreeOf(e.next))))
      ensures anchor == old(anchor).(right := old(anchor).right && (e.next != null ==> e.next.anchor.right))
    {
      InsertMirrors(edges, tree.edges, e);
      InsertInto(edges, e, nodes);
      edges := InsertEdge(edges, e);
      tree := Node(InsertEdge(tree.edges, Edge(e.lo, e.hi, TreeOf(e.next))));
      if e.next != null && !e.next.anchor.right {
        anchor := anchor.(right := false);
      }
    }
  }

  ghost function TreeOf(n: QueryPlan?): Plan
    reads (if n == null then {} else {n})`tree
  {
    if n == null then Tail else n.tree
  }

  ghost predicate Mirrors(es: seq<Edge<QueryPlan?>>, vs: seq<Edge<Plan>>)
    reads (set i | 0 <= i < |es| && es[i].next != null :: es[i].next)`tree
  {
    && |es| == |vs|
    && forall i | 0 <= i < |es| :: vs[i] == Edge(es[i].lo, es[i].hi, TreeOf(es[i].next))
  }

  ghost predicate In(n: QueryPlan?, nodes: set<QueryPlan>) {
    n != null ==> n in nodes
  }

  ghost predicate Into(es: seq<Edge<QueryPlan?>>, nodes: set<QueryPlan>) {
    forall i | 0 <= i < |es| :: In(es[i].next, nodes)
  }

  lemma {:induction false} InsertMirrors(es: seq<Edge<QueryPlan?>>, vs: seq<Edge<Plan>>, e: Edge<QueryPlan?>)
    requires Mirrors(es, vs)
    ensures Mirrors(InsertEdge(es, e), InsertEdge(vs, Edge(e.lo, e.hi, TreeOf(e.next))))
  {
    if es != [] {
      InsertMirrors(es[1..], vs[1..], e);
    }
  }

  lemma {:induction false} InsertInto(es: seq<Edge<QueryPlan?>>, e: Edge<QueryPlan?>, nodes: set<QueryPlan>)
    requires Into(es, nodes) && In(e.next, nodes)
    ensures Into(InsertEdge(es, e), nodes)
  {
    if es != [] {
      InsertInto(es[1..], e, nodes);
    }
  }

  /** A set of nodes closed under successors, all of them well formed. */
  ghost predicate Closed(nodes: set<QueryPlan>)
    reads nodes`edges, nodes`tree
  {
    forall n | n in nodes :: n.Reflects(nodes) && WellFormed(n.tree)
  }

  method Any() returns (out: QueryPlan)
    ensures fresh(out) && out.edges == [] && out.anchor == kAnchorNone && out.tree == Node([])
  {
    out := new QueryPlan(kAnchorNone);
  }

  // ----- Alternation -----

  type AlternateCache = map<(QueryPlan?, QueryPlan?), QueryPlan?>

  /** What `Alternate` promises of its result, whenever it chose to give up. */
  ghost predicate AlternateResult(lhs: QueryPlan?, rhs: QueryPlan?, out: QueryPlan?)
    reads lhs, rhs, out
  {
    && Alternates(TreeOf(lhs), TreeOf(rhs), TreeOf(out))
    && (lhs == rhs ==> out == lhs)
    && (lhs != rhs ==>
      && out != null
      && !out.anchor.repeat
      && (out.anchor.left ==>
        && lhs != null && rhs != null && lhs.anchor.left && rhs.anchor.left
        && lhs.edges != [] && rhs.edges != [] && out.edges != [])
      && (out.anchor.right ==>
        && lhs != null && rhs != null && lhs.anchor.right && rhs.anchor.right
        && lhs.edges != [] && rhs.edges != [] && out.edges != []))
    && (lhs != rhs && out.anchor.right && Proper(TreeOf(lhs)) && Proper(TreeOf(rhs)) ==> Proper(out.tree))
  }

  ghost predicate CacheValid(cache: AlternateCache, nodes: set<QueryPlan>)
    reads nodes
  {
    forall k | k in cache ::
      && In(k.0, nodes) && In(k.1, nodes) && In(cache[k], nodes)
      && AlternateResult(k.0, k.1, cache[k])
  }

  /** A node whose edges all end a path. */
  predicate Flat(n: QueryPlan)
    reads n
  {
    forall i | 0 <= i < |n.edges| :: n.edges[i].next == null
  }

  /** For two flat nodes nothing is given up inside. */
  predicate KeepsAnchors(lhs: QueryPlan, rhs: QueryPlan, out: QueryPlan)
    reads lhs, rhs, out
  {
    Flat(lhs) && Flat(rhs) ==>
      out.anchor == Anchor(lhs.anchor.left && rhs.anchor.left, lhs.anchor.right && rhs.anchor.right, false)
  }

  /** A node under construction: outside `nodes`, with edges into it. */
  ghost predicate Building(out: QueryPlan, nodes: set<QueryPlan>, lhs: QueryPlan, rhs: QueryPlan)
    reads out, nodes, lhs, rhs
  {
    && out !in nodes && out.Reflects(nodes)
    && !out.anchor.repeat
    && (out.anchor.left ==> lhs.anchor.left && rhs.anchor.left)
    && (out.anchor.right ==> lhs.anchor.right && rhs.anchor.right)
    && KeepsAnchors(lhs, rhs, out)
    && (out.anchor.right && Proper(lhs.tree) && Proper(rhs.tree) ==>
      forall i | 0 <= i < |out.tree.edges| :: Proper(out.tree.edges[i].next))
  }

  /** Appends an edge beyond all others to a node under construction. */
  method Append(out: QueryPlan, e: Edge<QueryPlan?>, ghost nodes: set<QueryPlan>, ghost lhs: QueryPlan, ghost rhs: QueryPlan)
    requires Building(out, nodes, lhs, rhs) && lhs in nodes && rhs in nodes && In(e.next, nodes)
    requires Sorted(out.tree.edges + [Edge(e.lo, e.hi, TreeOf(e.next))])
    requires Proper(lhs.tree) && Proper(rhs.tree) && (e.next != null ==> e.next.anchor.right) ==> Proper(TreeOf(e.next))
    requires Flat(lhs) && Flat(rhs) ==> e.next == null
    modifies out
    ensures Building(out, nodes, lhs, rhs)
    ensures out.tree.edges == old(out.tree.edges) + [Edge(e.lo, e.hi, TreeOf(e.next))]
  {
    InsertLast(out.tree.edges, Edge(e.lo, e.hi, TreeOf(e.next)));
    out.Insert(e, nodes);
  }

  datatype Range = Range(first: Byte, second: Byte)

  predicate Intersects(left: Range, right: Range) {
    if left.first <= right.first then left.second >= right.first
    else right.second >= left.first
  }

  /** A position in a node's edges, whose edge has been cut down to `range`. */
  datatype Cursor = Cursor(it: nat, range: Range)

  /** The cursor at the whole edge `k`; past the last edge the range is not used. */
  function Start(n: QueryPlan, k: nat): Cursor
    reads n
  {
    Cursor(k, if k < |n.edges| then Range(n.edges[k].lo, n.edges[k].hi) else Range(0, 0))
  }

  /** The cursor once the bytes up to `cut` of its edge are gone. */
  function Past(n: QueryPlan, c: Cursor, cut: Byte): Cursor
    requires c.it < |n.edges| && cut <= c.range.second
    reads n
  {
    if cut == c.range.second then Start(n, c.it + 1) else c.(range := Range(cut + 1, c.range.second))
  }

  /** The edges still to be merged. */
  ghost function Remaining(n: QueryPlan, c: Cursor): seq<Edge<Plan>>
    requires n.tree.Node?
    reads n
  {
    if c.it >= |n.tree.edges| then []
    else [Edge(c.range.first, c.range.second, n.tree.edges[c.it].next)] + n.tree.edges[c.it + 1..]
  }

  lemma RemainingPast(n: QueryPlan, c: Cursor, cut: Byte, nodes: set<QueryPlan>)
    requires n.Reflects(nodes) && c.it < |n.edges| && cut <= c.range.second
    ensures Trim(Remaining(n, c), cut) == Remaining(n, Past(n, c, cut))
  {
    hide Sorted, WellFormed;
    var vs := n.tree.edges;
    assert Remaining(n, c)[1..] == vs[c.it + 1..];
    if c.it + 1 < |vs| {
      assert vs[c.it + 1..] == [vs[c.it + 1]] + vs[c.it + 2..];
    }
    if cut < c.range.second {
      assert Trim(Remaining(n, c), cut) == [Edge(cut + 1, c.range.second, vs[c.it].next)] + vs[c.it + 1..];
    }
  }

  lemma RemainingStart(n: QueryPlan, nodes: set<QueryPlan>)
    requires n.Reflects(nodes)
    ensures Remaining(n, Start(n, 0)) == n.tree.edges
  {
    if n.edges != [] {
      assert n.tree.edges == [n.tree.edges[0]] + n.tree.edges[1..];
    }
  }

  /** The state of the merge of `lhs` and `rhs` into `out`, with the cursors at `l` and `r`. */
  ghost predicate MergeState(out: QueryPlan, nodes: set<QueryPlan>, lhs: QueryPlan, rhs: QueryPlan, l: Cursor, r: Cursor)
    reads out, nodes
  {
    && lhs in nodes && rhs in nodes && Closed(nodes)
    && Building(out, nodes, lhs, rhs)
    && Merging(lhs.tree.edges, rhs.tree.edges, out.tree.edges, Remaining(lhs, l), Remaining(rhs, r))
  }

  /** Moves the left side's bytes up to `cut` into the node under construction. */
  method EmitLeft(out: QueryPlan, first: Byte, cut: Byte, lnext: QueryPlan?, ghost nodes: set<QueryPlan>,
                  ghost lhs: QueryPlan, ghost rhs: QueryPlan, ghost l: Cursor, ghost r: Cursor)
    requires MergeState(out, nodes, lhs, rhs, l, r)
    requires l.it < |lhs.edges| && lhs.edges[l.it].next == lnext
    requires first == l.range.first <= cut <= l.range.second
    requires r.it < |rhs.edges| ==> cut < r.range.first
    modifies out
    ensures MergeState(out, nodes, lhs, rhs, Past(lhs, l, cut), r)
  {
    RemainingPast(lhs, l, cut, nodes);
    TakeLeft(lhs.tree.edges, rhs.tree.edges, out.tree.edges, Remaining(lhs, l), Remaining(rhs, r), cut);
    Append(out, Edge(first, cut, lnext), nodes, lhs, rhs);
  }

  method EmitRight(out: QueryPlan, first: Byte, cut: Byte, rnext: QueryPlan?, ghost nodes: set<QueryPlan>,
                   ghost lhs: QueryPlan, ghost rhs: QueryPlan, ghost l: Cursor, ghost r: Cursor)
    requires MergeState(out, nodes, lhs, rhs, l, r)
    requires r.it < |rhs.edges| && rhs.edges[r.it].next == rnext
    requires first == r.range.first <= cut <= r.range.second
    requires l.it < |lhs.edges| ==> cut < l.range.first
    modifies out
    ensures MergeState(out, nodes, lhs, rhs, l, Past(rhs, r, cut))
  {
    RemainingPast(rhs, r, cut, nodes);
    TakeRight(lhs.tree.edges, rhs.tree.edges, out.tree.edges, Remaining(lhs, l), Remaining(rhs, r), cut);
    Append(out, Edge(first, cut, rnext), nodes, lhs, rhs);
  }

  /** Moves both sides' bytes up to `cut` into the node, under an alternation of their successors. */
  method EmitBoth(cache: AlternateCache, out: QueryPlan, first: Byte, cut: Byte, lnext: QueryPlan?, rnext: QueryPlan?,
                  depth: nat, ghost nodes: set<QueryPlan>, ghost lhs: QueryPlan, ghost rhs: QueryPlan,
                  ghost l: Cursor, ghost r: Cursor)
    returns (cache': AlternateCache, ghost nodes': set<QueryPlan>)
    requires depth <= kMaxRecursion
    requires MergeState(out, nodes, lhs, rhs, l, r) && CacheValid(cache, nodes)
    requires l.it < |lhs.edges| && lhs.edges[l.it].next == lnext
    requires r.it < |rhs.edges| && rhs.edges[r.it].next == rnext
    requires first == l.range.first == r.range.first <= cut <= l.range.second && cut <= r.range.second
    modifies out
    ensures nodes <= nodes' && fresh(nodes' - nodes) && CacheValid(cache', nodes')
    ensures MergeState(out, nodes', lhs, rhs, Past(lhs, l, cut), Past(rhs, r, cut))
    decreases kMaxRecursion - depth, 2
  {
    hide MergeState, CacheValid, AlternateResult;
    MergeStateNodes(out, nodes, lhs, rhs, l, r);
    var next;
    next, cache', nodes' := Alternate(cache, lnext, rnext, depth, nodes);
    MergeStateMore(out, nodes, nodes', lhs, rhs, l, r);
    AppendBoth(out, first, cut, lnext, rnext, next, nodes', lhs, rhs, l, r);
  }

  lemma MergeStateNodes(out: QueryPlan, nodes: set<QueryPlan>, lhs: QueryPlan, rhs: QueryPlan, l: Cursor, r: Cursor)
    requires MergeState(out, nodes, lhs, rhs, l, r)
    ensures lhs in nodes && rhs in nodes && out !in nodes && Closed(nodes)
    ensures Into(lhs.edges, nodes) && Into(rhs.edges, nodes)
  {
  }

  lemma MergeStateMore(out: QueryPlan, nodes: set<QueryPlan>, nodes': set<QueryPlan>, lhs: QueryPlan, rhs: QueryPlan,
                       l: Cursor, r: Cursor)
    requires MergeState(out, nodes, lhs, rhs, l, r) && nodes <= nodes' && Closed(nodes') && out !in nodes'
    ensures MergeState(out, nodes', lhs, rhs, l, r)
  {
    hide Closed, WellFormed, Proper, Merging;
    ReflectsMore(out, nodes, nodes');
  }

  lemma ReflectsMore(n: QueryPlan, nodes: set<QueryPlan>, nodes': set<QueryPlan>)
    requires n.Reflects(nodes) && nodes <= nodes'
    ensures n.Reflects(nodes')
  {
  }

  /** Appends the bytes both sides have, with the alternation of their successors. */
  method AppendBoth(out: QueryPlan, first: Byte, cut: Byte, ghost lnext: QueryPlan?, ghost rnext: QueryPlan?,
                    next: QueryPlan?, ghost nodes: set<QueryPlan>, ghost lhs: QueryPlan, ghost rhs: QueryPlan,
                    ghost l: Cursor, ghost r: Cursor)
    requires MergeState(out, nodes, lhs, rhs, l, r) && In(next, nodes) && AlternateResult(lnext, rnext, next)
    requires l.it < |lhs.edges| && lhs.edges[l.it].next == lnext
    requires r.it < |rhs.edges| && rhs.edges[r.it].next == rnext
    requires first == l.range.first == r.range.first <= cut <= l.range.second && cut <= r.range.second
    modifies out
    ensures MergeState(out, nodes, lhs, rhs, Past(lhs, l, cut), Past(rhs, r, cut))
  {
    RemainingPast(lhs, l, cut, nodes);
    RemainingPast(rhs, r, cut, nodes);
    TakeBoth(lhs.tree.edges, rhs.tree.edges, out.tree.edges, Remaining(lhs, l), Remaining(rhs, r), cut, TreeOf(next));
    Append(out, Edge(first, cut, next), nodes, lhs, rhs);
  }

  /**
   * One step of the merge, on the first remaining edge of each side. A side that
   * is not taken keeps the rest of its edge, from the returned range.
   */
  method Merge(cache: AlternateCache, out: QueryPlan, left: Range, lnext: QueryPlan?, right: Range, rnext: QueryPlan?,
               depth: nat, ghost nodes: set<QueryPlan>, ghost lhs: QueryPlan, ghost rhs: QueryPlan,
               ghost lit: nat, ghost rit: nat)
    returns (left': Range, right': Range, takeLeft: bool, takeRight: bool,
             cache': AlternateCache, ghost nodes': set<QueryPlan>)
    requires depth <= kMaxRecursion
    requires MergeState(out, nodes, lhs, rhs, Cursor(lit, left), Cursor(rit, right)) && CacheValid(cache, nodes)
    requires out !in nodes && lhs in nodes && rhs in nodes
    requires lit < |lhs.edges| && lhs.edges[lit].next == lnext && left.first <= left.second
    requires rit < |rhs.edges| && rhs.edges[rit].next == rnext && right.first <= right.second
    modifies out
    ensures nodes <= nodes' && fresh(nodes' - nodes) && CacheValid(cache', nodes')
    ensures takeLeft || takeRight
    ensures left'.first <= left'.second && right'.first <= right'.second
    ensures MergeState(out, nodes', lhs, rhs,
              if takeLeft then Start(lhs, lit + 1) else Cursor(lit, left'),
              if takeRight then Start(rhs, rit + 1) else Cursor(rit, right'))
    decreases kMaxRecursion - depth, 3
  {
    hide MergeState, CacheValid;
    left', right', cache', nodes' := left, right, cache, nodes;
    if Intersects(left, right) {
      if left.first < right.first {
        EmitLeft(out, left.first, right.first - 1, lnext, nodes, lhs, rhs, Cursor(lit, left), Cursor(rit, right));
        left' := left.(first := right.first);
        assert Past(lhs, Cursor(lit, left), right.first - 1) == Cursor(lit, left');
      } else if right.first < left.first {
        EmitRight(out, right.first, left.first - 1, rnext, nodes, lhs, rhs, Cursor(lit, left), Cursor(rit, right));
        right' := right.(first := left.first);
        assert Past(rhs, Cursor(rit, right), left.first - 1) == Cursor(rit, right');
      }
      assert MergeState(out, nodes, lhs, rhs, Cursor(lit, left'), Cursor(rit, right'));
      ghost var l, r := Cursor(lit, left'), Cursor(rit, right');
      var end := if left'.second <= right'.second then left'.second else right'.second;
      cache', nodes' := EmitBoth(cache, out, left'.first, end, lnext, rnext, depth, nodes, lhs, rhs, l, r);
      if left'.second > end {
        left' := left'.(first := end + 1);
        takeLeft, takeRight := false, true;
      } else if right'.second > end {
        right' := right'.(first := end + 1);
        takeLeft, takeRight := true, false;
      } else {
        takeLeft, takeRight := true, true;
      }
      assert Past(lhs, l, end) == if takeLeft then Start(lhs, lit + 1) else Cursor(lit, left');
      assert Past(rhs, r, end) == if takeRight then Start(rhs, rit + 1) else Cursor(rit, right');
    } else if left.first < right.first {
      EmitLeft(out, left.first, left.second, lnext, nodes, lhs, rhs, Cursor(lit, left), Cursor(rit, right));
      takeLeft, takeRight := true, false;
    } else {
      EmitRight(out, right.first, right.second, rnext, nodes, lhs, rhs, Cursor(lit, left), Cursor(rit, right));
      takeLeft, takeRight := false, true;
    }
  }

  ghost predicate NonEmptyRanges(n: QueryPlan)
    reads n
  {
    forall i | 0 <= i < |n.edges| :: n.edges[i].lo <= n.edges[i].hi
  }

  lemma EdgesOrdered(out: QueryPlan, nodes: set<QueryPlan>, lhs: QueryPlan, rhs: QueryPlan, l: Cursor, r: Cursor)
    requires MergeState(out, nodes, lhs, rhs, l, r)
    ensures NonEmptyRanges(lhs) && NonEmptyRanges(rhs)
  {
    forall i | 0 <= i < |lhs.edges| ensures lhs.edges[i].lo <= lhs.edges[i].hi {
      assert lhs.tree.edges[i].lo <= lhs.tree.edges[i].hi;
    }
    forall i | 0 <= i < |rhs.edges| ensures rhs.edges[i].lo <= rhs.edges[i].hi {
      assert rhs.tree.edges[i].lo <= rhs.tree.edges[i].hi;
    }
  }

  /** The merge loop: two cursors over the edges, then what is left of either side. */
  method MergeAll(cache: AlternateCache, out: QueryPlan, lhs: QueryPlan, rhs: QueryPlan, depth: nat,
                  ghost nodes: set<QueryPlan>)
    returns (cache': AlternateCache, ghost nodes': set<QueryPlan>)
    requires depth <= kMaxRecursion && lhs.edges != [] && rhs.edges != []
    requires out !in nodes && lhs in nodes && rhs in nodes
    requires MergeState(out, nodes, lhs, rhs, Start(lhs, 0), Start(rhs, 0)) && CacheValid(cache, nodes)
    modifies out
    ensures nodes <= nodes' && fresh(nodes' - nodes) && CacheValid(cache', nodes')
    ensures out !in nodes' && MergeState(out, nodes', lhs, rhs, Start(lhs, |lhs.edges|), Start(rhs, |rhs.edges|))
    decreases kMaxRecursion - depth, 4
  {
    hide MergeState, CacheValid, Closed;
    EdgesOrdered(out, nodes, lhs, rhs, Cursor(0, Start(lhs, 0).range), Cursor(0, Start(rhs, 0).range));
    cache', nodes' := cache, nodes;
    var lit, rit := 0, 0;
    var left, right := Start(lhs, 0).range, Start(rhs, 0).range;
    while lit != |lhs.edges| && rit != |rhs.edges|
      invariant nodes <= nodes' && fresh(nodes' - nodes) && CacheValid(cache', nodes')
      invariant out !in nodes' && lhs in nodes' && rhs in nodes'
      invariant lit <= |lhs.edges| && rit <= |rhs.edges|
      invariant if lit == |lhs.edges| then left == Start(lhs, lit).range else left.first <= left.second
      invariant if rit == |rhs.edges| then right == Start(rhs, rit).range else right.first <= right.second
      invariant MergeState(out, nodes', lhs, rhs, Cursor(lit, left), Cursor(rit, right))
      decreases |lhs.edges| - lit + |rhs.edges| - rit
    {
      var takeLeft, takeRight;
      left, right, takeLeft, takeRight, cache', nodes' :=
        Merge(cache', out, left, lhs.edges[lit].next, right, rhs.edges[rit].next, depth, nodes', lhs, rhs, lit, rit);
      if takeLeft {
        lit := lit + 1;
        left := Start(lhs, lit).range;
      }
      if takeRight {
        rit := rit + 1;
        right := Start(rhs, rit).range;
      }
    }
    MergeRest(out, lhs, rhs, lit, left, rit, right, cache', nodes');
  }

  /** Once one side is used up, the other side's edges follow unchanged. */
  method MergeRest(out: QueryPlan, lhs: QueryPlan, rhs: QueryPlan, lit0: nat, left0: Range, rit0: nat, right0: Range,
                   ghost cache: AlternateCache, ghost nodes: set<QueryPlan>)
    requires out !in nodes && lhs in nodes && rhs in nodes && CacheValid(cache, nodes)
    requires lit0 <= |lhs.edges| && rit0 <= |rhs.edges| && (lit0 == |lhs.edges| || rit0 == |rhs.edges|)
    requires if lit0 == |lhs.edges| then left0 == Start(lhs, lit0).range else left0.first <= left0.second
    requires if rit0 == |rhs.edges| then right0 == Start(rhs, rit0).range else right0.first <= right0.second
    requires NonEmptyRanges(lhs) && NonEmptyRanges(rhs)
    requires MergeState(out, nodes, lhs, rhs, Cursor(lit0, left0), Cursor(rit0, right0))
    modifies out
    ensures CacheValid(cache, nodes)
    ensures MergeState(out, nodes, lhs, rhs, Start(lhs, |lhs.edges|), Start(rhs, |rhs.edges|))
  {
    hide MergeState, CacheValid;
    var lit, left, rit, right := lit0, left0, rit0, right0;
    while lit != |lhs.edges|
      invariant lit <= |lhs.edges| && (lit == |lhs.edges| || rit == |rhs.edges|)
      invariant if lit == |lhs.edges| then left == Start(lhs, lit).range else left.first <= left.second
      invariant CacheValid(cache, nodes)
      invariant MergeState(out, nodes, lhs, rhs, Cursor(lit, left), Cursor(rit, right))
    {
      EmitLeft(out, left.first, left.second, lhs.edges[lit].next, nodes, lhs, rhs, Cursor(lit, left), Cursor(rit, right));
      assert Past(lhs, Cursor(lit, left), left.second) == Start(lhs, lit + 1);
      lit := lit + 1;
      left := Start(lhs, lit).range;
    }
    while rit != |rhs.edges|
      invariant rit <= |rhs.edges|
      invariant if rit == |rhs.edges| then right == Start(rhs, rit).range else right.first <= right.second
      invariant CacheValid(cache, nodes)
      invariant MergeState(out, nodes, lhs, rhs, Cursor(lit, left), Cursor(rit, right))
    {
      EmitRight(out, right.first, right.second, rhs.edges[rit].next, nodes, lhs, rhs, Cursor(lit, left), Cursor(rit, right));
      assert Past(rhs, Cursor(rit, right), right.second) == Start(rhs, rit + 1);
      rit := rit + 1;
      right := Start(rhs, rit).range;
    }
  }

  /** Two different plans are merged, unless there is nothing to merge or the result would be too wide or too deep. */
  predicate Merges(lhs: QueryPlan?, rhs: QueryPlan?, depth: nat)
    reads if lhs == null then {} else {lhs}, if rhs == null then {} else {rhs}
  {
    && lhs != null && rhs != null && lhs != rhs
    && lhs.edges != [] && rhs.edges != [] && |lhs.edges| + |rhs.edges| < kMaxWidth
    && depth < kMaxRecursion
  }

  method AlternateInternal(cache: AlternateCache, lhs: QueryPlan?, rhs: QueryPlan?, depth: nat, ghost nodes: set<QueryPlan>)
    returns (out: QueryPlan?, cache': AlternateCache, ghost nodes': set<QueryPlan>)
    requires depth <= kMaxRecursion
    requires Closed(nodes) && CacheValid(cache, nodes) && In(lhs, nodes) && In(rhs, nodes)
    ensures nodes <= nodes' && fresh(nodes' - nodes) && Closed(nodes') && CacheValid(cache', nodes')
    ensures In(out, nodes') && AlternateResult(lhs, rhs, out)
    ensures Merges(lhs, rhs, depth) ==> KeepsAnchors(lhs, rhs, out)
    decreases kMaxRecursion - depth, 0
  {
    cache', nodes' := cache, nodes;
    if lhs == rhs {
      return lhs, cache, nodes;
    }
    if !Merges(lhs, rhs, depth) {
      out := Any();
      GiveUpAlternates(TreeOf(lhs), TreeOf(rhs));
      nodes' := nodes + {out};
      return;
    }
    hide AlternateResult, CacheValid, Closed;
    out, cache', nodes' := AlternateNodes(cache, lhs, rhs, depth + 1, nodes);
  }

  /** Alternation of two different nodes that have edges. */
  method AlternateNodes(cache: AlternateCache, lhs: QueryPlan, rhs: QueryPlan, depth: nat, ghost nodes: set<QueryPlan>)
    returns (out: QueryPlan, cache': AlternateCache, ghost nodes': set<QueryPlan>)
    requires depth <= kMaxRecursion && lhs != rhs && lhs.edges != [] && rhs.edges != []
    requires Closed(nodes) && CacheValid(cache, nodes) && lhs in nodes && rhs in nodes
    ensures nodes <= nodes' && fresh(nodes' - nodes) && Closed(nodes') && CacheValid(cache', nodes')
    ensures out in nodes' && AlternateResult(lhs, rhs, out) && KeepsAnchors(lhs, rhs, out)
    decreases kMaxRecursion - depth, 5
  {
    hide Closed, CacheValid, MergeState, AlternateResult, Building;
    out := new QueryPlan(Anchor(lhs.anchor.left && rhs.anchor.left, lhs.anchor.right && rhs.anchor.right, false));
    MergeStarts(out, lhs, rhs, nodes);
    cache', nodes' := MergeAll(cache, out, lhs, rhs, depth, nodes);
    MergeEnds(out, lhs, rhs, cache', nodes');
    nodes' := nodes' + {out};
  }

  lemma MergeStarts(out: QueryPlan, lhs: QueryPlan, rhs: QueryPlan, nodes: set<QueryPlan>)
    requires Closed(nodes) && lhs in nodes && rhs in nodes && out !in nodes
    requires out.edges == [] && out.tree == Node([])
    requires out.anchor == Anchor(lhs.anchor.left && rhs.anchor.left, lhs.anchor.right && rhs.anchor.right, false)
    ensures MergeState(out, nodes, lhs, rhs, Start(lhs, 0), Start(rhs, 0))
  {
    RemainingStart(lhs, nodes);
    RemainingStart(rhs, nodes);
  }

  lemma MergeEnds(out: QueryPlan, lhs: QueryPlan, rhs: QueryPlan, cache: AlternateCache, nodes: set<QueryPlan>)
    requires CacheValid(cache, nodes)
    requires MergeState(out, nodes, lhs, rhs, Start(lhs, |lhs.edges|), Start(rhs, |rhs.edges|))
    requires lhs != rhs && lhs.edges != [] && rhs.edges != []
    ensures AlternateResult(lhs, rhs, out) && Closed(nodes + {out}) && CacheValid(cache, nodes + {out})
    ensures KeepsAnchors(lhs, rhs, out)
  {
    MergingDone(lhs.tree.edges, rhs.tree.edges, out.tree.edges);
  }

  method Alternate(cache: AlternateCache, lhs: QueryPlan?, rhs: QueryPlan?, depth: nat, ghost nodes: set<QueryPlan>)
    returns (out: QueryPlan?, cache': AlternateCache, ghost nodes': set<QueryPlan>)
    requires depth <= kMaxRecursion
    requires Closed(nodes) && CacheValid(cache, nodes) && In(lhs, nodes) && In(rhs, nodes)
    ensures nodes <= nodes' && fresh(nodes' - nodes) && Closed(nodes') && CacheValid(cache', nodes')
    ensures In(out, nodes') && AlternateResult(lhs, rhs, out)
    ensures (lhs, rhs) !in cache && Merges(lhs, rhs, depth) ==> KeepsAnchors(lhs, rhs, out)
    decreases kMaxRecursion - depth, 1
  {
    if (lhs, rhs) in cache {
      return cache[(lhs, rhs)], cache, nodes;
    }
    out, cache', nodes' := AlternateInternal(cache, lhs, rhs, depth, nodes);
    cache' := cache'[(lhs, rhs) := out];
  }
}
