/**
 * In-place concatenation: every null edge reachable from the left plan is
 * redirected to the right plan, once, although nodes may be shared.
 */
module PlanConcat {
  import opened Plans
  import opened QueryPlans

  /** An edge iterator: a node and an index into its edges. */
  datatype EdgeRef = EdgeRef(node: QueryPlan, index: nat)

  ghost predicate NullEdge(m: QueryPlan, i: int)
    reads m
  {
    0 <= i < |m.edges| && m.edges[i].next == null
  }

  /** Every successor of `m` lies in `nodes`. */
  ghost predicate LeadsInto(m: QueryPlan, nodes: set<QueryPlan>)
    reads m
  {
    forall i | 0 <= i < |m.edges| :: In(m.edges[i].next, nodes)
  }

  /** `tails` lists null edges of `nodes`, and all of them. */
  ghost predicate ListsTails(tails: seq<EdgeRef>, nodes: set<QueryPlan>)
    reads nodes, set t | t in tails :: t.node
  {
    && (forall t | t in tails :: t.node in nodes && NullEdge(t.node, t.index))
    && (forall m, i: nat | m in nodes && NullEdge(m, i) :: EdgeRef(m, i) in tails)
  }

  method CollectTails(n: QueryPlan, tails: seq<EdgeRef>, seen: set<QueryPlan>, ghost nodes: set<QueryPlan>)
    returns (tails': seq<EdgeRef>, seen': set<QueryPlan>)
    requires Closed(nodes) && n in nodes && seen <= nodes
    requires forall t | t in tails :: t.node in seen && NullEdge(t.node, t.index)
    ensures seen <= seen' <= nodes && n in seen'
    ensures forall m | m in seen' - seen :: LeadsInto(m, seen')
    ensures forall t | t in tails :: t in tails'
    ensures forall t | t in tails' :: t.node in seen' && NullEdge(t.node, t.index)
    ensures forall m, i: nat | m in seen' - seen && NullEdge(m, i) :: EdgeRef(m, i) in tails'
    decreases n.tree
  {
    if n in seen {
      return tails, seen;
    }
    seen' := seen + {n};
    tails' := tails;
    for i := 0 to |n.edges|
      invariant seen + {n} <= seen' <= nodes
      invariant forall m | m in seen' - seen - {n} :: LeadsInto(m, seen')
      invariant forall j | 0 <= j < i :: In(n.edges[j].next, seen')
      invariant forall t | t in tails :: t in tails'
      invariant forall t | t in tails' :: t.node in seen' && NullEdge(t.node, t.index)
      invariant forall m, j: nat | m in seen' - seen - {n} && NullEdge(m, j) :: EdgeRef(m, j) in tails'
      invariant forall j: nat | j < i && NullEdge(n, j) :: EdgeRef(n, j) in tails'
    {
      var next := n.edges[i].next;
      if next != null {
        assert n.tree.edges[i].next == next.tree;
        ghost var before := seen';
        tails', seen' := CollectTails(next, tails', seen', nodes);
        assert forall m | m in seen' - seen - {n} :: m in before - seen - {n} || m in seen' - before;
      } else {
        tails' := tails' + [EdgeRef(n, i)];
      }
    }
  }

  /** All null edges reachable from `n`, and the nodes reachable from it. */
  method AllTails(n: QueryPlan, ghost nodes: set<QueryPlan>) returns (tails: seq<EdgeRef>, seen: set<QueryPlan>)
    requires Closed(nodes) && n in nodes
    ensures n in seen && seen <= nodes && Closed(seen) && ListsTails(tails, seen)
  {
    tails, seen := CollectTails(n, [], {}, nodes);
    forall m | m in seen ensures m.Reflects(seen) {
      assert LeadsInto(m, seen);
    }
  }

  function Pointed(e: Edge<QueryPlan?>, rhs: QueryPlan?): Edge<QueryPlan?> {
    if e.next == null then Edge(e.lo, e.hi, rhs) else e
  }

  /** A snapshot of the edges and the trees of some nodes. */
  type Snapshot = map<QueryPlan, (seq<Edge<QueryPlan?>>, Plan)>

  ghost function Take(nodes: set<QueryPlan>): (r: Snapshot)
    reads nodes
    ensures r.Keys == nodes && forall m | m in nodes :: r[m] == (m.edges, m.tree)
  {
    map m | m in nodes :: (m.edges, m.tree)
  }

  /** What `Closed` says of a snapshot. */
  ghost predicate WasClosed(was: Snapshot) {
    && (forall m | m in was :: was[m].1.Node? && WellFormed(was[m].1) && |was[m].1.edges| == |was[m].0|)
    && (forall m, i | m in was && 0 <= i < |was[m].0| ::
      var e := was[m].0[i];
      In(e.next, was.Keys) && was[m].1.edges[i] == Edge(e.lo, e.hi, if e.next == null then Tail else was[e.next].1))
  }

  lemma TakeClosed(nodes: set<QueryPlan>)
    requires Closed(nodes)
    ensures WasClosed(Take(nodes))
  {
    var was := Take(nodes);
    forall m, i | m in was && 0 <= i < |was[m].0|
      ensures var e := was[m].0[i];
        In(e.next, was.Keys) && was[m].1.edges[i] == Edge(e.lo, e.hi, if e.next == null then Tail else was[e.next].1)
    {
      assert m.Reflects(nodes);
    }
  }

  /** The effect of redirecting every null edge of the nodes in `was` to `rhs`. */
  ghost predicate Redirected(was: Snapshot, rhs: QueryPlan)
    reads was.Keys`edges
  {
    forall m | m in was ::
      && |m.edges| == |was[m].0|
      && (forall i | 0 <= i < |m.edges| :: m.edges[i] == Pointed(was[m].0[i], rhs))
  }

  method Redirect(tails: seq<EdgeRef>, rhs: QueryPlan, ghost seen: set<QueryPlan>)
    requires ListsTails(tails, seen)
    modifies seen
    ensures Redirected(old(Take(seen)), rhs)
    ensures forall m | m in seen :: m.tree == old(m.tree) && m.anchor == old(m.anchor)
  {
    for k := 0 to |tails|
      invariant forall m | m in seen :: m.anchor == old(m.anchor) && m.tree == old(m.tree) && |m.edges| == |old(m.edges)|
      invariant forall m, i | m in seen && 0 <= i < |m.edges| ::
        m.edges[i] == old(m.edges)[i] || m.edges[i] == Pointed(old(m.edges)[i], rhs)
      invariant forall j | 0 <= j < k :: tails[j].node.edges[tails[j].index].next == rhs
    {
      var t := tails[k];
      assert t in tails && old(NullEdge(t.node, t.index));
      t.node.edges := t.node.edges[t.index := Edge(t.node.edges[t.index].lo, t.node.edges[t.index].hi, rhs)];
    }
    forall m, i: nat | m in seen && i < |m.edges| && old(m.edges)[i].next == null
      ensures m.edges[i].next == rhs
    {
      assert old(NullEdge(m, i));
      assert EdgeRef(m, i) in tails;
    }
  }

  ghost method Retree(seen: set<QueryPlan>, r: Plan)
    modifies seen
    ensures forall m | m in seen ::
      m.edges == old(m.edges) && m.anchor == old(m.anchor) && m.tree == Subst(old(m.tree), r)
  {
    forall m | m in seen {
      m.tree := Subst(m.tree, r);
    }
  }

  /** Once the edges are redirected, the trees are the substituted ones. */
  lemma RedirectedTrees(seen: set<QueryPlan>, was: Snapshot, rhs: QueryPlan, nodes: set<QueryPlan>)
    requires was.Keys == seen && WasClosed(was) && Closed(nodes) && rhs in nodes && seen !! nodes
    requires Redirected(was, rhs)
    requires forall m | m in seen :: m.tree == Subst(was[m].1, rhs.tree)
    ensures Closed(seen + nodes)
  {
    forall m | m in seen
      ensures m.Reflects(seen + nodes) && WellFormed(m.tree)
    {
      SubstWellFormed(was[m].1, rhs.tree);
      forall i | 0 <= i < |m.edges|
        ensures In(m.edges[i].next, seen + nodes)
        ensures m.tree.edges[i] == Edge(m.edges[i].lo, m.edges[i].hi, TreeOf(m.edges[i].next))
      {
        var e := was[m].0[i];
        assert m.tree.edges[i] == Edge(e.lo, e.hi, Subst(was[m].1.edges[i].next, rhs.tree));
      }
    }
    forall m | m in nodes
      ensures m.Reflects(seen + nodes)
    {
      assert m.Reflects(nodes);
    }
  }

  ghost method Reseat(seen: set<QueryPlan>, was: Snapshot, rhs: QueryPlan, nodes: set<QueryPlan>)
    requires was.Keys == seen && WasClosed(was) && Closed(nodes) && rhs in nodes && seen !! nodes
    requires Redirected(was, rhs) && forall m | m in seen :: m.tree == was[m].1
    modifies seen
    ensures Closed(seen + nodes)
    ensures forall m | m in seen ::
      m.edges == old(m.edges) && m.anchor == old(m.anchor) && m.tree == Subst(old(m.tree), rhs.tree)
  {
    hide Closed, WasClosed;
    Retree(seen, rhs.tree);
    RedirectedTrees(seen, was, rhs, nodes);
  }

  method Reanchor(lhs: QueryPlan, rhs: QueryPlan)
    requires lhs != rhs && lhs.anchor.right
    modifies lhs`anchor
    ensures lhs.anchor ==
      Anchor(old(lhs.anchor).left && !old(lhs.anchor).repeat, rhs.anchor.right && !rhs.anchor.repeat, old(lhs.anchor).repeat)
  {
    if lhs.anchor.repeat {
      lhs.anchor := lhs.anchor.(left := false);
    }
    if !(rhs.anchor.right && !rhs.anchor.repeat) {
      lhs.anchor := lhs.anchor.(right := false);
    }
  }

  /**
   * `lhs.concat(rhs)`. The left plan's own nodes change in place; the nodes of
   * the right plan become successors of them and are left as they are.
   */
  method Concat(lhs: QueryPlan, rhs: QueryPlan, ghost lnodes: set<QueryPlan>, ghost rnodes: set<QueryPlan>)
    returns (ghost nodes': set<QueryPlan>)
    requires Closed(lnodes) && lhs in lnodes && Closed(rnodes) && rhs in rnodes && lnodes !! rnodes
    requires lhs.anchor.right && rhs.anchor.left && lhs.edges != []
    modifies lnodes
    ensures nodes' <= lnodes + rnodes && Closed(nodes') && lhs in nodes'
    ensures lhs.tree == if rhs.edges == [] then old(lhs.tree) else Subst(old(lhs.tree), rhs.tree)
    ensures lhs.anchor == if rhs.edges == [] then old(lhs.anchor) else
        Anchor(old(lhs.anchor).left && !old(lhs.anchor).repeat, rhs.anchor.right && !rhs.anchor.repeat, old(lhs.anchor).repeat)
  {
    if rhs.edges == [] {
      return lnodes;
    }
    hide Closed, WasClosed, Redirected, ListsTails;
    var tails, seen := AllTails(lhs, lnodes);
    TakeClosed(seen);
    ghost var was := Take(seen);
    Redirect(tails, rhs, seen);
    Reanchor(lhs, rhs);
    Reseat(seen, was, rhs, rnodes);
    nodes' := seen + rnodes;
  }
}
