/** For which operands alternation is safe, although its result forgets that one of them repeats. */
module ForgottenRepeats {
  import opened Bytes
  import opened Plans
  import opened QueryPlans
  import opened PlanSoundness
  import opened Regexps
  import opened Wrappers

  /** No path of either plan goes on where a path of the other has ended. */
  ghost predicate Prefixless(lt: Plan, rt: Plan) {
    forall s, t | Path(lt, s) && Path(rt, t) && (s <= t || t <= s) :: s == t
  }

  /** Two plans that can be merged without giving up anywhere. */
  ghost predicate Mergeable(lt: Plan, rt: Plan) {
    lt.Node? && lt.edges != [] && rt.Node? && rt.edges != [] && Prefixless(lt, rt)
  }

  /** The plans that may be operands, with their anchors. */
  predicate Operand(t: Plan, a: Anchor) {
    t.Node? && WellFormed(t) && (a.right && t.edges != [] ==> Proper(t))
  }

  /** Every outcome alternation may have is sound, for all languages its operands are sound for. */
  ghost predicate AlternatesSafely(lt: Plan, a: Anchor, rt: Plan, b: Anchor) {
    forall ot, c | AlternateAnchors(lt, a, rt, b, ot, c) :: SafeOutcome(lt, a, rt, b, ot, c)
  }

  ghost predicate SafeOutcome(lt: Plan, a: Anchor, rt: Plan, b: Anchor, ot: Plan, c: Anchor) {
    forall l: Language, m: Language | Sound(l, lt, a) && Sound(m, rt, b) :: Sound(l + m, ot, c)
  }

  /**
   * For which operands alternation is safe, exactly: unless both are anchored on
   * both sides, one of them repeats, and they can be merged without giving up.
   */
  lemma AlternateSoundExactly(lt: Plan, a: Anchor, rt: Plan, b: Anchor)
    requires Operand(lt, a) && Operand(rt, b)
    ensures AlternatesSafely(lt, a, rt, b) <==> !(ForgetsRepeat(a, b) && Mergeable(lt, rt))
  {
    if ForgetsRepeat(a, b) && Mergeable(lt, rt) {
      var ot := Merge(lt, rt);
      UnsafeOutcome(lt, a, rt, b, ot);
    } else {
      forall ot, c | AlternateAnchors(lt, a, rt, b, ot, c) ensures SafeOutcome(lt, a, rt, b, ot, c) {
        forall l: Language, m: Language | Sound(l, lt, a) && Sound(m, rt, b) ensures Sound(l + m, ot, c) {
          SafeOtherwise(l, lt, a, m, rt, b, ot, c);
        }
      }
    }
  }

  lemma SafeOtherwise(l: Language, lt: Plan, a: Anchor, m: Language, rt: Plan, b: Anchor, ot: Plan, c: Anchor)
    requires Operand(lt, a) && Operand(rt, b) && Sound(l, lt, a) && Sound(m, rt, b)
    requires AlternateAnchors(lt, a, rt, b, ot, c) && !(ForgetsRepeat(a, b) && Mergeable(lt, rt))
    ensures Sound(l + m, ot, c)
  {
    if !ForgetsRepeat(a, b) {
      AlternateSound(l, lt, a, m, rt, b, ot, c);
    } else {
      if Whole(c) {
        var s, t :| Path(lt, s) && Path(rt, t) && (s <= t || t <= s) && s != t;
        if s <= t {
          PathsApart(ot, s, t);
        } else {
          PathsApart(ot, t, s);
        }
      }
      UpToRepeats(l, lt, a);
      UpToRepeats(m, rt, b);
      AlternateSoundUpToRepeats(l, lt, a, m, rt, b, ot, c);
      NotWhole(l + m, ot, c);
    }
  }

  /** In a plan with sorted edges no path is a proper prefix of another. */
  lemma {:induction false} PathsApart(p: Plan, s: Text, t: Text)
    requires WellFormed(p) && Path(p, s) && Path(p, t) && s <= t
    ensures s == t
    decreases |s|
  {
    if p.Node? {
      PathAt(p.edges, s);
      PathAt(p.edges, t);
      var next := At(p.edges, s[0]).value;
      PathsApart(next, s[1..], t[1..]);
      assert s == [s[0]] + s[1..] && t == [t[0]] + t[1..];
    }
  }

  /** What is proved of the merged edges for the bytes below `c`. */
  ghost predicate MergedBelow(ls: seq<Edge<Plan>>, rs: seq<Edge<Plan>>, os: seq<Edge<Plan>>, c: int) {
    EdgesBelow(os, c) && CombinedBelow(ls, rs, os, c)
  }

  /** Plans none of whose paths is a prefix of one of the other can be merged, byte by byte. */
  lemma {:induction false} Merge(lt: Plan, rt: Plan) returns (ot: Plan)
    requires WellFormed(lt) && Proper(lt) && WellFormed(rt) && Proper(rt) && Prefixless(lt, rt)
    ensures Alternates(lt, rt, ot) && Proper(ot) && (lt.Node? ==> ot.Node?)
    decreases lt
  {
    if lt.Tail? || rt.Tail? {
      BothTails(lt, rt);
      return Tail;
    }
    var os := [];
    for c := 0 to 256
      invariant MergedBelow(lt.edges, rt.edges, os, c)
    {
      var l, r := At(lt.edges, c), At(rt.edges, c);
      if l.Some? || r.Some? {
        var next: Plan;
        if l.None? {
          next := r.value;
        } else if r.None? {
          next := l.value;
        } else {
          PrefixlessBelow(lt, rt, c);
          next := Merge(l.value, r.value);
        }
        CoveredWalkable(if l.Some? then lt.edges else rt.edges, c, next);
        MergedMore(lt.edges, rt.edges, os, c, next);
        os := os + [Edge(c, c, next)];
      }
    }
    ot := Node(os);
    MergedAlternates(lt.edges, rt.edges, os);
  }

  ghost predicate EdgesBelow(os: seq<Edge<Plan>>, c: int) {
    WellFormed(Node(os)) && Sorted(os) && forall i | 0 <= i < |os| :: os[i].hi < c && Proper(os[i].next)
  }

  ghost predicate CombinedBelow(ls: seq<Edge<Plan>>, rs: seq<Edge<Plan>>, os: seq<Edge<Plan>>, c: int) {
    forall x: Byte | x < c :: Combines(At(ls, x), At(rs, x), At(os, x))
  }

  lemma EdgesMore(os: seq<Edge<Plan>>, c: Byte, next: Plan)
    requires EdgesBelow(os, c) && Walkable(Edge(c, c, next)) && WellFormed(next) && Proper(next)
    ensures EdgesBelow(os + [Edge(c, c, next)], c + 1)
  {
    var e := Edge(c, c, next);
    assert Sorted(os + [e]);
  }

  lemma MergedMore(ls: seq<Edge<Plan>>, rs: seq<Edge<Plan>>, os: seq<Edge<Plan>>, c: Byte, next: Plan)
    requires MergedBelow(ls, rs, os, c)
    requires Walkable(Edge(c, c, next)) && WellFormed(next) && Proper(next)
    requires Combines(At(ls, c), At(rs, c), Some(next))
    ensures MergedBelow(ls, rs, os + [Edge(c, c, next)], c + 1)
  {
    EdgesMore(os, c, next);
    hide At, Combines, WellFormed, Proper, Walkable;
    var e := Edge(c, c, next);
    forall x: Byte | x < c + 1 ensures Combines(At(ls, x), At(rs, x), At(os + [e], x)) {
      AppendAt(os, e, x);
    }
  }

  /** A byte that an edge of a well-formed plan covers may have an edge of its own. */
  lemma CoveredWalkable(es: seq<Edge<Plan>>, c: Byte, next: Plan)
    requires WellFormed(Node(es)) && At(es, c).Some?
    ensures Walkable(Edge(c, c, next)) && WellFormed(At(es, c).value)
    ensures Proper(Node(es)) ==> Proper(At(es, c).value)
  {
    var i :| 0 <= i < |es| && Covers(es[i], c) && es[i].next == At(es, c).value;
  }

  lemma BothTails(lt: Plan, rt: Plan)
    requires WellFormed(lt) && Proper(lt) && WellFormed(rt) && Proper(rt) && Prefixless(lt, rt)
    requires lt.Tail? || rt.Tail?
    ensures lt.Tail? && rt.Tail? && Alternates(lt, rt, Tail)
  {
    var s := SomePath(lt);
    var t := SomePath(rt);
    assert s == t == [];
  }

  lemma PathUnder(p: Plan, c: Byte, t: Text)
    requires p.Node? && Sorted(p.edges) && At(p.edges, c).Some? && Path(At(p.edges, c).value, t)
    ensures Path(p, [c] + t)
  {
    PathAt(p.edges, [c] + t);
    assert ([c] + t)[1..] == t;
  }

  lemma PrefixlessBelow(lt: Plan, rt: Plan, c: Byte)
    requires lt.Node? && Sorted(lt.edges) && rt.Node? && Sorted(rt.edges) && Prefixless(lt, rt)
    requires At(lt.edges, c).Some? && At(rt.edges, c).Some?
    ensures Prefixless(At(lt.edges, c).value, At(rt.edges, c).value)
  {
    var l, r := At(lt.edges, c).value, At(rt.edges, c).value;
    forall s, t | Path(l, s) && Path(r, t) && (s <= t || t <= s) ensures s == t {
      PathUnder(lt, c, s);
      PathUnder(rt, c, t);
      PrefixUnder(c, s, t);
    }
  }

  lemma PrefixUnder(c: Byte, s: Text, t: Text)
    requires s <= t || t <= s
    ensures [c] + s <= [c] + t || [c] + t <= [c] + s
    ensures [c] + s == [c] + t ==> s == t
  {
    assert ([c] + s)[1..] == s && ([c] + t)[1..] == t;
  }

  /** A merged plan, anchored on both sides, is not sound for some language that an operand is sound for. */
  lemma UnsafeOutcome(lt: Plan, a: Anchor, rt: Plan, b: Anchor, ot: Plan)
    requires Operand(lt, a) && Operand(rt, b) && ForgetsRepeat(a, b) && Mergeable(lt, rt)
    requires Alternates(lt, rt, ot) && Proper(ot) && ot.Node?
    ensures !AlternatesSafely(lt, a, rt, b)
  {
    var c := kAnchorBoth;
    assert AlternateAnchors(lt, a, rt, b, ot, c);
    var l: Language, m: Language := iset{}, iset{};
    var w;
    if a.repeat {
      w := RepeatedPath(lt, a, ot);
      l := iset{w};
    } else {
      w := RepeatedPath(rt, b, ot);
      m := iset{w};
    }
    assert w in l + m && !SoundFor(w, ot, c);
    assert Sound(l, lt, a) && Sound(m, rt, b) && !Sound(l + m, ot, c);
    assert !SafeOutcome(lt, a, rt, b, ot, c);
  }

  function Power(p: Text, n: nat): (r: Text)
    ensures |p| >= 1 ==> |r| >= n
  {
    if n == 0 then [] else p + Power(p, n - 1)
  }

  lemma {:induction false} SomePath(t: Plan) returns (p: Text)
    requires Proper(t) && WellFormed(t)
    ensures Path(t, p)
    decreases t
  {
    match t
    case Tail =>
      p := [];
    case Node(edges) =>
      var q := SomePath(edges[0].next);
      p := [edges[0].lo] + q;
      assert Covers(edges[0], p[0]) && p[1..] == q;
  }

  /** A repeated path that is sound for the operand and too long to be a path of the result. */
  lemma RepeatedPath(t: Plan, a: Anchor, ot: Plan) returns (w: Text)
    requires t.Node? && Proper(t) && WellFormed(t) && a == Anchor(true, true, true)
    requires exists rt :: Alternates(t, rt, ot) || Alternates(rt, t, ot)
    ensures Sound(iset{w}, t, a) && !Path(ot, w)
  {
    var p := SomePath(t);
    assert p != [];
    w := Power(p, Depth(ot) + 1);
    if Path(ot, w) {
      PathNoLongerThanDepth(ot, w);
    }
    PowerSound(t, p, Depth(ot) + 1);
  }

  /** A path repeated is walked over from its start, and ends with a path. */
  lemma PowerSound(t: Plan, p: Text, n: nat)
    requires t.Node? && Proper(t) && Path(t, p) && n >= 1
    ensures Sound(iset{Power(p, n)}, t, Anchor(true, true, true))
  {
    var w := Power(p, n);
    assert w == p + Power(p, n - 1) && w[0..] == w;
    PathWalks(t, p);
    WalkExtends(t, p, Power(p, n - 1));
    PowerEnds(p, n);
    assert t != Node([]);
    hide Walk, Path, Power, Proper;
    assert WalksFrom(t, w, 0) && PathFrom(t, w, |w| - |p|);
    assert SoundFor(w, t, Anchor(true, true, true));
  }

  lemma {:induction false} PowerEnds(p: Text, n: nat)
    requires n >= 1
    ensures |Power(p, n)| >= |p| && Power(p, n)[|Power(p, n)| - |p|..] == p
  {
    if n > 1 {
      PowerEnds(p, n - 1);
      var q := Power(p, n - 1);
      assert (p + q)[|p + q| - |p|..] == q[|q| - |p|..];
    } else {
      assert Power(p, 1) == p + Power(p, 0) == p;
    }
  }
}
