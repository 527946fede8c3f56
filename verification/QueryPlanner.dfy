/**
 * The walk over a regular expression: one plan per subexpression, combined in
 * place. The node sets of different plans stay disjoint until they are combined.
 */
module QueryPlanner {
  import opened Bytes
  import opened Plans
  import opened QueryPlans
  import PlanConcat
  import opened PlanSoundness
  import opened Regexps
  import opened IndexWalker

  /** The plans of a list of subexpressions, with their nodes and languages. */
  ghost predicate Children(keys: seq<QueryPlan>, nodes: seq<set<QueryPlan>>, langs: seq<Language>, all: set<QueryPlan>)
    reads keys, all
  {
    && |keys| == |nodes| == |langs|
    && (forall i | 0 <= i < |keys| :: nodes[i] <= all && keys[i] in nodes[i])
    && (forall i, j | 0 <= i < j < |keys| :: nodes[i] !! nodes[j])
    && (forall i | 0 <= i < |keys| :: Good(langs[i], keys[i], nodes[i]))
  }

  lemma ChildrenPush(keys: seq<QueryPlan>, nodes: seq<set<QueryPlan>>, langs: seq<Language>, all: set<QueryPlan>,
                     key: QueryPlan, its: set<QueryPlan>, l: Language)
    requires Children(keys, nodes, langs, all) && Good(l, key, its) && all !! its
    ensures Children(keys + [key], nodes + [its], langs + [l], all + its)
  {
    hide Good;
    assert key in its by { GoodClosed(l, key, its); }
  }

  lemma NoChildren()
    ensures Children([], [], [], {})
  {
  }

  lemma ChildrenLengths(keys: seq<QueryPlan>, nodes: seq<set<QueryPlan>>, langs: seq<Language>, all: set<QueryPlan>)
    requires Children(keys, nodes, langs, all)
    ensures |keys| == |nodes| == |langs|
  {
  }

  // ----- What a plan may look like from outside -----

  datatype Shape = Shape(anchor: Anchor, empty: bool)

  function ShapeOf(key: QueryPlan): Shape
    reads key
  {
    Shape(key.anchor, key.edges == [])
  }

  function Shapes(keys: seq<QueryPlan>): (shapes: seq<Shape>)
    reads keys
  {
    seq(|keys|, i requires 0 <= i < |keys| reads keys => ShapeOf(keys[i]))
  }

  /** The plan of the empty string alone. */
  predicate EmptyStart(s: Shape) {
    s.empty && s.anchor.left
  }

  /** The shapes the plan of an expression may have. */
  predicate Fits(s: Shape, re: Regexp) {
    && (EmptyStart(s) ==> MayBeEmpty(re))
    && (Whole(s.anchor) ==> MayBeWhole(re))
    && (Loops(s.anchor) ==> MayRepeat(re))
  }

  predicate AllFit(shapes: seq<Shape>, subs: seq<Regexp>) {
    |shapes| == |subs| && forall i | 0 <= i < |subs| :: Fits(shapes[i], subs[i])
  }

  /** A concatenation loses an anchor unless all its parts are joined, and joining with a repetition takes one away. */
  predicate ConcatShape(shapes: seq<Shape>, s: Shape) {
    && !EmptyStart(s)
    && (Whole(s.anchor) ==>
      shapes != [] && forall i | 0 <= i < |shapes| :: Whole(shapes[i].anchor) || EmptyStart(shapes[i]))
    && (Loops(s.anchor) ==>
      shapes != [] && Loops(shapes[0].anchor) && forall i | 1 <= i < |shapes| :: EmptyStart(shapes[i]))
  }

  predicate AlternateShape(shapes: seq<Shape>, s: Shape) {
    if |shapes| == 1 then s == shapes[0]
    else
      && !s.anchor.repeat && !EmptyStart(s)
      && (Whole(s.anchor) ==> forall i | 0 <= i < |shapes| :: Whole(shapes[i].anchor))
  }

  /** Whether folding alternation over these plans may forget a repetition. */
  predicate Forgets(shapes: seq<Shape>) {
    && |shapes| > 1
    && (forall i | 0 <= i < |shapes| :: Whole(shapes[i].anchor))
    && exists i | 0 <= i < |shapes| :: shapes[i].anchor.repeat
  }

  lemma ConcatShapeStep(shapes: seq<Shape>, s: Shape, next: Shape, t: Shape)
    requires ConcatShape(shapes, s) && shapes != [] && ConcatShape([s, next], t)
    ensures ConcatShape(shapes + [next], t)
  {
    assert Whole(t.anchor) ==> Whole([s, next][0].anchor) && (Whole([s, next][1].anchor) || EmptyStart([s, next][1]));
    assert Loops(t.anchor) ==> Loops([s, next][0].anchor) && EmptyStart([s, next][1]);
  }

  lemma ConcatFits(shapes: seq<Shape>, subs: seq<Regexp>, s: Shape)
    requires AllFit(shapes, subs) && ConcatShape(shapes, s)
    ensures Fits(s, Concat(subs))
  {
    forall i | 0 <= i < |subs| && EmptyStart(shapes[i]) ensures MayBeEmpty(subs[i]) && MayBeWhole(subs[i]) {
      EmptyIsWhole(subs[i]);
    }
  }

  lemma FoldsFit(shapes: seq<Shape>, folds: seq<Regexp>, s: Shape)
    requires AllFit(shapes, folds) && (forall i | 0 <= i < |folds| :: folds[i].FoldLiteral?) && ConcatShape(shapes, s)
    ensures Fits(s, FoldString(folds))
  {
  }

  lemma AlternateFits(shapes: seq<Shape>, subs: seq<Regexp>, s: Shape)
    requires AllFit(shapes, subs) && subs != [] && AlternateShape(shapes, s)
    ensures Fits(s, Alternate(subs))
    ensures Forgets(shapes) ==> ForgetsRepetition(subs)
  {
    if Forgets(shapes) {
      var i :| 0 <= i < |shapes| && shapes[i].anchor.repeat;
      assert Loops(shapes[i].anchor);
    }
  }

  /** Combines two plans that follow each other, one of three ways. */
  method ConcatPair(lhs: QueryPlan, rhs: QueryPlan, ghost l: Language, ghost m: Language,
                    ghost lnodes: set<QueryPlan>, ghost rnodes: set<QueryPlan>)
    returns (out: QueryPlan, ghost nodes: set<QueryPlan>)
    requires Good(l, lhs, lnodes) && Good(m, rhs, rnodes) && lnodes !! rnodes
    requires !EmptyStart(ShapeOf(lhs))
    modifies lnodes, rnodes
    ensures nodes <= lnodes + rnodes && Good(Cat(l, m), out, nodes)
    ensures ConcatShape([old(ShapeOf(lhs)), old(ShapeOf(rhs))], ShapeOf(out))
  {
    hide WellFormed, Proper, Cat, Sound;
    assert lhs.tree == Node([]) <==> lhs.edges == [];
    assert rhs.tree == Node([]) <==> rhs.edges == [];
    var fits: bool := *;
    var preferLeft: bool := *;
    if lhs.anchor.right && rhs.anchor.left && lhs.edges != [] && fits {
      ConcatSound(l, lhs.tree, lhs.anchor, m, rhs.tree, rhs.anchor);
      nodes := PlanConcat.Concat(lhs, rhs, lnodes, rnodes);
      out := lhs;
      assert out.edges != [];
    } else if preferLeft {
      KeepLeftSound(l, m, lhs.tree, lhs.anchor);
      out, nodes := lhs, lnodes;
      out.anchor := out.anchor.(right := false);
    } else {
      KeepRightSound(l, m, rhs.tree, rhs.anchor);
      out, nodes := rhs, rnodes;
      out.anchor := out.anchor.(left := false);
    }
  }

  /** Combines the plans of consecutive subexpressions, from a start of the planner's choice. */
  method ConcatAll(keys: seq<QueryPlan>, ghost nodes: seq<set<QueryPlan>>, ghost langs: seq<Language>, ghost all: set<QueryPlan>)
    returns (out: QueryPlan, ghost nodes': set<QueryPlan>)
    requires Children(keys, nodes, langs, all)
    modifies all
    ensures fresh(nodes' - all) && Good(CatAll(langs), out, nodes')
    ensures ConcatShape(old(Shapes(keys)), ShapeOf(out))
  {
    var best: int := -1;
    for i := 0 to |keys|
      invariant -1 <= best < i && (best >= 0 ==> keys[best].edges != [])
    {
      var preferred: bool := *;
      if keys[i].edges != [] && preferred {
        best := i;
      }
    }
    if best == -1 {
      out, nodes' := AnyKey(CatAll(langs));
      return;
    }
    out, nodes' := ConcatFrom(keys, nodes, langs, all, best);
    CatAllCut(langs[..best], langs[best..]);
    assert langs == langs[..best] + langs[best..];
    KeepRightSound(CatAll(langs[..best]), CatAll(langs[best..]), out.tree, out.anchor);
    if best != 0 {
      out.anchor := out.anchor.(left := false);
      SoundSubset(CatAll(langs), Cat(CatAll(langs[..best]), CatAll(langs[best..])), out.tree, out.anchor);
    } else {
      assert langs[0..] == langs;
    }
  }

  method ConcatFrom(keys: seq<QueryPlan>, ghost nodes: seq<set<QueryPlan>>, ghost langs: seq<Language>,
                    ghost all: set<QueryPlan>, best: nat)
    returns (out: QueryPlan, ghost nodes': set<QueryPlan>)
    requires Children(keys, nodes, langs, all) && best < |keys| && keys[best].edges != []
    modifies all
    ensures nodes' <= all && Good(CatAll(langs[best..]), out, nodes')
    ensures ConcatShape(old(Shapes(keys))[best..], ShapeOf(out))
  {
    hide Good, CatAll, Cat, ConcatShape;
    ghost var shapes := Shapes(keys);
    out, nodes' := keys[best], nodes[best];
    StartGood(langs, best, out, nodes');
    StartShape(shapes, best);
    for i := best + 1 to |keys|
      invariant nodes' <= all && Good(CatAll(langs[best..i]), out, nodes')
      invariant ConcatShape(shapes[best..i], ShapeOf(out))
      invariant forall j | i <= j < |keys| :: nodes' !! nodes[j]
      invariant forall j | i <= j < |keys| :: Good(langs[j], keys[j], nodes[j])
      invariant forall j | i <= j < |keys| :: ShapeOf(keys[j]) == shapes[j]
    {
      ghost var before, s := nodes', ShapeOf(out);
      NotEmptyStart(shapes[best..i], s);
      out, nodes' := ConcatPair(out, keys[i], CatAll(langs[best..i]), langs[i], nodes', nodes[i]);
      StepGood(langs, best, i, out, nodes');
      ConcatShapeStep(shapes[best..i], s, shapes[i], ShapeOf(out));
      assert shapes[best..i] + [shapes[i]] == shapes[best..i + 1];
      forall j | i + 1 <= j < |keys| ensures nodes' !! nodes[j] && keys[j] in nodes[j] {
        assert nodes[i] !! nodes[j] && before !! nodes[j];
      }
    }
    assert langs[best..|keys|] == langs[best..] && shapes[best..|keys|] == shapes[best..];
  }

  lemma StartShape(shapes: seq<Shape>, best: nat)
    requires best < |shapes| && !shapes[best].empty
    ensures ConcatShape(shapes[best..best + 1], shapes[best])
  {
  }

  lemma NotEmptyStart(shapes: seq<Shape>, s: Shape)
    requires ConcatShape(shapes, s)
    ensures !EmptyStart(s)
  {
  }

  lemma StartGood(langs: seq<Language>, best: nat, out: QueryPlan, nodes: set<QueryPlan>)
    requires best < |langs| && Good(langs[best], out, nodes)
    ensures Good(CatAll(langs[best..best + 1]), out, nodes)
  {
    assert langs[best..best + 1] == [langs[best]];
    CatAllOne(langs[best]);
    SoundSubset(CatAll([langs[best]]), langs[best], out.tree, out.anchor);
  }

  lemma StepGood(langs: seq<Language>, best: nat, i: nat, out: QueryPlan, nodes: set<QueryPlan>)
    requires best <= i < |langs| && Good(Cat(CatAll(langs[best..i]), langs[i]), out, nodes)
    ensures Good(CatAll(langs[best..i + 1]), out, nodes)
  {
    assert langs[best..i + 1] == langs[best..i] + [langs[i]];
    CatAllCut(langs[best..i], [langs[i]]);
    CatAllOne(langs[i]);
    SoundSubset(CatAll(langs[best..i + 1]), Cat(CatAll(langs[best..i]), langs[i]), out.tree, out.anchor);
  }

  /** What holds once alternation has been folded over the first `i` plans. */
  ghost predicate Folded(shapes: seq<Shape>, langs: seq<Language>, i: nat, key: QueryPlan)
    requires i <= |shapes| == |langs|
    reads key
  {
    && AlternateShape(shapes[..i], ShapeOf(key))
    && SoundUpToRepeats(UnionOf(langs[..i]), key.tree, key.anchor)
    && (!Forgets(shapes[..i]) ==> Sound(UnionOf(langs[..i]), key.tree, key.anchor))
  }

  /** Folds alternation over the plans. */
  method AlternateAll(keys: seq<QueryPlan>, ghost nodes: seq<set<QueryPlan>>, ghost langs: seq<Language>, ghost all: set<QueryPlan>)
    returns (key: QueryPlan, ghost nodes': set<QueryPlan>)
    requires Children(keys, nodes, langs, all) && keys != [] && Closed(all)
    ensures all <= nodes' && fresh(nodes' - all)
    ensures Good(if Forgets(Shapes(keys)) then iset{} else UnionOf(langs), key, nodes')
    ensures AlternateShape(Shapes(keys), ShapeOf(key))
  {
    hide Sound, SoundUpToRepeats, CacheValid, Closed, UnionOf, Folded, Forgets, AlternateShape;
    var cache: AlternateCache := map[];
    assert CacheValid(cache, all) by { EmptyCacheValid(all); }
    key, nodes' := keys[0], all;
    ghost var shapes := Shapes(keys);
    FoldStarts(shapes, langs, key);
    for i := 1 to |keys|
      invariant all <= nodes' && fresh(nodes' - all) && CacheValid(cache, nodes') && Closed(nodes') && key in nodes'
      invariant Folded(shapes, langs, i, key) && (i == 1 ==> key == keys[0])
    {
      var lhs := key;
      FoldedSound(shapes, langs, i, lhs);
      UpToRepeats(langs[i], keys[i].tree, keys[i].anchor);
      assert i == 1 ==> lhs != keys[i] by { ChildrenApart(keys, nodes, langs, all, i); }
      key, cache, nodes' := AlternateKeys(cache, lhs, keys[i], UnionOf(langs[..i]), langs[i], nodes');
      FoldStep(shapes, langs, i, lhs, keys[i], key);
    }
    assert langs[..|keys|] == langs && shapes[..|keys|] == shapes;
    FoldEnds(shapes, langs, key);
  }

  lemma ChildrenApart(keys: seq<QueryPlan>, nodes: seq<set<QueryPlan>>, langs: seq<Language>, all: set<QueryPlan>, i: nat)
    requires Children(keys, nodes, langs, all) && 1 <= i < |keys|
    ensures keys[0] != keys[i]
  {
    assert nodes[0] !! nodes[i];
  }

  lemma FoldStarts(shapes: seq<Shape>, langs: seq<Language>, key: QueryPlan)
    requires |shapes| == |langs| >= 1 && shapes[0] == ShapeOf(key) && Sound(langs[0], key.tree, key.anchor)
    ensures Folded(shapes, langs, 1, key)
  {
    assert UnionOf(langs[..1]) <= langs[0];
    SoundSubset(UnionOf(langs[..1]), langs[0], key.tree, key.anchor);
    UpToRepeats(UnionOf(langs[..1]), key.tree, key.anchor);
  }

  lemma FoldedSound(shapes: seq<Shape>, langs: seq<Language>, i: nat, key: QueryPlan)
    requires i <= |shapes| == |langs| && Folded(shapes, langs, i, key)
    ensures SoundUpToRepeats(UnionOf(langs[..i]), key.tree, key.anchor)
  {
  }

  lemma FoldEnds(shapes: seq<Shape>, langs: seq<Language>, key: QueryPlan)
    requires |shapes| == |langs| && Folded(shapes, langs, |shapes|, key)
    ensures Sound(if Forgets(shapes) then iset{} else UnionOf(langs), key.tree, key.anchor)
    ensures AlternateShape(shapes, ShapeOf(key))
  {
    assert shapes[..|shapes|] == shapes && langs[..|langs|] == langs;
  }

  lemma UpToRepeatsSubset(l: Language, m: Language, t: Plan, a: Anchor)
    requires SoundUpToRepeats(m, t, a) && l <= m
    ensures SoundUpToRepeats(l, t, a)
  {
    SoundSubset(l, m, t, a.(repeat := true));
  }

  lemma UnionMore(langs: seq<Language>, i: nat)
    requires i < |langs|
    ensures UnionOf(langs[..i + 1]) <= UnionOf(langs[..i]) + langs[i]
  {
    forall w | w in UnionOf(langs[..i + 1]) ensures w in UnionOf(langs[..i]) + langs[i] {
      var j :| 0 <= j <= i && w in langs[..i + 1][j];
      if j < i {
        assert w in langs[..i][j];
      }
    }
  }

  lemma FoldStep(shapes: seq<Shape>, langs: seq<Language>, i: nat, lhs: QueryPlan, rhs: QueryPlan, key: QueryPlan)
    requires 1 <= i < |shapes| == |langs| && Folded(shapes, langs, i, lhs) && shapes[i] == ShapeOf(rhs)
    requires SoundUpToRepeats(UnionOf(langs[..i]) + langs[i], key.tree, key.anchor)
    requires Sound(UnionOf(langs[..i]), lhs.tree, lhs.anchor) && !ForgetsRepeat(lhs.anchor, rhs.anchor)
      ==> Sound(UnionOf(langs[..i]) + langs[i], key.tree, key.anchor)
    requires if lhs == rhs then key == lhs && i != 1 else AlternateKeeps(lhs, rhs, key)
    ensures Folded(shapes, langs, i + 1, key)
  {
    var l, more := UnionOf(langs[..i]) + langs[i], UnionOf(langs[..i + 1]);
    UnionMore(langs, i);
    UpToRepeatsSubset(more, l, key.tree, key.anchor);
    FoldShape(shapes, i, ShapeOf(lhs), ShapeOf(key), lhs == rhs);
    hide Forgets, AlternateShape, UnionOf, Sound, SoundUpToRepeats;
    if !Forgets(shapes[..i + 1]) {
      if Whole(key.anchor) {
        SoundSubset(more, l, key.tree, key.anchor);
      } else {
        NotWhole(more, key.tree, key.anchor);
      }
    }
  }

  /** `s` is the shape of the plans before `i`, `t` the one once plan `i` has been taken in. */
  lemma FoldShape(shapes: seq<Shape>, i: nat, s: Shape, t: Shape, same: bool)
    requires 1 <= i < |shapes| && AlternateShape(shapes[..i], s)
    requires if same then t == s == shapes[i] && i != 1
      else
        && !t.anchor.repeat && !EmptyStart(t)
        && (t.anchor.left ==> s.anchor.left && shapes[i].anchor.left)
        && (t.anchor.right ==> s.anchor.right && shapes[i].anchor.right)
    ensures AlternateShape(shapes[..i + 1], t)
    ensures Whole(t.anchor) && !Forgets(shapes[..i + 1]) ==>
      !Forgets(shapes[..i]) && !s.anchor.repeat && !shapes[i].anchor.repeat
  {
    var few, more := shapes[..i], shapes[..i + 1];
    assert more == few + [shapes[i]];
    if Whole(t.anchor) {
      assert forall j | 0 <= j < i :: Whole(few[j].anchor);
      assert forall j | 0 <= j < i :: more[j] == few[j];
      assert few[0] == more[0] && more[i] == shapes[i];
    }
  }

  lemma EmptyCacheValid(nodes: set<QueryPlan>)
    ensures CacheValid(map[], nodes)
  {
  }

  ghost predicate InSome(langs: seq<Language>, w: Text) {
    exists i | 0 <= i < |langs| :: w in langs[i]
  }

  ghost function UnionOf(langs: seq<Language>): Language {
    iset w | InSome(langs, w)
  }

  /** The plans of the subexpressions, each with nodes of its own. */
  method BuildAll(subs: seq<Regexp>)
    returns (keys: seq<QueryPlan>, ghost nodes: seq<set<QueryPlan>>, ghost langs: seq<Language>,
             ghost all: set<QueryPlan>, ghost forgets: bool)
    requires forall i | 0 <= i < |subs| :: InScope(subs[i])
    ensures fresh(all) && Children(keys, nodes, langs, all) && Closed(all) && |keys| == |subs|
    ensures !forgets ==> forall i | 0 <= i < |subs| :: langs[i] == Lang(subs[i])
    ensures AllFit(Shapes(keys), subs)
    ensures (forall i | 0 <= i < |subs| :: ForgetsNoRepetition(subs[i])) ==> !forgets
    decreases subs, 0
  {
    hide Children, Good, Closed, Lang, InScope, Fits, AllFit, Shapes, ShapeOf, ForgetsNoRepetition;
    keys, nodes, langs, all, forgets := [], [], [], {}, false;
    NoChildren();
    EmptyClosed();
    for i := 0 to |subs|
      invariant fresh(all) && Children(keys, nodes, langs, all) && Closed(all) && |langs| == |keys| == i
      invariant !forgets ==> forall j | 0 <= j < i :: langs[j] == Lang(subs[j])
      invariant forall j | 0 <= j < i :: Fits(ShapeOf(keys[j]), subs[j])
      invariant (forall j | 0 <= j < i :: ForgetsNoRepetition(subs[j])) ==> !forgets
    {
      ghost var bad;
      var key;
      ghost var its;
      key, its, bad := Build(subs[i]);
      ghost var l := if bad then iset{} else Lang(subs[i]);
      GoodClosed(l, key, its);
      UnionClosed(all, its);
      ChildrenLengths(keys, nodes, langs, all);
      ChildrenPush(keys, nodes, langs, all, key, its, l);
      keys, nodes, langs, all := keys + [key], nodes + [its], langs + [l], all + its;
      forgets := forgets || bad;
    }
    ShapesFit(keys, subs);
  }

  lemma ShapesFit(keys: seq<QueryPlan>, subs: seq<Regexp>)
    requires |keys| == |subs| && forall i | 0 <= i < |subs| :: Fits(ShapeOf(keys[i]), subs[i])
    ensures AllFit(Shapes(keys), subs)
  {
  }

  lemma EmptyClosed()
    ensures Closed({})
  {
  }

  lemma GoodClosed(l: Language, key: QueryPlan, nodes: set<QueryPlan>)
    requires Good(l, key, nodes)
    ensures Closed(nodes) && key in nodes
  {
  }

  /** The plan of every folded rune. */
  method FoldKeys(folds: seq<Regexp>)
    returns (keys: seq<QueryPlan>, ghost nodes: seq<set<QueryPlan>>, ghost langs: seq<Language>, ghost all: set<QueryPlan>)
    requires forall i | 0 <= i < |folds| :: folds[i].FoldLiteral? && InScope(folds[i])
    ensures fresh(all) && Children(keys, nodes, langs, all) && |keys| == |folds|
    ensures (forall i | 0 <= i < |folds| :: langs[i] == Lang(folds[i])) && AllFit(Shapes(keys), folds)
  {
    keys, nodes, langs, all := [], [], [], {};
    NoChildren();
    hide Children, Good, Lang, InScope, Closed, Fits;
    for i := 0 to |folds|
      invariant fresh(all) && Children(keys, nodes, langs, all) && |langs| == |keys| == i
      invariant forall j | 0 <= j < i :: langs[j] == Lang(folds[j])
      invariant forall j | 0 <= j < i :: Fits(ShapeOf(keys[j]), folds[j])
    {
      var key;
      ghost var its;
      key, its := CaseFoldLiteral(folds[i]);
      ChildrenLengths(keys, nodes, langs, all);
      ChildrenPush(keys, nodes, langs, all, key, its, Lang(folds[i]));
      FoldFits(folds[i], ShapeOf(key));
      keys, nodes, langs, all := keys + [key], nodes + [its], langs + [Lang(folds[i])], all + its;
    }
  }

  lemma FoldFits(re: Regexp, s: Shape)
    requires re.FoldLiteral? && !s.anchor.repeat && if re.rune > 127 then !s.anchor.left else !s.empty
    ensures Fits(s, re)
  {
  }

  /**
   * The plan of an expression. Unless an alternation forgot a repetition, the
   * plan is sound for everything the expression matches.
   */
  method Build(re: Regexp) returns (key: QueryPlan, ghost nodes: set<QueryPlan>, ghost forgets: bool)
    requires InScope(re)
    ensures fresh(nodes) && Good(if forgets then iset{} else Lang(re), key, nodes)
    ensures Fits(ShapeOf(key), re)
    ensures ForgetsNoRepetition(re) ==> !forgets
    decreases re, 2
  {
    hide Good, MatchesInOrder, MatchesTimes;
    forgets := false;
    var outOfBudget: bool := *;
    if outOfBudget {
      key, nodes := AnyKey(Lang(re));
      return;
    }
    match re
    case NoMatch => key, nodes := EmptyKey(Lang(re));
    case ZeroWidth => key, nodes := EmptyKey(Lang(re));
    case AnyChar => key, nodes := AnyKey(Lang(re));
    case AnyByte => key, nodes := AnyKey(Lang(re));
    case Literal(rune) =>
      Runes.EncodeBytes(rune);
      key, nodes := LiteralKey(Runes.Encode(rune), Lang(re));
    case FoldLiteral(_, _) => key, nodes := CaseFoldLiteral(re);
    case LiteralString(runes) =>
      EncodeAllPrintable(runes);
      key, nodes := LiteralKey(EncodeAll(runes), Lang(re));
    case FoldString(_) => key, nodes := BuildFolds(re);
    case CharClass(ranges) =>
      key, nodes := CClass(ranges);
      ClassLang(ranges);
    case Concat(_) => key, nodes, forgets := BuildConcat(re);
    case Alternate(_) => key, nodes, forgets := BuildAlternate(re);
    case Star(_) => key, nodes := AnyKey(Lang(re));
    case Quest(_) => key, nodes := AnyKey(Lang(re));
    case Capture(sub) =>
      key, nodes, forgets := Build(sub);
      if !forgets {
        assert Lang(re) == Lang(sub);
      }
    case Repeat(sub, min, _) =>
      if min == 0 {
        key, nodes := AnyKey(Lang(re));
        return;
      }
      key, nodes, forgets := Build(sub);
      GoodClosed(if forgets then iset{} else Lang(sub), key, nodes);
      PlusKey(sub, re, key, nodes, forgets);
    case Plus(sub) =>
      key, nodes, forgets := Build(sub);
      GoodClosed(if forgets then iset{} else Lang(sub), key, nodes);
      PlusKey(sub, re, key, nodes, forgets);
  }

  method BuildFolds(re: Regexp) returns (key: QueryPlan, ghost nodes: set<QueryPlan>)
    requires re.FoldString? && InScope(re)
    ensures fresh(nodes) && Good(Lang(re), key, nodes) && Fits(ShapeOf(key), re)
  {
    var folds := re.folds;
    if folds == [] {
      forall w | w in Lang(re) ensures w == [] {
        assert MatchesInOrder([], w);
      }
      key, nodes := EmptyKey(Lang(re));
      return;
    }
    hide Good, Matches, MatchesInOrder, Fits, MayBeEmpty, MayBeWhole, MayRepeat;
    var keys;
    ghost var its, langs, all;
    keys, its, langs, all := FoldKeys(folds);
    ghost var shapes := Shapes(keys);
    key, nodes := ConcatAll(keys, its, langs, all);
    FoldsFit(shapes, folds, ShapeOf(key));
    InOrderGood(folds, re, langs, key, nodes);
  }

  method BuildConcat(re: Regexp) returns (key: QueryPlan, ghost nodes: set<QueryPlan>, ghost forgets: bool)
    requires re.Concat? && InScope(re)
    ensures fresh(nodes) && Good(if forgets then iset{} else Lang(re), key, nodes)
    ensures Fits(ShapeOf(key), re) && (ForgetsNoRepetition(re) ==> !forgets)
    decreases re, 1
  {
    hide Good, Matches, MatchesInOrder, Fits, MayBeEmpty, MayBeWhole, MayRepeat;
    var subs := re.subs;
    var keys;
    ghost var its, langs, all;
    keys, its, langs, all, forgets := BuildAll(subs);
    ghost var shapes := Shapes(keys);
    key, nodes := ConcatAll(keys, its, langs, all);
    ConcatFits(shapes, subs, ShapeOf(key));
    if forgets {
      NothingGood(CatAll(langs), key, nodes);
    } else {
      InOrderGood(subs, re, langs, key, nodes);
    }
  }

  method BuildAlternate(re: Regexp) returns (key: QueryPlan, ghost nodes: set<QueryPlan>, ghost forgets: bool)
    requires re.Alternate? && InScope(re)
    ensures fresh(nodes) && Good(if forgets then iset{} else Lang(re), key, nodes)
    ensures Fits(ShapeOf(key), re) && (ForgetsNoRepetition(re) ==> !forgets)
    decreases re, 1
  {
    hide Good, Matches, Fits, Forgets, MayBeEmpty, MayBeWhole, MayRepeat, ForgetsRepetition;
    var subs := re.subs;
    var keys;
    ghost var its, langs, all, bad;
    keys, its, langs, all, bad := BuildAll(subs);
    key, nodes := AlternateAll(keys, its, langs, all);
    AlternateFits(Shapes(keys), subs, ShapeOf(key));
    forgets := Forgets(Shapes(keys));
    if forgets || bad {
      NothingGood(if forgets then iset{} else UnionOf(langs), key, nodes);
      forgets := true;
    } else {
      UnionGood(subs, langs, key, nodes);
    }
  }

  /** Marks a plan as repeated, if it is anchored on both sides. */
  method PlusKey(sub: Regexp, re: Regexp, key: QueryPlan, ghost nodes: set<QueryPlan>, ghost forgets: bool)
    requires Good(if forgets then iset{} else Lang(sub), key, nodes)
    requires re == Plus(sub) || (re.Repeat? && re.sub == sub && re.min > 0)
    requires Fits(ShapeOf(key), sub)
    modifies key
    ensures Good(if forgets then iset{} else Lang(re), key, nodes)
    ensures Fits(ShapeOf(key), re)
  {
    if !forgets {
      forall w | w in Lang(re) ensures Repeats(sub, w) {
        assert Matches(re, w);
      }
      PlusSound(sub, key.tree, key.anchor, Lang(re));
    }
    if key.anchor.left && key.anchor.right {
      key.anchor := key.anchor.(repeat := true);
    }
  }

  lemma {:induction false} EncodeAllPrintable(runes: seq<Runes.Rune>)
    requires NEWLINE !in runes
    ensures Printable(EncodeAll(runes)) && (runes != [] ==> EncodeAll(runes) != [])
  {
    if runes != [] {
      Runes.EncodeBytes(runes[0]);
      EncodeAllPrintable(runes[1..]);
    }
  }

  lemma InOrderGood(subs: seq<Regexp>, re: Regexp, langs: seq<Language>, key: QueryPlan, nodes: set<QueryPlan>)
    requires re == Concat(subs) || re == FoldString(subs)
    requires |langs| == |subs| && forall i | 0 <= i < |subs| :: langs[i] == Lang(subs[i])
    requires Good(CatAll(langs), key, nodes)
    ensures Good(Lang(re), key, nodes)
  {
    forall w | w in Lang(re) ensures w in CatAll(langs) {
      MatchesInOrderCatAll(subs, langs, w);
    }
    SoundSubset(Lang(re), CatAll(langs), key.tree, key.anchor);
  }

  lemma UnionGood(subs: seq<Regexp>, langs: seq<Language>, key: QueryPlan, nodes: set<QueryPlan>)
    requires |langs| == |subs| && forall i | 0 <= i < |subs| :: langs[i] == Lang(subs[i])
    requires Good(UnionOf(langs), key, nodes)
    ensures Good(Lang(Alternate(subs)), key, nodes)
  {
    forall w | w in Lang(Alternate(subs)) ensures w in UnionOf(langs) {
      var i :| 0 <= i < |subs| && Matches(subs[i], w);
      assert w in langs[i];
    }
  }

  lemma ClassLang(ranges: seq<RuneRange>)
    ensures Lang(CharClass(ranges)) == LangOfRanges(ranges)
  {
  }

  lemma NothingGood(l: Language, key: QueryPlan, nodes: set<QueryPlan>)
    requires Good(l, key, nodes)
    ensures Good(iset{}, key, nodes)
  {
  }

  /**
   * The planner. It may return no plan at all; a plan it returns finds, in every
   * string the expression matches, an offset from which the suffix walk accepts,
   * unless an alternation forgot that one of its operands repeats.
   */
  method ConstructQueryPlan(re: Regexp) returns (key: QueryPlan?, ghost nodes: set<QueryPlan>)
    requires InScope(re)
    ensures key != null ==> fresh(nodes) && key in nodes && Closed(nodes) && WellFormed(key.tree)
    ensures key != null && ForgetsNoRepetition(re) ==> forall w | Matches(re, w) :: exists i :: WalksFrom(key.tree, w, i)
  {
    ghost var forgets;
    key, nodes, forgets := Build(re);
    if !forgets {
      forall w | Matches(re, w) ensures exists i :: WalksFrom(key.tree, w, i) {
        assert w in Lang(re);
        assert SoundFor(w, key.tree, key.anchor);
      }
    }
    var tooWeak: bool := *;
    if tooWeak {
      key := null;
    }
  }
}
