/** When a plan, with its anchors, is safe to use for a language. */
module PlanSoundness {
  import opened Bytes
  import opened Plans
  import opened QueryPlans
  import opened Regexps

  ghost predicate WalksFrom(t: Plan, w: Text, i: int) {
    0 <= i <= |w| && Walk(t, w[i..])
  }

  ghost predicate PathFrom(t: Plan, w: Text, i: int) {
    0 <= i <= |w| && Path(t, w[i..])
  }

  /**
   * Every string of the language is found from some offset; from offset 0 if the
   * plan is anchored left; by a path that ends with the string if anchored right;
   * by a path that is the whole string if anchored on both sides and not a
   * repetition. An empty plan anchored left stands for the empty string alone.
   */
  ghost predicate SoundFor(w: Text, t: Plan, a: Anchor) {
    && (exists i :: WalksFrom(t, w, i))
    && (a.left ==> Walk(t, w))
    && (a.right && t != Node([]) ==> exists i :: PathFrom(t, w, i))
    && (a.left && a.right && !a.repeat && t != Node([]) ==> Path(t, w))
    && (a.left && t == Node([]) ==> w == [])
  }

  ghost predicate Sound(l: Language, t: Plan, a: Anchor) {
    && t.Node?
    && (a.right && t != Node([]) ==> Proper(t))
    && forall w | w in l :: SoundFor(w, t, a)
  }

  lemma AnySound(l: Language)
    ensures Sound(l, Node([]), kAnchorNone)
  {
    forall w | w in l ensures SoundFor(w, Node([]), kAnchorNone) {
      assert WalksFrom(Node([]), w, 0);
    }
  }

  lemma EmptySound(l: Language)
    requires forall w | w in l :: w == []
    ensures Sound(l, Node([]), kAnchorBoth)
  {
    forall w | w in l ensures SoundFor(w, Node([]), kAnchorBoth) {
      assert WalksFrom(Node([]), w, 0);
    }
  }

  /** A proper plan whose paths include the language is anchored on both sides. */
  lemma ExactSound(l: Language, t: Plan)
    requires t.Node? && Proper(t) && forall w | w in l :: Path(t, w)
    ensures Sound(l, t, kAnchorBoth)
  {
    forall w | w in l ensures SoundFor(w, t, kAnchorBoth) {
      PathWalks(t, w);
      assert w[0..] == w;
      assert WalksFrom(t, w, 0) && PathFrom(t, w, 0);
    }
  }

  lemma SoundSubset(l: Language, m: Language, t: Plan, a: Anchor)
    requires Sound(m, t, a) && l <= m
    ensures Sound(l, t, a)
  {
  }

  // ----- Concatenation -----

  /** The left plan alone serves for the concatenation, once its right anchor is dropped. */
  lemma KeepLeftSound(l: Language, m: Language, t: Plan, a: Anchor)
    requires Sound(l, t, a) && !(a.left && t == Node([]))
    ensures Sound(Cat(l, m), t, a.(right := false))
  {
    forall w | w in Cat(l, m) ensures SoundFor(w, t, a.(right := false)) {
      var u, v :| u in l && v in m && w == u + v;
      assert SoundFor(u, t, a);
      var i :| WalksFrom(t, u, i);
      WalkExtends(t, u[i..], v);
      assert w[i..] == u[i..] + v;
      assert WalksFrom(t, w, i);
      if a.left {
        WalkExtends(t, u, v);
      }
    }
  }

  /** The right plan alone serves, once its left anchor is dropped. */
  lemma KeepRightSound(l: Language, m: Language, t: Plan, a: Anchor)
    requires Sound(m, t, a)
    ensures Sound(Cat(l, m), t, a.(left := false))
  {
    forall w | w in Cat(l, m) ensures SoundFor(w, t, a.(left := false)) {
      var u, v :| u in l && v in m && w == u + v;
      assert SoundFor(v, t, a);
      var i :| WalksFrom(t, v, i);
      assert w[|u| + i..] == v[i..];
      assert WalksFrom(t, w, |u| + i);
      if a.right && t != Node([]) {
        var j :| PathFrom(t, v, j);
        assert w[|u| + j..] == v[j..];
        assert PathFrom(t, w, |u| + j);
      }
    }
  }

  /** The anchors after `concat` with a plan that has edges. */
  function ConcatAnchor(a: Anchor, b: Anchor): Anchor {
    Anchor(a.left && !a.repeat, b.right && !b.repeat, a.repeat)
  }

  lemma ConcatSound(l: Language, t: Plan, a: Anchor, m: Language, r: Plan, b: Anchor)
    requires Sound(l, t, a) && Sound(m, r, b)
    requires a.right && b.left && t != Node([])
    ensures r == Node([]) ==> Sound(Cat(l, m), t, a)
    ensures r != Node([]) ==> Sound(Cat(l, m), Subst(t, r), ConcatAnchor(a, b))
  {
    if r == Node([]) {
      assert forall w | w in Cat(l, m) :: SoundFor(w, t, a) by {
        forall w | w in Cat(l, m) ensures SoundFor(w, t, a) {
          var u, v :| u in l && v in m && w == u + v;
          assert SoundFor(v, r, b);
          assert w == u;
        }
      }
    } else {
      assert Proper(r) ==> Proper(Subst(t, r)) by {
        if Proper(r) {
          SubstProper(t, r);
        }
      }
      forall w | w in Cat(l, m) ensures SoundFor(w, Subst(t, r), ConcatAnchor(a, b)) {
        var u, v :| u in l && v in m && w == u + v;
        ConcatSoundFor(u, t, a, v, r, b);
      }
    }
  }

  lemma {:induction false} SubstProper(t: Plan, r: Plan)
    requires Proper(t) && Proper(r)
    ensures Proper(Subst(t, r))
    decreases t
  {
    match t
    case Tail =>
    case Node(edges) =>
      forall i | 0 <= i < |edges| ensures Proper(Subst(edges[i].next, r)) {
        SubstProper(edges[i].next, r);
      }
  }

  lemma ConcatSoundFor(u: Text, t: Plan, a: Anchor, v: Text, r: Plan, b: Anchor)
    requires SoundFor(u, t, a) && SoundFor(v, r, b)
    requires a.right && b.left && t.Node? && t != Node([]) && r.Node? && r != Node([])
    ensures SoundFor(u + v, Subst(t, r), ConcatAnchor(a, b))
  {
    var w := u + v;
    var s := Subst(t, r);
    var i :| PathFrom(t, u, i);
    assert w[i..] == u[i..] + v;
    SubstWalk(t, r, u[i..], v);
    assert WalksFrom(s, w, i);
    if a.left && !a.repeat {
      SubstWalk(t, r, u, v);
    }
    if b.right && !b.repeat {
      SubstPath(t, r, u[i..], v);
      assert PathFrom(s, w, i);
      if a.left && !a.repeat {
        SubstPath(t, r, u, v);
      }
    }
  }

  // ----- Repetition -----

  function PlusAnchor(a: Anchor): Anchor {
    if a.left && a.right then a.(repeat := true) else a
  }

  ghost predicate Repeats(re: Regexp, w: Text) {
    exists n: nat :: n >= 1 && MatchesTimes(re, w, n)
  }

  lemma PlusSound(re: Regexp, t: Plan, a: Anchor, l: Language)
    requires Sound(Lang(re), t, a)
    requires forall w | w in l :: Repeats(re, w)
    ensures Sound(l, t, PlusAnchor(a))
  {
    forall w | w in l ensures SoundFor(w, t, PlusAnchor(a)) {
      var n: nat :| n >= 1 && MatchesTimes(re, w, n);
      PlusSoundFor(re, t, a, w, n);
    }
  }

  lemma PlusSoundFor(re: Regexp, t: Plan, a: Anchor, w: Text, n: nat)
    requires Sound(Lang(re), t, a) && n >= 1 && MatchesTimes(re, w, n)
    ensures SoundFor(w, t, PlusAnchor(a))
  {
    FirstWalk(re, t, a, w, n);
    if a.right && t != Node([]) {
      var j := LastPath(re, t, a, w, n);
    }
    if a.left && t == Node([]) {
      forall x | Matches(re, x) ensures x == [] {
        assert x in Lang(re) && SoundFor(x, t, a);
      }
      TimesOfNothing(re, w, n);
    }
  }

  /** The walk over the first repetition is one over the whole string. */
  lemma FirstWalk(re: Regexp, t: Plan, a: Anchor, w: Text, n: nat)
    requires Sound(Lang(re), t, a) && n >= 1 && MatchesTimes(re, w, n)
    ensures (exists i :: WalksFrom(t, w, i)) && (a.left ==> Walk(t, w))
  {
    hide Matches, Proper, Walk, Path;
    var k :| 0 <= k <= |w| && Matches(re, w[..k]) && MatchesTimes(re, w[k..], n - 1);
    var u, v := w[..k], w[k..];
    assert u in Lang(re) && w == u + v;
    assert SoundFor(u, t, a);
    var i :| WalksFrom(t, u, i);
    WalkExtends(t, u[i..], v);
    assert w[i..] == u[i..] + v;
    assert WalksFrom(t, w, i);
    if a.left {
      WalkExtends(t, u, v);
    }
  }

  /** The last repetition ends the string, and a path ends the last repetition. */
  lemma {:induction false} LastPath(re: Regexp, t: Plan, a: Anchor, w: Text, n: nat) returns (j: nat)
    requires Sound(Lang(re), t, a) && a.right && t != Node([])
    requires n >= 1 && MatchesTimes(re, w, n)
    ensures PathFrom(t, w, j)
    decreases n
  {
    hide Matches, Proper, Walk, Path;
    var k :| 0 <= k <= |w| && Matches(re, w[..k]) && MatchesTimes(re, w[k..], n - 1);
    if n == 1 {
      assert w[..k] == w;
      assert w in Lang(re) && SoundFor(w, t, a);
      var i :| PathFrom(t, w, i);
      j := i;
    } else {
      hide Sound, SoundFor, Lang;
      var i := LastPath(re, t, a, w[k..], n - 1);
      j := k + i;
      assert w[j..] == w[k..][i..];
    }
  }

  lemma {:induction false} TimesOfNothing(re: Regexp, w: Text, n: nat)
    requires MatchesTimes(re, w, n) && forall u | Matches(re, u) :: u == []
    ensures w == []
    decreases n
  {
    hide Matches;
    if n > 0 {
      var k :| 0 <= k <= |w| && Matches(re, w[..k]) && MatchesTimes(re, w[k..], n - 1);
      TimesOfNothing(re, w[k..], n - 1);
      assert w == w[..k] + w[k..];
    }
  }

  // ----- Alternation -----

  /** What alternation promises of the anchors of its result. */
  ghost predicate AlternateAnchors(lt: Plan, a: Anchor, rt: Plan, b: Anchor, ot: Plan, c: Anchor) {
    && Alternates(lt, rt, ot) && ot.Node? && !c.repeat
    && (c.left ==> a.left && b.left)
    && (c.right ==> a.right && b.right && (Proper(lt) && Proper(rt) ==> Proper(ot)))
    && (c.left || c.right ==> lt != Node([]) && rt != Node([]) && ot != Node([]))
  }

  predicate Whole(a: Anchor) {
    a.left && a.right
  }

  /** Anchored on both sides, and a repetition: a path of such a plan need not be a whole string. */
  predicate Loops(a: Anchor) {
    Whole(a) && a.repeat
  }

  /** The guard that `AlternateInternal` lacks: its result does not say that an operand repeats. */
  predicate ForgetsRepeat(a: Anchor, b: Anchor) {
    Whole(a) && Whole(b) && (a.repeat || b.repeat)
  }

  /** Sound, except that a path need not be a whole string. */
  ghost predicate SoundUpToRepeats(l: Language, t: Plan, a: Anchor) {
    Sound(l, t, a.(repeat := true))
  }

  lemma UpToRepeats(l: Language, t: Plan, a: Anchor)
    requires Sound(l, t, a)
    ensures SoundUpToRepeats(l, t, a)
  {
    forall w | w in l ensures SoundFor(w, t, a.(repeat := true)) {
      assert SoundFor(w, t, a);
    }
  }

  lemma NotWhole(l: Language, t: Plan, a: Anchor)
    requires SoundUpToRepeats(l, t, a) && !Whole(a)
    ensures Sound(l, t, a)
  {
    forall w | w in l ensures SoundFor(w, t, a) {
      assert SoundFor(w, t, a.(repeat := true));
    }
  }

  /** Whatever repeats, alternation loses nothing else. */
  lemma AlternateSoundUpToRepeats(l: Language, lt: Plan, a: Anchor, m: Language, rt: Plan, b: Anchor, ot: Plan, c: Anchor)
    requires SoundUpToRepeats(l, lt, a) && SoundUpToRepeats(m, rt, b)
    requires AlternateAnchors(lt, a, rt, b, ot, c)
    ensures SoundUpToRepeats(l + m, ot, c)
  {
    forall w | w in l + m ensures SoundFor(w, ot, c.(repeat := true)) {
      var t, d := lt, a;
      if w !in l {
        t, d := rt, b;
      }
      assert SoundFor(w, t, d.(repeat := true));
      var i :| WalksFrom(t, w, i);
      assert WalksFrom(ot, w, i);
      if c.right {
        var j :| PathFrom(t, w, j);
        assert PathFrom(ot, w, j);
      }
    }
  }

  /** Alternation is sound unless the operands are anchored on both sides and one of them repeats. */
  lemma AlternateSound(l: Language, lt: Plan, a: Anchor, m: Language, rt: Plan, b: Anchor, ot: Plan, c: Anchor)
    requires Sound(l, lt, a) && Sound(m, rt, b)
    requires AlternateAnchors(lt, a, rt, b, ot, c) && !ForgetsRepeat(a, b)
    ensures Sound(l + m, ot, c)
  {
    UpToRepeats(l, lt, a);
    UpToRepeats(m, rt, b);
    AlternateSoundUpToRepeats(l, lt, a, m, rt, b, ot, c);
    if Whole(c) {
      forall w | w in l + m ensures SoundFor(w, ot, c) {
        assert SoundFor(w, ot, c.(repeat := true));
        assert w in l ==> SoundFor(w, lt, a);
        assert w in m ==> SoundFor(w, rt, b);
      }
    } else {
      NotWhole(l + m, ot, c);
    }
  }
}
