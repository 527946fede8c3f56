/**
 * From a regular expression to a query plan. Costs are not modelled: wherever
 * the planner compares selectivities or node counts, either answer is allowed,
 * so what is proved holds for every outcome.
 */
module IndexWalker {
  import opened Bytes
  import opened Runes
  import opened Plans
  import opened QueryPlans
  import opened PlanSoundness
  import Q = QueryPlans
  import opened Regexps

  /** A plan with its nodes, sound for a language. */
  ghost predicate Good(l: Language, key: QueryPlan, nodes: set<QueryPlan>)
    reads key, nodes
  {
    key in nodes && Closed(nodes) && Sound(l, key.tree, key.anchor)
  }

  predicate Printable(s: Text) {
    forall i | 0 <= i < |s| :: s[i] != NEWLINE && s[i] < 255
  }

  lemma ClosedAdd(n: QueryPlan, nodes: set<QueryPlan>)
    requires Closed(nodes) && n.Reflects(nodes) && WellFormed(n.tree)
    ensures Closed(nodes + {n})
  {
    forall m | m in nodes + {n} ensures m.Reflects(nodes + {n}) && WellFormed(m.tree) {
      assert m in nodes ==> m.Reflects(nodes);
    }
  }

  lemma ClosedNone()
    ensures Closed({})
  {
  }

  // ----- Literals -----

  function LiteralTree(s: Text): Plan {
    if s == [] then Tail else Node([Edge(s[0], s[0], LiteralTree(s[1..]))])
  }

  lemma {:induction false} LiteralTreeShape(s: Text)
    requires Printable(s)
    ensures WellFormed(LiteralTree(s)) && Proper(LiteralTree(s)) && Path(LiteralTree(s), s)
  {
    if s != [] {
      LiteralTreeShape(s[1..]);
      assert Covers(LiteralTree(s).edges[0], s[0]);
    }
  }

  method LiteralPlan(s: Text) returns (key: QueryPlan, ghost nodes: set<QueryPlan>)
    requires s != [] && Printable(s)
    ensures fresh(nodes) && key in nodes && Closed(nodes)
    ensures key.tree == LiteralTree(s) && key.anchor == kAnchorBoth
  {
    var k: QueryPlan? := null;
    nodes := {};
    var i := |s|;
    hide Closed, WellFormed, Proper, Path;
    ClosedNone();
    while i > 0
      invariant 0 <= i <= |s|
      invariant fresh(nodes) && Closed(nodes) && In(k, nodes) && (i < |s| ==> k != null)
      invariant TreeOf(k) == LiteralTree(s[i..])
    {
      i := i - 1;
      var n := new QueryPlan(kAnchorNone);
      n.Insert(Edge(s[i], s[i], k), nodes);
      assert s[i..][1..] == s[i + 1..];
      LiteralTreeShape(s[i..]);
      ClosedAdd(n, nodes);
      nodes := nodes + {n};
      k := n;
    }
    assert s[0..] == s;
    k.anchor := kAnchorBoth;
    key := k;
  }

  method LiteralKey(s: Text, ghost l: Language) returns (key: QueryPlan, ghost nodes: set<QueryPlan>)
    requires s != [] && Printable(s) && forall w | w in l :: w == s
    ensures fresh(nodes) && Good(l, key, nodes) && !key.anchor.repeat && key.edges != []
  {
    key, nodes := LiteralPlan(s);
    LiteralTreeShape(s);
    ExactSound(l, key.tree);
  }

  method AnyKey(ghost l: Language) returns (key: QueryPlan, ghost nodes: set<QueryPlan>)
    ensures fresh(nodes) && Good(l, key, nodes) && key.anchor == kAnchorNone
  {
    key := Any();
    nodes := {key};
    AnySound(l);
  }

  method EmptyKey(ghost l: Language) returns (key: QueryPlan, ghost nodes: set<QueryPlan>)
    requires forall w | w in l :: w == []
    ensures fresh(nodes) && Good(l, key, nodes) && !key.anchor.repeat
  {
    key := new QueryPlan(kAnchorBoth);
    nodes := {key};
    EmptySound(l);
  }

  /** Two edges, for an upper and a lower case letter. */
  lemma CasesSound(l: Language, upper: Byte, lower: Byte)
    requires NEWLINE < upper < lower < 0x80 && forall w | w in l :: w == [upper] || w == [lower]
    ensures var t := Node([Edge(upper, upper, Tail), Edge(lower, lower, Tail)]);
      WellFormed(t) && Sound(l, t, kAnchorBoth)
  {
    var t := Node([Edge(upper, upper, Tail), Edge(lower, lower, Tail)]);
    forall w | w in l ensures Path(t, w) {
      assert Covers(t.edges[if w == [upper] then 0 else 1], w[0]);
    }
    ExactSound(l, t);
  }

  method CaseFoldLiteral(re: Regexp) returns (key: QueryPlan, ghost nodes: set<QueryPlan>)
    requires re.FoldLiteral? && InScope(re)
    ensures fresh(nodes) && Good(Lang(re), key, nodes) && !key.anchor.repeat
    ensures if re.rune > 127 then !key.anchor.left else key.edges != []
  {
    hide Sound, Matches, WellFormed;
    var r := re.rune;
    EncodeBytes(r);
    if r > 127 {
      key, nodes := AnyKey(Lang(re));
    } else if r < 'a' as int || r > 'z' as int {
      FoldLang(re);
      key, nodes := LiteralKey(Encode(r), Lang(re));
    } else {
      key := new QueryPlan(kAnchorBoth);
      var upper := r - 'a' as int + 'A' as int;
      FoldLang(re);
      CasesSound(Lang(re), upper, r);
      key.Insert(Edge(r, r, null), {});
      key.Insert(Edge(upper, upper, null), {});
      nodes := {key};
      assert key.tree == Node([Edge(upper, upper, Tail), Edge(r, r, Tail)]);
    }
  }

  lemma FoldLang(re: Regexp)
    requires re.FoldLiteral? && InScope(re) && re.rune <= 127
    ensures forall w | w in Lang(re) ::
      w == [re.rune] || ('a' as int <= re.rune <= 'z' as int && w == [re.rune - 'a' as int + 'A' as int])
  {
  }

  // ----- Ranges of encodings -----

  /** The planner compares plain `char`s, which are signed. */
  function Signed(b: Byte): int {
    if b < 0x80 then b else b - 0x100
  }

  predicate HighBytes(s: Text) {
    forall i | 0 <= i < |s| :: 0x80 <= s[i] < 255
  }

  function LexTree(lo: Text, hi: Text): Plan
    requires |lo| <= |hi| && HighBytes(hi)
    decreases |hi|
  {
    if hi == [] then Tail
    else if lo == [] then LiteralTree(hi)
    else Node((if Signed(lo[0]) < Signed(hi[0]) then [Edge(lo[0], (hi[0] - 1) as Byte, Tail)] else [])
              + [Edge(hi[0], hi[0], LexTree(lo[1..], hi[1..]))])
  }

  lemma {:induction false} LexTreeShape(lo: Text, hi: Text)
    requires |lo| <= |hi| && HighBytes(hi)
    ensures WellFormed(LexTree(lo, hi)) && Proper(LexTree(lo, hi))
    decreases |hi|
  {
    if hi != [] {
      if lo == [] {
        LiteralTreeShape(hi);
      } else {
        LexTreeShape(lo[1..], hi[1..]);
      }
    }
  }

  lemma LexTreeSorted(lo: Text, hi: Text)
    requires 1 <= |lo| <= |hi| && HighBytes(hi)
    ensures LexTree(lo, hi).Node? && Sorted(LexTree(lo, hi).edges)
  {
    LexTreeShape(lo, hi);
  }

  method LexRange(lo: Text, hi: Text) returns (out: QueryPlan?, ghost nodes: set<QueryPlan>)
    requires |lo| <= |hi| && HighBytes(hi)
    ensures fresh(nodes) && In(out, nodes) && Closed(nodes)
    ensures TreeOf(out) == LexTree(lo, hi) && (out != null ==> out.anchor == kAnchorBoth)
    decreases |hi|
  {
    if |lo| == 0 && |hi| == 0 {
      return null, {};
    }
    if |lo| == 0 {
      out, nodes := LiteralPlan(hi);
      return;
    }
    hide Closed, WellFormed, Proper;
    var o := new QueryPlan(kAnchorBoth);
    if Signed(lo[0]) < Signed(hi[0]) {
      o.Insert(Edge(lo[0], hi[0] - 1, null), {});
    }
    var next;
    next, nodes := LexRange(lo[1..], hi[1..]);
    assert o.tree.edges == if Signed(lo[0]) < Signed(hi[0]) then [Edge(lo[0], (hi[0] - 1) as Byte, Tail)] else [];
    ReflectsMore(o, {}, nodes);
    LexTreeShape(lo, hi);
    LexTreeSorted(lo, hi);
    InsertLast(o.tree.edges, Edge(hi[0], hi[0], TreeOf(next)));
    o.Insert(Edge(hi[0], hi[0], next), nodes);
    ClosedAdd(o, nodes);
    nodes := nodes + {o};
    out := o;
  }

  lemma {:induction false} LexPath(p: Text, x: Byte, z: Byte, y: Byte)
    requires HighBytes(p + [y]) && 0x80 <= x <= z <= y
    ensures HighBytes(p + [y]) && Path(LexTree(p + [x], p + [y]), p + [z])
    decreases |p|
  {
    var lo, hi, w := p + [x], p + [y], p + [z];
    assert forall i | 0 <= i < |hi| :: 0x80 <= hi[i] < 255;
    var es := LexTree(lo, hi).edges;
    if p == [] {
      var i := if z < y then 0 else |es| - 1;
      assert lo == [x] && hi == [y] && w == [z];
      assert lo[1..] == [] && hi[1..] == [];
      assert LexTree(lo[1..], hi[1..]) == Tail;
      assert es[i].next == Tail;
      assert Covers(es[i], w[0]) && Path(es[i].next, w[1..]);
    } else {
      assert lo[1..] == p[1..] + [x] && hi[1..] == p[1..] + [y] && w[1..] == p[1..] + [z];
      assert HighBytes(p[1..] + [y]);
      LexPath(p[1..], x, z, y);
      assert Covers(es[0], w[0]) && Path(es[0].next, w[1..]);
    }
  }

  /** When the ends differ before the last byte, the lower end itself is missed. */
  lemma {:induction false} LexMisses(lo: Text, hi: Text)
    requires |lo| == |hi| >= 1 && HighBytes(lo) && HighBytes(hi) && !SameButLast(lo, hi)
    ensures !Path(LexTree(lo, hi), lo)
    decreases |hi|
  {
    assert |lo| > 1 by {
      assert lo[..0] == hi[..0];
    }
    if lo[0] == hi[0] {
      var n := |lo| - 1;
      assert lo[..n] == [lo[0]] + lo[1..][..n - 1];
      assert hi[..n] == [hi[0]] + hi[1..][..n - 1];
      LexMisses(lo[1..], hi[1..]);
    }
  }

  lemma LexEnds(a: Rune, b: Rune)
    requires a <= b && 0x80 <= b
    ensures |Encode(a)| <= |Encode(b)| && HighBytes(Encode(b))
    ensures |Encode(a)| == |Encode(b)| ==> HighBytes(Encode(a))
    ensures |Encode(a)| < |Encode(b)| ==> Encode(a)[0] != Encode(b)[0] && (|Encode(a)| == 1 ==> Encode(a)[0] < 0x80)
  {
    EncodeBytes(a);
    EncodeBytes(b);
    EncodeLonger(a, b);
  }

  lemma LexRangePath(a: Rune, b: Rune, r: Rune)
    requires a <= r <= b && 0x80 <= b && SameButLast(Encode(a), Encode(b))
    requires HighBytes(Encode(a)) && HighBytes(Encode(b))
    ensures Path(LexTree(Encode(a), Encode(b)), Encode(r))
  {
    LastByteRange(a, b, r);
    hide Encode, Path, LexTree;
    var lo, hi, w := Encode(a), Encode(b), Encode(r);
    var n := |hi| - 1;
    assert lo == lo[..n] + [lo[n]] && hi == lo[..n] + [hi[n]] && w == lo[..n] + [w[n]];
    LexPath(lo[..n], lo[n], w[n], hi[n]);
  }

  /** For which ends `LexRange` finds every rune of the range by a whole path, exactly. */
  lemma LexRangeExactly(a: Rune, b: Rune)
    requires a <= b && 0x80 <= b
    ensures |Encode(a)| <= |Encode(b)| && HighBytes(Encode(b))
    ensures (forall r: Rune | a <= r <= b :: Path(LexTree(Encode(a), Encode(b)), Encode(r)))
      <==> SameButLast(Encode(a), Encode(b))
  {
    LexEnds(a, b);
    var lo, hi := Encode(a), Encode(b);
    if SameButLast(lo, hi) {
      hide Path, LexTree, Encode;
      forall r: Rune | a <= r <= b ensures Path(LexTree(lo, hi), Encode(r)) {
        LexRangePath(a, b, r);
      }
    } else if |lo| == |hi| {
      LexMisses(lo, hi);
    } else {
      assert !Path(LexTree(lo, hi), lo);
    }
  }

  ghost function LangOfRanges(ranges: seq<RuneRange>): Language {
    iset r: Rune | InRanges(ranges, r) :: Encode(r)
  }

  ghost function LangOfRange(a: Rune, b: Rune): Language {
    iset r: Rune | a <= r <= b :: Encode(r)
  }

  lemma LangOfRangesSplit(ranges: seq<RuneRange>, i: nat)
    requires i < |ranges|
    ensures LangOfRanges(ranges[..i + 1]) <= LangOfRanges(ranges[..i]) + LangOfRange(ranges[i].lo, ranges[i].hi)
  {
    forall w | w in LangOfRanges(ranges[..i + 1])
      ensures w in LangOfRanges(ranges[..i]) + LangOfRange(ranges[i].lo, ranges[i].hi)
    {
      var r: Rune :| InRanges(ranges[..i + 1], r) && w == Encode(r);
      var j :| 0 <= j <= i && ranges[..i + 1][j].lo <= r <= ranges[..i + 1][j].hi;
      if j < i {
        assert ranges[..i][j].lo <= r <= ranges[..i][j].hi;
      }
    }
  }

  function AsciiEdges(ranges: seq<RuneRange>): seq<Edge<Plan>>
    requires forall i | 0 <= i < |ranges| :: 0 <= ranges[i].lo <= ranges[i].hi < 0x80
  {
    seq(|ranges|, i requires 0 <= i < |ranges| => Edge(ranges[i].lo, ranges[i].hi, Tail))
  }

  lemma AsciiSound(ranges: seq<RuneRange>)
    requires RangesInScope(ranges) && forall i | 0 <= i < |ranges| :: ranges[i].hi < 0x80
    ensures WellFormed(Node(AsciiEdges(ranges))) && Sound(LangOfRanges(ranges), Node(AsciiEdges(ranges)), kAnchorBoth)
  {
    var t := Node(AsciiEdges(ranges));
    forall w | w in LangOfRanges(ranges) ensures Path(t, w) {
      var r: Rune :| InRanges(ranges, r) && w == Encode(r);
      var i :| 0 <= i < |ranges| && ranges[i].lo <= r <= ranges[i].hi;
      assert Covers(t.edges[i], w[0]);
    }
    if ranges == [] {
      EmptySound(LangOfRanges(ranges));
    } else {
      ExactSound(LangOfRanges(ranges), t);
    }
  }

  /** The node of a class that has had ASCII ranges only. */
  ghost predicate AsciiOnly(k: QueryPlan, ranges: seq<RuneRange>)
    reads k
  {
    && (forall i | 0 <= i < |ranges| :: 0 <= ranges[i].lo <= ranges[i].hi < 0x80)
    && k.Reflects({}) && k.tree == Node(AsciiEdges(ranges)) && k.anchor == kAnchorBoth
  }

  /** Adds an ASCII range to a class that has had ASCII ranges only. */
  method InsertAscii(k: QueryPlan, ranges: seq<RuneRange>, i: nat)
    requires RangesInScope(ranges) && i < |ranges| && forall j | 0 <= j <= i :: ranges[j].hi < 0x80
    requires AsciiOnly(k, ranges[..i])
    modifies k
    ensures k.anchor == old(k.anchor) && k.edges != []
    ensures AsciiOnly(k, ranges[..i + 1]) && Good(LangOfRanges(ranges[..i + 1]), k, {k})
  {
    var e := Edge(ranges[i].lo, ranges[i].hi, null);
    AsciiSound(ranges[..i + 1]);
    assert AsciiEdges(ranges[..i + 1]) == AsciiEdges(ranges[..i]) + [Edge(e.lo, e.hi, Tail)];
    InsertLast(AsciiEdges(ranges[..i]), Edge(e.lo, e.hi, Tail));
    k.Insert(e, {});
    ClosedAdd(k, {});
    assert {} + {k} == {k};
  }

  /** A range beyond ASCII; its plan is right if the ends differ in the last byte only. */
  method LexKey(a: Rune, b: Rune) returns (key: QueryPlan, ghost nodes: set<QueryPlan>)
    requires a <= b && 0x80 <= b
    ensures fresh(nodes) && !key.anchor.repeat
    ensures Good(if SameButLast(Encode(a), Encode(b)) then LangOfRange(a, b) else iset{}, key, nodes)
  {
    LexRangeExactly(a, b);
    LexTreeShape(Encode(a), Encode(b));
    var lex;
    lex, nodes := LexRange(Encode(a), Encode(b));
    key := lex;
    if SameButLast(Encode(a), Encode(b)) {
      ExactSound(LangOfRange(a, b), key.tree);
    }
  }

  /** Alternation of two plans, with what it keeps of their languages and anchors. */
  method AlternateKeys(cache: AlternateCache, lhs: QueryPlan, rhs: QueryPlan, ghost l: Language, ghost m: Language,
                       ghost nodes: set<QueryPlan>)
    returns (out: QueryPlan, cache': AlternateCache, ghost nodes': set<QueryPlan>)
    requires CacheValid(cache, nodes) && Closed(nodes) && lhs in nodes && rhs in nodes
    requires SoundUpToRepeats(l, lhs.tree, lhs.anchor) && SoundUpToRepeats(m, rhs.tree, rhs.anchor)
    ensures nodes <= nodes' && fresh(nodes' - nodes) && CacheValid(cache', nodes') && Closed(nodes') && out in nodes'
    ensures SoundUpToRepeats(l + m, out.tree, out.anchor)
    ensures Sound(l, lhs.tree, lhs.anchor) && Sound(m, rhs.tree, rhs.anchor) && !ForgetsRepeat(lhs.anchor, rhs.anchor)
      ==> Sound(l + m, out.tree, out.anchor)
    ensures if lhs == rhs then out == lhs else AlternateKeeps(lhs, rhs, out)
  {
    var o;
    o, cache', nodes' := Q.Alternate(cache, lhs, rhs, 0, nodes);
    out := o;
    AlternateResultSound(lhs, rhs, out, l, m);
  }

  /** The result of two different plans does not repeat, and keeps an anchor only if both have it and edges. */
  ghost predicate AlternateKeeps(lhs: QueryPlan, rhs: QueryPlan, out: QueryPlan)
    reads lhs, rhs, out
  {
    && !out.anchor.repeat
    && (out.anchor.left ==> lhs.anchor.left && rhs.anchor.left)
    && (out.anchor.right ==> lhs.anchor.right && rhs.anchor.right)
    && (out.anchor.left || out.anchor.right ==> lhs.edges != [] && out.edges != [])
    && (lhs.edges == [] ==> out.edges == [])
  }

  lemma AlternateResultSound(lhs: QueryPlan, rhs: QueryPlan, out: QueryPlan, l: Language, m: Language)
    requires SoundUpToRepeats(l, lhs.tree, lhs.anchor) && SoundUpToRepeats(m, rhs.tree, rhs.anchor)
    requires Mirrors(lhs.edges, lhs.tree.edges) && Mirrors(rhs.edges, rhs.tree.edges) && out.tree.Node?
    requires Mirrors(out.edges, out.tree.edges)
    requires AlternateResult(lhs, rhs, out)
    ensures SoundUpToRepeats(l + m, out.tree, out.anchor)
    ensures Sound(l, lhs.tree, lhs.anchor) && Sound(m, rhs.tree, rhs.anchor) && !ForgetsRepeat(lhs.anchor, rhs.anchor)
      ==> Sound(l + m, out.tree, out.anchor)
    ensures if lhs == rhs then out == lhs else AlternateKeeps(lhs, rhs, out)
  {
    if lhs != rhs {
      AlternateSoundUpToRepeats(l, lhs.tree, lhs.anchor, m, rhs.tree, rhs.anchor, out.tree, out.anchor);
      if Sound(l, lhs.tree, lhs.anchor) && Sound(m, rhs.tree, rhs.anchor) && !ForgetsRepeat(lhs.anchor, rhs.anchor) {
        AlternateSound(l, lhs.tree, lhs.anchor, m, rhs.tree, rhs.anchor, out.tree, out.anchor);
      }
      assert lhs.edges == [] ==> Walk(lhs.tree, []) && Walk(out.tree, []);
    }
  }

  /** A plan without edges and anchors knows nothing, and so serves for any language. */
  lemma NothingKnown(key: QueryPlan, l: Language, nodes: set<QueryPlan>)
    requires key in nodes && Closed(nodes) && key.edges == [] && !key.anchor.left && !key.anchor.right
    ensures Good(l, key, nodes)
  {
    AnySound(l);
    forall w | w in l ensures SoundFor(w, key.tree, key.anchor) {
      assert SoundFor(w, Node([]), kAnchorNone);
    }
  }

  /** Adds a range beyond ASCII, by alternation; to a class without edges it adds nothing. */
  method AlternateRange(k: QueryPlan, ranges: seq<RuneRange>, i: nat, ghost nodes: set<QueryPlan>)
    returns (key: QueryPlan, ghost nodes': set<QueryPlan>)
    requires RangesInScope(ranges) && i < |ranges| && 0x80 <= ranges[i].hi
    requires Good(LangOfRanges(ranges[..i]), k, nodes) && !k.anchor.repeat
    requires 0x80 <= ranges[0].hi ==> k.edges == []
    ensures nodes <= nodes' && fresh(nodes' - nodes) && !key.anchor.repeat
    ensures Good(LangOfRanges(ranges[..i + 1]), key, nodes')
    ensures (0x80 <= ranges[0].hi ==> key.edges == []) && (key.edges == [] ==> !key.anchor.left)
  {
    hide LangOfRanges, LangOfRange, LexTree, Closed, Proper, WellFormed, Sound;
    var a, b := ranges[i].lo, ranges[i].hi;
    ghost var l := LangOfRanges(ranges[..i]);
    ghost var m := if SameButLast(Encode(a), Encode(b)) then LangOfRange(a, b) else iset{};
    var lex, added := LexKey(a, b);
    UnionClosed(nodes, added);
    UpToRepeats(l, k.tree, k.anchor);
    UpToRepeats(m, lex.tree, lex.anchor);
    var cache: AlternateCache := map[];
    assert CacheValid(cache, nodes + added) && k != lex;
    key, cache, nodes' := AlternateKeys(cache, k, lex, l, m, nodes + added);
    if 0x80 <= ranges[0].hi {
      NothingKnown(key, LangOfRanges(ranges[..i + 1]), nodes');
    } else {
      LangOfRangesSplit(ranges, i);
      SoundSubset(LangOfRanges(ranges[..i + 1]), l + m, key.tree, key.anchor);
    }
  }

  lemma UnionClosed(a: set<QueryPlan>, b: set<QueryPlan>)
    requires Closed(a) && Closed(b)
    ensures Closed(a + b)
  {
    forall n | n in a + b ensures n.Reflects(a + b) && WellFormed(n.tree) {
      assert n in a ==> n.Reflects(a);
      assert n in b ==> n.Reflects(b);
    }
  }

  /** The node that stands for no ranges at all. */
  method NoClass(ghost ranges: seq<RuneRange>) returns (k: QueryPlan, ghost nodes: set<QueryPlan>)
    requires ranges == []
    ensures fresh(nodes) && nodes == {k} && k.anchor == kAnchorBoth && k.edges == []
    ensures Good(LangOfRanges(ranges), k, nodes) && AsciiOnly(k, ranges)
  {
    k := new QueryPlan(kAnchorBoth);
    nodes := {k};
    AsciiSound(ranges);
  }

  /** The ASCII ranges come first. */
  lemma AsciiBefore(ranges: seq<RuneRange>, i: nat)
    requires RangesInScope(ranges) && i < |ranges| && ranges[i].hi < 0x80
    ensures forall j | 0 <= j <= i :: ranges[j].hi < 0x80
  {
  }

  method CClass(ranges: seq<RuneRange>) returns (k: QueryPlan, ghost nodes: set<QueryPlan>)
    requires RangesSize(ranges) > kMaxWidth || RangesInScope(ranges)
    ensures fresh(nodes) && Good(LangOfRanges(ranges), k, nodes) && !k.anchor.repeat
    ensures Whole(k.anchor) ==> RangesSize(ranges) <= kMaxWidth
    ensures k.edges == [] && k.anchor.left ==> ranges == []
  {
    hide Good, AsciiOnly, LangOfRanges, LangOfRange, Closed, WellFormed, Proper, Sound, RangesInScope, RangesSize;
    if RangesSize(ranges) > kMaxWidth {
      k, nodes := AnyKey(LangOfRanges(ranges));
      return;
    }
    k, nodes := NoClass(ranges[..0]);
    for i := 0 to |ranges|
      invariant fresh(nodes) && Good(LangOfRanges(ranges[..i]), k, nodes) && !k.anchor.repeat
      invariant (forall j | 0 <= j < i :: ranges[j].hi < 0x80) ==> nodes == {k} && AsciiOnly(k, ranges[..i])
      invariant ranges != [] && 0x80 <= ranges[0].hi ==> k.edges == []
      invariant k.edges == [] && k.anchor.left ==> i == 0
    {
      if ranges[i].hi < 0x80 {
        AsciiBefore(ranges, i);
        InsertAscii(k, ranges, i);
      } else {
        k, nodes := AlternateRange(k, ranges, i, nodes);
      }
    }
    assert ranges[..|ranges|] == ranges;
  }
}
