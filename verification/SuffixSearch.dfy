/** The walk of a query plan over a suffix array, with an explicit stack. */
module SuffixSearch {
  import opened Bytes
  import opened Plans
  import opened QueryPlans
  import opened SuffixArrays
  import opened Lines

  /** Intervals of at most this many suffixes are not refined further. */
  const kSmall := 100

  datatype WalkState = WalkState(left: nat, right: nat, key: QueryPlan?, depth: nat)

  // ----- What the walk produces -----

  /** From `q` the text starts like it does from `p`, for `d` bytes. */
  ghost predicate StartsLike(data: seq<Byte>, q: nat, p: nat, d: nat) {
    q + d <= |data| && p + d <= |data| && data[q..q + d] == data[p..p + d]
  }

  ghost function Alike(data: seq<Byte>, p: nat, d: nat): set<nat>
  {
    set q: nat | q < |data| && StartsLike(data, q, p, d)
  }

  /** From `p` on the plan leads to its end, or to where at most a hundred positions are still alike. */
  ghost predicate Stops(data: seq<Byte>, plan: Plan, p: nat, d: nat)
    decreases plan
  {
    && p + d <= |data|
    && (|| plan.Tail? || plan.edges == [] || |Alike(data, p, d)| <= 100
        || (p + d < |data| && exists k | 0 <= k < |plan.edges| ::
              Covers(plan.edges[k], data[p + d]) && Stops(data, plan.edges[k].next, p, d + 1)))
  }

  ghost function AllStops(data: seq<Byte>, plan: Plan): set<nat> {
    set p: nat | p < |data| && Stops(data, plan, p, 0)
  }

  /** Where the plan accepts, the walk stops. */
  lemma {:induction false} WalkStops(data: seq<Byte>, plan: Plan, p: nat, d: nat)
    requires p + d <= |data| && Walk(plan, data[p + d..])
    ensures Stops(data, plan, p, d)
    decreases plan
  {
    if plan.Node? && plan.edges != [] {
      var s := data[p + d..];
      var k :| 0 <= k < |plan.edges| && Covers(plan.edges[k], s[0]) && Walk(plan.edges[k].next, s[1..]);
      assert s[1..] == data[p + (d + 1)..];
      WalkStops(data, plan.edges[k].next, p, d + 1);
    }
  }

  // ----- Intervals -----

  /** A chunk's text and its suffix array, sorted with newlines lowest. */
  ghost predicate Index(data: seq<Byte>, suffixes: seq<nat>) {
    && 0 !in data && Terminated(data)
    && IsSuffixArray(Munged(data), suffixes)
  }

  /** The interval lies in the array, and every suffix in it has a byte below the first `depth`. */
  ghost predicate InBounds(data: seq<Byte>, suffixes: seq<nat>, st: WalkState) {
    st.left <= st.right <= |suffixes| && forall i | st.left <= i < st.right :: suffixes[i] + st.depth < |data|
  }

  /** The first `depth` bytes of suffix `i`. */
  function Prefix(data: seq<Byte>, suffixes: seq<nat>, depth: nat, i: nat): seq<Byte>
    requires i < |suffixes| && suffixes[i] + depth <= |data|
  {
    data[suffixes[i]..suffixes[i] + depth]
  }

  /** The first `depth` bytes are the same for the whole interval and hold no newline. */
  ghost predicate Common(data: seq<Byte>, suffixes: seq<nat>, st: WalkState)
    requires InBounds(data, suffixes, st)
  {
    && (forall i | st.left <= i < st.right :: NEWLINE !in Prefix(data, suffixes, st.depth, i))
    && (forall i, j | st.left <= i < j < st.right ::
      Prefix(data, suffixes, st.depth, i) == Prefix(data, suffixes, st.depth, j))
  }

  /** No suffix outside the interval starts like those inside. */
  ghost predicate Whole(data: seq<Byte>, suffixes: seq<nat>, st: WalkState)
    requires InBounds(data, suffixes, st)
  {
    forall i, j | st.left <= i < st.right && 0 <= j < |suffixes| && StartsLike(data, suffixes[j], suffixes[i], st.depth) ::
      st.left <= j < st.right
  }

  /** The interval holds the suffixes that start with the same `depth` bytes, none of them a newline. */
  ghost predicate Shares(data: seq<Byte>, suffixes: seq<nat>, st: WalkState) {
    InBounds(data, suffixes, st) && Common(data, suffixes, st) && Whole(data, suffixes, st)
  }

  /** As many positions are alike as the interval has suffixes. */
  lemma AlikeSize(data: seq<Byte>, suffixes: seq<nat>, st: WalkState, i: nat)
    requires Index(data, suffixes) && Shares(data, suffixes, st) && st.left <= i < st.right
    ensures |Alike(data, suffixes[i], st.depth)| == st.right - st.left
  {
    var s := suffixes[st.left..st.right];
    forall p: nat ensures p in s <==> p in Alike(data, suffixes[i], st.depth) {
      AlikeIn(data, suffixes, st, i, p);
    }
    assert forall a, b | 0 <= a < b < |s| :: s[a] == suffixes[st.left + a] && s[b] == suffixes[st.left + b];
    hide Shares, Alike;
    DistinctSize(s, Alike(data, suffixes[i], st.depth));
  }

  lemma IndexOf(data: seq<Byte>, suffixes: seq<nat>, p: nat) returns (j: nat)
    requires Index(data, suffixes) && p < |data|
    ensures j < |suffixes| && suffixes[j] == p
  {
    hide LexLe, Terminated;
    assert p in suffixes;
    j :| 0 <= j < |suffixes| && suffixes[j] == p;
  }

  /** Exactly the positions of the interval are alike. */
  lemma AlikeIn(data: seq<Byte>, suffixes: seq<nat>, st: WalkState, i: nat, p: nat)
    requires Index(data, suffixes) && Shares(data, suffixes, st) && st.left <= i < st.right
    ensures p in suffixes[st.left..st.right] <==> p in Alike(data, suffixes[i], st.depth)
  {
    hide Index;
    var s := suffixes[st.left..st.right];
    if p in s {
      var k :| 0 <= k < |s| && s[k] == p;
      AlikeInside(data, suffixes, st, i, st.left + k);
    }
    if p in Alike(data, suffixes[i], st.depth) {
      var j := IndexOf(data, suffixes, p);
      assert st.left <= j < st.right;
      assert s[j - st.left] == p;
    }
  }

  lemma AlikeInside(data: seq<Byte>, suffixes: seq<nat>, st: WalkState, i: nat, j: nat)
    requires Shares(data, suffixes, st) && st.left <= i < st.right && st.left <= j < st.right
    ensures suffixes[j] in Alike(data, suffixes[i], st.depth)
  {
    hide Whole;
    assert Prefix(data, suffixes, st.depth, i) == Prefix(data, suffixes, st.depth, j);
  }

  /** A list without duplicates is as long as the set of its elements is large. */
  lemma {:induction false} DistinctSize(s: seq<nat>, all: set<nat>)
    requires forall a, b | 0 <= a < b < |s| :: s[a] != s[b]
    requires forall p :: p in s <==> p in all
    ensures |s| == |all|
    decreases |s|
  {
    if s == [] {
      assert all == {};
    } else {
      var t, p := s[..|s| - 1], s[|s| - 1];
      assert s == t + [p];
      assert p in all;
      forall x ensures x in t <==> x in all - {p} {
        if x in t {
          var a :| 0 <= a < |t| && t[a] == x;
          assert s[a] == x != p;
        }
      }
      DistinctSize(t, all - {p});
    }
  }


  /** The byte below the shared ones. */
  function ByteAt(data: seq<Byte>, suffixes: seq<nat>, depth: nat, i: nat): Byte
    requires i < |suffixes| && suffixes[i] + depth < |data|
  {
    data[suffixes[i] + depth]
  }

  /** `lt_index`: a newline is below every byte. */
  predicate Less(b: Byte, c: Byte) {
    b == NEWLINE || b < c
  }

  lemma BytesInOrder(data: seq<Byte>, suffixes: seq<nat>, st: WalkState, i: nat, j: nat, c: Byte)
    requires Index(data, suffixes) && Shares(data, suffixes, st) && st.left <= i < j < st.right
    ensures Less(ByteAt(data, suffixes, st.depth, j), c) ==> Less(ByteAt(data, suffixes, st.depth, i), c)
  {
    var m, d := Munged(data), st.depth;
    var x, y := suffixes[i], suffixes[j];
    assert Prefix(data, suffixes, d, i) == Prefix(data, suffixes, d, j);
    assert LexLe(m[x..], m[y..]);
    assert m[x..][..d] == m[y..][..d] by {
      forall k | 0 <= k < d ensures m[x..][k] == m[y..][k] {
        assert Prefix(data, suffixes, d, i)[k] == Prefix(data, suffixes, d, j)[k];
      }
    }
    LexAt(m[x..], m[y..], d);
    assert data[x + d] in data && data[y + d] in data;
  }

  /** The first index of the interval whose byte is not below `c`. */
  method LowerBound(data: seq<Byte>, suffixes: seq<nat>, ghost st: WalkState, left: nat, right: nat, depth: nat, c: Byte)
    returns (r: nat)
    requires Index(data, suffixes) && Shares(data, suffixes, st) && depth == st.depth
    requires st.left <= left <= right <= st.right
    ensures left <= r <= right
    ensures forall i | left <= i < r :: Less(ByteAt(data, suffixes, depth, i), c)
    ensures forall i | r <= i < right :: !Less(ByteAt(data, suffixes, depth, i), c)
    ensures r < right ==> !Less(ByteAt(data, suffixes, depth, r), c)
  {
    hide Index, Common;
    var lo, hi := left, right;
    while lo < hi
      invariant left <= lo <= hi <= right
      invariant forall i | left <= i < lo :: Less(ByteAt(data, suffixes, depth, i), c)
      invariant forall i | hi <= i < right :: !Less(ByteAt(data, suffixes, depth, i), c)
    {
      var mid := lo + (hi - lo) / 2;
      if Less(ByteAt(data, suffixes, depth, mid), c) {
        forall i | left <= i < mid ensures Less(ByteAt(data, suffixes, depth, i), c) {
          BytesInOrder(data, suffixes, st, i, mid, c);
        }
        lo := mid + 1;
      } else {
        forall i | mid < i < right ensures !Less(ByteAt(data, suffixes, depth, i), c) {
          BytesInOrder(data, suffixes, st, mid, i, c);
        }
        hi := mid;
      }
    }
    r := lo;
  }

  // ----- Expanding one interval -----

  ghost predicate Keyed(stack: seq<WalkState>, nodes: set<QueryPlan>) {
    forall k | 0 <= k < |stack| :: In(stack[k].key, nodes)
  }

  /** Work left in the intervals: their sizes times the heights of their plans. */
  ghost function Costs(stack: seq<WalkState>, nodes: set<QueryPlan>): nat
    requires Keyed(stack, nodes)
    reads nodes`tree
  {
    if stack == [] then 0
    else
      var st := stack[|stack| - 1];
      var size := if st.right <= st.left then 0 else st.right - st.left;
      Costs(stack[..|stack| - 1], nodes) + size * (1 + Depth(TreeOf(st.key)))
  }

  /** Entries of the stack over disjoint parts of `a..b`, in order. */
  ghost predicate Pieces(data: seq<Byte>, suffixes: seq<nat>, added: seq<WalkState>, a: nat, b: nat, nodes: set<QueryPlan>) {
    && Keyed(added, nodes)
    && (forall k | 0 <= k < |added| ::
      a <= added[k].left < added[k].right <= b && Shares(data, suffixes, added[k]))
    && (forall k, m | 0 <= k < m < |added| :: added[k].right <= added[m].left)
  }

  ghost predicate Inside(st: WalkState, i: int) {
    st.left <= i < st.right
  }

  /** Some entry for `next` at depth `depth` holds suffix `i`. */
  ghost predicate Held(added: seq<WalkState>, i: int, next: QueryPlan?, depth: nat) {
    exists k | 0 <= k < |added| :: Inside(added[k], i) && added[k].key == next && added[k].depth == depth
  }

  ghost predicate AllHeld(added: seq<WalkState>, a: int, b: int, next: QueryPlan?, depth: nat) {
    forall i | a <= i < b :: Held(added, i, next, depth)
  }

  lemma HeldMore(xs: seq<WalkState>, ys: seq<WalkState>, i: int, next: QueryPlan?, depth: nat)
    requires Held(xs, i, next, depth)
    ensures Held(xs + ys, i, next, depth)
  {
    var k :| 0 <= k < |xs| && Inside(xs[k], i) && xs[k].key == next && xs[k].depth == depth;
    assert (xs + ys)[k] == xs[k];
  }

  /** Suffixes that agree on one more byte, and it is not a newline. */
  lemma SharesNext(data: seq<Byte>, suffixes: seq<nat>, st: WalkState, l: nat, r: nat, next: QueryPlan?, ch: Byte)
    requires Terminated(data) && Shares(data, suffixes, st) && st.left <= l <= r <= st.right && ch != NEWLINE
    requires forall i | st.left <= i < st.right :: ByteAt(data, suffixes, st.depth, i) == ch <==> l <= i < r
    ensures Shares(data, suffixes, WalkState(l, r, next, st.depth + 1))
  {
    var d := st.depth;
    var s := WalkState(l, r, next, d + 1);
    WholeNext(data, suffixes, st, l, r, next, ch);
    hide Whole;
    forall i | l <= i < r
      ensures suffixes[i] + d + 1 < |data|
      ensures Prefix(data, suffixes, d + 1, i) == Prefix(data, suffixes, d, i) + [ch]
    {
      assert ByteAt(data, suffixes, d, i) == ch;
      assert suffixes[i] + d != |data| - 1;
    }
    forall i, j | l <= i < j < r
      ensures Prefix(data, suffixes, s.depth, i) == Prefix(data, suffixes, s.depth, j)
    {
      assert Prefix(data, suffixes, d, i) == Prefix(data, suffixes, d, j);
    }
  }

  lemma WholeNext(data: seq<Byte>, suffixes: seq<nat>, st: WalkState, l: nat, r: nat, next: QueryPlan?, ch: Byte)
    requires Terminated(data) && Shares(data, suffixes, st) && st.left <= l <= r <= st.right && ch != NEWLINE
    requires forall i | st.left <= i < st.right :: ByteAt(data, suffixes, st.depth, i) == ch <==> l <= i < r
    ensures var s := WalkState(l, r, next, st.depth + 1); InBounds(data, suffixes, s) && Whole(data, suffixes, s)
  {
    hide Common;
    var d := st.depth;
    forall i | l <= i < r ensures suffixes[i] + d + 1 < |data| {
      assert ByteAt(data, suffixes, d, i) == ch;
      assert suffixes[i] + d != |data| - 1;
    }
    forall i, j | l <= i < r && 0 <= j < |suffixes| && StartsLike(data, suffixes[j], suffixes[i], d + 1)
      ensures l <= j < r
    {
      var x, y := Prefix(data, suffixes, d + 1, i), Prefix(data, suffixes, d + 1, j);
      assert x[..d] == Prefix(data, suffixes, d, i) && y[..d] == Prefix(data, suffixes, d, j);
      assert x[d] == ByteAt(data, suffixes, d, i) && y[d] == ByteAt(data, suffixes, d, j);
      assert StartsLike(data, suffixes[j], suffixes[i], d);
    }
  }

  /** One more piece at the end of the others. */
  lemma PiecesPush(data: seq<Byte>, suffixes: seq<nat>, added: seq<WalkState>, s: WalkState, a: nat, l: nat,
                   nodes: set<QueryPlan>)
    requires Pieces(data, suffixes, added, a, l, nodes) && Shares(data, suffixes, s) && In(s.key, nodes)
    requires a <= l == s.left < s.right
    ensures Pieces(data, suffixes, added + [s], a, s.right, nodes)
  {
    hide Shares;
  }

  lemma HeldPush(added: seq<WalkState>, s: WalkState, a: nat, l: nat)
    requires AllHeld(added, a, l, s.key, s.depth) && l == s.left
    ensures AllHeld(added + [s], a, s.right, s.key, s.depth)
  {
    forall i | a <= i < s.right ensures Held(added + [s], i, s.key, s.depth) {
      if i < l {
        HeldMore(added, [s], i, s.key, s.depth);
      } else {
        assert Inside((added + [s])[|added|], i);
      }
    }
  }

  lemma CostPush(added: seq<WalkState>, s: WalkState, a: nat, l: nat, height: nat, nodes: set<QueryPlan>)
    requires Keyed(added, nodes) && In(s.key, nodes)
    requires a <= l == s.left < s.right && Costs(added, nodes) <= (l - a) * height && height == 1 + Depth(TreeOf(s.key))
    ensures Costs(added + [s], nodes) <= (s.right - a) * height
  {
    hide Depth;
    assert (added + [s])[..|added|] == added;
    assert (l - a) * height + (s.right - l) * height == (s.right - a) * height;
  }

  /** The entry is for suffixes of the interval that follow the edge. */
  ghost predicate FromEdge(data: seq<Byte>, suffixes: seq<nat>, s: WalkState, st: WalkState, e: Edge<QueryPlan?>)
    requires InBounds(data, suffixes, st)
  {
    && s.key == e.next && s.depth == st.depth + 1 && st.left <= s.left <= s.right <= st.right
    && forall i | s.left <= i < s.right :: Covers(e, ByteAt(data, suffixes, st.depth, i))
  }

  ghost predicate AllFrom(data: seq<Byte>, suffixes: seq<nat>, added: seq<WalkState>, st: WalkState, e: Edge<QueryPlan?>)
    requires InBounds(data, suffixes, st)
  {
    forall k | 0 <= k < |added| :: FromEdge(data, suffixes, added[k], st, e)
  }

  /** The pieces pushed for the part `a..b` of an edge's interval. */
  ghost predicate Pushed(data: seq<Byte>, suffixes: seq<nat>, added: seq<WalkState>, a: nat, b: nat,
                         next: QueryPlan?, depth: nat, nodes: set<QueryPlan>)
    requires In(next, nodes)
    reads nodes`tree
  {
    && Pieces(data, suffixes, added, a, b, nodes) && Keyed(added, nodes)
    && AllHeld(added, a, b, next, depth)
    && a <= b && Costs(added, nodes) <= (b - a) * (1 + Depth(TreeOf(next)))
  }

  lemma PushMore(data: seq<Byte>, suffixes: seq<nat>, added: seq<WalkState>, a: nat, s: WalkState, nodes: set<QueryPlan>)
    requires In(s.key, nodes) && Pushed(data, suffixes, added, a, s.left, s.key, s.depth, nodes)
    requires Shares(data, suffixes, s) && s.left < s.right
    ensures Pushed(data, suffixes, added + [s], a, s.right, s.key, s.depth, nodes)
  {
    hide Pieces, Shares, AllHeld, Depth;
    PiecesPush(data, suffixes, added, s, a, s.left, nodes);
    HeldPush(added, s, a, s.left);
    CostPush(added, s, a, s.left, 1 + Depth(TreeOf(s.key)), nodes);
  }

  lemma PushNone(data: seq<Byte>, suffixes: seq<nat>, a: nat, next: QueryPlan?, depth: nat, nodes: set<QueryPlan>)
    requires In(next, nodes)
    ensures Pushed(data, suffixes, [], a, a, next, depth, nodes)
  {
  }

  /** The bytes of the interval, in order: below `ch` up to `l`, and those of the edge between `left` and `right`. */
  ghost predicate Parted(data: seq<Byte>, suffixes: seq<nat>, st: WalkState, e: Edge<QueryPlan?>,
                         left: nat, right: nat, l: nat, ch: int)
    requires InBounds(data, suffixes, st)
  {
    && e.lo <= ch <= e.hi + 1 && e.hi < 255 && st.left <= left <= l <= right <= st.right && (l < right ==> ch <= e.hi)
    && (forall i | st.left <= i < l :: Less(ByteAt(data, suffixes, st.depth, i), ch))
    && (forall i | l <= i < right :: !Less(ByteAt(data, suffixes, st.depth, i), ch))
    && (forall i | left <= i < right :: Covers(e, ByteAt(data, suffixes, st.depth, i)))
    && (forall i | right <= i < st.right :: !Less(ByteAt(data, suffixes, st.depth, i), e.hi + 1))
  }

  /** The next byte of the edge has its own part. */
  lemma PartNext(data: seq<Byte>, suffixes: seq<nat>, st: WalkState, e: Edge<QueryPlan?>,
                 left: nat, right: nat, l: nat, ch: int, r: nat)
    requires InBounds(data, suffixes, st) && Parted(data, suffixes, st, e, left, right, l, ch) && ch <= e.hi && ch != NEWLINE
    requires l <= r <= right
    requires forall i | l <= i < r :: Less(ByteAt(data, suffixes, st.depth, i), ch + 1)
    requires forall i | r <= i < right :: !Less(ByteAt(data, suffixes, st.depth, i), ch + 1)
    ensures Parted(data, suffixes, st, e, left, right, r, ch + 1)
    ensures forall i | st.left <= i < st.right :: ByteAt(data, suffixes, st.depth, i) == ch <==> l <= i < r
  {
    if r < right {
      assert Covers(e, ByteAt(data, suffixes, st.depth, r));
    }
  }

  /** The loop over the bytes of an edge, within the bounds of the edge. */
  method ExpandBytes(data: seq<Byte>, suffixes: seq<nat>, st: WalkState, e: Edge<QueryPlan?>, left: nat, right: nat,
                     ghost nodes: set<QueryPlan>)
    returns (added: seq<WalkState>)
    requires Index(data, suffixes) && Shares(data, suffixes, st) && In(e.next, nodes)
    requires e.lo <= e.hi && Walkable(e) && Parted(data, suffixes, st, e, left, right, left, e.lo)
    ensures AllFrom(data, suffixes, added, st, e)
    ensures Pushed(data, suffixes, added, left, right, e.next, st.depth + 1, nodes)
  {
    assert Terminated(data);
    hide Index, Pushed, Common, Whole, AllFrom;
    added := [];
    var l := left;
    PushNone(data, suffixes, left, e.next, st.depth + 1, nodes);
    NoneFrom(data, suffixes, st, e);
    var ch: int := e.lo;
    while ch <= e.hi
      invariant Parted(data, suffixes, st, e, left, right, l, ch)
      invariant AllFrom(data, suffixes, added, st, e)
      invariant Pushed(data, suffixes, added, left, l, e.next, st.depth + 1, nodes)
    {
      var r := LowerBound(data, suffixes, st, l, right, st.depth, ch + 1);
      PartNext(data, suffixes, st, e, left, right, l, ch, r);
      hide Parted;
      if r != l {
        SharesNext(data, suffixes, st, l, r, e.next, ch);
        var s := WalkState(l, r, e.next, st.depth + 1);
        MoreFrom(data, suffixes, added, s, st, e, ch);
        PushMore(data, suffixes, added, left, s, nodes);
        added := added + [s];
      }
      l := r;
      ch := ch + 1;
    }
  }

  lemma NoneFrom(data: seq<Byte>, suffixes: seq<nat>, st: WalkState, e: Edge<QueryPlan?>)
    requires InBounds(data, suffixes, st)
    ensures AllFrom(data, suffixes, [], st, e)
  {
  }

  lemma MoreFrom(data: seq<Byte>, suffixes: seq<nat>, added: seq<WalkState>, s: WalkState, st: WalkState, e: Edge<QueryPlan?>, ch: Byte)
    requires InBounds(data, suffixes, st) && AllFrom(data, suffixes, added, st, e) && Covers(e, ch)
    requires s.key == e.next && s.depth == st.depth + 1 && st.left <= s.left <= s.right <= st.right
    requires forall i | st.left <= i < st.right :: ByteAt(data, suffixes, st.depth, i) == ch <==> s.left <= i < s.right
    ensures AllFrom(data, suffixes, added + [s], st, e)
  {
    assert FromEdge(data, suffixes, s, st, e);
  }

  lemma Larger(a: nat, b: nat, h: nat)
    requires a <= b
    ensures a * h <= b * h
  {
  }

  /** Pushes one interval for each byte of the edge that occurs, in order. */
  method ExpandEdge(data: seq<Byte>, suffixes: seq<nat>, st: WalkState, e: Edge<QueryPlan?>, ghost lo: nat,
                    ghost nodes: set<QueryPlan>)
    returns (added: seq<WalkState>, ghost hi: nat)
    requires Index(data, suffixes) && Shares(data, suffixes, st) && In(e.next, nodes)
    requires e.lo <= e.hi && Walkable(e)
    requires st.left <= lo <= st.right
    requires forall i | st.left <= i < lo :: Less(ByteAt(data, suffixes, st.depth, i), e.lo)
    ensures lo <= hi <= st.right
    ensures forall i | st.left <= i < hi :: Less(ByteAt(data, suffixes, st.depth, i), e.hi + 1)
    ensures Pieces(data, suffixes, added, lo, hi, nodes) && Keyed(added, nodes) && AllFrom(data, suffixes, added, st, e)
    ensures forall i | st.left <= i < st.right && Covers(e, ByteAt(data, suffixes, st.depth, i)) ::
      Held(added, i, e.next, st.depth + 1)
    ensures Costs(added, nodes) <= (hi - lo) * (1 + Depth(TreeOf(e.next)))
  {
    hide Common, Whole, Index;
    var d := st.depth;
    var l := LowerBound(data, suffixes, st, st.left, st.right, d, e.lo);
    var right := LowerBound(data, suffixes, st, l, st.right, d, e.hi + 1);
    hide Depth, Held;
    if l == right {
      assert forall i | st.left <= i < st.right :: !Covers(e, ByteAt(data, suffixes, d, i));
      return [], lo;
    }
    hi := right;
    added := ExpandBytes(data, suffixes, st, e, l, right, nodes);
    Larger(right - l, right - lo, 1 + Depth(TreeOf(e.next)));
  }

  // ----- The walk -----

  /** From suffix `i` the walk stops, once it is at the entry. */
  ghost predicate Accepts(data: seq<Byte>, suffixes: seq<nat>, st: WalkState, i: int)
    reads (if st.key == null then {} else {st.key})`tree
  {
    0 <= i < |suffixes| && Stops(data, TreeOf(st.key), suffixes[i], st.depth)
  }

  ghost predicate Found(data: seq<Byte>, suffixes: seq<nat>, stack: seq<WalkState>, i: int, nodes: set<QueryPlan>)
    requires Keyed(stack, nodes)
    reads nodes`tree
  {
    exists k | 0 <= k < |stack| :: Inside(stack[k], i) && Accepts(data, suffixes, stack[k], i)
  }

  lemma {:induction false} CostsAppend(xs: seq<WalkState>, ys: seq<WalkState>, nodes: set<QueryPlan>)
    requires Keyed(xs, nodes) && Keyed(ys, nodes)
    ensures Keyed(xs + ys, nodes) && Costs(xs + ys, nodes) == Costs(xs, nodes) + Costs(ys, nodes)
  {
    if ys == [] {
      assert xs + ys == xs;
    } else {
      assert (xs + ys)[..|xs + ys| - 1] == xs + ys[..|ys| - 1];
      CostsAppend(xs, ys[..|ys| - 1], nodes);
    }
  }

  lemma PiecesAppend(data: seq<Byte>, suffixes: seq<nat>, xs: seq<WalkState>, ys: seq<WalkState>,
                     a: nat, b: nat, c: nat, nodes: set<QueryPlan>)
    requires Pieces(data, suffixes, xs, a, b, nodes) && Pieces(data, suffixes, ys, b, c, nodes) && a <= b <= c
    ensures Pieces(data, suffixes, xs + ys, a, c, nodes)
  {
    hide Shares;
  }

  lemma FoundAppend(data: seq<Byte>, suffixes: seq<nat>, xs: seq<WalkState>, ys: seq<WalkState>, i: int, nodes: set<QueryPlan>)
    requires Keyed(xs, nodes) && Keyed(ys, nodes)
    ensures Keyed(xs + ys, nodes)
    ensures Found(data, suffixes, xs + ys, i, nodes) <==>
      Found(data, suffixes, xs, i, nodes) || Found(data, suffixes, ys, i, nodes)
  {
    hide Accepts, Inside;
    var zs := xs + ys;
    assert forall k | 0 <= k < |xs| :: zs[k] == xs[k];
    assert forall k | 0 <= k < |ys| :: zs[|xs| + k] == ys[k];
    if k :| 0 <= k < |zs| && Inside(zs[k], i) && Accepts(data, suffixes, zs[k], i) {
      if k >= |xs| {
        assert zs[k] == ys[k - |xs|];
      }
    }
    if k :| 0 <= k < |ys| && Inside(ys[k], i) && Accepts(data, suffixes, ys[k], i) {
      assert zs[|xs| + k] == ys[k];
    }
  }

  /** A suffix that stops through an edge stops in the entry pushed for its byte. */
  lemma HeldFound(data: seq<Byte>, suffixes: seq<nat>, st: WalkState, e: Edge<QueryPlan?>, added: seq<WalkState>, i: nat,
                  nodes: set<QueryPlan>)
    requires Shares(data, suffixes, st) && Inside(st, i) && Keyed(added, nodes) && In(e.next, nodes)
    requires Held(added, i, e.next, st.depth + 1)
    requires Stops(data, TreeOf(e.next), suffixes[i], st.depth + 1)
    ensures Found(data, suffixes, added, i, nodes)
  {
    var k :| 0 <= k < |added| && Inside(added[k], i) && added[k].key == e.next && added[k].depth == st.depth + 1;
    assert Accepts(data, suffixes, added[k], i);
  }

  /** Suffix `i` stops through one of the first `n` edges. */
  ghost predicate AcceptedThrough(data: seq<Byte>, suffixes: seq<nat>, st: WalkState, n: int, i: int)
    requires st.key != null && st.key.tree.Node? && n <= |st.key.tree.edges|
    reads st.key`tree
  {
    && 0 <= i < |suffixes| && suffixes[i] + st.depth < |data|
    && exists k | 0 <= k < n ::
      Covers(st.key.tree.edges[k], data[suffixes[i] + st.depth]) && Stops(data, st.key.tree.edges[k].next, suffixes[i], st.depth + 1)
  }

  /** Replaces an interval by the intervals of its edges. */
  method Expand(data: seq<Byte>, suffixes: seq<nat>, st: WalkState, ghost nodes: set<QueryPlan>)
    returns (added: seq<WalkState>)
    requires Index(data, suffixes) && Shares(data, suffixes, st)
    requires Closed(nodes) && st.key != null && st.key in nodes && st.key.edges != [] && st.right - st.left > kSmall
    ensures Pieces(data, suffixes, added, st.left, st.right, nodes) && Keyed(added, nodes)
    ensures Costs(added, nodes) <= (st.right - st.left) * Depth(st.key.tree)
    ensures forall i | Inside(st, i) :: Accepts(data, suffixes, st, i) <==> Found(data, suffixes, added, i, nodes)
  {
    hide Index, Pieces, Depth, Found, Costs, Accepts, Common, Whole;
    var key := st.key;
    assert key.Reflects(nodes) && WellFormed(key.tree);
    added := [];
    ghost var lo := st.left;
    ghost var height := Depth(key.tree);
    StartExpand(data, suffixes, st, nodes);
    for k := 0 to |key.edges|
      invariant st.left <= lo <= st.right
      invariant k > 0 ==> forall i | st.left <= i < lo :: Less(ByteAt(data, suffixes, st.depth, i), key.edges[k - 1].hi + 1)
      invariant k == 0 ==> lo == st.left
      invariant Pieces(data, suffixes, added, st.left, lo, nodes) && Keyed(added, nodes)
      invariant Costs(added, nodes) <= (lo - st.left) * height
      invariant Through(data, suffixes, st, k, added, nodes)
    {
      var e := key.edges[k];
      assert key.tree.edges[k] == Edge(e.lo, e.hi, TreeOf(e.next));
      assert k > 0 ==> key.tree.edges[k - 1].hi < key.tree.edges[k].lo && key.edges[k - 1].hi == key.tree.edges[k - 1].hi;
      var more;
      ghost var hi;
      more, hi := ExpandEdge(data, suffixes, st, e, lo, nodes);
      EdgeDone(data, suffixes, st, k, added, more, lo, hi, nodes);
      added := added + more;
      lo := hi;
    }
    Larger(lo - st.left, st.right - st.left, height);
    PiecesWiden(data, suffixes, added, st.left, lo, st.right, nodes);
    forall i | Inside(st, i) ensures Accepts(data, suffixes, st, i) <==> Found(data, suffixes, added, i, nodes) {
      StopsThrough(data, suffixes, st, i);
    }
  }

  /** Where many positions are alike the walk stops only through an edge. */
  lemma StopsThrough(data: seq<Byte>, suffixes: seq<nat>, st: WalkState, i: nat)
    requires Index(data, suffixes) && Shares(data, suffixes, st) && Inside(st, i)
    requires st.key != null && st.key.tree.Node? && st.key.tree.edges != [] && st.right - st.left > kSmall
    ensures Accepts(data, suffixes, st, i) <==> AcceptedThrough(data, suffixes, st, |st.key.tree.edges|, i)
  {
    AlikeSize(data, suffixes, st, i);
    hide Index, Common, Whole, Alike;
  }

  /** Inside the interval, what stops through the first `n` edges is in the added entries. */
  ghost predicate Through(data: seq<Byte>, suffixes: seq<nat>, st: WalkState, n: int, added: seq<WalkState>, nodes: set<QueryPlan>)
    requires st.key != null && st.key.tree.Node? && n <= |st.key.tree.edges| && Keyed(added, nodes)
    reads st.key`tree, nodes`tree
  {
    forall i | Inside(st, i) :: AcceptedThrough(data, suffixes, st, n, i) <==> Found(data, suffixes, added, i, nodes)
  }

  lemma StartExpand(data: seq<Byte>, suffixes: seq<nat>, st: WalkState, nodes: set<QueryPlan>)
    requires st.key != null && st.key.tree.Node?
    ensures Pieces(data, suffixes, [], st.left, st.left, nodes) && Costs([], nodes) == 0
    ensures Through(data, suffixes, st, 0, [], nodes)
  {
  }

  lemma PiecesWiden(data: seq<Byte>, suffixes: seq<nat>, xs: seq<WalkState>, a: nat, b: nat, c: nat, nodes: set<QueryPlan>)
    requires Pieces(data, suffixes, xs, a, b, nodes) && b <= c
    ensures Pieces(data, suffixes, xs, a, c, nodes)
  {
  }

  lemma EdgeDone(data: seq<Byte>, suffixes: seq<nat>, st: WalkState, k: nat, added: seq<WalkState>, more: seq<WalkState>,
                 lo: nat, hi: nat, nodes: set<QueryPlan>)
    requires Shares(data, suffixes, st) && st.left <= lo <= hi <= st.right
    requires st.key != null && st.key in nodes && st.key.Reflects(nodes) && k < |st.key.edges|
    requires Pieces(data, suffixes, added, st.left, lo, nodes) && Pieces(data, suffixes, more, lo, hi, nodes)
    requires Keyed(added, nodes) && Keyed(more, nodes)
    requires Costs(added, nodes) <= (lo - st.left) * Depth(st.key.tree)
    requires Costs(more, nodes) <= (hi - lo) * (1 + Depth(TreeOf(st.key.edges[k].next)))
    requires Through(data, suffixes, st, k, added, nodes) && AllFrom(data, suffixes, more, st, st.key.edges[k])
    requires forall i | st.left <= i < st.right && Covers(st.key.edges[k], ByteAt(data, suffixes, st.depth, i)) ::
      Held(more, i, st.key.edges[k].next, st.depth + 1)
    ensures Pieces(data, suffixes, added + more, st.left, hi, nodes) && Keyed(added + more, nodes)
    ensures Costs(added + more, nodes) <= (hi - st.left) * Depth(st.key.tree)
    ensures Through(data, suffixes, st, k + 1, added + more, nodes)
  {
    hide Depth, Found, Held, Pieces, Costs, AcceptedThrough, Common, Whole, AllFrom;
    PiecesAppend(data, suffixes, added, more, st.left, lo, hi, nodes);
    CostsAppend(added, more, nodes);
    EdgeCost(st.key.tree, k, lo - st.left, hi - lo);
    assert st.key.tree.edges[k].next == TreeOf(st.key.edges[k].next);
    forall i | Inside(st, i)
      ensures AcceptedThrough(data, suffixes, st, k + 1, i) <==> Found(data, suffixes, added + more, i, nodes)
    {
      FoundAppend(data, suffixes, added, more, i, nodes);
      EdgeFound(data, suffixes, st, k, more, i, nodes);
    }
  }

  lemma EdgeCost(tree: Plan, k: nat, before: nat, size: nat)
    requires tree.Node? && k < |tree.edges|
    ensures before * Depth(tree) + size * (1 + Depth(tree.edges[k].next)) <= (before + size) * Depth(tree)
  {
    DepthBound(tree, |tree.edges|, k);
    hide Depth, DepthBelow;
    Products(before, size, Depth(tree.edges[k].next), Depth(tree));
  }

  lemma Products(before: nat, size: nat, d: nat, h: nat)
    requires 1 + d <= h
    ensures before * h + size * (1 + d) <= (before + size) * h
  {
    assert size * (1 + d) <= size * h;
    assert before * h + size * h == (before + size) * h;
  }

  lemma EdgeFound(data: seq<Byte>, suffixes: seq<nat>, st: WalkState, k: nat, more: seq<WalkState>, i: int,
                  nodes: set<QueryPlan>)
    requires Shares(data, suffixes, st) && Inside(st, i) && Keyed(more, nodes)
    requires st.key != null && st.key in nodes && st.key.Reflects(nodes) && k < |st.key.edges|
    requires AllFrom(data, suffixes, more, st, st.key.edges[k])
    requires Covers(st.key.edges[k], ByteAt(data, suffixes, st.depth, i)) ==>
      Held(more, i, st.key.edges[k].next, st.depth + 1)
    ensures AcceptedThrough(data, suffixes, st, k + 1, i) <==>
      AcceptedThrough(data, suffixes, st, k, i) || Found(data, suffixes, more, i, nodes)
  {
    hide Held, Found, AllFrom, Common, Whole, Stops;
    var e := st.key.edges[k];
    assert st.key.tree.edges[k] == Edge(e.lo, e.hi, TreeOf(e.next));
    if Found(data, suffixes, more, i, nodes) {
      FoundFrom(data, suffixes, st, e, more, i, nodes);
    }
    if Covers(e, ByteAt(data, suffixes, st.depth, i)) && Stops(data, TreeOf(e.next), suffixes[i], st.depth + 1) {
      HeldFound(data, suffixes, st, e, more, i, nodes);
    }
  }

  /** A suffix that stops in an entry pushed for an edge stops through the edge. */
  lemma FoundFrom(data: seq<Byte>, suffixes: seq<nat>, st: WalkState, e: Edge<QueryPlan?>, more: seq<WalkState>, i: int,
                  nodes: set<QueryPlan>)
    requires Shares(data, suffixes, st) && Inside(st, i) && Keyed(more, nodes) && AllFrom(data, suffixes, more, st, e)
    requires In(e.next, nodes) && Found(data, suffixes, more, i, nodes)
    ensures Covers(e, ByteAt(data, suffixes, st.depth, i)) && Stops(data, TreeOf(e.next), suffixes[i], st.depth + 1)
  {
    hide Common, Whole, Stops;
    var k :| 0 <= k < |more| && Inside(more[k], i) && Accepts(data, suffixes, more[k], i);
    assert FromEdge(data, suffixes, more[k], st, e);
  }

  ghost predicate Apart(x: WalkState, y: WalkState) {
    x.right <= y.left || y.right <= x.left
  }

  /** The stack and the emitted suffixes `done` never overlap. */
  ghost predicate Disjoint(stack: seq<WalkState>, done: seq<nat>) {
    && (forall k, m | 0 <= k < m < |stack| :: Apart(stack[k], stack[m]))
    && (forall a, b | 0 <= a < b < |done| :: done[a] != done[b])
    && (forall k, a | 0 <= k < |stack| && 0 <= a < |done| :: !Inside(stack[k], done[a]))
  }

  /** What holds whenever the walk looks at its stack. */
  ghost predicate Walking(data: seq<Byte>, suffixes: seq<nat>, start: WalkState, stack: seq<WalkState>, done: seq<nat>,
                          nodes: set<QueryPlan>)
    reads nodes`tree, (if start.key == null then {} else {start.key})`tree
  {
    && Keyed(stack, nodes) && (forall k | 0 <= k < |stack| :: Shares(data, suffixes, stack[k]))
    && (forall a | 0 <= a < |done| :: done[a] < |suffixes|)
    && Disjoint(stack, done)
    && (forall i | 0 <= i < |suffixes| ::
      Accepts(data, suffixes, start, i) <==> i in done || Found(data, suffixes, stack, i, nodes))
  }

  function Interval(left: nat, right: nat): (r: seq<nat>)
    requires left <= right
    ensures |r| == right - left && forall k | 0 <= k < |r| :: r[k] == left + k
  {
    seq(right - left, k => left + k)
  }

  /** Emitting the top interval. */
  lemma EmitTop(data: seq<Byte>, suffixes: seq<nat>, start: WalkState, stack: seq<WalkState>, done: seq<nat>,
                nodes: set<QueryPlan>)
    requires Walking(data, suffixes, start, stack, done, nodes) && stack != []
    requires var st := stack[|stack| - 1]; forall i | Inside(st, i) :: Accepts(data, suffixes, st, i)
    ensures var st := stack[|stack| - 1];
      st.left <= st.right && Walking(data, suffixes, start, stack[..|stack| - 1], done + Interval(st.left, st.right), nodes)
  {
    hide Shares, Accepts;
    var rest, st := stack[..|stack| - 1], stack[|stack| - 1];
    ShareBounds(data, suffixes, st);
    var done' := done + Interval(st.left, st.right);
    EmitDisjoint(stack, done);
    hide Disjoint, Inside;
    forall i | 0 <= i < |suffixes|
      ensures Accepts(data, suffixes, start, i) <==> i in done' || Found(data, suffixes, rest, i, nodes)
    {
      FoundAppend(data, suffixes, rest, [st], i, nodes);
      assert stack == rest + [st];
      FoundOne(data, suffixes, st, i, nodes);
      InInterval(st.left, st.right, i);
      assert i in done' <==> i in done || i in Interval(st.left, st.right);
    }
  }

  lemma FoundOne(data: seq<Byte>, suffixes: seq<nat>, st: WalkState, i: nat, nodes: set<QueryPlan>)
    requires In(st.key, nodes)
    ensures Found(data, suffixes, [st], i, nodes) <==> Inside(st, i) && Accepts(data, suffixes, st, i)
  {
    hide Accepts;
    assert [st][0] == st;
  }

  lemma InInterval(left: nat, right: nat, i: nat)
    requires left <= right
    ensures i in Interval(left, right) <==> left <= i < right
  {
    if left <= i < right {
      assert Interval(left, right)[i - left] == i;
    }
  }

  lemma ShareBounds(data: seq<Byte>, suffixes: seq<nat>, st: WalkState)
    requires Shares(data, suffixes, st)
    ensures st.left <= st.right <= |suffixes|
  {
  }

  lemma EmitDisjoint(stack: seq<WalkState>, done: seq<nat>)
    requires Disjoint(stack, done) && stack != []
    requires var st := stack[|stack| - 1]; st.left <= st.right
    ensures var st := stack[|stack| - 1]; Disjoint(stack[..|stack| - 1], done + Interval(st.left, st.right))
  {
    var rest, st := stack[..|stack| - 1], stack[|stack| - 1];
    var done' := done + Interval(st.left, st.right);
    forall a, b | 0 <= a < b < |done'| ensures done'[a] != done'[b] {
      if a < |done| <= b {
        assert Inside(st, done'[b]) && !Inside(st, done[a]);
      }
    }
    forall k, a | 0 <= k < |rest| && 0 <= a < |done'| ensures !Inside(rest[k], done'[a]) {
      assert Apart(stack[k], stack[|stack| - 1]);
      if a < |done| {
        assert !Inside(stack[k], done[a]);
      }
    }
  }

  /** Replacing the top interval by pieces of it that hold everything it accepts. */
  lemma ExpandTop(data: seq<Byte>, suffixes: seq<nat>, start: WalkState, stack: seq<WalkState>, done: seq<nat>,
                  added: seq<WalkState>, nodes: set<QueryPlan>)
    requires Walking(data, suffixes, start, stack, done, nodes) && stack != [] && Keyed(added, nodes)
    requires var st := stack[|stack| - 1];
      && Pieces(data, suffixes, added, st.left, st.right, nodes)
      && (forall i | Inside(st, i) :: Accepts(data, suffixes, st, i) <==> Found(data, suffixes, added, i, nodes))
    ensures Walking(data, suffixes, start, stack[..|stack| - 1] + added, done, nodes)
  {
    hide Shares, Accepts;
    var rest, st := stack[..|stack| - 1], stack[|stack| - 1];
    ExpandDisjoint(stack, done, added);
    forall i | 0 <= i < |suffixes|
      ensures Accepts(data, suffixes, start, i) <==> i in done || Found(data, suffixes, rest + added, i, nodes)
    {
      FoundAppend(data, suffixes, rest, [st], i, nodes);
      FoundAppend(data, suffixes, rest, added, i, nodes);
      FoundOne(data, suffixes, st, i, nodes);
      assert stack == rest + [st];
    }
  }

  lemma ExpandDisjoint(stack: seq<WalkState>, done: seq<nat>, added: seq<WalkState>)
    requires Disjoint(stack, done) && stack != []
    requires var st := stack[|stack| - 1];
      forall k | 0 <= k < |added| :: st.left <= added[k].left < added[k].right <= st.right
    requires forall k, m | 0 <= k < m < |added| :: added[k].right <= added[m].left
    ensures Disjoint(stack[..|stack| - 1] + added, done)
  {
    var rest, st := stack[..|stack| - 1], stack[|stack| - 1];
    var s := rest + added;
    forall k, m | 0 <= k < m < |s| ensures Apart(s[k], s[m]) {
      if k < |rest| {
        assert Apart(stack[k], st);
        if m < |rest| {
          assert Apart(stack[k], stack[m]);
        }
      }
    }
    forall k, a | 0 <= k < |s| && 0 <= a < |done| ensures !Inside(s[k], done[a]) {
      assert !Inside(st, done[a]);
      if k < |rest| {
        assert !Inside(stack[k], done[a]);
      }
    }
  }

  /** The positions of the suffixes `done`. */
  function Positions(suffixes: seq<nat>, done: seq<nat>): (r: seq<nat>)
    requires forall a | 0 <= a < |done| :: done[a] < |suffixes|
    ensures |r| == |done| && forall a | 0 <= a < |done| :: r[a] == suffixes[done[a]]
  {
    seq(|done|, a requires 0 <= a < |done| => suffixes[done[a]])
  }

  method CopyInterval(suffixes: seq<nat>, left: nat, right: nat, out: array<nat>, count: nat)
    requires left <= right <= |suffixes| && count + (right - left) <= out.Length
    modifies out
    ensures out[..count + (right - left)] == old(out[..count]) + suffixes[left..right]
  {
    for k := left to right
      invariant out[..count + (k - left)] == old(out[..count]) + suffixes[left..k]
    {
      out[count + (k - left)] := suffixes[k];
      assert out[..count + (k + 1 - left)] == out[..count + (k - left)] + [suffixes[k]];
    }
  }

  lemma PositionsAppend(suffixes: seq<nat>, done: seq<nat>, left: nat, right: nat)
    requires (forall a | 0 <= a < |done| :: done[a] < |suffixes|) && left <= right <= |suffixes|
    ensures Positions(suffixes, done + Interval(left, right)) == Positions(suffixes, done) + suffixes[left..right]
  {
  }

  lemma StartWalk(data: seq<Byte>, suffixes: seq<nat>, start: WalkState, nodes: set<QueryPlan>)
    requires Index(data, suffixes) && In(start.key, nodes) && start.left == 0 && start.right == |suffixes| && start.depth == 0
    ensures Walking(data, suffixes, start, [start], [], nodes)
  {
    assert forall i | 0 <= i < |suffixes| :: Prefix(data, suffixes, 0, i) == [];
    forall i | 0 <= i < |suffixes| ensures Accepts(data, suffixes, start, i) <==> Found(data, suffixes, [start], i, nodes) {
      FoundOne(data, suffixes, start, i, nodes);
    }
  }

  lemma TopShares(data: seq<Byte>, suffixes: seq<nat>, start: WalkState, stack: seq<WalkState>, done: seq<nat>,
                  nodes: set<QueryPlan>)
    requires Walking(data, suffixes, start, stack, done, nodes) && stack != []
    ensures Shares(data, suffixes, stack[|stack| - 1])
    ensures stack[|stack| - 1].left <= stack[|stack| - 1].right <= |suffixes|
  {
  }

  /** Dropping the top interval does not add work; expanding a non-empty one removes some. */
  lemma CostsDrop(stack: seq<WalkState>, added: seq<WalkState>, nodes: set<QueryPlan>)
    requires stack != [] && Keyed(stack, nodes) && Keyed(added, nodes)
    ensures var rest := stack[..|stack| - 1]; Keyed(rest, nodes) && Costs(rest, nodes) <= Costs(stack, nodes)
    ensures var rest, st := stack[..|stack| - 1], stack[|stack| - 1];
      st.left < st.right && Costs(added, nodes) <= (st.right - st.left) * Depth(TreeOf(st.key)) ==>
      Keyed(rest + added, nodes) && Costs(rest + added, nodes) < Costs(stack, nodes)
  {
    hide Depth, Keyed;
    var rest, st := stack[..|stack| - 1], stack[|stack| - 1];
    KeyedParts(stack, nodes);
    CostsAppend(rest, added, nodes);
    if st.left < st.right {
      Distribute(st.right - st.left, Depth(TreeOf(st.key)));
    }
  }

  lemma KeyedParts(stack: seq<WalkState>, nodes: set<QueryPlan>)
    requires stack != [] && Keyed(stack, nodes)
    ensures Keyed(stack[..|stack| - 1], nodes)
  {
  }

  lemma Distribute(size: nat, d: nat)
    ensures size * (1 + d) == size * d + size
  {
  }

  /** What is emitted are places where the walk stops. */
  lemma DoneStops(data: seq<Byte>, suffixes: seq<nat>, start: WalkState, stack: seq<WalkState>, done: seq<nat>,
                  nodes: set<QueryPlan>)
    requires Index(data, suffixes) && Walking(data, suffixes, start, stack, done, nodes) && start.depth == 0
    ensures forall a | 0 <= a < |done| :: done[a] < |suffixes|
    ensures var r := Positions(suffixes, done);
      && (forall a | 0 <= a < |r| :: r[a] in AllStops(data, TreeOf(start.key)))
      && (forall a, b | 0 <= a < b < |r| :: r[a] != r[b])
  {
    hide Shares, Stops, Found;
    var r := Positions(suffixes, done);
    forall a | 0 <= a < |r| ensures r[a] in AllStops(data, TreeOf(start.key)) {
      assert done[a] in done;
      assert Accepts(data, suffixes, start, done[a]);
    }
    forall a, b | 0 <= a < b < |r| ensures r[a] != r[b] {
      assert done[a] != done[b];
      if done[a] < done[b] {
        assert suffixes[done[a]] != suffixes[done[b]];
      }
    }
  }

  /** At least that many places, hence no more than there is text. */
  lemma DoneBound(data: seq<Byte>, suffixes: seq<nat>, start: WalkState, stack: seq<WalkState>, done: seq<nat>,
                  nodes: set<QueryPlan>)
    requires Index(data, suffixes) && Walking(data, suffixes, start, stack, done, nodes) && start.depth == 0
    ensures |done| <= |AllStops(data, TreeOf(start.key))| <= |data|
  {
    hide Index, Walking, Stops;
    DoneStops(data, suffixes, start, stack, done, nodes);
    var r, all := Positions(suffixes, done), AllStops(data, TreeOf(start.key));
    var s := set p | p in r;
    DistinctSize(r, s);
    SubsetSize(s, all);
    StopsBound(data, TreeOf(start.key));
  }

  lemma SubsetSize(a: set<nat>, b: set<nat>)
    requires a <= b
    ensures |a| <= |b|
  {
    assert b == a + (b - a);
  }

  lemma StopsBound(data: seq<Byte>, plan: Plan)
    ensures |AllStops(data, plan)| <= |data|
  {
    hide Stops;
    var s := Interval(0, |data|);
    var below := set p | p in s;
    DistinctSize(s, below);
    forall p | p in AllStops(data, plan) ensures p in below {
      InInterval(0, |data|, p);
    }
    SubsetSize(AllStops(data, plan), below);
  }

  /** In the end everything has been emitted. */
  lemma EndWalk(data: seq<Byte>, suffixes: seq<nat>, start: WalkState, done: seq<nat>, nodes: set<QueryPlan>)
    requires Index(data, suffixes) && Walking(data, suffixes, start, [], done, nodes) && start.depth == 0
    ensures forall a | 0 <= a < |done| :: done[a] < |suffixes|
    ensures Emitted(data, TreeOf(start.key), Positions(suffixes, done))
  {
    var r, all := Positions(suffixes, done), AllStops(data, TreeOf(start.key));
    DoneStops(data, suffixes, start, [], done, nodes);
    hide Shares, Stops;
    forall p: nat | p in all ensures p in r {
      assert p in suffixes;
      var i :| 0 <= i < |suffixes| && suffixes[i] == p;
      assert Accepts(data, suffixes, start, i);
      assert !Found(data, suffixes, [], i, nodes);
      var a :| 0 <= a < |done| && done[a] == i;
      assert r[a] == p;
    }
  }

  /** The positions where the walk stops, each once. */
  ghost predicate Emitted(data: seq<Byte>, plan: Plan, r: seq<nat>) {
    && (forall p: nat :: p in r <==> p in AllStops(data, plan))
    && (forall a, b | 0 <= a < b < |r| :: r[a] != r[b])
  }

  /** At the end of a plan, and in a small interval, the walk stops. */
  lemma EndStops(data: seq<Byte>, suffixes: seq<nat>, st: WalkState, i: nat)
    requires Index(data, suffixes) && Shares(data, suffixes, st) && Inside(st, i) && (st.key == null || st.key.tree.Node?)
    requires st.key == null || st.key.tree.edges == [] || st.right - st.left <= kSmall
    ensures Accepts(data, suffixes, st, i)
  {
    AlikeSize(data, suffixes, st, i);
    hide Index, Common, Whole, Alike;
  }

  /** Appends the top interval to `out`, unless it does not fit. */
  method Emit(data: seq<Byte>, suffixes: seq<nat>, ghost start: WalkState, stack: seq<WalkState>, ghost done: seq<nat>,
              out: array<nat>, count: nat, ghost nodes: set<QueryPlan>)
    returns (fits: bool, ghost done': seq<nat>)
    requires Index(data, suffixes) && stack != [] && Walking(data, suffixes, start, stack, done, nodes) && start.depth == 0
    requires var st := stack[|stack| - 1]; st.key == null || st.key.tree.Node?
    requires var st := stack[|stack| - 1]; st.key == null || st.key.tree.edges == [] || st.right - st.left <= kSmall
    requires forall a | 0 <= a < |done| :: done[a] < |suffixes|
    requires count == |done| <= out.Length && out[..count] == Positions(suffixes, done)
    modifies out
    ensures !fits ==> out.Length < |AllStops(data, TreeOf(start.key))| <= |data|
    ensures fits ==>
      && Walking(data, suffixes, start, stack[..|stack| - 1], done', nodes)
      && |done'| == |done| + (stack[|stack| - 1].right - stack[|stack| - 1].left) <= out.Length
      && (forall a | 0 <= a < |done'| :: done'[a] < |suffixes|)
      && out[..|done'|] == Positions(suffixes, done')
  {
    hide Index, Walking, Shares, Accepts;
    var st := stack[|stack| - 1];
    TopShares(data, suffixes, start, stack, done, nodes);
    forall i | Inside(st, i) ensures Accepts(data, suffixes, st, i) {
      EndStops(data, suffixes, st, i);
    }
    EmitTop(data, suffixes, start, stack, done, nodes);
    done' := done + Interval(st.left, st.right);
    DoneBound(data, suffixes, start, stack[..|stack| - 1], done', nodes);
    fits := count + (st.right - st.left) <= out.Length;
    if fits {
      CopyInterval(suffixes, st.left, st.right, out, count);
      PositionsAppend(suffixes, done, st.left, st.right);
    }
  }

  /**
   * The positions where the walk stops, each once, in the first `count` places of
   * `out`, among them all from which the plan accepts; or, if there are more than
   * `out` can hold, its size plus one.
   */
  method Search(data: seq<Byte>, suffixes: seq<nat>, index: QueryPlan?, out: array<nat>, ghost nodes: set<QueryPlan>)
    returns (count: nat)
    requires Index(data, suffixes) && Closed(nodes) && In(index, nodes)
    modifies out
    ensures var all := AllStops(data, TreeOf(index)); |all| <= |data| && count == if |all| <= out.Length then |all| else out.Length + 1
    ensures count <= out.Length ==>
      && Emitted(data, TreeOf(index), out[..count])
      && (forall p | 0 <= p < |data| && Walk(TreeOf(index), data[p..]) :: p in out[..count])
  {
    hide Walking, Shares, Pieces, Closed, Costs, Depth, Index, AllStops, Emitted, Accepts;
    var start := WalkState(0, |suffixes|, index, 0);
    StartWalk(data, suffixes, start, nodes);
    var stack := [start];
    ghost var done: seq<nat> := [];
    count := 0;
    while stack != []
      invariant Walking(data, suffixes, start, stack, done, nodes) && Keyed(stack, nodes)
      invariant count == |done| <= out.Length && (forall a | 0 <= a < |done| :: done[a] < |suffixes|)
      invariant out[..count] == Positions(suffixes, done)
      decreases Costs(stack, nodes), |stack|
    {
      var st := stack[|stack| - 1];
      TopShares(data, suffixes, start, stack, done, nodes);
      KeyReflects(st.key, nodes);
      if st.key == null || st.key.edges == [] || st.right - st.left <= kSmall {
        CostsDrop(stack, [], nodes);
        var fits;
        fits, done := Emit(data, suffixes, start, stack, done, out, count, nodes);
        if !fits {
          return out.Length + 1;
        }
        count := count + (st.right - st.left);
        stack := stack[..|stack| - 1];
      } else {
        var added := Expand(data, suffixes, st, nodes);
        ExpandTop(data, suffixes, start, stack, done, added, nodes);
        CostsDrop(stack, added, nodes);
        stack := stack[..|stack| - 1] + added;
      }
    }
    EndWalk(data, suffixes, start, done, nodes);
    EmittedIs(data, TreeOf(index), out[..count]);
  }

  lemma KeyReflects(key: QueryPlan?, nodes: set<QueryPlan>)
    requires Closed(nodes) && In(key, nodes)
    ensures key != null ==> key.tree.Node? && |key.tree.edges| == |key.edges|
  {
  }

  /** As many as there are, and all from which the plan accepts. */
  lemma EmittedIs(data: seq<Byte>, plan: Plan, r: seq<nat>)
    requires Emitted(data, plan, r)
    ensures |r| == |AllStops(data, plan)| <= |data|
    ensures forall p | 0 <= p < |data| && Walk(plan, data[p..]) :: p in r
  {
    hide Stops, Walk;
    DistinctSize(r, AllStops(data, plan));
    StopsBound(data, plan);
    forall p: nat | p < |data| && Walk(plan, data[p..]) ensures p in r {
      WalkStops(data, plan, p, 0);
      assert p in AllStops(data, plan);
    }
  }
}
