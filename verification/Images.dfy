/** The bytes of a stored index: fixed-width integers, strings and lists, and reading them back. */
module Images {
  import opened Bytes

  type Image = seq<Byte>

  function Power(width: nat): nat {
    if width == 0 then 1 else 0x100 * Power(width - 1)
  }

  /** The low `width` bytes of a number, lowest first. */
  function Int(width: nat, n: nat): (r: Image)
    ensures |r| == width
  {
    if width == 0 then [] else [(n % 0x100) as Byte] + Int(width - 1, n / 0x100)
  }

  function Value(s: Image): nat {
    if s == [] then 0 else s[0] + 0x100 * Value(s[1..])
  }

  /** A number that fits is read back. */
  lemma {:induction false} ValueOfInt(width: nat, n: nat)
    requires n < Power(width)
    ensures Value(Int(width, n)) == n
  {
    if width > 0 {
      ValueOfInt(width - 1, n / 0x100);
      assert Int(width, n)[1..] == Int(width - 1, n / 0x100);
    }
  }

  /** Four bytes, the lowest first. */
  lemma FourBytes(s: Image)
    requires |s| == 4
    ensures Value(s) == s[0] as int + 0x100 * (s[1] as int) + 0x1_0000 * (s[2] as int) + 0x100_0000 * (s[3] as int)
  {
    var a, b, c, d := s[0], s[1], s[2], s[3];
    assert s == [a, b, c, d] && [a, b, c, d][1..] == [b, c, d] && [b, c, d][1..] == [c, d] && [c, d][1..] == [d];
    assert [d][1..] == [] && Value([d]) == d && Value([c, d]) == c as int + 0x100 * (d as int);
  }

  lemma Powers()
    ensures Power(4) == 0x1_0000_0000 && Power(8) == 0x1_0000_0000 * 0x1_0000_0000
  {
    assert Power(1) == 0x100 && Power(2) == 0x1_0000 && Power(3) == 0x100_0000;
    assert Power(5) == 0x100_0000_0000 && Power(6) == 0x1_0000_0000_0000 && Power(7) == 0x100_0000_0000_0000;
  }

  const kMax32 := 0x1_0000_0000

  function String(s: Image): Image {
    Int(4, |s|) + s
  }

  /** The encodings of the elements, one after the other. */
  function List<T>(e: T -> Image, xs: seq<T>): Image {
    if xs == [] then [] else List(e, xs[..|xs| - 1]) + e(xs[|xs| - 1])
  }

  lemma ListPush<T>(e: T -> Image, xs: seq<T>, x: T)
    ensures List(e, xs + [x]) == List(e, xs) + e(x)
  {
    assert (xs + [x])[..|xs|] == xs;
  }

  lemma ListNext<T>(e: T -> Image, xs: seq<T>, i: nat)
    requires i < |xs|
    ensures List(e, xs[..i + 1]) == List(e, xs[..i]) + e(xs[i])
  {
    assert xs[..i + 1] == xs[..i] + [xs[i]];
    ListPush(e, xs[..i], xs[i]);
  }

  lemma {:induction false} ListParts<T>(e: T -> Image, a: seq<T>, b: seq<T>)
    ensures List(e, a + b) == List(e, a) + List(e, b)
  {
    if b == [] {
      assert a + b == a;
    } else {
      var n := |b| - 1;
      assert a + b == (a + b[..n]) + [b[n]];
      ListPush(e, a + b[..n], b[n]);
      ListParts(e, a, b[..n]);
    }
  }

  // ----- What is where -----

  /** The encoding stands at `off`. */
  predicate At(file: Image, off: nat, enc: Image) {
    off + |enc| <= |file| && file[off..off + |enc|] == enc
  }

  lemma AtParts(file: Image, off: nat, a: Image, b: Image)
    requires At(file, off, a + b)
    ensures At(file, off, a) && At(file, off + |a|, b)
  {
    assert (a + b)[..|a|] == a && (a + b)[|a|..] == b;
    assert file[off..off + |a|] == file[off..off + |a + b|][..|a|];
    assert file[off + |a|..off + |a| + |b|] == file[off..off + |a + b|][|a|..];
  }

  lemma AtExtends(file: Image, more: Image, off: nat, enc: Image)
    requires At(file, off, enc)
    ensures At(file + more, off, enc)
  {
  }

  /** Rewriting what comes before leaves an encoding where it is. */
  lemma AtAfter(file: Image, front: Image, off: nat, enc: Image)
    requires At(file, off, enc) && |front| <= off
    ensures At(front + file[|front|..], off, enc)
  {
    var r := front + file[|front|..];
    assert forall i | |front| <= i < |file| :: r[i] == file[i];
  }

  /** Element `i` of a list stands after the ones before it. */
  lemma ElementAt<T>(file: Image, off: nat, e: T -> Image, xs: seq<T>, i: nat)
    requires At(file, off, List(e, xs)) && i < |xs|
    ensures At(file, off + |List(e, xs[..i])|, e(xs[i]))
    ensures |List(e, xs[..i + 1])| == |List(e, xs[..i])| + |e(xs[i])|
  {
    ListNext(e, xs, i);
    assert xs == xs[..i + 1] + xs[i + 1..];
    ListParts(e, xs[..i + 1], xs[i + 1..]);
    AtParts(file, off, List(e, xs[..i + 1]), List(e, xs[i + 1..]));
    AtParts(file, off, List(e, xs[..i]), e(xs[i]));
  }

  // ----- Reading -----

  method LoadInt(file: Image, p: nat, width: nat, ghost n: nat) returns (v: nat, p': nat)
    requires At(file, p, Int(width, n)) && n < Power(width)
    ensures v == n && p' == p + width
  {
    v, p' := Value(file[p..p + width]), p + width;
    ValueOfInt(width, n);
  }

  method LoadString(file: Image, p: nat, ghost s: Image) returns (r: Image, p': nat)
    requires At(file, p, String(s)) && |s| < kMax32
    ensures r == s && p' == p + |String(s)|
  {
    Powers();
    AtParts(file, p, Int(4, |s|), s);
    var len, q := LoadInt(file, p, 4, |s|);
    r, p' := file[q..q + len], q + len;
  }

  function Int4(n: nat): Image {
    Int(4, n)
  }

  predicate All32(s: seq<nat>) {
    forall i | 0 <= i < |s| :: s[i] < kMax32
  }

  method LoadInts(file: Image, p: nat, n: nat, ghost s: seq<nat>) returns (r: seq<nat>, p': nat)
    requires At(file, p, List(Int4, s)) && n == |s| && All32(s)
    ensures r == s && p' == p + |List(Int4, s)|
  {
    Powers();
    r, p' := [], p;
    for i := 0 to n
      invariant r == s[..i] && p' == p + |List(Int4, s[..i])|
    {
      ElementAt(file, p, Int4, s, i);
      var v;
      v, p' := LoadInt(file, p', 4, s[i]);
      r := r + [v];
    }
    assert s[..n] == s;
  }

  // ----- Packed records of numbers -----

  /** The numbers in the given widths, one after the other. */
  function Packed(widths: seq<nat>, values: seq<nat>): Image
    requires |values| == |widths|
  {
    if widths == [] then []
    else
      var n := |widths| - 1;
      Packed(widths[..n], values[..n]) + Int(widths[n], values[n])
  }

  function Total(widths: seq<nat>): nat {
    if widths == [] then 0 else Total(widths[..|widths| - 1]) + widths[|widths| - 1]
  }

  predicate Fit(widths: seq<nat>, values: seq<nat>) {
    |values| == |widths| && forall i | 0 <= i < |widths| :: values[i] < Power(widths[i])
  }

  lemma {:induction false} PackedSize(widths: seq<nat>, values: seq<nat>)
    requires |values| == |widths|
    ensures |Packed(widths, values)| == Total(widths)
  {
    if widths != [] {
      PackedSize(widths[..|widths| - 1], values[..|widths| - 1]);
    }
  }

  lemma {:induction false} FieldAt(file: Image, p: nat, widths: seq<nat>, values: seq<nat>, i: nat)
    requires |values| == |widths| && i < |widths| && At(file, p, Packed(widths, values))
    ensures At(file, p + Total(widths[..i]), Int(widths[i], values[i]))
    ensures Total(widths[..i + 1]) == Total(widths[..i]) + widths[i]
    decreases |widths|
  {
    var n := |widths| - 1;
    PackedSize(widths[..n], values[..n]);
    AtParts(file, p, Packed(widths[..n], values[..n]), Int(widths[n], values[n]));
    assert widths[..i + 1][..i] == widths[..i];
    if i < n {
      FieldAt(file, p, widths[..n], values[..n], i);
      assert widths[..n][..i] == widths[..i];
    }
  }

  method LoadPacked(file: Image, p: nat, widths: seq<nat>, ghost values: seq<nat>) returns (r: seq<nat>, p': nat)
    requires Fit(widths, values) && At(file, p, Packed(widths, values))
    ensures r == values && p' == p + Total(widths)
  {
    r, p' := [], p;
    for i := 0 to |widths|
      invariant r == values[..i] && p' == p + Total(widths[..i])
    {
      FieldAt(file, p, widths, values, i);
      var v;
      v, p' := LoadInt(file, p', widths[i], values[i]);
      r := r + [v];
    }
    assert widths[..|widths|] == widths;
  }
}
