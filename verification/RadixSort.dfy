/** Sorting 32-bit integers by four stable passes of counting, one byte at a time. */
module RadixSort {

  const kLimit := 0x1_0000_0000

  /** 256 to the power of `digit`. */
  function Unit(digit: nat): nat
    requires digit <= 4
  {
    if digit == 0 then 1 else if digit == 1 then 0x100 else if digit == 2 then 0x1_0000
    else if digit == 3 then 0x100_0000 else kLimit
  }

  function Digit(x: nat, digit: nat): (d: nat)
    requires digit < 4
    ensures d < 0x100
  {
    x / Unit(digit) % 0x100
  }

  /** The elements whose digit is `b`, in order. */
  function Bucket(s: seq<nat>, digit: nat, b: nat): seq<nat>
    requires digit < 4
  {
    if s == [] then []
    else
      var r := Bucket(s[..|s| - 1], digit, b);
      if Digit(s[|s| - 1], digit) == b then r + [s[|s| - 1]] else r
  }

  /** The first `n` buckets, one after the other. */
  function Buckets(s: seq<nat>, digit: nat, n: nat): seq<nat>
    requires digit < 4
  {
    if n == 0 then [] else Buckets(s, digit, n - 1) + Bucket(s, digit, n - 1)
  }

  lemma BucketPush(s: seq<nat>, x: nat, digit: nat, b: nat)
    requires digit < 4
    ensures Bucket(s + [x], digit, b) == if Digit(x, digit) == b then Bucket(s, digit, b) + [x] else Bucket(s, digit, b)
  {
    assert (s + [x])[..|s|] == s;
  }

  lemma {:induction false} BucketAppend(s: seq<nat>, t: seq<nat>, digit: nat, b: nat)
    requires digit < 4
    ensures Bucket(s + t, digit, b) == Bucket(s, digit, b) + Bucket(t, digit, b)
  {
    if t == [] {
      assert s + t == s;
    } else {
      assert s + t == (s + t[..|t| - 1]) + [t[|t| - 1]];
      BucketAppend(s, t[..|t| - 1], digit, b);
      BucketPush(s + t[..|t| - 1], t[|t| - 1], digit, b);
    }
  }

  /** Leaving out one element. */
  lemma BucketWithout(t: seq<nat>, k: nat, digit: nat, b: nat)
    requires digit < 4 && k < |t|
    ensures |Bucket(t, digit, b)| == |Bucket(t[..k] + t[k + 1..], digit, b)| + if Digit(t[k], digit) == b then 1 else 0
    ensures multiset(t) == multiset(t[..k] + t[k + 1..]) + multiset{t[k]}
  {
    assert t == (t[..k] + [t[k]]) + t[k + 1..];
    hide Bucket;
    BucketAppend(t[..k], t[k + 1..], digit, b);
    BucketAppend(t[..k] + [t[k]], t[k + 1..], digit, b);
    BucketPush(t[..k], t[k], digit, b);
  }

  /** Bucket sizes do not depend on the order, so one count up front serves every pass. */
  lemma {:induction false} BucketSizes(s: seq<nat>, t: seq<nat>, digit: nat, b: nat)
    requires digit < 4 && multiset(s) == multiset(t)
    ensures |Bucket(s, digit, b)| == |Bucket(t, digit, b)|
  {
    hide Bucket;
    if s == [] {
      assert |t| == |multiset(t)| == 0;
    } else {
      assert s[0] in multiset(t);
      var k :| 0 <= k < |t| && t[k] == s[0];
      BucketWithout(s, 0, digit, b);
      BucketWithout(t, k, digit, b);
      var s', t' := s[..0] + s[1..], t[..k] + t[k + 1..];
      assert multiset(s') == multiset(s) - multiset{s[0]} == multiset(t');
      BucketSizes(s', t', digit, b);
    }
  }

  lemma {:induction false} BucketElements(s: seq<nat>, digit: nat, b: nat)
    requires digit < 4
    ensures forall i | 0 <= i < |Bucket(s, digit, b)| :: Digit(Bucket(s, digit, b)[i], digit) == b && Bucket(s, digit, b)[i] in s
    ensures |Bucket(s, digit, b)| <= |s|
  {
    if s != [] {
      BucketElements(s[..|s| - 1], digit, b);
    }
  }

  /** A pass neither loses nor adds anything. */
  lemma {:induction false} BucketsPermute(s: seq<nat>, digit: nat)
    requires digit < 4
    ensures multiset(Buckets(s, digit, 0x100)) == multiset(s)
  {
    if s == [] {
      NoBuckets(digit, 0x100);
    } else {
      var n := |s| - 1;
      assert s == s[..n] + [s[n]];
      BucketsPermute(s[..n], digit);
      BucketsPush(s[..n], s[n], digit, 0x100);
    }
  }

  lemma {:induction false} NoBuckets(digit: nat, n: nat)
    requires digit < 4
    ensures Buckets([], digit, n) == []
  {
    if n > 0 {
      NoBuckets(digit, n - 1);
    }
  }

  lemma {:induction false} BucketsPush(s: seq<nat>, x: nat, digit: nat, n: nat)
    requires digit < 4
    ensures multiset(Buckets(s + [x], digit, n))
      == multiset(Buckets(s, digit, n)) + if Digit(x, digit) < n then multiset{x} else multiset{}
  {
    hide Digit, Bucket;
    if n > 0 {
      BucketsPush(s, x, digit, n - 1);
      BucketPush(s, x, digit, n - 1);
    }
  }

  predicate SortedBelow(s: seq<nat>, digit: nat)
    requires digit <= 4
  {
    forall i, j | 0 <= i < j < |s| :: s[i] % Unit(digit) <= s[j] % Unit(digit)
  }

  /** Order by the low digits, and then by the next one, is order by one more digit. */
  lemma NextDigit(x: nat, y: nat, digit: nat)
    requires digit < 4
    requires Digit(x, digit) < Digit(y, digit) || (Digit(x, digit) == Digit(y, digit) && x % Unit(digit) <= y % Unit(digit))
    ensures x % Unit(digit + 1) <= y % Unit(digit + 1)
  {
    Split(x, digit);
    Split(y, digit);
  }

  lemma Split(x: nat, digit: nat)
    requires digit < 4
    ensures x % Unit(digit + 1) == Digit(x, digit) * Unit(digit) + x % Unit(digit)
  {
    if digit == 1 {
      Split1(x);
    } else if digit == 2 {
      Split2(x);
    } else if digit == 3 {
      Split3(x);
    }
  }

  lemma Split1(x: nat)
    ensures x % 0x1_0000 == x / 0x100 % 0x100 * 0x100 + x % 0x100
  {
    var q := x / 0x100;
    assert x == q / 0x100 * 0x1_0000 + (q % 0x100 * 0x100 + x % 0x100);
  }

  lemma Split2(x: nat)
    ensures x % 0x100_0000 == x / 0x1_0000 % 0x100 * 0x1_0000 + x % 0x1_0000
  {
    var q := x / 0x1_0000;
    assert x == q / 0x100 * 0x100_0000 + (q % 0x100 * 0x1_0000 + x % 0x1_0000);
  }

  lemma Split3(x: nat)
    ensures x % kLimit == x / 0x100_0000 % 0x100 * 0x100_0000 + x % 0x100_0000
  {
    var q := x / 0x100_0000;
    assert x == q / 0x100 * kLimit + (q % 0x100 * 0x100_0000 + x % 0x100_0000);
  }

  lemma {:induction false} BucketOrder(s: seq<nat>, digit: nat, b: nat)
    requires digit < 4 && SortedBelow(s, digit)
    ensures SortedBelow(Bucket(s, digit, b), digit)
  {
    if s != [] {
      var n := |s| - 1;
      BucketOrder(s[..n], digit, b);
      BucketElements(s[..n], digit, b);
      var r := Bucket(s[..n], digit, b);
      forall i | 0 <= i < |r| ensures r[i] % Unit(digit) <= s[n] % Unit(digit) {
        assert r[i] in s[..n];
        var k :| 0 <= k < n && s[..n][k] == r[i];
        assert s[k] == r[i];
      }
    }
  }

  /** After a pass the elements are in order by one more digit. */
  lemma {:induction false} BucketsOrder(s: seq<nat>, digit: nat, n: nat)
    requires digit < 4 && SortedBelow(s, digit)
    ensures SortedBelow(Buckets(s, digit, n), digit + 1)
    ensures forall i | 0 <= i < |Buckets(s, digit, n)| :: Digit(Buckets(s, digit, n)[i], digit) < n
  {
    if n > 0 {
      BucketsOrder(s, digit, n - 1);
      BucketOrder(s, digit, n - 1);
      BucketElements(s, digit, n - 1);
      var a, b := Buckets(s, digit, n - 1), Bucket(s, digit, n - 1);
      var r := a + b;
      forall i, j | 0 <= i < j < |r| ensures r[i] % Unit(digit + 1) <= r[j] % Unit(digit + 1) {
        if j >= |a| {
          assert Digit(r[j], digit) == n - 1;
          NextDigit(r[i], r[j], digit);
        }
      }
    }
  }

  /** Where a bucket starts. */
  function Offset(s: seq<nat>, digit: nat, b: nat): nat
    requires digit < 4
  {
    |Buckets(s, digit, b)|
  }

  lemma OffsetNext(s: seq<nat>, digit: nat, b: nat)
    requires digit < 4
    ensures Offset(s, digit, b + 1) == Offset(s, digit, b) + |Bucket(s, digit, b)|
  {
  }

  lemma {:induction false} OffsetsGrow(s: seq<nat>, digit: nat, a: nat, b: nat)
    requires digit < 4 && a <= b
    ensures Offset(s, digit, a) <= Offset(s, digit, b)
    decreases b
  {
    if a < b {
      OffsetsGrow(s, digit, a, b - 1);
    }
  }

  lemma OffsetsBound(s: seq<nat>, digit: nat)
    requires digit < 4
    ensures Offset(s, digit, 0x100) == |s|
  {
    BucketsPermute(s, digit);
    assert |Buckets(s, digit, 0x100)| == |multiset(Buckets(s, digit, 0x100))|;
    assert |s| == |multiset(s)|;
  }

  // ----- The sort itself -----

  predicate Table(counts: array2<nat>) {
    counts.Length0 == 4 && counts.Length1 == 0x100
  }

  /** `counts[digit, b]` is the size of bucket `b`, for every digit. */
  ghost predicate Counted(counts: array2<nat>, s: seq<nat>, digit: int)
    requires Table(counts)
    reads counts
  {
    forall d, b | digit <= d < 4 && 0 <= d && 0 <= b < 0x100 :: counts[d, b] == |Bucket(s, d, b)|
  }

  /** The histograms of all four digits, in one go. */
  method Histograms(a: array<nat>, width: nat) returns (counts: array2<nat>)
    requires width <= a.Length
    ensures fresh(counts) && Table(counts) && Counted(counts, a[..width], 0)
  {
    counts := new nat[4, 0x100]((_, _) => 0);
    for i := 0 to width
      invariant Table(counts) && Counted(counts, a[..i], 0)
    {
      var x := a[i];
      assert a[..i + 1] == a[..i] + [x];
      forall d, b | 0 <= d < 4 && 0 <= b < 0x100
        ensures |Bucket(a[..i + 1], d, b)| == |Bucket(a[..i], d, b)| + if Digit(x, d) == b then 1 else 0
      {
        BucketPush(a[..i], x, d, b);
      }
      counts[0, Digit(x, 0)] := counts[0, Digit(x, 0)] + 1;
      counts[1, Digit(x, 1)] := counts[1, Digit(x, 1)] + 1;
      counts[2, Digit(x, 2)] := counts[2, Digit(x, 2)] + 1;
      counts[3, Digit(x, 3)] := counts[3, Digit(x, 3)] + 1;
    }
  }

  /** Turns the sizes of the buckets of one digit into their offsets. */
  method Offsets(counts: array2<nat>, ghost s: seq<nat>, digit: nat)
    requires Table(counts) && digit < 4 && Counted(counts, s, digit)
    modifies counts
    ensures Counted(counts, s, digit + 1)
    ensures forall b: nat | b < 0x100 :: counts[digit, b] == Offset(s, digit, b)
  {
    var total := 0;
    for i := 0 to 0x100
      invariant total == Offset(s, digit, i)
      invariant Counted(counts, s, digit + 1)
      invariant forall b: nat | b < i :: counts[digit, b] == Offset(s, digit, b)
      invariant forall b: nat | i <= b < 0x100 :: counts[digit, b] == |Bucket(s, digit, b)|
    {
      var tmp := counts[digit, i];
      counts[digit, i] := total;
      total := total + tmp;
    }
  }

  lemma BucketPrefix(s: seq<nat>, i: nat, digit: nat, b: nat)
    requires digit < 4 && i <= |s|
    ensures |Bucket(s[..i], digit, b)| <= |Bucket(s, digit, b)|
    ensures i < |s| && Digit(s[i], digit) == b ==> |Bucket(s[..i], digit, b)| < |Bucket(s, digit, b)|
  {
    assert s == s[..i] + s[i..];
    BucketAppend(s[..i], s[i..], digit, b);
    if i < |s| {
      assert s[i..] == [s[i]] + s[i + 1..];
      BucketAppend([s[i]], s[i + 1..], digit, b);
      BucketPush([], s[i], digit, b);
      assert [] + [s[i]] == [s[i]];
    }
  }

  /** The places one digit's buckets have been filled up to. */
  function Row(counts: array2<nat>, digit: nat): (r: seq<nat>)
    requires Table(counts) && digit < 4
    reads counts
    ensures |r| == 0x100 && forall b: nat | b < 0x100 :: r[b] == counts[digit, b]
  {
    seq(0x100, b requires 0 <= b < 0x100 reads counts => counts[digit, b])
  }

  /** Bucket `b` of the output holds the elements of the first `i` that belong there. */
  ghost predicate Placed(o: seq<nat>, row: seq<nat>, s: seq<nat>, digit: nat, i: nat, b: nat)
    requires digit < 4 && i <= |s| <= |o| && |row| == 0x100
  {
    b < 0x100 ==> (
      && row[b] == Offset(s, digit, b) + |Bucket(s[..i], digit, b)|
      && row[b] <= Offset(s, digit, b + 1) <= |s|
      && o[Offset(s, digit, b)..row[b]] == Bucket(s[..i], digit, b))
  }

  ghost predicate AllPlaced(o: seq<nat>, row: seq<nat>, s: seq<nat>, digit: nat, i: nat)
    requires digit < 4 && i <= |s| <= |o| && |row| == 0x100
  {
    forall b: nat | b < 0x100 :: Placed(o, row, s, digit, i, b)
  }

  lemma StartPlaced(o: seq<nat>, row: seq<nat>, s: seq<nat>, digit: nat)
    requires digit < 4 && |s| <= |o| && |row| == 0x100
    requires forall b: nat | b < 0x100 :: row[b] == Offset(s, digit, b)
    ensures AllPlaced(o, row, s, digit, 0)
  {
    assert s[..0] == [];
    OffsetsBound(s, digit);
    forall b: nat | b < 0x100 ensures Placed(o, row, s, digit, 0, b) {
      OffsetsGrow(s, digit, b, b + 1);
      OffsetsGrow(s, digit, b + 1, 0x100);
    }
  }

  /** The next element goes to the end of its own bucket and leaves the others alone. */
  lemma PlaceOne(o: seq<nat>, row: seq<nat>, s: seq<nat>, digit: nat, i: nat)
    requires digit < 4 && i < |s| <= |o| && |row| == 0x100 && AllPlaced(o, row, s, digit, i)
    ensures var d := Digit(s[i], digit);
      row[d] < |s| && AllPlaced(o[row[d] := s[i]], row[d := row[d] + 1], s, digit, i + 1)
  {
    hide Digit, Bucket, Buckets;
    OffsetNext(s, digit, Digit(s[i], digit));
    var d, i' := Digit(s[i], digit), i + 1;
    assert Placed(o, row, s, digit, i, d);
    BucketPrefix(s, i, digit, d);
    assert s[..i'] == s[..i] + [s[i]];
    var o', row' := o[row[d] := s[i]], row[d := row[d] + 1];
    forall b: nat | b < 0x100 ensures Placed(o', row', s, digit, i', b) {
      BucketPush(s[..i], s[i], digit, b);
      assert Placed(o, row, s, digit, i, b);
      if b == d {
        PlaceHere(o, row, s, digit, i);
      } else {
        OffsetsApart(s, digit, b, d);
        assert o'[Offset(s, digit, b)..row[b]] == o[Offset(s, digit, b)..row[b]];
      }
    }
  }

  lemma PlaceHere(o: seq<nat>, row: seq<nat>, s: seq<nat>, digit: nat, i: nat)
    requires digit < 4 && i < |s| <= |o| && |row| == 0x100
    requires var d := Digit(s[i], digit); Placed(o, row, s, digit, i, d) && row[d] < Offset(s, digit, d + 1)
    ensures var d := Digit(s[i], digit);
      Placed(o[row[d] := s[i]], row[d := row[d] + 1], s, digit, i + 1, d)
  {
    var d := Digit(s[i], digit);
    hide Digit, Bucket, Buckets, Offset;
    assert s[..i + 1] == s[..i] + [s[i]];
    BucketPush(s[..i], s[i], digit, d);
    var from := Offset(s, digit, d);
    assert o[row[d] := s[i]][from..row[d] + 1] == o[from..row[d]] + [s[i]];
  }

  lemma OffsetsApart(s: seq<nat>, digit: nat, b: nat, d: nat)
    requires digit < 4 && b != d
    ensures Offset(s, digit, b + 1) <= Offset(s, digit, d) || Offset(s, digit, d + 1) <= Offset(s, digit, b)
  {
    if b < d {
      OffsetsGrow(s, digit, b + 1, d);
    } else {
      OffsetsGrow(s, digit, d + 1, b);
    }
  }

  /** All buckets complete: the output is the buckets one after the other. */
  lemma {:induction false} Collect(o: seq<nat>, row: seq<nat>, s: seq<nat>, digit: nat, n: nat)
    requires digit < 4 && |s| <= |o| && |row| == 0x100 && n <= 0x100 && AllPlaced(o, row, s, digit, |s|)
    ensures Offset(s, digit, n) <= |s| && o[..Offset(s, digit, n)] == Buckets(s, digit, n)
  {
    if n > 0 {
      Collect(o, row, s, digit, n - 1);
      assert Placed(o, row, s, digit, |s|, n - 1);
      assert s[..|s|] == s;
      var from, to := Offset(s, digit, n - 1), Offset(s, digit, n);
      assert o[..to] == o[..from] + o[from..to];
    }
  }

  /** Puts `x` at the next free place of its bucket. */
  method PutNext(other: array<nat>, counts: array2<nat>, ghost s: seq<nat>, digit: nat, x: nat)
    requires Table(counts) && digit < 4 && Counted(counts, s, digit + 1)
    requires Row(counts, digit)[Digit(x, digit)] < |s| <= other.Length
    modifies other, counts
    ensures Counted(counts, s, digit + 1) && other[|s|..] == old(other[|s|..])
    ensures var d := Digit(x, digit);
      && other[..] == old(other[..])[old(Row(counts, digit))[d] := x]
      && Row(counts, digit) == old(Row(counts, digit))[d := old(Row(counts, digit))[d] + 1]
  {
    var d := Digit(x, digit);
    hide Digit, Row, Bucket;
    other[counts[digit, d]] := x;
    counts[digit, d] := counts[digit, d] + 1;
    assert Row(counts, digit) == old(Row(counts, digit))[d := old(Row(counts, digit))[d] + 1];
  }

  /** Places element `i`. */
  method PlaceNext(x: nat, other: array<nat>, counts: array2<nat>, ghost s: seq<nat>, digit: nat, ghost i: nat)
    requires Table(counts) && digit < 4 && i < |s| <= other.Length && x == s[i]
    requires Counted(counts, s, digit + 1) && AllPlaced(other[..], Row(counts, digit), s, digit, i)
    modifies other, counts
    ensures Counted(counts, s, digit + 1) && AllPlaced(other[..], Row(counts, digit), s, digit, i + 1)
    ensures other[|s|..] == old(other[|s|..])
  {
    hide Placed, AllPlaced, Buckets, Bucket, Digit, Row, Offset, Table, Counted;
    PlaceOne(other[..], Row(counts, digit), s, digit, i);
    PutNext(other, counts, s, digit, x);
  }

  /** One pass: a stable distribution of `cur` into `other` by one digit. */
  method Pass(cur: array<nat>, other: array<nat>, width: nat, counts: array2<nat>, digit: nat)
    requires digit < 4 && cur != other && width <= cur.Length && width <= other.Length
    requires Table(counts) && Counted(counts, cur[..width], digit)
    modifies other, counts
    ensures other[..width] == Buckets(cur[..width], digit, 0x100)
    ensures other[width..] == old(other[width..])
    ensures Counted(counts, cur[..width], digit + 1)
  {
    ghost var s := cur[..width];
    Offsets(counts, s, digit);
    hide Placed, AllPlaced, Buckets, Bucket, Digit, Row, Offset, Table, Counted;
    StartPlaced(other[..], Row(counts, digit), s, digit);
    for i := 0 to width
      invariant cur[..width] == s && Counted(counts, s, digit + 1)
      invariant AllPlaced(other[..], Row(counts, digit), s, digit, i)
      invariant other[|s|..] == old(other[|s|..])
    {
      PlaceNext(cur[i], other, counts, s, digit, i);
    }
    AllCollected(other[..], Row(counts, digit), s, digit);
  }

  lemma AllCollected(o: seq<nat>, row: seq<nat>, s: seq<nat>, digit: nat)
    requires digit < 4 && |s| <= |o| && |row| == 0x100 && AllPlaced(o, row, s, digit, |s|)
    ensures o[..|s|] == Buckets(s, digit, 0x100)
  {
    Collect(o, row, s, digit, 0x100);
    OffsetsBound(s, digit);
  }

  /** A pass on elements in order by the digits before. */
  method SortPass(cur: array<nat>, other: array<nat>, width: nat, counts: array2<nat>, digit: nat)
    requires digit < 4 && cur != other && width <= cur.Length && width <= other.Length
    requires Table(counts) && Counted(counts, cur[..width], digit) && SortedBelow(cur[..width], digit)
    modifies other, counts
    ensures multiset(other[..width]) == multiset(cur[..width]) && SortedBelow(other[..width], digit + 1)
    ensures other[width..] == old(other[width..]) && Counted(counts, other[..width], digit + 1)
  {
    hide Bucket, Buckets, Digit;
    ghost var t := cur[..width];
    Pass(cur, other, width, counts, digit);
    BucketsPermute(t, digit);
    BucketsOrder(t, digit, 0x100);
    CountedToo(counts, t, other[..width], digit + 1);
  }

  lemma SortedByNone(s: seq<nat>)
    ensures SortedBelow(s, 0)
  {
  }

  /** Sorts the first `width` elements in place. */
  method LsdRadixSort(a: array<nat>, width: nat)
    requires width <= a.Length && forall i | 0 <= i < width :: a[i] < kLimit
    modifies a
    ensures forall i, j | 0 <= i < j < width :: a[i] <= a[j]
    ensures multiset(a[..width]) == old(multiset(a[..width]))
    ensures a[width..] == old(a[width..])
  {
    hide Counted, SortedBelow;
    var scratch := new nat[width](_ => 0);
    var counts := Histograms(a, width);
    var cur, other := a, scratch;
    ghost var s := a[..width];
    SortedByNone(s);
    for digit := 0 to 4
      invariant if digit % 2 == 0 then cur == a && other == scratch else cur == scratch && other == a
      invariant multiset(cur[..width]) == multiset(s) && SortedBelow(cur[..width], digit)
      invariant Counted(counts, cur[..width], digit)
      invariant a[width..] == old(a[width..])
    {
      SortPass(cur, other, width, counts, digit);
      cur, other := other, cur;
    }
    Sorted(a[..width], s);
  }

  lemma CountedToo(counts: array2<nat>, s: seq<nat>, t: seq<nat>, digit: nat)
    requires Table(counts) && Counted(counts, s, digit) && multiset(s) == multiset(t)
    ensures Counted(counts, t, digit)
  {
    forall d, b | digit <= d < 4 && 0 <= d && 0 <= b < 0x100
      ensures |Bucket(s, d, b)| == |Bucket(t, d, b)|
    {
      BucketSizes(s, t, d, b);
    }
  }

  /** Numbers below the limit that are in order by all four digits are in order. */
  lemma Sorted(r: seq<nat>, s: seq<nat>)
    requires multiset(r) == multiset(s) && SortedBelow(r, 4) && forall i | 0 <= i < |s| :: s[i] < kLimit
    ensures forall i, j | 0 <= i < j < |r| :: r[i] <= r[j]
  {
    forall i | 0 <= i < |r| ensures r[i] < kLimit {
      assert r[i] in multiset(r);
      assert r[i] in s;
    }
    assert Unit(4) == kLimit;
  }
}
