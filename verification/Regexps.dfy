/**
 * Simplified regular expressions, as RE2 hands them to the planner, and the byte
 * strings they match. Assertions of zero width are taken to match the empty
 * string anywhere, which only adds matches.
 */
module Regexps {
  import opened Bytes
  import opened Runes

  datatype RuneRange = RuneRange(lo: Rune, hi: Rune)

  datatype Regexp =
    | NoMatch
    | ZeroWidth
    | AnyChar
    | AnyByte
    | Literal(rune: Rune)
    | FoldLiteral(rune: Rune, variants: set<Rune>)
    | LiteralString(runes: seq<Rune>)
    | FoldString(folds: seq<Regexp>)
    | CharClass(ranges: seq<RuneRange>)
    | Concat(subs: seq<Regexp>)
    | Alternate(subs: seq<Regexp>)
    | Star(sub: Regexp)
    | Plus(sub: Regexp)
    | Quest(sub: Regexp)
    | Repeat(sub: Regexp, min: nat, max: int)
    | Capture(sub: Regexp)

  function EncodeAll(runes: seq<Rune>): Text {
    if runes == [] then [] else Encode(runes[0]) + EncodeAll(runes[1..])
  }

  ghost predicate InRanges(ranges: seq<RuneRange>, r: Rune) {
    exists i | 0 <= i < |ranges| :: ranges[i].lo <= r <= ranges[i].hi
  }

  ghost predicate Matches(re: Regexp, w: Text)
    decreases re, 0, 0
  {
    match re
    case NoMatch => false
    case ZeroWidth => w == []
    case AnyChar => exists r: Rune :: r != NEWLINE && w == Encode(r)
    case AnyByte => |w| == 1 && w[0] != NEWLINE
    case Literal(rune) => w == Encode(rune)
    case FoldLiteral(_, variants) => exists r | r in variants :: w == Encode(r)
    case LiteralString(runes) => w == EncodeAll(runes)
    case FoldString(folds) => MatchesInOrder(folds, w)
    case CharClass(ranges) => exists r: Rune | InRanges(ranges, r) :: w == Encode(r)
    case Concat(subs) => MatchesInOrder(subs, w)
    case Alternate(subs) => exists i | 0 <= i < |subs| :: Matches(subs[i], w)
    case Star(sub) => exists n: nat :: MatchesTimes(sub, w, n)
    case Plus(sub) => exists n: nat | n >= 1 :: MatchesTimes(sub, w, n)
    case Quest(sub) => w == [] || Matches(sub, w)
    case Repeat(sub, min, max) => exists n: nat | min <= n && (max < 0 || n <= max) :: MatchesTimes(sub, w, n)
    case Capture(sub) => Matches(sub, w)
  }

  ghost predicate MatchesInOrder(subs: seq<Regexp>, w: Text)
    decreases subs, 0, 0
  {
    if subs == [] then w == []
    else exists k | 0 <= k <= |w| :: Matches(subs[0], w[..k]) && MatchesInOrder(subs[1..], w[k..])
  }

  ghost predicate MatchesTimes(re: Regexp, w: Text, n: nat)
    decreases re, 1, n
  {
    if n == 0 then w == []
    else exists k | 0 <= k <= |w| :: Matches(re, w[..k]) && MatchesTimes(re, w[k..], n - 1)
  }

  type Language = iset<Text>

  ghost function Lang(re: Regexp): Language {
    iset w | Matches(re, w)
  }

  ghost function Cat(a: Language, b: Language): Language {
    iset u, v | u in a && v in b :: u + v
  }

  ghost function CatAll(langs: seq<Language>): Language {
    if langs == [] then iset{[]} else Cat(langs[0], CatAll(langs[1..]))
  }

  /** A concatenation of languages may be cut anywhere in the list. */
  lemma {:induction false} CatAllCut(xs: seq<Language>, ys: seq<Language>)
    ensures CatAll(xs + ys) <= Cat(CatAll(xs), CatAll(ys))
  {
    if xs == [] {
      assert xs + ys == ys;
      forall w | w in CatAll(ys) ensures w in Cat(CatAll(xs), CatAll(ys)) {
        assert w == [] + w;
      }
    } else {
      assert (xs + ys)[0] == xs[0] && (xs + ys)[1..] == xs[1..] + ys;
      CatAllCut(xs[1..], ys);
      forall w | w in CatAll(xs + ys) ensures w in Cat(CatAll(xs), CatAll(ys)) {
        var u, v :| u in xs[0] && v in CatAll(xs[1..] + ys) && w == u + v;
        var x, y :| x in CatAll(xs[1..]) && y in CatAll(ys) && v == x + y;
        assert w == (u + x) + y;
        assert u + x in CatAll(xs);
      }
    }
  }

  lemma CatAllOne(l: Language)
    ensures CatAll([l]) <= l
  {
    forall w | w in CatAll([l]) ensures w in l {
      var u, v :| u in l && v in CatAll([l][1..]) && w == u + v;
      assert w == u;
    }
  }

  lemma {:induction false} MatchesInOrderCatAll(subs: seq<Regexp>, langs: seq<Language>, w: Text)
    requires |langs| == |subs| && forall i | 0 <= i < |subs| :: langs[i] == Lang(subs[i])
    requires MatchesInOrder(subs, w)
    ensures w in CatAll(langs)
  {
    hide Matches;
    if subs != [] {
      var k :| 0 <= k <= |w| && Matches(subs[0], w[..k]) && MatchesInOrder(subs[1..], w[k..]);
      MatchesInOrderCatAll(subs[1..], langs[1..], w[k..]);
      assert w[..k] in langs[0];
      assert w == w[..k] + w[k..];
    }
  }

  /** How many runes a class has. */
  function RangesSize(ranges: seq<RuneRange>): int {
    if ranges == [] then 0 else ranges[0].hi - ranges[0].lo + 1 + RangesSize(ranges[1..])
  }

  /** The expressions a planner may be asked about, and the ones its ranges are right for. */
  predicate InScope(re: Regexp)
    decreases re
  {
    match re
    case Literal(rune) => rune != NEWLINE
    case FoldLiteral(rune, variants) => rune != NEWLINE && (rune <= 127 ==> variants == AsciiFold(rune))
    case LiteralString(runes) => runes != [] && NEWLINE !in runes
    case FoldString(folds) => forall i | 0 <= i < |folds| :: folds[i].FoldLiteral? && InScope(folds[i])
    case CharClass(ranges) => RangesSize(ranges) > kMaxWidth || RangesInScope(ranges)
    case Concat(subs) => forall i | 0 <= i < |subs| :: InScope(subs[i])
    case Alternate(subs) => subs != [] && forall i | 0 <= i < |subs| :: InScope(subs[i])
    case Plus(sub) => InScope(sub)
    case Repeat(sub, min, _) => min == 0 || InScope(sub)
    case Capture(sub) => InScope(sub)
    case _ => true
  }

  /** A plan for this expression may be the one of the empty string. */
  predicate MayBeEmpty(re: Regexp)
    decreases re
  {
    match re
    case NoMatch => true
    case ZeroWidth => true
    case FoldString(folds) => folds == []
    case CharClass(ranges) => ranges == []
    case Alternate(subs) => |subs| == 1 && MayBeEmpty(subs[0])
    case Plus(sub) => MayBeEmpty(sub)
    case Repeat(sub, min, _) => min > 0 && MayBeEmpty(sub)
    case Capture(sub) => MayBeEmpty(sub)
    case _ => false
  }

  /** A plan for this expression may be anchored on both sides. */
  predicate MayBeWhole(re: Regexp)
    decreases re
  {
    match re
    case NoMatch => true
    case ZeroWidth => true
    case Literal(_) => true
    case FoldLiteral(rune, _) => rune <= 127
    case LiteralString(_) => true
    case FoldString(folds) => forall i | 0 <= i < |folds| :: MayBeWhole(folds[i])
    case CharClass(ranges) => RangesSize(ranges) <= kMaxWidth
    case Concat(subs) => subs != [] && forall i | 0 <= i < |subs| :: MayBeWhole(subs[i])
    case Alternate(subs) => forall i | 0 <= i < |subs| :: MayBeWhole(subs[i])
    case Plus(sub) => MayBeWhole(sub)
    case Repeat(sub, min, _) => min > 0 && MayBeWhole(sub)
    case Capture(sub) => MayBeWhole(sub)
    case _ => false
  }

  /** A plan for this expression may be anchored on both sides and marked as a repetition. */
  predicate MayRepeat(re: Regexp)
    decreases re
  {
    match re
    case Plus(sub) => MayBeWhole(sub)
    case Repeat(sub, min, _) => min > 0 && MayBeWhole(sub)
    case Concat(subs) => subs != [] && MayRepeat(subs[0]) && forall i | 1 <= i < |subs| :: MayBeEmpty(subs[i])
    case Alternate(subs) => |subs| == 1 && MayRepeat(subs[0])
    case Capture(sub) => MayRepeat(sub)
    case _ => false
  }

  /** Some alternative repeats, and all alternatives may be anchored on both sides. */
  predicate ForgetsRepetition(subs: seq<Regexp>) {
    && |subs| > 1
    && (forall i | 0 <= i < |subs| :: MayBeWhole(subs[i]))
    && (exists i | 0 <= i < |subs| :: MayRepeat(subs[i]))
  }

  /** No part of the plan is an alternation that forgets a repetition. */
  predicate ForgetsNoRepetition(re: Regexp)
    decreases re
  {
    match re
    case Concat(subs) => forall i | 0 <= i < |subs| :: ForgetsNoRepetition(subs[i])
    case Alternate(subs) => !ForgetsRepetition(subs) && forall i | 0 <= i < |subs| :: ForgetsNoRepetition(subs[i])
    case Plus(sub) => ForgetsNoRepetition(sub)
    case Repeat(sub, min, _) => min == 0 || ForgetsNoRepetition(sub)
    case Capture(sub) => ForgetsNoRepetition(sub)
    case _ => true
  }

  /** The plan of the empty string is anchored on both sides. */
  lemma {:induction false} EmptyIsWhole(re: Regexp)
    requires MayBeEmpty(re)
    ensures MayBeWhole(re)
  {
    match re
    case Alternate(subs) => EmptyIsWhole(subs[0]);
    case Plus(sub) => EmptyIsWhole(sub);
    case Repeat(sub, _, _) => EmptyIsWhole(sub);
    case Capture(sub) => EmptyIsWhole(sub);
    case _ =>
  }

  /** Case folding below 128, for the lower-cased runes the parser leaves. */
  function AsciiFold(rune: Rune): set<Rune> {
    if 'a' as int <= rune <= 'z' as int then {rune, rune - 'a' as int + 'A' as int} else {rune}
  }

  /**
   * In order, disjoint, and without a newline; and if there is an ASCII range,
   * each of the others has ends that differ in the last byte only. A class
   * without an ASCII range gets the plan that knows nothing.
   */
  predicate RangesInScope(ranges: seq<RuneRange>) {
    && (forall i | 0 <= i < |ranges| :: ranges[i].lo <= ranges[i].hi && !(ranges[i].lo <= NEWLINE <= ranges[i].hi))
    && (forall i, j | 0 <= i < j < |ranges| :: ranges[i].hi < ranges[j].lo)
    && (ranges != [] && ranges[0].hi < 0x80 ==>
      forall i | 0 <= i < |ranges| :: ranges[i].hi < 0x80 || SameButLast(Encode(ranges[i].lo), Encode(ranges[i].hi)))
  }
}
