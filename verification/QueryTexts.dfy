/** Queries as text: what operators and their values look like, and that parsing reads them back. */
module QueryTexts {
  import opened Wrappers
  import opened Queries

  // ----- Values -----

  /** A part of a value: a character, an escape, or a balanced group. */
  datatype Atom = Chr(c: char) | Esc(e: char) | Group(open: char, items: seq<Inside>)

  /** A part of the inside of a group, which may hold groups of its own kind. */
  datatype Inside = In(c: char) | InEsc(e: char) | Nest(items: seq<Inside>)

  function CloseOf(open: char): char {
    if open == '(' then ')' else ']'
  }

  function InsideText(open: char, x: Inside): string
    decreases x, 0
  {
    match x
    case In(c) => [c]
    case InEsc(c) => ['\\', c]
    case Nest(items) => [open] + ItemsText(open, items) + [CloseOf(open)]
  }

  function ItemsText(open: char, items: seq<Inside>): string
    decreases items, 1
  {
    if items == [] then "" else InsideText(open, items[0]) + ItemsText(open, items[1..])
  }

  function AtomText(a: Atom): string {
    match a
    case Chr(c) => [c]
    case Esc(c) => ['\\', c]
    case Group(open, items) => [open] + ItemsText(open, items) + [CloseOf(open)]
  }

  function ValueText(atoms: seq<Atom>): string {
    if atoms == [] then "" else AtomText(atoms[0]) + ValueText(atoms[1..])
  }

  /** Within a group only its own brackets count, and an escape takes anything with it. */
  predicate GoodInside(open: char, x: Inside)
    decreases x
  {
    match x
    case In(c) => c !in {'\\', open, CloseOf(open)}
    case InEsc(_) => true
    case Nest(items) => forall i | 0 <= i < |items| :: GoodInside(open, items[i])
  }

  /** Groups, with spaces and colons in them, are for regular expressions; elsewhere a bracket is a character. */
  predicate GoodAtom(a: Atom, regex: bool) {
    match a
    case Chr(c) => c !in {' ', '\\'} && (regex ==> c !in {'(', '['})
    case Esc(c) => c != '\n'
    case Group(open, items) => regex && open in {'(', '['} && forall i | 0 <= i < |items| :: GoodInside(open, items[i])
  }

  predicate GoodAtoms(atoms: seq<Atom>, regex: bool) {
    forall i | 0 <= i < |atoms| :: GoodAtom(atoms[i], regex)
  }

  /** A text that is read as one value: it ends only at a space outside groups and escapes. */
  ghost predicate GoodValue(v: string, regex: bool) {
    exists atoms :: GoodAtoms(atoms, regex) && v == ValueText(atoms)
  }

  /** The main term may hold spaces, after which a bracket starts a group in a literal too, but colons only within groups. */
  predicate GoodMainAtom(a: Atom, regex: bool) {
    a == Chr(' ') || (GoodAtom(a, regex) && a != Chr(':'))
  }

  predicate GoodMainAtoms(atoms: seq<Atom>, regex: bool, space: bool) {
    forall i | 0 <= i < |atoms| :: GoodMainAtom(atoms[i], regex || AfterSpace(atoms, i, space))
  }

  predicate AfterSpace(atoms: seq<Atom>, i: nat, space: bool)
    requires i < |atoms|
  {
    if i == 0 then space else atoms[i - 1] == Chr(' ')
  }

  ghost predicate GoodMain(m: string, regex: bool) {
    Trim(m) != "" && exists atoms :: GoodMainAtoms(atoms, regex, true) && m == ValueText(atoms)
  }

  // ----- Reading a balanced group -----

  /** `t` stands at `i`. */
  predicate StandsAt(q: string, i: nat, t: string) {
    i + |t| <= |q| && q[i..i + |t|] == t
  }

  lemma StandsParts(q: string, i: nat, a: string, b: string)
    requires StandsAt(q, i, a + b)
    ensures StandsAt(q, i, a) && StandsAt(q, i + |a|, b)
  {
    var t := q[i..i + |a + b|];
    assert t[..|a|] == a && t[|a|..] == b;
  }

  lemma StandsChar(q: string, i: nat, c: char)
    requires StandsAt(q, i, [c])
    ensures i < |q| && q[i] == c
  {
    assert q[i..i + 1][0] == c;
  }

  lemma BalanceChar(q: string, i: nat, p: int, open: char, c: char)
    requires p > 0 && StandsAt(q, i, [c]) && c !in {'\\', open, CloseOf(open)}
    ensures Balance(q, i, p, false, open, CloseOf(open)) == Balance(q, i + 1, p, false, open, CloseOf(open))
  {
    StandsChar(q, i, c);
  }

  lemma BalanceEscape(q: string, i: nat, p: int, open: char, c: char)
    requires p > 0 && StandsAt(q, i, ['\\', c])
    ensures Balance(q, i, p, false, open, CloseOf(open)) == Balance(q, i + 2, p, false, open, CloseOf(open))
  {
    assert ['\\', c] == ['\\'] + [c];
    StandsParts(q, i, ['\\'], [c]);
    StandsChar(q, i, '\\');
    StandsChar(q, i + 1, c);
    hide StandsAt;
    assert Balance(q, i, p, false, open, CloseOf(open)) == Balance(q, i + 1, p, true, open, CloseOf(open));
  }

  lemma BalanceOpens(q: string, i: nat, p: int, open: char)
    requires open in {'(', '['} && p > 0 && StandsAt(q, i, [open])
    ensures Balance(q, i, p, false, open, CloseOf(open)) == Balance(q, i + 1, p + 1, false, open, CloseOf(open))
  {
    StandsChar(q, i, open);
  }

  lemma BalanceCloses(q: string, i: nat, p: int, open: char)
    requires open in {'(', '['} && p > 1 && StandsAt(q, i, [CloseOf(open)])
    ensures Balance(q, i, p, false, open, CloseOf(open)) == Balance(q, i + 1, p - 1, false, open, CloseOf(open))
  {
    StandsChar(q, i, CloseOf(open));
  }

  /** A part of the inside leaves the depth as it is. */
  lemma {:induction false} BalanceInside(q: string, i: nat, p: int, open: char, x: Inside)
    requires open in {'(', '['} && p > 0 && StandsAt(q, i, InsideText(open, x)) && GoodInside(open, x)
    ensures Balance(q, i, p, false, open, CloseOf(open)) ==
      Balance(q, i + |InsideText(open, x)|, p, false, open, CloseOf(open))
    decreases x, 0
  {
    hide Balance, CloseOf, StandsAt;
    match x
    case In(c) =>
      BalanceChar(q, i, p, open, c);
    case InEsc(c) =>
      BalanceEscape(q, i, p, open, c);
    case Nest(items) =>
      var t, close := ItemsText(open, items), CloseOf(open);
      StandsParts(q, i, [open] + t, [close]);
      StandsParts(q, i, [open], t);
      BalanceOpens(q, i, p, open);
      BalanceItems(q, i + 1, p + 1, open, items);
      BalanceCloses(q, i + 1 + |t|, p + 1, open);
  }

  lemma {:induction false} BalanceItems(q: string, i: nat, p: int, open: char, items: seq<Inside>)
    requires open in {'(', '['} && p > 0 && StandsAt(q, i, ItemsText(open, items))
    requires forall k | 0 <= k < |items| :: GoodInside(open, items[k])
    ensures Balance(q, i, p, false, open, CloseOf(open)) ==
      Balance(q, i + |ItemsText(open, items)|, p, false, open, CloseOf(open))
    decreases items, 1
  {
    hide Balance, StandsAt, CloseOf, InsideText, GoodInside;
    if items != [] {
      StandsParts(q, i, InsideText(open, items[0]), ItemsText(open, items[1..]));
      BalanceInside(q, i, p, open, items[0]);
      BalanceItems(q, i + |InsideText(open, items[0])|, p, open, items[1..]);
    }
  }

  /** A group ends with its bracket. */
  lemma GroupBalances(open: char, items: seq<Inside>, more: string)
    requires open in {'(', '['} && forall k | 0 <= k < |items| :: GoodInside(open, items[k])
    ensures var t := ItemsText(open, items); var q := t + [CloseOf(open)] + more;
      Balance(q, 0, 1, false, open, CloseOf(open)) == |t| + 1 && q[..|t| + 1] == t + [CloseOf(open)] && q[|t| + 1..] == more
  {
    var t := ItemsText(open, items);
    var q := t + [CloseOf(open)] + more;
    assert q[0..0 + |t|] == t && q[|t|] == CloseOf(open);
    BalanceItems(q, 0, 1, open, items);
  }

  // ----- Terms -----

  datatype Term = Term(key: string, value: string)

  function PrintTerm(t: Term): string {
    t.key + ":" + t.value
  }

  function PrintTerms(ts: seq<Term>): string {
    if ts == [] then "" else if |ts| == 1 then PrintTerm(ts[0]) else PrintTerm(ts[0]) + " " + PrintTerms(ts[1..])
  }

  /** An operator the query language has. */
  predicate IsOperator(k: string) {
    || k == "file" || k == "path" || k == "repo" || k == "tags" || k == "case" || k == "lit" || k == "max_matches"
    || k == "-file" || k == "-path" || k == "-repo" || k == "-tags"
  }

  lemma OperatorsAreKnown(k: string)
    ensures KnownTag(k) <==> IsOperator(k)
  {
  }

  /** Only `lit` is never a regular expression. */
  ghost predicate GoodTerm(t: Term, globalRegex: bool) {
    IsOperator(t.key) && GoodValue(t.value, globalRegex && t.key != "lit")
  }

  ghost predicate GoodTerms(ts: seq<Term>, globalRegex: bool) {
    && (forall i | 0 <= i < |ts| :: GoodTerm(ts[i], globalRegex))
    && (forall i, j | 0 <= i < j < |ts| :: ts[i].key != ts[j].key)
  }

  function OpsOf(ts: seq<Term>, ops: Ops): Ops {
    if ts == [] then ops else OpsOf(ts[1..], ops[ts[0].key := ts[0].value])
  }

  // ----- What the parser does with a value -----

  predicate KeyChars(k: string) {
    k != "" && forall i | 0 <= i < |k| :: KeyChar(k[i])
  }

  lemma TagsAreKeys(k: string)
    requires KnownTag(k)
    ensures KeyChars(k)
  {
  }

  lemma {:induction false} KeyLengthOf(k: string, x: string)
    requires forall i | 0 <= i < |k| :: KeyChar(k[i])
    requires x != "" && !KeyChar(x[0])
    ensures KeyLength(k + x) == |k|
  {
    if k != "" {
      assert (k + x)[1..] == k[1..] + x;
      KeyLengthOf(k[1..], x);
    } else {
      assert k + x == x;
    }
  }

  /** What is left to read after a value or the main term: nothing, or a space and more. */
  predicate Follows(rest: string) {
    rest == "" || rest[0] == ' '
  }

  /** Reading a value to its end. */
  function AfterValue(s: State, v: string, rest: string, globalRegex: bool): Result<Ops>
    requires Follows(rest)
  {
    match Store(s.ops, s.key, s.term + v)
    case Err(e) => Err(e)
    case Ok(ops) => if rest == "" then Ok(ops) else Run(State("", "", rest[1..], globalRegex, true, ops), globalRegex)
  }

  predicate Special(c: char) {
    c in {'[', '(', ' ', '\\'}
  }

  predicate IsPlain(a: Atom) {
    a.Chr? && !Special(a.c)
  }

  /** How many plain characters come first. */
  function PlainPrefix(atoms: seq<Atom>): (r: nat)
    ensures r <= |atoms| && (r < |atoms| ==> !IsPlain(atoms[r])) && forall k | 0 <= k < r :: IsPlain(atoms[k])
  {
    if atoms != [] && IsPlain(atoms[0]) then 1 + PlainPrefix(atoms[1..]) else 0
  }

  predicate PlainText(t: string) {
    forall k | 0 <= k < |t| :: !Special(t[k])
  }

  /** The first atoms, plain characters, as text. */
  lemma {:induction false} PlainAtoms(atoms: seq<Atom>, j: nat)
    requires j <= |atoms| && forall k | 0 <= k < j :: IsPlain(atoms[k])
    ensures var v := ValueText(atoms); j <= |v| && v == v[..j] + ValueText(atoms[j..]) && PlainText(v[..j])
    decreases j
  {
    if j > 0 {
      PlainAtoms(atoms[1..], j - 1);
      var v, v' := ValueText(atoms), ValueText(atoms[1..]);
      assert v == [atoms[0].c] + v' && atoms[1..][j - 1..] == atoms[j..];
      PlainNext(atoms[0].c, v, v', j, ValueText(atoms[j..]));
    } else {
      assert atoms[0..] == atoms;
    }
  }

  lemma PlainNext(c: char, v: string, v': string, j: nat, more: string)
    requires !Special(c) && 0 < j <= |v'| + 1 && v == [c] + v' && v' == v'[..j - 1] + more && PlainText(v'[..j - 1])
    ensures v == v[..j] + more && PlainText(v[..j])
  {
    assert v[..j] == [c] + v'[..j - 1];
    forall k | 0 <= k < j ensures !Special(v[..j][k]) {
      if k > 0 {
        assert v[..j][k] == v'[..j - 1][k - 1];
      }
    }
  }

  /** Without a special character in `a`, the first one is what comes after it. */
  lemma {:induction false} SpecialAfter(q: string, i: nat, n: nat)
    requires i <= n <= |q| && (n < |q| ==> SpecialAt(q, n)) && PlainText(q[i..n])
    ensures FirstSpecial(q, i) == n
    decreases n - i
  {
    if i < n {
      assert q[i..n][0] == q[i];
      assert q[i + 1..n] == q[i..n][1..];
      SpecialAfter(q, i + 1, n);
    }
  }

  /** The value is read up to here. */
  function Past(s: State, read: string, left: string): State {
    State(s.key, s.term + read, left, s.inRegex, false, s.ops)
  }

  lemma RunStep(s: State, piece: Piece, s': State, globalRegex: bool)
    requires NextPiece(s.q) == Some(piece) && Step(s, piece, globalRegex) == Ok(s')
    ensures Run(s, globalRegex) == Run(s', globalRegex)
  {
    hide NextPiece, Step;
  }

  /** The next piece is this text, after `a`. */
  predicate PieceAfter(q: string, a: string, m: string, b: string) {
    && q == a + m + b && m != "" && NextPiece(q) == Some(Piece(|a|, |a| + |m|))
    && q[..|a|] == a && q[|a|..|a| + |m|] == m && q[|a| + |m|..] == b
  }

  lemma SpecialPiece(q: string, a: string, m: string, b: string)
    requires q == a + m + b && !StartsWithKey(q) && PlainText(a) && |m| == (if m != "" && m[0] == '\\' then 2 else 1)
    requires Special(m[0]) && (m[0] == '\\' ==> m[1] != '\n')
    ensures PieceAfter(q, a, m, b)
  {
    hide StartsWithKey, FirstSpecial;
    assert q[..|a|] == a && q[|a|..|a| + |m|] == m && q[|a| + |m|..] == b;
    assert q[|a|] == m[0] && (|m| == 2 ==> q[|a| + 1] == m[1]);
    assert q[0..|a|] == a;
    SpecialAfter(q, 0, |a|);
  }

  lemma EscapeStep(s: State, a: string, c: char, b: string, globalRegex: bool)
    requires s.q == a + ['\\', c] + b && !StartsWithKey(s.q) && PlainText(a) && c != '\n'
    ensures Run(s, globalRegex) == Run(Past(s, a + ['\\', c], b), globalRegex)
  {
    hide Run, StartsWithKey, NextPiece, PlainText, StepSpace, StepGroup, StepKey;
    SpecialPiece(s.q, a, ['\\', c], b);
    assert s.term + a + ['\\', c] == s.term + (a + ['\\', c]);
    RunStep(s, Piece(|a|, |a| + 2), Past(s, a + ['\\', c], b), globalRegex);
  }

  /** In a literal a bracket is a character. */
  lemma BracketStep(s: State, a: string, c: char, b: string, globalRegex: bool)
    requires s.q == a + [c] + b && !StartsWithKey(s.q) && PlainText(a) && c in {'(', '['}
    requires !s.inRegex && (s.justGotSpace ==> a != "")
    ensures Run(s, globalRegex) == Run(Past(s, a + [c], b), globalRegex)
  {
    hide Run, StartsWithKey, NextPiece, PlainText, StepSpace, StepKey;
    SpecialPiece(s.q, a, [c], b);
    assert s.term + a + [c] == s.term + (a + [c]);
    RunStep(s, Piece(|a|, |a| + 1), Past(s, a + [c], b), globalRegex);
  }

  /** In a regular expression it starts a group. */
  lemma GroupStep(s: State, a: string, g: Atom, b: string, globalRegex: bool)
    requires g.Group? && GoodAtom(g, true) && (s.inRegex || (s.justGotSpace && a == ""))
    requires s.q == a + AtomText(g) + b && !StartsWithKey(s.q) && PlainText(a)
    ensures Run(s, globalRegex) == Run(Past(s, a + AtomText(g), b), globalRegex)
  {
    hide Run, StartsWithKey, NextPiece, PlainText, StepSpace, StepKey, Balance, GoodInside, ItemsText;
    var t, close := ItemsText(g.open, g.items), CloseOf(g.open);
    GroupRegroup(a, g.open, t, close, b);
    SpecialPiece(s.q, a, [g.open], t + [close] + b);
    GroupBalances(g.open, g.items, b);
    assert s.term + a + [g.open] + (t + [close]) == s.term + (a + AtomText(g));
    RunStep(s, Piece(|a|, |a| + 1), Past(s, a + AtomText(g), b), globalRegex);
  }

  lemma GroupRegroup(a: string, open: char, t: string, close: char, b: string)
    ensures a + ([open] + t + [close]) + b == a + [open] + (t + [close] + b)
  {
  }

  // ----- Reading a value -----

  /** A key at the start of a text ends, with its colon, within the text. */
  lemma KeyWithin(v: string, rest: string)
    requires StartsWithKey(v + rest) && Follows(rest)
    ensures KeyLength(v + rest) < |v| && v[KeyLength(v + rest)] == ':'
    ensures var n := KeyLength(v + rest); forall k | 0 <= k <= n :: !Special(v[k])
  {
    var q := v + rest;
    var n := KeyLength(q);
    assert rest != "" ==> q[|v|] == rest[0];
    if n >= |v| {
      assert false;
    }
    forall k | 0 <= k <= n ensures !Special(v[k]) {
      assert v[k] == q[k];
    }
  }

  lemma AtomAt(atoms: seq<Atom>, m: nat)
    requires m < |atoms|
    ensures ValueText(atoms[m..]) == AtomText(atoms[m]) + ValueText(atoms[m + 1..])
  {
    assert atoms[m..][1..] == atoms[m + 1..];
  }

  predicate Readable(a: Atom) {
    a == Chr(' ') || GoodAtom(a, true) || GoodAtom(a, false)
  }

  predicate AllReadable(atoms: seq<Atom>) {
    forall i | 0 <= i < |atoms| :: Readable(atoms[i])
  }

  lemma GoodReadable(atoms: seq<Atom>, regex: bool)
    requires GoodAtoms(atoms, regex)
    ensures AllReadable(atoms)
  {
    hide GoodAtom;
    forall i | 0 <= i < |atoms| ensures Readable(atoms[i]) {
      assert GoodAtom(atoms[i], regex);
    }
  }

  lemma MainReadable(atoms: seq<Atom>, regex: bool, space: bool)
    requires GoodMainAtoms(atoms, regex, space)
    ensures AllReadable(atoms)
  {
    hide GoodAtom, AfterSpace;
    forall i | 0 <= i < |atoms| ensures Readable(atoms[i]) {
      assert GoodMainAtom(atoms[i], regex || AfterSpace(atoms, i, space));
    }
  }

  lemma AtomStarts(a: Atom)
    requires Readable(a)
    ensures AtomText(a) != "" && (IsPlain(a) || Special(AtomText(a)[0]))
  {
  }

  lemma Parts(v: string, p: string, a: string, b: string)
    requires v == p + (a + b) && a != ""
    ensures v == p + a + b && |p| < |v| && v[|p|] == a[0]
  {
  }

  /** The plain start of a value, and what stands after it. */
  lemma PlainStart(atoms: seq<Atom>)
    requires AllReadable(atoms)
    ensures var v, m := ValueText(atoms), PlainPrefix(atoms);
      && m <= |v| && PlainText(v[..m]) && (m == |atoms| ==> v == v[..m])
      && (m < |atoms| ==> m < |v| && Special(v[m]) && v == v[..m] + AtomText(atoms[m]) + ValueText(atoms[m + 1..]))
  {
    hide ValueText, AtomText, Readable, IsPlain, PlainText, Special;
    var v, m := ValueText(atoms), PlainPrefix(atoms);
    PlainAtoms(atoms, m);
    if m < |atoms| {
      AtomAt(atoms, m);
      AtomStarts(atoms[m]);
      var a, b := AtomText(atoms[m]), ValueText(atoms[m + 1..]);
      Parts(v, v[..m], a, b);
    } else {
      assert atoms[m..] == [];
      NoText();
    }
  }

  lemma NoText()
    ensures ValueText([]) == ""
  {
  }

  /** A key and its colon lie in the plain start. */
  lemma KeyInPlain(atoms: seq<Atom>, regex: bool, rest: string)
    requires GoodAtoms(atoms, regex) && Follows(rest) && StartsWithKey(ValueText(atoms) + rest)
    ensures var v := ValueText(atoms); var n := KeyLength(v + rest);
      && n + 1 <= PlainPrefix(atoms) && n < |v| && v[n] == ':'
      && v == v[..n] + ":" + ValueText(atoms[n + 1..])
  {
    hide ValueText, StartsWithKey, KeyLength, GoodAtoms, AllReadable;
    var v, m := ValueText(atoms), PlainPrefix(atoms);
    var n := KeyLength(v + rest);
    KeyWithin(v, rest);
    GoodReadable(atoms, regex);
    PlainStart(atoms);
    PlainAtoms(atoms, n + 1);
    assert v[..n + 1] == v[..n] + ":";
  }

  lemma KeyStep(s: State, a: string, b: string, globalRegex: bool)
    requires s.key != "" && (s.key == "lit" ==> !s.inRegex)
    requires s.q == a + ":" + b && StartsWithKey(s.q) && KeyLength(s.q) == |a|
    ensures Run(s, globalRegex) == Run(Past(s, a + ":", b), globalRegex)
  {
    hide Run, KnownTag, Trim, FirstSpecial, StepGroup, StepSpace, KeyLength;
    var m := s.q[0..|a| + 1];
    assert m == a + ":" && m[0] == s.q[0] && KeyChar(s.q[0]);
    assert m != " " && m != "(" && m != "[" && m[..|m| - 1] == a && s.term + s.q[..0] == s.term;
    assert s.q[|a| + 1..] == b && s.term + a + ":" == s.term + (a + ":");
    RunStep(s, Piece(0, |a| + 1), Past(s, a + ":", b), globalRegex);
  }

  lemma AfterPast(s: State, read: string, left: string, rest: string, globalRegex: bool)
    requires Follows(rest)
    ensures AfterValue(Past(s, read, left + rest), left, rest, globalRegex) == AfterValue(s, read + left, rest, globalRegex)
  {
    hide Run;
    assert s.term + read + left == s.term + (read + left);
  }

  lemma EndOfText(s: State, globalRegex: bool)
    requires !StartsWithKey(s.q) && PlainText(s.q)
    ensures Run(s, globalRegex) == Store(s.ops, s.key, s.term + s.q)
  {
    hide PlainText, StartsWithKey;
    assert s.q[0..|s.q|] == s.q;
    SpecialAfter(s.q, 0, |s.q|);
  }

  lemma SpaceAfterValue(s: State, v: string, rest: string, globalRegex: bool)
    requires s.key != "" && s.q == v + rest && PlainText(v) && !StartsWithKey(s.q) && rest != "" && rest[0] == ' '
    ensures Run(s, globalRegex) == AfterValue(s, v, rest, globalRegex)
  {
    hide NextPiece, StepGroup, StepKey, PlainText, StartsWithKey;
    assert rest == " " + rest[1..];
    assert s.q == v + " " + rest[1..];
    SpecialPiece(s.q, v, " ", rest[1..]);
  }

  /** What is not a key, and where no space or end comes next. */
  lemma AtomStep(s: State, a: string, x: Atom, b: string, regex: bool, globalRegex: bool)
    requires GoodAtom(x, regex) && !IsPlain(x) && s.q == a + AtomText(x) + b && !StartsWithKey(s.q) && PlainText(a)
    requires regex == (s.inRegex || (s.justGotSpace && a == ""))
    ensures Run(s, globalRegex) == Run(Past(s, a + AtomText(x), b), globalRegex)
  {
    hide Run, StartsWithKey, PlainText, GoodInside, ItemsText;
    match x
    case Chr(c) => BracketStep(s, a, c, b, globalRegex);
    case Esc(c) => EscapeStep(s, a, c, b, globalRegex);
    case Group(_, _) => GroupStep(s, a, x, b, globalRegex);
  }

  /** A value is read whole: its escapes as they are written, and its groups with the spaces and colons in them. */
  lemma {:induction false} ValueRun(s: State, atoms: seq<Atom>, rest: string, globalRegex: bool)
    requires s.key != "" && !s.justGotSpace && (s.key == "lit" ==> !s.inRegex)
    requires GoodAtoms(atoms, s.inRegex) && Follows(rest) && s.q == ValueText(atoms) + rest
    ensures Run(s, globalRegex) == AfterValue(s, ValueText(atoms), rest, globalRegex)
    decreases |atoms|
  {
    hide Run, ValueText, AtomText, KeyLength, AfterValue, StartsWithKey, GoodAtom, AllReadable, IsPlain, PlainText;
    var v, m := ValueText(atoms), PlainPrefix(atoms);
    GoodReadable(atoms, s.inRegex);
    PlainStart(atoms);
    if StartsWithKey(s.q) {
      var n := KeyLength(s.q);
      KeyInPlain(atoms, s.inRegex, rest);
      var left := ValueText(atoms[n + 1..]);
      assert s.q == v[..n] + ":" + (left + rest);
      KeyStep(s, v[..n], left + rest, globalRegex);
      ValueRun(Past(s, v[..n] + ":", left + rest), atoms[n + 1..], rest, globalRegex);
      AfterPast(s, v[..n] + ":", left, rest, globalRegex);
    } else if m < |atoms| {
      var read, left := v[..m] + AtomText(atoms[m]), ValueText(atoms[m + 1..]);
      assert s.q == read + (left + rest);
      AtomStep(s, v[..m], atoms[m], left + rest, s.inRegex, globalRegex);
      ValueRun(Past(s, read, left + rest), atoms[m + 1..], rest, globalRegex);
      AfterPast(s, read, left, rest, globalRegex);
    } else if rest != "" {
      SpaceAfterValue(s, v, rest, globalRegex);
    } else {
      assert s.q == v;
      EndOfText(s, globalRegex);
      AfterAll(s, v, globalRegex);
    }
  }

  lemma AfterAll(s: State, v: string, globalRegex: bool)
    ensures AfterValue(s, v, "", globalRegex) == Store(s.ops, s.key, s.term + v)
  {
  }

  // ----- Reading the main term -----

  /** Reading the main term to its end. */
  function AfterMain(s: State, m: string, rest: string, globalRegex: bool): Result<Ops>
    requires Follows(rest)
  {
    if rest == "" then Store(s.ops, "", s.term + m)
    else
      Run(State("", s.term + m + " ", rest[1..], s.inRegex, true, s.ops), globalRegex)
  }

  lemma NoColons(atoms: seq<Atom>, regex: bool, space: bool)
    requires GoodMainAtoms(atoms, regex, space)
    ensures forall i | 0 <= i < |atoms| :: atoms[i] != Chr(':')
  {
    hide GoodAtom, AfterSpace;
    forall i | 0 <= i < |atoms| ensures atoms[i] != Chr(':') {
      assert GoodMainAtom(atoms[i], regex || AfterSpace(atoms, i, space));
    }
  }

  /** Without a colon in its plain start the main term does not start with a key. */
  lemma NoKeyInMain(atoms: seq<Atom>, regex: bool, space: bool, rest: string)
    requires Follows(rest) && GoodMainAtoms(atoms, regex, space)
    ensures !StartsWithKey(ValueText(atoms) + rest)
  {
    hide ValueText, StartsWithKey, KeyLength, GoodAtom, AtomText, AllReadable, AfterSpace;
    var v, m := ValueText(atoms), PlainPrefix(atoms);
    NoColons(atoms, regex, space);
    if StartsWithKey(v + rest) {
      KeyWithin(v, rest);
      MainReadable(atoms, regex, space);
      PlainStart(atoms);
      var n := KeyLength(v + rest);
      assert n < m;
      CharAt(atoms, n);
    }
  }

  lemma CharAt(atoms: seq<Atom>, n: nat)
    requires n < PlainPrefix(atoms)
    ensures n < |ValueText(atoms)| && atoms[n] == Chr(ValueText(atoms)[n])
  {
    PlainAtoms(atoms, n);
    AtomAt(atoms, n);
    var v := ValueText(atoms);
    hide ValueText;
    assert v[n] == ValueText(atoms[n..])[0];
  }

  lemma SpaceInMain(s: State, a: string, b: string, globalRegex: bool)
    requires s.key == "" && s.q == a + " " + b && !StartsWithKey(s.q) && PlainText(a)
    ensures Run(s, globalRegex) == Run(State("", s.term + (a + " "), b, s.inRegex, true, s.ops), globalRegex)
  {
    hide Run, NextPiece, StepGroup, StepKey, PlainText, StartsWithKey;
    SpecialPiece(s.q, a, " ", b);
    assert s.term + a + " " == s.term + (a + " ");
    RunStep(s, Piece(|a|, |a| + 1), State("", s.term + (a + " "), b, s.inRegex, true, s.ops), globalRegex);
  }

  lemma AfterRead(s: State, s': State, read: string, left: string, rest: string, globalRegex: bool)
    requires Follows(rest) && s'.term == s.term + read && s'.ops == s.ops && s'.inRegex == s.inRegex
    ensures AfterMain(s', left, rest, globalRegex) == AfterMain(s, read + left, rest, globalRegex)
  {
    hide Run;
    assert s'.term + left == s.term + (read + left);
  }

  /** After a plain character only the mode decides what a bracket is. */
  lemma MainAtomAt(atoms: seq<Atom>, regex: bool, space: bool)
    requires GoodMainAtoms(atoms, regex, space) && PlainPrefix(atoms) < |atoms|
    ensures var m := PlainPrefix(atoms); !IsPlain(atoms[m]) && GoodMainAtom(atoms[m], regex || (m == 0 && space))
  {
    hide GoodAtom;
    var m := PlainPrefix(atoms);
    assert GoodMainAtom(atoms[m], regex || AfterSpace(atoms, m, space));
    if m > 0 {
      assert IsPlain(atoms[m - 1]);
    }
  }

  lemma MainRest(atoms: seq<Atom>, regex: bool, space: bool, m: nat)
    requires GoodMainAtoms(atoms, regex, space) && m < |atoms|
    ensures GoodMainAtoms(atoms[m + 1..], regex, atoms[m] == Chr(' '))
  {
    hide GoodMainAtom;
    var more := atoms[m + 1..];
    forall i | 0 <= i < |more| ensures GoodMainAtom(more[i], regex || AfterSpace(more, i, atoms[m] == Chr(' '))) {
      assert more[i] == atoms[m + 1 + i] && (i > 0 ==> more[i - 1] == atoms[m + i]);
      assert GoodMainAtom(atoms[m + 1 + i], regex || AfterSpace(atoms, m + 1 + i, space));
    }
  }

  lemma {:induction false} MainRun(s: State, atoms: seq<Atom>, rest: string, globalRegex: bool)
    requires s.key == "" && s.q == ValueText(atoms) + rest && Follows(rest) && GoodMainAtoms(atoms, s.inRegex, s.justGotSpace)
    ensures Run(s, globalRegex) == AfterMain(s, ValueText(atoms), rest, globalRegex)
    decreases |atoms|
  {
    hide Run, ValueText, AtomText, KeyLength, AfterMain, StartsWithKey, AllReadable, GoodMainAtoms, PlainText, IsPlain;
    var v, m := ValueText(atoms), PlainPrefix(atoms);
    MainReadable(atoms, s.inRegex, s.justGotSpace);
    PlainStart(atoms);
    NoKeyInMain(atoms, s.inRegex, s.justGotSpace, rest);
    if m < |atoms| {
      MainRest(atoms, s.inRegex, s.justGotSpace, m);
      var read, left := v[..m] + AtomText(atoms[m]), ValueText(atoms[m + 1..]);
      assert s.q == read + (left + rest);
      var s' := State("", s.term + read, left + rest, s.inRegex, atoms[m] == Chr(' '), s.ops);
      MainStep(s, v[..m], atoms, left + rest, globalRegex);
      MainRun(s', atoms[m + 1..], rest, globalRegex);
      AfterRead(s, s', read, left, rest, globalRegex);
    } else {
      MainEnds(s, v, rest, globalRegex);
    }
  }

  lemma MainStep(s: State, a: string, atoms: seq<Atom>, b: string, globalRegex: bool)
    requires GoodMainAtoms(atoms, s.inRegex, s.justGotSpace) && PlainPrefix(atoms) == |a| < |atoms|
    requires var x := atoms[|a|]; s.key == "" && s.q == a + AtomText(x) + b && !StartsWithKey(s.q) && PlainText(a)
    ensures var x := atoms[|a|];
      Run(s, globalRegex) == Run(State("", s.term + (a + AtomText(x)), b, s.inRegex, x == Chr(' '), s.ops), globalRegex)
  {
    hide Run, GoodMainAtoms, StartsWithKey, PlainText, GoodAtom, IsPlain;
    var x := atoms[|a|];
    MainAtomAt(atoms, s.inRegex, s.justGotSpace);
    if x == Chr(' ') {
      SpaceInMain(s, a, b, globalRegex);
    } else {
      AtomStep(s, a, x, b, s.inRegex || (s.justGotSpace && a == ""), globalRegex);
    }
  }

  lemma MainEnds(s: State, v: string, rest: string, globalRegex: bool)
    requires s.key == "" && s.q == v + rest && Follows(rest) && PlainText(v) && !StartsWithKey(s.q)
    ensures Run(s, globalRegex) == AfterMain(s, v, rest, globalRegex)
  {
    hide Run, StartsWithKey, PlainText;
    if rest == "" {
      assert s.q == v;
      EndOfText(s, globalRegex);
    } else {
      assert rest == " " + rest[1..];
      assert s.q == v + " " + rest[1..];
      SpaceInMain(s, v, rest[1..], globalRegex);
      assert s.term + (v + " ") == s.term + v + " ";
    }
  }

  // ----- Reading terms -----

  lemma TagNotEmpty(k: string)
    requires KnownTag(k)
    ensures k != ""
  {
  }

  /** A known tag at the start is the next piece. */
  lemma TagIsPiece(k: string, x: string)
    requires KnownTag(k)
    ensures var q := k + ":" + x; NextPiece(q) == Some(Piece(0, |k| + 1)) && q[0..|k| + 1] == k + ":" && q[|k| + 1..] == x
  {
    TagsAreKeys(k);
    hide KnownTag, FirstSpecial;
    assert k + ":" + x == k + (":" + x);
    KeyLengthOf(k, ":" + x);
  }

  lemma TagStep(s: State, k: string, x: string, globalRegex: bool)
    requires KnownTag(k) && s.q == k + ":" + x
    ensures NextPiece(s.q).Some? && Step(s, NextPiece(s.q).value, globalRegex) == StepKey(s, s.term, k, x)
  {
    TagIsPiece(k, x);
    TagsAreKeys(k);
    hide NextPiece, StepGroup, StepSpace, StepKey, KnownTag;
    var m := k + ":";
    assert m[0] == k[0] && KeyChar(m[0]) && m[..|m| - 1] == k && s.term + s.q[..0] == s.term;
  }

  /** The operators once a term starts: a main term before it is stored. */
  function WithMain(s: State): Ops {
    if Trim(s.term) == "" then s.ops else s.ops["" := s.term]
  }

  /** A known tag starts its term, unless there are two main terms before it. */
  lemma TagStarts(s: State, k: string, x: string, globalRegex: bool)
    requires s.key == "" && KnownTag(k) && s.q == k + ":" + x
    ensures Run(s, globalRegex) ==
      if Trim(s.term) != "" && "" in s.ops then Err(NotContiguous)
      else Run(State(k, "", x, s.inRegex && k != "lit", false, WithMain(s)), globalRegex)
  {
    TagStep(s, k, x, globalRegex);
    hide NextPiece, Step, Trim, KnownTag;
  }

  /** What is left once `ops` is known: nothing, or the rest after its space. */
  function Continue(ops: Ops, rest: string, globalRegex: bool): Result<Ops>
    requires Follows(rest)
  {
    if rest == "" then Ok(ops) else Run(State("", "", rest[1..], globalRegex, true, ops), globalRegex)
  }

  /** A printed term, up to what follows it: it is stored, unless its key has a value. */
  lemma TermRun(s: State, t: Term, rest: string, globalRegex: bool)
    requires s.key == "" && s.inRegex == globalRegex && GoodTerm(t, globalRegex) && s.q == PrintTerm(t) + rest && Follows(rest)
    requires Trim(s.term) == "" || "" !in s.ops
    ensures Run(s, globalRegex) ==
      if t.key in s.ops then Err(TermTwice(t.key)) else Continue(WithMain(s)[t.key := t.value], rest, globalRegex)
  {
    hide Trim, Run, GoodAtoms, ValueText, KnownTag, IsOperator;
    OperatorsAreKnown(t.key);
    TagNotEmpty(t.key);
    assert s.q == t.key + ":" + (t.value + rest);
    TagStarts(s, t.key, t.value + rest, globalRegex);
    var atoms :| GoodAtoms(atoms, globalRegex && t.key != "lit") && t.value == ValueText(atoms);
    var s' := State(t.key, "", t.value + rest, s.inRegex && t.key != "lit", false, WithMain(s));
    ValueRun(s', atoms, rest, globalRegex);
    assert s'.term + t.value == t.value;
  }

  /** Printed terms, up to what follows them. */
  lemma {:induction false} TermsRun(s: State, ts: seq<Term>, rest: string, globalRegex: bool)
    requires ts != [] && GoodTerms(ts, globalRegex) && s.key == "" && s.inRegex == globalRegex
    requires s.q == PrintTerms(ts) + rest && Follows(rest)
    requires Trim(s.term) == "" || "" !in s.ops
    requires forall i | 0 <= i < |ts| :: ts[i].key !in s.ops
    ensures Run(s, globalRegex) == Continue(OpsOf(ts, WithMain(s)), rest, globalRegex)
    decreases |ts|
  {
    hide Run, Trim, GoodTerm, PrintTerm, Follows;
    var t := ts[0];
    var ops := WithMain(s)[t.key := t.value];
    if |ts| == 1 {
      assert OpsOf(ts, WithMain(s)) == OpsOf(ts[1..], ops) == ops;
      TermRun(s, t, rest, globalRegex);
    } else {
      var more := " " + PrintTerms(ts[1..]) + rest;
      PrintedRest(ts, rest);
      hide PrintTerms, WithMain;
      SpaceFollows(more);
      TermRun(s, t, more, globalRegex);
      EmptyTrims();
      RestNew(ts, s, ops, globalRegex);
      GoodRest(ts, globalRegex);
      var s' := State("", "", more[1..], globalRegex, true, ops);
      TermsRun(s', ts[1..], rest, globalRegex);
      StartsWithOps(s');
    }
  }

  lemma StartsWithOps(s: State)
    requires s.term == ""
    ensures WithMain(s) == s.ops
  {
    EmptyTrims();
  }

  lemma SpaceFollows(rest: string)
    requires rest != "" && rest[0] == ' '
    ensures Follows(rest)
  {
  }

  lemma PrintedRest(ts: seq<Term>, more: string)
    requires |ts| > 1
    ensures var rest := " " + PrintTerms(ts[1..]) + more;
      PrintTerms(ts) + more == PrintTerm(ts[0]) + rest && rest[0] == ' ' && rest[1..] == PrintTerms(ts[1..]) + more
  {
    var a, b := PrintTerm(ts[0]), PrintTerms(ts[1..]);
    assert PrintTerms(ts) == a + " " + b;
    hide PrintTerm, PrintTerms;
    Regroup(a, b, more);
  }

  lemma Regroup(a: string, b: string, more: string)
    ensures a + " " + b + more == a + (" " + b + more) && (" " + b + more)[1..] == b + more
  {
  }

  lemma KeyNotEmpty(t: Term, globalRegex: bool)
    requires GoodTerm(t, globalRegex)
    ensures t.key != ""
  {
  }

  /** The other terms have other keys. */
  lemma RestNew(ts: seq<Term>, s: State, ops: Ops, globalRegex: bool)
    requires GoodTerms(ts, globalRegex) && ts != [] && ops == WithMain(s)[ts[0].key := ts[0].value]
    requires forall i | 0 <= i < |ts| :: ts[i].key !in s.ops
    ensures forall i | 0 <= i < |ts[1..]| :: ts[1..][i].key !in ops
  {
    hide GoodTerm, Trim;
    forall i | 0 <= i < |ts[1..]| ensures ts[1..][i].key !in ops {
      assert ts[1..][i] == ts[i + 1];
      KeyNotEmpty(ts[i + 1], globalRegex);
    }
  }

  lemma EmptyTrims()
    ensures Trim("") == ""
  {
  }

  lemma GoodRest(ts: seq<Term>, globalRegex: bool)
    requires GoodTerms(ts, globalRegex) && ts != []
    ensures GoodTerms(ts[1..], globalRegex)
  {
    hide GoodTerm;
    var more := ts[1..];
    forall i | 0 <= i < |more| ensures GoodTerm(more[i], globalRegex) {
      assert more[i] == ts[i + 1];
    }
    forall i, j | 0 <= i < j < |more| ensures more[i].key != more[j].key {
      assert more[i] == ts[i + 1] && more[j] == ts[j + 1];
    }
  }

  // ----- Whole queries -----

  function Joined(a: string, b: string): string {
    if a == "" then b else if b == "" then a else a + " " + b
  }

  /** Terms, the main term, and terms; each may be missing. */
  function Printing(before: seq<Term>, main: string, after: seq<Term>): string {
    Joined(PrintTerms(before), Joined(main, PrintTerms(after)))
  }

  ghost predicate GoodQuery(before: seq<Term>, main: string, after: seq<Term>, globalRegex: bool) {
    && GoodTerms(before + after, globalRegex)
    && (if main == "" then before != [] && after == [] else GoodMain(main, globalRegex))
  }

  lemma {:induction false} TrimLeftSpace(m: string)
    ensures TrimLeft(m + " ") == if TrimLeft(m) == "" then "" else TrimLeft(m) + " "
  {
    if m == "" {
      assert m + " " == " ";
    } else if IsSpace(m[0]) {
      assert (m + " ")[1..] == m[1..] + " ";
      TrimLeftSpace(m[1..]);
    }
  }

  lemma TrimSpace(m: string)
    ensures Trim(m + " ") == Trim(m)
  {
    TrimLeftSpace(m);
    var t := TrimLeft(m);
    assert (t + " ")[..|t|] == t;
  }

  lemma {:induction false} PrintedSome(ts: seq<Term>)
    ensures PrintTerms(ts) == "" <==> ts == []
  {
  }

  lemma GoodParts(before: seq<Term>, after: seq<Term>, globalRegex: bool)
    requires GoodTerms(before + after, globalRegex)
    ensures GoodTerms(before, globalRegex) && GoodTerms(after, globalRegex)
    ensures forall i, j | 0 <= i < |before| && 0 <= j < |after| :: before[i].key != after[j].key
    ensures forall i | 0 <= i < |after| :: after[i].key != ""
  {
    hide GoodTerm;
    var all := before + after;
    assert forall i | 0 <= i < |before| :: all[i] == before[i];
    assert forall j | 0 <= j < |after| :: all[|before| + j] == after[j];
    forall i | 0 <= i < |after| ensures after[i].key != "" {
      KeyNotEmpty(after[i], globalRegex);
    }
  }

  lemma {:induction false} OpsOfTerms(ts: seq<Term>, ops: Ops, globalRegex: bool)
    requires GoodTerms(ts, globalRegex)
    ensures forall i | 0 <= i < |ts| :: ts[i].key in OpsOf(ts, ops) && OpsOf(ts, ops)[ts[i].key] == ts[i].value
    ensures forall k | k in OpsOf(ts, ops) :: k in ops || exists i :: 0 <= i < |ts| && ts[i].key == k
    ensures forall k | k in ops && (forall i | 0 <= i < |ts| :: ts[i].key != k) :: k in OpsOf(ts, ops) && OpsOf(ts, ops)[k] == ops[k]
  {
    hide GoodTerm;
    if ts != [] {
      var ops' := ops[ts[0].key := ts[0].value];
      GoodRest(ts, globalRegex);
      OpsOfTerms(ts[1..], ops', globalRegex);
      forall i | 0 <= i < |ts| ensures ts[i].key in OpsOf(ts, ops) && OpsOf(ts, ops)[ts[i].key] == ts[i].value {
        if i > 0 {
          assert ts[1..][i - 1] == ts[i];
        }
      }
      forall k | k in OpsOf(ts, ops) ensures k in ops || exists i :: 0 <= i < |ts| && ts[i].key == k {
        if k !in ops && k != ts[0].key {
          var i :| 0 <= i < |ts[1..]| && ts[1..][i].key == k;
          assert ts[i + 1].key == k;
        }
      }
    }
  }

  /** The first terms, and what comes after them. */
  lemma BeforeRun(before: seq<Term>, x: string, rest: string, globalRegex: bool)
    requires GoodTerms(before, globalRegex) && Follows(rest) && (before != [] || x != "")
    ensures var q, ops := Joined(PrintTerms(before), x) + rest, OpsOf(before, map[]);
      Run(State("", "", q, globalRegex, true, map[]), globalRegex) ==
        if x == "" then Continue(ops, rest, globalRegex) else Run(State("", "", x + rest, globalRegex, true, ops), globalRegex)
  {
    hide Run, PrintTerms, GoodTerms, Trim;
    EmptyTrims();
    PrintedSome(before);
    var s := State("", "", Joined(PrintTerms(before), x) + rest, globalRegex, true, map[]);
    StartsWithOps(s);
    if before != [] {
      if x == "" {
        TermsRun(s, before, rest, globalRegex);
      } else {
        var more := " " + x + rest;
        assert s.q == PrintTerms(before) + more && more[1..] == x + rest;
        TermsRun(s, before, more, globalRegex);
      }
    }
  }

  /** The main term is the last, and not stored yet if something follows. */
  lemma MainLast(s: State, main: string, rest: string, globalRegex: bool)
    requires s.key == "" && s.term == "" && s.inRegex == globalRegex && s.justGotSpace && "" !in s.ops
    requires GoodMain(main, globalRegex) && s.q == main + rest && Follows(rest)
    ensures Run(s, globalRegex) ==
      if rest == "" then Ok(s.ops["" := main])
      else Run(State("", main + " ", rest[1..], globalRegex, true, s.ops), globalRegex)
  {
    hide Run, GoodMainAtoms, ValueText;
    var atoms :| GoodMainAtoms(atoms, globalRegex, true) && main == ValueText(atoms);
    MainRun(s, atoms, rest, globalRegex);
    assert s.term + main == main;
  }

  /** The main term, and terms after it. */
  lemma MainBefore(s: State, main: string, after: seq<Term>, rest: string, globalRegex: bool)
    requires s.key == "" && s.term == "" && s.inRegex == globalRegex && s.justGotSpace && "" !in s.ops
    requires GoodMain(main, globalRegex) && after != [] && GoodTerms(after, globalRegex)
    requires forall i | 0 <= i < |after| :: after[i].key !in s.ops
    requires s.q == main + " " + PrintTerms(after) + rest && Follows(rest)
    ensures Run(s, globalRegex) == Continue(OpsOf(after, s.ops["" := main + " "]), rest, globalRegex)
  {
    hide Run, PrintTerms, GoodTerms, GoodMain, Trim, OpsOf;
    var more := " " + PrintTerms(after) + rest;
    Regroup(main, PrintTerms(after), rest);
    SpaceFollows(more);
    MainLast(s, main, more, globalRegex);
    TrimSpace(main);
    MainTrims(main, globalRegex);
    var s' := State("", main + " ", more[1..], globalRegex, true, s.ops);
    TermsRun(s', after, rest, globalRegex);
  }

  /** The operators of a printed query. */
  function PrintedOps(before: seq<Term>, main: string, after: seq<Term>): Ops {
    var ops := OpsOf(before, map[]);
    if main == "" then ops
    else if after == [] then ops["" := main]
    else
      OpsOf(after, ops["" := main + " "])
  }

  /** A printed query, up to what follows it: only a main term in the last place may go on. */
  lemma PrintingRun(before: seq<Term>, main: string, after: seq<Term>, rest: string, globalRegex: bool)
    requires GoodQuery(before, main, after, globalRegex) && Follows(rest)
    ensures var q := Printing(before, main, after) + rest;
      Run(State("", "", q, globalRegex, true, map[]), globalRegex) ==
        if rest != "" && main != "" && after == [] then
          Run(State("", main + " ", rest[1..], globalRegex, true, OpsOf(before, map[])), globalRegex)
        else
          Continue(PrintedOps(before, main, after), rest, globalRegex)
  {
    hide Run, PrintTerms, GoodTerms, GoodMain, OpsOf;
    GoodParts(before, after, globalRegex);
    PrintedSome(after);
    MainNotEmpty(main, globalRegex);
    BeforeRun(before, Joined(main, PrintTerms(after)), rest, globalRegex);
    var s := State("", "", Joined(main, PrintTerms(after)) + rest, globalRegex, true, OpsOf(before, map[]));
    OpsBefore(before, after, globalRegex);
    if main != "" && after == [] {
      MainLast(s, main, rest, globalRegex);
    } else if main != "" {
      MainBefore(s, main, after, rest, globalRegex);
    }
  }

  lemma MainNotEmpty(main: string, globalRegex: bool)
    ensures GoodMain(main, globalRegex) ==> main != ""
  {
    EmptyTrims();
  }

  lemma OpsBefore(before: seq<Term>, after: seq<Term>, globalRegex: bool)
    requires GoodTerms(before + after, globalRegex)
    ensures "" !in OpsOf(before, map[]) && forall i | 0 <= i < |after| :: after[i].key !in OpsOf(before, map[])
  {
    hide GoodTerm;
    GoodParts(before, after, globalRegex);
    OpsOfTerms(before, map[], globalRegex);
    forall i | 0 <= i < |before| ensures before[i].key != "" {
      KeyNotEmpty(before[i], globalRegex);
    }
  }

  /** The operators are exactly the printed ones; the main term stands under the empty key. */
  ghost predicate Printed(ops: Ops, ts: seq<Term>, main: string) {
    && (forall i | 0 <= i < |ts| :: ts[i].key in ops && ops[ts[i].key] == ts[i].value)
    && (forall k | k in ops :: k == "" || exists i :: 0 <= i < |ts| && ts[i].key == k)
    && ("" in ops <==> main != "") && (main != "" ==> Trim(ops[""]) == Trim(main))
  }

  lemma PrintedOpsAre(before: seq<Term>, main: string, after: seq<Term>, globalRegex: bool)
    requires GoodQuery(before, main, after, globalRegex)
    ensures Printed(PrintedOps(before, main, after), before + after, main)
  {
    hide GoodTerm, GoodMain, Trim, OpsOf;
    var all, ops, first := before + after, PrintedOps(before, main, after), OpsOf(before, map[]);
    GoodParts(before, after, globalRegex);
    OpsOfTerms(before, map[], globalRegex);
    OpsBefore(before, after, globalRegex);
    OpsOfTerms(after, first["" := main + " "], globalRegex);
    TrimSpace(main);
    forall i | 0 <= i < |all| ensures all[i].key in ops && ops[all[i].key] == all[i].value {
      KeyNotEmpty(all[i], globalRegex);
      if i >= |before| {
        assert all[i] == after[i - |before|];
      }
    }
    forall k | k in ops ensures k == "" || exists i :: 0 <= i < |all| && all[i].key == k {
      if j :| 0 <= j < |after| && after[j].key == k {
        assert all[|before| + j].key == k;
      } else if i :| 0 <= i < |before| && before[i].key == k {
        assert all[i].key == k;
      }
    }
  }

  /**
   * Parsing undoes printing: distinct known operators with balanced values
   * and a main term before, between or after them are read back as they were.
   */
  lemma ParsesPrinted(query: string, before: seq<Term>, main: string, after: seq<Term>, globalRegex: bool)
    requires GoodQuery(before, main, after, globalRegex) && Trim(query) == Printing(before, main, after)
    ensures var r := Run(Start(query, globalRegex), globalRegex); r.Ok? && Printed(r.value, before + after, main)
  {
    hide Run, GoodQuery, Printed, Trim, Printing, PrintedOps;
    assert Printing(before, main, after) + "" == Printing(before, main, after);
    PrintingRun(before, main, after, "", globalRegex);
    PrintedOpsAre(before, main, after, globalRegex);
  }

  /** An operator may not be given again. */
  lemma RepeatedKey(query: string, before: seq<Term>, main: string, after: seq<Term>, t: Term, rest: string, globalRegex: bool)
    requires GoodQuery(before, main, after, globalRegex) && GoodTerm(t, globalRegex) && Follows(rest)
    requires exists i :: 0 <= i < |before + after| && (before + after)[i].key == t.key
    requires Trim(query) == Printing(before, main, after) + " " + PrintTerm(t) + rest
    ensures Run(Start(query, globalRegex), globalRegex) == Err(TermTwice(t.key))
  {
    hide Run, GoodTerms, GoodTerm, GoodMain, Trim, Printing, OpsOf, Printed, PrintTerm;
    var more := " " + PrintTerm(t) + rest;
    assert Trim(query) == Printing(before, main, after) + more && more[1..] == PrintTerm(t) + rest;
    PrintingRun(before, main, after, more, globalRegex);
    PrintedOpsAre(before, main, after, globalRegex);
    KeyNotEmpty(t, globalRegex);
    EmptyTrims();
    var ops := OpsOf(before, map[]);
    OpsBefore(before, after, globalRegex);
    KeyStays(before, main, after, t.key, globalRegex);
    if main != "" && after == [] {
      TermRun(State("", main + " ", more[1..], globalRegex, true, ops), t, rest, globalRegex);
    } else {
      TermRun(State("", "", more[1..], globalRegex, true, PrintedOps(before, main, after)), t, rest, globalRegex);
    }
  }

  lemma KeyStays(before: seq<Term>, main: string, after: seq<Term>, key: string, globalRegex: bool)
    requires GoodQuery(before, main, after, globalRegex) && key != ""
    requires exists i :: 0 <= i < |before + after| && (before + after)[i].key == key
    ensures key in PrintedOps(before, main, after) && (after == [] ==> key in OpsOf(before, map[]))
  {
    hide GoodTerms, GoodMain, OpsOf, GoodQuery;
    PrintedOpsAre(before, main, after, globalRegex);
    hide Trim;
    assert after == [] ==> PrintedOps(before, main, after).Keys <= OpsOf(before, map[]).Keys + {""};
  }

  /** The main term may not go on after an operator: not at the end, and not before another. */
  lemma SecondMain(query: string, before: seq<Term>, main: string, after: seq<Term>, again: string, globalRegex: bool)
    requires GoodQuery(before, main, after, globalRegex) && main != "" && after != [] && GoodMain(again, globalRegex)
    requires Trim(query) == Printing(before, main, after) + " " + again
    ensures Run(Start(query, globalRegex), globalRegex) == Err(TermTwice(""))
  {
    hide Run, GoodTerms, GoodMainAtoms, Trim, Printing, OpsOf, ValueText;
    var more := " " + again;
    assert Trim(query) == Printing(before, main, after) + more && more[1..] == again;
    PrintingRun(before, main, after, more, globalRegex);
    PrintedOpsAre(before, main, after, globalRegex);
    SecondRun(State("", "", again, globalRegex, true, PrintedOps(before, main, after)), again, "", globalRegex);
  }

  lemma SecondMainThen(query: string, before: seq<Term>, main: string, after: seq<Term>, again: string, key: string, x: string,
                       globalRegex: bool)
    requires GoodQuery(before, main, after, globalRegex) && main != "" && after != [] && GoodMain(again, globalRegex)
    requires IsOperator(key) && Trim(query) == Printing(before, main, after) + " " + again + " " + key + ":" + x
    ensures Run(Start(query, globalRegex), globalRegex) == Err(NotContiguous)
  {
    hide Run, GoodTerms, GoodMain, Trim, Printing, OpsOf, IsOperator;
    var rest := " " + (key + ":" + x);
    var more := " " + again + rest;
    assert Trim(query) == Printing(before, main, after) + more && more[1..] == again + rest && rest[1..] == key + ":" + x;
    PrintingRun(before, main, after, more, globalRegex);
    PrintedOpsAre(before, main, after, globalRegex);
    var ops := PrintedOps(before, main, after);
    SecondRun(State("", "", again + rest, globalRegex, true, ops), again, rest, globalRegex);
    OperatorsAreKnown(key);
    TagStarts(State("", again + " ", rest[1..], globalRegex, true, ops), key, x, globalRegex);
    TrimSpace(again);
    MainTrims(again, globalRegex);
  }

  lemma MainTrims(main: string, globalRegex: bool)
    requires GoodMain(main, globalRegex)
    ensures Trim(main) != ""
  {
  }

  lemma SecondRun(s: State, again: string, rest: string, globalRegex: bool)
    requires s.key == "" && s.term == "" && s.inRegex == globalRegex && s.justGotSpace && "" in s.ops
    requires GoodMain(again, globalRegex) && s.q == again + rest && Follows(rest)
    ensures Run(s, globalRegex) ==
      if rest == "" then Err(TermTwice(""))
      else Run(State("", again + " ", rest[1..], globalRegex, true, s.ops), globalRegex)
  {
    hide Run, GoodMainAtoms, ValueText;
    var atoms :| GoodMainAtoms(atoms, globalRegex, true) && again == ValueText(atoms);
    MainRun(s, atoms, rest, globalRegex);
    assert s.term + again == again;
  }
}
