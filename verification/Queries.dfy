/** The query language: operators with a value each, around one main term. */
module Queries {
  import opened Wrappers

  datatype Error = TermTwice(key: string) | NotContiguous | Synonyms | SeveralPatterns | NotANumber

  datatype Result<+T> = Ok(value: T) | Err(error: Error)

  predicate KnownTag(k: string) {
    k in {"file", "-file", "path", "-path", "repo", "-repo", "tags", "-tags", "case", "lit", "max_matches"}
  }

  // ----- White space -----

  predicate IsSpace(c: char) {
    || '\U{0009}' <= c <= '\U{000d}' || '\U{2000}' <= c <= '\U{200a}'
    || c in {' ', '\U{0085}', '\U{00a0}', '\U{1680}', '\U{2028}', '\U{2029}', '\U{202f}', '\U{205f}', '\U{3000}'}
  }

  function TrimLeft(s: string): string {
    if s != [] && IsSpace(s[0]) then TrimLeft(s[1..]) else s
  }

  function TrimRight(s: string): string {
    if s != [] && IsSpace(s[|s| - 1]) then TrimRight(s[..|s| - 1]) else s
  }

  function Trim(s: string): string {
    TrimRight(TrimLeft(s))
  }

  predicate Trimmed(s: string) {
    s == [] || (!IsSpace(s[0]) && !IsSpace(s[|s| - 1]))
  }

  lemma {:induction false} TrimRightKeeps(s: string)
    ensures TrimRight(s) <= s && (TrimRight(s) != [] ==> !IsSpace(TrimRight(s)[|TrimRight(s)| - 1]))
  {
    if s != [] && IsSpace(s[|s| - 1]) {
      TrimRightKeeps(s[..|s| - 1]);
    }
  }

  lemma {:induction false} TrimLeftKeeps(s: string)
    ensures TrimLeft(s) != [] ==> !IsSpace(TrimLeft(s)[0])
  {
    if s != [] && IsSpace(s[0]) {
      TrimLeftKeeps(s[1..]);
    }
  }

  lemma TrimTrims(s: string)
    ensures Trimmed(Trim(s))
  {
    TrimLeftKeeps(s);
    TrimRightKeeps(TrimLeft(s));
  }

  /** The white space of ASCII: tab, line feed, vertical tab, form feed, carriage return, space. */
  predicate AsciiSpace(c: char) {
    c as int == 9 || c as int == 10 || c as int == 11 || c as int == 12 || c as int == 13 || c as int == 32
  }

  lemma SpacesAre(c: char)
    ensures AsciiSpace(c) ==> IsSpace(c)
    ensures IsSpace(c) && c as int < 128 ==> AsciiSpace(c)
  {
  }

  /** Only white space is dropped, at both ends, and none is left there. */
  lemma TrimDrops(s: string) returns (a: string, b: string)
    ensures s == a + Trim(s) + b && forall c | c in a + b && c as int < 128 :: AsciiSpace(c)
    ensures var t := Trim(s); t != "" ==> !AsciiSpace(t[0]) && !AsciiSpace(t[|t| - 1])
  {
    if Trim(s) != "" {
      SpacesAre(Trim(s)[0]);
      SpacesAre(Trim(s)[|Trim(s)| - 1]);
    }
    var t := TrimLeft(s);
    TrimTrims(s);
    a := DropsLeft(s);
    b := DropsRight(t);
    assert s == a + (Trim(s) + b);
    forall c | c in a + b && c as int < 128 ensures AsciiSpace(c) {
      SpacesAre(c);
    }
  }

  lemma {:induction false} DropsLeft(s: string) returns (a: string)
    ensures s == a + TrimLeft(s) && forall c | c in a :: IsSpace(c)
  {
    a := "";
    if s != [] && IsSpace(s[0]) {
      a := DropsLeft(s[1..]);
      a := [s[0]] + a;
    }
  }

  lemma {:induction false} DropsRight(s: string) returns (b: string)
    ensures s == TrimRight(s) + b && forall c | c in b :: IsSpace(c)
  {
    b := "";
    if s != [] && IsSpace(s[|s| - 1]) {
      b := DropsRight(s[..|s| - 1]);
      b := b + [s[|s| - 1]];
    }
  }

  lemma TrimmedStays(s: string)
    requires Trimmed(s)
    ensures Trim(s) == s
  {
  }

  // ----- The next piece of syntax -----

  predicate KeyChar(c: char) {
    'a' <= c <= 'z' || 'A' <= c <= 'Z' || '0' <= c <= '9' || c == '-' || c == '_'
  }

  function KeyLength(q: string): (n: nat)
    ensures n <= |q| && (n < |q| ==> !KeyChar(q[n])) && forall i | 0 <= i < n :: KeyChar(q[i])
  {
    if q != [] && KeyChar(q[0]) then 1 + KeyLength(q[1..]) else 0
  }

  predicate StartsWithKey(q: string) {
    0 < KeyLength(q) < |q| && q[KeyLength(q)] == ':'
  }

  /** A bracket, a space or an escape starts at `i`. */
  predicate SpecialAt(q: string, i: nat)
    requires i < |q|
  {
    q[i] in {'[', '(', ' '} || (q[i] == '\\' && i + 1 < |q| && q[i + 1] != '\n')
  }

  /** The first such place from `i` on, or the end. */
  function FirstSpecial(q: string, i: nat): (r: nat)
    requires i <= |q|
    ensures i <= r <= |q| && (r < |q| ==> SpecialAt(q, r)) && forall k | i <= k < r :: !SpecialAt(q, k)
    decreases |q| - i
  {
    if i == |q| || SpecialAt(q, i) then i else FirstSpecial(q, i + 1)
  }

  datatype Piece = Piece(start: nat, end: nat)

  /** The leftmost piece; an operator only at the very start. */
  function NextPiece(q: string): (r: Option<Piece>)
    ensures r.Some? ==> r.value.start < r.value.end <= |q|
  {
    if StartsWithKey(q) then Some(Piece(0, KeyLength(q) + 1))
    else
      var i := FirstSpecial(q, 0);
      if i == |q| then None else Some(Piece(i, if q[i] == '\\' then i + 2 else i + 1))
  }

  /** The end of a balanced group, or of the text; escaped characters do not count. */
  function Balance(q: string, i: nat, p: int, esc: bool, open: char, close: char): (r: nat)
    requires i <= |q|
    ensures i <= r <= |q|
    decreases |q| - i
  {
    if i == |q| then i
    else
      var p' := if esc then p else if q[i] == '\\' then p else if q[i] == open then p + 1 else if q[i] == close then p - 1 else p;
      if p' == 0 then i + 1
      else
        Balance(q, i + 1, p', !esc && q[i] == '\\', open, close)
  }

  // ----- The loop, as a function -----

  type Ops = map<string, string>

  datatype State = State(key: string, term: string, q: string, inRegex: bool, justGotSpace: bool, ops: Ops)

  /** Ends the current operator. */
  function Store(ops: Ops, key: string, term: string): Result<Ops> {
    if key in ops then Err(TermTwice(key)) else Ok(ops[key := term])
  }

  /** A bracket: on its own, or with all of its group. */
  function StepGroup(s: State, term: string, m: string, q: string, space: bool): (r: State)
    requires m == "(" || m == "["
    ensures |r.q| <= |q|
  {
    if !(s.inRegex || space) then State(s.key, term + m, q, s.inRegex, false, s.ops)
    else
      var i := Balance(q, 0, 1, false, m[0], if m == "(" then ')' else ']');
      State(s.key, term + m + q[..i], q[i..], s.inRegex, false, s.ops)
  }

  /** A space ends an operator. */
  function StepSpace(s: State, term: string, q: string, globalRegex: bool): (r: Result<State>)
    ensures r.Ok? ==> r.value.q == q
  {
    if s.key == "" then Ok(State(s.key, term + " ", q, s.inRegex, true, s.ops))
    else
      match Store(s.ops, s.key, term)
      case Ok(ops) => Ok(State("", "", q, globalRegex, true, ops))
      case Err(e) => Err(e)
  }

  /** An operator starts, if its key is known and none is open. */
  function StepKey(s: State, term: string, newKey: string, q: string): (r: Result<State>)
    ensures r.Ok? ==> r.value.q == q
  {
    if s.key == "" && KnownTag(newKey) then
      if Trim(term) == "" then Ok(State(newKey, "", q, s.inRegex && newKey != "lit", false, s.ops))
      else if "" in s.ops then Err(NotContiguous)
      else
        Ok(State(newKey, "", q, s.inRegex && newKey != "lit", false, s.ops["" := term]))
    else
      Ok(State(s.key, term + newKey + ":", q, s.inRegex && s.key != "lit", false, s.ops))
  }

  /** What a piece `m` does, once the text before it is in the term and `q` remains. */
  function Consume(s: State, term: string, m: string, q: string, space: bool, globalRegex: bool): (r: Result<State>)
    requires m != ""
    ensures r.Ok? ==> |r.value.q| <= |q|
  {
    if m == " " then StepSpace(s, term, q, globalRegex)
    else if m == "(" || m == "[" then Ok(StepGroup(s, term, m, q, space))
    else if m[0] == '\\' then Ok(State(s.key, term + m, q, s.inRegex, false, s.ops))
    else
      StepKey(s, term, m[..|m| - 1], q)
  }

  /** One turn of the loop. */
  function Step(s: State, piece: Piece, globalRegex: bool): (r: Result<State>)
    requires NextPiece(s.q) == Some(piece)
    ensures r.Ok? ==> |r.value.q| < |s.q|
  {
    Consume(s, s.term + s.q[..piece.start], s.q[piece.start..piece.end], s.q[piece.end..],
            s.justGotSpace && piece.start == 0, globalRegex)
  }

  function Run(s: State, globalRegex: bool): Result<Ops>
    decreases |s.q|
  {
    match NextPiece(s.q)
    case None => Store(s.ops, s.key, s.term + s.q)
    case Some(piece) =>
      match Step(s, piece, globalRegex)
      case Ok(s') => Run(s', globalRegex)
      case Err(e) => Err(e)
  }

  function Start(query: string, globalRegex: bool): State {
    State("", "", Trim(query), globalRegex, true, map[])
  }

  /** The loop itself: the text that remains gets shorter with every piece. */
  method ParseOps(query: string, globalRegex: bool) returns (r: Result<Ops>)
    ensures r == Run(Start(query, globalRegex), globalRegex)
  {
    var s := Start(query, globalRegex);
    while true
      invariant Run(s, globalRegex) == Run(Start(query, globalRegex), globalRegex)
      decreases |s.q|
    {
      var piece := NextPiece(s.q);
      if piece.None? {
        return Store(s.ops, s.key, s.term + s.q);
      }
      var next := Step(s, piece.value, globalRegex);
      if next.Err? {
        return Err(next.error);
      }
      s := next.value;
    }
  }

  // ----- From the operators to the query -----

  datatype Query = Query(line: string, file: string, notFile: string, repo: string, notRepo: string, tags: string, notTags: string,
                         filenameOnly: bool, treenameOnly: bool, foldCase: bool, maxMatches: int)

  function Get(ops: Ops, key: string): string {
    if key in ops then ops[key] else ""
  }

  function OnlyOneSynonym(ops: Ops, a: string, b: string): Result<string> {
    if Get(ops, a) != "" && Get(ops, b) != "" then Err(Synonyms)
    else if Get(ops, a) != "" then Ok(Get(ops, a))
    else
      Ok(Get(ops, b))
  }

  /** What quoting does is not modelled, only that it leaves the empty string empty. */
  type Quote = string -> string

  function Bits(ops: Ops, globalRegex: bool, quote: Quote): seq<string> {
    var main := if globalRegex then Trim(Get(ops, "")) else quote(Trim(Get(ops, "")));
    var fold := if globalRegex then Trim(Get(ops, "case")) else quote(Trim(Get(ops, "case")));
    var lit := quote(Trim(Get(ops, "lit")));
    (if main != "" then [main] else []) + (if fold != "" then [fold] else []) + (if lit != "" then [lit] else [])
  }

  function Quoted(s: string, globalRegex: bool, quote: Quote): string {
    if globalRegex then s else quote(s)
  }

  /** The bare pattern and that of `case:` are quoted in literal mode only, that of `lit:` always; one at most is given. */
  function Pattern(ops: Ops, globalRegex: bool, quote: Quote): string {
    var main, fold, lit := Trim(Get(ops, "")), Trim(Get(ops, "case")), Trim(Get(ops, "lit"));
    (if globalRegex then main else quote(main)) + (if globalRegex then fold else quote(fold)) + quote(lit)
  }

  /** More than one pattern is given. */
  predicate Several(ops: Ops, globalRegex: bool, quote: Quote) {
    var main, fold, lit := Trim(Get(ops, "")), Trim(Get(ops, "case")), Trim(Get(ops, "lit"));
    var m, c, l := (if globalRegex then main else quote(main)) != "", (if globalRegex then fold else quote(fold)) != "", quote(lit) != "";
    (m && c) || (m && l) || (c && l)
  }

  /** The query searches for its one pattern, or else for its file or its tree by name. */
  ghost predicate Means(q: Query, ops: Ops, globalRegex: bool, quote: Quote) {
    var line := Pattern(ops, globalRegex, quote);
    var named := Get(ops, "file") + Get(ops, "path");
    var file := if globalRegex then named else quote(named);
    var repo := if globalRegex then Get(ops, "repo") else quote(Get(ops, "repo"));
    if line != "" then q.line == line && q.file == file && q.repo == repo && !q.filenameOnly && !q.treenameOnly
    else if file != "" then q.line == file && q.file == "" && q.repo == repo && q.filenameOnly && !q.treenameOnly
    else if repo != "" then q.line == repo && q.file == "" && q.repo == "" && !q.filenameOnly && q.treenameOnly
    else
      q.line == q.file == q.repo == "" && !q.filenameOnly && !q.treenameOnly
  }

  /** What a query excludes, its tags and its limit. */
  ghost predicate Excludes(q: Query, ops: Ops, globalRegex: bool, quote: Quote) {
    var named := Get(ops, "-file") + Get(ops, "-path");
    && q.notFile == (if globalRegex then named else quote(named))
    && q.notRepo == (if globalRegex then Get(ops, "-repo") else quote(Get(ops, "-repo")))
    && q.tags == Get(ops, "tags") && q.notTags == Get(ops, "-tags")
  }

  /** Case is ignored unless it is asked for, by an operator or by a capital. */
  ghost predicate Folds(q: Query, ops: Ops) {
    q.foldCase <==> "case" !in ops && "lit" !in ops && forall i | 0 <= i < |q.line| :: !('A' <= q.line[i] <= 'Z')
  }

  predicate NoCapital(s: string) {
    forall i | 0 <= i < |s| :: !('A' <= s[i] <= 'Z')
  }

  // ----- Decimal numbers -----

  predicate AllDigits(s: string) {
    forall i | 0 <= i < |s| :: '0' <= s[i] <= '9'
  }

  function Decimal(s: string): nat
    requires AllDigits(s)
  {
    if s == "" then 0 else 10 * Decimal(s[..|s| - 1]) + (s[|s| - 1] as int - '0' as int)
  }

  const kMaxInt := 0x7fff_ffff_ffff_ffff

  /** `strconv.Atoi`: a sign or none, digits, and a value of 64 bits. */
  function Atoi(s: string): Option<int> {
    var digits := if s != "" && s[0] in {'+', '-'} then s[1..] else s;
    if digits == "" || !AllDigits(digits) then None
    else
      var n: int := if s[0] == '-' then -(Decimal(digits) as int) else Decimal(digits);
      if -kMaxInt - 1 <= n <= kMaxInt then Some(n) else None
  }

  /** The conversion to 32 bits keeps the low ones. */
  function ToInt32(n: int): int {
    (n + 0x8000_0000) % 0x1_0000_0000 - 0x8000_0000
  }

  function PrintNat(n: nat): string {
    (if n < 10 then "" else PrintNat(n / 10)) + [(n % 10 + '0' as int) as char]
  }

  lemma {:induction false} DecimalOfPrinted(n: nat)
    ensures PrintNat(n) != "" && AllDigits(PrintNat(n)) && Decimal(PrintNat(n)) == n
  {
    var s := PrintNat(n);
    if n >= 10 {
      DecimalOfPrinted(n / 10);
      assert s[..|s| - 1] == PrintNat(n / 10);
    } else {
      assert s[..|s| - 1] == "";
    }
  }

  /** A printed number is read back. */
  lemma AtoiOfPrinted(n: int)
    requires -0x8000_0000_0000_0000 <= n < 0x8000_0000_0000_0000
    ensures Atoi(if n < 0 then "-" + PrintNat(-n) else PrintNat(n)) == Some(n)
  {
    hide PrintNat, Decimal, AllDigits, Atoi;
    if n < 0 {
      DecimalOfPrinted(-n);
      AtoiOfDigits("-", PrintNat(-n));
    } else {
      DecimalOfPrinted(n);
      AtoiOfDigits("", PrintNat(n));
      assert "" + PrintNat(n) == PrintNat(n);
    }
  }

  lemma AtoiOfDigits(sign: string, digits: string)
    requires sign in {"", "-"} && digits != "" && AllDigits(digits) && Decimal(digits) <= kMaxInt + |sign|
    ensures Atoi(sign + digits) == Some(if sign == "-" then -(Decimal(digits) as int) else Decimal(digits))
  {
    assert '0' <= digits[0] <= '9';
    hide Decimal, AllDigits;
    var s := sign + digits;
    if sign == "" {
      assert s == digits;
    } else {
      assert s[0] == '-' && s[1..] == digits;
    }
  }

  /** A number is a sign or none and digits, one at least. */
  lemma AtoiOnlyNumbers(s: string)
    requires Atoi(s).Some?
    ensures -0x8000_0000_0000_0000 <= Atoi(s).value < 0x8000_0000_0000_0000
    ensures s != "" && (s[0] in {'+', '-'} ==> |s| > 1)
    ensures forall i | 0 <= i < |s| :: '0' <= s[i] <= '9' || (i == 0 && s[0] in {'+', '-'})
  {
    hide Decimal;
    var digits := if s[0] in {'+', '-'} then s[1..] else s;
    forall i | 0 <= i < |s| ensures '0' <= s[i] <= '9' || (i == 0 && s[0] in {'+', '-'}) {
      assert s[i] == if s[0] in {'+', '-'} && i > 0 then digits[i - 1] else s[i];
    }
  }

  /** A limit keeps its low 32 bits, and is kept exactly if it has no more. */
  lemma ToInt32Exactly(n: int)
    ensures -0x8000_0000 <= ToInt32(n) < 0x8000_0000 && (n - ToInt32(n)) % 0x1_0000_0000 == 0
    ensures ToInt32(n) == n <==> -0x8000_0000 <= n < 0x8000_0000
  {
  }

  predicate BothSynonyms(ops: Ops) {
    || (Get(ops, "file") != "" && Get(ops, "path") != "")
    || (Get(ops, "-file") != "" && Get(ops, "-path") != "")
  }

  /** More than one pattern, both of two synonyms, or a limit that is no number. */
  predicate Refused(ops: Ops, globalRegex: bool, quote: Quote) {
    || Several(ops, globalRegex, quote) || BothSynonyms(ops)
    || (Get(ops, "max_matches") != "" && Atoi(Get(ops, "max_matches")).None?)
  }

  lemma BitsAre(ops: Ops, globalRegex: bool, quote: Quote)
    ensures var bits := Bits(ops, globalRegex, quote);
      && (|bits| > 1 <==> Several(ops, globalRegex, quote))
      && (|bits| == 0 ==> Pattern(ops, globalRegex, quote) == "")
      && (|bits| == 1 ==> Pattern(ops, globalRegex, quote) == bits[0])
  {
    hide Trim, Get;
  }

  lemma SynonymIs(ops: Ops, a: string, b: string)
    ensures var r := OnlyOneSynonym(ops, a, b);
      if r.Err? then r.error == Synonyms && Get(ops, a) != "" && Get(ops, b) != ""
      else (Get(ops, a) == "" || Get(ops, b) == "") && r.value == Get(ops, a) + Get(ops, b)
  {
    hide Get;
  }

  /** Without a pattern the file's name is searched for, or else the tree's. */
  lemma MeansIs(q: Query, ops: Ops, globalRegex: bool, quote: Quote)
    requires var line := Pattern(ops, globalRegex, quote); var f := Quoted(Get(ops, "file") + Get(ops, "path"), globalRegex, quote);
      var re := Quoted(Get(ops, "repo"), globalRegex, quote);
      && q.filenameOnly == (line == "" && f != "") && q.treenameOnly == (line == "" && f == "" && re != "")
      && q.line == (if q.filenameOnly then f else if q.treenameOnly then re else line)
      && q.file == (if q.filenameOnly then "" else f) && q.repo == (if q.treenameOnly then "" else re)
    ensures Means(q, ops, globalRegex, quote)
  {
    hide Pattern, Get;
  }

  lemma ExcludesIs(q: Query, ops: Ops, globalRegex: bool, quote: Quote)
    requires q.notFile == Quoted(Get(ops, "-file") + Get(ops, "-path"), globalRegex, quote)
    requires q.notRepo == Quoted(Get(ops, "-repo"), globalRegex, quote)
    requires q.tags == Get(ops, "tags") && q.notTags == Get(ops, "-tags")
    ensures Excludes(q, ops, globalRegex, quote)
  {
    hide Get;
  }

  lemma FoldsIs(q: Query, ops: Ops)
    requires q.foldCase == if "case" in ops || "lit" in ops then false else NoCapital(q.line)
    ensures Folds(q, ops)
  {
  }

  /** The rest of `ParseQuery`. */
  method Finish(ops: Ops, globalRegex: bool, quote: Quote) returns (r: Result<Query>)
    ensures r.Err? <==> Refused(ops, globalRegex, quote)
    ensures r == Err(Synonyms) <==> BothSynonyms(ops)
    ensures r == Err(SeveralPatterns) <==> !BothSynonyms(ops) && Several(ops, globalRegex, quote)
    ensures r.Ok? ==> Means(r.value, ops, globalRegex, quote) && Excludes(r.value, ops, globalRegex, quote)
    ensures r.Ok? ==>
      r.value.maxMatches == if Get(ops, "max_matches") == "" then 0 else ToInt32(Atoi(Get(ops, "max_matches")).value)
    ensures r.Ok? ==> Folds(r.value, ops)
  {
    hide Bits, Pattern, Several, Atoi, ToInt32, OnlyOneSynonym, Get, Means, Excludes, Folds;
    SynonymIs(ops, "file", "path");
    SynonymIs(ops, "-file", "-path");
    BitsAre(ops, globalRegex, quote);
    var file := OnlyOneSynonym(ops, "file", "path");
    if file.Err? {
      return Err(file.error);
    }
    var notFile := OnlyOneSynonym(ops, "-file", "-path");
    if notFile.Err? {
      return Err(notFile.error);
    }
    var bits := Bits(ops, globalRegex, quote);
    if |bits| > 1 {
      return Err(SeveralPatterns);
    }
    var line := if |bits| > 0 then bits[0] else "";
    var f, nf, re, nre := file.value, notFile.value, Get(ops, "repo"), Get(ops, "-repo");
    if !globalRegex {
      f, nf, re, nre := quote(f), quote(nf), quote(re), quote(nre);
    }
    var filenameOnly, treenameOnly := false, false;
    if line == "" && f != "" {
      line, f, filenameOnly := f, "", true;
    } else if line == "" && re != "" {
      line, re, treenameOnly := re, "", true;
    }
    var fold := if "case" in ops || "lit" in ops then false else NoCapital(line);
    var limit := 0;
    if Get(ops, "max_matches") != "" {
      var i := Atoi(Get(ops, "max_matches"));
      if i.None? {
        return Err(NotANumber);
      }
      limit := ToInt32(i.value);
    }
    r := Ok(Query(line, f, nf, re, nre, Get(ops, "tags"), Get(ops, "-tags"), filenameOnly, treenameOnly, fold, limit));
    MeansIs(r.value, ops, globalRegex, quote);
    ExcludesIs(r.value, ops, globalRegex, quote);
    FoldsIs(r.value, ops);
  }

  // ----- Text without operators stays what it is -----

  /** A known tag of `n` characters stands at `i`, with its colon. */
  predicate TagAt(s: string, i: nat, n: nat) {
    i + n < |s| && s[i + n] == ':' && KnownTag(s[i..i + n])
  }

  /** The parser looks for an operator at the start, and after anything that is no part of a key. */
  predicate EndsPiece(s: string) {
    s == "" || !KeyChar(s[|s| - 1]) || (|s| >= 2 && s[|s| - 2] == '\\')
  }

  /** No known tag stands where the parser may look for one. */
  ghost predicate NoTag(s: string) {
    forall i: nat, n: nat :: TagAt(s, i, n) ==> !EndsPiece(s[..i])
  }

  /** The state before any operator: everything read is in the term. */
  ghost predicate Plain(s: State, text: string) {
    s.key == "" && s.term + s.q == text && s.ops == map[] && (EndsPiece(s.term) || s.q == "")
  }

  /** No operator starts here. */
  predicate NoOperator(q: string) {
    StartsWithKey(q) ==> !KnownTag(q[..KeyLength(q)])
  }

  /** What an operator's piece is, and what other pieces are. */
  lemma PieceIs(q: string, piece: Piece)
    requires NextPiece(q) == Some(piece)
    ensures if StartsWithKey(q) then piece == Piece(0, KeyLength(q) + 1) && q[0] !in {' ', '(', '[', '\\'}
      else q[piece.start] in {' ', '(', '[', '\\'} && piece.end == piece.start + if q[piece.start] == '\\' then 2 else 1
  {
    hide FirstSpecial, KnownTag;
  }

  lemma GroupKeepsText(s: State, term: string, m: string, q: string, space: bool)
    requires m == "(" || m == "["
    ensures var r := StepGroup(s, term, m, q, space);
      r.key == s.key && r.ops == s.ops && r.term + r.q == term + m + q && (EndsPiece(r.term) || r.q == "")
  {
    var close := if m == "(" then ')' else ']';
    var i := Balance(q, 0, 1, false, m[0], close);
    BalanceEnds(q, 0, 1, false, m[0], close);
    BracketEnds(term, m);
    hide Balance;
    GroupEnds(term + m, q, i, close);
  }

  lemma BracketEnds(term: string, m: string)
    requires m != "" && !KeyChar(m[|m| - 1])
    ensures EndsPiece(term + m)
  {
    assert (term + m)[|term + m| - 1] == m[|m| - 1];
  }

  lemma GroupEnds(t: string, q: string, i: nat, close: char)
    requires i <= |q| && !KeyChar(close) && (i < |q| ==> 0 < i && q[i - 1] == close)
    ensures t + q[..i] + q[i..] == t + q && (EndsPiece(t + q[..i]) || q[i..] == "")
  {
    assert q == q[..i] + q[i..];
    if i < |q| {
      assert q[..i][|q[..i]| - 1] == close;
      BracketEnds(t, q[..i]);
    }
  }

  /** A balanced group ends with its bracket. */
  lemma {:induction false} BalanceEnds(q: string, i: nat, p: int, esc: bool, open: char, close: char)
    requires i <= |q| && p > 0 && open != close
    ensures var r := Balance(q, i, p, esc, open, close); r < |q| ==> i < r && q[r - 1] == close
    decreases |q| - i
  {
    if i < |q| {
      var p' := if esc then p else if q[i] == '\\' then p else if q[i] == open then p + 1 else if q[i] == close then p - 1 else p;
      if p' != 0 {
        BalanceEnds(q, i + 1, p', !esc && q[i] == '\\', open, close);
      }
    }
  }

  lemma OutsideOperator(s: State, term: string, newKey: string, q: string, globalRegex: bool)
    requires s.key == ""
    ensures StepSpace(s, term, q, globalRegex) == Ok(State("", term + " ", q, s.inRegex, true, s.ops))
    ensures !KnownTag(newKey) ==> StepKey(s, term, newKey, q) == Ok(State("", term + newKey + ":", q, s.inRegex, false, s.ops))
  {
  }

  /** A piece of syntax: an operator that is not known, or a bracket, a space or an escape. */
  predicate PlainPiece(m: string) {
    && m != ""
    && if m[0] in {'(', '[', ' '} then |m| == 1
       else if m[0] == '\\' then |m| == 2
       else m[|m| - 1] == ':' && !KnownTag(m[..|m| - 1])
  }

  /** What a piece outside an operator leaves: all the text, and no open operator. */
  predicate KeepsText(r: Result<State>, s: State, text: string) {
    && r.Ok? && r.value.key == "" && r.value.ops == s.ops && r.value.term + r.value.q == text
    && (EndsPiece(r.value.term) || r.value.q == "")
  }

  lemma ConsumeKeepsText(s: State, term: string, m: string, q: string, space: bool, globalRegex: bool)
    requires s.key == "" && PlainPiece(m)
    ensures KeepsText(Consume(s, term, m, q, space, globalRegex), s, term + m + q)
  {
    hide KnownTag, StepGroup, StepKey, StepSpace, EndsPiece;
    OutsideOperator(s, term, m[..|m| - 1], q, globalRegex);
    if m == "(" || m == "[" {
      GroupKeepsText(s, term, m, q, space);
    } else if m[0] == '\\' {
      EscapeEnds(term, m);
    } else {
      BracketEnds(term, m);
      hide KeyChar;
      assert m != " " ==> term + m == term + m[..|m| - 1] + ":";
    }
  }

  lemma EscapeEnds(term: string, m: string)
    requires |m| == 2 && m[0] == '\\'
    ensures EndsPiece(term + m)
  {
    assert (term + m)[|term + m| - 2] == m[0];
  }

  lemma PieceIsPlain(q: string, piece: Piece)
    requires NoOperator(q) && NextPiece(q) == Some(piece)
    ensures PlainPiece(q[piece.start..piece.end])
  {
    PieceIs(q, piece);
    hide KnownTag, NextPiece, KeyLength;
    var m := q[piece.start..piece.end];
    assert m[0] == q[piece.start];
    if StartsWithKey(q) {
      assert m[..|m| - 1] == q[..KeyLength(q)];
    }
  }

  /** Outside an operator, a piece moves text from what remains to the term. */
  lemma StepKeepsText(s: State, piece: Piece, globalRegex: bool)
    requires s.key == "" && NoOperator(s.q) && NextPiece(s.q) == Some(piece)
    ensures KeepsText(Step(s, piece, globalRegex), s, s.term + s.q)
  {
    hide NextPiece, Consume, PlainPiece, NoOperator, KeepsText;
    PieceIsPlain(s.q, piece);
    var term, m, q := s.term + s.q[..piece.start], s.q[piece.start..piece.end], s.q[piece.end..];
    assert s.term + s.q == term + m + q;
    ConsumeKeepsText(s, term, m, q, s.justGotSpace && piece.start == 0, globalRegex);
  }

  lemma NoTagNoOperator(term: string, q: string)
    requires NoTag(term + q) && (EndsPiece(term) || q == "")
    ensures NoOperator(q)
  {
    hide KnownTag;
    if StartsWithKey(q) {
      var text, n := term + q, KeyLength(q);
      assert text[..|term|] == term;
      assert !TagAt(text, |term|, n);
      assert text[|term|..|term| + n] == q[..n] && text[|term| + n] == q[n];
    }
  }

  lemma PlainStep(s: State, text: string, piece: Piece, globalRegex: bool)
    requires Plain(s, text) && NoTag(text) && NextPiece(s.q) == Some(piece)
    ensures Step(s, piece, globalRegex).Ok? && Plain(Step(s, piece, globalRegex).value, text)
  {
    hide NoOperator, NoTag, Step, NextPiece, EndsPiece;
    NoTagNoOperator(s.term, s.q);
    StepKeepsText(s, piece, globalRegex);
  }

  lemma {:induction false} PlainRun(s: State, text: string, globalRegex: bool)
    requires Plain(s, text) && NoTag(text)
    ensures Run(s, globalRegex) == Ok(map["" := text])
    decreases |s.q|
  {
    var piece := NextPiece(s.q);
    if piece.Some? {
      PlainStep(s, text, piece.value, globalRegex);
      PlainRun(Step(s, piece.value, globalRegex).value, text, globalRegex);
    }
  }

  /** `ParseQuery`: in regular-expression mode, text without an operator is the line to search for. */
  method ParseQuery(query: string, globalRegex: bool, quote: Quote) returns (r: Result<Query>)
    requires quote("") == ""
    ensures NoTag(Trim(query)) ==> r.Ok? && SearchesLine(r.value, Quoted(Trim(query), globalRegex, quote))
    ensures var ops := Run(Start(query, globalRegex), globalRegex);
      && (r.Err? <==> ops.Err? || Refused(ops.value, globalRegex, quote))
      && (r.Ok? ==> Means(r.value, ops.value, globalRegex, quote) && Excludes(r.value, ops.value, globalRegex, quote))
  {
    hide Run, Start, Trim, NoTag, Refused, Pattern, Means, Excludes;
    var ops := ParseOps(query, globalRegex);
    if NoTag(Trim(query)) {
      PlainQuery(query, globalRegex);
      OnlyMain(Trim(query), globalRegex, quote);
    }
    if ops.Err? {
      return Err(ops.error);
    }
    r := Finish(ops.value, globalRegex, quote);
    if NoTag(Trim(query)) {
      MeansLine(r.value, Trim(query), globalRegex, quote);
    }
  }

  /** The query searches for this line, and nothing else. */
  predicate SearchesLine(q: Query, line: string) {
    q.line == line && !q.filenameOnly && !q.treenameOnly && q.file == "" && q.repo == ""
  }

  lemma PlainQuery(query: string, globalRegex: bool)
    requires NoTag(Trim(query))
    ensures Run(Start(query, globalRegex), globalRegex) == Ok(map["" := Trim(query)]) && Trim(Trim(query)) == Trim(query)
  {
    PlainRun(Start(query, globalRegex), Trim(query), globalRegex);
    TrimTrims(query);
    TrimmedStays(Trim(query));
  }

  lemma OnlyMain(main: string, globalRegex: bool, quote: Quote)
    requires quote("") == "" && Trim(main) == main
    ensures var ops: Ops := map["" := main];
      !Refused(ops, globalRegex, quote) && Pattern(ops, globalRegex, quote) == Quoted(main, globalRegex, quote)
  {
    assert Trim("") == "";
    hide Trim;
  }

  lemma MeansLine(q: Query, main: string, globalRegex: bool, quote: Quote)
    requires quote("") == "" && Trim(main) == main && Means(q, map["" := main], globalRegex, quote)
    ensures SearchesLine(q, Quoted(main, globalRegex, quote))
  {
    OnlyMain(main, globalRegex, quote);
    hide Pattern, Trim;
    assert "" + "" == "";
  }
}
