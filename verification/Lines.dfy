/** Lines of a chunk's text, and what it means for a pattern to match one. */
module Lines {
  import opened Bytes

  /** Text made of lines, each ended by a newline. */
  predicate Terminated(data: Text) {
    data != [] ==> data[|data| - 1] == NEWLINE
  }

  predicate NoNewline(data: Text, a: int, b: int)
    requires 0 <= a <= b <= |data|
  {
    forall k | a <= k < b :: data[k] != NEWLINE
  }

  /** The bytes `a..b` are a line of the text: `a` starts it and `b` is its newline. */
  predicate IsLine(data: Text, a: int, b: int) {
    && 0 <= a <= b < |data|
    && (a == 0 || data[a - 1] == NEWLINE)
    && data[b] == NEWLINE
    && NoNewline(data, a, b)
  }

  /** The start of the line that position `p` belongs to; a newline belongs to the line it ends. */
  function LineStart(data: Text, p: nat): (a: nat)
    requires p <= |data|
    ensures a <= p && (a == 0 || data[a - 1] == NEWLINE) && NoNewline(data, a, p)
  {
    if p == 0 || data[p - 1] == NEWLINE then p
    else
      LineStart(data, p - 1)
  }

  /** The first newline at or after `p`, or the end of the text. */
  function LineEnd(data: Text, p: nat): (b: nat)
    requires p <= |data|
    ensures p <= b <= |data| && (b == |data| || data[b] == NEWLINE) && NoNewline(data, p, b)
    decreases |data| - p
  {
    if p == |data| || data[p] == NEWLINE then p
    else
      LineEnd(data, p + 1)
  }

  lemma EndsAtNewline(data: Text, p: nat)
    requires Terminated(data) && p < |data|
    ensures LineEnd(data, p) < |data|
  {
  }

  /** The line around a position is a line. */
  lemma LineAround(data: Text, p: nat)
    requires Terminated(data) && p < |data|
    ensures IsLine(data, LineStart(data, p), LineEnd(data, p))
  {
    EndsAtNewline(data, p);
  }

  /** A line is determined by any position in it, its newline included. */
  lemma LineUnique(data: Text, a: nat, b: nat, p: nat)
    requires IsLine(data, a, b) && a <= p <= b
    ensures LineStart(data, p) == a && LineEnd(data, p) == b
  {
  }

  /** Lines do not overlap: the one that starts later starts after the other's newline. */
  lemma LinesApart(data: Text, a: nat, b: nat, c: nat, d: nat)
    requires IsLine(data, a, b) && IsLine(data, c, d) && a < c
    ensures b < c
  {
    if c <= b {
      LineUnique(data, a, b, c);
    }
  }

  /**
   * A compiled pattern, seen as an oracle: does it match bytes `i..j` of this
   * line? It never crosses a newline and sees nothing beyond the line.
   */
  type Pattern = (Text, nat, nat) -> bool

  ghost predicate LineMatches(m: Pattern, line: Text) {
    exists i: nat, j: nat :: i <= j <= |line| && m(line, i, j)
  }

  /** The pattern matches no empty text. */
  ghost predicate NeverEmpty(m: Pattern) {
    forall line: Text, i: nat | i <= |line| :: !m(line, i, i)
  }

  /** The pattern matches `s..e` of the text, as part of the line it lies in. */
  predicate MatchesAt(m: Pattern, data: Text, s: nat, e: nat) {
    && s <= e <= |data| && NoNewline(data, s, e)
    && var a := LineStart(data, s); m(data[a..LineEnd(data, s)], s - a, e - a)
  }

  /** Somewhere in `pos..limit` the pattern matches. */
  ghost predicate MatchesWithin(m: Pattern, data: Text, pos: nat, limit: nat) {
    exists s: nat, e: nat :: pos <= s <= e <= limit && MatchesAt(m, data, s, e)
  }

  lemma MatchIsInLine(m: Pattern, data: Text, s: nat, e: nat)
    requires Terminated(data) && s < |data| && MatchesAt(m, data, s, e)
    ensures var a, b := LineStart(data, s), LineEnd(data, s);
      IsLine(data, a, b) && e <= b && LineMatches(m, data[a..b])
  {
    LineAround(data, s);
    var a, b := LineStart(data, s), LineEnd(data, s);
    assert m(data[a..b], s - a, e - a);
  }

  lemma LineMatchIsWithin(m: Pattern, data: Text, a: nat, b: nat) returns (s: nat, e: nat)
    requires IsLine(data, a, b) && LineMatches(m, data[a..b])
    ensures a <= s <= e <= b && MatchesAt(m, data, s, e)
  {
    var i: nat, j: nat :| i <= j <= |data[a..b]| && m(data[a..b], i, j);
    s, e := a + i, a + j;
    LineUnique(data, a, b, s);
  }

  /** The search engine's call: the leftmost match that starts at or after `pos` and ends by `limit`. */
  method FirstMatch(m: Pattern, data: Text, pos: nat, limit: nat) returns (found: bool, s: nat, e: nat)
    requires pos <= limit <= |data|
    ensures found ==> pos <= s <= e <= limit && MatchesAt(m, data, s, e)
    ensures found ==> forall s', e' | pos <= s' < s && s' <= e' <= limit :: !MatchesAt(m, data, s', e')
    ensures !found ==> !MatchesWithin(m, data, pos, limit)
  {
    s, e := pos, pos;
    while s <= limit
      invariant pos <= s <= limit + 1
      invariant forall s', e' | pos <= s' < s && s' <= e' <= limit :: !MatchesAt(m, data, s', e')
    {
      if exists e' :: s <= e' <= limit && MatchesAt(m, data, s, e') {
        e :| s <= e <= limit && MatchesAt(m, data, s, e);
        return true, s, e;
      }
      s := s + 1;
    }
    found := false;
  }
}
