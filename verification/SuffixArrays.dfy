/** Suffix arrays of newline-terminated data, with the newline sorting below every other byte. */
module SuffixArrays {
  import opened Bytes

  predicate LexLe(s: seq<Byte>, t: seq<Byte>) {
    s == [] || (t != [] && (s[0] < t[0] || (s[0] == t[0] && LexLe(s[1..], t[1..]))))
  }

  /** What the suffix sorter returns: every offset once, in lexical order of the suffixes. */
  ghost predicate IsSuffixArray(data: seq<Byte>, suffixes: seq<nat>) {
    && |suffixes| == |data|
    && (forall i | 0 <= i < |suffixes| :: suffixes[i] < |data|)
    && (forall i, j | 0 <= i < j < |suffixes| :: suffixes[i] != suffixes[j])
    && (forall p: nat | p < |data| :: p in suffixes)
    && (forall i, j | 0 <= i < j < |suffixes| :: LexLe(data[suffixes[i]..], data[suffixes[j]..]))
  }

  function Replace(data: seq<Byte>, from: Byte, to: Byte): (r: seq<Byte>)
    ensures |r| == |data|
    ensures forall i | 0 <= i < |data| :: r[i] == if data[i] == from then to else data[i]
  {
    seq(|data|, i requires 0 <= i < |data| => if data[i] == from then to else data[i])
  }

  /** The data of a chunk once its newlines have been made the lowest byte. */
  function Munged(data: seq<Byte>): seq<Byte> {
    Replace(data, NEWLINE, 0)
  }

  /** Putting the newlines back restores exactly the data without NUL bytes. */
  lemma MungeRestores(data: seq<Byte>)
    ensures Replace(Munged(data), 0, NEWLINE) == data <==> 0 !in data
  {
    var r := Replace(Munged(data), 0, NEWLINE);
    assert forall i | 0 <= i < |data| && data[i] == 0 :: r[i] != data[i];
  }

  /** Below the shared first bytes, the next byte is in order. */
  lemma {:induction false} LexAt(s: seq<Byte>, t: seq<Byte>, d: nat)
    requires LexLe(s, t) && d < |s| && d < |t| && s[..d] == t[..d]
    ensures s[d] <= t[d]
  {
    if d > 0 {
      assert s[0] == s[..d][0] == t[..d][0] == t[0];
      assert s[1..][..d - 1] == s[..d][1..] && t[1..][..d - 1] == t[..d][1..];
      LexAt(s[1..], t[1..], d - 1);
    }
  }
}
