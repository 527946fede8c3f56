/** Code points and their encoding in one to four bytes (section 3 of RFC 3629). */
module Runes {
  import opened Bytes

  type Rune = r: int | 0 <= r <= 0x10FFFF

  function Encode(r: Rune): (s: seq<Byte>)
    ensures 1 <= |s| <= 4
  {
    if r < 0x80 then [r]
    else if r < 0x800 then [0xC0 + r / 0x40, 0x80 + r % 0x40]
    else if r < 0x10000 then [0xE0 + r / 0x1000, 0x80 + r / 0x40 % 0x40, 0x80 + r % 0x40]
    else [0xF0 + r / 0x40000, 0x80 + r / 0x1000 % 0x40, 0x80 + r / 0x40 % 0x40, 0x80 + r % 0x40]
  }

  /** A byte that goes on with an encoding, and the six bits in it. */
  predicate Continues(b: Byte) {
    128 <= b < 192
  }

  function Bits(b: Byte): int {
    b as int - 128
  }

  /** The code point these bytes stand for, by the number of bytes. */
  function Decode(s: seq<Byte>): int
    requires 1 <= |s| <= 4
  {
    if |s| == 1 then s[0]
    else if |s| == 2 then 64 * (s[0] as int - 192) + Bits(s[1])
    else if |s| == 3 then 4096 * (s[0] as int - 224) + 64 * Bits(s[1]) + Bits(s[2])
    else 262144 * (s[0] as int - 240) + 4096 * Bits(s[1]) + 64 * Bits(s[2]) + Bits(s[3])
  }

  /** The encoding in full: its length by the size of the code point, and the bits of its bytes. */
  lemma EncodeIs(r: Rune)
    ensures var s := Encode(r);
      && |s| == (if r < 128 then 1 else if r < 2048 then 2 else if r < 65536 then 3 else 4)
      && (forall i | 1 <= i < |s| :: Continues(s[i])) && Decode(s) == r
  {
    Shifts(r);
  }

  /** No encoding holds the byte 255, and only the newline's holds a newline. */
  lemma EncodeBytes(r: Rune)
    ensures forall i | 0 <= i < |Encode(r)| :: Encode(r)[i] < 255
    ensures r != NEWLINE ==> forall i | 0 <= i < |Encode(r)| :: Encode(r)[i] != NEWLINE
    ensures 0x80 <= r ==> |Encode(r)| >= 2 && forall i | 0 <= i < |Encode(r)| :: 0x80 <= Encode(r)[i]
  {
  }

  lemma EncodeLonger(a: Rune, b: Rune)
    requires a <= b
    ensures |Encode(a)| <= |Encode(b)|
  {
  }

  /** Equal except, possibly, in the last byte. */
  predicate SameButLast(s: seq<Byte>, t: seq<Byte>) {
    |s| == |t| && s != [] && s[..|s| - 1] == t[..|t| - 1]
  }

  /** A range whose ends differ in the last byte only is a range of last bytes. */
  lemma LastByteRange(a: Rune, b: Rune, r: Rune)
    requires a <= r <= b && SameButLast(Encode(a), Encode(b))
    ensures SameButLast(Encode(a), Encode(r))
    ensures var n := |Encode(a)| - 1; Encode(a)[n] <= Encode(r)[n] <= Encode(b)[n]
  {
    var s, t := Encode(a), Encode(b);
    EncodeLonger(a, r);
    EncodeLonger(r, b);
    if |s| > 1 {
      forall i | 0 <= i < |s| - 1
        ensures s[i] == t[i]
      {
        assert s[..|s| - 1][i] == t[..|t| - 1][i];
      }
      SameHighBits(a, b);
      assert a / 0x40 == r / 0x40;
      assert a / 0x1000 == r / 0x1000;
    }
  }

  lemma Shifts(x: Rune)
    ensures x / 0x1000 == x / 0x40 / 0x40 && x / 0x40000 == x / 0x1000 / 0x40
    ensures x / 0x40 == x / 0x1000 * 0x40 + x / 0x40 % 0x40
    ensures x / 0x1000 == x / 0x40000 * 0x40 + x / 0x1000 % 0x40
  {
  }

  lemma SameHighBits(a: Rune, b: Rune)
    requires 0x80 <= a <= b && |Encode(a)| == |Encode(b)|
    requires forall i | 0 <= i < |Encode(a)| - 1 :: Encode(a)[i] == Encode(b)[i]
    ensures a / 0x40 == b / 0x40 && a / 0x1000 == b / 0x1000
  {
    var s, t := Encode(a), Encode(b);
    assert s[0] == t[0];
    assert |s| > 2 ==> s[1] == t[1];
    assert |s| > 3 ==> s[2] == t[2];
    Shifts(a);
    Shifts(b);
    if |s| == 4 {
      assert a / 0x40000 == b / 0x40000;
    }
  }
}
