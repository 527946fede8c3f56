/** Bytes, text as the bytes it is stored in, and the newline that separates indexed lines. */
module Bytes {

  type Byte = b: int | 0 <= b < 256

  type Text = seq<Byte>

  const NEWLINE: Byte := 10

  /** Classes of more runes, and merged nodes of as many edges, are given up by the planner. */
  const kMaxWidth := 32
}
