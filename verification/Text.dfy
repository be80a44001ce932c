module Text {

  newtype Byte = x: int | 0 <= x < 256

  /** Lower case, for ASCII letters. */
  function LowerChar(c: char): char {
    if 'A' <= c <= 'Z' then c - 'A' + 'a' else c
  }
}
