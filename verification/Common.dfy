/** Shared by the other modules. */
module Common {
  datatype Option<+T> = None | Some(value: T)

  /** `isspace` of stdlib.c: a space or a tab. */
  predicate Blank(c: char) { c == ' ' || c == '\t' }

  lemma Associative<T>(a: seq<T>, b: seq<T>, c: seq<T>)
    ensures a + b + c == a + (b + c)
  {
  }

  type Byte = x: int | 0 <= x < 256

  const TWO_32: int := 0x1_0000_0000
}
