/** Bytes, byte strings and the byte-wise order Go gives its strings. */
module Bytes {

  type byte = x: int | 0 <= x < 256

  type Str = seq<byte>

  datatype Option<+T> = None | Some(value: T)

  /** Go's `a < b` on strings: lexicographic by byte value. */
  predicate LexLess(a: Str, b: Str)
  {
    b != [] && (a == [] || a[0] < b[0] || (a[0] == b[0] && LexLess(a[1..], b[1..])))
  }

  lemma {:induction false} LexTrichotomy(a: Str, b: Str)
    ensures LexLess(a, b) || a == b || LexLess(b, a)
    ensures !(LexLess(a, b) && LexLess(b, a))
    ensures a == b ==> !LexLess(a, b)
  {
    if a != [] && b != [] && a[0] == b[0] {
      LexTrichotomy(a[1..], b[1..]);
      assert a == [a[0]] + a[1..] && b == [b[0]] + b[1..];
    }
  }
}
