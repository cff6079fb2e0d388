/** Small value types shared by the whole model. */
module Types {

  /** A value that may be missing: `undefined` in `page.tsx`. */
  datatype Option<+T> = None | Some(value: T)

  /** An unsigned 8-bit value, one cell of an `ArrayBuffer`. */
  newtype byte = x: int | 0 <= x < 256

  /** The contents of an `ArrayBuffer` or a `Blob`. */
  type Bytes = seq<byte>

  /** Concatenation regroups freely. */
  lemma ConcatAssoc<T>(x: seq<T>, y: seq<T>, z: seq<T>)
    ensures x + (y + z) == x + y + z
  {
  }

  /** Multiplying by the same non-negative factor keeps the order. */
  lemma MulMonotone(a: int, b: int, m: nat)
    requires a <= b
    ensures a * m <= b * m
  {
  }
}
