/** Shared building blocks: the optional value that stands in for a nullable
    Java reference, and Java's 32-bit `int`. */
module Base {

  /** An optional value; `None` plays the part of a Java field left null. */
  datatype Option<+T> = None | Some(value: T)

  /** Java's `int`. Ids are only stored and compared, never computed with,
      so no wrap-around is needed. */
  newtype Int32 = x: int | -0x8000_0000 <= x < 0x8000_0000
}
