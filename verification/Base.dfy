/** Small value types shared by every part of the model: optional values,
    results of calls that can fail, bytes, and the JavaScript string tests
    the handlers and stores rely on. */
module Base {

  /** A value that may be absent (`null`/`undefined` in the original). */
  datatype Option<+T> = None | Some(value: T)

  /** The outcome of a call that can fail with a message (a rejected
      promise, a thrown `Error`). */
  datatype Result<+T> = Ok(value: T) | Err(message: string)

  /** An unsigned 8-bit value, as held by a `Uint8Array`. */
  newtype byte = b: int | 0 <= b < 256

  /** `s.startsWith(prefix)` */
  predicate StartsWith(s: string, prefix: string) {
    |prefix| <= |s| && s[..|prefix|] == prefix
  }

  /** `sub` occurs in `s` starting at position `i`. */
  predicate OccursAt(s: string, sub: string, i: int) {
    0 <= i <= |s| - |sub| && s[i..i + |sub|] == sub
  }

  /** JavaScript truthiness of an optional string: `null`, `undefined` and
      the empty string are falsy. */
  predicate Truthy(s: Option<string>) {
    s.Some? && s.value != ""
  }

  /** JavaScript truthiness of an optional boolean (`undefined` is falsy),
      i.e. the value of `b || false`. */
  predicate IsSet(b: Option<bool>) {
    b == Some(true)
  }

  /** No string starts with two prefixes of the same length that differ. */
  lemma PrefixesExclusive(s: string, p: string, q: string)
    requires |p| == |q| && p != q
    ensures !(StartsWith(s, p) && StartsWith(s, q))
  {
  }
}
