/** Small types shared by the models. */
module Common {

  datatype Option<+T> = None | Some(value: T)

  datatype Result<+T> = Ok(value: T) | Err(error: string) {
    predicate IsFailure() {
      Err?
    }

    function PropagateFailure<U>(): Result<U>
      requires Err?
    {
      Err(error)
    }

    function Extract(): T
      requires Ok?
    {
      value
    }
  }

  /** The largest integer carried on the wire: section 2.2 of RFC 7493. */
  const MAX_WIRE_INTEGER: nat := 0x1F_FFFF_FFFF_FFFF

  predicate WireInteger(n: nat) {
    n <= MAX_WIRE_INTEGER
  }

  const U64_MAX: nat := 0xFFFF_FFFF_FFFF_FFFF

  const I64_MAX: nat := 0x7FFF_FFFF_FFFF_FFFF

  /** The Unicode White_Space characters, which Rust's `trim` removes. */
  predicate IsWhitespace(c: char) {
    || '\U{0009}' <= c <= '\U{000D}'
    || c == '\U{0020}'
    || c == '\U{0085}'
    || c == '\U{00A0}'
    || c == '\U{1680}'
    || '\U{2000}' <= c <= '\U{200A}'
    || c == '\U{2028}'
    || c == '\U{2029}'
    || c == '\U{202F}'
    || c == '\U{205F}'
    || c == '\U{3000}'
  }

  /** `s.trim().is_empty()` is false. */
  predicate NonBlank(s: string) {
    exists i :: 0 <= i < |s| && !IsWhitespace(s[i])
  }

  /** A lowercase hexadecimal SHA-256 digest. */
  predicate IsSha256(s: string) {
    && |s| == 64
    && forall i :: 0 <= i < |s| ==> '0' <= s[i] <= '9' || 'a' <= s[i] <= 'f'
  }
}
