/** Optional values, results and bytes: the source's `Option`, `Result` and `u8`. */
module Outcomes {

  type Byte = b: int | 0 <= b < 256

  datatype Option<+T> = None | Some(value: T)

  datatype Result<+T, +E> = Ok(value: T) | Err(error: E)

  /** Unicode White_Space, the class `str::trim` strips. */
  predicate IsWhite(c: char) {
    || '\t' <= c <= '\r' || c == ' ' || c == '\U{85}' || c == '\U{A0}' || c == '\U{1680}'
    || '\U{2000}' <= c <= '\U{200A}' || c == '\U{2028}' || c == '\U{2029}' || c == '\U{202F}'
    || c == '\U{205F}' || c == '\U{3000}'
  }

  /** `s.trim().is_empty()`: nothing but white space. */
  predicate Blank(s: string) {
    forall i | 0 <= i < |s| :: IsWhite(s[i])
  }
}
