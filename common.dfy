/** Small shared vocabulary: a nullable value. A C++ pointer that may be
    null (a `const char*` argument, a `MYSQL*` handle) is an `Option`. */
module Common {

  datatype Option<+T> = None | Some(value: T)

  /** The NUL character that terminates C strings. */
  const NUL: char := 0 as char

  /** Every character of `s` is NUL (the state `bzero` leaves behind). */
  predicate AllNul(s: seq<char>)
  {
    forall i :: 0 <= i < |s| ==> s[i] == NUL
  }
}
