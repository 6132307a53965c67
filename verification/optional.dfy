/** The absent-or-present value used wherever the system reads a field that may be
    `undefined`/`null`, or looks up a record that may not exist. */
module Optional {

  datatype Option<+T> = None | Some(value: T)

  /** JavaScript truthiness of a string that may be absent: `undefined`, `null`
      and the empty string are all falsy. */
  predicate Truthy(f: Option<string>) {
    f.Some? && f.value != ""
  }

  /** A decimal digit character. */
  predicate IsDigit(c: char) {
    '0' <= c <= '9'
  }
}
