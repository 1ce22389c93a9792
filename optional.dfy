/** Absent-or-present values: Python's `None`, a missing dictionary key, a
    missing JSON field. */
module Optional {

  datatype Option<+T> = None | Some(value: T)

  /** Python's `s or fallback` and JavaScript's `s || fallback` on a string
      that may be absent: the empty string and the absent value are falsy. */
  function OrElse(s: Option<string>, fallback: string): string
  {
    if s.Some? && s.value != "" then s.value else fallback
  }

  /** Truthiness of a string that may be absent. */
  predicate Truthy(s: Option<string>)
  {
    s.Some? && s.value != ""
  }
}
