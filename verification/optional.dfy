/** The optional values of the model: a JavaScript value that may be
    `undefined`, `null` or absent. */
module Optional {

  datatype Option<T> = None | Some(value: T)

  /** JavaScript's `v || fallback` on a string that may be missing: the
      empty string is falsy, so it falls back too. */
  function OrElse(v: Option<string>, fallback: string): (r: string)
    ensures v.Some? && v.value != [] ==> r == v.value
    ensures (v.None? || v.value == []) ==> r == fallback
  {
    if v.Some? && v.value != [] then v.value else fallback
  }
}
