/** Optional values, and the `a || fallback` idiom the screens use to pick an error text. */
module Options {

  /** A value that may be absent (`undefined`/`null` in the screens). */
  datatype Option<+T> = None | Some(value: T)

  /** JavaScript `m || fallback` on a possibly absent string: an absent or empty
      message is falsy, so the fallback is used instead. */
  function OrElse(m: Option<string>, fallback: string): (r: string)
    ensures r == fallback || (m.Some? && r == m.value)
    ensures m.Some? && m.value != "" ==> r == m.value
    ensures fallback != "" ==> r != ""
  {
    if m.Some? && m.value != "" then m.value else fallback
  }
}
