/** JavaScript truthiness of the optional fields the source tests with
    `if (x)` or `x || default`: an absent value, the empty string and the
    number 0 are falsy. */
module Truthy {
  import opened Wrappers

  predicate Text(s: Option<string>) {
    s.Some? && s.value != ""
  }

  predicate Number(n: Option<int>) {
    n.Some? && n.value != 0
  }

  /** `s || null`: a falsy string becomes absent. */
  function TextOrNull(s: Option<string>): (r: Option<string>)
    ensures Text(s) ==> r == s
    ensures !Text(s) ==> r.None?
  {
    if Text(s) then s else None
  }
}
