/** Values shared by every part of the model: optional values and the
    JavaScript notion of a "truthy" string, which the source uses for all of
    its presence checks (`!field`, `a || b`). */
module Base {

  /** A value that may be missing (`undefined` or `null` in the source). */
  datatype Option<T> = None | Some(value: T)

  /** A string field is truthy in JavaScript when it is present and not empty. */
  predicate Truthy(o: Option<string>) {
    o.Some? && o.value != ""
  }

  /** JavaScript `o || fallback` for an optional string. */
  function Or(o: Option<string>, fallback: string): (r: string)
    ensures Truthy(o) ==> r == o.value
    ensures !Truthy(o) ==> r == fallback
    ensures r == fallback || (r != "" && o == Some(r))
  {
    if Truthy(o) then o.value else fallback
  }

  /** JavaScript `a || b || fallback` for two optional strings. */
  function Or2(a: Option<string>, b: Option<string>, fallback: string): (r: string)
    ensures Truthy(a) ==> r == a.value
    ensures !Truthy(a) && Truthy(b) ==> r == b.value
    ensures !Truthy(a) && !Truthy(b) ==> r == fallback
  {
    if Truthy(a) then a.value else Or(b, fallback)
  }
}
