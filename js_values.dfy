/** The few JavaScript value semantics the application relies on. */
module JsValues {

  datatype Option<+T> = None | Some(value: T) {
    function GetOr(default: T): T {
      match this
      case Some(v) => v
      case None => default
    }
  }

  /** A value as a schema sees it: `undefined`, `null`, a string, or any
      other value, named by its `typeof`-style type name (a `File`, a number). */
  datatype JsValue = Undefined | Null | JsString(s: string) | JsOther(typeName: string)

  /** JavaScript truthiness of a possibly missing string: present and non-empty. */
  predicate Truthy(o: Option<string>) {
    o.Some? && o.value != ""
  }

  /** `a || b` on a possibly missing string with a string fallback. */
  function OrElse(a: Option<string>, b: string): (r: string)
    ensures Truthy(a) ==> r == a.value
    ensures !Truthy(a) ==> r == b
  {
    if Truthy(a) then a.value else b
  }
}
