/** The few JavaScript values and operators the issue-entry screen relies on:
    nullable strings from storage, `undefined` from an absent property,
    the `||` fallback and object spread. */
module JsValues {

  /** A value that may be missing: `null` read from storage, or a property
      absent from a JSON body. */
  datatype Option<+T> = None | Some(value: T)

  /** A property value of the screen's form object. Typed text and the
      fixed menu literals are strings; reading a label from the empty
      translation table yields `undefined`. */
  datatype Value = Str(text: string) | Undefined

  /** JavaScript truthiness of a string-or-null: `null` and `''` are falsy. */
  predicate Truthy(a: Option<string>) {
    a.Some? && a.value != ""
  }

  /** `a || fallback` for a string-or-null `a`. */
  function OrElse(a: Option<string>, fallback: string): (r: string)
    ensures Truthy(a) ==> a == Some(r)
    ensures !Truthy(a) ==> r == fallback
  {
    if Truthy(a) then a.value else fallback
  }

  /** Object spread `{...a, ...b}` on plain objects: every property of `b`,
      and every property of `a` that `b` does not redefine. */
  function Spread(a: map<string, Value>, b: map<string, Value>): (r: map<string, Value>)
    ensures r.Keys == a.Keys + b.Keys
    ensures forall k :: k in b ==> r[k] == b[k]
    ensures forall k :: k in a && k !in b ==> r[k] == a[k]
  {
    a + b
  }
}
