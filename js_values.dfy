/** Values of the JavaScript world that the React code relies on: optional
    properties, truthiness of strings, the `||` fallback and the text a
    `localStorage` key holds. */
module JsValues {

  /** An optional property: `undefined` is `None`. */
  datatype Option<+T> = None | Some(value: T)

  /** `if (s)` on a property of type `string | undefined`: both `undefined`
      and the empty string are falsy, every other string is truthy. */
  predicate Truthy(o: Option<string>) {
    o.Some? && o.value != ""
  }

  /** `o || fallback` for an optional string. */
  function OrElse(o: Option<string>, fallback: string): (r: string)
    ensures Truthy(o) ==> r == o.value
    ensures !Truthy(o) ==> r == fallback
    ensures r == "" ==> fallback == ""
  {
    if Truthy(o) then o.value else fallback
  }

  /** What `localStorage.getItem(key)` gives back for a key that is present,
      seen through `JSON.parse`: the text of a JSON value of the expected
      shape (`Json`), the empty string (falsy, so the loaders skip it), or a
      text on which `JSON.parse` throws. `JSON.stringify` followed by
      `JSON.parse` is the identity on `Json` values. */
  datatype Stored<T> = Json(value: T) | EmptyText | Unparseable

  /** `localStorage` restricted to the keys whose values have type `T`. */
  type Storage<T> = map<string, Stored<T>>
}
