/** The few JavaScript value rules the storefront relies on: optional values,
    numeric record fields that may be missing or null, and truthiness. */
module JsValues {

  datatype Option<+T> = None | Some(value: T)

  /** A numeric field of a record fetched from the content API: absent from the
      object (undefined), explicitly null, or a number (money and minutes are
      whole numbers in this model). */
  datatype Field = Undefined | Null | Value(n: int)

  /** JavaScript truthiness of a numeric field: undefined, null and 0 are falsy. */
  predicate Truthy(f: Field)
  {
    f.Value? && f.n != 0
  }

  /** `f || fallback`: the field's number when it is truthy, otherwise the fallback. */
  function Or(f: Field, fallback: int): int
  {
    if Truthy(f) then f.n else fallback
  }

  /** JavaScript truthiness of a string: only the empty string is falsy. */
  predicate NonEmpty(s: string)
  {
    |s| > 0
  }
}
