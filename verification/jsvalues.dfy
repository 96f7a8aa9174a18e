/** JavaScript values as the front end tests them with `||` and `&&`.
    `null` and `undefined` are both `None`; the empty string and the number 0
    are present values that are nonetheless falsy. */
module JsValues {

  /** An optional value: `None` stands for `null` or `undefined`. */
  datatype Option<+T> = None | Some(value: T)

  /** Truthiness of an optional string: absent and "" are falsy. */
  predicate TruthyString(v: Option<string>) {
    v.Some? && v.value != ""
  }

  /** Truthiness of an optional number: absent and 0 are falsy (NaN is not modelled). */
  predicate TruthyNumber(v: Option<real>) {
    v.Some? && v.value != 0.0
  }

  /** `v || d` for a string operand: `v` when it is truthy, else the default. */
  function OrString(v: Option<string>, d: string): (r: string)
    ensures TruthyString(v) ==> r == v.value
    ensures !TruthyString(v) ==> r == d
  {
    if TruthyString(v) then v.value else d
  }

  /** `v || null` for a number operand: 0 and absent both become `null`. */
  function OrNull(v: Option<real>): (r: Option<real>)
    ensures r.Some? <==> TruthyNumber(v)
    ensures r.Some? ==> r == v
  {
    if TruthyNumber(v) then v else None
  }
}
