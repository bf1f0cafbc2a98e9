/** How the forms read a numeric input. The field holds a string; the
    validators test it for emptiness, `isNaN` and `Number(…) <= 0`. The
    string-to-number coercion itself is abstracted: a non-empty field is
    either a number or not one. */
module FormInput {
  import opened Wrappers

  datatype NumField =
    | Blank                    // the empty string: falsy
    | Entered(parsed: Option<real>)  // None when `isNaN(field)`

  /** The field holds a number greater than zero. */
  predicate IsPositive(f: NumField) {
    f.Entered? && f.parsed.Some? && f.parsed.value > 0.0
  }

  /** The message a validator sets for a numeric field: `required` when it
      is empty, `invalid` when it is not a number or not above zero, none
      otherwise. The two messages never both apply. */
  function NumberError(f: NumField, required: string, invalid: string): (m: Option<string>)
    requires required != invalid
    ensures m == Some(required) <==> f.Blank?
    ensures m == Some(invalid) <==> f.Entered? && !IsPositive(f)
    ensures m.None? <==> IsPositive(f)
  {
    match f
    case Blank => Some(required)
    case Entered(v) => if v.None? || v.value <= 0.0 then Some(invalid) else None
  }
}
