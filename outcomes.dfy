/** Values shared by the store and the procedures: nullable values and call outcomes. */
module Outcomes {

  /** A nullable column or an optional input field: `None` is SQL NULL or an omitted field. */
  datatype Option<T> = None | Some(value: T)

  /** Why a procedure call failed. */
  datatype Error =
    | ValidationError      // the input schema refused the call; no statement was issued
    | UniqueViolation      // a statement would give two rows of one table the same slug
    | ForeignKeyViolation  // a statement would insert a join row naming a missing post or category

  /** The outcome of a procedure call or of one store statement. */
  datatype Result<T> = Ok(value: T) | Err(error: Error)

  /** `z.string().min(n)`: at least `n` characters. */
  predicate MinLength(s: string, n: nat) {
    |s| >= n
  }

  /** `.optional()` around a field check: an omitted field passes. */
  predicate OptionalPasses<T>(field: Option<T>, check: T -> bool) {
    field.None? || check(field.value)
  }
}
