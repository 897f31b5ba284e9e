/** Values shared by every module of the model. */
module Base {
  datatype Option<+T> = None | Some(value: T)

  /** The build-time error a query decoration raises (SQLAlchemy's InvalidRequestError). */
  datatype Error = InvalidRequestError(message: string)

  datatype Result<+T> = Ok(value: T) | Err(error: Error)

  /** An opaque reference to something SQLAlchemy builds elsewhere: a column,
      a labelled column, a table, an ON condition or a literal value. Only its
      identity matters to the decorations. */
  datatype Expr = Expr(text: string)

  /** `sub` occurs in `s` starting at position `i`. */
  predicate OccursAt(s: string, sub: string, i: nat)
  {
    i + |sub| <= |s| && s[i..i + |sub|] == sub
  }

  /** Python's `sub in s` on strings. */
  predicate Contains(s: string, sub: string)
  {
    exists i: nat :: i <= |s| && OccursAt(s, sub, i)
  }
}
