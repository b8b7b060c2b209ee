/** The pieces of the response envelope every handler shares: an optional
    value, a result that is either the handler's data or a failure, and the
    failure taxonomy of the handlers' `errors.*` helpers. */
module Api {

  datatype Option<+T> = None | Some(value: T)

  /** `successResponse(data)` or one of the `errors.*` responses. */
  datatype Result<+T> = Ok(value: T) | Err(error: Failure)

  /** The business rule that a bad-request response names. */
  datatype Rule =
    | SelfMessage      // a user may not message themselves
    | ItemUnavailable  // the item is sold, rented or removed
    | OwnItem          // a seller may not buy their own item
    | NoSchool         // the seller has not set a school
    | UnknownCategory  // the category does not exist

  /** `errors.unauthorized`, `errors.validation`, `errors.notFound`,
      `errors.badRequest` and `errors.internal`. */
  datatype Failure =
    | Unauthorized
    | Validation
    | NotFound
    | BadRequest(rule: Rule)
    | Internal
}
