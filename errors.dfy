/** lib/Error.js and the result a route handler hands to the response layer. */
module Errors {
  import Enum

  /** A CustomError: the code doubles as the HTTP status of the error reply. */
  datatype CustomError = CustomError(code: nat, message: string, description: string)

  /** Every failed check in the routes throws this shape. */
  function ValidationError(description: string): CustomError
  {
    CustomError(Enum.BAD_REQUEST, "Validation Error", description)
  }

  /** What a handler ends with:
      - Ok: a success envelope sent with this status (res.json is 200, res.status(201).json is 201);
      - Status: a bare status line (res.sendStatus);
      - Thrown: a CustomError caught by the handler and turned into an error envelope;
      - Uncaught: a TypeError raised by the handler's own code; it carries no code, so the
        response layer answers with its default internal-error status. */
  datatype Reply =
    | Ok(status: nat)
    | Status(status: nat)
    | Thrown(error: CustomError)
    | Uncaught

  /** Outcome of a fixed-order validation chain: the first failed rule, or Pass. */
  datatype Check = Pass | Fail(error: CustomError)
}
