/** config/Enum.js: the HTTP codes the handlers answer with and the two constants they use. */
module Enum {
  const SUCCESS: nat := 200
  const CREATED: nat := 201
  const BAD_REQUEST: nat := 400
  const UNAUTHORIZED: nat := 401
  const FORBIDDEN: nat := 403
  const NOT_FOUND: nat := 404
  const INTERNAL_SERVER_ERROR: nat := 500

  /** Minimum password length demanded by /users/add and /users/register. */
  const PASS_LENGTH: nat := 8

  /** Name of the role that /users/register grants to the first user. */
  const SUPER_ADMIN_ROLE: string := "SUPER_ADMIN"
}
