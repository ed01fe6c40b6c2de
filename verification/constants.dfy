/**
 The constants of src/backend/utils/configurations/constants.py that the core
 uses: the exception messages (plain ones as strings, interpolated ones as
 templates), the generic separators and the sign used to negate a quantity.
 */
module Constants {

  import opened Text

  // Plain exception messages.
  const EMAIL_ALREADY_EXISTS: string := "Email already exists."
  const EXTERNAL_CLIENT_NAME_MISSING: string := "The external client name is missing."
  const PRODUCT_NAME_IS_REQUIRED: string := "The product requires a valid name"
  const SUPER_USER_ROLE_INVALID: string := "Superuser must have role of Global Admin"
  const VALID_PRICE_MUST_BE_SET: string := "A valid price, greater than zero, must be set."
  const VALID_QUANTITY_MUST_BE_SET: string := "A valid quantity, greater than zero, must be set."

  // Interpolated exception messages; the placeholder is named in the trailing comment.
  const NAME_ALREADY_IN_USE := Template("The name '", "' is already in use.")  // %(name)s
  const ORDER_IS_CLOSED := Template("The order with id '", "' is closed, no changes allowed")  // %(id)s
  const ORDER_NOT_FOUND := Template("The order with identifier '", "' does not exist.")  // %(id)s
  const PRODUCT_BY_ID_NOT_FOUND := Template("The product with id '", "' does not exist.")  // %(id)s
  /** The source's template has no closing quote after the name; kept as written. */
  const PRODUCT_BY_NAME_EXISTS := Template("The product with name '", " already exists.")  // %(name)s
  const QUANTITY_FOR_PRODUCT_EXISTS := Template("A product quantity for product with id '", "' already exists.")  // %(id)s
  const QUANTITY_FOR_PRODUCT_NOT_FOUND := Template("The product quantity for product with id '", "' does not exist.")  // %(id)s
  const USER_BY_ID_NOT_FOUND := Template("User with id '", "' not found.")  // %(id)s
  const USER_BY_EMAIL_NOT_FOUND := Template("User with email '", "' not found.")  // %(email)s
  const USER_CREATION_ROLE_NOT_VALID := Template2("A user with role '", "', cannot crate a new user with role '", "'.")  // %(creator_role)s, %(user_role)s

  // Generic constants.
  const EMPTY_CHAR: string := ""
  const LINE_BREAK: string := "\n "
  const SPACE: string := " "
  const NEGATIVE_INDEX: int := -1
}
