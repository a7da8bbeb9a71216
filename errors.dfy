/** The caller-visible failures of the CRM mutations, with the exact message
    text each one carries (crm/schema.py raises them as GraphQLError). */
module Errors {
  import opened Text

  datatype Error =
    | MissingRequiredField
    | DuplicateEmail
    | InvalidPhoneFormat
    | InvalidPrice
    | NonPositivePrice
    | NegativeStock
    | ProductNameRequired
    | EmptyProductList
    | InvalidCustomerId
    | CustomerNotFound
    | InvalidProductId
    | ProductsNotFound(missing: seq<int>)
      /** A non-validation exception from storage; carries `str(e)`. */
    | StorageFault(detail: string)
      /** Any other exception inside a bulk item, reported with `str(e)`
          after a fixed prefix. */
    | Unexpected(detail: string)

  const EmailExistsMsg: string := "Email already exists."

  const UnexpectedPrefix: string := "Unexpected error: "

  /** `str(e)` of the raised error. */
  function Message(e: Error): (m: string)
  {
    match e
    case MissingRequiredField => "Both name and email are required."
    case DuplicateEmail => EmailExistsMsg
    case InvalidPhoneFormat => "Invalid phone format. Use +1234567890 or 123-456-7890."
    case InvalidPrice => "Price must be a valid decimal number."
    case NonPositivePrice => "Price must be positive."
    case NegativeStock => "Stock cannot be negative."
    case ProductNameRequired => "Product name is required."
    case EmptyProductList => "At least one product must be selected."
    case InvalidCustomerId => "Invalid customer ID."
    case CustomerNotFound => "Customer not found."
    case InvalidProductId => "All product IDs must be integers."
    case ProductsNotFound(missing) => "Invalid product ID(s): " + ListToString(missing)
    case StorageFault(detail) => detail
    case Unexpected(detail) => UnexpectedPrefix + detail
  }

  /** Success with a value, or the error a mutation raised. */
  datatype Result<+T> = Ok(value: T) | Err(error: Error)

  /** What a validator that returns nothing does: pass, or raise. */
  datatype Outcome = Pass | Fail(error: Error)
}
