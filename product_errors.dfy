/**
 * The failures the core reports. In the Java code each is an exception
 * (IllegalArgumentException, or NullPointerException for a null UUID) told
 * apart by its message; here each kind is its own constructor.
 */
module ProductErrors {
  import opened ProductIds
  import opened Products

  datatype ProductError =
    | InvalidId(idError: IdError)           // ProductId.of rejected the id
    | UnknownStatus(statusName: string)     // InventoryStatus.valueOf found no such constant
    | Invalid(cause: ValidationError)       // a Product constructor guard failed
    | DuplicateCode(code: string)           // "Product with code ... already exists"
    | NotFound(missing: ProductId)          // "Product with id ... does not exist"
}
