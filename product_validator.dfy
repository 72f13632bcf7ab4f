/** ProductValidator: a stateless facade that forwards to the ProductValidation record. */
module ProductValidators {
  import opened Wrappers
  import opened JavaLang
  import opened ProductIds
  import opened Products
  import opened ProductValidations

  /**
   * `ProductValidator.validate`: returns the record, its components equal to
   * the arguments position by position, exactly when all guards pass, and
   * otherwise propagates the record's own validation error.
   */
  function Validate(id: ProductId, code: Option<string>, name: Option<string>,
                    description: Option<string>, image: Option<Bytes>, category: Option<string>,
                    price: real, quantity: Int32, internalReference: Option<string>,
                    shellId: Int32, inventoryStatus: InventoryStatus, rating: Int32)
    : (r: Result<ProductValidation, ValidationError>)
    ensures r.Success? <==> GuardsHold(quantity, price, code, name, category, internalReference, rating)
    ensures r.Success? ==>
      r.value == ProductValidation(id, code.value, name.value, description, image, category.value, price,
                                   quantity, internalReference.value, shellId, inventoryStatus, rating)
    ensures r.Failure? ==>
      NewProductValidation(id, code, name, description, image, category, price, quantity,
                           internalReference, shellId, inventoryStatus, rating) == Failure(r.error)
  {
    NewProductValidation(id, code, name, description, image, category, price, quantity,
                         internalReference, shellId, inventoryStatus, rating)
  }
}
