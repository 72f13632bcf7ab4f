/**
 * ProductValidation: an immutable record of twelve product components whose
 * compact constructor repeats the Product constructor's seven guards.
 */
module ProductValidations {
  import opened Wrappers
  import opened JavaLang
  import opened ProductIds
  import opened Products

  datatype ProductValidation = ProductValidation(
    id: ProductId,
    code: string,
    name: string,
    description: Option<string>,
    image: Option<Bytes>,
    category: string,
    price: real,
    quantity: Int32,
    internalReference: string,
    shellId: Int32,
    inventoryStatus: InventoryStatus,
    rating: Int32)

  /** `new ProductValidation(...)`: the compact constructor's guard chain, then the record. */
  function NewProductValidation(id: ProductId, code: Option<string>, name: Option<string>,
                                description: Option<string>, image: Option<Bytes>, category: Option<string>,
                                price: real, quantity: Int32, internalReference: Option<string>,
                                shellId: Int32, inventoryStatus: InventoryStatus, rating: Int32)
    : (r: Result<ProductValidation, ValidationError>)
    ensures r.Success? <==> GuardsHold(quantity, price, code, name, category, internalReference, rating)
    ensures r.Success? ==>
      && r.value.id == id && Some(r.value.code) == code && Some(r.value.name) == name
      && r.value.description == description && r.value.image == image && Some(r.value.category) == category
      && r.value.price == price && r.value.quantity == quantity
      && Some(r.value.internalReference) == internalReference && r.value.shellId == shellId
      && r.value.inventoryStatus == inventoryStatus && r.value.rating == rating
  {
    if quantity < 0 then Failure(NegativeQuantity)
    else if price < 0.0 then Failure(NegativePrice)
    else if NullOrBlank(code) then Failure(EmptyCode)
    else if NullOrBlank(name) then Failure(EmptyName)
    else if NullOrBlank(category) then Failure(EmptyCategory)
    else if NullOrBlank(internalReference) then Failure(EmptyInternalReference)
    else if rating < 0 || rating > 5 then Failure(RatingOutOfRange)
    else Success(ProductValidation(id, code.value, name.value, description, image, category.value, price,
                                   quantity, internalReference.value, shellId, inventoryStatus, rating))
  }

  /**
   * The record accepts exactly the arguments the Product constructor accepts
   * on the twelve shared fields, and rejects the others with the same cause.
   */
  lemma SameVerdictAsProduct(a: ProductArgs)
    ensures var v := NewProductValidation(a.id, a.code, a.name, a.description, a.image, a.category, a.price,
                                          a.quantity, a.internalReference, a.shellId, a.inventoryStatus, a.rating);
            && (v.Success? <==> Construct(a).Success?)
            && (v.Failure? ==> Construct(a) == Failure(v.error))
            && (v.Success? ==> Construct(a).value.code == v.value.code && Construct(a).value.name == v.value.name
                               && Construct(a).value.category == v.value.category
                               && Construct(a).value.internalReference == v.value.internalReference)
  {
  }
}
