/**
 * ProductDTO: the application layer's flat view of a product, with the id
 * and the inventory status as text, and the mapping to and from the domain.
 */
module ProductDtos {
  import opened Wrappers
  import opened JavaLang
  import opened ProductIds
  import opened Products
  import opened ProductErrors

  /** The fields of a ProductDTO; every String and byte[] field may be null. */
  datatype DtoFields = DtoFields(
    id: Option<string>,
    code: Option<string>,
    name: Option<string>,
    description: Option<string>,
    image: Option<Bytes>,
    category: Option<string>,
    price: real,
    quantity: Int32,
    internalReference: Option<string>,
    shellId: Int32,
    inventoryStatus: Option<string>,
    rating: Int32,
    createdAt: Int64,
    updatedAt: Int64)

  /** The fields of `new ProductDTO()`: nulls and zeros. */
  const EmptyFields := DtoFields(None, None, None, None, None, None, 0.0, 0, None, 0, None, 0, 0, 0)

  /**
   * `fromDomain`: every field copied, the id written as its text and the
   * status as its constant's name (both read back: `FromDomainReadsBack`).
   */
  function FromDomainFields(s: ProductState): (d: DtoFields)
    ensures d.id == Some(ToString(s.id)) && d.inventoryStatus == Some(StatusName(s.inventoryStatus))
    ensures d.code == Some(s.code) && d.name == Some(s.name) && d.category == Some(s.category)
    ensures d.internalReference == Some(s.internalReference)
    ensures d.description == s.description && d.image == s.image && d.price == s.price
    ensures d.quantity == s.quantity && d.shellId == s.shellId && d.rating == s.rating
    ensures d.createdAt == s.createdAt && d.updatedAt == s.updatedAt
  {
    DtoFields(Some(ToString(s.id)), Some(s.code), Some(s.name), s.description, s.image, Some(s.category),
              s.price, s.quantity, Some(s.internalReference), s.shellId, Some(StatusName(s.inventoryStatus)),
              s.rating, s.createdAt, s.updatedAt)
  }

  /** The id text `fromDomain` writes is canonical and parses back to the id; the status name reads back to the status. */
  lemma FromDomainReadsBack(s: ProductState)
    ensures var d := FromDomainFields(s);
      && d.id.Some? && IsCanonicalText(d.id.value) && Of(d.id.value) == Success(s.id)
      && d.inventoryStatus.Some? && StatusValueOf(d.inventoryStatus.value) == Some(s.inventoryStatus)
  {
    OfToString(s.id);
    StatusNameRoundTrip(s.inventoryStatus, "");
  }

  /** Line one of `toDomain`: a null id becomes the freshly drawn one, any other is parsed. */
  function ResolveId(text: Option<string>, freshId: ProductId): (r: Result<ProductId, ProductError>)
    ensures text.None? ==> r == Success(freshId)
    ensures text.Some? ==> (r.Success? <==> IsUuidText(text.value))
    ensures text.Some? && r.Success? ==> Of(text.value) == Success(r.value)
    ensures r.Failure? ==> r.error == InvalidId(MalformedText)
  {
    match text
    case None => Success(freshId)
    case Some(t) =>
      match Of(t)
      case Success(id) => Success(id)
      case Failure(e) => Failure(InvalidId(e))
  }

  /** Line two of `toDomain`: a null status becomes INSTOCK, any other must name a constant. */
  function ResolveStatus(name: Option<string>): (r: Result<InventoryStatus, ProductError>)
    ensures name.None? ==> r == Success(InStock)
    ensures name.Some? ==> (r.Success? <==> StatusValueOf(name.value).Some?)
    ensures name.Some? && r.Success? ==> StatusName(r.value) == name.value
    ensures r.Failure? ==> name.Some? && r.error == UnknownStatus(name.value)
  {
    match name
    case None => Success(InStock)
    case Some(n) =>
      StatusNameRoundTrip(InStock, n);
      match StatusValueOf(n)
      case Some(st) => Success(st)
      case None => Failure(UnknownStatus(n))
  }

  /** The constructor arguments `toDomain` passes, once id and status are resolved. */
  function DomainArgs(d: DtoFields, id: ProductId, status: InventoryStatus): ProductArgs {
    ProductArgs(id, d.code, d.name, d.description, d.image, d.category, d.price, d.quantity,
                d.internalReference, d.shellId, status, d.rating, d.createdAt, d.updatedAt)
  }

  /**
   * `toDomain`: the id is resolved first, then the status, then the Product
   * constructor runs; the first of these to fail decides the error.
   */
  function ToDomainFields(d: DtoFields, freshId: ProductId): (r: Result<ProductState, ProductError>)
    ensures r == Failure(InvalidId(MalformedText)) <==> d.id.Some? && !IsUuidText(d.id.value)
    ensures r.Success? ==> r.value.id == (if d.id.None? then freshId else Of(d.id.value).value)
    ensures r.Success? ==> Satisfies(r.value) && Carries(r.value, DomainArgs(d, r.value.id, r.value.inventoryStatus))
    ensures r.Success? ==> d.inventoryStatus.None? || StatusValueOf(d.inventoryStatus.value).Some?
    ensures r.Success? ==>
      r.value.inventoryStatus == (if d.inventoryStatus.None? then InStock else StatusValueOf(d.inventoryStatus.value).value)
  {
    match ResolveId(d.id, freshId)
    case Failure(e) => Failure(e)
    case Success(id) =>
      match ResolveStatus(d.inventoryStatus)
      case Failure(e) => Failure(e)
      case Success(status) =>
        match Construct(DomainArgs(d, id, status))
        case Failure(cause) => Failure(Invalid(cause))
        case Success(s) => Success(s)
  }

  /** An unknown status name fails `toDomain` once the id is acceptable, whatever the other fields hold. */
  lemma UnknownStatusRejected(d: DtoFields, freshId: ProductId)
    requires d.id.None? || IsUuidText(d.id.value)
    requires d.inventoryStatus.Some? && StatusValueOf(d.inventoryStatus.value).None?
    ensures ToDomainFields(d, freshId) == Failure(UnknownStatus(d.inventoryStatus.value))
  {
  }

  /**
   * With a well-formed id and status, `toDomain` fails exactly when the
   * Product constructor's guards fail, and with the constructor's cause.
   */
  lemma ToDomainFailsIffGuardsFail(d: DtoFields, freshId: ProductId)
    requires d.id.None? || IsUuidText(d.id.value)
    requires d.inventoryStatus.None? || StatusValueOf(d.inventoryStatus.value).Some?
    ensures ToDomainFields(d, freshId).Failure? <==>
      !GuardsHold(d.quantity, d.price, d.code, d.name, d.category, d.internalReference, d.rating)
    ensures ToDomainFields(d, freshId).Failure? ==>
      Construct(DomainArgs(d, freshId, InStock)) == Failure(ToDomainFields(d, freshId).error.cause)
  {
    var id := ResolveId(d.id, freshId).value;
    var status := ResolveStatus(d.inventoryStatus).value;
    var made := Construct(DomainArgs(d, id, status));
    var reference := Construct(DomainArgs(d, freshId, InStock));
    assert made.Failure? <==> reference.Failure?;
    if made.Failure? {
      assert made.error == reference.error;
    }
  }

  /**
   * `toDomain(fromDomain(p))` gives back every field of p, its id included,
   * when p still satisfies the constructor's guards; otherwise it fails.
   */
  lemma {:induction false} ToDomainFromDomain(s: ProductState, freshId: ProductId)
    ensures Satisfies(s) ==> ToDomainFields(FromDomainFields(s), freshId) == Success(s)
    ensures !Satisfies(s) ==> ToDomainFields(FromDomainFields(s), freshId).Failure?
  {
    var d := FromDomainFields(s);
    FromDomainReadsBack(s);
    var a := DomainArgs(d, s.id, s.inventoryStatus);
    assert ResolveId(d.id, freshId) == Success(s.id);
    assert ResolveStatus(d.inventoryStatus) == Success(s.inventoryStatus);
    if Satisfies(s) {
      var c := Construct(a).value;
      assert Carries(c, a);
      assert c == s;
    }
  }

  class ProductDTO {
    var id: Option<string>
    var code: Option<string>
    var name: Option<string>
    var description: Option<string>
    var image: Option<Bytes>
    var category: Option<string>
    var price: real
    var quantity: Int32
    var internalReference: Option<string>
    var shellId: Int32
    var inventoryStatus: Option<string>
    var rating: Int32
    var createdAt: Int64
    var updatedAt: Int64

    /** The DTO's current fields, as a value. */
    function Fields(): DtoFields
      reads this
    {
      DtoFields(id, code, name, description, image, category, price, quantity, internalReference, shellId,
                inventoryStatus, rating, createdAt, updatedAt)
    }

    /** `new ProductDTO()`. */
    constructor Empty()
      ensures Fields() == EmptyFields
    {
      id, code, name, description, image, category := None, None, None, None, None, None;
      price, quantity, internalReference, shellId := 0.0, 0, None, 0;
      inventoryStatus, rating, createdAt, updatedAt := None, 0, 0, 0;
    }

    /** `new ProductDTO(id, code, ..., updatedAt)`: every field as given. */
    constructor (f: DtoFields)
      ensures Fields() == f
    {
      id, code, name, description, image, category := f.id, f.code, f.name, f.description, f.image, f.category;
      price, quantity, internalReference, shellId := f.price, f.quantity, f.internalReference, f.shellId;
      inventoryStatus, rating, createdAt, updatedAt := f.inventoryStatus, f.rating, f.createdAt, f.updatedAt;
    }

    /** `ProductDTO.fromDomain(product)`. */
    static method FromDomain(p: Product) returns (d: ProductDTO)
      ensures fresh(d) && d.Fields() == FromDomainFields(p.State())
    {
      d := new ProductDTO(FromDomainFields(p.State()));
    }

    /**
     * `toDomain()`, with `freshId` standing for the value `ProductId.newId()`
     * would return; it is used only when the DTO's id is null.
     */
    method ToDomain(freshId: ProductId) returns (r: Result<Product, ProductError>)
      ensures r.Success? <==> ToDomainFields(Fields(), freshId).Success?
      ensures r.Success? ==> fresh(r.value) && r.value.State() == ToDomainFields(Fields(), freshId).value
      ensures r.Failure? ==> ToDomainFields(Fields(), freshId) == Failure(r.error)
    {
      var productId := ResolveId(id, freshId);
      if productId.Failure? {
        return Failure(productId.error);
      }
      var status := ResolveStatus(inventoryStatus);
      if status.Failure? {
        return Failure(status.error);
      }
      var made := Product.New(DomainArgs(Fields(), productId.value, status.value));
      if made.Failure? {
        return Failure(Invalid(made.error));
      }
      var a := DomainArgs(Fields(), productId.value, status.value);
      assert made.value.State() == Construct(a).value by {
        assert Carries(made.value.State(), a) && Carries(Construct(a).value, a);
      }
      return Success(made.value);
    }

    method SetId(v: Option<string>)
      modifies this
      ensures Fields() == old(Fields()).(id := v)
    {
      id := v;
    }

    method SetCode(v: Option<string>)
      modifies this
      ensures Fields() == old(Fields()).(code := v)
    {
      code := v;
    }

    method SetName(v: Option<string>)
      modifies this
      ensures Fields() == old(Fields()).(name := v)
    {
      name := v;
    }

    method SetDescription(v: Option<string>)
      modifies this
      ensures Fields() == old(Fields()).(description := v)
    {
      description := v;
    }

    method SetImage(v: Option<Bytes>)
      modifies this
      ensures Fields() == old(Fields()).(image := v)
    {
      image := v;
    }

    method SetCategory(v: Option<string>)
      modifies this
      ensures Fields() == old(Fields()).(category := v)
    {
      category := v;
    }

    method SetPrice(v: real)
      modifies this
      ensures Fields() == old(Fields()).(price := v)
    {
      price := v;
    }

    method SetQuantity(v: Int32)
      modifies this
      ensures Fields() == old(Fields()).(quantity := v)
    {
      quantity := v;
    }

    method SetInternalReference(v: Option<string>)
      modifies this
      ensures Fields() == old(Fields()).(internalReference := v)
    {
      internalReference := v;
    }

    method SetShellId(v: Int32)
      modifies this
      ensures Fields() == old(Fields()).(shellId := v)
    {
      shellId := v;
    }

    method SetInventoryStatus(v: Option<string>)
      modifies this
      ensures Fields() == old(Fields()).(inventoryStatus := v)
    {
      inventoryStatus := v;
    }

    method SetRating(v: Int32)
      modifies this
      ensures Fields() == old(Fields()).(rating := v)
    {
      rating := v;
    }

    method SetCreatedAt(v: Int64)
      modifies this
      ensures Fields() == old(Fields()).(createdAt := v)
    {
      createdAt := v;
    }

    method SetUpdatedAt(v: Int64)
      modifies this
      ensures Fields() == old(Fields()).(updatedAt := v)
    {
      updatedAt := v;
    }
  }
}
