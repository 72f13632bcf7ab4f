/**
 * The Product aggregate: a constructor guarded by seven checks, mutable
 * fields, and setters that change one field each without re-checking.
 */
module Products {
  import opened Wrappers
  import opened JavaLang
  import opened ProductIds

  /** An image: an opaque byte sequence. */
  type Bytes = seq<bv8>

  /** `Product.InventoryStatus`. */
  datatype InventoryStatus = InStock | LowStock | OutOfStock

  /** `name()` of an InventoryStatus constant. */
  function StatusName(s: InventoryStatus): (n: string)
    ensures StatusValueOf(n) == Some(s)
  {
    match s
    case InStock => "INSTOCK"
    case LowStock => "LOWSTOCK"
    case OutOfStock => "OUTOFSTOCK"
  }

  /** `InventoryStatus.valueOf(name)`: an exact, case-sensitive match of a constant's name. */
  function StatusValueOf(name: string): (r: Option<InventoryStatus>)
    ensures r.Some? <==> name == "INSTOCK" || name == "LOWSTOCK" || name == "OUTOFSTOCK"
  {
    if name == "INSTOCK" then Some(InStock)
    else if name == "LOWSTOCK" then Some(LowStock)
    else if name == "OUTOFSTOCK" then Some(OutOfStock)
    else None
  }

  /** `valueOf` and `name` are inverse to each other. */
  lemma StatusNameRoundTrip(s: InventoryStatus, name: string)
    ensures StatusValueOf(StatusName(s)) == Some(s)
    ensures StatusValueOf(name).Some? ==> StatusName(StatusValueOf(name).value) == name
  {
  }

  /** The cause carried by the IllegalArgumentException of a failed guard. */
  datatype ValidationError =
    | NegativeQuantity        // "Product quantity cannot be negative"
    | NegativePrice           // "Product price cannot be negative"
    | EmptyCode               // "Product code cannot be empty"
    | EmptyName               // "Product name cannot be empty"
    | EmptyCategory           // "Product category cannot be empty"
    | EmptyInternalReference  // "Product internal reference cannot be empty"
    | RatingOutOfRange        // "Product rating must be between 0 and 5"

  /** `s == null || s.trim().isEmpty()`. */
  predicate NullOrBlank(s: Option<string>) {
    s.None? || IsBlank(s.value)
  }

  /** All seven guards pass (their conjunction, order aside). */
  predicate GuardsHold(quantity: int, price: real, code: Option<string>, name: Option<string>,
                       category: Option<string>, internalReference: Option<string>, rating: int)
  {
    && quantity >= 0
    && price >= 0.0
    && !NullOrBlank(code)
    && !NullOrBlank(name)
    && !NullOrBlank(category)
    && !NullOrBlank(internalReference)
    && 0 <= rating <= 5
  }

  /** The arguments of the Product constructor; its String and byte[] arguments may be null. */
  datatype ProductArgs = ProductArgs(
    id: ProductId,
    code: Option<string>,
    name: Option<string>,
    description: Option<string>,
    image: Option<Bytes>,
    category: Option<string>,
    price: real,
    quantity: Int32,
    internalReference: Option<string>,
    shellId: Int32,
    inventoryStatus: InventoryStatus,
    rating: Int32,
    createdAt: Int64,
    updatedAt: Int64)

  /** The fields of a Product object. */
  datatype ProductState = ProductState(
    id: ProductId,
    code: string,
    name: string,
    description: Option<string>,
    image: Option<Bytes>,
    category: string,
    price: real,
    quantity: Int32,
    internalReference: string,
    shellId: Int32,
    inventoryStatus: InventoryStatus,
    rating: Int32,
    createdAt: Int64,
    updatedAt: Int64)

  /** The invariant the constructor establishes, read off a product's current fields. */
  predicate Satisfies(s: ProductState) {
    GuardsHold(s.quantity, s.price, Some(s.code), Some(s.name), Some(s.category), Some(s.internalReference), s.rating)
  }

  /** Every field of `s` is the corresponding argument in `a`, untrimmed. */
  predicate Carries(s: ProductState, a: ProductArgs) {
    && s.id == a.id
    && a.code == Some(s.code)
    && a.name == Some(s.name)
    && s.description == a.description
    && s.image == a.image
    && a.category == Some(s.category)
    && s.price == a.price
    && s.quantity == a.quantity
    && a.internalReference == Some(s.internalReference)
    && s.shellId == a.shellId
    && s.inventoryStatus == a.inventoryStatus
    && s.rating == a.rating
    && s.createdAt == a.createdAt
    && s.updatedAt == a.updatedAt
  }

  /**
   * The guard chain of the constructor: the first failing check, in the order
   * quantity, price, code, name, category, internal reference, rating, decides
   * the error; when none fails, the fields are the arguments as given.
   */
  function Construct(a: ProductArgs): (r: Result<ProductState, ValidationError>)
    ensures r.Success? <==> GuardsHold(a.quantity, a.price, a.code, a.name, a.category, a.internalReference, a.rating)
    ensures r.Success? ==> Carries(r.value, a) && Satisfies(r.value)
    ensures r == Failure(NegativeQuantity) <==> a.quantity < 0
    ensures r == Failure(NegativePrice) <==> a.quantity >= 0 && a.price < 0.0
    ensures r == Failure(EmptyCode) <==> a.quantity >= 0 && a.price >= 0.0 && NullOrBlank(a.code)
    ensures r == Failure(EmptyName) <==>
      a.quantity >= 0 && a.price >= 0.0 && !NullOrBlank(a.code) && NullOrBlank(a.name)
    ensures r == Failure(EmptyCategory) <==>
      a.quantity >= 0 && a.price >= 0.0 && !NullOrBlank(a.code) && !NullOrBlank(a.name) && NullOrBlank(a.category)
    ensures r == Failure(EmptyInternalReference) <==>
      a.quantity >= 0 && a.price >= 0.0 && !NullOrBlank(a.code) && !NullOrBlank(a.name) && !NullOrBlank(a.category)
      && NullOrBlank(a.internalReference)
    ensures r == Failure(RatingOutOfRange) <==>
      a.quantity >= 0 && a.price >= 0.0 && !NullOrBlank(a.code) && !NullOrBlank(a.name) && !NullOrBlank(a.category)
      && !NullOrBlank(a.internalReference) && (a.rating < 0 || a.rating > 5)
  {
    if a.quantity < 0 then Failure(NegativeQuantity)
    else if a.price < 0.0 then Failure(NegativePrice)
    else if NullOrBlank(a.code) then Failure(EmptyCode)
    else if NullOrBlank(a.name) then Failure(EmptyName)
    else if NullOrBlank(a.category) then Failure(EmptyCategory)
    else if NullOrBlank(a.internalReference) then Failure(EmptyInternalReference)
    else if a.rating < 0 || a.rating > 5 then Failure(RatingOutOfRange)
    else Success(ProductState(a.id, a.code.value, a.name.value, a.description, a.image, a.category.value,
                              a.price, a.quantity, a.internalReference.value, a.shellId, a.inventoryStatus,
                              a.rating, a.createdAt, a.updatedAt))
  }

  /** The guard on a string argument is Java's `s == null || s.trim().isEmpty()`. */
  lemma {:induction false} BlankArgumentRejected(s: Option<string>)
    ensures NullOrBlank(s) <==> s.None? || Trim(s.value) == ""
  {
    if s.Some? {
      TrimEmptyIffBlank(s.value);
    }
  }

  /** Ratings 0 and 5 are accepted, -1 and 10 rejected (ProductTest). */
  lemma RatingBounds(a: ProductArgs)
    requires a.quantity >= 0 && a.price >= 0.0
    requires a.code == Some("code") && a.name == Some("name") && a.category == Some("category")
    requires a.internalReference == Some("internalReference")
    ensures a.rating == 0 || a.rating == 5 ==> Construct(a).Success?
    ensures a.rating == -1 || a.rating == 10 ==> Construct(a) == Failure(RatingOutOfRange)
  {
    assert "code"[0] == 'c';
    assert "name"[0] == 'n';
    assert "category"[0] == 'c';
    assert "internalReference"[0] == 'i';
  }

  /**
   * With a valid quantity and price, an empty or null code, name, category or
   * internal reference makes the constructor throw, each with its own cause,
   * the others being non-blank (ProductTest).
   */
  lemma EmptyStringsRejected(a: ProductArgs)
    requires a.quantity >= 0 && a.price >= 0.0
    ensures (a.code == Some("") || a.code.None?) ==> Construct(a) == Failure(EmptyCode)
    ensures a.code == Some("code") && (a.name == Some("") || a.name.None?) ==> Construct(a) == Failure(EmptyName)
    ensures a.code == Some("code") && a.name == Some("name") && (a.category == Some("") || a.category.None?) ==>
      Construct(a) == Failure(EmptyCategory)
    ensures (a.code == Some("code") && a.name == Some("name") && a.category == Some("category")
             && (a.internalReference == Some("") || a.internalReference.None?)) ==>
      Construct(a) == Failure(EmptyInternalReference)
  {
    assert "code"[0] == 'c';
    assert "name"[0] == 'n';
    assert "category"[0] == 'c';
  }

  class Product {
    var id: ProductId
    var code: string
    var name: string
    var description: Option<string>
    var image: Option<Bytes>
    var category: string
    var price: real
    var quantity: Int32
    var internalReference: string
    var shellId: Int32
    var inventoryStatus: InventoryStatus
    var rating: Int32
    var createdAt: Int64
    var updatedAt: Int64

    /** The product's current fields, as a value. */
    function State(): ProductState
      reads this
    {
      ProductState(id, code, name, description, image, category, price, quantity,
                   internalReference, shellId, inventoryStatus, rating, createdAt, updatedAt)
    }

    /** The constructor's invariant; it holds after `New`, and no setter re-establishes it. */
    predicate Valid()
      reads this
    {
      Satisfies(State())
    }

    /** The field assignments that follow the guards. */
    constructor FromState(s: ProductState)
      ensures State() == s
    {
      id, code, name, description, image, category := s.id, s.code, s.name, s.description, s.image, s.category;
      price, quantity, internalReference, shellId := s.price, s.quantity, s.internalReference, s.shellId;
      inventoryStatus, rating, createdAt, updatedAt := s.inventoryStatus, s.rating, s.createdAt, s.updatedAt;
    }

    /** `new Product(...)`: throws on the first failing guard, otherwise a new object holding the arguments. */
    static method New(a: ProductArgs) returns (r: Result<Product, ValidationError>)
      ensures r.Success? <==> Construct(a).Success?
      ensures r.Failure? ==> Construct(a) == Failure(r.error)
      ensures r.Success? ==> fresh(r.value) && r.value.Valid() && Carries(r.value.State(), a)
    {
      var checked := Construct(a);
      if checked.Failure? {
        return Failure(checked.error);
      }
      var p := new Product.FromState(checked.value);
      return Success(p);
    }

    method SetId(v: ProductId)
      modifies this
      ensures State() == old(State()).(id := v)
    {
      id := v;
    }

    method SetCode(v: string)
      modifies this
      ensures State() == old(State()).(code := v)
    {
      code := v;
    }

    method SetName(v: string)
      modifies this
      ensures State() == old(State()).(name := v)
    {
      name := v;
    }

    method SetDescription(v: Option<string>)
      modifies this
      ensures State() == old(State()).(description := v)
    {
      description := v;
    }

    method SetImage(v: Option<Bytes>)
      modifies this
      ensures State() == old(State()).(image := v)
    {
      image := v;
    }

    method SetCategory(v: string)
      modifies this
      ensures State() == old(State()).(category := v)
    {
      category := v;
    }

    method SetPrice(v: real)
      modifies this
      ensures State() == old(State()).(price := v)
    {
      price := v;
    }

    method SetQuantity(v: Int32)
      modifies this
      ensures State() == old(State()).(quantity := v)
    {
      quantity := v;
    }

    method SetInternalReference(v: string)
      modifies this
      ensures State() == old(State()).(internalReference := v)
    {
      internalReference := v;
    }

    method SetShellId(v: Int32)
      modifies this
      ensures State() == old(State()).(shellId := v)
    {
      shellId := v;
    }

    method SetInventoryStatus(v: InventoryStatus)
      modifies this
      ensures State() == old(State()).(inventoryStatus := v)
    {
      inventoryStatus := v;
    }

    /** Called by the service though not declared in the class; modelled as a plain field write. */
    method SetCreatedAt(v: Int64)
      modifies this
      ensures State() == old(State()).(createdAt := v)
    {
      createdAt := v;
    }

    /** Called by the service though not declared in the class; modelled as a plain field write. */
    method SetUpdatedAt(v: Int64)
      modifies this
      ensures State() == old(State()).(updatedAt := v)
    {
      updatedAt := v;
    }
  }

  /** The setters do not re-check: a valid product given a negative quantity is no longer valid. */
  method SetterSkipsGuards(p: Product)
    requires p.Valid()
    modifies p
    ensures !p.Valid() && p.quantity == -1
    ensures p.State() == old(p.State()).(quantity := -1)
  {
    p.SetQuantity(-1);
  }
}
