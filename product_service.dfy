/**
 * ProductService: create, update, delete and query products against the
 * storage port, with the duplicate-code and existence checks and the
 * timestamp stamping. The wall clock is the `now` parameter.
 */
module ProductServices {
  import opened Wrappers
  import opened JavaLang
  import opened ProductIds
  import opened Products
  import opened ProductErrors
  import opened ProductDtos
  import opened ProductRepositories

  /** What an operation returns, and the store it leaves behind. */
  datatype Outcome<T> = Outcome(result: Result<T, ProductError>, store: Store)

  // ---------------------------------------------------------------------------
  // Specification of the Product-level operations

  /** `create` fills in a timestamp only where it is still 0. */
  function StampOnCreate(s: ProductState, now: Int64): ProductState {
    s.(createdAt := if s.createdAt == 0 then now else s.createdAt,
       updatedAt := if s.updatedAt == 0 then now else s.updatedAt)
  }

  /** The filter of `update`'s scan: same code, different id. */
  predicate Clashes(q: ProductState, code: string, id: ProductId) {
    q.code == code && q.id != id
  }

  /** Some stored record other than `id` holds `code`. */
  predicate CodeHeldElsewhere(store: Store, code: string, id: ProductId) {
    exists k :: k in store && Clashes(store[k], code, id)
  }

  /** `create(product)`: reject a code in use; otherwise stamp and save. The id is not checked. */
  function CreateSpec(store: Store, s: ProductState, now: Int64): Outcome<ProductState> {
    if CodeInUse(store, s.code) then Outcome(Failure(DuplicateCode(s.code)), store)
    else
      var t := StampOnCreate(s, now);
      Outcome(Success(t), Upsert(store, t))
  }

  /** `update(product)`: the id must be stored, then no other record may hold the code; stamp and save. */
  function UpdateSpec(store: Store, s: ProductState, now: Int64): Outcome<ProductState> {
    if s.id !in store then Outcome(Failure(NotFound(s.id)), store)
    else if CodeHeldElsewhere(store, s.code, s.id) then Outcome(Failure(DuplicateCode(s.code)), store)
    else
      var t := s.(updatedAt := now);
      Outcome(Success(t), Upsert(store, t))
  }

  /** `deleteById(id)`: the id must be stored; then it is removed. */
  function DeleteSpec(store: Store, id: ProductId): Outcome<()> {
    if id !in store then Outcome(Failure(NotFound(id)), store)
    else Outcome(Success(()), store - {id})
  }

  // ---------------------------------------------------------------------------
  // Properties of the Product-level operations

  /** A taken code makes `create` fail with DuplicateCode and leaves the store as it was. */
  lemma CreateRejectsTakenCode(store: Store, s: ProductState, now: Int64)
    requires CodeInUse(store, s.code)
    ensures CreateSpec(store, s, now) == Outcome(Failure(DuplicateCode(s.code)), store)
  {
  }

  /**
   * A successful `create` stamps each timestamp that was 0 with `now`, keeps
   * a non-zero one, changes no other field, and stores the result under its id.
   */
  lemma CreateStampsAndStores(store: Store, s: ProductState, now: Int64)
    requires !CodeInUse(store, s.code)
    ensures var o := CreateSpec(store, s, now);
      && o.result.Success?
      && o.result.value.createdAt == (if s.createdAt == 0 then now else s.createdAt)
      && o.result.value.updatedAt == (if s.updatedAt == 0 then now else s.updatedAt)
      && o.result.value.(createdAt := s.createdAt, updatedAt := s.updatedAt) == s
      && s.id in o.store && o.store[s.id] == o.result.value
  {
  }

  /** A fresh product (both timestamps 0) comes out of `create` with createdAt == updatedAt == now. */
  lemma CreateStampsFreshProduct(store: Store, s: ProductState, now: Int64)
    requires !CodeInUse(store, s.code)
    requires s.createdAt == 0 && s.updatedAt == 0
    ensures CreateSpec(store, s, now).result.Success?
    ensures CreateSpec(store, s, now).result.value.createdAt == now
    ensures CreateSpec(store, s, now).result.value.updatedAt == now
  {
  }

  /**
   * `create` never checks that the id is new and `save` upserts: a create
   * carrying a stored id and an unused code replaces that record instead of
   * adding one, and the replaced record is lost.
   */
  lemma {:induction false} CreateOverwritesStoredId(store: Store, s: ProductState, now: Int64)
    requires s.id in store && !CodeInUse(store, s.code)
    ensures var o := CreateSpec(store, s, now);
      && o.result.Success?
      && |o.store| == |store|
      && o.store[s.id] != store[s.id]
      && o.store[s.id].code == s.code
  {
    assert store[s.id].code != s.code;
  }

  /** An id with no stored record makes `update` fail with NotFound whatever the code, and nothing is saved. */
  lemma UpdateRejectsUnknownId(store: Store, s: ProductState, now: Int64)
    requires s.id !in store
    ensures UpdateSpec(store, s, now) == Outcome(Failure(NotFound(s.id)), store)
  {
  }

  /** Once the id is found, a code held by a record with another id makes `update` fail with DuplicateCode. */
  lemma UpdateRejectsCodeHeldElsewhere(store: Store, s: ProductState, now: Int64, other: ProductId)
    requires s.id in store
    requires other in store && other != s.id && store[other].id == other && store[other].code == s.code
    ensures UpdateSpec(store, s, now) == Outcome(Failure(DuplicateCode(s.code)), store)
  {
    assert Clashes(store[other], s.code, s.id);
  }

  /** The record's own current code is not a duplicate: re-saving it under the same code succeeds. */
  lemma {:induction false} UpdateAcceptsOwnCode(store: Store, s: ProductState, now: Int64)
    requires KeyedById(store) && CodesUnique(store)
    requires s.id in store && store[s.id].code == s.code
    ensures UpdateSpec(store, s, now).result.Success?
  {
    forall k | k in store && store[k].code == s.code ensures !Clashes(store[k], s.code, s.id) {
      assert k == s.id;
    }
  }

  /**
   * A successful `update` sets updatedAt to `now`, keeps every other field as
   * given (createdAt included), and stores the result under its id.
   */
  lemma UpdateStampsAndStores(store: Store, s: ProductState, now: Int64)
    requires UpdateSpec(store, s, now).result.Success?
    ensures var o := UpdateSpec(store, s, now);
      && o.result.value == s.(updatedAt := now)
      && o.store == Upsert(store, s.(updatedAt := now))
      && |o.store| == |store|
  {
  }

  /** `deleteById` of an unknown id fails with NotFound and changes nothing; of a known id, removes it. */
  lemma DeleteOutcomes(store: Store, id: ProductId)
    ensures id !in store ==> DeleteSpec(store, id) == Outcome(Failure(NotFound(id)), store)
    ensures id in store ==> DeleteSpec(store, id).result.Success? && id !in DeleteSpec(store, id).store
    ensures id in store ==> |DeleteSpec(store, id).store| == |store| - 1
  {
  }

  /** `create` keeps every record filed under its id and every code held by one record. */
  lemma {:induction false} CreateKeepsStoreInvariants(store: Store, s: ProductState, now: Int64)
    requires KeyedById(store) && CodesUnique(store)
    ensures KeyedById(CreateSpec(store, s, now).store) && CodesUnique(CreateSpec(store, s, now).store)
  {
    if !CodeInUse(store, s.code) {
      var t := StampOnCreate(s, now);
      var r := Upsert(store, t);
      forall j, k | j in r && k in r && r[j].code == r[k].code ensures j == k {
        if j != t.id && k != t.id {
          assert r[j] == store[j] && r[k] == store[k];
        }
      }
    }
  }

  /** `update` keeps every record filed under its id and every code held by one record. */
  lemma {:induction false} UpdateKeepsStoreInvariants(store: Store, s: ProductState, now: Int64)
    requires KeyedById(store) && CodesUnique(store)
    ensures KeyedById(UpdateSpec(store, s, now).store) && CodesUnique(UpdateSpec(store, s, now).store)
  {
    if s.id in store && !CodeHeldElsewhere(store, s.code, s.id) {
      var t := s.(updatedAt := now);
      var r := Upsert(store, t);
      forall j, k | j in r && k in r && r[j].code == r[k].code ensures j == k {
        if j != t.id && k != t.id {
          assert r[j] == store[j] && r[k] == store[k];
        }
      }
    }
  }

  /** `deleteById` keeps every record filed under its id and every code held by one record. */
  lemma DeleteKeepsStoreInvariants(store: Store, id: ProductId)
    requires KeyedById(store) && CodesUnique(store)
    ensures KeyedById(DeleteSpec(store, id).store) && CodesUnique(DeleteSpec(store, id).store)
  {
  }

  // ---------------------------------------------------------------------------
  // Specification of the DTO and String layer

  /** `fromDomain` applied to a successful result. */
  function ToDto(o: Outcome<ProductState>): Outcome<DtoFields> {
    match o.result
    case Success(s) => Outcome(Success(FromDomainFields(s)), o.store)
    case Failure(e) => Outcome(Failure(e), o.store)
  }

  /** `create(ProductDTO)`: `toDomain`, then `create`, then `fromDomain`. */
  function CreateFromDtoSpec(store: Store, d: DtoFields, freshId: ProductId, now: Int64): Outcome<DtoFields> {
    match ToDomainFields(d, freshId)
    case Failure(e) => Outcome(Failure(e), store)
    case Success(s) => ToDto(CreateSpec(store, s, now))
  }

  /** `update(ProductDTO)`: `toDomain`, then `update`, then `fromDomain`. */
  function UpdateFromDtoSpec(store: Store, d: DtoFields, freshId: ProductId, now: Int64): Outcome<DtoFields> {
    match ToDomainFields(d, freshId)
    case Failure(e) => Outcome(Failure(e), store)
    case Success(s) => ToDto(UpdateSpec(store, s, now))
  }

  /** The DTO-level create is the Product-level create of what `toDomain` yields, or `toDomain`'s error. */
  lemma CreateFromDtoSteps(store: Store, d: DtoFields, freshId: ProductId, now: Int64)
    ensures ToDomainFields(d, freshId).Failure? ==>
      CreateFromDtoSpec(store, d, freshId, now) == Outcome(Failure(ToDomainFields(d, freshId).error), store)
    ensures ToDomainFields(d, freshId).Success? ==>
      CreateFromDtoSpec(store, d, freshId, now) == ToDto(CreateSpec(store, ToDomainFields(d, freshId).value, now))
  {
  }

  /** The DTO-level update is the Product-level update of what `toDomain` yields, or `toDomain`'s error. */
  lemma UpdateFromDtoSteps(store: Store, d: DtoFields, freshId: ProductId, now: Int64)
    ensures ToDomainFields(d, freshId).Failure? ==>
      UpdateFromDtoSpec(store, d, freshId, now) == Outcome(Failure(ToDomainFields(d, freshId).error), store)
    ensures ToDomainFields(d, freshId).Success? ==>
      UpdateFromDtoSpec(store, d, freshId, now) == ToDto(UpdateSpec(store, ToDomainFields(d, freshId).value, now))
  {
  }

  /** `deleteById(String)`: `ProductId.of(text)`, then `deleteById`. */
  function DeleteByTextSpec(store: Store, text: string): Outcome<()> {
    match Of(text)
    case Failure(e) => Outcome(Failure(InvalidId(e)), store)
    case Success(id) => DeleteSpec(store, id)
  }

  /**
   * A successful `create(ProductDTO)` with a canonical id answers with the
   * same id text and the same code (ProductServiceTest).
   */
  lemma {:induction false} CreateFromDtoEchoesIdAndCode(store: Store, d: DtoFields, freshId: ProductId, now: Int64)
    requires d.id.Some? && IsCanonicalText(d.id.value)
    requires CreateFromDtoSpec(store, d, freshId, now).result.Success?
    ensures CreateFromDtoSpec(store, d, freshId, now).result.value.id == d.id
    ensures CreateFromDtoSpec(store, d, freshId, now).result.value.code == d.code
  {
    ToStringOf(d.id.value);
  }

  /** A successful `update(ProductDTO)` with a canonical id answers with the same id text (ProductServiceTest). */
  lemma {:induction false} UpdateFromDtoEchoesId(store: Store, d: DtoFields, freshId: ProductId, now: Int64)
    requires d.id.Some? && IsCanonicalText(d.id.value)
    requires UpdateFromDtoSpec(store, d, freshId, now).result.Success?
    ensures UpdateFromDtoSpec(store, d, freshId, now).result.value.id == d.id
  {
    var m := ToDomainFields(d, freshId);
    assert m.Success?;
    var o := UpdateSpec(store, m.value, now);
    assert UpdateFromDtoSpec(store, d, freshId, now) == ToDto(o);
    assert o.result.value.id == m.value.id == Of(d.id.value).value;
    ToStringOf(d.id.value);
  }

  /**
   * Through the DTO layer a create never yields a record that breaks the
   * constructor's guards, and the id of the result reads back to the stored key.
   */
  lemma {:induction false} CreateFromDtoStoresValidRecord(store: Store, d: DtoFields, freshId: ProductId, now: Int64)
    requires CreateFromDtoSpec(store, d, freshId, now).result.Success?
    ensures var o := CreateFromDtoSpec(store, d, freshId, now);
      && o.result.value.id.Some?
      && Of(o.result.value.id.value).Success?
      && Of(o.result.value.id.value).value in o.store
      && Satisfies(o.store[Of(o.result.value.id.value).value])
  {
    var s := ToDomainFields(d, freshId).value;
    FromDomainReadsBack(StampOnCreate(s, now));
    assert Satisfies(StampOnCreate(s, now));
  }

  // ---------------------------------------------------------------------------
  // The service

  /** The stream filter of `update`: the first record, in list order, with the code and another id. */
  method FindFirstClash(all: seq<ProductState>, code: string, id: ProductId) returns (found: Option<ProductState>)
    ensures found.None? <==> forall i :: 0 <= i < |all| ==> !Clashes(all[i], code, id)
    ensures found.Some? ==>
      exists i :: 0 <= i < |all| && all[i] == found.value && Clashes(all[i], code, id)
               && forall j :: 0 <= j < i ==> !Clashes(all[j], code, id)
  {
    var i := 0;
    while i < |all|
      invariant 0 <= i <= |all|
      invariant forall j :: 0 <= j < i ==> !Clashes(all[j], code, id)
    {
      if Clashes(all[i], code, id) {
        return Some(all[i]);
      }
      i := i + 1;
    }
    return None;
  }

  /** `fromDomain` over a list, one new DTO per record, in order. */
  method MapFromDomain(all: seq<ProductState>) returns (r: seq<ProductDTO>)
    ensures |r| == |all|
    ensures forall i :: 0 <= i < |r| ==> fresh(r[i]) && r[i].Fields() == FromDomainFields(all[i])
  {
    r := [];
    var i := 0;
    while i < |all|
      invariant 0 <= i <= |all| && |r| == i
      invariant forall j :: 0 <= j < i ==> fresh(r[j]) && r[j].Fields() == FromDomainFields(all[j])
    {
      var d := new ProductDTO(FromDomainFields(all[i]));
      r := r + [d];
      i := i + 1;
    }
  }

  class ProductService {
    const repository: InMemoryProductRepository

    constructor (repository: InMemoryProductRepository)
      ensures this.repository == repository
    {
      this.repository := repository;
    }

    /** `create(Product)`: stamps `p` in place and saves it, unless its code is already in use. */
    method Create(p: Product, now: Int64) returns (r: Result<Product, ProductError>)
      requires repository.Valid()
      modifies repository, p
      ensures repository.Valid()
      ensures var o := CreateSpec(old(repository.store), old(p.State()), now);
        && repository.store == o.store
        && (o.result.Success? ==> r == Success(p) && p.State() == o.result.value)
        && (o.result.Failure? ==> r == Failure(o.result.error) && p.State() == old(p.State()))
      ensures repository.saveCalls == old(repository.saveCalls) + (if r.Success? then 1 else 0)
      ensures repository.deleteCalls == old(repository.deleteCalls)
      ensures CodesUnique(old(repository.store)) ==> CodesUnique(repository.store)
    {
      if CodesUnique(repository.store) {
        CreateKeepsStoreInvariants(repository.store, p.State(), now);
      }
      var taken := repository.ExistsByCode(p.code);
      if taken {
        return Failure(DuplicateCode(p.code));
      }
      var currentTime := now;
      if p.createdAt == 0 {
        p.SetCreatedAt(currentTime);
      }
      if p.updatedAt == 0 {
        p.SetUpdatedAt(currentTime);
      }
      var saved := repository.Save(p);
      return Success(saved);
    }

    /** `update(Product)`: checks the id, then scans for another record with the code, then stamps and saves. */
    method Update(p: Product, now: Int64) returns (r: Result<Product, ProductError>)
      requires repository.Valid()
      modifies repository, p
      ensures repository.Valid()
      ensures var o := UpdateSpec(old(repository.store), old(p.State()), now);
        && repository.store == o.store
        && (o.result.Success? ==> r == Success(p) && p.State() == o.result.value)
        && (o.result.Failure? ==> r == Failure(o.result.error) && p.State() == old(p.State()))
      ensures repository.saveCalls == old(repository.saveCalls) + (if r.Success? then 1 else 0)
      ensures repository.deleteCalls == old(repository.deleteCalls)
      ensures CodesUnique(old(repository.store)) ==> CodesUnique(repository.store)
    {
      if CodesUnique(repository.store) {
        UpdateKeepsStoreInvariants(repository.store, p.State(), now);
      }
      var id := p.id;
      var existing := repository.FindById(id);
      if existing.None? {
        return Failure(NotFound(id));
      }
      var all := repository.FindAll();
      var clash := FindFirstClash(all, p.code, id);
      if clash.Some? {
        assert clash.value.id in repository.store && Clashes(repository.store[clash.value.id], p.code, id);
        return Failure(DuplicateCode(p.code));
      }
      assert !CodeHeldElsewhere(repository.store, p.code, id) by {
        forall k | k in repository.store ensures !Clashes(repository.store[k], p.code, id) {
          assert repository.store[k] in all;
        }
      }
      p.SetUpdatedAt(now);
      var saved := repository.Save(p);
      return Success(saved);
    }

    /** `deleteById(ProductId)`: fails for an unknown id without touching storage; otherwise deletes. */
    method DeleteById(id: ProductId) returns (r: Result<(), ProductError>)
      requires repository.Valid()
      modifies repository
      ensures repository.Valid()
      ensures var o := DeleteSpec(old(repository.store), id);
        repository.store == o.store && r == o.result
      ensures repository.deleteCalls == old(repository.deleteCalls) + (if r.Success? then 1 else 0)
      ensures repository.saveCalls == old(repository.saveCalls)
      ensures CodesUnique(old(repository.store)) ==> CodesUnique(repository.store)
    {
      var existing := repository.FindById(id);
      if existing.None? {
        return Failure(NotFound(id));
      }
      repository.DeleteById(id);
      return Success(());
    }

    /** `getById(ProductId)`: the stored record, or empty (not an error) for an unknown id. */
    method GetById(id: ProductId) returns (r: Option<ProductState>)
      requires repository.Valid()
      ensures r.Some? <==> id in repository.store
      ensures r.Some? ==> r.value == repository.store[id] && r.value.id == id
    {
      r := repository.FindById(id);
    }

    /** `getAll()`: storage's list as it comes, every stored record once. */
    method GetAll() returns (all: seq<ProductState>)
      requires repository.Valid()
      ensures |all| == |repository.store|
      ensures forall i :: 0 <= i < |all| ==> all[i].id in repository.store && repository.store[all[i].id] == all[i]
      ensures forall k :: k in repository.store ==> repository.store[k] in all
    {
      all := repository.FindAll();
    }

    // The DTO and String signatures the use-case interfaces declare.

    /** `create(ProductDTO)`: `freshId` is the id `newId()` would draw for a DTO without one. */
    method CreateFromDto(dto: ProductDTO, freshId: ProductId, now: Int64) returns (r: Result<ProductDTO, ProductError>)
      requires repository.Valid()
      modifies repository
      ensures repository.Valid()
      ensures var o := CreateFromDtoSpec(old(repository.store), dto.Fields(), freshId, now);
        && repository.store == o.store
        && (o.result.Success? ==> r.Success? && fresh(r.value) && r.value.Fields() == o.result.value)
        && (o.result.Failure? ==> r == Failure(o.result.error))
      ensures repository.saveCalls == old(repository.saveCalls) + (if r.Success? then 1 else 0)
      ensures repository.deleteCalls == old(repository.deleteCalls)
    {
      ghost var fields, store := dto.Fields(), repository.store;
      var product := dto.ToDomain(freshId);
      if product.Failure? {
        CreateFromDtoSteps(store, fields, freshId, now);
        return Failure(product.error);
      }
      CreateFromDtoSteps(store, fields, freshId, now);
      var created := Create(product.value, now);
      if created.Failure? {
        return Failure(created.error);
      }
      var out := ProductDTO.FromDomain(created.value);
      return Success(out);
    }

    /** `update(ProductDTO)`: a DTO without an id gets `freshId`, which is normally not stored, so the update fails with NotFound. */
    method UpdateFromDto(dto: ProductDTO, freshId: ProductId, now: Int64) returns (r: Result<ProductDTO, ProductError>)
      requires repository.Valid()
      modifies repository
      ensures repository.Valid()
      ensures var o := UpdateFromDtoSpec(old(repository.store), dto.Fields(), freshId, now);
        && repository.store == o.store
        && (o.result.Success? ==> r.Success? && fresh(r.value) && r.value.Fields() == o.result.value)
        && (o.result.Failure? ==> r == Failure(o.result.error))
      ensures repository.saveCalls == old(repository.saveCalls) + (if r.Success? then 1 else 0)
      ensures repository.deleteCalls == old(repository.deleteCalls)
    {
      ghost var fields, store := dto.Fields(), repository.store;
      var product := dto.ToDomain(freshId);
      if product.Failure? {
        UpdateFromDtoSteps(store, fields, freshId, now);
        return Failure(product.error);
      }
      UpdateFromDtoSteps(store, fields, freshId, now);
      var updated := Update(product.value, now);
      if updated.Failure? {
        return Failure(updated.error);
      }
      var out := ProductDTO.FromDomain(updated.value);
      return Success(out);
    }

    /** `deleteById(String)`: malformed text is rejected before storage is consulted. */
    method DeleteByIdText(text: string) returns (r: Result<(), ProductError>)
      requires repository.Valid()
      modifies repository
      ensures repository.Valid()
      ensures var o := DeleteByTextSpec(old(repository.store), text);
        repository.store == o.store && r == o.result
      ensures repository.deleteCalls == old(repository.deleteCalls) + (if r.Success? then 1 else 0)
      ensures repository.saveCalls == old(repository.saveCalls)
    {
      var id := Of(text);
      if id.Failure? {
        return Failure(InvalidId(id.error));
      }
      r := DeleteById(id.value);
    }

    /** `getById(String)`: malformed text is an error; an unknown id is an empty answer. */
    method GetByIdText(text: string) returns (r: Result<Option<ProductDTO>, ProductError>)
      requires repository.Valid()
      ensures !IsUuidText(text) ==> r == Failure(InvalidId(MalformedText))
      ensures IsUuidText(text) ==> r.Success? && (r.value.Some? <==> Of(text).value in repository.store)
      ensures r.Success? && r.value.Some? ==>
        fresh(r.value.value) && r.value.value.Fields() == FromDomainFields(repository.store[Of(text).value])
    {
      var id := Of(text);
      if id.Failure? {
        return Failure(InvalidId(id.error));
      }
      var found := GetById(id.value);
      if found.None? {
        return Success(None);
      }
      var out := new ProductDTO(FromDomainFields(found.value));
      return Success(Some(out));
    }

    /** `getAll()` of the DTO interface: `fromDomain` over storage's list, in its order. */
    method GetAllDtos() returns (r: seq<ProductDTO>, ghost records: seq<ProductState>)
      requires repository.Valid()
      ensures |r| == |records| == |repository.store|
      ensures forall i :: 0 <= i < |records| ==> records[i].id in repository.store && repository.store[records[i].id] == records[i]
      ensures forall k :: k in repository.store ==> repository.store[k] in records
      ensures forall i :: 0 <= i < |r| ==> fresh(r[i]) && r[i].Fields() == FromDomainFields(records[i])
    {
      var all := GetAll();
      records := all;
      r := MapFromDomain(all);
    }
  }
}
