/**
 * The storage port (`save`, `findById`, `findAll`, `deleteById`,
 * `existsByCode`) as an in-memory map from id to the stored record. A stored
 * record is a value: later changes to the saved object do not reach it.
 */
module ProductRepositories {
  import opened Wrappers
  import opened ProductIds
  import opened Products

  type Store = map<ProductId, ProductState>

  /** Each record is filed under its own id. */
  predicate KeyedById(store: Store) {
    forall k :: k in store ==> store[k].id == k
  }

  /** Some stored record has this code. */
  predicate CodeInUse(store: Store, code: string) {
    exists k :: k in store && store[k].code == code
  }

  /** No two stored records share a code (the business key the service protects). */
  predicate CodesUnique(store: Store) {
    forall j, k :: j in store && k in store && store[j].code == store[k].code ==> j == k
  }

  /** The upsert rule of `save`: insert when the id is new, overwrite the record when it is not. */
  function Upsert(store: Store, s: ProductState): (r: Store)
    ensures r.Keys == store.Keys + {s.id}
    ensures s.id in r && r[s.id] == s
    ensures forall k :: k in store && k != s.id ==> r[k] == store[k]
    ensures s.id in store ==> |r| == |store|
    ensures s.id !in store ==> |r| == |store| + 1
    ensures KeyedById(store) ==> KeyedById(r)
  {
    store[s.id := s]
  }

  /** Saving twice under one id leaves one record, the latest. */
  lemma {:induction false} SaveTwiceKeepsOne(store: Store, s: ProductState, t: ProductState)
    requires s.id == t.id
    ensures Upsert(Upsert(store, s), t) == Upsert(store, t)
  {
  }

  class InMemoryProductRepository {
    var store: Store
    /** How many times `save` and `deleteById` have been called: the mocks' `verify(...)` counts. */
    ghost var saveCalls: nat
    ghost var deleteCalls: nat

    ghost predicate Valid()
      reads this
    {
      KeyedById(store)
    }

    constructor ()
      ensures Valid() && store == map[] && saveCalls == 0 && deleteCalls == 0
    {
      store := map[];
      saveCalls, deleteCalls := 0, 0;
    }

    /** `save(product)`: upserts the product's current fields and returns the same object. */
    method Save(p: Product) returns (saved: Product)
      requires Valid()
      modifies this
      ensures Valid()
      ensures saved == p
      ensures store == Upsert(old(store), p.State())
      ensures saveCalls == old(saveCalls) + 1 && deleteCalls == old(deleteCalls)
    {
      store := Upsert(store, p.State());
      saveCalls := saveCalls + 1;
      saved := p;
    }

    /** `findById(id)`: the record filed under `id`, or empty. */
    method FindById(id: ProductId) returns (r: Option<ProductState>)
      requires Valid()
      ensures r.Some? <==> id in store
      ensures r.Some? ==> r.value == store[id] && r.value.id == id
    {
      if id in store {
        r := Some(store[id]);
      } else {
        r := None;
      }
    }

    /** `findAll()`: every stored record exactly once, in no particular order. */
    method FindAll() returns (all: seq<ProductState>)
      requires Valid()
      ensures |all| == |store|
      ensures forall i :: 0 <= i < |all| ==> all[i].id in store && store[all[i].id] == all[i]
      ensures forall k :: k in store ==> store[k] in all
      ensures forall i, j :: 0 <= i < j < |all| ==> all[i].id != all[j].id
    {
      all := [];
      var pending := store.Keys;
      while pending != {}
        invariant pending <= store.Keys
        invariant |all| + |pending| == |store|
        invariant forall i :: 0 <= i < |all| ==> all[i].id in store && all[i].id !in pending && store[all[i].id] == all[i]
        invariant forall k :: k in store && k !in pending ==> store[k] in all
        invariant forall i, j :: 0 <= i < j < |all| ==> all[i].id != all[j].id
        decreases pending
      {
        var k :| k in pending;
        all := all + [store[k]];
        pending := pending - {k};
      }
    }

    /** `deleteById(id)`: removes the record filed under `id`, if any. */
    method DeleteById(id: ProductId)
      requires Valid()
      modifies this
      ensures Valid()
      ensures store == old(store) - {id}
      ensures deleteCalls == old(deleteCalls) + 1 && saveCalls == old(saveCalls)
    {
      store := store - {id};
      deleteCalls := deleteCalls + 1;
    }

    /** `existsByCode(code)`: whether some stored record has this code. */
    method ExistsByCode(code: string) returns (b: bool)
      ensures b <==> CodeInUse(store, code)
    {
      b := exists k | k in store :: store[k].code == code;
    }
  }
}
