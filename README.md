# Product lifecycle core, modelled in Dafny

This project models the product lifecycle of the product-trial backend:

- the `Product` aggregate, whose constructor runs seven guard checks and whose setters change one field each without re-checking;
- the `ProductValidation` record and the `ProductValidator` facade, which repeat the same guards;
- `ProductId`, a wrapper around a 128-bit UUID with a canonical text form, a parser, a `long` conversion and value equality;
- `ProductDTO`, whose `fromDomain`/`toDomain` mapping defaults a missing id and a missing inventory status;
- the `ProductRepository` storage port, as an in-memory map from id to the stored record;
- `ProductService`, which creates, updates, deletes and queries products through the port.

Files, one module each:

- `wrappers.dfy`: `Option` and `Result`. `Result` stands in for a thrown exception; `Option` for a Java null or an `Optional`.
- `java_lang.dfy`: the Java `int`/`long` ranges and `String.trim`/blank.
- `hex.dfy`: fixed-width hexadecimal encoding and decoding.
- `product_id.dfy`: `ProductId`.
- `product.dfy`: `Product` and `InventoryStatus`.
- `product_validation.dfy` and `product_validator.dfy`: `ProductValidation` and `ProductValidator`.
- `product_errors.dfy`: the failures the service and the DTO layer report.
- `product_dto.dfy`: `ProductDTO`.
- `product_repository.dfy`: the storage port.
- `product_service.dfy`: `ProductService`.

Classes model what the Java code updates in place: `Product`, `ProductDTO`, the repository and the service. Each class exposes its fields as one value (`State()` or `Fields()`), and each mutating method states the whole new state in those terms. Pure logic is written as functions: the guard chain, id parsing and printing, the DTO mapping, and the service's decision for each operation (`CreateSpec`, `UpdateSpec`, `DeleteSpec`). Each service method is proved to produce exactly that function's result and store.

Inputs the Java code takes from the environment become parameters:

- `System.currentTimeMillis()` becomes `now`;
- the UUID that `ProductId.newId()` would draw becomes `freshId`.

Ghost counters on the repository (`saveCalls`, `deleteCalls`) record how often `save` and `deleteById` ran. This makes statements such as "save is never called" checkable.

## Model

| member | source | states |
|---|---|---|
| JavaLang.TrimEmptyIffBlank | backend/domain/src/main/java/com/example/domain/product/Product.java:27-30 | `s.trim().isEmpty()` holds exactly when every character of `s` is at most U+0020, the form the guards are stated in |
| Products.StatusName | backend/application/src/main/java/com/example/application/product/dto/ProductDTO.java:60 | `name()` of a constant is a name `valueOf` reads back to that constant |
| Products.StatusValueOf | backend/application/src/main/java/com/example/application/product/dto/ProductDTO.java:70-71 | `InventoryStatus.valueOf` accepts exactly the three constant names, case-sensitively |
| Products.StatusNameRoundTrip | backend/application/src/main/java/com/example/application/product/dto/ProductDTO.java:60-71 | `valueOf(s.name()) == s` for every status, and `name()` gives back any accepted name |
| Products.Construct | backend/domain/src/main/java/com/example/domain/product/Product.java:25-46 | construction succeeds iff all seven guards hold; each failure cause holds iff its guard is the first to fail, in the order quantity, price, code, name, category, internal reference, rating; on success every field is its argument, untrimmed, and the guards hold of the result |
| Products.BlankArgumentRejected | backend/domain/src/main/java/com/example/domain/product/Product.java:27-30 | the guard on a code, name, category or internal reference rejects exactly when Java's test holds: the string is null, or its `trim()` is empty |
| Products.RatingBounds | backend/domain/src/main/java/com/example/domain/product/Product.java:31 | with the other arguments valid, ratings 0 and 5 are accepted and -1 and 10 are rejected with the rating cause |
| Products.EmptyStringsRejected | backend/domain/src/test/java/com/example/domain/product/ProductTest.java:55-140 | with a valid quantity and price, an empty or null code, name, category or internal reference (the earlier strings non-blank) makes the constructor fail with that field's cause |
| Products.Product.New | backend/domain/src/main/java/com/example/domain/product/Product.java:24-47 | returns a fresh product whose fields are the result of the guard chain, or that chain's failure cause; a returned product is `Valid()` |
| Products.Product.SetId | backend/domain/src/main/java/com/example/domain/product/Product.java:50 | changes `id` only |
| Products.Product.SetCode | backend/domain/src/main/java/com/example/domain/product/Product.java:52 | changes `code` only, without re-checking it |
| Products.Product.SetName | backend/domain/src/main/java/com/example/domain/product/Product.java:54 | changes `name` only, without re-checking it |
| Products.Product.SetDescription | backend/domain/src/main/java/com/example/domain/product/Product.java:56 | changes `description` only |
| Products.Product.SetImage | backend/domain/src/main/java/com/example/domain/product/Product.java:58 | changes `image` only |
| Products.Product.SetCategory | backend/domain/src/main/java/com/example/domain/product/Product.java:60 | changes `category` only, without re-checking it |
| Products.Product.SetPrice | backend/domain/src/main/java/com/example/domain/product/Product.java:62 | changes `price` only, without re-checking it |
| Products.Product.SetQuantity | backend/domain/src/main/java/com/example/domain/product/Product.java:64 | changes `quantity` only, without re-checking it |
| Products.Product.SetInternalReference | backend/domain/src/main/java/com/example/domain/product/Product.java:66 | changes `internalReference` only, without re-checking it |
| Products.Product.SetShellId | backend/domain/src/main/java/com/example/domain/product/Product.java:68 | changes `shellId` only |
| Products.Product.SetInventoryStatus | backend/domain/src/main/java/com/example/domain/product/Product.java:70 | changes `inventoryStatus` only |
| Products.Product.SetCreatedAt | backend/application/src/main/java/com/example/application/product/service/ProductService.java:36-38 | changes `createdAt` only (the accessor the service calls) |
| Products.Product.SetUpdatedAt | backend/application/src/main/java/com/example/application/product/service/ProductService.java:39-41 | changes `updatedAt` only (the accessor the service calls) |
| Products.SetterSkipsGuards | backend/domain/src/main/java/com/example/domain/product/Product.java:64 | a valid product given quantity -1 by its setter is no longer valid: setters do not re-establish the constructor's invariant |
| ProductIds.OfUuid | backend/domain/src/main/java/com/example/domain/product/ProductId.java:9-13 | `of(UUID)` wraps any UUID unchanged and rejects null with a null-value error |
| ProductIds.ToLong | backend/domain/src/main/java/com/example/domain/product/ProductId.java:21 | `toLong()` is the least significant 64 bits read as a signed `long` (congruent to them modulo 2^64) |
| ProductIds.OfLong | backend/domain/src/main/java/com/example/domain/product/ProductId.java:15 | `of(Long v)` has all-zero most significant bits and `toLong()` gives back `v`, for every 64-bit `v` |
| ProductIds.EqualIdsHaveEqualHashes | backend/domain/src/main/java/com/example/domain/product/ProductId.java:24-27 | equal ids have equal `hashCode()` |
| ProductIds.HashCode | backend/domain/src/main/java/com/example/domain/product/ProductId.java:27 | `hashCode()` is `UUID.hashCode`: the halves XOR-ed, the two 32-bit words of that XOR-ed, read as a signed `int`; an id whose halves are equal hashes to 0 |
| ProductIds.FoldSamples | backend/domain/src/main/java/com/example/domain/product/ProductId.java:27 | the fold XORs the high and low words: a value with an empty high word is its own fold, all bits set fold to 0, bit 32 folds to bit 0, and the halves of the test's sample UUID fold to 0x4ae455d2 |
| ProductIds.SignedSamples | backend/domain/src/main/java/com/example/domain/product/ProductId.java:27 | the folded word is read as a two's-complement `int`: 0x80000000 is the least `int` and 0xffffffff is -1 |
| ProductIds.ToString | backend/domain/src/main/java/com/example/domain/product/ProductId.java:23 | `toString()` is canonical 8-4-4-4-12 lower-case hexadecimal text |
| ProductIds.Of | backend/domain/src/main/java/com/example/domain/product/ProductId.java:14 | `of(String)` succeeds iff the text is 36 characters of hex digits with dashes at positions 8, 13, 18 and 23; otherwise it fails with a malformed-text error |
| ProductIds.OfToString | backend/domain/src/main/java/com/example/domain/product/ProductId.java:14-23 | `of(x.toString())` equals `x` for every id |
| ProductIds.ToStringOf | backend/domain/src/main/java/com/example/domain/product/ProductId.java:14-23 | canonical text `t` parses, and `of(t).toString() == t` |
| ProductIds.TextDeterminesId | backend/domain/src/main/java/com/example/domain/product/ProductId.java:23-26 | two ids print the same text iff they are equal |
| ProductIds.RejectsInvalidUuid | backend/domain/src/test/java/com/example/domain/product/ProductIdTest.java:12-17 | `of("invalid-uuid")` is rejected |
| ProductIds.LongRoundTripSample | backend/domain/src/test/java/com/example/domain/product/ProductIdTest.java:36-40 | `of(123456789L).toLong() == 123456789` |
| ProductIds.SampleTextRoundTrip | backend/domain/src/test/java/com/example/domain/product/ProductIdTest.java:24-28 | the sample UUID text parses and prints back unchanged |
| ProductValidations.NewProductValidation | backend/domain/src/main/java/com/example/domain/product/ProductValidation.java:3-25 | the record is built iff all seven guards hold, and then each component equals its argument |
| ProductValidations.SameVerdictAsProduct | backend/domain/src/main/java/com/example/domain/product/ProductValidation.java:18-24 | the record accepts exactly the arguments the Product constructor accepts, rejects the others with the same first cause, and keeps the same checked strings |
| ProductValidators.Validate | backend/domain/src/main/java/com/example/domain/product/ProductValidator.java:6-13 | returns normally iff the guards hold, with the components equal to the arguments position by position; otherwise propagates the record's own error |
| ProductDtos.FromDomainFields | backend/application/src/main/java/com/example/application/product/dto/ProductDTO.java:48-65 | `fromDomain` copies every field unchanged, writing the id as its `toString()` text and the status as its constant's name |
| ProductDtos.FromDomainReadsBack | backend/application/src/main/java/com/example/application/product/dto/ProductDTO.java:48-71 | the id text `fromDomain` writes is canonical and parses back to the id, and the status name is read back by `valueOf` to the status |
| ProductDtos.ResolveId | backend/application/src/main/java/com/example/application/product/dto/ProductDTO.java:68 | a null id yields the freshly drawn id; any other text is parsed, and malformed text is an error |
| ProductDtos.ResolveStatus | backend/application/src/main/java/com/example/application/product/dto/ProductDTO.java:70-71 | a null status yields INSTOCK; any other must be a constant's name, otherwise the unknown name is the error |
| ProductDtos.ToDomainFields | backend/application/src/main/java/com/example/application/product/dto/ProductDTO.java:67-89 | `toDomain` fails on a malformed id exactly when the id is present and malformed; on success the product satisfies the guards, carries the DTO's fields, and has the resolved id and status |
| ProductDtos.UnknownStatusRejected | backend/application/src/main/java/com/example/application/product/dto/ProductDTO.java:71 | with an acceptable id, an unknown status name fails `toDomain` with that name, whatever the other fields are |
| ProductDtos.ToDomainFailsIffGuardsFail | backend/application/src/main/java/com/example/application/product/dto/ProductDTO.java:73-88 | with a well-formed id and status, `toDomain` fails exactly when the Product guards fail, with the constructor's cause |
| ProductDtos.ToDomainFromDomain | backend/application/src/main/java/com/example/application/product/dto/ProductDTO.java:48-89 | `toDomain(fromDomain(p))` gives back every field of `p`, id included, when `p` satisfies the guards; otherwise it fails |
| ProductDtos.ProductDTO.Empty | backend/application/src/main/java/com/example/application/product/dto/ProductDTO.java:25-27 | the default constructor leaves every reference field null and every number 0 |
| ProductDtos.ProductDTO.constructor | backend/application/src/main/java/com/example/application/product/dto/ProductDTO.java:29-46 | the all-arguments constructor stores each argument in its field |
| ProductDtos.ProductDTO.FromDomain | backend/application/src/main/java/com/example/application/product/dto/ProductDTO.java:48-65 | returns a new DTO holding the mapping of the product's current fields |
| ProductDtos.ProductDTO.ToDomain | backend/application/src/main/java/com/example/application/product/dto/ProductDTO.java:67-89 | returns a new product exactly when the mapping succeeds, holding its result; otherwise returns the mapping's error |
| ProductDtos.ProductDTO.SetId | backend/application/src/main/java/com/example/application/product/dto/ProductDTO.java:96-98 | changes `id` only |
| ProductDtos.ProductDTO.SetCode | backend/application/src/main/java/com/example/application/product/dto/ProductDTO.java:104-106 | changes `code` only |
| ProductDtos.ProductDTO.SetName | backend/application/src/main/java/com/example/application/product/dto/ProductDTO.java:112-114 | changes `name` only |
| ProductDtos.ProductDTO.SetDescription | backend/application/src/main/java/com/example/application/product/dto/ProductDTO.java:120-122 | changes `description` only |
| ProductDtos.ProductDTO.SetImage | backend/application/src/main/java/com/example/application/product/dto/ProductDTO.java:128-130 | changes `image` only |
| ProductDtos.ProductDTO.SetCategory | backend/application/src/main/java/com/example/application/product/dto/ProductDTO.java:136-138 | changes `category` only |
| ProductDtos.ProductDTO.SetPrice | backend/application/src/main/java/com/example/application/product/dto/ProductDTO.java:144-146 | changes `price` only |
| ProductDtos.ProductDTO.SetQuantity | backend/application/src/main/java/com/example/application/product/dto/ProductDTO.java:152-154 | changes `quantity` only |
| ProductDtos.ProductDTO.SetInternalReference | backend/application/src/main/java/com/example/application/product/dto/ProductDTO.java:160-162 | changes `internalReference` only |
| ProductDtos.ProductDTO.SetShellId | backend/application/src/main/java/com/example/application/product/dto/ProductDTO.java:168-170 | changes `shellId` only |
| ProductDtos.ProductDTO.SetInventoryStatus | backend/application/src/main/java/com/example/application/product/dto/ProductDTO.java:176-178 | changes `inventoryStatus` only |
| ProductDtos.ProductDTO.SetRating | backend/application/src/main/java/com/example/application/product/dto/ProductDTO.java:184-186 | changes `rating` only |
| ProductDtos.ProductDTO.SetCreatedAt | backend/application/src/main/java/com/example/application/product/dto/ProductDTO.java:192-194 | changes `createdAt` only |
| ProductDtos.ProductDTO.SetUpdatedAt | backend/application/src/main/java/com/example/application/product/dto/ProductDTO.java:200-202 | changes `updatedAt` only |
| ProductRepositories.Upsert | backend/infrastructure/src/main/java/com/example/infrastructure/product/persistence/PostgresProductRepository.java:51-58 | `save` inserts a new id and overwrites a stored one; the size grows by one only for a new id; other records are untouched; records stay filed under their own ids |
| ProductRepositories.SaveTwiceKeepsOne | backend/infrastructure/src/main/java/com/example/infrastructure/product/persistence/PostgresProductRepository.java:51-58 | two saves under one id leave one record, the latest |
| ProductRepositories.InMemoryProductRepository.constructor | backend/application/src/main/java/com/example/application/product/port/out/ProductRepository.java:12-27 | a new store is empty |
| ProductRepositories.InMemoryProductRepository.Save | backend/application/src/main/java/com/example/application/product/port/out/ProductRepository.java:13-14 | `save(p)` upserts p's current fields and returns p itself |
| ProductRepositories.InMemoryProductRepository.FindById | backend/application/src/main/java/com/example/application/product/port/out/ProductRepository.java:16-17 | `findById` is present iff the id is stored, and then is the record saved last under it |
| ProductRepositories.InMemoryProductRepository.FindAll | backend/application/src/main/java/com/example/application/product/port/out/ProductRepository.java:19-20 | `findAll` lists every stored record exactly once, in no particular order |
| ProductRepositories.InMemoryProductRepository.DeleteById | backend/application/src/main/java/com/example/application/product/port/out/ProductRepository.java:22-23 | `deleteById` removes the id and nothing else |
| ProductRepositories.InMemoryProductRepository.ExistsByCode | backend/application/src/main/java/com/example/application/product/port/out/ProductRepository.java:25-26 | `existsByCode(c)` iff some stored record has code `c` |
| ProductServices.CreateRejectsTakenCode | backend/application/src/main/java/com/example/application/product/service/ProductService.java:30-32 | `create` with a code in use fails with a duplicate-code error and leaves the store unchanged |
| ProductServices.CreateStampsAndStores | backend/application/src/main/java/com/example/application/product/service/ProductService.java:35-43 | a successful `create` sets each timestamp to `now` only where it was 0, changes no other field, and stores the result under its id |
| ProductServices.CreateStampsFreshProduct | backend/application/src/main/java/com/example/application/product/service/ProductService.java:35-41 | a product with both timestamps 0 comes out with both equal to `now` |
| ProductServices.CreateOverwritesStoredId | backend/application/src/main/java/com/example/application/product/service/ProductService.java:28-44 | `create` with a stored id and an unused code replaces that record: the store's size stays the same and the old record is gone |
| ProductServices.UpdateRejectsUnknownId | backend/application/src/main/java/com/example/application/product/service/ProductService.java:49-52 | `update` of an id with no record fails with not-found whatever the code, and the store is unchanged |
| ProductServices.UpdateRejectsCodeHeldElsewhere | backend/application/src/main/java/com/example/application/product/service/ProductService.java:55-61 | once the id is found, a code held by a record with another id fails with a duplicate-code error and the store is unchanged |
| ProductServices.UpdateAcceptsOwnCode | backend/application/src/main/java/com/example/application/product/service/ProductService.java:55-57 | in a store with unique codes, a record keeping its own code is not a duplicate: the update succeeds |
| ProductServices.UpdateStampsAndStores | backend/application/src/main/java/com/example/application/product/service/ProductService.java:64-66 | a successful `update` sets `updatedAt` to `now`, keeps every other field as given, and overwrites the record without changing the store's size |
| ProductServices.DeleteOutcomes | backend/application/src/main/java/com/example/application/product/service/ProductService.java:70-77 | `deleteById` of an unknown id fails with not-found and changes nothing; of a known id, removes exactly one record |
| ProductServices.CreateKeepsStoreInvariants | backend/application/src/main/java/com/example/application/product/service/ProductService.java:28-44 | `create` keeps records filed under their ids and keeps codes unique |
| ProductServices.UpdateKeepsStoreInvariants | backend/application/src/main/java/com/example/application/product/service/ProductService.java:47-67 | `update` keeps records filed under their ids and keeps codes unique |
| ProductServices.DeleteKeepsStoreInvariants | backend/application/src/main/java/com/example/application/product/service/ProductService.java:70-77 | `deleteById` keeps records filed under their ids and keeps codes unique |
| ProductServices.CreateFromDtoEchoesIdAndCode | backend/application/src/test/java/com/example/application/product/service/ProductServiceTest.java:59-76 | a successful create through the DTO layer answers with the DTO's own id text and code |
| ProductServices.UpdateFromDtoEchoesId | backend/application/src/test/java/com/example/application/product/service/ProductServiceTest.java:94-111 | a successful update through the DTO layer answers with the DTO's own id text |
| ProductServices.CreateFromDtoStoresValidRecord | backend/application/src/main/java/com/example/application/product/service/ProductService.java:28-44 | a successful create through the DTO layer stores, under the answered id, a record that satisfies the constructor's guards |
| ProductServices.FindFirstClash | backend/application/src/main/java/com/example/application/product/service/ProductService.java:55-57 | the stream filter finds nothing iff no listed record has the code under another id; otherwise it returns the first such record in list order |
| ProductServices.MapFromDomain | backend/application/src/main/java/com/example/application/product/dto/ProductDTO.java:48-65 | one new DTO per record, in order, each holding `fromDomain` of its record |
| ProductServices.ProductService.constructor | backend/application/src/main/java/com/example/application/product/service/ProductService.java:23-25 | the service keeps the repository it is given |
| ProductServices.ProductService.Create | backend/application/src/main/java/com/example/application/product/service/ProductService.java:28-44 | produces exactly the result and store of the create rule, stamps the argument product in place, calls `save` once on success and never on failure, and never deletes |
| ProductServices.ProductService.Update | backend/application/src/main/java/com/example/application/product/service/ProductService.java:47-67 | produces exactly the result and store of the update rule (existence first, then the code scan), stamps `updatedAt` in place, calls `save` once on success and never on failure |
| ProductServices.ProductService.DeleteById | backend/application/src/main/java/com/example/application/product/service/ProductService.java:70-77 | produces exactly the result and store of the delete rule and calls storage delete only for a known id |
| ProductServices.ProductService.GetById | backend/application/src/main/java/com/example/application/product/service/ProductService.java:80-82 | present iff the id is stored, and then the stored record; an unknown id is empty, not an error |
| ProductServices.ProductService.GetAll | backend/application/src/main/java/com/example/application/product/service/ProductService.java:85-87 | storage's list: every stored record, each once |
| ProductServices.ProductService.CreateFromDto | backend/application/src/main/java/com/example/application/product/port/in/CreateProductUseCase.java:14 | `toDomain`, then `create`, then `fromDomain`: the answer and the store are those of the composed rule; `save` is called once on success and never on failure, and nothing is deleted |
| ProductServices.ProductService.UpdateFromDto | backend/application/src/main/java/com/example/application/product/port/in/UpdateProductUseCase.java:12 | `toDomain`, then `update`, then `fromDomain`: the answer and the store are those of the composed rule; `save` is called once on success and never on failure, and nothing is deleted |
| ProductServices.ProductService.DeleteByIdText | backend/application/src/main/java/com/example/application/product/port/in/DeleteProductUseCase.java:8 | malformed id text fails before storage is touched; otherwise the delete rule applies |
| ProductServices.ProductService.GetByIdText | backend/application/src/main/java/com/example/application/product/port/in/GetProductsUseCase.java:13 | malformed id text is an error; otherwise the answer is present iff the id is stored, and holds `fromDomain` of the record |
| ProductServices.ProductService.GetAllDtos | backend/application/src/main/java/com/example/application/product/port/in/GetProductsUseCase.java:16 | `fromDomain` of every stored record, each once |

## Left out

- `ProductId.newId()` draws a random UUID. The model takes the drawn value as the `freshId` parameter and proves nothing about uniqueness.
- The wall clock is the `now` parameter.
- `ProductId.of(String)` accepts only the 36-character dashed form, in either letter case. Java's `UUID.fromString` is a library outside this model, and its leniency is not modelled: shorter groups, and the per-group `Long.parseLong` fallback that also accepts a leading `+` or non-ASCII digits. A null string is not modelled either.
- `ProductId.of(Long)` given a null `Long` throws a NullPointerException when it unboxes the value. The model takes a 64-bit integer, so that case does not arise.
- `double` price: the model uses a real, so NaN and rounding are not captured. Only the sign test matters to the guards.
- The image is an opaque byte sequence. Byte-array aliasing between a product, its DTO and the stored record is not modelled.
- `Product`'s id and inventory status are never null in the model. `toDomain` and the storage mapping always supply both. The Product setters that would store a null string, id or status are not modelled.
- `Product.java` does not declare `getRating`, `getCreatedAt`, `getUpdatedAt`, `setCreatedAt` or `setUpdatedAt`, though `ProductService.java` and `ProductDTO.java` call them. The model supplies plain field accessors for the two setters; getters everywhere are plain field reads.
- The storage port stores values. A record read back is the saved field values, not a new object built by a row mapper. The storage mapping's re-run of the constructor guards is not modelled.
- ProductRepositories.InMemoryProductRepository.Save: overwrites the whole record on an existing id. The Postgres UPDATE keeps the stored `created_at` (PostgresProductRepository.java lines 84-87); that difference is not modelled.
- `ProductService`'s bodies take `Product` and `ProductId`, but it declares the DTO and `String` interfaces. Both are modelled: the Product-level operations as written, and the DTO/`String` layer as the composition of `toDomain`, `ProductId.of` and `fromDomain` with them.
- Concurrency: the check-then-save sequences are not atomic in the source. The model is single-threaded.
- Exception messages are not modelled; an error value carries the cause (duplicate code, not found, malformed id, unknown status, failed guard).
- SQL, JDBC, the REST controller, its exception handler and configuration are outside this model.
