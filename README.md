# Product services: verified model of query building and resource lifecycle

This project models the core of a small Go CRUD backend for a product
catalogue (products, brands, users, variants, warehouses and stock
quantities). It covers two groups of logic.

1. **Product query composition** (`ProductQuery`). `SearchProducts` grows an
   SQL text and a positional argument list, one step per non-empty filter.
   `SortProducts` maps a sort key through an allow-list. `PaginateProducts`
   computes a LIMIT/OFFSET window in 64-bit arithmetic. Statements are
   modelled as text plus arguments. The proofs cover these properties:
   - the `?` placeholders and the arguments stay aligned one to one;
   - clause order is fixed;
   - user text reaches only the arguments, never the statement text;
   - the allow-list is enforced;
   - pages in range do not overlap.
2. **Resource lifecycle** (`Common`, `ProductModel`, `ProductRepository`,
   `Brands`, `Users`, `Variants`, `Warehouse`).
   - Each repository is a class holding a `map` from identity to a row. The
     row has the columns the repository's write statements name; a column
     that the insert does not name is null after the insert.
   - Every `Create` is checked against one existence-gated insert, `Common.GatedInsert`.
   - `UpdateProduct` needs the identity to exist.
   - Each `ResolveByID` maps read errors in its own way.
   - `Product` carries a soft-delete state machine.
   - Every "from request" constructor stamps a fresh identity and audit fields.

Some inputs become explicit parameters:
- each failure of the existence query, of `PrepareNamed` and of `Exec` is an
  `Option<DbError>` input;
- `uuid.NewV4` becomes `freshId`, `time.Now` becomes `now`, and the
  database's `NOW()` becomes `dbNow`.

## Model

| member | source | states |
|---|---|---|
| Common.WriteFailure | internal/domain/products/products_repository.go:274-288 | a prepared write fails exactly when PrepareNamed or Exec fails; a prepare failure is the one reported, and after a successful prepare the Exec failure is |
| Common.GatedInsertSucceedsIff | internal/domain/brands/brand_repository.go:50-73 | a gated create succeeds iff the existence query worked, the id was absent and the write went through; then the row is stored under the id, the table grows by one and no other row changes |
| Common.GatedInsertWritesOnlyOnSuccess | internal/domain/users/users_repository.go:62-86 | the table changes only on success, and then only by storing the new row |
| Common.GatedInsertConflict | internal/domain/warehouse/werehouse_repository.go:51-55 | a present id gives Conflict("create", entity, "already exists") and leaves the table unchanged, whatever the write would have done |
| Common.GatedInsertExistsErrorFirst | internal/domain/variants/variants_repository.go:41-45 | an existence-query error is returned unchanged before anything is written |
| Common.GatedInsertNotRepeatable | internal/domain/products/products_repository.go:110-121 | after a successful create, a second create of the same id is refused with Conflict |
| Common.GatedInsertThenFetch | internal/domain/brands/brand_repository.go:87-91 | after a successful create, reading the id yields the inserted row and every other id reads as before |
| ProductQuery.AppendFilters | internal/domain/products/products_repository.go:189-209 | the four filter steps append the clauses of exactly the non-empty filters, in fixed order, to the text, and their bound values to the arguments |
| ProductQuery.SearchProducts | internal/domain/products/products_repository.go:163-219 | the statement is the fixed base, the active clauses and the fixed ORDER BY, with as many placeholders as arguments |
| ProductQuery.SearchPlaceholdersMatchArgs | internal/domain/products/products_repository.go:189-211 | the search text holds exactly as many `?` as there are arguments |
| ProductQuery.SearchArgumentAligned | internal/domain/products/products_repository.go:189-209 | for any placeholder-free base and any ORDER BY, argument i belongs to the i-th placeholder: the text before the i-th active clause holds exactly i placeholders, and argument i is that filter's `%`-wrapped name or its verbatim status |
| ProductQuery.SearchClausesInFixedOrder | internal/domain/products/products_repository.go:191-209 | there is a clause exactly for each non-empty filter, in the order brand, product, variant, status |
| ProductQuery.SearchTextDependsOnlyOnEmptiness | internal/domain/products/products_repository.go:164-211 | for any base and ORDER BY, the fixed ones included, two requests whose filters are empty in the same places give the same statement text, so filter values reach only the arguments |
| ProductQuery.SearchIgnoresSortAndPaging | internal/domain/products/products_repository.go:163-219 | for any base and ORDER BY, the fixed ones included, SortBy, Page and PageSize do not affect the search statement or its arguments |
| ProductQuery.SearchWithoutFilters | internal/domain/products/products_repository.go:164-211 | with every filter empty, the statement is the base (for the search, the select ending in `WHERE 1 = 1`) followed directly by the ORDER BY, with no arguments |
| ProductQuery.SearchBaseHasNoPlaceholders | internal/domain/products/products_repository.go:164-187 | the fixed search base contains no placeholder |
| ProductQuery.SelectProductsHasNoPlaceholders | internal/domain/products/products_repository.go:23-49 | the fixed product select contains no placeholder |
| ProductQuery.SortQuery | internal/domain/products/products_repository.go:222-232 | a statement is issued exactly for the keys `createdAt` and `stock`: `createdAt` gives the select with ORDER BY p.createdAt DESC and `stock` the select with ORDER BY q.quantity DESC, both with no arguments; any other key gives "unsupported sorting field: " followed by the key |
| ProductQuery.SortProducts | internal/domain/products/products_repository.go:221-239 | on selectProducts, a statement is issued exactly for `createdAt` and `stock`, any other key gives the unsupported-field error, and an issued statement has neither placeholders nor arguments |
| ProductQuery.SortTextIsAllowListed | internal/domain/products/products_repository.go:222-232 | whatever the key, an issued sort statement is one of exactly two texts, has no arguments, and has no placeholders when the select it extends has none, so the sort key never reaches the text |
| ProductQuery.Wrap64 | internal/domain/products/products_repository.go:241 | 64-bit wrap-around lands in range, is the identity in range and differs from the exact value by a multiple of 2^64 |
| ProductQuery.PageQuery | internal/domain/products/products_repository.go:241-244 | paging a select appends ` LIMIT ? OFFSET ?` to its text, adds exactly as many placeholders as arguments, and binds the page size then the offset (page-1)*pageSize in 64-bit arithmetic |
| ProductQuery.PaginateProducts | internal/domain/products/products_repository.go:240-249 | the arguments are [pageSize, (page-1)*pageSize in 64-bit arithmetic], in that order |
| ProductQuery.PaginatePlaceholdersMatchArgs | internal/domain/products/products_repository.go:242-244 | the paged selectProducts holds exactly two placeholders, one for each argument |
| ProductQuery.PageOffsetExact | internal/domain/products/products_repository.go:241 | for pages in range the offset is the exact product (page-1)*pageSize |
| ProductQuery.FirstPageStartsAtZero | internal/domain/products/products_repository.go:241 | page 1 has offset 0 |
| ProductQuery.NextPageFollows | internal/domain/products/products_repository.go:241-244 | offset(page+1) = offset(page) + pageSize in range |
| ProductQuery.PagesDoNotOverlap | internal/domain/products/products_repository.go:241-244 | two distinct pages in range share no row |
| ProductQuery.HugePageWrapsToFirst | internal/domain/products/products_repository.go:241 | out of range the product wraps: page 2^62+1 of size 4 has offset 0, the same as page 1 |
| ProductModel.ProductRecord.ToResponseFormat | internal/domain/products/products_model.go:139-149 | the id, variant, name, created, createdBy, updated and deleted fields are copied; updatedBy and deletedBy are always nil. The pointer-receiver method is this function applied to `Product.Record()` |
| ProductModel.DeletedExactlyWhenSoftDeleted | internal/domain/products/products_model.go:81-92 | IsDeleted (both deletion fields valid) holds exactly for the products that a successful SoftDelete can produce |
| ProductModel.SoftDeleteSpec | internal/domain/products/products_model.go:81-92 | SoftDelete succeeds iff the product is not deleted (both deletion fields set); success sets deleted to now and deletedBy to the caller, makes IsDeleted true and changes no other field; refusal is Conflict and changes nothing |
| ProductModel.SoftDeleteOnce | internal/domain/products/products_model.go:81-89 | a soft-deleted product cannot be soft-deleted again, and the first stamps stay |
| ProductModel.HalfDeletedIsLive | internal/domain/products/products_model.go:86-92 | a product with only one deletion field set is live, and SoftDelete overwrites both fields |
| ProductModel.Product.SoftDelete | internal/domain/products/products_model.go:81-89 | the object's new fields and the returned error are those of SoftDeleted on its old fields |
| ProductModel.Product.Update | internal/domain/products/products_model.go:94-97 | always nil, and nothing is modified |
| ProductModel.NewFromRequestFormat | internal/domain/products/products_model.go:98-110 | fresh id, createdBy equal to that id, name and variant copied, createdAt the clock, every other field zero, error nil |
| ProductModel.NewProductIgnoresIdArgument | internal/domain/products/products_model.go:98-99 | the productID argument has no effect on the result |
| ProductModel.NewProductIsLive | internal/domain/products/products_model.go:98-110 | a new product is not deleted, so its first SoftDelete succeeds |
| ProductModel.ResponseAfterSoftDelete | internal/domain/products/products_model.go:139-149 | after a soft delete the response differs only in `deleted`; the deleter's identity is not shown |
| ProductModel.NewImageFromRequestFormat | internal/domain/products/products_model.go:112-123 | fresh image id, createdBy equal to it, product id from the argument, URL from the request, createdAt the clock |
| ProductModel.NewImageIgnoresRequestTime | internal/domain/products/products_model.go:112-123 | the request's createdAt has no effect on the new image |
| ProductModel.ImageToResponseFormat | internal/domain/products/products_model.go:125-131 | the response carries the image id, product id and URL |
| ProductModel.NewImageResponse | internal/domain/products/products_model.go:112-131 | a new image's response is (fresh id, product id, request URL) |
| ProductRepository.ProductRepository.ExistsByID | internal/domain/products/products_repository.go:262-272 | with a working read, true exactly when the id is in the table; a failed read gives the driver error and false |
| ProductRepository.ProductRepository.CreateProduct | internal/domain/products/products_repository.go:110-130 | the result and new table are the gated insert of the entity's columns under entity "product" |
| ProductRepository.ProductRepository.UpdateProduct | internal/domain/products/products_repository.go:131-151 | the result and new table are GatedUpdate: an existence error first, then NotFound for a missing id, then the write |
| ProductRepository.GatedUpdateSucceedsIff | internal/domain/products/products_repository.go:131-151 | update succeeds iff the existence query worked, the id is present and the write went through; then only that row changes: its creation columns are kept, name, variant and updatedBy come from the entity, and updatedAt is the database clock |
| ProductRepository.GatedUpdateMissing | internal/domain/products/products_repository.go:132-142 | a missing id gives NotFound (or the existence error) and no write |
| ProductRepository.CreateAndUpdateExclusive | internal/domain/products/products_repository.go:110-151 | on the same table and id, create succeeds exactly when update does not |
| ProductRepository.ProductRepository.HardDeleteProduct | internal/domain/products/products_repository.go:152-154 | always nil, and nothing is modified |
| ProductRepository.TxWrite | internal/domain/products/products_repository.go:274-307 | a transactional write is nil exactly when neither prepare nor exec failed, and otherwise returns the first failure |
| ProductRepository.Resolved | internal/domain/products/products_repository.go:250-261 | a missing row gives NotFound("product"); any other error is returned as it came; both with the zero product |
| ProductRepository.ProductRepository.ResolveByID | internal/domain/products/products_repository.go:250-261 | the result is Resolved of reading the id from the table |
| ProductRepository.CreatedProductResolves | internal/domain/products/products_repository.go:50-64 | a created product reads back with its id, name, variant, createdAt, createdBy and updatedAt; updatedBy, which insertProduct does not write, reads back null whatever the entity held |
| ProductRepository.ResolveNotFoundOnlyForMissing | internal/domain/products/products_repository.go:255-259 | the error is NotFound("product") exactly when the row is missing; a database failure never becomes NotFound |
| Brands.NewFromRequestFormat | internal/domain/brands/brand_model.go:25-36 | fresh id, createdBy equal to it, name copied, createdAt the clock, audit fields null, error nil |
| Brands.NewBrandIgnoresIdArgument | internal/domain/brands/brand_model.go:25-26 | the brandId argument has no effect |
| Brands.Resolved | internal/domain/brands/brand_repository.go:87-98 | every read error, missing row or not, gives the zero brand and NotFound("brand") |
| Brands.BrandRepository.ExistsByID | internal/domain/brands/brand_repository.go:75-85 | with a working read, true exactly when the id is in the table; a failed read gives the error and false |
| Brands.BrandRepository.Create | internal/domain/brands/brand_repository.go:50-73 | the gated insert of (name, NOW(), createdBy) under entity "bra d" |
| Brands.BrandRepository.ResolveByID | internal/domain/brands/brand_repository.go:87-98 | the result is Brands.Resolved of reading the id |
| Brands.CreatedBrandResolves | internal/domain/brands/brand_repository.go:28-32 | a new brand reads back as built, except that createdAt is the database's insertion time |
| Brands.ResolveHidesDatabaseFailure | internal/domain/brands/brand_repository.go:92-96 | a failing read is indistinguishable from a missing row |
| Users.NewFromRequestFormat | internal/domain/users/users_model.go:29-42 | fresh id, createdBy equal to it, username, email and userType copied unchecked, createdAt the clock, audit fields null, error nil |
| Users.NewUserIgnoresIdArgument | internal/domain/users/users_model.go:29-30 | the userId argument has no effect |
| Users.Resolved | internal/domain/users/users_repository.go:88-110 | no row gives the zero user and "user not found"; any other failure gives the zero user and "failed to retrieve user", both wrapping the driver error |
| Users.UserRepository.ExistsByID | internal/domain/users/users_repository.go:111-121 | with a working read, true exactly when the id is in the table; a failed read gives the error and false |
| Users.UserRepository.Create | internal/domain/users/users_repository.go:62-86 | the gated insert, under entity "user", of the username, email, userType, createdAt and createdBy the entity carries |
| Users.UserRepository.ResolveByID | internal/domain/users/users_repository.go:88-110 | the result is Users.Resolved of reading the id |
| Users.UserRepository.Update | internal/domain/users/users_repository.go:122-124 | always nil, and nothing is modified |
| Users.CreatedUserResolves | internal/domain/users/users_repository.go:33-34 | every stored column reads back exactly as the entity carried it, its own createdAt included |
| Users.ResolveSeparatesMissingFromFailure | internal/domain/users/users_repository.go:102-107 | the "user not found" prefix appears exactly for a missing row |
| Variants.NewFromRequestFormat | internal/domain/variants/variants_model.go:29-42 | fresh id, createdBy equal to it, name, brand and price copied, createdAt the clock, audit fields null, error nil |
| Variants.NewVariantIgnoresIdArgument | internal/domain/variants/variants_model.go:29-30 | the variantId argument has no effect |
| Variants.VariantRepository.ExistsByID | internal/domain/variants/variants_repository.go:64-74 | with a working read, true exactly when the id is in the table; a failed read gives the error and false |
| Variants.VariantRepository.Create | internal/domain/variants/variants_repository.go:40-62 | the gated insert of (name, brand, price, NOW(), createdBy) under entity "variants" |
| Variants.CreatedVariantIsStored | internal/domain/variants/variants_repository.go:18-21 | a new variant is stored under its fresh id with the request's name, brand and price, the insertion time and itself as creator |
| Warehouse.NewWarehouseFromRequestFormat | internal/domain/warehouse/werehouse_model.go:43-53 | fresh id, name copied, createdAt the clock, createdBy left nil, error nil |
| Warehouse.NewQuantityFromRequestFormat | internal/domain/warehouse/werehouse_model.go:55-68 | fresh id, product, warehouse, quantity and status copied with no range check, createdAt the clock, createdBy and updatedBy nil, error nil |
| Warehouse.NewEntitiesIgnoreIdArgument | internal/domain/warehouse/werehouse_model.go:43-68 | neither constructor depends on its id argument |
| Warehouse.WarehouseRepository.ExistsByID | internal/domain/warehouse/werehouse_repository.go:85-95 | with a working read, true exactly when the id is in the table; a failed read gives the error and false |
| Warehouse.WarehouseRepository.Create | internal/domain/warehouse/werehouse_repository.go:44-69 | the gated insert of (name, NOW()) under entity "warehouse"; no createdBy is stored and the quantity rows are untouched |
| Warehouse.WarehouseRepository.CreateQuantity | internal/domain/warehouse/werehouse_repository.go:70-83 | with no existence check, a successful write appends the six columns the entity carries, and a failed write changes nothing |
| Warehouse.AppendedQuantitySpec | internal/domain/warehouse/werehouse_repository.go:70-83 | CreateQuantity succeeds iff the write does; then the old rows are kept in order and the new row is last |
| Warehouse.QuantityNotDeduplicated | internal/domain/warehouse/werehouse_repository.go:23-26 | the same quantity written twice is stored twice |
| Warehouse.CreatedWarehouseIsStored | internal/domain/warehouse/werehouse_repository.go:19-22 | a new warehouse is stored under its fresh id with its name and the insertion time |

## Left out

- HTTP handlers, the service layer, dependency wiring and routing: these are I/O and pass-through code. The handler passing `page - 1` is not part of this model. The repository methods are modelled directly.
- SQL semantics and the driver: joins, `LIKE` matching, aggregation and scanning are not modelled. A table is a map and a statement is text plus arguments. No claim is made that the SQL is valid, and several statements are not: the empty `selectProduct`, the `foo.entity_id` and `product`/`entity_id` clauses, and the ORDER BY and the LIMIT that SortProducts and PaginateProducts append after the `;` that ends selectProducts, which already has its own ORDER BY.
- ProductRepository.CreatedProductResolves, Brands.CreatedBrandResolves and Users.CreatedUserResolves: each repository keeps one map, so these round trips assume that the read statement uses the table and columns the insert writes. The source statements do not. The product ResolveByID reads the empty `selectProduct` followed by `WHERE foo.entity_id = ?` (products_repository.go:22, 253). That statement returns no row, so in the source no product reads back at all, and the no-rows path to NotFound("product") is not reached either. selectBrand reads table `brands` (brand_repository.go:26) while insertBrand writes table `brand` (line 29); ResolveByID also appends its WHERE after selectBrand's `;` (line 90). selectUser reads `u.created`, `u.created_by` and the other snake_case columns (users_repository.go:26-31) while insertUser writes `createdAt` and `createdBy` (line 33).
- ProductRepository.GatedUpdateSucceedsIff and ProductRepository.ProductRepository.UpdateProduct: the model assumes updateProduct writes the columns the insert wrote. The source statement updates table `Products` and sets `product_name` from the named parameter `:product_name` (products_repository.go:79-86). No Product field carries that db tag (products_model.go:13-28), so `stmt.Exec(product)` cannot bind it. In the source a present id therefore does not reach a successful update. In the model, success comes only through the caller-chosen `execFailure` input, and UpdatedRow then rewrites `productName`.
- Named parameters: selectProducts holds the named parameters `:brandName`, `:productName` and `:variantName`, which nothing binds. Placeholder counts in the model count only the positional `?`.
- Query results: SearchProducts, SortProducts and PaginateProducts return the statement they would issue, not the rows. Select and Get failures are not modelled for them.
- ExistsByID scans `COUNT(...)` into a bool. The model reads this as "the id has a row", including for the product statement. That statement counts `entity_id` in table `product` (products_repository.go:265), while insertProduct writes table `products` with column `productId` (lines 51-52).
- `ListProducts` and the other select-only reads: these are a single statement with no logic of their own.
- The channel-based `WithTransaction` helper: begin, commit and rollback failures and the goroutine are not modelled. Only the prepare and exec failures of txCreate/txUpdate reach the result.
- ProductRepository.ProductRepository.ResolveByID and Brands.BrandRepository.ResolveByID: on a non-"no rows" error the model returns the zero entity, although the driver might have filled some fields before failing.
- Float prices are an opaque `Float64` value that is only copied.
- `uuid.NewV4`, `time.Now` and the database's `NOW()` become parameters.
- Logging (`logger.ErrorWithStack`, the `fmt.Println` in `Product.Update`) and JSON serialisation are side effects only and are not modelled.
- The local slices that the constructors build and then discard are not modelled.
- Variants.VariantRepository.Create: a failed PrepareNamed is only logged, and execution continues with a nil statement. The model therefore requires the prepare to succeed rather than reproduce that path.
- Brand's Conflict carries the entity name "bra d", kept as it is spelled in the source.
- Users.UserRepository.Update: the `updateUser` statement is declared but never executed, so the method modifies nothing.
- Product.Update's printed id is not modelled.
