/** The write and read side of the product repository
    (products_repository.go): existence-gated create, existence-required
    update, the hard delete that does nothing, and the error mapping of
    ResolveByID. The products table is a map from product id to the columns
    the statements write. */
module ProductRepository {
  import opened Common
  import opened ProductModel

  /** The columns of a products row that insertProduct and updateProduct
      write. */
  datatype ProductRow = ProductRow(
    productName: string,
    variantId: Uuid,
    createdAt: Time,
    createdBy: Uuid,
    updatedAt: NullTime,
    updatedBy: NullUuid)

  /** The row insertProduct writes: name, variant, createdAt, createdBy and
      updatedAt from the entity. The statement names no updatedBy column, so
      that column keeps its default, taken to be null. */
  function InsertedRow(p: ProductRecord): ProductRow
  {
    ProductRow(p.productName, p.variantId, p.createdAt, p.createdBy, p.updatedAt, None)
  }

  /** The row updateProduct leaves: name, variant and updater from the
      entity, `updatedAt` the database clock (NOW()), the rest as it was. */
  function UpdatedRow(row: ProductRow, p: ProductRecord, dbNow: Time): ProductRow
  {
    row.(productName := p.productName, variantId := p.variantId, updatedAt := Some(dbNow), updatedBy := p.updatedBy)
  }

  const ProductNotFound := NotFound("foo")

  /** What UpdateProduct does: pass a failed existence query through, refuse
      an absent id with NotFound, otherwise run the update, which either
      fails (nothing written) or rewrites the row. */
  function GatedUpdate(table: map<Uuid, ProductRow>, p: ProductRecord, dbNow: Time,
                       existsFailure: Option<DbError>, writeFailure: Option<DbError>): (Outcome, map<Uuid, ProductRow>)
  {
    var id := p.productId;
    if existsFailure.Some? then (Err(Db(existsFailure.value)), table)
    else if id !in table then (Err(ProductNotFound), table)
    else if writeFailure.Some? then (Err(Db(writeFailure.value)), table)
    else (Nil, table[id := UpdatedRow(table[id], p, dbNow)])
  }

  /** Update succeeds exactly when the id is present and nothing failed;
      then only that row changes: it keeps its creation columns, takes its
      name, variant and updater from the entity, and its update time from
      the database clock. */
  lemma GatedUpdateSucceedsIff(table: map<Uuid, ProductRow>, p: ProductRecord, dbNow: Time,
                               existsFailure: Option<DbError>, writeFailure: Option<DbError>)
    ensures var (err, t) := GatedUpdate(table, p, dbNow, existsFailure, writeFailure);
            && (err == Nil <==> existsFailure.None? && p.productId in table && writeFailure.None?)
            && (err != Nil ==> t == table)
            && (err == Nil ==>
                  && t.Keys == table.Keys
                  && (forall k :: k in table && k != p.productId ==> t[k] == table[k])
                  && t[p.productId].createdAt == table[p.productId].createdAt
                  && t[p.productId].createdBy == table[p.productId].createdBy
                  && t[p.productId].updatedAt == Some(dbNow)
                  && t[p.productId].productName == p.productName
                  && t[p.productId].variantId == p.variantId
                  && t[p.productId].updatedBy == p.updatedBy)
  {
  }

  /** An absent id gives NotFound and no write, whatever the update would
      have done; an existence error comes first. */
  lemma GatedUpdateMissing(table: map<Uuid, ProductRow>, p: ProductRecord, dbNow: Time,
                           existsFailure: Option<DbError>, writeFailure: Option<DbError>)
    requires p.productId !in table
    ensures GatedUpdate(table, p, dbNow, existsFailure, writeFailure)
         == (if existsFailure.Some? then Err(Db(existsFailure.value)) else Err(ProductNotFound), table)
  {
  }

  /** Create and update never both succeed on the same id from the same
      store: create needs it absent, update needs it present. */
  lemma CreateAndUpdateExclusive(table: map<Uuid, ProductRow>, p: ProductRecord, dbNow: Time)
    ensures GatedInsert(table, p.productId, InsertedRow(p), "product", None, None).0 == Nil
        <==> GatedUpdate(table, p, dbNow, None, None).0 != Nil
  {
  }

  /** A product read back after a successful create. */
  function ProductOfRow(id: Uuid, row: ProductRow): ProductRecord
  {
    ZeroProduct.(productId := id, productName := row.productName, variantId := row.variantId,
                 createdAt := row.createdAt, createdBy := row.createdBy,
                 updatedAt := row.updatedAt, updatedBy := row.updatedBy)
  }

  /** ResolveByID's mapping of a read: no row is NotFound("product"); any
      other error is returned as it came, with the zero product. */
  function Resolved(read: Read<ProductRow>, id: Uuid): (r: (ProductRecord, Outcome))
    ensures read.Found? <==> r.1 == Nil
    ensures read.Found? ==> r.0.productId == id
    ensures read == ReadFailed(NoRows) ==> r == (ZeroProduct, Err(NotFound("product")))
    ensures read.ReadFailed? && read.cause != NoRows ==> r == (ZeroProduct, Err(Db(read.cause)))
  {
    match read
    case Found(row) => (ProductOfRow(id, row), Nil)
    case ReadFailed(NoRows) => (ZeroProduct, Err(NotFound("product")))
    case ReadFailed(e) => (ZeroProduct, Err(Db(e)))
  }

  /** The repository over its products table. */
  class ProductRepository {
    var table: map<Uuid, ProductRow>

    constructor (initial: map<Uuid, ProductRow>)
      ensures table == initial
    {
      table := initial;
    }

    /** ExistsByID: with a working read, true exactly when the id has a
      row; a failed read returns the driver error and false. */
    method ExistsByID(id: Uuid, readFailure: Option<DbError>) returns (found: bool, err: Outcome)
      ensures readFailure.None? ==> err == Nil && (found <==> id in table)
      ensures readFailure.Some? ==> err == Err(Db(readFailure.value)) && !found
    {
      if readFailure.Some? {
        return false, Err(Db(readFailure.value));
      }
      found := id in table;
      err := Nil;
    }

    /** CreateProduct: the existence check, then txCreate (PrepareNamed and
      Exec of insertProduct) inside a transaction. */
    method CreateProduct(product: Product, existsFailure: Option<DbError>,
                         prepareFailure: Option<DbError>, execFailure: Option<DbError>) returns (err: Outcome)
      modifies this
      ensures (err, table) == GatedInsert(old(table), product.productId, InsertedRow(product.Record()), "product",
                                          existsFailure, WriteFailure(prepareFailure, execFailure))
    {
      var found;
      found, err := ExistsByID(product.productId, existsFailure);
      if err.Err? {
        return;
      }
      if found {
        return Err(Conflict("create", "product", "already exists"));
      }
      err := TxWrite(prepareFailure, execFailure);
      if err.Nil? {
        table := table[product.productId := InsertedRow(product.Record())];
      }
    }

    /** UpdateProduct: the existence check, then txUpdate (PrepareNamed and
      Exec of updateProduct) inside a transaction; `dbNow` is the database's
      NOW(). */
    method UpdateProduct(product: Product, dbNow: Time, existsFailure: Option<DbError>,
                         prepareFailure: Option<DbError>, execFailure: Option<DbError>) returns (err: Outcome)
      modifies this
      ensures (err, table) == GatedUpdate(old(table), product.Record(), dbNow,
                                          existsFailure, WriteFailure(prepareFailure, execFailure))
    {
      var found;
      found, err := ExistsByID(product.productId, existsFailure);
      if err.Err? {
        return;
      }
      if !found {
        return Err(ProductNotFound);
      }
      err := TxWrite(prepareFailure, execFailure);
      if err.Nil? {
        table := table[product.productId := UpdatedRow(table[product.productId], product.Record(), dbNow)];
      }
    }

    /** HardDeleteProduct deletes nothing and always returns nil. */
    method HardDeleteProduct(productID: string) returns (err: Outcome)
      ensures err == Nil
    {
      err := Nil;
    }

    /** ResolveByID: the read by id and its error mapping. */
    method ResolveByID(id: Uuid, readFailure: Option<DbError>) returns (product: ProductRecord, err: Outcome)
      ensures (product, err) == Resolved(Fetch(table, id, readFailure), id)
    {
      var read := Fetch(table, id, readFailure);
      match read {
        case Found(row) =>
          product, err := ProductOfRow(id, row), Nil;
        case ReadFailed(e) =>
          product := ZeroProduct;
          err := if e == NoRows then Err(NotFound("product")) else Err(Db(e));
      }
    }
  }

  /** txCreate and txUpdate: the outcome of PrepareNamed followed by Exec,
      the first failure returned. */
  method TxWrite(prepareFailure: Option<DbError>, execFailure: Option<DbError>) returns (err: Outcome)
    ensures err.Nil? <==> WriteFailure(prepareFailure, execFailure).None?
    ensures err.Err? ==> err == Err(Db(WriteFailure(prepareFailure, execFailure).value))
  {
    if prepareFailure.Some? {
      return Err(Db(prepareFailure.value));
    }
    if execFailure.Some? {
      return Err(Db(execFailure.value));
    }
    err := Nil;
  }

  /** Round trip: a product created in a store without its id reads back
      with the name, variant and audit columns insertProduct writes, and
      with no updater, whatever the entity carried. */
  lemma CreatedProductResolves(table: map<Uuid, ProductRow>, p: ProductRecord)
    requires p.productId !in table
    ensures var t := GatedInsert(table, p.productId, InsertedRow(p), "product", None, None).1;
            var (q, err) := Resolved(Fetch(t, p.productId, None), p.productId);
            && err == Nil
            && q.productId == p.productId && q.productName == p.productName && q.variantId == p.variantId
            && q.createdAt == p.createdAt && q.createdBy == p.createdBy
            && q.updatedAt == p.updatedAt && q.updatedBy.None?
  {
    GatedInsertThenFetch(table, p.productId, InsertedRow(p), "product", p.productId, None);
  }

  /** Only a missing row becomes NotFound; a failing database is reported as
      itself, never as NotFound. */
  lemma ResolveNotFoundOnlyForMissing(table: map<Uuid, ProductRow>, id: Uuid, readFailure: Option<DbError>)
    ensures var (_, err) := Resolved(Fetch(table, id, readFailure), id);
            err == Err(NotFound("product"))
            <==> (readFailure == Some(NoRows) || (readFailure.None? && id !in table))
  {
  }
}
