/** The brand entity and its repository (brand_model.go,
    brand_repository.go). The brand table is a map from brand id to the
    columns insertBrand writes. */
module Brands {
  import opened Common

  /** brands.Brands. */
  datatype Brand = Brand(
    brandId: Uuid,
    brandName: string,
    createdAt: Time,
    createdBy: Uuid,
    updatedAt: NullTime,
    updatedBy: NullUuid,
    deleted: NullTime,
    deletedBy: NullUuid)

  const ZeroBrand := Brand(NilUuid, "", ZeroTime, NilUuid, None, None, None, None)

  /** brands.BrandRequestFormat. */
  datatype BrandRequestFormat = BrandRequestFormat(brandName: string)

  /** Brands.NewFromRequestFormat. The `brandId` argument is overwritten with
      `freshId` (uuid.NewV4); `now` is time.Now. */
  function NewFromRequestFormat(req: BrandRequestFormat, brandId: Uuid, freshId: Uuid, now: Time): (r: (Brand, Outcome))
    ensures r.1 == Nil
    ensures r.0.brandId == freshId && r.0.createdBy == r.0.brandId
    ensures r.0.brandName == req.brandName && r.0.createdAt == now
    ensures r.0.updatedAt.None? && r.0.updatedBy.None? && r.0.deleted.None? && r.0.deletedBy.None?
  {
    (Brand(freshId, req.brandName, now, freshId, None, None, None, None), Nil)
  }

  /** The identity passed in has no effect on the new brand. */
  lemma NewBrandIgnoresIdArgument(req: BrandRequestFormat, id1: Uuid, id2: Uuid, freshId: Uuid, now: Time)
    ensures NewFromRequestFormat(req, id1, freshId, now) == NewFromRequestFormat(req, id2, freshId, now)
  {
  }

  /** The columns of a brand row: insertBrand writes the name, NOW() and the
      creator. */
  datatype BrandRow = BrandRow(brandName: string, createdAt: Time, createdBy: Uuid)

  /** The row insertBrand writes for `b` when the database clock reads
      `dbNow`: the entity's own `createdAt` is not used. */
  function InsertedRow(b: Brand, dbNow: Time): BrandRow
  {
    BrandRow(b.brandName, dbNow, b.createdBy)
  }

  /** The entity name Create's Conflict carries, spelled as in the source. */
  const ConflictEntity := "bra d"

  /** A brand read back from its row: the columns never written are null. */
  function BrandOfRow(id: Uuid, row: BrandRow): Brand
  {
    Brand(id, row.brandName, row.createdAt, row.createdBy, None, None, None, None)
  }

  /** ResolveByID's mapping of a read: every error, missing row or not,
      becomes NotFound("brand"), with the zero brand. */
  function Resolved(read: Read<BrandRow>, id: Uuid): (r: (Brand, Outcome))
    ensures r.1 == Nil <==> read.Found?
    ensures read.ReadFailed? ==> r == (ZeroBrand, Err(NotFound("brand")))
    ensures read.Found? ==> r.0.brandId == id
  {
    match read
    case Found(row) => (BrandOfRow(id, row), Nil)
    case ReadFailed(_) => (ZeroBrand, Err(NotFound("brand")))
  }

  /** The repository over its brand table. */
  class BrandRepository {
    var table: map<Uuid, BrandRow>

    constructor (initial: map<Uuid, BrandRow>)
      ensures table == initial
    {
      table := initial;
    }

    /** ExistsByID: with a working read, true exactly when the id has a
      row; a failed read returns the driver error and false. */
    method ExistsByID(id: Uuid, readFailure: Option<DbError>) returns (found: bool, err: Outcome)
      ensures readFailure.None? ==> err == Nil && (found <==> id in table)
      ensures readFailure.Some? ==> err == Err(Db(readFailure.value)) && !found
    {
      if readFailure.Some? {
        return false, Err(Db(readFailure.value));
      }
      found := id in table;
      err := Nil;
    }

    /** Create: the existence check, then PrepareNamed and Exec of
      insertBrand; `dbNow` is the database's NOW(). */
    method Create(brand: Brand, dbNow: Time, existsFailure: Option<DbError>,
                  prepareFailure: Option<DbError>, execFailure: Option<DbError>) returns (err: Outcome)
      modifies this
      ensures (err, table) == GatedInsert(old(table), brand.brandId, InsertedRow(brand, dbNow), ConflictEntity,
                                          existsFailure, WriteFailure(prepareFailure, execFailure))
    {
      var found;
      found, err := ExistsByID(brand.brandId, existsFailure);
      if err.Err? {
        return;
      }
      if found {
        return Err(Conflict("create", ConflictEntity, "already exists"));
      }
      if prepareFailure.Some? {
        return Err(Db(prepareFailure.value));
      }
      if execFailure.Some? {
        return Err(Db(execFailure.value));
      }
      table := table[brand.brandId := InsertedRow(brand, dbNow)];
    }

    /** ResolveByID: the read by id and its error mapping. */
    method ResolveByID(id: Uuid, readFailure: Option<DbError>) returns (brand: Brand, err: Outcome)
      ensures (brand, err) == Resolved(Fetch(table, id, readFailure), id)
    {
      var read := Fetch(table, id, readFailure);
      if read.ReadFailed? {
        return ZeroBrand, Err(NotFound("brand"));
      }
      brand, err := BrandOfRow(id, read.row), Nil;
    }
  }

  /** Round trip: a new brand created in a store without its id reads back
      with its id, name and creator, and with the database's insertion time
      in place of the entity's own `createdAt`. */
  lemma CreatedBrandResolves(rows: map<Uuid, BrandRow>, req: BrandRequestFormat,
                             brandId: Uuid, freshId: Uuid, now: Time, dbNow: Time)
    requires freshId !in rows
    ensures var b := NewFromRequestFormat(req, brandId, freshId, now).0;
            var t := GatedInsert(rows, b.brandId, InsertedRow(b, dbNow), ConflictEntity, None, None);
            && t.0 == Nil
            && Resolved(Fetch(t.1, freshId, None), freshId) == (b.(createdAt := dbNow), Nil)
  {
    var b := NewFromRequestFormat(req, brandId, freshId, now).0;
    GatedInsertThenFetch(rows, b.brandId, InsertedRow(b, dbNow), ConflictEntity, freshId, None);
  }

  /** A failing database and a missing row are indistinguishable to the
      caller: both read as NotFound. */
  lemma ResolveHidesDatabaseFailure(rows: map<Uuid, BrandRow>, id: Uuid, e: DbError)
    ensures Resolved(Fetch(rows, id, Some(e)), id) == Resolved(Fetch(map[], id, None), id)
  {
  }
}
