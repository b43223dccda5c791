/** The variant entity and its repository (variants_model.go,
    variants_repository.go). The variant table is a map from variant id to
    the columns insertVariants writes. */
module Variants {
  import opened Common

  /** variants.Variants. */
  datatype Variant = Variant(
    variantId: Uuid,
    variantName: string,
    brandId: Uuid,
    price: Float64,
    createdAt: Time,
    createdBy: Uuid,
    updatedAt: NullTime,
    updatedBy: NullUuid,
    deleted: NullTime,
    deletedBy: NullUuid)

  /** variants.VariantRequestFormat. */
  datatype VariantRequestFormat = VariantRequestFormat(variantName: string, brandId: Uuid, price: Float64)

  /** Variants.NewFromRequestFormat. The `variantId` argument is overwritten
      with `freshId` (uuid.NewV4); `now` is time.Now. Name, brand and price
      are copied unchecked. */
  function NewFromRequestFormat(req: VariantRequestFormat, variantId: Uuid, freshId: Uuid, now: Time): (r: (Variant, Outcome))
    ensures r.1 == Nil
    ensures r.0.variantId == freshId && r.0.createdBy == r.0.variantId
    ensures r.0.variantName == req.variantName && r.0.brandId == req.brandId && r.0.price == req.price
    ensures r.0.createdAt == now
    ensures r.0.updatedAt.None? && r.0.updatedBy.None? && r.0.deleted.None? && r.0.deletedBy.None?
  {
    (Variant(freshId, req.variantName, req.brandId, req.price, now, freshId, None, None, None, None), Nil)
  }

  /** The identity passed in has no effect on the new variant. */
  lemma NewVariantIgnoresIdArgument(req: VariantRequestFormat, id1: Uuid, id2: Uuid, freshId: Uuid, now: Time)
    ensures NewFromRequestFormat(req, id1, freshId, now) == NewFromRequestFormat(req, id2, freshId, now)
  {
  }

  /** The columns of a variant row: insertVariants writes name, brand, price,
      NOW() and the creator. */
  datatype VariantRow = VariantRow(variantName: string, brandId: Uuid, price: Float64, createdAt: Time, createdBy: Uuid)

  /** The row insertVariants writes for `v` when the database clock reads
      `dbNow`: the entity's own `createdAt` is not used. */
  function InsertedRow(v: Variant, dbNow: Time): VariantRow
  {
    VariantRow(v.variantName, v.brandId, v.price, dbNow, v.createdBy)
  }

  /** The repository over its variant table. */
  class VariantRepository {
    var table: map<Uuid, VariantRow>

    constructor (initial: map<Uuid, VariantRow>)
      ensures table == initial
    {
      table := initial;
    }

    /** ExistsByID: with a working read, true exactly when the id has a
      row; a failed read returns the driver error and false. */
    method ExistsByID(id: Uuid, readFailure: Option<DbError>) returns (found: bool, err: Outcome)
      ensures readFailure.None? ==> err == Nil && (found <==> id in table)
      ensures readFailure.Some? ==> err == Err(Db(readFailure.value)) && !found
    {
      if readFailure.Some? {
        return false, Err(Db(readFailure.value));
      }
      found := id in table;
      err := Nil;
    }

    /** Create: the existence check, then PrepareNamed and Exec of
      insertVariants; `dbNow` is the database's NOW(). A failed prepare is
      only logged and the nil statement is then used, so the model admits
      only a prepare that succeeds. */
    method Create(variant: Variant, dbNow: Time, existsFailure: Option<DbError>,
                  prepareFailure: Option<DbError>, execFailure: Option<DbError>) returns (err: Outcome)
      requires prepareFailure.None?
      modifies this
      ensures (err, table) == GatedInsert(old(table), variant.variantId, InsertedRow(variant, dbNow), "variants",
                                          existsFailure, WriteFailure(prepareFailure, execFailure))
    {
      var found;
      found, err := ExistsByID(variant.variantId, existsFailure);
      if err.Err? {
        return;
      }
      if found {
        return Err(Conflict("create", "variants", "already exists"));
      }
      if execFailure.Some? {
        return Err(Db(execFailure.value));
      }
      table := table[variant.variantId := InsertedRow(variant, dbNow)];
    }
  }

  /** Round trip: a new variant created in a store without its id is stored
      under its fresh id with the request's name, brand and price, the
      database's insertion time and itself as creator. */
  lemma CreatedVariantIsStored(rows: map<Uuid, VariantRow>, req: VariantRequestFormat,
                               variantId: Uuid, freshId: Uuid, now: Time, dbNow: Time)
    requires freshId !in rows
    ensures var v := NewFromRequestFormat(req, variantId, freshId, now).0;
            var t := GatedInsert(rows, v.variantId, InsertedRow(v, dbNow), "variants", None, None);
            && t.0 == Nil
            && Fetch(t.1, freshId, None) == Found(VariantRow(req.variantName, req.brandId, req.price, dbNow, freshId))
  {
    var v := NewFromRequestFormat(req, variantId, freshId, now).0;
    GatedInsertThenFetch(rows, v.variantId, InsertedRow(v, dbNow), "variants", freshId, None);
  }
}
