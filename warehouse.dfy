/** The warehouse and stock-quantity entities and their repository
    (werehouse_model.go, werehouse_repository.go). Warehouses are keyed by
    id; quantity rows are appended without any key check. */
module Warehouse {
  import opened Common

  /** warehouse.Warehouses. */
  datatype Warehouses = Warehouses(
    warehouseId: Uuid,
    warehouseName: string,
    createdAt: Time,
    createdBy: Uuid,
    updatedAt: NullTime,
    updatedBy: NullUuid,
    deleted: NullTime,
    deletedBy: NullUuid)

  /** warehouse.Quantity: `updatedBy` is a plain id, not a nullable one. */
  datatype Quantity = Quantity(
    quantityId: Uuid,
    productId: Uuid,
    warehouseId: Uuid,
    quantity: int,
    status: string,
    createdAt: Time,
    createdBy: Uuid,
    updatedAt: NullTime,
    updatedBy: Uuid)

  /** warehouse.WarehouseRequestFormat. */
  datatype WarehouseRequestFormat = WarehouseRequestFormat(warehouseName: string)

  /** warehouse.QuantityRequestFormat. */
  datatype QuantityRequestFormat = QuantityRequestFormat(productId: Uuid, warehouseId: Uuid, quantity: int, status: string)

  /** Warehouses.NewFromRequestFormat: a fresh id, the name, the clock
      reading; unlike the other entities the creator is left nil. */
  function NewWarehouseFromRequestFormat(req: WarehouseRequestFormat, warehouseId: Uuid, freshId: Uuid, now: Time): (r: (Warehouses, Outcome))
    ensures r.1 == Nil
    ensures r.0.warehouseId == freshId && r.0.warehouseName == req.warehouseName && r.0.createdAt == now
    ensures r.0.createdBy == NilUuid
    ensures r.0.updatedAt.None? && r.0.updatedBy.None? && r.0.deleted.None? && r.0.deletedBy.None?
  {
    (Warehouses(freshId, req.warehouseName, now, NilUuid, None, None, None, None), Nil)
  }

  /** Quantity.NewFromRequestFormat: a fresh id, the four request fields
      copied unchecked (a negative quantity included), the clock reading;
      creator and updater are left nil. */
  function NewQuantityFromRequestFormat(req: QuantityRequestFormat, quantityId: Uuid, freshId: Uuid, now: Time): (r: (Quantity, Outcome))
    ensures r.1 == Nil
    ensures r.0.quantityId == freshId
    ensures r.0.productId == req.productId && r.0.warehouseId == req.warehouseId
    ensures r.0.quantity == req.quantity && r.0.status == req.status
    ensures r.0.createdAt == now && r.0.createdBy == NilUuid
    ensures r.0.updatedAt.None? && r.0.updatedBy == NilUuid
  {
    (Quantity(freshId, req.productId, req.warehouseId, req.quantity, req.status, now, NilUuid, None, NilUuid), Nil)
  }

  /** The identity passed in has no effect on either new entity. */
  lemma NewEntitiesIgnoreIdArgument(wreq: WarehouseRequestFormat, qreq: QuantityRequestFormat,
                                    id1: Uuid, id2: Uuid, freshId: Uuid, now: Time)
    ensures NewWarehouseFromRequestFormat(wreq, id1, freshId, now) == NewWarehouseFromRequestFormat(wreq, id2, freshId, now)
    ensures NewQuantityFromRequestFormat(qreq, id1, freshId, now) == NewQuantityFromRequestFormat(qreq, id2, freshId, now)
  {
  }

  /** The columns insertWarehouse writes besides the id: the name and NOW(). */
  datatype WarehouseRow = WarehouseRow(warehouseName: string, createdAt: Time)

  function InsertedWarehouseRow(w: Warehouses, dbNow: Time): WarehouseRow
  {
    WarehouseRow(w.warehouseName, dbNow)
  }

  /** A quantity row as insertQuantity writes it: all six columns from the
      entity, its own `createdAt` included. */
  datatype QuantityRow = QuantityRow(quantityId: Uuid, productId: Uuid, warehouseId: Uuid,
                                     quantity: int, status: string, createdAt: Time)

  function InsertedQuantityRow(q: Quantity): QuantityRow
  {
    QuantityRow(q.quantityId, q.productId, q.warehouseId, q.quantity, q.status, q.createdAt)
  }

  /** What CreateQuantity does to the quantity rows: with no existence check,
      a successful write always appends, and a failed one leaves them. */
  function AppendedQuantity(rows: seq<QuantityRow>, q: Quantity, writeFailure: Option<DbError>): (Outcome, seq<QuantityRow>)
  {
    if writeFailure.Some? then (Err(Db(writeFailure.value)), rows)
    else (Nil, rows + [InsertedQuantityRow(q)])
  }

  /** The repository over the warehouse table and the quantity rows. */
  class WarehouseRepository {
    var table: map<Uuid, WarehouseRow>
    var quantities: seq<QuantityRow>

    constructor (initial: map<Uuid, WarehouseRow>, initialQuantities: seq<QuantityRow>)
      ensures table == initial && quantities == initialQuantities
    {
      table := initial;
      quantities := initialQuantities;
    }

    /** ExistsByID: with a working read, true exactly when the id has a
      row; a failed read returns the driver error and false. */
    method ExistsByID(id: Uuid, readFailure: Option<DbError>) returns (found: bool, err: Outcome)
      ensures readFailure.None? ==> err == Nil && (found <==> id in table)
      ensures readFailure.Some? ==> err == Err(Db(readFailure.value)) && !found
    {
      if readFailure.Some? {
        return false, Err(Db(readFailure.value));
      }
      found := id in table;
      err := Nil;
    }

    /** Create: the existence check, then PrepareNamed and Exec of
      insertWarehouse; `dbNow` is the database's NOW(). Quantity rows are
      untouched. */
    method Create(warehouse: Warehouses, dbNow: Time, existsFailure: Option<DbError>,
                  prepareFailure: Option<DbError>, execFailure: Option<DbError>) returns (err: Outcome)
      modifies this
      ensures (err, table) == GatedInsert(old(table), warehouse.warehouseId, InsertedWarehouseRow(warehouse, dbNow),
                                          "warehouse", existsFailure, WriteFailure(prepareFailure, execFailure))
      ensures quantities == old(quantities)
    {
      var found;
      found, err := ExistsByID(warehouse.warehouseId, existsFailure);
      if err.Err? {
        return;
      }
      if found {
        return Err(Conflict("create", "warehouse", "already exists"));
      }
      if prepareFailure.Some? {
        return Err(Db(prepareFailure.value));
      }
      if execFailure.Some? {
        return Err(Db(execFailure.value));
      }
      table := table[warehouse.warehouseId := InsertedWarehouseRow(warehouse, dbNow)];
    }

    /** CreateQuantity: PrepareNamed and Exec of insertQuantity, with no
      existence check. The warehouse table is untouched. */
    method CreateQuantity(quantity: Quantity, prepareFailure: Option<DbError>, execFailure: Option<DbError>)
      returns (err: Outcome)
      modifies this
      ensures (err, quantities) == AppendedQuantity(old(quantities), quantity, WriteFailure(prepareFailure, execFailure))
      ensures table == old(table)
    {
      if prepareFailure.Some? {
        return Err(Db(prepareFailure.value));
      }
      if execFailure.Some? {
        return Err(Db(execFailure.value));
      }
      quantities := quantities + [InsertedQuantityRow(quantity)];
      err := Nil;
    }
  }

  /** CreateQuantity succeeds exactly when the write does; then the old rows
      are kept in order and the new row is last, whatever rows already
      carry the same id. */
  lemma AppendedQuantitySpec(rows: seq<QuantityRow>, q: Quantity, writeFailure: Option<DbError>)
    ensures var (err, t) := AppendedQuantity(rows, q, writeFailure);
            && (err == Nil <==> writeFailure.None?)
            && (err != Nil ==> t == rows)
            && (err == Nil ==> |t| == |rows| + 1 && t[..|rows|] == rows && t[|rows|] == InsertedQuantityRow(q))
  {
  }

  /** Unlike the gated creates, the same quantity written twice is stored
      twice. */
  lemma QuantityNotDeduplicated(rows: seq<QuantityRow>, q: Quantity)
    ensures var once := AppendedQuantity(rows, q, None).1;
            var twice := AppendedQuantity(once, q, None);
            && twice.0 == Nil
            && multiset(twice.1)[InsertedQuantityRow(q)] == multiset(rows)[InsertedQuantityRow(q)] + 2
  {
    var r := InsertedQuantityRow(q);
    assert AppendedQuantity(AppendedQuantity(rows, q, None).1, q, None).1 == rows + [r] + [r];
    calc {
      multiset(rows + [r] + [r]);
      multiset(rows + [r]) + multiset([r]);
      multiset(rows) + multiset([r]) + multiset([r]);
    }
  }

  /** Round trip: a new warehouse created in a store without its id is stored
      under its fresh id with its name and the database's insertion time. */
  lemma CreatedWarehouseIsStored(rows: map<Uuid, WarehouseRow>, req: WarehouseRequestFormat,
                                 warehouseId: Uuid, freshId: Uuid, now: Time, dbNow: Time)
    requires freshId !in rows
    ensures var w := NewWarehouseFromRequestFormat(req, warehouseId, freshId, now).0;
            var t := GatedInsert(rows, w.warehouseId, InsertedWarehouseRow(w, dbNow), "warehouse", None, None);
            && t.0 == Nil
            && Fetch(t.1, freshId, None) == Found(WarehouseRow(req.warehouseName, dbNow))
  {
    var w := NewWarehouseFromRequestFormat(req, warehouseId, freshId, now).0;
    GatedInsertThenFetch(rows, w.warehouseId, InsertedWarehouseRow(w, dbNow), "warehouse", freshId, None);
  }
}
