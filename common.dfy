/** Shared vocabulary of the catalog backend: identities, clock values, the
    nullable column types, the error taxonomy of the repositories, and the
    existence-gated insert that every repository's Create follows. */
module Common {

  /** A UUID, kept abstract as a number; the zero value is uuid.Nil. */
  type Uuid = nat
  const NilUuid: Uuid := 0

  /** A clock reading (time.Time); the zero value is Go's zero time. */
  type Time = int
  const ZeroTime: Time := 0

  /** A Go float64, kept as its bit pattern: prices are only copied, never
      computed with. */
  datatype Float64 = Float64(bits: bv64)

  datatype Option<T> = None | Some(value: T)

  /** null.Time and nuuid.NUUID: a value plus a Valid flag. */
  type NullTime = Option<Time>
  type NullUuid = Option<Uuid>

  /** What the database driver can report for a statement. */
  datatype DbError =
    | NoRows                   // sql.ErrNoRows
    | DbFailure(msg: string)   // any other driver or server error

  /** The errors the repositories return. */
  datatype Error =
    | Conflict(op: string, entity: string, msg: string)   // failure.Conflict
    | NotFound(entity: string)                            // failure.NotFound
    | Db(cause: DbError)                                  // a driver error passed through unchanged
    | Wrapped(prefix: string, cause: DbError)             // fmt.Errorf("<prefix>: %w", cause)
    | Unsupported(msg: string)                            // fmt.Errorf without a wrapped cause

  /** A Go `error` result: nil or an error value. */
  datatype Outcome = Nil | Err(error: Error)

  /** A Go `(value, error)` pair where the value is meaningless on error. */
  datatype Result<T> = Ok(value: T) | Failed(error: Error)

  /** The first failure among the two steps of a prepared statement
      (PrepareNamed, then Exec), as the driver would report it. */
  function WriteFailure(prepareFailure: Option<DbError>, execFailure: Option<DbError>): (r: Option<DbError>)
    ensures r.None? <==> prepareFailure.None? && execFailure.None?
    ensures prepareFailure.Some? ==> r == prepareFailure
    ensures prepareFailure.None? ==> r == execFailure
  {
    if prepareFailure.Some? then prepareFailure else execFailure
  }

  /** The existence-gated insert shared by every repository's Create:
      ask whether `id` is present; pass a failed existence query through
      unchanged; refuse a present id with Conflict; otherwise run the insert,
      which either fails (nothing written) or stores `row` under `id`. */
  function GatedInsert<R>(table: map<Uuid, R>, id: Uuid, row: R, entity: string,
                          existsFailure: Option<DbError>, writeFailure: Option<DbError>): (Outcome, map<Uuid, R>)
  {
    if existsFailure.Some? then (Err(Db(existsFailure.value)), table)
    else if id in table then (Err(Conflict("create", entity, "already exists")), table)
    else if writeFailure.Some? then (Err(Db(writeFailure.value)), table)
    else (Nil, table[id := row])
  }

  /** What a read of one row by identity yields: the stored row, or the
      driver's error; an absent identity is sql.ErrNoRows. */
  datatype Read<R> = Found(row: R) | ReadFailed(cause: DbError)

  function Fetch<R>(table: map<Uuid, R>, id: Uuid, readFailure: Option<DbError>): Read<R>
  {
    if readFailure.Some? then ReadFailed(readFailure.value)
    else if id in table then Found(table[id])
    else ReadFailed(NoRows)
  }

  /** The store changes only on success. */
  lemma GatedInsertWritesOnlyOnSuccess<R>(table: map<Uuid, R>, id: Uuid, row: R, entity: string,
                                          existsFailure: Option<DbError>, writeFailure: Option<DbError>)
    ensures var (err, t) := GatedInsert(table, id, row, entity, existsFailure, writeFailure);
            (err.Err? ==> t == table) && (err.Nil? ==> t == table[id := row])
  {
  }

  /** Success happens exactly when the existence query worked, the id was
      absent and the insert went through; then the new row is stored under
      `id`, every other row is untouched and one row was added. */
  lemma GatedInsertSucceedsIff<R>(table: map<Uuid, R>, id: Uuid, row: R, entity: string,
                                  existsFailure: Option<DbError>, writeFailure: Option<DbError>)
    ensures var (err, t) := GatedInsert(table, id, row, entity, existsFailure, writeFailure);
            (err.Nil? <==> existsFailure.None? && id !in table && writeFailure.None?)
            && (err.Nil? ==> id in t && t[id] == row && |t| == |table| + 1
                             && forall k :: k in table ==> k in t && t[k] == table[k])
  {
  }

  /** An identity that is already present gives Conflict and no write,
      whatever the insert would have done. */
  lemma GatedInsertConflict<R>(table: map<Uuid, R>, id: Uuid, row: R, entity: string, writeFailure: Option<DbError>)
    requires id in table
    ensures GatedInsert(table, id, row, entity, None, writeFailure) == (Err(Conflict("create", entity, "already exists")), table)
  {
  }

  /** An error from the existence query is returned unchanged before anything
      is written. */
  lemma GatedInsertExistsErrorFirst<R>(table: map<Uuid, R>, id: Uuid, row: R, entity: string,
                                       e: DbError, writeFailure: Option<DbError>)
    ensures GatedInsert(table, id, row, entity, Some(e), writeFailure) == (Err(Db(e)), table)
  {
  }

  /** Retrying a successful insert with the same id is refused: the gate makes
      Create at most once per identity. */
  lemma GatedInsertNotRepeatable<R>(table: map<Uuid, R>, id: Uuid, row: R, row': R, entity: string,
                                    writeFailure: Option<DbError>)
    requires GatedInsert(table, id, row, entity, None, None).0 == Nil
    ensures var t := GatedInsert(table, id, row, entity, None, None).1;
            GatedInsert(t, id, row', entity, None, writeFailure) == (Err(Conflict("create", entity, "already exists")), t)
  {
  }

  /** After a successful gated insert, reading the identity back yields the
      inserted row, and every other identity reads as before. */
  lemma GatedInsertThenFetch<R>(table: map<Uuid, R>, id: Uuid, row: R, entity: string, other: Uuid,
                                readFailure: Option<DbError>)
    requires GatedInsert(table, id, row, entity, None, None).0 == Nil
    ensures var t := GatedInsert(table, id, row, entity, None, None).1;
            && Fetch(t, id, None) == Found(row)
            && (other != id ==> Fetch(t, other, readFailure) == Fetch(table, other, readFailure))
  {
  }
}
