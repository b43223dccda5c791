/** The user entity and its repository (users_model.go,
    users_repository.go). The user table is a map from user id to the
    columns insertUser writes. */
module Users {
  import opened Common

  /** users.User. */
  datatype User = User(
    id: Uuid,
    username: string,
    email: string,
    userType: string,
    createdAt: Time,
    createdBy: Uuid,
    updatedAt: NullTime,
    updatedBy: NullUuid,
    deleted: NullTime,
    deletedBy: NullUuid)

  const ZeroUser := User(NilUuid, "", "", "", ZeroTime, NilUuid, None, None, None, None)

  /** users.UserRequestFormat. */
  datatype UserRequestFormat = UserRequestFormat(username: string, email: string, userType: string)

  /** User.NewFromRequestFormat. The `userId` argument is overwritten with
      `freshId` (uuid.NewV4); `now` is time.Now. The three strings are copied
      without any validation. */
  function NewFromRequestFormat(req: UserRequestFormat, userId: Uuid, freshId: Uuid, now: Time): (r: (User, Outcome))
    ensures r.1 == Nil
    ensures r.0.id == freshId && r.0.createdBy == r.0.id
    ensures r.0.username == req.username && r.0.email == req.email && r.0.userType == req.userType
    ensures r.0.createdAt == now
    ensures r.0.updatedAt.None? && r.0.updatedBy.None? && r.0.deleted.None? && r.0.deletedBy.None?
  {
    (User(freshId, req.username, req.email, req.userType, now, freshId, None, None, None, None), Nil)
  }

  /** The identity passed in has no effect on the new user. */
  lemma NewUserIgnoresIdArgument(req: UserRequestFormat, id1: Uuid, id2: Uuid, freshId: Uuid, now: Time)
    ensures NewFromRequestFormat(req, id1, freshId, now) == NewFromRequestFormat(req, id2, freshId, now)
  {
  }

  /** The columns of a user row: insertUser writes them all from the entity. */
  datatype UserRow = UserRow(username: string, email: string, userType: string, createdAt: Time, createdBy: Uuid)

  function InsertedRow(u: User): UserRow
  {
    UserRow(u.username, u.email, u.userType, u.createdAt, u.createdBy)
  }

  /** A user read back from its row: the columns never written are null. */
  function UserOfRow(id: Uuid, row: UserRow): User
  {
    User(id, row.username, row.email, row.userType, row.createdAt, row.createdBy, None, None, None, None)
  }

  /** ResolveByID's classification of a read: no row is wrapped as "user not
      found", any other error as "failed to retrieve user", both with the zero
      user; the driver error is kept as the cause. */
  function Resolved(read: Read<UserRow>, id: Uuid): (r: (User, Outcome))
    ensures r.1 == Nil <==> read.Found?
    ensures read == ReadFailed(NoRows) ==> r == (ZeroUser, Err(Wrapped("user not found", NoRows)))
    ensures read.ReadFailed? && read.cause != NoRows
            ==> r == (ZeroUser, Err(Wrapped("failed to retrieve user", read.cause)))
    ensures read.Found? ==> r.0.id == id
  {
    match read
    case Found(row) => (UserOfRow(id, row), Nil)
    case ReadFailed(e) =>
      if e == NoRows then (ZeroUser, Err(Wrapped("user not found", e)))
      else (ZeroUser, Err(Wrapped("failed to retrieve user", e)))
  }

  /** The repository over its user table. */
  class UserRepository {
    var table: map<Uuid, UserRow>

    constructor (initial: map<Uuid, UserRow>)
      ensures table == initial
    {
      table := initial;
    }

    /** ExistsByID: with a working read, true exactly when the id has a
      row; a failed read returns the driver error and false. */
    method ExistsByID(id: Uuid, readFailure: Option<DbError>) returns (found: bool, err: Outcome)
      ensures readFailure.None? ==> err == Nil && (found <==> id in table)
      ensures readFailure.Some? ==> err == Err(Db(readFailure.value)) && !found
    {
      if readFailure.Some? {
        return false, Err(Db(readFailure.value));
      }
      found := id in table;
      err := Nil;
    }

    /** Create: the existence check, then PrepareNamed and Exec of
      insertUser. */
    method Create(user: User, existsFailure: Option<DbError>,
                  prepareFailure: Option<DbError>, execFailure: Option<DbError>) returns (err: Outcome)
      modifies this
      ensures (err, table) == GatedInsert(old(table), user.id, InsertedRow(user), "user",
                                          existsFailure, WriteFailure(prepareFailure, execFailure))
    {
      var found;
      found, err := ExistsByID(user.id, existsFailure);
      if err.Err? {
        return;
      }
      if found {
        return Err(Conflict("create", "user", "already exists"));
      }
      if prepareFailure.Some? {
        return Err(Db(prepareFailure.value));
      }
      if execFailure.Some? {
        return Err(Db(execFailure.value));
      }
      table := table[user.id := InsertedRow(user)];
    }

    /** ResolveByID: QueryRow and Scan by id, and the error classification. */
    method ResolveByID(id: Uuid, readFailure: Option<DbError>) returns (user: User, err: Outcome)
      ensures (user, err) == Resolved(Fetch(table, id, readFailure), id)
    {
      var read := Fetch(table, id, readFailure);
      if read.ReadFailed? {
        if read.cause == NoRows {
          return ZeroUser, Err(Wrapped("user not found", read.cause));
        }
        return ZeroUser, Err(Wrapped("failed to retrieve user", read.cause));
      }
      return UserOfRow(id, read.row), Nil;
    }

    /** Update writes nothing and always returns nil. */
    method Update(user: User) returns (err: Outcome)
      ensures err == Nil
    {
      err := Nil;
    }
  }

  /** Round trip: every column Create writes reads back exactly as the entity
      carried it, the entity's own `createdAt` included. */
  lemma CreatedUserResolves(rows: map<Uuid, UserRow>, u: User)
    requires u.id !in rows
    ensures var t := GatedInsert(rows, u.id, InsertedRow(u), "user", None, None);
            && t.0 == Nil
            && Resolved(Fetch(t.1, u.id, None), u.id)
               == (u.(updatedAt := None, updatedBy := None, deleted := None, deletedBy := None), Nil)
  {
    GatedInsertThenFetch(rows, u.id, InsertedRow(u), "user", u.id, None);
  }

  /** The two error messages tell a missing user from a failing database. */
  lemma ResolveSeparatesMissingFromFailure(rows: map<Uuid, UserRow>, id: Uuid, readFailure: Option<DbError>)
    requires Resolved(Fetch(rows, id, readFailure), id).1 != Nil
    ensures var err := Resolved(Fetch(rows, id, readFailure), id).1.error;
            err.Wrapped? && (err.prefix == "user not found" <==> Fetch(rows, id, readFailure) == ReadFailed(NoRows))
  {
  }
}
