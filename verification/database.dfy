/** The two auth-service tables and the row operations on them
    (`database/crud/user.py`, `database/crud/device_info.py`). Writes go
    through `atomic_transaction`; reads open their own session. Row ids are
    numbered as SQLite numbers them: one more than the rows already there,
    since a failed insert keeps no row. */
module Database {
  import opened Wrappers
  import opened Atomic

  datatype UserRow = UserRow(id: nat, name: string, email: string, avatar: Option<string>, uuid: Option<string>)
  datatype DeviceRow = DeviceRow(id: nat, userAgent: string, acceptLanguage: string, ip: string, userId: int)

  /** Whether the database answers, and whether it accepts commits. */
  datatype Health = Up | Down | RejectsCommit

  datatype Db = Db(users: seq<UserRow>, devices: seq<DeviceRow>, health: Health)

  datatype NewUser = NewUser(name: string, email: string, avatar: Option<string>, uuid: Option<string>)
  datatype NewDevice = NewDevice(userAgent: string, acceptLanguage: string, ip: string, userId: int)

  const Unavailable := "database unavailable"
  const CommitRejected := "commit rejected"
  const DuplicateUuid := "duplicate key value violates unique constraint on user_uuid"
  const MissingUser := "insert violates foreign key constraint on user_id"

  /** Some row already holds this non-null `user_uuid`. The column is
      unique; SQL `NULL`s never clash with each other. */
  predicate UuidTaken(users: seq<UserRow>, uuid: Option<string>) {
    uuid.Some? && exists i :: 0 <= i < |users| && users[i].uuid == uuid
  }

  /** A user row has this id: what `device_info.user_id`'s foreign key
      demands of a new device row. */
  predicate HasUser(users: seq<UserRow>, id: int) {
    exists i :: 0 <= i < |users| && users[i].id == id
  }

  /** Row ids are positions plus one, as auto-increment hands them out. */
  predicate WellNumbered(db: Db) {
    (forall i :: 0 <= i < |db.users| ==> db.users[i].id == i + 1)
      && (forall i :: 0 <= i < |db.devices| ==> db.devices[i].id == i + 1)
  }

  function CommitCheck(db: Db): Option<string> {
    if db.health == RejectsCommit then Some(CommitRejected) else None
  }

  /** `db.add(user); db.flush()`: the flush assigns the id, and raises on
      a `user_uuid` already stored. */
  function AddUser(db: Db, u: NewUser): Step<Db, UserRow> {
    if db.health == Down then Threw(Unavailable)
    else if UuidTaken(db.users, u.uuid) then Threw(DuplicateUuid)
    else
      var row := UserRow(|db.users| + 1, u.name, u.email, u.avatar, u.uuid);
      Returned(db.(users := db.users + [row]), row)
  }

  /** `db.add(device_info); db.flush()`: the flush raises when `user_id`
      names no user row. */
  function AddDevice(db: Db, d: NewDevice): Step<Db, DeviceRow> {
    if db.health == Down then Threw(Unavailable)
    else if !HasUser(db.users, d.userId) then Threw(MissingUser)
    else
      var row := DeviceRow(|db.devices| + 1, d.userAgent, d.acceptLanguage, d.ip, d.userId);
      Returned(db.(devices := db.devices + [row]), row)
  }

  /** `create_user`: one new row with the next id, or nothing at all. */
  function CreateUser(db: Db, u: NewUser): (o: Outcome<Db, UserRow>)
    ensures o.result.Success? <==> db.health == Up && !UuidTaken(db.users, u.uuid)
    ensures UuidTaken(db.users, u.uuid) ==> o.result == Failure(if db.health == Down then Unavailable else DuplicateUuid)
    ensures o.result.Success? ==>
      && o.result.value == UserRow(|db.users| + 1, u.name, u.email, u.avatar, u.uuid)
      && o.state == db.(users := db.users + [o.result.value])
    ensures o.result.Failure? ==> o.state == db
    ensures WellNumbered(db) ==> WellNumbered(o.state)
    ensures WellNumbered(db) && o.result.Success? ==>
      forall i :: 0 <= i < |db.users| ==> db.users[i].id != o.result.value.id
  {
    Run(db, AddUser, u, CommitCheck)
  }

  /** `create_device_info`: one new row with the next id, or nothing. */
  function CreateDeviceInfo(db: Db, d: NewDevice): (o: Outcome<Db, DeviceRow>)
    ensures o.result.Success? <==> db.health == Up && HasUser(db.users, d.userId)
    ensures db.health != Down && !HasUser(db.users, d.userId) ==> o.result == Failure(MissingUser)
    ensures o.result.Success? ==>
      && o.result.value == DeviceRow(|db.devices| + 1, d.userAgent, d.acceptLanguage, d.ip, d.userId)
      && o.state == db.(devices := db.devices + [o.result.value])
    ensures o.result.Failure? ==> o.state == db
    ensures WellNumbered(db) ==> WellNumbered(o.state)
    ensures WellNumbered(db) && o.result.Success? ==>
      forall i :: 0 <= i < |db.devices| ==> db.devices[i].id != o.result.value.id
  {
    Run(db, AddDevice, d, CommitCheck)
  }

  /** The position of the first row with this address. */
  function FirstWithEmail(users: seq<UserRow>, email: string): (r: Option<nat>)
    ensures r.None? <==> forall i :: 0 <= i < |users| ==> users[i].email != email
    ensures r.Some? ==>
      r.value < |users| && users[r.value].email == email
      && forall i :: 0 <= i < r.value ==> users[i].email != email
    decreases |users|
  {
    if |users| == 0 then None
    else if users[0].email == email then Some(0)
    else
      match FirstWithEmail(users[1..], email)
      case None => None
      case Some(i) => Some(i + 1)
  }

  /** `get_user`: `.filter_by(user_email=…).first()`; a database that does
      not answer raises. */
  function GetUserByEmail(db: Db, email: string): (r: Result<Option<UserRow>, string>)
    ensures r.Failure? <==> db.health == Down
    ensures r.Success? && r.value.Some? ==> r.value.value in db.users && r.value.value.email == email
    ensures r.Success? ==> (r.value.None? <==> forall i :: 0 <= i < |db.users| ==> db.users[i].email != email)
  {
    if db.health == Down then Failure(Unavailable)
    else
      match FirstWithEmail(db.users, email)
      case None => Success(None)
      case Some(i) => Success(Some(db.users[i]))
  }

  /** A user just created is found by address afterwards: the new row
      itself when no earlier row had that address. */
  lemma CreatedUserIsFound(db: Db, u: NewUser)
    requires CreateUser(db, u).result.Success?
    ensures var o := CreateUser(db, u);
      GetUserByEmail(o.state, u.email).Success? && GetUserByEmail(o.state, u.email).value.Some?
    ensures var o := CreateUser(db, u);
      GetUserByEmail(db, u.email) == Success(None) ==>
        GetUserByEmail(o.state, u.email) == Success(Some(o.result.value))
  {
    var o := CreateUser(db, u);
    assert o.state.users[|db.users|] == o.result.value;
  }

  /** A second user with the same non-null `user_uuid` is refused, nothing
      is written, and its address stays unknown. */
  lemma SecondUserWithSameUuidRefused(db: Db, u1: NewUser, u2: NewUser)
    requires CreateUser(db, u1).result.Success?
    requires u1.uuid.Some? && u2.uuid == u1.uuid
    requires u2.email != u1.email && GetUserByEmail(db, u2.email) == Success(None)
    ensures var db1 := CreateUser(db, u1).state;
      CreateUser(db1, u2).result == Failure(DuplicateUuid) && CreateUser(db1, u2).state == db1
    ensures var db1 := CreateUser(db, u1).state;
      GetUserByEmail(CreateUser(db1, u2).state, u2.email) == Success(None)
  {
    var db1 := CreateUser(db, u1).state;
    assert db1.users[|db.users|].uuid == u1.uuid;
  }
}
