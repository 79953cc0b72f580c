/** `UserController`: validate, then get-or-create by e-mail address. */
module UserController {
  import opened Wrappers
  import opened Replies
  import opened Database

  /** The validated `UserSchema`; its `validate_all` hands the record back. */
  datatype UserSchema = UserSchema(name: string, email: string)

  const ValidationOk := "User validation successful"
  const ValidationError := "Error validating user! Please try again later."
  const AlreadyExists := "User already exists"
  const Created := "User created successfully"
  const CreateError := "Error creating user! Please try again later."
  const Retrieved := "User retrieved successfully"
  const NotFound := "User not found"
  const GetError := "Error getting user! Please try again later."

  /** `validate_user`: both fields must be strings; a missing one makes the
      schema raise, which is caught. */
  function ValidateUser(name: Option<string>, email: Option<string>): (r: Reply<UserSchema>)
    ensures r.Ok? <==> name.Some? && email.Some?
    ensures r.Ok? ==> r == Ok(ValidationOk, UserSchema(name.value, email.value))
    ensures r.Err? ==> r.message == ValidationError
  {
    if name.None? || email.None? then Err(ValidationError)
    else Ok(ValidationOk, UserSchema(name.value, email.value))
  }

  /** `create_user`: a validation error comes back as it was; an existing
      address returns its row and inserts nothing; otherwise one row is
      inserted. Errors from the lookup or the insert, a clashing
      `user_uuid` among them, are caught. */
  function CreateUser(db: Db, name: Option<string>, email: Option<string>, avatar: Option<string>, uuid: Option<string>)
    : (r: (Reply<UserRow>, Db))
    ensures r.0.Ok? <==> (name.Some? && email.Some? && db.health != Down
      && (GetUserByEmail(db, email.value).value.None? ==> db.health == Up && !UuidTaken(db.users, uuid)))
    ensures (name.Some? && email.Some? && db.health != Down && GetUserByEmail(db, email.value).value.None?
             && UuidTaken(db.users, uuid)) ==> r == (Err(CreateError), db)
    ensures r.0.Ok? ==> r.0.data.email == email.value
    ensures r.0.Err? ==> r.1 == db
    ensures name.None? || email.None? ==> r.0 == Err(ValidateUser(name, email).message)
    ensures r.0.Ok? && r.0.message == AlreadyExists ==> r.1 == db && r.0.data in db.users
    ensures r.0.Ok? && r.0.message == Created ==>
      && r.0.data == UserRow(|db.users| + 1, name.value, email.value, avatar, uuid)
      && r.1 == db.(users := db.users + [r.0.data])
    ensures r.0.Ok? ==> r.0.message in {AlreadyExists, Created}
    ensures r.1 == db || (r.0.Ok? && r.0.message == Created)
  {
    match ValidateUser(name, email)
    case Err(m) => (Err(m), db)
    case Ok(_, schema) =>
      match GetUserByEmail(db, schema.email)
      case Failure(_) => (Err(CreateError), db)
      case Success(Some(existing)) => (Ok(AlreadyExists, existing), db)
      case Success(None) =>
        var o := Database.CreateUser(db, NewUser(schema.name, schema.email, avatar, uuid));
        match o.result
        case Failure(_) => (Err(CreateError), o.state)
        case Success(row) => (Ok(Created, row), o.state)
  }

  /** Get-or-create: a second call with the same address inserts nothing,
      so the two calls together insert at most one row, and when both
      succeed the second returns an existing row with that address. */
  lemma SecondCreateInsertsNothing(db: Db, name: Option<string>, email: Option<string>,
                                   avatar: Option<string>, uuid: Option<string>,
                                   name2: Option<string>, avatar2: Option<string>, uuid2: Option<string>)
    requires CreateUser(db, name, email, avatar, uuid).0.Ok?
    ensures var db1 := CreateUser(db, name, email, avatar, uuid).1;
      var second := CreateUser(db1, name2, email, avatar2, uuid2);
      second.1 == db1 && |second.1.users| <= |db.users| + 1
    ensures var db1 := CreateUser(db, name, email, avatar, uuid).1;
      var second := CreateUser(db1, name2, email, avatar2, uuid2);
      second.0.Ok? ==> second.0.message == AlreadyExists
  {
    var first := CreateUser(db, name, email, avatar, uuid);
    if first.0.message == Created {
      CreatedUserIsFound(db, NewUser(name.value, email.value, avatar, uuid));
    }
  }

  /** `get_user`: looks the key up as an e-mail address. */
  function GetUser(db: Db, key: string): (r: Reply<UserRow>)
    ensures r.Ok? <==> db.health != Down && exists i :: 0 <= i < |db.users| && db.users[i].email == key
    ensures r.Ok? ==> r.message == Retrieved && r.data in db.users && r.data.email == key
    ensures r.Err? ==> r.message == (if db.health == Down then GetError else NotFound)
  {
    match GetUserByEmail(db, key)
    case Failure(_) => Err(GetError)
    case Success(None) => Err(NotFound)
    case Success(Some(user)) => Ok(Retrieved, user)
  }
}
