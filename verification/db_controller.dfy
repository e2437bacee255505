/** The guard rules of `DatabaseController` (app/database/db_controller.py).
    The two tables are abstract values: `USERS` maps a (login, password)
    pair to its two base64 key columns, and `CONTACTS` is a set of
    (owner login, contact login) pairs. Every raising guard runs before the
    table is touched, so an operation either fails with the tables as they
    were or returns the new tables. */
module Database {
  import opened Common
  import opened CryptoUtils
  import opened Users

  /** The columns a row of `USERS` is found by. */
  datatype Credentials = Credentials(login: string, password: string)

  /** The key columns of a row of `USERS`: NULL or base64 text. */
  datatype Row = Row(idKey: Option<string>, signedPreKey: Option<string>)

  datatype Db = Db(users: map<Credentials, Row>, contacts: set<(string, string)>)

  /** The tables right after `create_tables`. */
  function EmptyDb(): (r: Db)
    ensures forall c: Credentials :: !UserExists(r, c)
  {
    Db(map[], {})
  }

  /** `user_exists`: a row matches both the login and the password. */
  function UserExists(db: Db, c: Credentials): bool {
    c in db.users
  }

  /** `create_user`: inserts a row with both key columns NULL; a row that
      is already present is kept as it is. No other row changes. */
  function CreateUser(db: Db, c: Credentials): (r: Db)
    ensures UserExists(r, c)
    ensures !UserExists(db, c) ==> r.users[c] == Row(None, None)
    ensures UserExists(db, c) ==> r.users[c] == db.users[c]
    ensures forall other :: other != c ==> (UserExists(r, other) <==> UserExists(db, other))
    ensures forall other :: other != c && other in db.users ==> other in r.users && r.users[other] == db.users[other]
    ensures r.contacts == db.contacts
  {
    if c in db.users then db else db.(users := db.users[c := Row(None, None)])
  }

  /** `delete_user`: raises for an absent user, otherwise removes exactly
      that row. */
  function DeleteUser(db: Db, c: Credentials): (r: Result<Db>)
    ensures r.Err? <==> !UserExists(db, c)
    ensures r.Err? ==> r.error == DatabaseException(NoSuchUser)
    ensures r.Ok? ==> !UserExists(r.value, c)
    ensures r.Ok? ==> forall other :: other != c ==> (UserExists(r.value, other) <==> UserExists(db, other))
    ensures r.Ok? ==> r.value.contacts == db.contacts
  {
    if c !in db.users then Err(DatabaseException(NoSuchUser))
    else Ok(db.(users := db.users - {c}))
  }

  /** `add_contact`: raises for an absent owner, then for the owner's own
      login; otherwise the pair is recorded and no other pair changes. */
  function AddContact(db: Db, c: Credentials, contact: string): (r: Result<Db>)
    ensures r.Err? <==> !UserExists(db, c) || c.login == contact
    ensures !UserExists(db, c) ==> r == Err(DatabaseException(NoSuchUser))
    ensures UserExists(db, c) && c.login == contact ==> r == Err(DatabaseException(SelfContact))
    ensures r.Ok? ==> r.value.contacts == db.contacts + {(c.login, contact)}
    ensures r.Ok? ==> r.value.users == db.users
  {
    if c !in db.users then Err(DatabaseException(NoSuchUser))
    else if c.login == contact then Err(DatabaseException(SelfContact))
    else Ok(db.(contacts := db.contacts + {(c.login, contact)}))
  }

  /** `contact_exists`: raises for an absent owner; otherwise whether the
      owner's login has that contact. */
  function ContactExists(db: Db, c: Credentials, contact: string): (r: Result<bool>)
    ensures r.Err? <==> !UserExists(db, c)
    ensures r.Err? ==> r.error == DatabaseException(NoSuchUser)
    ensures r.Ok? ==> (r.value <==> (c.login, contact) in db.contacts)
  {
    if c !in db.users then Err(DatabaseException(NoSuchUser))
    else Ok((c.login, contact) in db.contacts)
  }

  /** `delete_contact`: the guard of `contact_exists`, then raises for an
      absent contact; otherwise exactly that pair is removed. */
  function DeleteContact(db: Db, c: Credentials, contact: string): (r: Result<Db>)
    ensures r.Err? <==> ContactExists(db, c, contact) != Ok(true)
    ensures !UserExists(db, c) ==> r == Err(DatabaseException(NoSuchUser))
    ensures UserExists(db, c) && r.Err? ==> r.error == DatabaseException(NoSuchContact)
    ensures r.Ok? ==> r.value.contacts == db.contacts - {(c.login, contact)}
    ensures r.Ok? ==> r.value.users == db.users
  {
    match ContactExists(db, c, contact)
    case Err(e) => Err(e)
    case Ok(present) =>
      if !present then Err(DatabaseException(NoSuchContact))
      else Ok(db.(contacts := db.contacts - {(c.login, contact)}))
  }

  /** `get_user_contacts`: raises for an absent owner; otherwise exactly
      the logins recorded for the owner's login. The source returns them as
      a list in the order the table yields; the model keeps the set. */
  function GetUserContacts(db: Db, c: Credentials): (r: Result<set<string>>)
    ensures r.Err? <==> !UserExists(db, c)
    ensures r.Err? ==> r.error == DatabaseException(NoSuchUser)
    ensures r.Ok? ==> forall x :: x in r.value <==> ContactExists(db, c, x) == Ok(true)
  {
    if c !in db.users then Err(DatabaseException(NoSuchUser))
    else Ok(set p | p in db.contacts && p.0 == c.login :: p.1)
  }

  /** `load_user_keys`: raises for an absent user and for a NULL key
      column; otherwise both columns are decoded and only then stored in
      the user state, so a decoding error leaves the state unchanged. */
  function LoadUserKeys(db: Db, password: string, u: UserState): (r: Result<UserState>)
    ensures !UserExists(db, Credentials(u.login, password)) ==> r == Err(DatabaseException(NoSuchUser))
    ensures UserExists(db, Credentials(u.login, password)) ==>
      var row := db.users[Credentials(u.login, password)];
      (row.idKey.None? || row.signedPreKey.None? ==> r == Err(DatabaseException(MissingStoredKey)))
      && (r.Ok? <==> row.idKey.Some? && row.signedPreKey.Some?
                     && CreatePrivateKeyFromB64(row.idKey.value).Ok?
                     && CreatePrivateKeyFromB64(row.signedPreKey.value).Ok?)
      && (r.Ok? ==> r.value.login == u.login
                    && r.value.idKey == Some(CreatePrivateKeyFromB64(row.idKey.value).value)
                    && r.value.signedPreKey == Some(CreatePrivateKeyFromB64(row.signedPreKey.value).value))
  {
    var c := Credentials(u.login, password);
    if c !in db.users then Err(DatabaseException(NoSuchUser))
    else
      var row := db.users[c];
      if row.idKey.None? || row.signedPreKey.None? then Err(DatabaseException(MissingStoredKey))
      else
        match CreatePrivateKeyFromB64(row.idKey.value)
        case Err(e) => Err(e)
        case Ok(id) =>
          match CreatePrivateKeyFromB64(row.signedPreKey.value)
          case Err(e) => Err(e)
          case Ok(spk) => Ok(SetSignedPreKey(SetIdKey(u, Some(id)), Some(spk)))
  }

  /** The `UPDATE USERS ... WHERE login=? AND password=?` statement: only a
      matching row changes. */
  function UpdateRow(db: Db, c: Credentials, f: Row -> Row): Db {
    if c in db.users then db.(users := db.users[c := f(db.users[c])]) else db
  }

  /** `update_user_keys`: raises when the state holds neither key;
      otherwise each key the state holds is written, base64-encoded, into
      the user's row (when there is one), and the other column is kept. */
  function UpdateUserKeys(db: Db, password: string, u: UserState): (r: Result<Db>)
    ensures r.Err? <==> u.idKey.None? && u.signedPreKey.None?
    ensures r.Err? ==> r.error == DatabaseException(NothingToUpdate)
    ensures r.Ok? ==> r.value.contacts == db.contacts
    ensures r.Ok? ==> r.value.users.Keys == db.users.Keys
    ensures r.Ok? ==> forall c :: c in db.users && c != Credentials(u.login, password) ==>
      r.value.users[c] == db.users[c]
    ensures r.Ok? && UserExists(db, Credentials(u.login, password)) ==>
      var before := db.users[Credentials(u.login, password)];
      var after := r.value.users[Credentials(u.login, password)];
      after.idKey == (if u.idKey.Some? then ReprPrivateKey(u.idKey) else before.idKey)
      && after.signedPreKey == (if u.signedPreKey.Some? then ReprPrivateKey(u.signedPreKey) else before.signedPreKey)
  {
    if u.idKey.None? && u.signedPreKey.None? then Err(DatabaseException(NothingToUpdate))
    else
      var c := Credentials(u.login, password);
      var db1 := if u.idKey.Some?
        then UpdateRow(db, c, (row: Row) => row.(idKey := Some(CreateB64FromPrivateKey(u.idKey.value))))
        else db;
      var db2 := if u.signedPreKey.Some?
        then UpdateRow(db1, c, (row: Row) => row.(signedPreKey := Some(CreateB64FromPrivateKey(u.signedPreKey.value))))
        else db1;
      Ok(db2)
  }

  /** A call of `create_user` or `delete_user`. */
  datatype UserCall = CreateCall(who: Credentials) | DeleteCall(who: Credentials)

  /** The tables after the calls, in order; a `delete_user` that raises
      leaves the tables as they were. */
  function Replay(db: Db, calls: seq<UserCall>): Db
    decreases |calls|
  {
    if |calls| == 0 then db
    else
      var before := Replay(db, calls[..|calls| - 1]);
      match calls[|calls| - 1]
      case CreateCall(c) => CreateUser(before, c)
      case DeleteCall(c) => if DeleteUser(before, c).Ok? then DeleteUser(before, c).value else before
  }

  /** The last of the calls that names `c`, if any. */
  function LastCallOn(calls: seq<UserCall>, c: Credentials): Option<UserCall>
    decreases |calls|
  {
    if |calls| == 0 then None
    else if calls[|calls| - 1].who == c then Some(calls[|calls| - 1])
    else LastCallOn(calls[..|calls| - 1], c)
  }

  /** From fresh tables, after any sequence of `create_user` and
      `delete_user` calls, a user exists exactly when the last call that
      names it was a `create_user`. */
  lemma {:induction false} ExistenceFollowsHistory(calls: seq<UserCall>, c: Credentials)
    ensures UserExists(Replay(EmptyDb(), calls), c)
        <==> LastCallOn(calls, c).Some? && LastCallOn(calls, c).value.CreateCall?
    decreases |calls|
  {
    if |calls| > 0 {
      ExistenceFollowsHistory(calls[..|calls| - 1], c);
    }
  }

  /** Creating a user makes it exist; deleting it again removes it. */
  lemma CreateDeleteUser(db: Db, c: Credentials)
    ensures DeleteUser(CreateUser(db, c), c).Ok?
    ensures !UserExists(DeleteUser(CreateUser(db, c), c).value, c)
    ensures !UserExists(db, c) ==> DeleteUser(CreateUser(db, c), c).value == db
  {
    if !UserExists(db, c) {
      assert CreateUser(db, c).users - {c} == db.users;
    }
  }

  /** After `add_contact(o, x)` the contact exists and the contact list
      is the old list with `x` added; deleting it again restores the table
      when `x` was not a contact before. */
  lemma AddThenDeleteContact(db: Db, c: Credentials, contact: string)
    requires UserExists(db, c) && c.login != contact
    ensures ContactExists(AddContact(db, c, contact).value, c, contact) == Ok(true)
    ensures GetUserContacts(AddContact(db, c, contact).value, c).value
         == GetUserContacts(db, c).value + {contact}
    ensures DeleteContact(AddContact(db, c, contact).value, c, contact).Ok?
    ensures ContactExists(db, c, contact) == Ok(false) ==>
      DeleteContact(AddContact(db, c, contact).value, c, contact).value == db
  {
    var after := AddContact(db, c, contact).value;
    var l := GetUserContacts(after, c).value;
    var r := GetUserContacts(db, c).value + {contact};
    forall x
      ensures x in l <==> x in r
    {
      assert x in l <==> ContactExists(after, c, x) == Ok(true);
      assert x in GetUserContacts(db, c).value <==> ContactExists(db, c, x) == Ok(true);
    }
    if ContactExists(db, c, contact) == Ok(false) {
      assert after.contacts - {(c.login, contact)} == db.contacts;
    }
  }

  /** Saving both keys of a registered user and loading them back gives
      the same keys: `update_user_keys` and `load_user_keys` are inverse. */
  lemma UpdateThenLoad(db: Db, password: string, u: UserState, target: UserState)
    requires UserExists(db, Credentials(u.login, password))
    requires u.idKey.Some? && u.signedPreKey.Some?
    requires target.login == u.login
    ensures UpdateUserKeys(db, password, u).Ok?
    ensures LoadUserKeys(UpdateUserKeys(db, password, u).value, password, target)
         == Ok(UserState(u.login, u.idKey, u.signedPreKey))
  {
  }
}
