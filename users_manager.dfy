/**
 * `CustomUserManager` and `User.save`: building an account from the
 * manager's arguments, validating it, and writing it to the users table.
 * The uuid a new account receives (a random `uuid4`) is a parameter.
 */
module UserManager {
  import opened Wrappers
  import opened Uuids
  import opened UserModels
  import opened ProjectModels
  import opened Db

  /** The new account's row under the next primary key. */
  function AddUser(t: Tables, u: User): (r: Tables)
    ensures r.users == t.users[t.serial := u] && r.serial == t.serial + 1
    ensures r.projects == t.projects && r.contributors == t.contributors
    ensures r.issues == t.issues && r.comments == t.comments
  {
    t.(users := t.users[t.serial := u], serial := t.serial + 1)
  }

  /**
   * `User.save` of a new account: `full_clean` first, and the row is written
   * only when it passes, under the next primary key.
   */
  function SaveNew(t: Tables, u: User): (o: Outcome<Result<UserId, UserError>>)
    ensures o.result.Ok? <==> AgeAdmitted(u.age) && UsernameAdmitted(u.username) && !UsernameTakenBy(t.users, None, u.username)
    ensures o.result.Err? ==> o.tables == t
    ensures o.result.Ok? ==> o.result.value == t.serial && o.tables == AddUser(t, u)
    ensures u.age < MinimumAge ==> o.result.Err? && o.result.error.AgeInvalid?
    ensures u.age > MaxAge ==> o.result == Err(AgeTooLarge)
    ensures AgeAdmitted(u.age) && !UsernameAdmitted(u.username) ==> o.result == Err(UsernameInvalid)
  {
    match FullClean(t.users, None, u)
    case Some(e) => Outcome(Err(e), t)
    case None => Outcome(Ok(t.serial), AddUser(t, u))
  }

  /**
   * `create_user`: the four presence checks in their order, then the account
   * built from the arguments (staff and superuser flags off unless given) and
   * saved.
   */
  function CreateUserStep(t: Tables, username: string, extra: ExtraFields, uuid: Uuid): (o: Outcome<Result<UserId, UserError>>)
    ensures o.result.Ok? <==>
      RequiredFieldsError(username, extra).None? && AgeAdmitted(extra.age.value) && UsernameAdmitted(username)
      && !UsernameTakenBy(t.users, None, username)
    ensures o.result.Err? ==> o.tables == t
    ensures username == "" ==> o.result == Err(UsernameRequired)
    ensures o.result.Ok? ==> o.result.value in o.tables.users
    ensures o.result.Ok? && o.result.value in o.tables.users ==>
      var u := o.tables.users[o.result.value];
      u.username == username && u.uuid == uuid && u.age == extra.age.value
      && u.canBeContacted == extra.canBeContacted.value && u.canDataBeShared == extra.canDataBeShared.value
      && (u.isSuperuser <==> extra.isSuperuser == Some(true)) && (u.isStaff <==> extra.isStaff == Some(true))
  {
    match RequiredFieldsError(username, extra)
    case Some(e) => Outcome(Err(e), t)
    case None => SaveNew(t, BuildUser(username, extra, uuid))
  }

  /**
   * `create_superuser`: the defaults are filled in, the two flags must then be
   * exactly True, and `create_user` does the rest. An account it creates is
   * always staff and superuser.
   */
  function CreateSuperuserStep(t: Tables, username: string, extra: ExtraFields, uuid: Uuid): (o: Outcome<Result<UserId, UserError>>)
    ensures o.result.Ok? ==> o.result.value in o.tables.users
    ensures o.result.Ok? && o.result.value in o.tables.users ==>
              o.tables.users[o.result.value].isStaff && o.tables.users[o.result.value].isSuperuser
              && (extra.age.None? ==> o.tables.users[o.result.value].age == 30)
    ensures extra.isStaff.Some? && extra.isStaff != Some(true) ==> o.result == Err(StaffRequired) && o.tables == t
    ensures extra.isStaff != Some(false) && extra.isSuperuser.Some? && extra.isSuperuser != Some(true) ==>
              o.result == Err(SuperuserRequired) && o.tables == t
    ensures extra == ExtraFields(None, None, None, None, None) ==>
              (o.result.Ok? <==> UsernameAdmitted(username) && !UsernameTakenBy(t.users, None, username))
  {
    var full := WithSuperuserDefaults(extra);
    assert extra.isStaff != Some(false) ==> full.isStaff == Some(true) by {
      if extra.isStaff.Some? && extra.isStaff != Some(false) {
        assert extra.isStaff.value;
      }
    }
    match SuperuserFlagsError(full)
    case Some(e) => Outcome(Err(e), t)
    case None => CreateUserStep(t, username, full, uuid)
  }

  /** Adding an account changes neither the project tables nor who belongs to what. */
  lemma {:induction false} AddUserKeepsProjectRules(t: Tables, r: Tables)
    requires Consistent(t)
    requires r.projects == t.projects && r.contributors == t.contributors
    requires r.issues == t.issues && r.comments == t.comments
    requires t.users.Keys <= r.users.Keys && t.serial <= r.serial
    requires forall k :: k in r.users ==> 0 < k < r.serial
    ensures KeysBelowSerial(r) && Linked(r) && UniqueRows(r) && AuthorRows(r) && AssigneesInProject(r)
  {
    assert AuthorRows(r) by {
      forall p | p in r.projects ensures IsMember(r, p, r.projects[p].author) {
        assert IsMember(t, p, t.projects[p].author);
      }
    }
  }

  /** A fresh username and uuid, an admitted age and an admitted username keep the users table valid. */
  lemma {:induction false} AddUserKeepsValidUsers(users: map<UserId, User>, id: UserId, u: User)
    requires UniqueUsernames(users) && UniqueUuids(users)
    requires UsersAdmitted(users)
    requires id !in users && AgeAdmitted(u.age) && UsernameAdmitted(u.username) && !UsernameTakenBy(users, None, u.username)
    requires forall v :: v in users ==> users[v].uuid != u.uuid
    ensures UniqueUsernames(users[id := u]) && UniqueUuids(users[id := u]) && UsersAdmitted(users[id := u])
  {
    var r := users[id := u];
    forall a, b | a in r && b in r && a != b
      ensures r[a].username != r[b].username && r[a].uuid != r[b].uuid
    {
      if a == id {
        assert b in users;
      } else if b == id {
        assert a in users;
      }
    }
  }

  /**
   * Writing a new account keeps the store consistent when its uuid is fresh:
   * `full_clean` already rules out a short age and a taken username.
   */
  lemma SaveNewKeepsConsistency(t: Tables, u: User)
    requires Consistent(t)
    requires forall v :: v in t.users ==> t.users[v].uuid != u.uuid
    ensures Consistent(SaveNew(t, u).tables)
  {
    if SaveNew(t, u).result.Ok? {
      AddUserKeepsConsistency(t, u);
    }
  }

  /** The row write itself: an admitted account with a fresh uuid keeps the store consistent. */
  lemma {:induction false} AddUserKeepsConsistency(t: Tables, u: User)
    requires Consistent(t)
    requires AgeAdmitted(u.age) && UsernameAdmitted(u.username) && !UsernameTakenBy(t.users, None, u.username)
    requires forall v :: v in t.users ==> t.users[v].uuid != u.uuid
    ensures Consistent(AddUser(t, u))
  {
    var r := AddUser(t, u);
    assert t.serial !in t.users;
    AddUserKeepsValidUsers(t.users, t.serial, u);
    AddUserKeepsProjectRules(t, r);
    assert ValidUsers(r);
  }

  /** No manager call ever stores an account under 15, or breaks the store. */
  lemma CreateKeepsConsistency(t: Tables, username: string, extra: ExtraFields, uuid: Uuid)
    requires Consistent(t)
    requires forall v :: v in t.users ==> t.users[v].uuid != uuid
    ensures Consistent(CreateUserStep(t, username, extra, uuid).tables)
    ensures Consistent(CreateSuperuserStep(t, username, extra, uuid).tables)
  {
    if RequiredFieldsError(username, extra).None? {
      SaveNewKeepsConsistency(t, BuildUser(username, extra, uuid));
    }
    var full := WithSuperuserDefaults(extra);
    if SuperuserFlagsError(full).None? && RequiredFieldsError(username, full).None? {
      SaveNewKeepsConsistency(t, BuildUser(username, full, uuid));
    }
  }

  /** `CustomUserManager`, bound to the database it writes to. */
  class CustomUserManager {
    const db: Database

    constructor (db: Database)
      ensures this.db == db
    {
      this.db := db;
    }

    /** `User.save` on a new instance. */
    method Save(u: User) returns (r: Result<UserId, UserError>)
      modifies db
      ensures Outcome(r, db.tables) == SaveNew(old(db.tables), u)
    {
      var problem := FullClean(db.tables.users, None, u);
      if problem.Some? {
        return Err(problem.value);
      }
      r := Ok(db.tables.serial);
      db.tables := db.tables.(users := db.tables.users[db.tables.serial := u], serial := db.tables.serial + 1);
    }

    method CreateUser(username: string, extra: ExtraFields, uuid: Uuid) returns (r: Result<UserId, UserError>)
      modifies db
      ensures Outcome(r, db.tables) == CreateUserStep(old(db.tables), username, extra, uuid)
    {
      var missing := RequiredFieldsError(username, extra);
      if missing.Some? {
        return Err(missing.value);
      }
      var user := BuildUser(username, extra, uuid);
      r := Save(user);
    }

    method CreateSuperuser(username: string, extra: ExtraFields, uuid: Uuid) returns (r: Result<UserId, UserError>)
      modifies db
      ensures Outcome(r, db.tables) == CreateSuperuserStep(old(db.tables), username, extra, uuid)
    {
      var full := WithSuperuserDefaults(extra);
      var flags := SuperuserFlagsError(full);
      if flags.Some? {
        return Err(flags.value);
      }
      r := CreateUser(username, full, uuid);
    }
  }
}
