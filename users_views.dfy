/**
 * `UserViewSet`: which permission classes each action runs, the accounts a
 * requester can see, the account list, account creation (open only to
 * visitors who are not logged in), profile updates and account deletion.
 */
module UserViews {
  import opened Wrappers
  import opened Text
  import opened Http
  import opened Uuids
  import opened UserModels
  import opened ProjectModels
  import opened Db
  import opened UserPermissions
  import opened UserSerializers
  import opened UserManager

  // ---------------------------------------------------------------------
  // get_permissions
  // ---------------------------------------------------------------------

  /** The router actions of the view set. */
  datatype Action = ListAction | RetrieveAction | CreateAction | UpdateAction | PartialUpdateAction | DestroyAction

  /** The permission classes the view set chooses from. */
  datatype PermissionClass = IsAuthenticatedClass | IsSelfOrReadOnlyClass | IsNotAuthenticatedClass

  /** The actions that change or delete an existing account. */
  predicate IsWrite(a: Action) {
    a == UpdateAction || a == PartialUpdateAction || a == DestroyAction
  }

  /** The HTTP method each action is routed from. */
  function ActionMethod(a: Action): Method {
    match a
    case ListAction => GET
    case RetrieveAction => GET
    case CreateAction => POST
    case UpdateAction => PUT
    case PartialUpdateAction => PATCH
    case DestroyAction => DELETE
  }

  /** `get_permissions`: the classes instantiated for an action. */
  function GetPermissions(a: Action): set<PermissionClass> {
    if a == CreateAction then {IsNotAuthenticatedClass}
    else if IsWrite(a) then {IsAuthenticatedClass, IsSelfOrReadOnlyClass}
    else {IsAuthenticatedClass}
  }

  /**
   * `check_permissions`: the `has_permission` of every chosen class passes.
   * `IsSelfOrReadOnly` keeps the framework's default, which lets every request through.
   */
  predicate HasPermission(a: Action, actor: RequestUser) {
    (IsAuthenticatedClass in GetPermissions(a) ==> IsAuthenticated(actor))
    && (IsNotAuthenticatedClass in GetPermissions(a) ==> IsNotAuthenticated(actor))
  }

  /**
   * `check_object_permissions`: the `has_object_permission` of every chosen
   * class passes; only `IsSelfOrReadOnly` looks at the object.
   */
  predicate HasObjectPermission(a: Action, actor: RequestUser, target: UserId) {
    IsSelfOrReadOnlyClass in GetPermissions(a) ==> IsSelfOrReadOnly(actor, ActionMethod(a), target)
  }

  /**
   * Account creation is for visitors who are not logged in; every other
   * action needs a login; and an update or a delete passes both checks
   * exactly when it targets the requester's own account.
   */
  lemma PermissionMapping(a: Action, actor: RequestUser, target: UserId)
    ensures a == CreateAction ==> (HasPermission(a, actor) <==> !IsAuthenticated(actor))
    ensures a != CreateAction ==> (HasPermission(a, actor) <==> IsAuthenticated(actor))
    ensures IsWrite(a) ==>
              (HasPermission(a, actor) && HasObjectPermission(a, actor, target) <==> actor == Known(target))
    ensures !IsWrite(a) ==> HasObjectPermission(a, actor, target)
  {
  }

  // ---------------------------------------------------------------------
  // get_queryset and list
  // ---------------------------------------------------------------------

  /** `get_queryset`: every account for a superuser, else only the requester's own. */
  function VisibleUsers(t: Tables, user: UserId): (r: set<UserId>)
    ensures r <= t.users.Keys
    ensures IsSuperuser(t, Known(user)) ==> r == t.users.Keys
    ensures !IsSuperuser(t, Known(user)) ==> r <= {user}
    ensures user in t.users ==> user in r
  {
    if IsSuperuser(t, Known(user)) then t.users.Keys else t.users.Keys * {user}
  }

  /**
   * `list`: the `IsAuthenticated` check refuses a request without a login
   * (the view's own 401 comes after it and is never reached); a superuser
   * lists every account and anybody else only their own.
   */
  function ListUsers(t: Tables, actor: RequestUser): (r: Listing)
    ensures !IsAuthenticated(actor) <==> r.Message?
    ensures r.Message? ==> r.reply.status == HTTP_401_UNAUTHORIZED
    ensures IsSuperuser(t, actor) ==> r == Items(t.users.Keys)
    ensures IsAuthenticated(actor) && actor.id in t.users && !IsSuperuser(t, actor) ==> r == Items({actor.id})
  {
    if !HasPermission(ListAction, actor) then Message(Refusal(actor))
    else Items(VisibleUsers(t, actor.id))
  }

  // ---------------------------------------------------------------------
  // destroy
  // ---------------------------------------------------------------------

  const ActionDeniedMessage: string := "Action non autorisée."

  function AccountDeletedMessage(username: string): string {
    "Le compte '" + username + "' a bien été supprimé avec succès."
  }

  /**
   * `perform_destroy`: the account is deleted, with every row that cascades
   * from it, when the requester is its owner or a superuser; otherwise
   * nothing changes. The result says whether it was deleted.
   */
  function PerformDestroyStep(t: Tables, actor: RequestUser, instance: UserId): (o: Outcome<bool>)
    ensures o.result <==> actor == Known(instance) || IsSuperuser(t, actor)
    ensures !o.result ==> o.tables == t
    ensures o.result ==> instance !in o.tables.users && SubStore(o.tables, t)
    ensures o.result ==> o.tables == Cascade(t, JustUser(instance))
  {
    if actor != Known(instance) && !IsSuperuser(t, actor) then Outcome(false, t)
    else Outcome(true, Cascade(t, JustUser(instance)))
  }

  /**
   * `destroy`: the permission check, `get_object` (404 outside the
   * queryset), the object permission, then `perform_destroy` and the
   * confirmation naming the deleted account.
   */
  function DestroyUser(t: Tables, actor: RequestUser, id: UserId): (o: Outcome<Reply>)
    ensures o.result.status == HTTP_200_OK ==> id in t.users
    ensures o.result.status != HTTP_200_OK ==> o.tables == t
    ensures o.result.status == HTTP_200_OK ==> o.tables == Cascade(t, JustUser(id))
  {
    if !HasPermission(DestroyAction, actor) then Outcome(Refusal(actor), t)
    else if id !in VisibleUsers(t, actor.id) then Outcome(Reply(HTTP_404_NOT_FOUND, NotFound), t)
    else if !HasObjectPermission(DestroyAction, actor, id) then Outcome(Refusal(actor), t)
    else
      var done := PerformDestroyStep(t, actor, id);
      if !done.result then Outcome(Reply(HTTP_403_FORBIDDEN, ActionDeniedMessage), t)
      else Outcome(Reply(HTTP_200_OK, AccountDeletedMessage(t.users[id].username)), done.tables)
  }

  /**
   * Only the owner deletes an account: a delete succeeds exactly when the
   * requester targets their own, existing account, and it then removes that
   * account. Even a superuser is refused another account by the object
   * permission, before `perform_destroy` could let it through.
   */
  lemma DestroyOnlySelf(t: Tables, actor: RequestUser, id: UserId)
    ensures DestroyUser(t, actor, id).result.status == HTTP_200_OK <==> actor == Known(id) && id in t.users
    ensures DestroyUser(t, actor, id).result.status == HTTP_200_OK ==> id !in DestroyUser(t, actor, id).tables.users
    ensures IsSuperuser(t, actor) && actor != Known(id) && id in t.users ==>
              DestroyUser(t, actor, id).result == Reply(HTTP_403_FORBIDDEN, PermissionDenied)
    ensures !IsSuperuser(t, actor) && actor != Known(id) && actor.Known? ==>
              DestroyUser(t, actor, id).result == Reply(HTTP_404_NOT_FOUND, NotFound)
  {
    PermissionMapping(DestroyAction, actor, id);
  }

  /** After the object permission passed, the guard of `perform_destroy` always passes too. */
  lemma PerformDestroyGuardIsRedundant(t: Tables, actor: RequestUser, id: UserId)
    requires HasPermission(DestroyAction, actor) && HasObjectPermission(DestroyAction, actor, id)
    ensures PerformDestroyStep(t, actor, id).result
  {
    PermissionMapping(DestroyAction, actor, id);
  }

  /** Deleting an account, with everything that cascades from it, keeps the store consistent. */
  lemma DestroyUserKeepsConsistency(t: Tables, actor: RequestUser, id: UserId)
    requires Consistent(t)
    ensures Consistent(DestroyUser(t, actor, id).tables)
  {
    if DestroyUser(t, actor, id).result.status == HTTP_200_OK {
      CascadeKeepsConsistency(t, JustUser(id));
    }
  }

  // ---------------------------------------------------------------------
  // create, update and partial_update
  // ---------------------------------------------------------------------

  /**
   * The writable fields of `UserDetailSerializer` as a request gives them;
   * None marks an absent key. The e-mail is not modelled.
   */
  datatype UserInput = UserInput(
    username: Option<string>,
    password: Option<string>,
    age: Option<int>,
    canBeContacted: Option<bool>,
    canDataBeShared: Option<bool>)

  /**
   * `is_valid` of `UserDetailSerializer`: every field present is checked,
   * and unless the request is `partial` (PATCH) every field must be present.
   * The age goes through `validate_age` and the `max_value` the serializer
   * takes from the model field's range.
   * `self` is the account being edited, which the uniqueness check skips.
   */
  predicate InputValid(users: map<UserId, User>, self: Option<UserId>, input: UserInput, partial: bool) {
    ((input.username.Some? || !partial) ==> UsernameErrors(users, self, input.username) == {})
    && ((input.password.Some? || !partial) ==> PasswordError(input.password).None?)
    && ((input.age.Some? || !partial) ==> input.age.Some? && ValidateAge(input.age.value).None? && input.age.value <= MaxAge)
    && (!partial ==> input.canBeContacted.Some? && input.canDataBeShared.Some?)
  }

  function OrElse<T>(o: Option<T>, default: T): T {
    if o.Some? then o.value else default
  }

  /** The account after the serializer's `update` copied the given fields onto it. */
  function Patched(u: User, input: UserInput): (r: User)
    ensures r.uuid == u.uuid && r.isStaff == u.isStaff && r.isSuperuser == u.isSuperuser
    ensures input == UserInput(None, None, None, None, None) ==> r == u
  {
    u.(username := if input.username.Some? then Trim(input.username.value) else u.username,
       age := OrElse(input.age, u.age),
       canBeContacted := OrElse(input.canBeContacted, u.canBeContacted),
       canDataBeShared := OrElse(input.canDataBeShared, u.canDataBeShared))
  }

  /**
   * A request the serializer accepts also passes the `full_clean` that
   * `save` runs first: the age and the username were already checked, and
   * fields left out keep values the store already admitted.
   */
  lemma AcceptedInputPassesFullClean(t: Tables, id: UserId, input: UserInput, partial: bool)
    requires ValidUsers(t) && id in t.users
    requires InputValid(t.users, Some(id), input, partial)
    ensures FullClean(t.users, Some(id), Patched(t.users[id], input)).None?
  {
    var u := Patched(t.users[id], input);
    if input.username.Some? {
      AcceptedUsernameIsFree(t.users, Some(id), input.username);
    }
  }

  /**
   * `update` (PUT) and `partial_update` (PATCH): the permission check,
   * `get_object`, the object permission, validation, then the account's
   * fields rewritten in place; the uuid and the staff and superuser flags
   * are not writable.
   */
  function UpdateUser(t: Tables, actor: RequestUser, id: UserId, input: UserInput, partial: bool): (o: Outcome<Reply>)
    ensures o.result.status == HTTP_200_OK ==> id in t.users && o.tables == t.(users := t.users[id := Patched(t.users[id], input)])
    ensures o.result.status != HTTP_200_OK ==> o.tables == t
  {
    var a := if partial then PartialUpdateAction else UpdateAction;
    if !HasPermission(a, actor) then Outcome(Refusal(actor), t)
    else if id !in VisibleUsers(t, actor.id) then Outcome(Reply(HTTP_404_NOT_FOUND, NotFound), t)
    else if !HasObjectPermission(a, actor, id) then Outcome(Refusal(actor), t)
    else if !InputValid(t.users, Some(id), input, partial) then Outcome(Reply(HTTP_400_BAD_REQUEST, Invalid), t)
    else Outcome(Reply(HTTP_200_OK, Serialized), t.(users := t.users[id := Patched(t.users[id], input)]))
  }

  /**
   * Nobody edits another account: such a request changes nothing, and a
   * requester who is not a superuser gets a 404 because the account lies
   * outside their queryset.
   */
  lemma UpdateOthersChangesNothing(t: Tables, actor: RequestUser, id: UserId, input: UserInput, partial: bool)
    requires actor != Known(id)
    ensures UpdateUser(t, actor, id, input, partial).tables == t
    ensures UpdateUser(t, actor, id, input, partial).result.status != HTTP_200_OK
    ensures actor.Known? && !IsSuperuser(t, actor) ==>
              UpdateUser(t, actor, id, input, partial).result == Reply(HTTP_404_NOT_FOUND, NotFound)
  {
    var a := if partial then PartialUpdateAction else UpdateAction;
    PermissionMapping(a, actor, id);
  }

  /**
   * Editing one's own account succeeds exactly when the serializer accepts
   * the input, and then touches that account only.
   */
  lemma UpdateSelf(t: Tables, id: UserId, input: UserInput, partial: bool)
    requires id in t.users
    ensures var o := UpdateUser(t, Known(id), id, input, partial);
      (o.result.status == HTTP_200_OK <==> InputValid(t.users, Some(id), input, partial))
      && (forall v :: v in t.users && v != id ==> v in o.tables.users && o.tables.users[v] == t.users[v])
  {
    var a := if partial then PartialUpdateAction else UpdateAction;
    PermissionMapping(a, Known(id), id);
  }

  /** A profile update keeps the store consistent: names stay unique, ages admitted, uuids untouched. */
  lemma UpdateUserKeepsConsistency(t: Tables, actor: RequestUser, id: UserId, input: UserInput, partial: bool)
    requires Consistent(t)
    ensures Consistent(UpdateUser(t, actor, id, input, partial).tables)
  {
    var o := UpdateUser(t, actor, id, input, partial);
    if o.result.status == HTTP_200_OK {
      var u := Patched(t.users[id], input);
      AcceptedInputPassesFullClean(t, id, input, partial);
      ReplaceUserKeepsValidUsers(t.users, id, u);
      assert o.tables.users == t.users[id := u];
      assert ValidUsers(o.tables);
      AddUserKeepsProjectRules(t, o.tables);
    }
  }

  /**
   * Rewriting an account with its own uuid, an admitted age, an admitted and
   * free username keeps the users table valid.
   */
  lemma {:induction false} ReplaceUserKeepsValidUsers(users: map<UserId, User>, id: UserId, u: User)
    requires UniqueUsernames(users) && UniqueUuids(users)
    requires UsersAdmitted(users)
    requires id in users && u.uuid == users[id].uuid
    requires AgeAdmitted(u.age) && UsernameAdmitted(u.username) && !UsernameTakenBy(users, Some(id), u.username)
    ensures UniqueUsernames(users[id := u]) && UniqueUuids(users[id := u])
    ensures UsersAdmitted(users[id := u])
  {
    var r := users[id := u];
    forall a, b | a in r && b in r && a != b
      ensures r[a].username != r[b].username && r[a].uuid != r[b].uuid
    {
      if a == id {
        assert b in users && Some(b) != Some(id);
      } else if b == id {
        assert a in users && Some(a) != Some(id);
      }
    }
  }

  /** The account `create` builds from accepted input: never staff, never superuser. */
  function NewUser(input: UserInput, uuid: Uuid): (u: User)
    requires input.username.Some? && input.age.Some?
    requires input.canBeContacted.Some? && input.canDataBeShared.Some?
  {
    User(Trim(input.username.value), uuid, input.age.value, false, false,
         input.canBeContacted.value, input.canDataBeShared.value)
  }

  /**
   * `create`: refused to a logged-in user, then validated, then the account
   * is built and `save`d (the password is hashed, which is not modelled).
   */
  function Register(t: Tables, actor: RequestUser, input: UserInput, uuid: Uuid): (o: Outcome<Reply>)
    ensures o.result.status != HTTP_201_CREATED ==> o.tables == t
  {
    if !HasPermission(CreateAction, actor) then Outcome(Refusal(actor), t)
    else if !InputValid(t.users, None, input, false) then Outcome(Reply(HTTP_400_BAD_REQUEST, Invalid), t)
    else
      var saved := SaveNew(t, NewUser(input, uuid));
      Outcome(if saved.result.Ok? then Reply(HTTP_201_CREATED, Serialized) else Reply(HTTP_400_BAD_REQUEST, Invalid),
              saved.tables)
  }

  /** A logged-in user cannot open a second account: 403, and nothing is written. */
  lemma RegisterWhileLoggedInIsRefused(t: Tables, id: UserId, input: UserInput, uuid: Uuid)
    ensures Register(t, Known(id), input, uuid) == Outcome(Reply(HTTP_403_FORBIDDEN, PermissionDenied), t)
  {
    PermissionMapping(CreateAction, Known(id), id);
  }

  /**
   * A visitor's registration succeeds exactly when the serializer accepts
   * the input; the new account is stored under the next key, with the
   * stripped username, an admitted age and no staff or superuser rights.
   */
  lemma RegisterOutcome(t: Tables, actor: RequestUser, input: UserInput, uuid: Uuid)
    requires !IsAuthenticated(actor)
    ensures var o := Register(t, actor, input, uuid);
      (o.result.status == HTTP_201_CREATED <==> InputValid(t.users, None, input, false))
      && (o.result.status == HTTP_201_CREATED ==>
            input.username.Some? && t.serial in o.tables.users
            && o.tables.users[t.serial].username == Trim(input.username.value)
            && o.tables.users[t.serial].uuid == uuid
            && AgeAdmitted(o.tables.users[t.serial].age)
            && !o.tables.users[t.serial].isStaff && !o.tables.users[t.serial].isSuperuser)
  {
    PermissionMapping(CreateAction, actor, 0);
    if InputValid(t.users, None, input, false) {
      AcceptedUsernameIsFree(t.users, None, input.username);
    }
  }

  /** A registration with a fresh uuid keeps the store consistent. */
  lemma RegisterKeepsConsistency(t: Tables, actor: RequestUser, input: UserInput, uuid: Uuid)
    requires Consistent(t)
    requires forall v :: v in t.users ==> t.users[v].uuid != uuid
    ensures Consistent(Register(t, actor, input, uuid).tables)
  {
    if HasPermission(CreateAction, actor) && InputValid(t.users, None, input, false) {
      SaveNewKeepsConsistency(t, NewUser(input, uuid));
    }
  }

  // ---------------------------------------------------------------------
  // The view set
  // ---------------------------------------------------------------------

  class UserViewSet {
    const db: Database

    constructor (db: Database)
      ensures this.db == db
    {
      this.db := db;
    }

    method List(actor: RequestUser) returns (r: Listing)
      ensures r == ListUsers(db.tables, actor)
    {
      if !HasPermission(ListAction, actor) {
        return Message(Refusal(actor));
      }
      r := Items(VisibleUsers(db.tables, actor.id));
    }

    /** `perform_destroy`. */
    method PerformDestroy(actor: RequestUser, instance: UserId) returns (deleted: bool)
      modifies db
      ensures Outcome(deleted, db.tables) == PerformDestroyStep(old(db.tables), actor, instance)
    {
      if actor != Known(instance) && !IsSuperuser(db.tables, actor) {
        return false;
      }
      db.tables := Cascade(db.tables, JustUser(instance));
      deleted := true;
    }

    method Destroy(actor: RequestUser, id: UserId) returns (r: Reply)
      modifies db
      ensures Outcome(r, db.tables) == DestroyUser(old(db.tables), actor, id)
    {
      if !HasPermission(DestroyAction, actor) {
        return Refusal(actor);
      }
      if id !in VisibleUsers(db.tables, actor.id) {
        return Reply(HTTP_404_NOT_FOUND, NotFound);
      }
      if !HasObjectPermission(DestroyAction, actor, id) {
        return Refusal(actor);
      }
      var username := db.tables.users[id].username;
      var deleted := PerformDestroy(actor, id);
      if !deleted {
        return Reply(HTTP_403_FORBIDDEN, ActionDeniedMessage);
      }
      r := Reply(HTTP_200_OK, AccountDeletedMessage(username));
    }

    /** `update` when `partial` is false, `partial_update` when it is true. */
    method Update(actor: RequestUser, id: UserId, input: UserInput, partial: bool) returns (r: Reply)
      modifies db
      ensures Outcome(r, db.tables) == UpdateUser(old(db.tables), actor, id, input, partial)
    {
      var a := if partial then PartialUpdateAction else UpdateAction;
      if !HasPermission(a, actor) {
        return Refusal(actor);
      }
      if id !in VisibleUsers(db.tables, actor.id) {
        return Reply(HTTP_404_NOT_FOUND, NotFound);
      }
      if !HasObjectPermission(a, actor, id) {
        return Refusal(actor);
      }
      if !InputValid(db.tables.users, Some(id), input, partial) {
        return Reply(HTTP_400_BAD_REQUEST, Invalid);
      }
      db.tables := db.tables.(users := db.tables.users[id := Patched(db.tables.users[id], input)]);
      r := Reply(HTTP_200_OK, Serialized);
    }

    /** `create`: the serializer builds the account and `User.save` writes it. */
    method Create(actor: RequestUser, input: UserInput, uuid: Uuid) returns (r: Reply)
      modifies db
      ensures Outcome(r, db.tables) == Register(old(db.tables), actor, input, uuid)
    {
      if !HasPermission(CreateAction, actor) {
        return Refusal(actor);
      }
      if !InputValid(db.tables.users, None, input, false) {
        return Reply(HTTP_400_BAD_REQUEST, Invalid);
      }
      var manager := new CustomUserManager(db);
      var saved := manager.Save(NewUser(input, uuid));
      r := if saved.Ok? then Reply(HTTP_201_CREATED, Serialized) else Reply(HTTP_400_BAD_REQUEST, Invalid);
    }
  }
}
