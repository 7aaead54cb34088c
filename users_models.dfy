/**
 * The custom user model: the account record, the minimum-age validator, the
 * field checks of the user manager, and the validation `save` runs first.
 */
module UserModels {
  import opened Wrappers
  import opened Text
  import opened Uuids

  type UserId = nat

  /**
   * A stored account. `uuid` is the external identifier invites use; the
   * password, e-mail and creation time are not modelled.
   */
  datatype User = User(
    username: string,
    uuid: Uuid,
    age: int,
    isStaff: bool,
    isSuperuser: bool,
    canBeContacted: bool,
    canDataBeShared: bool)

  const MinimumAge: int := 15

  /**
   * The top of a `PositiveIntegerField`'s range, which Django attaches to the
   * field as a MaxValueValidator: the 32-bit bound of the PostgreSQL backend
   * and of every backend before Django 5.0.
   */
  const MaxAge: int := 2147483647

  /** An age both `validate_age` and the field's range validators accept. */
  predicate AgeAdmitted(age: int) {
    MinimumAge <= age <= MaxAge
  }

  /** The `max_length` of `AbstractUser.username`. */
  const UsernameMaxLength: nat := 150

  /**
   * A character of `[\w.@+-]`, the class of `UnicodeUsernameValidator`.
   * ASCII characters are classified exactly; any other character counts as
   * a word character unless Python treats it as whitespace.
   */
  predicate UsernameValidatorChar(c: char) {
    'a' <= c <= 'z' || 'A' <= c <= 'Z' || '0' <= c <= '9'
    || c == '_' || c == '.' || c == '@' || c == '+' || c == '-'
    || (c > '\U{7f}' && c !in Whitespace)
  }

  /**
   * A username the model field accepts: not blank, at most 150 characters,
   * and matching `^[\w.@+-]+\Z`.
   */
  predicate UsernameAdmitted(name: string) {
    0 < |name| <= UsernameMaxLength && forall i :: 0 <= i < |name| ==> UsernameValidatorChar(name[i])
  }

  /** "Âge invalide : <age> ans. ..." as `validate_age` words it. */
  function AgeMessage(age: int): string {
    "Âge invalide : " + (if age < 0 then "-" + NatStr(-age) else NatStr(age))
      + " ans. L'utilisateur doit avoir au moins 15 ans pour s'inscrire."
  }

  /** `validate_age`: None when the age is accepted, else the ValidationError's message. */
  function ValidateAge(age: int): (r: Option<string>)
    ensures r.None? <==> age >= MinimumAge
    ensures r.Some? ==> "Âge invalide" <= r.value
  {
    if age < 15 then Some(AgeMessage(age)) else None
  }

  /** The `**extra_fields` the manager receives; None marks an absent key. */
  datatype ExtraFields = ExtraFields(
    age: Option<int>,
    canBeContacted: Option<bool>,
    canDataBeShared: Option<bool>,
    isStaff: Option<bool>,
    isSuperuser: Option<bool>)

  /** Why a manager call or a save fails. */
  datatype UserError =
    | UsernameRequired          // ValueError: "Le champ 'username' est obligatoire."
    | AgeRequired               // ValueError: "Le champ 'age' est obligatoire."
    | CanBeContactedRequired    // ValueError: "Le champ 'can_be_contacted' est obligatoire."
    | CanDataBeSharedRequired   // ValueError: "Le champ 'can_data_be_shared' est obligatoire."
    | StaffRequired             // ValueError: "Superuser must have is_staff=True."
    | SuperuserRequired         // ValueError: "Superuser must have is_superuser=True."
    | AgeInvalid(message: string)  // ValidationError raised by full_clean through validate_age
    | AgeTooLarge               // ValidationError raised by full_clean through the field's MaxValueValidator
    | UsernameInvalid           // ValidationError raised by full_clean: blank, over 150 characters, or refused by the validator
    | UsernameTaken             // ValidationError raised by full_clean: the username is unique

  /**
   * The guards of `create_user`, in their order: None when the username is
   * non-empty and age and both consent flags are present.
   */
  function RequiredFieldsError(username: string, extra: ExtraFields): (r: Option<UserError>)
    ensures r.None? <==>
      username != "" && extra.age.Some? && extra.canBeContacted.Some? && extra.canDataBeShared.Some?
    ensures username == "" ==> r == Some(UsernameRequired)
  {
    if username == "" then Some(UsernameRequired)
    else if extra.age.None? then Some(AgeRequired)
    else if extra.canBeContacted.None? then Some(CanBeContactedRequired)
    else if extra.canDataBeShared.None? then Some(CanDataBeSharedRequired)
    else None
  }

  /** `self.model(username=..., **extra_fields)`: staff and superuser flags default to False. */
  function BuildUser(username: string, extra: ExtraFields, uuid: Uuid): (u: User)
    requires RequiredFieldsError(username, extra).None?
    ensures u.username == username && u.uuid == uuid && u.age == extra.age.value
    ensures u.canBeContacted == extra.canBeContacted.value
    ensures u.canDataBeShared == extra.canDataBeShared.value
    ensures u.isStaff <==> extra.isStaff == Some(true)
    ensures u.isSuperuser <==> extra.isSuperuser == Some(true)
  {
    User(username, uuid, extra.age.value,
         extra.isStaff == Some(true), extra.isSuperuser == Some(true),
         extra.canBeContacted.value, extra.canDataBeShared.value)
  }

  /** `Option.setdefault`: keep a present value, else take the default. */
  function SetDefault<T>(o: Option<T>, default: T): (r: Option<T>)
    ensures r.Some?
    ensures o.Some? ==> r == o
    ensures o.None? ==> r.value == default
  {
    if o.Some? then o else Some(default)
  }

  /**
   * The `setdefault` calls of `create_superuser`: staff and superuser True,
   * age 30, both consent flags False, unless the caller gave a value.
   */
  function WithSuperuserDefaults(extra: ExtraFields): (r: ExtraFields)
    ensures r.isStaff.Some? && r.isSuperuser.Some? && r.age.Some?
    ensures r.canBeContacted.Some? && r.canDataBeShared.Some?
    ensures extra == ExtraFields(None, None, None, None, None) ==>
              r == ExtraFields(Some(30), Some(false), Some(false), Some(true), Some(true))
    ensures extra.age.Some? ==> r.age == extra.age
    ensures extra.isStaff.Some? ==> r.isStaff == extra.isStaff
    ensures extra.isSuperuser.Some? ==> r.isSuperuser == extra.isSuperuser
    ensures extra.isStaff.None? ==> r.isStaff == Some(true)
    ensures extra.isSuperuser.None? ==> r.isSuperuser == Some(true)
  {
    ExtraFields(
      SetDefault(extra.age, 30),
      SetDefault(extra.canBeContacted, false),
      SetDefault(extra.canDataBeShared, false),
      SetDefault(extra.isStaff, true),
      SetDefault(extra.isSuperuser, true))
  }

  /** The `is not True` checks of `create_superuser`. */
  function SuperuserFlagsError(extra: ExtraFields): (r: Option<UserError>)
    ensures r.None? <==> extra.isStaff == Some(true) && extra.isSuperuser == Some(true)
  {
    if extra.isStaff != Some(true) then Some(StaffRequired)
    else if extra.isSuperuser != Some(true) then Some(SuperuserRequired)
    else None
  }

  /** No two accounts share a uuid. */
  ghost predicate UniqueUuids(users: map<UserId, User>) {
    forall a, b :: a in users && b in users && a != b ==> users[a].uuid != users[b].uuid
  }

  /** No two accounts share a username. */
  ghost predicate UniqueUsernames(users: map<UserId, User>) {
    forall a, b :: a in users && b in users && a != b ==> users[a].username != users[b].username
  }

  /** `User.objects.get(uuid=value)`: the account holding the uuid, or None for DoesNotExist. */
  function FindByUuid(users: map<UserId, User>, value: Uuid): (r: Option<UserId>)
    requires UniqueUuids(users)
    ensures r.Some? <==> exists u :: u in users && users[u].uuid == value
    ensures r.Some? ==> r.value in users && users[r.value].uuid == value
  {
    if exists u :: u in users && users[u].uuid == value then
      var u :| u in users && users[u].uuid == value;
      Some(u)
    else
      None
  }

  /** Every account passes `full_clean`'s field checks on the age and the username. */
  predicate UsersAdmitted(users: map<UserId, User>) {
    forall a :: a in users ==> AgeAdmitted(users[a].age) && UsernameAdmitted(users[a].username)
  }

  /** Another account (not `self`) already holds this username. */
  predicate UsernameTakenBy(users: map<UserId, User>, self: Option<UserId>, name: string) {
    exists id :: id in users && Some(id) != self && users[id].username == name
  }

  /**
   * `full_clean`, the first step of `save`: the age validators (`validate_age`
   * and the field's range), the username field's own checks, and the
   * username's uniqueness. None means the record may be written.
   */
  function FullClean(users: map<UserId, User>, self: Option<UserId>, u: User): (r: Option<UserError>)
    ensures r.None? <==> AgeAdmitted(u.age) && UsernameAdmitted(u.username) && !UsernameTakenBy(users, self, u.username)
    ensures u.age < MinimumAge ==> r.Some? && r.value.AgeInvalid?
    ensures u.age > MaxAge ==> r == Some(AgeTooLarge)
    ensures AgeAdmitted(u.age) && !UsernameAdmitted(u.username) ==> r == Some(UsernameInvalid)
  {
    match ValidateAge(u.age)
    case Some(msg) => Some(AgeInvalid(msg))
    case None =>
      if u.age > MaxAge then Some(AgeTooLarge)
      else if !UsernameAdmitted(u.username) then Some(UsernameInvalid)
      else if UsernameTakenBy(users, self, u.username) then Some(UsernameTaken) else None
  }
}
