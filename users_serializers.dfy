/**
 * `UserDetailSerializer`: the rules a username must meet, the required
 * write-only password, and the fields a client can neither set nor read.
 */
module UserSerializers {
  import opened Wrappers
  import opened Text
  import opened UserModels
  import opened SerializerFields

  /** Why a username is refused; every validator that fails reports its error. */
  datatype UsernameError =
    | NoUsername
    | BlankUsername
    | ShortUsername         // min_length=3
    | LongUsername          // max_length=30
    | TakenUsername         // UniqueValidator: "Ce nom d'utilisateur existe déjà."
    | BadCharacters         // RegexValidator ^[a-zA-Z0-9_]+$

  const MinUsernameLength: nat := 3
  const MaxUsernameLength: nat := 30

  /** A character `[a-zA-Z0-9_]` admits. */
  predicate UsernameChar(c: char) {
    'a' <= c <= 'z' || 'A' <= c <= 'Z' || '0' <= c <= '9' || c == '_'
  }

  /** `^[a-zA-Z0-9_]+$` on a stripped value: non-empty, only admitted characters. */
  predicate MatchesUsernameRegex(s: string) {
    s != [] && forall i :: 0 <= i < |s| ==> UsernameChar(s[i])
  }

  /**
   * The errors of the `username` field. The input is stripped first; a
   * missing or blank value stops there, otherwise each of the length,
   * uniqueness and character checks adds its own error. `self` is the
   * account being edited, which the uniqueness check leaves out.
   */
  function UsernameErrors(users: map<UserId, User>, self: Option<UserId>, raw: Option<string>): (r: set<UsernameError>)
    ensures raw.None? ==> r == {NoUsername}
    ensures raw.Some? && Trim(raw.value) == "" ==> r == {BlankUsername}
    ensures r == {} <==>
      raw.Some? && MinUsernameLength <= |Trim(raw.value)| <= MaxUsernameLength
      && MatchesUsernameRegex(Trim(raw.value)) && !UsernameTakenBy(users, self, Trim(raw.value))
  {
    match raw
    case None => {NoUsername}
    case Some(text) =>
      var s := Trim(text);
      if s == "" then {BlankUsername}
      else
        (if |s| < MinUsernameLength then {ShortUsername} else {})
        + (if |s| > MaxUsernameLength then {LongUsername} else {})
        + (if UsernameTakenBy(users, self, s) then {TakenUsername} else {})
        + (if !MatchesUsernameRegex(s) then {BadCharacters} else {})
  }

  /**
   * A name that passes the serializer is never refused later by `full_clean`:
   * it is free, and the serializer's regex and length are stricter than the
   * model field's validator and `max_length`.
   */
  lemma AcceptedUsernameIsFree(users: map<UserId, User>, self: Option<UserId>, raw: Option<string>)
    requires UsernameErrors(users, self, raw) == {}
    ensures !UsernameTakenBy(users, self, Trim(raw.value)) && Trim(raw.value) != ""
    ensures UsernameAdmitted(Trim(raw.value))
  {
  }

  /**
   * The `password` field: required, stripped, not blank and free of NUL
   * (password strength is not modelled).
   */
  function PasswordError(raw: Option<string>): (r: Option<TextError>)
    ensures r.None? <==> raw.Some? && Trim(raw.value) != "" && Nul !in Trim(raw.value)
  {
    match CleanText(raw, None)
    case Ok(_) => None
    case Err(e) => Some(e)
  }

  const UserDetailFields: FieldSpec := FieldSpec(
    {"id", "username", "email", "password", "age", "can_be_contacted", "can_data_be_shared", "created_time"},
    {"id", "created_time"},
    {"password"})

  /** The password is accepted but never shown; the id and creation time are shown but never accepted. */
  lemma PasswordWriteOnly()
    ensures "password" in InputFields(UserDetailFields) && "password" !in OutputFields(UserDetailFields)
    ensures "id" !in InputFields(UserDetailFields) && "created_time" !in InputFields(UserDetailFields)
    ensures "id" in OutputFields(UserDetailFields) && "created_time" in OutputFields(UserDetailFields)
  {
  }
}
