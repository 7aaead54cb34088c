/** The permission classes of the users app. */
module UserPermissions {
  import opened Http
  import opened UserModels

  /**
   * `IsSelfOrReadOnly.has_object_permission`: every safe request passes; any
   * other passes only when the target account is the requester's own.
   */
  function IsSelfOrReadOnly(actor: RequestUser, m: Method, target: UserId): (r: bool)
    ensures IsSafe(m) ==> r
    ensures !IsSafe(m) ==> (r <==> actor == Known(target))
  {
    if m in {GET, HEAD, OPTIONS} then true else actor == Known(target)
  }

  /** `IsNotAuthenticated.has_permission`: no user, or a user that is not logged in. */
  function IsNotAuthenticated(actor: RequestUser): (r: bool)
    ensures r <==> !IsAuthenticated(actor)
  {
    actor == NoUser || !actor.Known?
  }

  /** A logged-in user is refused the account-creation endpoint, whatever account they hold. */
  lemma AuthenticatedCannotRegister(id: UserId)
    ensures !IsNotAuthenticated(Known(id))
  {
  }
}
