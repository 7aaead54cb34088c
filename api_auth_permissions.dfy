/** The permission class guarding the registration endpoints of the auth app. */
module ApiAuthPermissions {
  import opened Http
  import UserPermissions

  /**
   * `IsNotAuthenticated.has_permission` of the auth app. The method is taken
   * only to make plain that the decision does not look at it: the verdict is
   * the users app's class's verdict, whatever the method.
   */
  function IsNotAuthenticated(actor: RequestUser, m: Method): (r: bool)
    ensures r <==> !IsAuthenticated(actor)
    ensures r == UserPermissions.IsNotAuthenticated(actor)
  {
    actor == NoUser || !actor.Known?
  }
}
