/**
 * The request-side vocabulary the permission classes and views rely on:
 * HTTP methods, the user attached to a request, and the reply a view returns.
 */
module Http {

  datatype Method = GET | HEAD | OPTIONS | POST | PUT | PATCH | DELETE

  /** `permissions.SAFE_METHODS` of the REST framework: GET, HEAD and OPTIONS. */
  predicate IsSafe(m: Method) {
    m == GET || m == HEAD || m == OPTIONS
  }

  /**
   * `request.user`: no user object at all (the project sets UNAUTHENTICATED_USER
   * to None), an anonymous user object, or an authenticated user with its id.
   */
  datatype RequestUser = NoUser | Anonymous | Known(id: nat)

  /** `request.user and request.user.is_authenticated`. */
  predicate IsAuthenticated(u: RequestUser) {
    u.Known?
  }

  /**
   * A view's answer: status code and the `detail`/`message` text of its body.
   * Refusals raised by the framework itself carry its error code
   * (`not_authenticated`, `permission_denied`, `not_found`, `invalid`) in
   * place of their translated message.
   */
  datatype Reply = Reply(status: nat, detail: string)

  /**
   * A list endpoint's answer: a reply of its own, the primary keys it lists,
   * or those keys grouped under the primary key of their project.
   */
  datatype Listing = Message(reply: Reply) | Items(ids: set<nat>) | Groups(groups: map<nat, set<nat>>)

  const NotAuthenticated: string := "not_authenticated"
  const PermissionDenied: string := "permission_denied"
  const NotFound: string := "not_found"
  const Invalid: string := "invalid"
  /** The body of a successful read or update: the serializer's representation of the object. */
  const Serialized: string := "serialized"

  /** The 403 the contributor, issue and comment lists give a user outside every project. */
  const NoProjectMessage: string := "Accès refusé : aucun projet associé."

  /**
   * The framework's answer to a failed permission check: 401 when the request
   * carries no authenticated user (the OAuth2 authenticator sends a challenge),
   * 403 otherwise.
   */
  function Refusal(u: RequestUser): (r: Reply)
    ensures r.status == HTTP_401_UNAUTHORIZED <==> !IsAuthenticated(u)
    ensures r.status == HTTP_403_FORBIDDEN <==> IsAuthenticated(u)
  {
    if u.Known? then Reply(HTTP_403_FORBIDDEN, PermissionDenied) else Reply(HTTP_401_UNAUTHORIZED, NotAuthenticated)
  }

  const HTTP_200_OK: nat := 200
  const HTTP_201_CREATED: nat := 201
  const HTTP_400_BAD_REQUEST: nat := 400
  const HTTP_401_UNAUTHORIZED: nat := 401
  const HTTP_403_FORBIDDEN: nat := 403
  const HTTP_404_NOT_FOUND: nat := 404
  const HTTP_429_TOO_MANY_REQUESTS: nat := 429
  const HTTP_500_INTERNAL_SERVER_ERROR: nat := 500

  /** The heading of the page Django serves for an uncaught exception when DEBUG is off. */
  const ServerErrorMessage: string := "Server Error (500)"
}
