/**
 * The object-level permission classes of the projects app. Each decision is
 * written the way the classes reach it, by probing which attributes the
 * object has (`contributors`, `project`, `issue`, `author_user`,
 * `assignee_contributor`); the contracts state what that amounts to for each
 * kind of object.
 */
module ProjectPermissions {
  import opened Wrappers
  import opened Http
  import opened UserModels
  import opened ProjectModels

  /** The object a permission is asked about: a row of one of the four tables. */
  datatype Resource =
    | ProjectObj(id: ProjectId)
    | ContributorObj(id: ContributorId)
    | IssueObj(id: IssueId)
    | CommentObj(id: CommentId)

  /** The row exists. */
  predicate Resolves(t: Tables, obj: Resource) {
    match obj
    case ProjectObj(id) => id in t.projects
    case ContributorObj(id) => id in t.contributors
    case IssueObj(id) => id in t.issues
    case CommentObj(id) => id in t.comments
  }

  // ---------------------------------------------------------------------
  // Attribute probing (`hasattr` / `getattr`)
  // ---------------------------------------------------------------------

  /** `hasattr(obj, "contributors")`: only a project has the reverse relation. */
  predicate HasContributors(obj: Resource) { obj.ProjectObj? }

  /** `hasattr(obj, "project")`: contributor rows and issues. */
  predicate HasProject(obj: Resource) { obj.ContributorObj? || obj.IssueObj? }

  /** `hasattr(obj, "issue")`: comments. */
  predicate HasIssue(obj: Resource) { obj.CommentObj? }

  /** `obj.project`. */
  function ProjectOf(t: Tables, obj: Resource): ProjectId
    requires Resolves(t, obj) && HasProject(obj)
  {
    if obj.ContributorObj? then t.contributors[obj.id].project else t.issues[obj.id].project
  }

  /** `obj.issue.project`. */
  function IssueProjectOf(t: Tables, obj: Resource): ProjectId
    requires Linked(t) && Resolves(t, obj) && HasIssue(obj)
  {
    t.issues[t.comments[obj.id].issue].project
  }

  /** `getattr(obj, "author_user", None)`: a contributor row has no author. */
  function AuthorAttr(t: Tables, obj: Resource): Option<UserId>
    requires Resolves(t, obj)
  {
    match obj
    case ProjectObj(id) => Some(t.projects[id].author)
    case ContributorObj(_) => None
    case IssueObj(id) => Some(t.issues[id].author)
    case CommentObj(id) => Some(t.comments[id].author)
  }

  /**
   * `hasattr(obj, "assignee_contributor") and obj.assignee_contributor and
   * obj.assignee_contributor.user == user`.
   */
  predicate AssignedTo(t: Tables, obj: Resource, actor: RequestUser)
    requires Linked(t) && Resolves(t, obj)
  {
    obj.IssueObj? && t.issues[obj.id].assignee.Some?
    && actor == Known(t.contributors[t.issues[obj.id].assignee.value].user)
  }

  /**
   * Python `==` between an attribute holding a user (or None) and
   * `request.user` (None when nobody is logged in): None equals only None.
   */
  predicate SameUser(attr: Option<UserId>, actor: RequestUser) {
    match attr
    case None => actor.NoUser?
    case Some(u) => actor == Known(u)
  }

  /** `project.contributors.filter(user=user).exists()`; only a stored user can match. */
  predicate MemberOf(t: Tables, p: ProjectId, actor: RequestUser) {
    actor.Known? && IsMember(t, p, actor.id)
  }

  /** `project.author_user == user`. */
  predicate AuthorOf(t: Tables, p: ProjectId, actor: RequestUser)
    requires p in t.projects
  {
    actor == Known(t.projects[p].author)
  }

  // ---------------------------------------------------------------------
  // IsContributor
  // ---------------------------------------------------------------------

  /** `IsContributor.has_permission`. */
  function IsContributorHasPermission(actor: RequestUser): (r: bool)
    ensures r <==> IsAuthenticated(actor)
  {
    actor != NoUser && actor.Known?
  }

  /**
   * `IsContributor.has_object_permission`: a project admits its members;
   * a contributor row or an issue admits the members and the author of its
   * project; a comment does the same through its issue's project.
   */
  function IsContributorObject(t: Tables, actor: RequestUser, obj: Resource): (r: bool)
    requires Linked(t) && Resolves(t, obj)
    ensures obj.ProjectObj? ==> (r <==> MemberOf(t, obj.id, actor))
    ensures obj.ContributorObj? ==>
      (r <==> var p := t.contributors[obj.id].project; MemberOf(t, p, actor) || AuthorOf(t, p, actor))
    ensures obj.IssueObj? ==>
      (r <==> var p := t.issues[obj.id].project; MemberOf(t, p, actor) || AuthorOf(t, p, actor))
    ensures obj.CommentObj? ==>
      (r <==> var p := t.issues[t.comments[obj.id].issue].project; MemberOf(t, p, actor) || AuthorOf(t, p, actor))
  {
    if HasContributors(obj) then MemberOf(t, obj.id, actor)
    else if HasProject(obj) then
      var p := ProjectOf(t, obj);
      MemberOf(t, p, actor) || AuthorOf(t, p, actor)
    else if HasIssue(obj) then
      var p := IssueProjectOf(t, obj);
      MemberOf(t, p, actor) || AuthorOf(t, p, actor)
    else false
  }

  // ---------------------------------------------------------------------
  // IsAuthorAndContributor
  // ---------------------------------------------------------------------

  /**
   * `IsAuthorAndContributor.has_permission`: POST and the safe methods need
   * an authenticated user; PUT, PATCH and DELETE are left to the object check.
   */
  function IsAuthorAndContributorHasPermission(actor: RequestUser, m: Method): (r: bool)
    ensures (m == POST || IsSafe(m)) ==> (r <==> IsAuthenticated(actor))
    ensures m in {PUT, PATCH, DELETE} ==> r
  {
    if m == POST then actor.Known?
    else if IsSafe(m) then actor.Known?
    else true
  }

  /**
   * `IsAuthorAndContributor.has_object_permission`. Reading needs a
   * membership of the project itself or of `obj.project` (the project author
   * gets no fallback here); writing needs the object's `author_user`, or for a
   * contributor row, which has none, the author of its project.
   */
  function IsAuthorAndContributorObject(t: Tables, actor: RequestUser, m: Method, obj: Resource): (r: bool)
    requires Linked(t) && Resolves(t, obj)
    ensures IsSafe(m) && obj.ProjectObj? ==> (r <==> MemberOf(t, obj.id, actor))
    ensures IsSafe(m) && (obj.ContributorObj? || obj.IssueObj?) ==>
      (r <==> MemberOf(t, ProjectOf(t, obj), actor))
    ensures IsSafe(m) && obj.CommentObj? ==> !r
    ensures !IsSafe(m) && obj.ContributorObj? ==>
      (r <==> actor == Known(t.projects[t.contributors[obj.id].project].author))
    ensures !IsSafe(m) && !obj.ContributorObj? ==> (r <==> actor == Known(AuthorAttr(t, obj).value))
  {
    if IsSafe(m) then
      if HasContributors(obj) then MemberOf(t, obj.id, actor)
      else if HasProject(obj) then MemberOf(t, ProjectOf(t, obj), actor)
      else false
    else
      var authorAttr := AuthorAttr(t, obj);
      if authorAttr.None? && HasProject(obj) then AuthorOf(t, ProjectOf(t, obj), actor)
      else SameUser(authorAttr, actor)
  }

  // ---------------------------------------------------------------------
  // IsAuthorOrProjectContributorReadOnly
  // ---------------------------------------------------------------------

  /**
   * `IsAuthorOrProjectContributorReadOnly.has_object_permission`. Reading:
   * the members and the author of the owning project (through `issue.project`
   * for a comment, `project` otherwise), and for an issue also the assignee's
   * user; a project itself is refused. Writing: the assignee's user, else
   * exactly the object's `author_user`.
   */
  function ReadOnlyUnlessAuthorObject(t: Tables, actor: RequestUser, m: Method, obj: Resource): (r: bool)
    requires Linked(t) && Resolves(t, obj)
    ensures IsSafe(m) && obj.ProjectObj? ==> !r
    ensures IsSafe(m) && obj.CommentObj? ==>
      (r <==> var p := t.issues[t.comments[obj.id].issue].project; MemberOf(t, p, actor) || AuthorOf(t, p, actor))
    ensures IsSafe(m) && obj.ContributorObj? ==>
      (r <==> var p := t.contributors[obj.id].project; MemberOf(t, p, actor) || AuthorOf(t, p, actor))
    ensures IsSafe(m) && obj.IssueObj? ==>
      (r <==> var p := t.issues[obj.id].project;
              MemberOf(t, p, actor) || AuthorOf(t, p, actor) || AssignedTo(t, obj, actor))
    ensures !IsSafe(m) && obj.IssueObj? ==>
      (r <==> AssignedTo(t, obj, actor) || actor == Known(t.issues[obj.id].author))
    ensures !IsSafe(m) && (obj.ProjectObj? || obj.CommentObj?) ==>
      (r <==> actor == Known(AuthorAttr(t, obj).value))
    ensures !IsSafe(m) && obj.ContributorObj? ==> (r <==> actor.NoUser?)
  {
    if IsSafe(m) then
      if HasIssue(obj) || HasProject(obj) then
        var p := if HasIssue(obj) then IssueProjectOf(t, obj) else ProjectOf(t, obj);
        MemberOf(t, p, actor) || AuthorOf(t, p, actor) || AssignedTo(t, obj, actor)
      else false
    else if AssignedTo(t, obj, actor) then true
    else SameUser(AuthorAttr(t, obj), actor)
  }

  /**
   * Combined with IsAuthenticated, as every view of the projects app uses it,
   * a write on a contributor row is never allowed by this class.
   */
  lemma AuthenticatedNeverWritesContributorRows(t: Tables, actor: RequestUser, m: Method, c: ContributorId)
    requires Linked(t) && c in t.contributors && IsAuthenticated(actor) && !IsSafe(m)
    ensures !ReadOnlyUnlessAuthorObject(t, actor, m, ContributorObj(c))
  {
  }

  /**
   * In a consistent store the issue's assignee is a member of its project, so
   * reading an issue or a comment comes down to membership of the project.
   */
  lemma {:induction false} ReadAccessIsMembership(t: Tables, actor: RequestUser, m: Method, obj: Resource)
    requires Consistent(t) && Resolves(t, obj) && IsSafe(m) && IsAuthenticated(actor)
    requires obj.IssueObj? || obj.CommentObj?
    ensures ReadOnlyUnlessAuthorObject(t, actor, m, obj)
        <==> MemberOf(t, if obj.IssueObj? then t.issues[obj.id].project else t.issues[t.comments[obj.id].issue].project, actor)
  {
    var p := if obj.IssueObj? then t.issues[obj.id].project else t.issues[t.comments[obj.id].issue].project;
    AuthorIsMember(t, p, actor.id);
    if AssignedTo(t, obj, actor) {
      var a := t.issues[obj.id].assignee.value;
      assert t.contributors[a].project == p && t.contributors[a].user == actor.id;
      assert IsMember(t, p, actor.id);
    }
  }

  /**
   * The read checks of IsContributor and of the read-only class agree on
   * everything but projects and issues: the former admits project members,
   * the latter refuses projects, and on issues the latter also admits the
   * assignee.
   */
  lemma ReadChecksAgree(t: Tables, actor: RequestUser, m: Method, obj: Resource)
    requires Linked(t) && Resolves(t, obj) && IsSafe(m)
    requires obj.ContributorObj? || obj.CommentObj?
    ensures ReadOnlyUnlessAuthorObject(t, actor, m, obj) == IsContributorObject(t, actor, obj)
  {
  }
}
