/**
 * The detail serializers of the projects app: the uuid check and the
 * `is_author` flag of contributor rows, the querysets that limit which
 * project, assignee and issue a client may pick, and the read-only fields.
 */
module ProjectSerializers {
  import opened Wrappers
  import opened Http
  import opened Uuids
  import opened UserModels
  import opened ProjectModels
  import opened ProjectPermissions
  import opened SerializerFields

  const UserNotFound: string := "Utilisateur introuvable."

  /**
   * `ContributorDetailSerializer.validate_user_uuid`: the account holding the
   * uuid, or the "Utilisateur introuvable." error when none does.
   */
  function ValidateUserUuid(t: Tables, value: Uuid): (r: Result<UserId, string>)
    requires UniqueUuids(t.users)
    ensures r.Ok? ==> r.value in t.users && t.users[r.value].uuid == value
    ensures r.Err? <==> forall u :: u in t.users ==> t.users[u].uuid != value
    ensures r.Err? ==> r.error == UserNotFound
  {
    match FindByUuid(t.users, value)
    case Some(u) => Ok(u)
    case None => Err(UserNotFound)
  }

  /** `ContributorDetailSerializer.get_is_author`: the stored permission code is "AUTHOR". */
  function GetIsAuthor(c: Contributor): (r: bool)
    ensures r <==> c.permission == AuthorPermission
  {
    PermissionCode(c.permission) == "AUTHOR"
  }

  /** In a consistent store `is_author` marks exactly the row of the project's author. */
  lemma IsAuthorMeansProjectAuthor(t: Tables, c: ContributorId)
    requires Consistent(t) && c in t.contributors
    ensures GetIsAuthor(t.contributors[c]) <==> t.contributors[c].user == t.projects[t.contributors[c].project].author
  {
  }

  /**
   * The `project` choices of `ContributorDetailSerializer`: a non-superuser
   * may pick only the projects they authored; a superuser keeps the field's
   * default queryset, every project.
   */
  function SelectableProjects(t: Tables, actor: UserId): (r: set<ProjectId>)
    requires actor in t.users
    ensures forall p :: p in r <==> p in t.projects && (t.users[actor].isSuperuser || t.projects[p].author == actor)
  {
    if t.users[actor].isSuperuser then t.projects.Keys
    else set p | p in t.projects && t.projects[p].author == actor
  }

  /**
   * `IssueDetailSerializer.get_filtered_contributors`: on an update the
   * contributors of the issue's own project; on a create those of the
   * requested project when it names one that exists; otherwise none.
   * `requested` is the raw `project` value, falsy when absent or 0.
   */
  function FilteredContributors(t: Tables, instanceProject: Option<ProjectId>, requested: Option<int>): (r: set<ContributorId>)
    ensures r <= t.contributors.Keys
    ensures instanceProject.Some? ==>
      forall c :: c in r <==> c in t.contributors && t.contributors[c].project == instanceProject.value
    ensures instanceProject.None? && requested.Some? && requested.value != 0 && requested.value in t.projects ==>
      forall c :: c in r <==> c in t.contributors && t.contributors[c].project == requested.value
    ensures instanceProject.None? && (requested.None? || requested.value == 0 || requested.value !in t.projects) ==>
      r == {}
  {
    var project: Option<ProjectId> :=
      if instanceProject.Some? then instanceProject
      else if requested.Some? && requested.value != 0 && requested.value >= 0 && requested.value in t.projects then
        Some(requested.value as ProjectId)
      else None;
    if project.Some? then set c | c in t.contributors && t.contributors[c].project == project.value
    else {}
  }

  /**
   * `CommentDetailSerializer.get_filtered_issues`: the issues whose project
   * has the user as a contributor or as its author.
   */
  function FilteredIssues(t: Tables, user: UserId): (r: set<IssueId>)
    ensures r <= t.issues.Keys
    ensures forall i :: i in r <==> i in t.issues && IsMemberOrAuthor(t, t.issues[i].project, user)
  {
    set i | i in t.issues && IsMemberOrAuthor(t, t.issues[i].project, user)
  }

  /**
   * The issues a non-superuser may comment on are exactly those IsContributor
   * lets them read.
   */
  lemma FilteredIssuesMatchIsContributor(t: Tables, user: UserId, i: IssueId)
    requires Linked(t) && i in t.issues
    ensures i in FilteredIssues(t, user) <==> IsContributorObject(t, Known(user), IssueObj(i))
  {
  }

  /** The project a non-superuser may pick is one they may invite into. */
  lemma SelectableProjectsAreOwned(t: Tables, actor: UserId, p: ProjectId)
    requires actor in t.users && !t.users[actor].isSuperuser
    ensures p in SelectableProjects(t, actor) <==> p in t.projects && AuthorOf(t, p, Known(actor))
  {
  }

  const ContributorDetailFields: FieldSpec := FieldSpec(
    {"id", "user_uuid", "username", "project", "project_url", "permission", "role", "is_author", "created_time"},
    {"id", "username", "project_url", "permission", "role", "is_author", "created_time"},
    {"user_uuid"})

  const IssueDetailFields: FieldSpec := FieldSpec(
    {"id", "title", "description", "tag", "priority", "status", "author_user", "author_username",
     "assignee_contributor", "assignee_contributor_username", "project", "project_title", "created_time"},
    {"id", "author_user", "author_username", "assignee_contributor_username", "project_title", "created_time"},
    {})

  const CommentDetailFields: FieldSpec := FieldSpec(
    {"id", "uuid", "description", "author_user", "author_username", "issue", "issue_title", "issue_url", "created_time"},
    {"id", "uuid", "author_user", "author_username", "issue_title", "issue_url", "created_time"},
    {})

  /**
   * A client can set neither the permission nor the role of a contributor
   * row, nor the author or creation time of an issue or comment, nor a
   * comment's uuid; the uuid of an invited user is accepted but never shown.
   */
  lemma ProtectedFields()
    ensures "permission" !in InputFields(ContributorDetailFields) && "role" !in InputFields(ContributorDetailFields)
    ensures "user_uuid" in InputFields(ContributorDetailFields) && "user_uuid" !in OutputFields(ContributorDetailFields)
    ensures "author_user" !in InputFields(IssueDetailFields) && "created_time" !in InputFields(IssueDetailFields)
    ensures "project" in InputFields(IssueDetailFields)
    ensures "author_user" !in InputFields(CommentDetailFields) && "uuid" !in InputFields(CommentDetailFields)
    ensures "created_time" !in InputFields(CommentDetailFields)
  {
  }
}
