/**
 * `ProjectViewSet`: the cached project list, project creation (which makes
 * the creator the project's AUTHOR contributor) and project deletion with its
 * cascade and cache invalidation. Every action is first a function from the
 * tables and the cache to the reply and the new tables and cache; the view
 * set's methods do the same work on a `Database` and are proved equal to it.
 */
module ProjectViews {
  import opened Wrappers
  import opened Text
  import opened Http
  import opened UserModels
  import opened ProjectModels
  import opened ProjectPermissions
  import opened SerializerFields
  import opened CacheTools
  import opened CacheKeys
  import opened Db

  /** `get_queryset`'s query: every project for a superuser, otherwise the user's memberships. */
  function VisibleProjects(t: Tables, user: UserId): (r: set<ProjectId>)
    ensures r <= t.projects.Keys
  {
    set p | p in t.projects && (IsSuperuser(t, Known(user)) || IsMember(t, p, user))
  }

  /** `Project.objects.filter(contributors__user=user)`: the projects the user belongs to. */
  function ProjectsOf(t: Tables, user: UserId): (r: set<ProjectId>)
    ensures r <= t.projects.Keys
  {
    set p | p in t.projects && IsMember(t, p, user)
  }

  /**
   * For anyone but a superuser, the projects the list query returns are
   * exactly those the read check of `IsAuthorAndContributor` admits; a
   * superuser's query returns every project.
   */
  lemma VisibleProjectsAreReadable(t: Tables, user: UserId, p: ProjectId)
    requires Linked(t) && p in t.projects
    ensures !IsSuperuser(t, Known(user)) ==>
              (p in VisibleProjects(t, user) <==> IsAuthorAndContributorObject(t, Known(user), GET, ProjectObj(p)))
    ensures IsSuperuser(t, Known(user)) ==> p in VisibleProjects(t, user)
  {
  }

  // ---------------------------------------------------------------------
  // list
  // ---------------------------------------------------------------------

  const NoProjectYet: string := "Vous n'avez encore aucun projet, mais vous pouvez en créer un ci-dessous."

  /**
   * `list`: 401 without an authenticated user; a 200 message for a user who
   * belongs to no project; otherwise the queryset `get_queryset` returns,
   * which is the cached value on a hit.
   */
  function ListProjects(t: Tables, entries: Entries, actor: RequestUser): (e: Effect<Listing>)
    ensures e.tables == t
    ensures e.result == Message(Refusal(actor)) <==> !IsAuthenticated(actor)
    ensures e.result == Message(Reply(HTTP_200_OK, NoProjectYet)) <==>
              IsAuthenticated(actor) && ProjectsOf(t, actor.id) == {}
    ensures e.result.Items? <==> IsAuthenticated(actor) && ProjectsOf(t, actor.id) != {}
    ensures e.result.Items? ==>
              var key := UserProjectsKey(actor.id);
              e.entries == Remember(entries, key, VisibleProjects(t, actor.id)) && e.result.ids == e.entries[key]
    ensures !e.result.Items? ==> e.entries == entries
  {
    if !actor.Known? then Effect(Message(Refusal(actor)), t, entries)
    else if ProjectsOf(t, actor.id) == {} then Effect(Message(Reply(HTTP_200_OK, NoProjectYet)), t, entries)
    else
      var key := UserProjectsKey(actor.id);
      var filled := Remember(entries, key, VisibleProjects(t, actor.id));
      Effect(Items(filled[key]), t, filled)
  }

  /**
   * With nothing cached for the user, a non-superuser's list is exactly the
   * projects they belong to; afterwards the cache holds that answer.
   */
  lemma ListOnMissIsMembership(t: Tables, entries: Entries, user: UserId)
    requires UserProjectsKey(user) !in entries && !IsSuperuser(t, Known(user)) && ProjectsOf(t, user) != {}
    ensures ListProjects(t, entries, Known(user)).result == Items(ProjectsOf(t, user))
    ensures ListProjects(t, entries, Known(user)).entries == entries[UserProjectsKey(user) := ProjectsOf(t, user)]
  {
    assert VisibleProjects(t, user) == ProjectsOf(t, user);
  }

  // ---------------------------------------------------------------------
  // create
  // ---------------------------------------------------------------------

  /** The request body of a project creation; None marks an absent key. */
  datatype ProjectInput = ProjectInput(title: Option<string>, description: Option<string>, kind: Option<string>)

  /** The validated fields of `ProjectDetailSerializer`. */
  datatype ProjectFields = ProjectFields(title: string, description: string, kind: ProjectType)

  /**
   * `serializer.is_valid()`: the title is a stripped non-blank text of at most
   * 255 characters, the description a stripped non-blank text, neither holds
   * a NUL character, and the type is one of the four codes.
   */
  function ValidateProject(input: ProjectInput): (r: Option<ProjectFields>)
    ensures r.Some? <==>
      CleanText(input.title, Some(TitleMaxLength)).Ok? && CleanText(input.description, None).Ok?
      && input.kind.Some? && ParseType(input.kind.value).Some?
    ensures r.Some? ==>
      r.value.title == Trim(input.title.value) && 0 < |r.value.title| <= TitleMaxLength
      && r.value.description == Trim(input.description.value) && r.value.description != ""
      && Nul !in r.value.title && Nul !in r.value.description
      && TypeCode(r.value.kind) == input.kind.value
  {
    match (CleanText(input.title, Some(TitleMaxLength)), CleanText(input.description, None))
    case (Ok(title), Ok(description)) =>
      if input.kind.Some? && ParseType(input.kind.value).Some? then
        Some(ProjectFields(title, description, ParseType(input.kind.value).value))
      else None
    case _ => None
  }

  /** `Project.objects.filter(title__iexact=title, author_user=user).exists()`. */
  predicate TitleTaken(t: Tables, author: UserId, title: string) {
    exists p :: p in t.projects && t.projects[p].author == author && SameIgnoringCase(t.projects[p].title, title)
  }

  const TitleTakenMessage: string := "Un projet avec ce titre existe déjà."

  function CreatedMessage(title: string): string {
    "Projet '" + title + "' créé avec succès."
  }

  /**
   * `serializer.save(author_user=user)` then `Contributor.objects.create(...)`:
   * the project under the next key, and its author's AUTHOR row under the one after.
   */
  function AddProject(t: Tables, p: Project): (r: Tables)
    ensures r.users == t.users && r.issues == t.issues && r.comments == t.comments
    ensures r.projects == t.projects[t.serial := p]
    ensures r.contributors == t.contributors[t.serial + 1 := Contributor(p.author, t.serial, AuthorPermission, AuthorRole)]
    ensures r.serial == t.serial + 2
  {
    t.(projects := t.projects[t.serial := p],
       contributors := t.contributors[t.serial + 1 := Contributor(p.author, t.serial, AuthorPermission, AuthorRole)],
       serial := t.serial + 2)
  }

  /**
   * `create` with `perform_create`: 401 without an authenticated user, 400
   * for an invalid body or for a title the same author already uses (compared
   * ignoring case); otherwise 201, the project and its AUTHOR row are stored
   * and the author's project-list entry is dropped from the cache.
   */
  function CreateProject(t: Tables, entries: Entries, actor: RequestUser, input: ProjectInput): (e: Effect<Reply>)
    ensures e.result.status == HTTP_201_CREATED <==>
      IsAuthenticated(actor) && ValidateProject(input).Some? && !TitleTaken(t, actor.id, ValidateProject(input).value.title)
    ensures e.result.status != HTTP_201_CREATED ==> e.tables == t && e.entries == entries
    ensures !IsAuthenticated(actor) ==> e.result == Refusal(actor)
    ensures IsAuthenticated(actor) && ValidateProject(input).Some? && TitleTaken(t, actor.id, ValidateProject(input).value.title) ==>
              e.result == Reply(HTTP_400_BAD_REQUEST, TitleTakenMessage)
    ensures e.result.status == HTTP_201_CREATED ==>
      var f := ValidateProject(input).value;
      e.result.detail == CreatedMessage(f.title)
      && e.tables == AddProject(t, Project(f.title, f.description, f.kind, actor.id))
      && e.entries == entries - {UserProjectsKey(actor.id)}
  {
    if !actor.Known? then Effect(Refusal(actor), t, entries)
    else match ValidateProject(input)
      case None => Effect(Reply(HTTP_400_BAD_REQUEST, Invalid), t, entries)
      case Some(f) =>
        if TitleTaken(t, actor.id, f.title) then Effect(Reply(HTTP_400_BAD_REQUEST, TitleTakenMessage), t, entries)
        else
          Effect(Reply(HTTP_201_CREATED, CreatedMessage(f.title)),
                 AddProject(t, Project(f.title, f.description, f.kind, actor.id)),
                 entries - {UserProjectsKey(actor.id)})
  }

  /** The new project's title is new for its author, and its author had no row in it. */
  lemma {:induction false} AddProjectKeepsUniqueRows(t: Tables, p: Project)
    requires KeysBelowSerial(t) && Linked(t) && UniqueRows(t)
    requires !TitleTaken(t, p.author, p.title)
    ensures UniqueRows(AddProject(t, p))
  {
    var r := AddProject(t, p);
    var row := t.serial + 1;
    forall a, b | a in r.projects && b in r.projects && a != b && r.projects[a].author == r.projects[b].author
      ensures r.projects[a].title != r.projects[b].title
    {
      if a == t.serial {
        assert !SameIgnoringCase(t.projects[b].title, p.title);
      } else if b == t.serial {
        assert !SameIgnoringCase(t.projects[a].title, p.title);
      }
    }
    forall a, b | a in r.contributors && b in r.contributors && a != b && r.contributors[a].user == r.contributors[b].user
      ensures r.contributors[a].project != r.contributors[b].project
    {
      if a == row {
        assert t.contributors[b].project in t.projects;
      } else if b == row {
        assert t.contributors[a].project in t.projects;
      }
    }
  }

  /** Every project, old or new, keeps its author's AUTHOR row. */
  lemma {:induction false} AddProjectKeepsAuthorRows(t: Tables, p: Project)
    requires KeysBelowSerial(t) && Linked(t) && AuthorRows(t)
    ensures AuthorRows(AddProject(t, p))
  {
    var r := AddProject(t, p);
    var row := t.serial + 1;
    assert r.contributors[row].user == p.author && r.contributors[row].project == t.serial;
    forall q | q in r.projects ensures IsMember(r, q, r.projects[q].author) {
      if q != t.serial {
        var c :| c in t.contributors && t.contributors[c].user == t.projects[q].author && t.contributors[c].project == q;
        assert c in r.contributors && r.contributors[c] == t.contributors[c];
      }
    }
  }

  /** The new rows point at the new project and its existing author; old rows are untouched. */
  lemma {:induction false} AddProjectKeepsLinks(t: Tables, p: Project)
    requires KeysBelowSerial(t) && Linked(t) && AssigneesInProject(t) && p.author in t.users
    ensures KeysBelowSerial(AddProject(t, p)) && Linked(AddProject(t, p)) && AssigneesInProject(AddProject(t, p))
  {
    var r := AddProject(t, p);
    assert forall c :: c in t.contributors ==> c in r.contributors && r.contributors[c] == t.contributors[c];
    assert forall i :: i in t.issues ==> t.issues[i].project in r.projects;
  }

  /** Storing a project whose title is new for its existing author keeps the store consistent. */
  lemma {:induction false} AddProjectKeepsConsistency(t: Tables, p: Project)
    requires Consistent(t) && p.author in t.users && !TitleTaken(t, p.author, p.title)
    ensures Consistent(AddProject(t, p))
  {
    AddProjectKeepsUniqueRows(t, p);
    AddProjectKeepsAuthorRows(t, p);
    AddProjectKeepsLinks(t, p);
    assert AddProject(t, p).users == t.users;
  }

  /** The only contributor row of a freshly added project is its author's AUTHOR row. */
  lemma {:induction false} NewProjectHasOneRow(t: Tables, p: Project)
    requires KeysBelowSerial(t) && Linked(t)
    ensures var r := AddProject(t, p);
      t.serial in r.projects && r.projects[t.serial].author == p.author
      && (forall c :: c in r.contributors && r.contributors[c].project == t.serial ==>
            c == t.serial + 1 && r.contributors[c] == Contributor(p.author, t.serial, AuthorPermission, AuthorRole))
      && IsMember(r, t.serial, p.author)
  {
    var r := AddProject(t, p);
    forall c | c in t.contributors ensures t.contributors[c].project != t.serial {
      assert t.contributors[c].project in t.projects;
    }
    assert r.contributors[t.serial + 1].user == p.author && r.contributors[t.serial + 1].project == t.serial;
  }

  /**
   * A created project belongs to its creator, who holds its only contributor
   * row, with permission AUTHOR and the author role; the store stays
   * consistent.
   */
  lemma {:induction false} CreateKeepsConsistency(t: Tables, entries: Entries, actor: RequestUser, input: ProjectInput)
    requires Consistent(t) && KnownUser(t, actor)
    ensures var e := CreateProject(t, entries, actor, input);
      Consistent(e.tables)
      && (e.result.status == HTTP_201_CREATED ==>
            t.serial in e.tables.projects && e.tables.projects[t.serial].author == actor.id
            && (forall c :: c in e.tables.contributors && e.tables.contributors[c].project == t.serial ==>
                  c == t.serial + 1 && e.tables.contributors[c] == Contributor(actor.id, t.serial, AuthorPermission, AuthorRole))
            && IsMember(e.tables, t.serial, actor.id))
  {
    var e := CreateProject(t, entries, actor, input);
    if e.result.status == HTTP_201_CREATED {
      var f := ValidateProject(input).value;
      var p := Project(f.title, f.description, f.kind, actor.id);
      assert e.tables == AddProject(t, p);
      AddProjectKeepsConsistency(t, p);
      NewProjectHasOneRow(t, p);
    }
  }

  /** Creating the same project twice: the second request is refused with 400. */
  lemma CreateTwiceIsRefused(t: Tables, entries: Entries, actor: RequestUser, input: ProjectInput)
    requires CreateProject(t, entries, actor, input).result.status == HTTP_201_CREATED
    ensures var e := CreateProject(t, entries, actor, input);
      CreateProject(e.tables, e.entries, actor, input).result == Reply(HTTP_400_BAD_REQUEST, TitleTakenMessage)
  {
    var e := CreateProject(t, entries, actor, input);
    var title := ValidateProject(input).value.title;
    assert e.tables.projects[t.serial].title == title;
    assert TitleTaken(e.tables, actor.id, title);
  }

  // ---------------------------------------------------------------------
  // destroy
  // ---------------------------------------------------------------------

  function DeletedMessage(title: string): string {
    "Le projet '" + title + "' et ses données associées ont été supprimés."
  }

  /**
   * `destroy`: 401 without an authenticated user; `get_object` fills the
   * user's list cache and answers 404 unless the project is in the user's
   * queryset; the object check answers 403 unless the user authored it.
   * Otherwise the project goes with everything that cascades from it, the
   * user's project-list and issue-list entries are invalidated, and 200.
   */
  function DestroyProject(t: Tables, entries: Entries, cap: Capability, actor: RequestUser, id: nat): (e: Effect<Reply>)
    requires Linked(t)
    ensures !IsAuthenticated(actor) ==> e == Effect(Refusal(actor), t, entries)
    ensures IsAuthenticated(actor) ==>
      var filled := Remember(entries, UserProjectsKey(actor.id), VisibleProjects(t, actor.id));
      (id !in VisibleProjects(t, actor.id) ==> e == Effect(Reply(HTTP_404_NOT_FOUND, NotFound), t, filled))
      && (id in VisibleProjects(t, actor.id) && t.projects[id].author != actor.id ==>
            e == Effect(Reply(HTTP_403_FORBIDDEN, PermissionDenied), t, filled))
    ensures e.result.status == HTTP_200_OK <==>
      IsAuthenticated(actor) && id in VisibleProjects(t, actor.id) && t.projects[id].author == actor.id
    ensures e.result.status == HTTP_200_OK ==>
      e.result.detail == DeletedMessage(t.projects[id].title)
      && e.tables == Cascade(t, JustProject(id))
      && UserProjectsKey(actor.id) !in e.entries
      && (forall scope :: IssuesKey(actor.id, scope) !in e.entries)
  {
    if !actor.Known? then Effect(Refusal(actor), t, entries)
    else
      var filled := Remember(entries, UserProjectsKey(actor.id), VisibleProjects(t, actor.id));
      if id !in VisibleProjects(t, actor.id) then Effect(Reply(HTTP_404_NOT_FOUND, NotFound), t, filled)
      else if !IsAuthorAndContributorObject(t, actor, DELETE, ProjectObj(id)) then
        Effect(Refusal(actor), t, filled)
      else
        var afterProjects := AfterDeletePattern(filled, UserProjectsKey(actor.id), cap);
        var afterIssues := AfterDeletePattern(afterProjects, IssuesUserPattern(actor.id), cap);
        UserProjectsInvalidated(filled, actor.id, cap);
        assert forall scope :: IssuesKey(actor.id, scope) !in afterIssues by {
          forall scope: Option<nat> ensures IssuesKey(actor.id, scope) !in afterIssues {
            IssuesInvalidated(afterProjects, actor.id, scope, cap);
          }
        }
        Effect(Reply(HTTP_200_OK, DeletedMessage(t.projects[id].title)), Cascade(t, JustProject(id)), afterIssues)
  }

  /**
   * A successful delete leaves a consistent store with no trace of the
   * project: no contributor row and no issue refers to it any more.
   */
  lemma DestroyRemovesProjectData(t: Tables, entries: Entries, cap: Capability, actor: RequestUser, id: nat)
    requires Consistent(t)
    ensures var e := DestroyProject(t, entries, cap, actor, id);
      Consistent(e.tables)
      && (e.result.status == HTTP_200_OK ==>
            id !in e.tables.projects
            && (forall c :: c in e.tables.contributors ==> e.tables.contributors[c].project != id)
            && (forall i :: i in e.tables.issues ==> e.tables.issues[i].project != id))
  {
    var e := DestroyProject(t, entries, cap, actor, id);
    if e.result.status == HTTP_200_OK {
      CascadeKeepsConsistency(t, JustProject(id));
    }
  }

  // ---------------------------------------------------------------------
  // The view set
  // ---------------------------------------------------------------------

  class ProjectViewSet {
    const db: Database

    constructor (db: Database)
      ensures this.db == db
    {
      this.db := db;
    }

    /**
     * `get_queryset`: the value cached under `user_projects_{id}` when there
     * is one, else the query's answer, which is then cached.
     */
    method GetQueryset(user: UserId) returns (ids: set<ProjectId>)
      modifies db.cache
      ensures old(UserProjectsKey(user) in db.cache.entries) ==>
                ids == old(db.cache.entries[UserProjectsKey(user)]) && db.cache.entries == old(db.cache.entries)
      ensures old(UserProjectsKey(user) !in db.cache.entries) ==>
                ids == VisibleProjects(db.tables, user) && db.cache.entries == old(db.cache.entries)[UserProjectsKey(user) := ids]
    {
      var key := UserProjectsKey(user);
      var cached := db.cache.Get(key);
      if cached.Some? {
        return cached.value;
      }
      ids := VisibleProjects(db.tables, user);
      db.cache.Set(key, ids);
    }

    method List(actor: RequestUser) returns (r: Listing)
      modifies db.cache
      ensures Effect(r, db.tables, db.cache.entries) == ListProjects(old(db.tables), old(db.cache.entries), actor)
    {
      if !actor.Known? {
        return Message(Refusal(actor));
      }
      if ProjectsOf(db.tables, actor.id) == {} {
        return Message(Reply(HTTP_200_OK, NoProjectYet));
      }
      var ids := GetQueryset(actor.id);
      r := Items(ids);
    }

    method Create(actor: RequestUser, input: ProjectInput) returns (r: Reply)
      modifies db, db.cache
      ensures Effect(r, db.tables, db.cache.entries) == CreateProject(old(db.tables), old(db.cache.entries), actor, input)
    {
      if !actor.Known? {
        return Refusal(actor);
      }
      var fields := ValidateProject(input);
      if fields.None? {
        return Reply(HTTP_400_BAD_REQUEST, Invalid);
      }
      var f := fields.value;
      if TitleTaken(db.tables, actor.id, f.title) {
        return Reply(HTTP_400_BAD_REQUEST, TitleTakenMessage);
      }
      var t := db.tables;
      var projectId := t.serial;
      t := t.(projects := t.projects[projectId := Project(f.title, f.description, f.kind, actor.id)], serial := t.serial + 1);
      t := t.(contributors := t.contributors[t.serial := Contributor(actor.id, projectId, AuthorPermission, AuthorRole)],
              serial := t.serial + 1);
      db.tables := t;
      db.cache.Delete(UserProjectsKey(actor.id));
      r := Reply(HTTP_201_CREATED, CreatedMessage(f.title));
    }

    method Destroy(actor: RequestUser, id: nat) returns (r: Reply)
      requires Linked(db.tables)
      modifies db, db.cache
      ensures Effect(r, db.tables, db.cache.entries) == DestroyProject(old(db.tables), old(db.cache.entries), db.cache.capability, actor, id)
    {
      if !actor.Known? {
        return Refusal(actor);
      }
      var visible := GetQueryset(actor.id);
      if id !in VisibleProjects(db.tables, actor.id) {
        return Reply(HTTP_404_NOT_FOUND, NotFound);
      }
      if !IsAuthorAndContributorObject(db.tables, actor, DELETE, ProjectObj(id)) {
        return Refusal(actor);
      }
      var title := db.tables.projects[id].title;
      db.tables := Cascade(db.tables, JustProject(id));
      db.cache.SafeDeletePattern(UserProjectsKey(actor.id));
      db.cache.SafeDeletePattern(IssuesUserPattern(actor.id));
      r := Reply(HTTP_200_OK, DeletedMessage(title));
    }
  }
}
