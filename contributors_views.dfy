/**
 * `ContributorViewSet`: the member list grouped by project, the invitation
 * of a user by uuid (answered uniformly, whatever happened) and the removal
 * of a member, which never removes a project's AUTHOR row.
 */
module ContributorViews {
  import opened Wrappers
  import opened Http
  import opened Uuids
  import opened UserModels
  import opened ProjectModels
  import opened ProjectPermissions
  import opened CacheTools
  import opened CacheKeys
  import opened Db

  /** `get_queryset`: every row for a superuser, otherwise the rows of the user's projects. */
  function VisibleContributors(t: Tables, user: UserId): (r: set<ContributorId>)
    ensures r <= t.contributors.Keys
  {
    set c | c in t.contributors && (IsSuperuser(t, Known(user)) || IsMember(t, t.contributors[c].project, user))
  }

  /**
   * For anyone but a superuser, the rows the queryset holds are exactly those
   * the read check of `IsAuthorAndContributor` admits.
   */
  lemma VisibleContributorsAreReadable(t: Tables, user: UserId, c: ContributorId)
    requires Linked(t) && c in t.contributors && !IsSuperuser(t, Known(user))
    ensures c in VisibleContributors(t, user) <==> IsAuthorAndContributorObject(t, Known(user), GET, ContributorObj(c))
  {
  }

  // ---------------------------------------------------------------------
  // list
  // ---------------------------------------------------------------------

  /** The projects the given rows belong to. */
  function ProjectsOfRows(t: Tables, rows: set<ContributorId>): set<ProjectId>
    requires rows <= t.contributors.Keys
  {
    set c | c in rows :: t.contributors[c].project
  }

  /** `grouped[contributor.project.id].append(contributor)` over every row, as sets. */
  function Grouping(t: Tables, rows: set<ContributorId>): (g: map<ProjectId, set<ContributorId>>)
    requires rows <= t.contributors.Keys
  {
    map p | p in ProjectsOfRows(t, rows) :: set c | c in rows && t.contributors[c].project == p
  }

  /**
   * The groups partition the rows: each row sits in the group of its own
   * project and in no other, and no group is empty.
   */
  lemma GroupingPartitions(t: Tables, rows: set<ContributorId>)
    requires rows <= t.contributors.Keys
    ensures forall c :: c in rows ==> t.contributors[c].project in Grouping(t, rows)
    ensures forall p, c :: p in Grouping(t, rows) && c in Grouping(t, rows)[p] <==>
              c in rows && p == t.contributors[c].project
    ensures forall p :: p in Grouping(t, rows) ==> Grouping(t, rows)[p] != {}
  {
    var g := Grouping(t, rows);
    forall p | p in g ensures g[p] != {} {
      var c :| c in rows && t.contributors[c].project == p;
      assert c in g[p];
    }
  }

  /** Adding one row to the grouped rows adds it to its project's group and changes nothing else. */
  lemma GroupingAdd(t: Tables, done: set<ContributorId>, c: ContributorId)
    requires done <= t.contributors.Keys && c in t.contributors && c !in done
    ensures var p := t.contributors[c].project;
      Grouping(t, done + {c}) == Grouping(t, done)[p := (if p in Grouping(t, done) then Grouping(t, done)[p] else {}) + {c}]
  {
    var p := t.contributors[c].project;
    var before := Grouping(t, done);
    var after := Grouping(t, done + {c});
    var expected := before[p := (if p in before then before[p] else {}) + {c}];
    assert after.Keys == expected.Keys by {
      assert ProjectsOfRows(t, done + {c}) == ProjectsOfRows(t, done) + {p};
    }
    forall q | q in after ensures after[q] == expected[q] {
      if q != p {
        assert after[q] == before[q];
      } else if p !in before {
        assert forall d :: d in done ==> t.contributors[d].project != p;
      }
    }
  }

  /** The grouping loop of `list`, one row at a time. */
  method GroupByProject(t: Tables, rows: set<ContributorId>) returns (grouped: map<ProjectId, set<ContributorId>>)
    requires rows <= t.contributors.Keys
    ensures grouped == Grouping(t, rows)
  {
    grouped := map[];
    var left := rows;
    while left != {}
      invariant left <= rows
      invariant grouped == Grouping(t, rows - left)
      decreases left
    {
      var c :| c in left;
      var p := t.contributors[c].project;
      var group := if p in grouped then grouped[p] else {};
      GroupingAdd(t, rows - left, c);
      assert rows - (left - {c}) == (rows - left) + {c};
      grouped := grouped[p := group + {c}];
      left := left - {c};
    }
    assert rows - left == rows;
  }

  /**
   * `list`: 401 without an authenticated user, 403 when the queryset is
   * empty, otherwise the visible rows grouped by project.
   */
  function ListContributors(t: Tables, actor: RequestUser): (r: Listing)
    ensures r == Message(Refusal(actor)) <==> !IsAuthenticated(actor)
    ensures r == Message(Reply(HTTP_403_FORBIDDEN, NoProjectMessage)) <==>
              IsAuthenticated(actor) && VisibleContributors(t, actor.id) == {}
    ensures r.Groups? <==> IsAuthenticated(actor) && VisibleContributors(t, actor.id) != {}
    ensures r.Groups? ==> r.groups == Grouping(t, VisibleContributors(t, actor.id))
  {
    if !actor.Known? then Message(Refusal(actor))
    else if VisibleContributors(t, actor.id) == {} then Message(Reply(HTTP_403_FORBIDDEN, NoProjectMessage))
    else Groups(Grouping(t, VisibleContributors(t, actor.id)))
  }

  // ---------------------------------------------------------------------
  // create: the invitation by uuid
  // ---------------------------------------------------------------------

  const UniformMessage: string := "Si l'utilisateur existe, il a été ajouté ou invité."
  const ThrottledMessage: string := "Trop de tentatives. Réessayez plus tard."

  /**
   * `_validate_invite_params`: the project and the user to add, or None.
   * Both values must be present and truthy (a project id of 0 is not), the
   * project must exist and be the requester's own unless the requester is a
   * superuser, and the uuid text must parse and name a stored user.
   */
  function ValidateInviteParams(t: Tables, actor: RequestUser, project: Option<int>, userUuid: Option<string>): (r: Option<(ProjectId, UserId)>)
    requires UniqueUuids(t.users)
    ensures r.Some? <==>
      project.Some? && project.value != 0 && userUuid.Some? && userUuid.value != ""
      && project.value >= 0 && project.value in t.projects
      && (SameUser(Some(t.projects[project.value].author), actor) || IsSuperuser(t, actor))
      && Parse(userUuid.value).Some?
      && exists u :: u in t.users && t.users[u].uuid == Parse(userUuid.value).value
    ensures r.Some? ==>
      r.value.0 == project.value && r.value.1 in t.users && t.users[r.value.1].uuid == Parse(userUuid.value).value
  {
    if project.None? || project.value == 0 || userUuid.None? || userUuid.value == "" then None
    else if project.value < 0 || project.value !in t.projects then None
    else if !SameUser(Some(t.projects[project.value].author), actor) && !IsSuperuser(t, actor) then None
    else match Parse(userUuid.value)
      case None => None
      case Some(u) =>
        match FindByUuid(t.users, u)
        case None => None
        case Some(user) => Some((project.value as ProjectId, user))
  }

  /**
   * The row `_add_contributor_silently` creates: AUTHOR with the author role
   * when the user is the project's author, CONTRIBUTOR otherwise.
   */
  function InvitedRow(t: Tables, p: ProjectId, u: UserId): (c: Contributor)
    requires p in t.projects
    ensures c.user == u && c.project == p
    ensures c.permission == AuthorPermission <==> t.projects[p].author == u
    ensures c.role == (if t.projects[p].author == u then AuthorRole else ContributorRole)
  {
    if t.projects[p].author == u then Contributor(u, p, AuthorPermission, AuthorRole)
    else Contributor(u, p, ContributorPermission, ContributorRole)
  }

  /** `_add_contributor_silently` on the tables: nothing when the membership exists. */
  function Invite(t: Tables, p: ProjectId, u: UserId): (r: Tables)
    requires p in t.projects
    ensures IsMember(t, p, u) ==> r == t
    ensures !IsMember(t, p, u) ==>
              r == t.(contributors := t.contributors[t.serial := InvitedRow(t, p, u)], serial := t.serial + 1)
  {
    if IsMember(t, p, u) then t
    else t.(contributors := t.contributors[t.serial := InvitedRow(t, p, u)], serial := t.serial + 1)
  }

  /** `_add_contributor_silently` on the cache: the user's list entries go when a row was added. */
  function InviteEntries(t: Tables, entries: Entries, cap: Capability, p: ProjectId, u: UserId): (r: Entries)
    ensures IsMember(t, p, u) ==> r == entries
    ensures !IsMember(t, p, u) ==> UserProjectsKey(u) !in r && forall scope :: IssuesKey(u, scope) !in r
  {
    if IsMember(t, p, u) then entries
    else
      var afterProjects := AfterDeletePattern(entries, UserProjectsKey(u), cap);
      UserProjectsInvalidated(entries, u, cap);
      var afterIssues := AfterDeletePattern(afterProjects, IssuesUserPattern(u), cap);
      assert forall scope :: IssuesKey(u, scope) !in afterIssues by {
        forall scope: Option<nat> ensures IssuesKey(u, scope) !in afterIssues {
          IssuesInvalidated(afterProjects, u, scope, cap);
        }
      }
      afterIssues
  }

  /** After an invitation the user is a member; inviting again changes nothing. */
  lemma {:induction false} InviteIsIdempotent(t: Tables, p: ProjectId, u: UserId)
    requires p in t.projects && KeysBelowSerial(t)
    ensures IsMember(Invite(t, p, u), p, u)
    ensures p in Invite(t, p, u).projects && Invite(Invite(t, p, u), p, u) == Invite(t, p, u)
  {
    var r := Invite(t, p, u);
    if !IsMember(t, p, u) {
      assert r.contributors[t.serial].user == u && r.contributors[t.serial].project == p;
    }
  }

  /** The new row duplicates no membership, since it is only added for a non-member. */
  lemma {:induction false} InviteKeepsUniqueRows(t: Tables, p: ProjectId, u: UserId)
    requires p in t.projects && KeysBelowSerial(t) && UniqueRows(t)
    ensures UniqueRows(Invite(t, p, u))
  {
    if !IsMember(t, p, u) {
      var r := Invite(t, p, u);
      var row := t.serial;
      forall a, b | a in r.contributors && b in r.contributors && a != b && r.contributors[a].user == r.contributors[b].user
        ensures r.contributors[a].project != r.contributors[b].project
      {
        if a == row {
          assert !(t.contributors[b].user == u && t.contributors[b].project == p);
        } else if b == row {
          assert !(t.contributors[a].user == u && t.contributors[a].project == p);
        }
      }
    }
  }

  /** The new row carries AUTHOR exactly when its user authored the project; old rows stay. */
  lemma {:induction false} InviteKeepsAuthorRows(t: Tables, p: ProjectId, u: UserId)
    requires p in t.projects && KeysBelowSerial(t) && AuthorRows(t)
    ensures AuthorRows(Invite(t, p, u))
  {
    if !IsMember(t, p, u) {
      var r := Invite(t, p, u);
      forall q | q in r.projects ensures IsMember(r, q, r.projects[q].author) {
        var c :| c in t.contributors && t.contributors[c].user == t.projects[q].author && t.contributors[c].project == q;
        assert c in r.contributors && r.contributors[c] == t.contributors[c];
      }
    }
  }

  /** The new row points at an existing user and project, under a fresh key. */
  lemma {:induction false} InviteKeepsLinks(t: Tables, p: ProjectId, u: UserId)
    requires p in t.projects && u in t.users && KeysBelowSerial(t) && Linked(t) && AssigneesInProject(t)
    ensures KeysBelowSerial(Invite(t, p, u)) && Linked(Invite(t, p, u)) && AssigneesInProject(Invite(t, p, u))
  {
    var r := Invite(t, p, u);
    assert forall c :: c in t.contributors ==> c in r.contributors && r.contributors[c] == t.contributors[c];
  }

  /** An invitation keeps the store consistent. */
  lemma {:induction false} InviteKeepsConsistency(t: Tables, p: ProjectId, u: UserId)
    requires Consistent(t) && p in t.projects && u in t.users
    ensures Consistent(Invite(t, p, u))
  {
    InviteKeepsUniqueRows(t, p, u);
    InviteKeepsAuthorRows(t, p, u);
    InviteKeepsLinks(t, p, u);
    assert Invite(t, p, u).users == t.users;
  }

  /**
   * `create`: 401 without an authenticated user, 429 when the invite
   * throttle refuses; otherwise the invitation is carried out when the
   * parameters are valid and the same 200 answer is given in every case.
   * `throttleAllows` is the throttle's verdict for this request.
   */
  function CreateContributor(t: Tables, entries: Entries, cap: Capability, actor: RequestUser, throttleAllows: bool,
                             project: Option<int>, userUuid: Option<string>): (e: Effect<Reply>)
    requires UniqueUuids(t.users)
    ensures !IsAuthenticated(actor) ==> e == Effect(Refusal(actor), t, entries)
    ensures e.result.status == HTTP_429_TOO_MANY_REQUESTS <==> IsAuthenticated(actor) && !throttleAllows
    ensures IsAuthenticated(actor) && throttleAllows ==> e.result == Reply(HTTP_200_OK, UniformMessage)
    ensures IsAuthenticated(actor) && throttleAllows && ValidateInviteParams(t, actor, project, userUuid).Some? ==>
              var (p, u) := ValidateInviteParams(t, actor, project, userUuid).value;
              e.tables == Invite(t, p, u) && e.entries == InviteEntries(t, entries, cap, p, u)
    ensures !(IsAuthenticated(actor) && throttleAllows && ValidateInviteParams(t, actor, project, userUuid).Some?) ==>
              e.tables == t && e.entries == entries
  {
    if !actor.Known? then Effect(Refusal(actor), t, entries)
    else if !throttleAllows then Effect(Reply(HTTP_429_TOO_MANY_REQUESTS, ThrottledMessage), t, entries)
    else match ValidateInviteParams(t, actor, project, userUuid)
      case None => Effect(Reply(HTTP_200_OK, UniformMessage), t, entries)
      case Some((p, u)) => Effect(Reply(HTTP_200_OK, UniformMessage), Invite(t, p, u), InviteEntries(t, entries, cap, p, u))
  }

  /**
   * The answer reveals nothing about the parameters: two requests by the same
   * user with the same throttle verdict get the same reply, whatever project
   * and uuid they name.
   */
  lemma InviteReplyIsUniform(t: Tables, entries: Entries, cap: Capability, actor: RequestUser, throttleAllows: bool,
                             p1: Option<int>, u1: Option<string>, p2: Option<int>, u2: Option<string>)
    requires UniqueUuids(t.users)
    ensures CreateContributor(t, entries, cap, actor, throttleAllows, p1, u1).result
         == CreateContributor(t, entries, cap, actor, throttleAllows, p2, u2).result
  {
  }

  /**
   * The parameters pass every check of `_validate_invite_params` that comes
   * before the lookup of the user by uuid.
   */
  predicate ReachesUuidLookup(t: Tables, actor: RequestUser, project: Option<int>, userUuid: Option<string>) {
    project.Some? && project.value != 0 && userUuid.Some? && userUuid.value != ""
    && project.value >= 0 && project.value in t.projects
    && (SameUser(Some(t.projects[project.value].author), actor) || IsSuperuser(t, actor))
    && Parse(userUuid.value).Some?
  }

  /**
   * `create` as written. The user model declares no `uuid` field, so
   * `User.objects.get(uuid=...)` raises a FieldError, which the `except`
   * clause does not list: every request that reaches the lookup ends in a
   * 500 and writes nothing. Other requests get the uniform reply.
   */
  function CreateContributorAsWritten(t: Tables, entries: Entries, actor: RequestUser, throttleAllows: bool,
                                      project: Option<int>, userUuid: Option<string>): (e: Effect<Reply>)
    ensures e.tables == t && e.entries == entries
    ensures IsAuthenticated(actor) && throttleAllows ==>
              (e.result.status == HTTP_500_INTERNAL_SERVER_ERROR <==> ReachesUuidLookup(t, actor, project, userUuid))
    ensures IsAuthenticated(actor) && throttleAllows && !ReachesUuidLookup(t, actor, project, userUuid) ==>
              e.result == Reply(HTTP_200_OK, UniformMessage)
  {
    if !actor.Known? then Effect(Refusal(actor), t, entries)
    else if !throttleAllows then Effect(Reply(HTTP_429_TOO_MANY_REQUESTS, ThrottledMessage), t, entries)
    else if ReachesUuidLookup(t, actor, project, userUuid) then
      Effect(Reply(HTTP_500_INTERNAL_SERVER_ERROR, ServerErrorMessage), t, entries)
    else Effect(Reply(HTTP_200_OK, UniformMessage), t, entries)
  }

  /**
   * As written, the reply is not uniform: a project author inviting by a
   * well-formed uuid gets a 500 whether or not the uuid names an account,
   * while a request without parameters gets the 200.
   */
  lemma InviteAsWrittenIsNotUniform(t: Tables, entries: Entries, author: UserId, p: ProjectId, target: Uuid)
    requires p != 0 && p in t.projects && t.projects[p].author == author
    ensures CreateContributorAsWritten(t, entries, Known(author), true, Some(p), Some(Format(target))).result.status
         == HTTP_500_INTERNAL_SERVER_ERROR
    ensures CreateContributorAsWritten(t, entries, Known(author), true, None, None).result
         == Reply(HTTP_200_OK, UniformMessage)
  {
    ParseFormat(target);
  }

  // ---------------------------------------------------------------------
  // destroy
  // ---------------------------------------------------------------------

  const AuthorRowMessage: string := "Impossible de retirer l’auteur du projet."

  function RemovedMessage(username: string): string {
    "Le contributeur '" + username + "' a été retiré du projet."
  }

  /** The three `safe_delete_pattern` calls that follow a removal. */
  function RemovalEntries(entries: Entries, cap: Capability, u: UserId, p: ProjectId): (r: Entries)
    ensures UserProjectsKey(u) !in r && forall scope :: IssuesKey(u, scope) !in r
  {
    var afterProjects := AfterDeletePattern(entries, UserProjectsKey(u), cap);
    UserProjectsInvalidated(entries, u, cap);
    var afterIssues := AfterDeletePattern(afterProjects, IssuesUserPattern(u), cap);
    assert forall scope :: IssuesKey(u, scope) !in afterIssues by {
      forall scope: Option<nat> ensures IssuesKey(u, scope) !in afterIssues {
        IssuesInvalidated(afterProjects, u, scope, cap);
      }
    }
    AfterDeletePattern(afterIssues, IssuesProjectPattern(p), cap)
  }

  /**
   * `destroy`: 401 without an authenticated user, 404 outside the queryset,
   * 403 unless the requester authored the row's project, 403 with its own
   * message for an AUTHOR row; otherwise the row goes with the issues
   * assigned to it, the member's cache entries are invalidated, and 200.
   */
  function DestroyContributor(t: Tables, entries: Entries, cap: Capability, actor: RequestUser, id: nat): (e: Effect<Reply>)
    requires Linked(t)
    ensures e.result.status != HTTP_200_OK ==> e.tables == t && e.entries == entries
    ensures !IsAuthenticated(actor) ==> e.result == Refusal(actor)
    ensures IsAuthenticated(actor) && id !in VisibleContributors(t, actor.id) ==> e.result == Reply(HTTP_404_NOT_FOUND, NotFound)
    ensures e.result.status == HTTP_200_OK <==>
      IsAuthenticated(actor) && id in VisibleContributors(t, actor.id)
      && t.projects[t.contributors[id].project].author == actor.id
      && t.contributors[id].permission != AuthorPermission
    ensures (IsAuthenticated(actor) && id in VisibleContributors(t, actor.id)
             && t.projects[t.contributors[id].project].author == actor.id
             && t.contributors[id].permission == AuthorPermission) ==> e.result == Reply(HTTP_403_FORBIDDEN, AuthorRowMessage)
    ensures e.result.status == HTTP_200_OK ==>
      var row := t.contributors[id];
      e.result.detail == RemovedMessage(t.users[row.user].username)
      && e.tables == Cascade(t, JustContributor(id))
      && e.entries == RemovalEntries(entries, cap, row.user, row.project)
  {
    if !actor.Known? then Effect(Refusal(actor), t, entries)
    else if id !in VisibleContributors(t, actor.id) then Effect(Reply(HTTP_404_NOT_FOUND, NotFound), t, entries)
    else if !IsAuthorAndContributorObject(t, actor, DELETE, ContributorObj(id)) then Effect(Refusal(actor), t, entries)
    else
      var row := t.contributors[id];
      if row.permission == AuthorPermission then Effect(Reply(HTTP_403_FORBIDDEN, AuthorRowMessage), t, entries)
      else
        Effect(Reply(HTTP_200_OK, RemovedMessage(t.users[row.user].username)),
               Cascade(t, JustContributor(id)),
               RemovalEntries(entries, cap, row.user, row.project))
  }

  /** Removing a row that is not an AUTHOR row keeps the store consistent. */
  lemma RemoveRowKeepsConsistency(t: Tables, id: ContributorId)
    requires Consistent(t) && id in t.contributors && t.contributors[id].permission != AuthorPermission
    ensures Consistent(Cascade(t, JustContributor(id)))
  {
    CascadeKeepsConsistency(t, JustContributor(id));
  }

  /** Removing a row ends that membership, since no other row repeats it, and keeps the project. */
  lemma {:induction false} RemoveRowEndsMembership(t: Tables, id: ContributorId)
    requires UniqueRows(t) && id in t.contributors
    ensures var r := Cascade(t, JustContributor(id));
      var row := t.contributors[id];
      !IsMember(r, row.project, row.user) && (row.project in t.projects ==> row.project in r.projects)
  {
    var row := t.contributors[id];
    var r := Cascade(t, JustContributor(id));
    forall c | c in r.contributors && r.contributors[c].user == row.user
      ensures r.contributors[c].project != row.project
    {
      assert c in t.contributors && c != id;
    }
    var k := Closure(t, JustContributor(id));
    assert row.project !in k.projects;
  }

  /** A removal keeps the store consistent: it never starts from an AUTHOR row. */
  lemma {:induction false} DestroyKeepsConsistency(t: Tables, entries: Entries, cap: Capability, actor: RequestUser, id: nat)
    requires Consistent(t)
    ensures Consistent(DestroyContributor(t, entries, cap, actor, id).tables)
  {
    var e := DestroyContributor(t, entries, cap, actor, id);
    if e.result.status == HTTP_200_OK {
      assert id in t.contributors;
      assert t.contributors[id].permission != AuthorPermission;
      assert e.tables == Cascade(t, JustContributor(id));
      RemoveRowKeepsConsistency(t, id);
    }
  }

  /**
   * After a removal the member is no longer in the project, while the
   * project survives with its author still a member.
   */
  lemma {:induction false} DestroyEndsMembership(t: Tables, entries: Entries, cap: Capability, actor: RequestUser, id: nat)
    requires Consistent(t)
    requires DestroyContributor(t, entries, cap, actor, id).result.status == HTTP_200_OK
    ensures var r := DestroyContributor(t, entries, cap, actor, id).tables;
      var row := t.contributors[id];
      !IsMember(r, row.project, row.user)
      && row.project in r.projects && IsMember(r, row.project, t.projects[row.project].author)
  {
    var r := DestroyContributor(t, entries, cap, actor, id).tables;
    var row := t.contributors[id];
    assert r == Cascade(t, JustContributor(id));
    RemoveRowEndsMembership(t, id);
    DestroyKeepsConsistency(t, entries, cap, actor, id);
    assert r.projects[row.project] == t.projects[row.project];
  }

  // ---------------------------------------------------------------------
  // The view set
  // ---------------------------------------------------------------------

  class ContributorViewSet {
    const db: Database

    constructor (db: Database)
      ensures this.db == db
    {
      this.db := db;
    }

    method List(actor: RequestUser) returns (r: Listing)
      ensures r == ListContributors(db.tables, actor)
    {
      if !actor.Known? {
        return Message(Refusal(actor));
      }
      var queryset := VisibleContributors(db.tables, actor.id);
      if queryset == {} {
        return Message(Reply(HTTP_403_FORBIDDEN, NoProjectMessage));
      }
      var grouped := GroupByProject(db.tables, queryset);
      r := Groups(grouped);
    }

    /** `_add_contributor_silently`. */
    method AddContributorSilently(p: ProjectId, u: UserId)
      requires p in db.tables.projects
      modifies db, db.cache
      ensures db.tables == Invite(old(db.tables), p, u)
      ensures db.cache.entries == InviteEntries(old(db.tables), old(db.cache.entries), db.cache.capability, p, u)
    {
      if !IsMember(db.tables, p, u) {
        var t := db.tables;
        db.tables := t.(contributors := t.contributors[t.serial := InvitedRow(t, p, u)], serial := t.serial + 1);
        db.cache.SafeDeletePattern(UserProjectsKey(u));
        db.cache.SafeDeletePattern(IssuesUserPattern(u));
      }
    }

    method Create(actor: RequestUser, throttleAllows: bool, project: Option<int>, userUuid: Option<string>) returns (r: Reply)
      requires UniqueUuids(db.tables.users)
      modifies db, db.cache
      ensures Effect(r, db.tables, db.cache.entries)
           == CreateContributor(old(db.tables), old(db.cache.entries), db.cache.capability, actor, throttleAllows, project, userUuid)
    {
      if !actor.Known? {
        return Refusal(actor);
      }
      if !throttleAllows {
        return Reply(HTTP_429_TOO_MANY_REQUESTS, ThrottledMessage);
      }
      var params := ValidateInviteParams(db.tables, actor, project, userUuid);
      if params.Some? {
        AddContributorSilently(params.value.0, params.value.1);
      }
      r := Reply(HTTP_200_OK, UniformMessage);
    }

    method Destroy(actor: RequestUser, id: nat) returns (r: Reply)
      requires Linked(db.tables)
      modifies db, db.cache
      ensures Effect(r, db.tables, db.cache.entries)
           == DestroyContributor(old(db.tables), old(db.cache.entries), db.cache.capability, actor, id)
    {
      if !actor.Known? {
        return Refusal(actor);
      }
      if id !in VisibleContributors(db.tables, actor.id) {
        return Reply(HTTP_404_NOT_FOUND, NotFound);
      }
      if !IsAuthorAndContributorObject(db.tables, actor, DELETE, ContributorObj(id)) {
        return Refusal(actor);
      }
      var row := db.tables.contributors[id];
      if row.permission == AuthorPermission {
        return Reply(HTTP_403_FORBIDDEN, AuthorRowMessage);
      }
      var username := db.tables.users[row.user].username;
      db.tables := Cascade(db.tables, JustContributor(id));
      db.cache.SafeDeletePattern(UserProjectsKey(row.user));
      db.cache.SafeDeletePattern(IssuesUserPattern(row.user));
      db.cache.SafeDeletePattern(IssuesProjectPattern(row.project));
      r := Reply(HTTP_200_OK, RemovedMessage(username));
    }
  }
}
