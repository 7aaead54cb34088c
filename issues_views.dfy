/**
 * `IssueViewSet`: the cached issue list, the creation of an issue by a member
 * of its project, its update by its author or assignee, and its deletion.
 */
module IssueViews {
  import opened Wrappers
  import opened Text
  import opened Http
  import opened UserModels
  import opened ProjectModels
  import opened ProjectPermissions
  import opened ProjectSerializers
  import opened SerializerFields
  import opened CacheTools
  import opened CacheKeys
  import opened Db

  /**
   * The query `get_queryset` runs: every issue for a superuser, otherwise the
   * issues of the user's projects; narrowed to one project when the `project`
   * query parameter is given.
   */
  function VisibleIssues(t: Tables, user: UserId, scope: Option<nat>): (r: set<IssueId>)
    ensures r <= t.issues.Keys
    ensures forall i :: i in r ==> scope.None? || t.issues[i].project == scope.value
  {
    set i | i in t.issues && (IsSuperuser(t, Known(user)) || IsMember(t, t.issues[i].project, user))
                          && (scope.None? || t.issues[i].project == scope.value)
  }

  /**
   * In a consistent store the issues a non-superuser's queryset holds are
   * exactly those the read check of the view's permission class admits.
   */
  lemma VisibleIssuesAreReadable(t: Tables, user: UserId, i: IssueId)
    requires Consistent(t) && i in t.issues && !IsSuperuser(t, Known(user))
    ensures i in VisibleIssues(t, user, None) <==> ReadOnlyUnlessAuthorObject(t, Known(user), GET, IssueObj(i))
  {
    ReadAccessIsMembership(t, Known(user), GET, IssueObj(i));
  }

  /** The two invalidations every write performs: the user's issue lists, then the project's pattern. */
  function IssueListEntries(entries: Entries, cap: Capability, user: UserId, project: ProjectId): (r: Entries)
    ensures r.Keys <= entries.Keys
    ensures forall scope :: IssuesKey(user, scope) !in r
  {
    var afterUser := AfterDeletePattern(entries, IssuesUserPattern(user), cap);
    assert forall scope :: IssuesKey(user, scope) !in afterUser by {
      forall scope: Option<nat> ensures IssuesKey(user, scope) !in afterUser {
        IssuesInvalidated(entries, user, scope, cap);
      }
    }
    AfterDeletePattern(afterUser, IssuesProjectPattern(project), cap)
  }

  // ---------------------------------------------------------------------
  // list
  // ---------------------------------------------------------------------

  /**
   * `list`: 401 without an authenticated user, 403 for a user in no project
   * (a superuser included); otherwise what `get_queryset` returns, which is
   * the cached value on a hit.
   */
  function ListIssues(t: Tables, entries: Entries, actor: RequestUser, scope: Option<nat>): (e: Effect<Listing>)
    ensures e.tables == t
    ensures e.result == Message(Refusal(actor)) <==> !IsAuthenticated(actor)
    ensures e.result == Message(Reply(HTTP_403_FORBIDDEN, NoProjectMessage)) <==>
              IsAuthenticated(actor) && !InSomeProject(t, actor.id)
    ensures e.result.Items? <==> IsAuthenticated(actor) && InSomeProject(t, actor.id)
    ensures e.result.Items? ==>
              var key := IssuesKey(actor.id, scope);
              e.entries == Remember(entries, key, VisibleIssues(t, actor.id, scope)) && e.result.ids == e.entries[key]
    ensures !e.result.Items? ==> e.entries == entries
  {
    if !actor.Known? then Effect(Message(Refusal(actor)), t, entries)
    else if !InSomeProject(t, actor.id) then Effect(Message(Reply(HTTP_403_FORBIDDEN, NoProjectMessage)), t, entries)
    else
      var key := IssuesKey(actor.id, scope);
      var filled := Remember(entries, key, VisibleIssues(t, actor.id, scope));
      Effect(Items(filled[key]), t, filled)
  }

  /**
   * A list served right after a write by the same user is computed afresh:
   * every write drops all of that user's issue-list entries.
   */
  lemma ListAfterWriteIsFresh(t: Tables, entries: Entries, cap: Capability, user: UserId, project: ProjectId, scope: Option<nat>)
    requires InSomeProject(t, user)
    ensures ListIssues(t, IssueListEntries(entries, cap, user, project), Known(user), scope).result
         == Items(VisibleIssues(t, user, scope))
  {
    assert IssuesKey(user, scope) !in IssueListEntries(entries, cap, user, project);
  }

  // ---------------------------------------------------------------------
  // Validation by `IssueDetailSerializer`
  // ---------------------------------------------------------------------

  /** The `assignee_contributor` key of a request body: absent, null, or a primary key. */
  datatype AssigneeInput = Absent | Null | Pick(id: int)

  /** The request body of an issue creation or update; None marks an absent key. */
  datatype IssueInput = IssueInput(
    title: Option<string>,
    description: Option<string>,
    tag: Option<string>,
    priority: Option<string>,
    status: Option<string>,
    assignee: AssigneeInput,
    project: Option<int>)

  /** The unique constraint on (title, project), ignoring the issue being updated. */
  predicate IssueTitleTaken(t: Tables, project: ProjectId, title: string, except: Option<IssueId>) {
    exists j :: j in t.issues && Some(j) != except && t.issues[j].project == project && t.issues[j].title == title
  }

  /** The project whose contributors may be assigned: the instance's own on an update. */
  function InstanceProject(t: Tables, instance: Option<IssueId>): Option<ProjectId>
    requires instance.Some? ==> instance.value in t.issues
  {
    if instance.Some? then Some(t.issues[instance.value].project) else None
  }

  /**
   * The assignee the serializer yields, or None when the given key is not in
   * the field's queryset. An absent key keeps the instance's assignee.
   */
  function ChosenAssignee(t: Tables, input: IssueInput, instance: Option<IssueId>): (r: Option<Option<ContributorId>>)
    requires instance.Some? ==> instance.value in t.issues
    ensures input.assignee.Absent? ==> r == Some(if instance.Some? then t.issues[instance.value].assignee else None)
    ensures input.assignee.Null? ==> r == Some(None)
    ensures input.assignee.Pick? ==>
      (r.Some? <==> input.assignee.id >= 0 && input.assignee.id in FilteredContributors(t, InstanceProject(t, instance), input.project))
    ensures input.assignee.Pick? && r.Some? ==> r.value == Some(input.assignee.id as nat)
  {
    match input.assignee
    case Absent => Some(if instance.Some? then t.issues[instance.value].assignee else None)
    case Null => Some(None)
    case Pick(c) =>
      if c >= 0 && c in FilteredContributors(t, InstanceProject(t, instance), input.project) then Some(Some(c as nat))
      else None
  }

  /** The status the serializer yields: an absent key keeps the instance's, or takes the model default. */
  function ChosenStatus(t: Tables, input: IssueInput, instance: Option<IssueId>): Option<Status>
    requires instance.Some? ==> instance.value in t.issues
  {
    if input.status.None? && instance.Some? then Some(t.issues[instance.value].status) else ParseStatus(input.status)
  }

  /**
   * `serializer.is_valid()` for a create (no instance) or a full update: the
   * issue that `save` would store, or None for a 400. Title and description
   * are cleaned text, the title at most 255 characters; tag and priority are
   * required codes; the status and the assignee may be omitted; the assignee
   * must be in `get_filtered_contributors`; the project must exist; and no
   * other issue of the project may hold the title.
   */
  function ValidateIssue(t: Tables, input: IssueInput, instance: Option<IssueId>, author: UserId): (r: Option<Issue>)
    requires instance.Some? ==> instance.value in t.issues
    ensures r.Some? ==>
      r.value.author == author
      && input.project.Some? && input.project.value == r.value.project && r.value.project in t.projects
      && CleanText(input.title, Some(TitleMaxLength)) == Ok(r.value.title)
      && CleanText(input.description, None) == Ok(r.value.description)
      && input.tag == Some(TagCode(r.value.tag)) && input.priority == Some(PriorityCode(r.value.priority))
      && ChosenStatus(t, input, instance) == Some(r.value.status)
      && ChosenAssignee(t, input, instance) == Some(r.value.assignee)
      && !IssueTitleTaken(t, r.value.project, r.value.title, instance)
    ensures r.None? <==>
      CleanText(input.title, Some(TitleMaxLength)).Err? || CleanText(input.description, None).Err?
      || input.tag.None? || ParseTag(input.tag.value).None?
      || input.priority.None? || ParsePriority(input.priority.value).None?
      || ChosenStatus(t, input, instance).None? || ChosenAssignee(t, input, instance).None?
      || input.project.None? || input.project.value < 0 || input.project.value !in t.projects
      || IssueTitleTaken(t, input.project.value, CleanText(input.title, Some(TitleMaxLength)).value, instance)
  {
    var title := CleanText(input.title, Some(TitleMaxLength));
    var description := CleanText(input.description, None);
    if title.Err? || description.Err? then None
    else if input.tag.None? || ParseTag(input.tag.value).None? then None
    else if input.priority.None? || ParsePriority(input.priority.value).None? then None
    else if ChosenStatus(t, input, instance).None? || ChosenAssignee(t, input, instance).None? then None
    else if input.project.None? || input.project.value < 0 || input.project.value !in t.projects then None
    else if IssueTitleTaken(t, input.project.value, title.value, instance) then None
    else
      Some(Issue(title.value, description.value, ParseTag(input.tag.value).value, ParsePriority(input.priority.value).value,
                 ChosenStatus(t, input, instance).value, author, ChosenAssignee(t, input, instance).value,
                 input.project.value as ProjectId))
  }

  /** On a create the assignee field only offers contributors of the requested project. */
  lemma CreatedAssigneeInProject(t: Tables, input: IssueInput, author: UserId)
    requires ValidateIssue(t, input, None, author).Some?
    ensures var issue := ValidateIssue(t, input, None, author).value;
      issue.assignee.Some? ==> issue.assignee.value in t.contributors && t.contributors[issue.assignee.value].project == issue.project
  {
  }

  /**
   * On an update the assignee field offers the contributors of the issue's
   * present project, whatever project the body names.
   */
  lemma UpdatedAssigneeInOldProject(t: Tables, input: IssueInput, id: IssueId)
    requires id in t.issues && input.assignee.Pick?
    requires ValidateIssue(t, input, Some(id), t.issues[id].author).Some?
    ensures var issue := ValidateIssue(t, input, Some(id), t.issues[id].author).value;
      issue.assignee == Some(input.assignee.id as nat) && t.contributors[input.assignee.id].project == t.issues[id].project
  {
  }

  // ---------------------------------------------------------------------
  // create
  // ---------------------------------------------------------------------

  const NotContributorMessage: string := "Accès refusé : vous devez être contributeur d’un projet pour créer une issue."
  const AssigneeElsewhereMessage: string := "Le contributeur assigné doit appartenir au même projet."

  /** The username behind an assignee, when there is one. */
  function AssigneeName(t: Tables, assignee: Option<ContributorId>): Option<string>
    requires Linked(t) && (assignee.Some? ==> assignee.value in t.contributors)
  {
    if assignee.Some? then Some(t.users[t.contributors[assignee.value].user].username) else None
  }

  function IssueCreatedMessage(title: string, assigneeName: Option<string>): (m: string)
    ensures ("Issue '" + title + "' créée") <= m
  {
    "Issue '" + title + "' créée" + (if assigneeName.Some? then " et assignée à '" + assigneeName.value + "'" else "") + "."
  }

  /** `serializer.save(author_user=user)`: the issue under the next key. */
  function AddIssue(t: Tables, issue: Issue): (r: Tables)
    ensures r == t.(issues := t.issues[t.serial := issue], serial := t.serial + 1)
  {
    t.(issues := t.issues[t.serial := issue], serial := t.serial + 1)
  }

  /** An assignee, if any, is a stored contributor of the issue's project. */
  predicate AssigneeFits(t: Tables, issue: Issue) {
    issue.assignee.Some? ==> issue.assignee.value in t.contributors && t.contributors[issue.assignee.value].project == issue.project
  }

  /**
   * `create` with `perform_create`: 401 without an authenticated user, 400
   * for an invalid body, 403 unless the user is a member or the author of the
   * chosen project; otherwise 201, the issue is stored with the user as its
   * author, and the issue lists are invalidated.
   */
  function CreateIssue(t: Tables, entries: Entries, cap: Capability, actor: RequestUser, input: IssueInput): (e: Effect<Reply>)
    requires Linked(t)
    ensures !IsAuthenticated(actor) ==> e == Effect(Refusal(actor), t, entries)
    ensures IsAuthenticated(actor) && ValidateIssue(t, input, None, actor.id).None? ==> e.result == Reply(HTTP_400_BAD_REQUEST, Invalid)
    ensures IsAuthenticated(actor) && ValidateIssue(t, input, None, actor.id).Some?
            && !IsMemberOrAuthor(t, ValidateIssue(t, input, None, actor.id).value.project, actor.id) ==>
              e.result == Reply(HTTP_403_FORBIDDEN, NotContributorMessage)
    ensures e.result.status == HTTP_201_CREATED <==>
      IsAuthenticated(actor) && ValidateIssue(t, input, None, actor.id).Some?
      && IsMemberOrAuthor(t, ValidateIssue(t, input, None, actor.id).value.project, actor.id)
    ensures e.result.status != HTTP_201_CREATED ==> e.tables == t && e.entries == entries
    ensures e.result.status == HTTP_201_CREATED ==>
      var issue := ValidateIssue(t, input, None, actor.id).value;
      issue.author == actor.id && AssigneeFits(t, issue)
      && e.tables == AddIssue(t, issue)
      && e.entries == IssueListEntries(entries, cap, actor.id, issue.project)
      && e.result.detail == IssueCreatedMessage(issue.title, AssigneeName(t, issue.assignee))
  {
    if !actor.Known? then Effect(Refusal(actor), t, entries)
    else match ValidateIssue(t, input, None, actor.id)
      case None => Effect(Reply(HTTP_400_BAD_REQUEST, Invalid), t, entries)
      case Some(issue) =>
        if !IsMemberOrAuthor(t, issue.project, actor.id) then
          Effect(Reply(HTTP_403_FORBIDDEN, NotContributorMessage), t, entries)
        else if issue.assignee.Some? && t.contributors[issue.assignee.value].project != issue.project then
          Effect(Reply(HTTP_400_BAD_REQUEST, AssigneeElsewhereMessage), t, entries)
        else
          Effect(Reply(HTTP_201_CREATED, IssueCreatedMessage(issue.title, AssigneeName(t, issue.assignee))),
                 AddIssue(t, issue), IssueListEntries(entries, cap, actor.id, issue.project))
  }

  /** The new issue's title is free in its project, and its assignee is in that project. */
  lemma {:induction false} AddIssueKeepsUniqueRows(t: Tables, issue: Issue)
    requires KeysBelowSerial(t) && UniqueRows(t) && !IssueTitleTaken(t, issue.project, issue.title, None)
    ensures UniqueRows(AddIssue(t, issue))
  {
    var r := AddIssue(t, issue);
    forall a, b | a in r.issues && b in r.issues && a != b && r.issues[a].project == r.issues[b].project
      ensures r.issues[a].title != r.issues[b].title
    {
      if a == t.serial {
        assert Some(b) != None;
      } else if b == t.serial {
        assert Some(a) != None;
      }
    }
  }

  /** The new issue points at stored rows, under a fresh key, and its assignee fits. */
  lemma {:induction false} AddIssueKeepsLinks(t: Tables, issue: Issue)
    requires KeysBelowSerial(t) && Linked(t) && AssigneesInProject(t)
    requires issue.author in t.users && issue.project in t.projects && AssigneeFits(t, issue)
    ensures KeysBelowSerial(AddIssue(t, issue)) && Linked(AddIssue(t, issue)) && AssigneesInProject(AddIssue(t, issue))
  {
    var r := AddIssue(t, issue);
    assert forall m :: m in t.comments ==> t.comments[m].issue in r.issues;
  }

  /** Storing a valid new issue keeps the store consistent. */
  lemma {:induction false} AddIssueKeepsConsistency(t: Tables, issue: Issue)
    requires Consistent(t) && !IssueTitleTaken(t, issue.project, issue.title, None)
    requires issue.author in t.users && issue.project in t.projects && AssigneeFits(t, issue)
    ensures Consistent(AddIssue(t, issue))
  {
    AddIssueKeepsUniqueRows(t, issue);
    AddIssueKeepsLinks(t, issue);
    SameMembershipTables(AddIssue(t, issue), t);
  }

  /**
   * A created issue is authored by its creator, lies in a project they
   * belong to or authored, and leaves the store consistent.
   */
  lemma {:induction false} CreateIssueKeepsConsistency(t: Tables, entries: Entries, cap: Capability, actor: RequestUser, input: IssueInput)
    requires Consistent(t) && KnownUser(t, actor)
    ensures var e := CreateIssue(t, entries, cap, actor, input);
      Consistent(e.tables)
      && (e.result.status == HTTP_201_CREATED ==>
            t.serial in e.tables.issues && e.tables.issues[t.serial].author == actor.id
            && IsMember(t, e.tables.issues[t.serial].project, actor.id))
  {
    var e := CreateIssue(t, entries, cap, actor, input);
    if e.result.status == HTTP_201_CREATED {
      var issue := ValidateIssue(t, input, None, actor.id).value;
      AddIssueKeepsConsistency(t, issue);
      AuthorIsMember(t, issue.project, actor.id);
    }
  }

  // ---------------------------------------------------------------------
  // update
  // ---------------------------------------------------------------------

  const OnlyAuthorOrAssigneeMessage: string := "Seul l’auteur ou l’assigné peut modifier cette issue."

  /** `issue.author_user == user or (issue.assignee_contributor and ...user == user)`. */
  predicate MayEdit(t: Tables, actor: RequestUser, id: IssueId)
    requires Linked(t) && id in t.issues
  {
    actor == Known(t.issues[id].author) || AssignedTo(t, IssueObj(id), actor)
  }

  /**
   * `update` with `perform_update` as the code has it: 401 without an
   * authenticated user; `get_object` fills the issue-list cache and answers
   * 404 outside the queryset; the write check answers 403 unless the user is
   * the author or the assignee; an invalid body gives 400; then the issue is
   * replaced and the user's issue lists are invalidated. The assignee is
   * checked against the contributors of the issue's present project only, so
   * a body that moves the issue to another project keeps an assignee who is
   * not in it.
   */
  function UpdateIssueAsWritten(t: Tables, entries: Entries, cap: Capability, actor: RequestUser, scope: Option<nat>,
                                id: nat, input: IssueInput): (e: Effect<Reply>)
    requires Linked(t)
    ensures e.result.status == HTTP_200_OK <==>
      IsAuthenticated(actor) && id in VisibleIssues(t, actor.id, scope) && MayEdit(t, actor, id)
      && ValidateIssue(t, input, Some(id), t.issues[id].author).Some?
    ensures e.result.status == HTTP_200_OK ==>
      e.tables == t.(issues := t.issues[id := ValidateIssue(t, input, Some(id), t.issues[id].author).value])
    ensures e.result.status != HTTP_200_OK ==> e.tables == t
  {
    if !actor.Known? then Effect(Refusal(actor), t, entries)
    else
      var filled := Remember(entries, IssuesKey(actor.id, scope), VisibleIssues(t, actor.id, scope));
      if id !in VisibleIssues(t, actor.id, scope) then Effect(Reply(HTTP_404_NOT_FOUND, NotFound), t, filled)
      else if !ReadOnlyUnlessAuthorObject(t, actor, PUT, IssueObj(id)) then Effect(Refusal(actor), t, filled)
      else match ValidateIssue(t, input, Some(id), t.issues[id].author)
        case None => Effect(Reply(HTTP_400_BAD_REQUEST, Invalid), t, filled)
        case Some(issue) =>
          if !MayEdit(t, actor, id) then Effect(Reply(HTTP_403_FORBIDDEN, OnlyAuthorOrAssigneeMessage), t, filled)
          else
            Effect(Reply(HTTP_200_OK, Serialized), t.(issues := t.issues[id := issue]),
                   IssueListEntries(filled, cap, actor.id, t.issues[id].project))
  }

  /**
   * `update` as evidently intended: the same pipeline, with the check
   * `perform_create` makes on the assignee also made before saving an update
   * (400 when the assignee is not a contributor of the issue's new project).
   * Besides, the ownership check of `perform_update` never refuses anyone the
   * permission class has admitted, and the author never changes.
   */
  function UpdateIssue(t: Tables, entries: Entries, cap: Capability, actor: RequestUser, scope: Option<nat>,
                       id: nat, input: IssueInput): (e: Effect<Reply>)
    requires Linked(t)
    ensures !IsAuthenticated(actor) ==> e == Effect(Refusal(actor), t, entries)
    ensures IsAuthenticated(actor) ==>
      var filled := Remember(entries, IssuesKey(actor.id, scope), VisibleIssues(t, actor.id, scope));
      (id !in VisibleIssues(t, actor.id, scope) ==> e == Effect(Reply(HTTP_404_NOT_FOUND, NotFound), t, filled))
      && (id in VisibleIssues(t, actor.id, scope) && !MayEdit(t, actor, id) ==>
            e == Effect(Reply(HTTP_403_FORBIDDEN, PermissionDenied), t, filled))
    ensures e.result.detail != OnlyAuthorOrAssigneeMessage
    ensures e.result.status == HTTP_200_OK <==>
      IsAuthenticated(actor) && id in VisibleIssues(t, actor.id, scope) && MayEdit(t, actor, id)
      && ValidateIssue(t, input, Some(id), t.issues[id].author).Some?
      && AssigneeFits(t, ValidateIssue(t, input, Some(id), t.issues[id].author).value)
    ensures e.result.status != HTTP_200_OK ==> e.tables == t
    ensures e.result.status == HTTP_200_OK ==>
      var issue := ValidateIssue(t, input, Some(id), t.issues[id].author).value;
      issue.author == t.issues[id].author
      && e.tables == t.(issues := t.issues[id := issue])
      && e.entries == IssueListEntries(Remember(entries, IssuesKey(actor.id, scope), VisibleIssues(t, actor.id, scope)),
                                       cap, actor.id, t.issues[id].project)
  {
    if !actor.Known? then Effect(Refusal(actor), t, entries)
    else
      var filled := Remember(entries, IssuesKey(actor.id, scope), VisibleIssues(t, actor.id, scope));
      if id !in VisibleIssues(t, actor.id, scope) then Effect(Reply(HTTP_404_NOT_FOUND, NotFound), t, filled)
      else if !ReadOnlyUnlessAuthorObject(t, actor, PUT, IssueObj(id)) then Effect(Refusal(actor), t, filled)
      else match ValidateIssue(t, input, Some(id), t.issues[id].author)
        case None => Effect(Reply(HTTP_400_BAD_REQUEST, Invalid), t, filled)
        case Some(issue) =>
          if !MayEdit(t, actor, id) then Effect(Reply(HTTP_403_FORBIDDEN, OnlyAuthorOrAssigneeMessage), t, filled)
          else if !AssigneeFits(t, issue) then Effect(Reply(HTTP_400_BAD_REQUEST, AssigneeElsewhereMessage), t, filled)
          else
            Effect(Reply(HTTP_200_OK, Serialized), t.(issues := t.issues[id := issue]),
                   IssueListEntries(filled, cap, actor.id, t.issues[id].project))
  }

  /** Replacing an issue by one whose title is free in its project keeps every uniqueness rule. */
  lemma {:induction false} ReplaceIssueKeepsUniqueRows(t: Tables, id: IssueId, issue: Issue)
    requires UniqueRows(t) && id in t.issues && !IssueTitleTaken(t, issue.project, issue.title, Some(id))
    ensures UniqueRows(t.(issues := t.issues[id := issue]))
  {
    var r := t.(issues := t.issues[id := issue]);
    forall a, b | a in r.issues && b in r.issues && a != b && r.issues[a].project == r.issues[b].project
      ensures r.issues[a].title != r.issues[b].title
    {
      if a == id {
        assert Some(b) != Some(id);
      } else if b == id {
        assert Some(a) != Some(id);
      }
    }
  }

  /** Replacing an issue by one that points at stored rows, with a fitting assignee, keeps the links. */
  lemma {:induction false} ReplaceIssueKeepsLinks(t: Tables, id: IssueId, issue: Issue)
    requires KeysBelowSerial(t) && Linked(t) && AssigneesInProject(t) && id in t.issues
    requires issue.author in t.users && issue.project in t.projects && AssigneeFits(t, issue)
    ensures var r := t.(issues := t.issues[id := issue]);
      KeysBelowSerial(r) && Linked(r) && AssigneesInProject(r)
  {
  }

  /** Replacing an issue by a valid one with a fitting assignee keeps the store consistent. */
  lemma ReplaceIssueKeepsConsistency(t: Tables, id: IssueId, issue: Issue)
    requires Consistent(t) && id in t.issues && !IssueTitleTaken(t, issue.project, issue.title, Some(id))
    requires issue.author in t.users && issue.project in t.projects && AssigneeFits(t, issue)
    ensures Consistent(t.(issues := t.issues[id := issue]))
  {
    ReplaceIssueKeepsUniqueRows(t, id, issue);
    ReplaceIssueKeepsLinks(t, id, issue);
    SameMembershipTables(t.(issues := t.issues[id := issue]), t);
  }

  /** An update that succeeds under the corrected rule keeps the store consistent. */
  lemma {:induction false} UpdateIssueKeepsConsistency(t: Tables, entries: Entries, cap: Capability, actor: RequestUser,
                                                      scope: Option<nat>, id: nat, input: IssueInput)
    requires Consistent(t)
    ensures Consistent(UpdateIssue(t, entries, cap, actor, scope, id, input).tables)
  {
    var e := UpdateIssue(t, entries, cap, actor, scope, id, input);
    if e.result.status == HTTP_200_OK {
      var issue := ValidateIssue(t, input, Some(id), t.issues[id].author).value;
      assert id in t.issues && issue.author in t.users && issue.project in t.projects;
      assert !IssueTitleTaken(t, issue.project, issue.title, Some(id)) && AssigneeFits(t, issue);
      assert e.tables == t.(issues := t.issues[id := issue]);
      ReplaceIssueKeepsConsistency(t, id, issue);
    }
  }

  // A small consistent store: user 1 authors projects 2 and 3 (AUTHOR rows 4
  // and 5); issue 6 of project 2 is assigned to row 4.

  function SampleStore(): Tables {
    Tables(
      map[1 := User("alice", seq(32, _ => 0), 30, false, false, true, true)],
      map[2 := Project("Alpha", "first", BackEnd, 1), 3 := Project("Beta", "second", BackEnd, 1)],
      map[4 := Contributor(1, 2, AuthorPermission, AuthorRole), 5 := Contributor(1, 3, AuthorPermission, AuthorRole)],
      map[6 := Issue("Crash", "steps", Bug, Low, Todo, 1, Some(4), 2)],
      map[],
      7)
  }

  /** A full update of issue 6 that keeps every field but moves it to project 3. */
  const MoveToBeta: IssueInput := IssueInput(Some("Crash"), Some("steps"), Some("BUG"), Some("LOW"), None, Absent, Some(3))

  lemma SampleStoreKeysAndLinks()
    ensures KeysBelowSerial(SampleStore()) && Linked(SampleStore()) && AssigneesInProject(SampleStore())
  {
  }

  lemma SampleStoreUsers()
    ensures ValidUsers(SampleStore())
  {
  }

  lemma SampleStoreRows()
    ensures UniqueRows(SampleStore())
  {
  }

  lemma SampleStoreAuthorRows()
    ensures AuthorRows(SampleStore())
  {
    var t := SampleStore();
    assert t.contributors[4].user == 1 && t.contributors[4].project == 2;
    assert t.contributors[5].user == 1 && t.contributors[5].project == 3;
  }

  lemma SampleStoreConsistent()
    ensures Consistent(SampleStore())
  {
    SampleStoreKeysAndLinks();
    SampleStoreUsers();
    SampleStoreRows();
    SampleStoreAuthorRows();
  }

  /** The move validates: the kept assignee is not checked against project 3. */
  lemma MoveValidates()
    ensures ValidateIssue(SampleStore(), MoveToBeta, Some(6), 1) == Some(Issue("Crash", "steps", Bug, Low, Todo, 1, Some(4), 3))
  {
    assert Trim("Crash") == "Crash";
    assert Trim("steps") == "steps";
  }

  /**
   * As written, the author of issue 6 may move it to project 3: the update
   * succeeds, and the stored issue is then assigned to a contributor of
   * project 2, which breaks the rule the create path enforces.
   */
  lemma UpdateAsWrittenStrandsAssignee(entries: Entries, cap: Capability)
    ensures Consistent(SampleStore())
    ensures var e := UpdateIssueAsWritten(SampleStore(), entries, cap, Known(1), None, 6, MoveToBeta);
      e.result.status == HTTP_200_OK && !AssigneesInProject(e.tables)
  {
    SampleStoreConsistent();
    var t := SampleStore();
    MoveValidates();
    assert t.issues[6].author == 1;
    assert IsMember(t, 2, 1) by { assert t.contributors[4].user == 1 && t.contributors[4].project == 2; }
    assert 6 in VisibleIssues(t, 1, None);
    var e := UpdateIssueAsWritten(t, entries, cap, Known(1), None, 6, MoveToBeta);
    assert e.tables.issues[6].assignee == Some(4) && e.tables.issues[6].project == 3;
  }

  /** With the corrected rule the same request is refused and nothing changes. */
  lemma UpdateRefusesStrandedAssignee(entries: Entries, cap: Capability)
    ensures var e := UpdateIssue(SampleStore(), entries, cap, Known(1), None, 6, MoveToBeta);
      e.result == Reply(HTTP_400_BAD_REQUEST, AssigneeElsewhereMessage) && e.tables == SampleStore()
  {
    var t := SampleStore();
    MoveValidates();
    assert IsMember(t, 2, 1) by { assert t.contributors[4].user == 1 && t.contributors[4].project == 2; }
    assert 6 in VisibleIssues(t, 1, None);
  }

  // ---------------------------------------------------------------------
  // destroy
  // ---------------------------------------------------------------------

  function IssueDeletedMessage(title: string): string {
    "L’issue '" + title + "' a bien été supprimée."
  }

  /**
   * `destroy`: 401 without an authenticated user, 404 outside the queryset
   * (whose value is cached on the way), 403 unless the user is the author or
   * the assignee; otherwise the issue goes with its comments, the issue
   * lists are invalidated, and 200.
   */
  function DestroyIssue(t: Tables, entries: Entries, cap: Capability, actor: RequestUser, scope: Option<nat>, id: nat): (e: Effect<Reply>)
    requires Linked(t)
    ensures !IsAuthenticated(actor) ==> e == Effect(Refusal(actor), t, entries)
    ensures e.result.status != HTTP_200_OK ==> e.tables == t
    ensures e.result.status == HTTP_200_OK <==>
      IsAuthenticated(actor) && id in VisibleIssues(t, actor.id, scope) && MayEdit(t, actor, id)
    ensures e.result.status == HTTP_200_OK ==>
      e.result.detail == IssueDeletedMessage(t.issues[id].title)
      && e.tables == Cascade(t, JustIssue(id))
      && e.entries == IssueListEntries(Remember(entries, IssuesKey(actor.id, scope), VisibleIssues(t, actor.id, scope)),
                                       cap, actor.id, t.issues[id].project)
  {
    if !actor.Known? then Effect(Refusal(actor), t, entries)
    else
      var filled := Remember(entries, IssuesKey(actor.id, scope), VisibleIssues(t, actor.id, scope));
      if id !in VisibleIssues(t, actor.id, scope) then Effect(Reply(HTTP_404_NOT_FOUND, NotFound), t, filled)
      else if !ReadOnlyUnlessAuthorObject(t, actor, DELETE, IssueObj(id)) then Effect(Refusal(actor), t, filled)
      else
        Effect(Reply(HTTP_200_OK, IssueDeletedMessage(t.issues[id].title)), Cascade(t, JustIssue(id)),
               IssueListEntries(filled, cap, actor.id, t.issues[id].project))
  }

  /** Removing an issue keeps the store consistent. */
  lemma RemoveIssueKeepsConsistency(t: Tables, id: IssueId)
    requires Consistent(t)
    ensures Consistent(Cascade(t, JustIssue(id)))
  {
    CascadeKeepsConsistency(t, JustIssue(id));
  }

  /** A delete keeps the store consistent and leaves no comment on the deleted issue. */
  lemma {:induction false} DestroyIssueKeepsConsistency(t: Tables, entries: Entries, cap: Capability, actor: RequestUser,
                                                       scope: Option<nat>, id: nat)
    requires Consistent(t)
    ensures var e := DestroyIssue(t, entries, cap, actor, scope, id);
      Consistent(e.tables)
      && (e.result.status == HTTP_200_OK ==> id !in e.tables.issues && forall m :: m in e.tables.comments ==> e.tables.comments[m].issue != id)
  {
    var e := DestroyIssue(t, entries, cap, actor, scope, id);
    if e.result.status == HTTP_200_OK {
      assert e.tables == Cascade(t, JustIssue(id));
      RemoveIssueKeepsConsistency(t, id);
    } else {
      assert e.tables == t;
    }
  }

  // ---------------------------------------------------------------------
  // The view set
  // ---------------------------------------------------------------------

  class IssueViewSet {
    const db: Database

    constructor (db: Database)
      ensures this.db == db
    {
      this.db := db;
    }

    /**
     * `get_queryset`: the value cached under
     * `issues_user_{id}_project_{project or 'all'}` when there is one, else
     * the query's answer, which is then cached.
     */
    method GetQueryset(user: UserId, scope: Option<nat>) returns (ids: set<IssueId>)
      modifies db.cache
      ensures db.cache.entries == Remember(old(db.cache.entries), IssuesKey(user, scope), VisibleIssues(db.tables, user, scope))
      ensures ids == db.cache.entries[IssuesKey(user, scope)]
    {
      var key := IssuesKey(user, scope);
      var cached := db.cache.Get(key);
      if cached.Some? {
        return cached.value;
      }
      ids := VisibleIssues(db.tables, user, scope);
      db.cache.Set(key, ids);
    }

    method List(actor: RequestUser, scope: Option<nat>) returns (r: Listing)
      modifies db.cache
      ensures Effect(r, db.tables, db.cache.entries) == ListIssues(old(db.tables), old(db.cache.entries), actor, scope)
    {
      if !actor.Known? {
        return Message(Refusal(actor));
      }
      if !InSomeProject(db.tables, actor.id) {
        return Message(Reply(HTTP_403_FORBIDDEN, NoProjectMessage));
      }
      var ids := GetQueryset(actor.id, scope);
      r := Items(ids);
    }

    method Create(actor: RequestUser, input: IssueInput) returns (r: Reply)
      requires Linked(db.tables)
      modifies db, db.cache
      ensures Effect(r, db.tables, db.cache.entries) == CreateIssue(old(db.tables), old(db.cache.entries), db.cache.capability, actor, input)
    {
      if !actor.Known? {
        return Refusal(actor);
      }
      var validated := ValidateIssue(db.tables, input, None, actor.id);
      if validated.None? {
        return Reply(HTTP_400_BAD_REQUEST, Invalid);
      }
      var issue := validated.value;
      if !IsMemberOrAuthor(db.tables, issue.project, actor.id) {
        return Reply(HTTP_403_FORBIDDEN, NotContributorMessage);
      }
      if issue.assignee.Some? && db.tables.contributors[issue.assignee.value].project != issue.project {
        return Reply(HTTP_400_BAD_REQUEST, AssigneeElsewhereMessage);
      }
      var message := IssueCreatedMessage(issue.title, AssigneeName(db.tables, issue.assignee));
      db.tables := AddIssue(db.tables, issue);
      db.cache.SafeDeletePattern(IssuesUserPattern(actor.id));
      db.cache.SafeDeletePattern(IssuesProjectPattern(issue.project));
      r := Reply(HTTP_201_CREATED, message);
    }

    /** A full update, with the assignee checked against the issue's new project. */
    method Update(actor: RequestUser, scope: Option<nat>, id: nat, input: IssueInput) returns (r: Reply)
      requires Linked(db.tables)
      modifies db, db.cache
      ensures Effect(r, db.tables, db.cache.entries)
           == UpdateIssue(old(db.tables), old(db.cache.entries), db.cache.capability, actor, scope, id, input)
    {
      if !actor.Known? {
        return Refusal(actor);
      }
      var visible := GetQueryset(actor.id, scope);
      if id !in VisibleIssues(db.tables, actor.id, scope) {
        return Reply(HTTP_404_NOT_FOUND, NotFound);
      }
      if !ReadOnlyUnlessAuthorObject(db.tables, actor, PUT, IssueObj(id)) {
        return Refusal(actor);
      }
      var validated := ValidateIssue(db.tables, input, Some(id), db.tables.issues[id].author);
      if validated.None? {
        return Reply(HTTP_400_BAD_REQUEST, Invalid);
      }
      var issue := validated.value;
      // perform_update looks the issue up again; the cache entry is now present.
      visible := GetQueryset(actor.id, scope);
      if !MayEdit(db.tables, actor, id) {
        return Reply(HTTP_403_FORBIDDEN, OnlyAuthorOrAssigneeMessage);
      }
      if !AssigneeFits(db.tables, issue) {
        return Reply(HTTP_400_BAD_REQUEST, AssigneeElsewhereMessage);
      }
      var project := db.tables.issues[id].project;
      db.tables := db.tables.(issues := db.tables.issues[id := issue]);
      db.cache.SafeDeletePattern(IssuesUserPattern(actor.id));
      db.cache.SafeDeletePattern(IssuesProjectPattern(project));
      r := Reply(HTTP_200_OK, Serialized);
    }

    method Destroy(actor: RequestUser, scope: Option<nat>, id: nat) returns (r: Reply)
      requires Linked(db.tables)
      modifies db, db.cache
      ensures Effect(r, db.tables, db.cache.entries)
           == DestroyIssue(old(db.tables), old(db.cache.entries), db.cache.capability, actor, scope, id)
    {
      if !actor.Known? {
        return Refusal(actor);
      }
      var visible := GetQueryset(actor.id, scope);
      if id !in VisibleIssues(db.tables, actor.id, scope) {
        return Reply(HTTP_404_NOT_FOUND, NotFound);
      }
      if !ReadOnlyUnlessAuthorObject(db.tables, actor, DELETE, IssueObj(id)) {
        return Refusal(actor);
      }
      var title := db.tables.issues[id].title;
      var project := db.tables.issues[id].project;
      db.tables := Cascade(db.tables, JustIssue(id));
      db.cache.SafeDeletePattern(IssuesUserPattern(actor.id));
      db.cache.SafeDeletePattern(IssuesProjectPattern(project));
      r := Reply(HTTP_200_OK, IssueDeletedMessage(title));
    }
  }
}
