/**
 * The project entities (Project, Contributor, Issue, Comment), their choice
 * fields, the store holding them next to the users, the constraints the API
 * keeps on that store, the ON DELETE CASCADE chains and the `__str__` forms.
 */
module ProjectModels {
  import opened Wrappers
  import opened Text
  import opened Uuids
  import opened UserModels

  type ProjectId = nat
  type ContributorId = nat
  type IssueId = nat
  type CommentId = nat

  // ---------------------------------------------------------------------
  // Choice fields: each value and the code stored for it
  // ---------------------------------------------------------------------

  datatype ProjectType = BackEnd | FrontEnd | IOS | Android

  function TypeCode(t: ProjectType): string {
    match t
    case BackEnd => "BACK_END"
    case FrontEnd => "FRONT_END"
    case IOS => "iOS"
    case Android => "ANDROID"
  }

  /** The `type` choice field: a code is accepted iff it is one of the four choices. */
  function ParseType(s: string): (r: Option<ProjectType>)
    ensures r.Some? ==> TypeCode(r.value) == s
    ensures r.None? ==> forall t: ProjectType :: TypeCode(t) != s
  {
    if s == "BACK_END" then Some(BackEnd)
    else if s == "FRONT_END" then Some(FrontEnd)
    else if s == "iOS" then Some(IOS)
    else if s == "ANDROID" then Some(Android)
    else None
  }

  datatype Permission = AuthorPermission | ContributorPermission

  function PermissionCode(p: Permission): string {
    match p
    case AuthorPermission => "AUTHOR"
    case ContributorPermission => "CONTRIBUTOR"
  }

  /** The `permission` choice field. */
  function ParsePermission(s: string): (r: Option<Permission>)
    ensures r.Some? ==> PermissionCode(r.value) == s
    ensures r.None? ==> forall p: Permission :: PermissionCode(p) != s
  {
    if s == "AUTHOR" then Some(AuthorPermission)
    else if s == "CONTRIBUTOR" then Some(ContributorPermission)
    else None
  }

  /** The two role labels the views write (the column itself holds any string). */
  const AuthorRole: string := "Auteur et Contributeur du projet"
  const ContributorRole: string := "Contributeur"

  datatype Tag = Bug | Feature | Task

  function TagCode(t: Tag): string {
    match t
    case Bug => "BUG"
    case Feature => "FEATURE"
    case Task => "TASK"
  }

  /** The `tag` choice field. */
  function ParseTag(s: string): (r: Option<Tag>)
    ensures r.Some? ==> TagCode(r.value) == s
    ensures r.None? ==> forall t: Tag :: TagCode(t) != s
  {
    if s == "BUG" then Some(Bug)
    else if s == "FEATURE" then Some(Feature)
    else if s == "TASK" then Some(Task)
    else None
  }

  datatype Priority = Low | Medium | High

  function PriorityCode(p: Priority): string {
    match p
    case Low => "LOW"
    case Medium => "MEDIUM"
    case High => "HIGH"
  }

  /** The `priority` choice field. */
  function ParsePriority(s: string): (r: Option<Priority>)
    ensures r.Some? ==> PriorityCode(r.value) == s
    ensures r.None? ==> forall p: Priority :: PriorityCode(p) != s
  {
    if s == "LOW" then Some(Low)
    else if s == "MEDIUM" then Some(Medium)
    else if s == "HIGH" then Some(High)
    else None
  }

  datatype Status = Todo | InProgress | Finished

  function StatusCode(s: Status): string {
    match s
    case Todo => "TODO"
    case InProgress => "IN_PROGRESS"
    case Finished => "FINISHED"
  }

  /** The `status` choice field; an absent value takes the default. */
  function ParseStatus(s: Option<string>): (r: Option<Status>)
    ensures s.None? ==> r == Some(DefaultStatus)
    ensures s.Some? && r.Some? ==> StatusCode(r.value) == s.value
    ensures s.Some? && r.None? ==> forall st: Status :: StatusCode(st) != s.value
  {
    match s
    case None => Some(DefaultStatus)
    case Some(code) =>
      if code == "TODO" then Some(Todo)
      else if code == "IN_PROGRESS" then Some(InProgress)
      else if code == "FINISHED" then Some(Finished)
      else None
  }

  const DefaultStatus: Status := Todo

  // ---------------------------------------------------------------------
  // Rows (the primary key is the map key of the store)
  // ---------------------------------------------------------------------

  /** `max_length` of the `title` columns of projects and issues. */
  const TitleMaxLength: nat := 255

  datatype Project = Project(title: string, description: string, kind: ProjectType, author: UserId)

  datatype Contributor = Contributor(user: UserId, project: ProjectId, permission: Permission, role: string)

  datatype Issue = Issue(
    title: string,
    description: string,
    tag: Tag,
    priority: Priority,
    status: Status,
    author: UserId,
    assignee: Option<ContributorId>,
    project: ProjectId)

  datatype Comment = Comment(uuid: Uuid, description: string, author: UserId, issue: IssueId)

  /** The database: one table per entity, and the next free primary key. */
  datatype Tables = Tables(
    users: map<UserId, User>,
    projects: map<ProjectId, Project>,
    contributors: map<ContributorId, Contributor>,
    issues: map<IssueId, Issue>,
    comments: map<CommentId, Comment>,
    serial: nat)

  const EmptyTables: Tables := Tables(map[], map[], map[], map[], map[], 1)

  // ---------------------------------------------------------------------
  // Relations the permissions and views ask about
  // ---------------------------------------------------------------------

  /** `project.contributors.filter(user=user).exists()`. */
  predicate IsMember(t: Tables, project: ProjectId, user: UserId) {
    exists c :: c in t.contributors && t.contributors[c].user == user && t.contributors[c].project == project
  }

  /** `Project.objects.filter(contributors__user=user).exists()`. */
  predicate InSomeProject(t: Tables, user: UserId) {
    exists c :: c in t.contributors && t.contributors[c].user == user && t.contributors[c].project in t.projects
  }

  /** Member of the project, or its author. */
  predicate IsMemberOrAuthor(t: Tables, project: ProjectId, user: UserId) {
    IsMember(t, project, user) || (project in t.projects && t.projects[project].author == user)
  }

  // ---------------------------------------------------------------------
  // Constraints kept on the store
  // ---------------------------------------------------------------------

  /** Primary keys start at 1, and every key in use is below the next one to hand out. */
  ghost predicate KeysBelowSerial(t: Tables) {
    0 < t.serial
    && (forall k :: k in t.users ==> 0 < k < t.serial)
    && (forall k :: k in t.projects ==> 0 < k < t.serial)
    && (forall k :: k in t.contributors ==> 0 < k < t.serial)
    && (forall k :: k in t.issues ==> 0 < k < t.serial)
    && (forall k :: k in t.comments ==> 0 < k < t.serial)
  }

  /** Every foreign key names an existing row. */
  ghost predicate Linked(t: Tables) {
    (forall p :: p in t.projects ==> t.projects[p].author in t.users)
    && (forall c :: c in t.contributors ==>
          t.contributors[c].user in t.users && t.contributors[c].project in t.projects)
    && (forall i :: i in t.issues ==>
          t.issues[i].author in t.users && t.issues[i].project in t.projects
          && (t.issues[i].assignee.Some? ==> t.issues[i].assignee.value in t.contributors))
    && (forall m :: m in t.comments ==>
          t.comments[m].author in t.users && t.comments[m].issue in t.issues)
  }

  /** Usernames and user uuids are unique, and every account passed `full_clean`'s field checks. */
  ghost predicate ValidUsers(t: Tables) {
    UniqueUsernames(t.users) && UniqueUuids(t.users)
    && UsersAdmitted(t.users)
  }

  /** The unique-together constraints of the four project tables. */
  ghost predicate UniqueRows(t: Tables) {
    (forall a, b :: a in t.projects && b in t.projects && a != b && t.projects[a].author == t.projects[b].author
       ==> t.projects[a].title != t.projects[b].title)
    && (forall a, b :: a in t.contributors && b in t.contributors && a != b
          && t.contributors[a].user == t.contributors[b].user
          ==> t.contributors[a].project != t.contributors[b].project)
    && (forall a, b :: a in t.issues && b in t.issues && a != b && t.issues[a].project == t.issues[b].project
          ==> t.issues[a].title != t.issues[b].title)
    && (forall a, b :: a in t.comments && b in t.comments && a != b ==>
          t.comments[a].uuid != t.comments[b].uuid
          && (t.comments[a].issue == t.comments[b].issue && t.comments[a].author == t.comments[b].author
              ==> t.comments[a].description != t.comments[b].description))
  }

  /**
   * The AUTHOR rows: a contributor row has permission AUTHOR exactly when its
   * user authored the project, and every project has its author's row.
   */
  ghost predicate AuthorRows(t: Tables) {
    (forall c :: c in t.contributors && t.contributors[c].project in t.projects ==>
       (t.contributors[c].permission == AuthorPermission <==>
        t.contributors[c].user == t.projects[t.contributors[c].project].author))
    && (forall p :: p in t.projects ==> IsMember(t, p, t.projects[p].author))
  }

  /** An assigned contributor belongs to the issue's own project. */
  ghost predicate AssigneesInProject(t: Tables) {
    forall i :: i in t.issues && t.issues[i].assignee.Some? && t.issues[i].assignee.value in t.contributors ==>
      t.contributors[t.issues[i].assignee.value].project == t.issues[i].project
  }

  /** Everything the API keeps true of its store. */
  ghost predicate Consistent(t: Tables) {
    KeysBelowSerial(t) && Linked(t) && ValidUsers(t) && UniqueRows(t) && AuthorRows(t) && AssigneesInProject(t)
  }

  lemma EmptyConsistent()
    ensures Consistent(EmptyTables)
  {
  }

  /** The rules on users and memberships look at the users, projects and contributors only. */
  lemma {:induction false} SameMembershipTables(r: Tables, t: Tables)
    requires r.users == t.users && r.projects == t.projects && r.contributors == t.contributors
    requires ValidUsers(t) && AuthorRows(t)
    ensures ValidUsers(r) && AuthorRows(r)
  {
    forall p | p in r.projects ensures IsMember(r, p, r.projects[p].author) {
      var c :| c in t.contributors && t.contributors[c].user == t.projects[p].author && t.contributors[c].project == p;
      assert c in r.contributors;
    }
  }

  /** In a consistent store the project author is always a member. */
  lemma AuthorIsMember(t: Tables, p: ProjectId, u: UserId)
    requires Consistent(t)
    ensures IsMemberOrAuthor(t, p, u) <==> IsMember(t, p, u)
  {
  }

  // ---------------------------------------------------------------------
  // ON DELETE CASCADE
  // ---------------------------------------------------------------------

  /** The rows a delete starts from. */
  datatype Doomed = Doomed(
    users: set<UserId>,
    projects: set<ProjectId>,
    contributors: set<ContributorId>,
    issues: set<IssueId>,
    comments: set<CommentId>)

  function JustUser(u: UserId): Doomed { Doomed({u}, {}, {}, {}, {}) }
  function JustProject(p: ProjectId): Doomed { Doomed({}, {p}, {}, {}, {}) }
  function JustContributor(c: ContributorId): Doomed { Doomed({}, {}, {c}, {}, {}) }
  function JustIssue(i: IssueId): Doomed { Doomed({}, {}, {}, {i}, {}) }

  /**
   * Everything a delete of the seeds removes: users take their projects,
   * memberships, issues and comments; projects take their contributors and
   * issues; contributors take the issues assigned to them; issues take their
   * comments. The foreign keys only point from later to earlier tables in
   * this order, so one pass reaches the fixpoint.
   */
  function Closure(t: Tables, d: Doomed): Doomed {
    var P := d.projects + (set p | p in t.projects && t.projects[p].author in d.users);
    var C := d.contributors + (set c | c in t.contributors &&
               (t.contributors[c].user in d.users || t.contributors[c].project in P));
    var I := d.issues + (set i | i in t.issues &&
               (t.issues[i].author in d.users || t.issues[i].project in P
                || (t.issues[i].assignee.Some? && t.issues[i].assignee.value in C)));
    var M := d.comments + (set m | m in t.comments &&
               (t.comments[m].author in d.users || t.comments[m].issue in I));
    Doomed(d.users, P, C, I, M)
  }

  /** `r` keeps a subset of the rows of `t`, each unchanged. */
  ghost predicate SubStore(r: Tables, t: Tables) {
    r.serial == t.serial
    && r.users.Keys <= t.users.Keys && (forall k :: k in r.users ==> r.users[k] == t.users[k])
    && r.projects.Keys <= t.projects.Keys && (forall k :: k in r.projects ==> r.projects[k] == t.projects[k])
    && r.contributors.Keys <= t.contributors.Keys
    && (forall k :: k in r.contributors ==> r.contributors[k] == t.contributors[k])
    && r.issues.Keys <= t.issues.Keys && (forall k :: k in r.issues ==> r.issues[k] == t.issues[k])
    && r.comments.Keys <= t.comments.Keys && (forall k :: k in r.comments ==> r.comments[k] == t.comments[k])
  }

  /** No seed row is left. */
  ghost predicate SeedsGone(r: Tables, d: Doomed) {
    (forall k :: k in d.users ==> k !in r.users)
    && (forall k :: k in d.projects ==> k !in r.projects)
    && (forall k :: k in d.contributors ==> k !in r.contributors)
    && (forall k :: k in d.issues ==> k !in r.issues)
    && (forall k :: k in d.comments ==> k !in r.comments)
  }

  /** Every removed row was a seed or pointed to a removed row. */
  ghost predicate OnlyCascaded(t: Tables, r: Tables, d: Doomed) {
    (forall k :: k in t.users && k !in r.users ==> k in d.users)
    && (forall k :: k in t.projects && k !in r.projects ==>
          k in d.projects || t.projects[k].author !in r.users)
    && (forall k :: k in t.contributors && k !in r.contributors ==>
          k in d.contributors || t.contributors[k].user !in r.users || t.contributors[k].project !in r.projects)
    && (forall k :: k in t.issues && k !in r.issues ==>
          k in d.issues || t.issues[k].author !in r.users || t.issues[k].project !in r.projects
          || (t.issues[k].assignee.Some? && t.issues[k].assignee.value !in r.contributors))
    && (forall k :: k in t.comments && k !in r.comments ==>
          k in d.comments || t.comments[k].author !in r.users || t.comments[k].issue !in r.issues)
  }

  /**
   * Deleting the seeds with every CASCADE they trigger: the result keeps a
   * subset of the rows, loses every seed, loses nothing that did not depend
   * on a removed row, and leaves no dangling foreign key behind.
   */
  function Cascade(t: Tables, d: Doomed): (r: Tables)
    ensures SubStore(r, t)
    ensures SeedsGone(r, d)
    ensures OnlyCascaded(t, r, d)
    ensures Linked(t) ==> Linked(r)
  {
    var k := Closure(t, d);
    t.(users := t.users - k.users,
       projects := t.projects - k.projects,
       contributors := t.contributors - k.contributors,
       issues := t.issues - k.issues,
       comments := t.comments - k.comments)
  }

  /** Removing rows never breaks a uniqueness constraint, the age rule or the key bound. */
  lemma SubStoreKeepsUniqueness(r: Tables, t: Tables)
    requires SubStore(r, t) && KeysBelowSerial(t) && ValidUsers(t) && UniqueRows(t)
    ensures KeysBelowSerial(r) && ValidUsers(r) && UniqueRows(r)
  {
  }

  /**
   * A cascade whose seeds hold no AUTHOR contributor row keeps the store
   * consistent: the author's row of a surviving project survives with it, and
   * an issue survives only together with its assignee.
   */
  lemma {:induction false} CascadeKeepsConsistency(t: Tables, d: Doomed)
    requires Consistent(t)
    requires forall c :: c in d.contributors && c in t.contributors ==>
               t.contributors[c].permission != AuthorPermission
    ensures Consistent(Cascade(t, d))
  {
    var r := Cascade(t, d);
    var k := Closure(t, d);
    SubStoreKeepsUniqueness(r, t);
    forall p | p in r.projects
      ensures IsMember(r, p, r.projects[p].author)
    {
      var a := t.projects[p].author;
      var c :| c in t.contributors && t.contributors[c].user == a && t.contributors[c].project == p;
      assert t.contributors[c].permission == AuthorPermission;
      assert a !in d.users;
      assert c !in k.contributors;
      assert c in r.contributors;
    }
  }

  // ---------------------------------------------------------------------
  // `__str__`
  // ---------------------------------------------------------------------

  /** `str(project)`: the title, then the type code in parentheses. */
  function ProjectStr(p: Project): (r: string)
    ensures p.title <= r
    ensures Contains(r, TypeCode(p.kind))
  {
    ContainsInfix(p.title + " (", TypeCode(p.kind), ")");
    p.title + " (" + TypeCode(p.kind) + ")"
  }

  /**
   * Two projects with the same title print alike exactly when they have the
   * same type: the type code can be read back from the printed text.
   */
  lemma ProjectStrShowsType(p: Project, q: Project)
    requires p.title == q.title
    ensures ProjectStr(p) == ProjectStr(q) <==> p.kind == q.kind
  {
    var head := p.title + " (";
    if ProjectStr(p) == ProjectStr(q) {
      var r := ProjectStr(p);
      assert r == head + TypeCode(p.kind) + ")";
      assert r == head + TypeCode(q.kind) + ")";
      assert TypeCode(p.kind) == r[|head|..|r| - 1];
      assert TypeCode(q.kind) == r[|head|..|r| - 1];
    }
  }

  /** `str(contributor)`: the username, then role and project title in parentheses. */
  function ContributorStr(username: string, role: string, projectTitle: string): (r: string)
    ensures username <= r
    ensures Contains(r, role) && Contains(r, projectTitle)
  {
    var r := username + " (" + role + " - " + projectTitle + ")";
    assert r == (username + " (") + role + (" - " + projectTitle + ")");
    assert r == (username + " (" + role + " - ") + projectTitle + ")";
    ContainsInfix(username + " (", role, " - " + projectTitle + ")");
    ContainsInfix(username + " (" + role + " - ", projectTitle, ")");
    r
  }

  /** `str(issue)`: the project title in brackets, the title, then the tag code. */
  function IssueStr(projectTitle: string, i: Issue): (r: string)
    ensures ("[" + projectTitle + "] ") <= r
    ensures Contains(r, i.title) && Contains(r, TagCode(i.tag))
  {
    var r := "[" + projectTitle + "] " + i.title + " (" + TagCode(i.tag) + ")";
    assert r == ("[" + projectTitle + "] ") + i.title + (" (" + TagCode(i.tag) + ")");
    ContainsInfix("[" + projectTitle + "] ", i.title, " (" + TagCode(i.tag) + ")");
    ContainsInfix("[" + projectTitle + "] " + i.title + " (", TagCode(i.tag), ")");
    r
  }

  /** `str(comment)`: its uuid, its author's username and its issue's title. */
  function CommentStr(c: Comment, authorName: string, issueTitle: string): (r: string)
    ensures ("Comment " + Format(c.uuid)) <= r
    ensures Contains(r, authorName) && Contains(r, issueTitle)
  {
    var head := "Comment " + Format(c.uuid) + " by ";
    var r := head + authorName + " on " + issueTitle;
    assert r == head + authorName + (" on " + issueTitle);
    assert r == (head + authorName + " on ") + issueTitle + "";
    ContainsInfix(head, authorName, " on " + issueTitle);
    ContainsInfix(head + authorName + " on ", issueTitle, "");
    r
  }
}
