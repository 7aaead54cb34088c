/**
 * `CommentViewSet`: the comment list of a project member, and the creation of
 * a comment, which refuses a repeat of one of the author's comments on the
 * same issue even when it differs only in letter case.
 */
module CommentViews {
  import opened Wrappers
  import opened Text
  import opened Http
  import opened Uuids
  import opened UserModels
  import opened ProjectModels
  import opened ProjectSerializers
  import opened SerializerFields
  import opened Db

  /** `get_queryset`: every comment for a superuser, else the comments on issues of the user's projects. */
  function VisibleComments(t: Tables, user: UserId): (r: set<CommentId>)
    ensures r <= t.comments.Keys
    ensures !IsSuperuser(t, Known(user)) ==>
      forall m :: m in r <==> m in t.comments && t.comments[m].issue in t.issues
                              && IsMember(t, t.issues[t.comments[m].issue].project, user)
  {
    set m | m in t.comments && t.comments[m].issue in t.issues
            && (IsSuperuser(t, Known(user)) || IsMember(t, t.issues[t.comments[m].issue].project, user))
  }

  // ---------------------------------------------------------------------
  // list
  // ---------------------------------------------------------------------

  const NoIssueMessage: string := "Aucune issue trouvée."

  /** Some issue lies in a project the user is a member of, or in one the user authored. */
  predicate SeesSomeIssue(t: Tables, user: UserId) {
    (exists i :: i in t.issues && IsMember(t, t.issues[i].project, user))
    || (exists i :: i in t.issues && t.issues[i].project in t.projects && t.projects[t.issues[i].project].author == user)
  }

  /**
   * `list`: 401 without an authenticated user, 403 for a user in no project,
   * a 200 message when no issue lies in a project the user belongs to or
   * authored; otherwise the visible comments.
   */
  function ListComments(t: Tables, actor: RequestUser): (r: Listing)
    ensures r == Message(Refusal(actor)) <==> !IsAuthenticated(actor)
    ensures r == Message(Reply(HTTP_403_FORBIDDEN, NoProjectMessage)) <==>
              IsAuthenticated(actor) && !InSomeProject(t, actor.id)
    ensures r == Message(Reply(HTTP_200_OK, NoIssueMessage)) <==>
              IsAuthenticated(actor) && InSomeProject(t, actor.id) && !SeesSomeIssue(t, actor.id)
    ensures r.Items? <==> IsAuthenticated(actor) && InSomeProject(t, actor.id) && SeesSomeIssue(t, actor.id)
    ensures r.Items? ==> r.ids == VisibleComments(t, actor.id)
  {
    if !actor.Known? then Message(Refusal(actor))
    else if !InSomeProject(t, actor.id) then Message(Reply(HTTP_403_FORBIDDEN, NoProjectMessage))
    else if !SeesSomeIssue(t, actor.id) then Message(Reply(HTTP_200_OK, NoIssueMessage))
    else Items(VisibleComments(t, actor.id))
  }

  /** A non-superuser never lists a comment on an issue outside their projects. */
  lemma ListedCommentsAreMembers(t: Tables, user: UserId, m: CommentId)
    requires !IsSuperuser(t, Known(user))
    requires ListComments(t, Known(user)).Items? && m in ListComments(t, Known(user)).ids
    ensures m in t.comments && t.comments[m].issue in t.issues && IsMember(t, t.issues[t.comments[m].issue].project, user)
  {
  }

  // ---------------------------------------------------------------------
  // create
  // ---------------------------------------------------------------------

  /** The request body of a comment creation; None marks an absent key. */
  datatype CommentInput = CommentInput(description: Option<string>, issue: Option<int>)

  /** The issues the `issue` field offers: all of them to a superuser, else `get_filtered_issues`. */
  function SelectableIssues(t: Tables, user: UserId): (r: set<IssueId>)
    ensures r <= t.issues.Keys
    ensures IsSuperuser(t, Known(user)) ==> r == t.issues.Keys
  {
    if IsSuperuser(t, Known(user)) then t.issues.Keys else FilteredIssues(t, user)
  }

  const NotMemberMessage: string := "Vous devez être contributeur du projet."
  const DuplicateMessage: string := "Un commentaire identique existe déjà."

  /** `Comment.objects.filter(issue=issue, author_user=user, description__iexact=desc).exists()`. */
  predicate SimilarComment(t: Tables, issue: IssueId, author: UserId, description: string) {
    exists m :: m in t.comments && t.comments[m].issue == issue && t.comments[m].author == author
                && SameIgnoringCase(t.comments[m].description, description)
  }

  /** The unique `uuid` column already holds the generated value. */
  predicate UuidInUse(t: Tables, uuid: Uuid) {
    exists m :: m in t.comments && t.comments[m].uuid == uuid
  }

  function CommentAddedMessage(issueTitle: string): string {
    "Commentaire ajouté à l’issue '" + issueTitle + "'."
  }

  /** `serializer.save(author_user=user)`: the comment under the next key. */
  function AddComment(t: Tables, c: Comment): (r: Tables)
    ensures r == t.(comments := t.comments[t.serial := c], serial := t.serial + 1)
  {
    t.(comments := t.comments[t.serial := c], serial := t.serial + 1)
  }

  /**
   * `create` with `perform_create`: 401 without an authenticated user; 400
   * for a blank description or an issue the field does not offer; 403 unless
   * the user is a member or the author of the issue's project; 400 when the
   * user already made the same comment on the issue up to letter case, or
   * when the generated `uuid` is taken (the caught IntegrityError); otherwise
   * 201 and the comment is stored with the user as its author. `uuid` is the
   * value `uuid.uuid4()` draws.
   */
  function CreateComment(t: Tables, actor: RequestUser, input: CommentInput, uuid: Uuid): (o: Outcome<Reply>)
    ensures o.result.status != HTTP_201_CREATED ==> o.tables == t
    ensures !IsAuthenticated(actor) ==> o.result == Refusal(actor)
    ensures IsAuthenticated(actor) && (CleanText(input.description, None).Err? || input.issue.None?
              || input.issue.value < 0 || input.issue.value !in SelectableIssues(t, actor.id)) ==>
              o.result == Reply(HTTP_400_BAD_REQUEST, Invalid)
    ensures o.result.status == HTTP_201_CREATED <==>
      IsAuthenticated(actor) && CleanText(input.description, None).Ok?
      && input.issue.Some? && input.issue.value >= 0 && input.issue.value in SelectableIssues(t, actor.id)
      && IsMemberOrAuthor(t, t.issues[input.issue.value].project, actor.id)
      && !SimilarComment(t, input.issue.value, actor.id, CleanText(input.description, None).value)
      && !UuidInUse(t, uuid)
    ensures (IsAuthenticated(actor) && CleanText(input.description, None).Ok?
             && input.issue.Some? && input.issue.value >= 0 && input.issue.value in SelectableIssues(t, actor.id)
             && IsMemberOrAuthor(t, t.issues[input.issue.value].project, actor.id)
             && SimilarComment(t, input.issue.value, actor.id, CleanText(input.description, None).value)) ==>
        o.result == Reply(HTTP_400_BAD_REQUEST, DuplicateMessage)
    ensures o.result.status == HTTP_201_CREATED ==>
      var issue := input.issue.value as IssueId;
      o.tables == AddComment(t, Comment(uuid, CleanText(input.description, None).value, actor.id, issue))
      && o.result.detail == CommentAddedMessage(t.issues[issue].title)
  {
    if !actor.Known? then Outcome(Refusal(actor), t)
    else
      var description := CleanText(input.description, None);
      if description.Err? || input.issue.None? || input.issue.value < 0 || input.issue.value !in SelectableIssues(t, actor.id) then
        Outcome(Reply(HTTP_400_BAD_REQUEST, Invalid), t)
      else
        var issue := input.issue.value as IssueId;
        if !IsMemberOrAuthor(t, t.issues[issue].project, actor.id) then Outcome(Reply(HTTP_403_FORBIDDEN, NotMemberMessage), t)
        else if SimilarComment(t, issue, actor.id, description.value) then Outcome(Reply(HTTP_400_BAD_REQUEST, DuplicateMessage), t)
        else if UuidInUse(t, uuid) then Outcome(Reply(HTTP_400_BAD_REQUEST, DuplicateMessage), t)
        else
          Outcome(Reply(HTTP_201_CREATED, CommentAddedMessage(t.issues[issue].title)),
                  AddComment(t, Comment(uuid, description.value, actor.id, issue)))
  }

  /**
   * Posting a comment again, in any letter case, is refused once the first
   * post succeeded, whatever uuid the second post draws.
   */
  lemma {:induction false} RepeatInOtherCaseIsRefused(t: Tables, actor: RequestUser, first: CommentInput, again: CommentInput,
                                                      uuid1: Uuid, uuid2: Uuid)
    requires CreateComment(t, actor, first, uuid1).result.status == HTTP_201_CREATED
    requires again.issue == first.issue && CleanText(again.description, None).Ok?
    requires SameIgnoringCase(CleanText(again.description, None).value, CleanText(first.description, None).value)
    ensures CreateComment(CreateComment(t, actor, first, uuid1).tables, actor, again, uuid2).result
         == Reply(HTTP_400_BAD_REQUEST, DuplicateMessage)
  {
    var r := CreateComment(t, actor, first, uuid1).tables;
    var issue := first.issue.value as IssueId;
    var d1 := CleanText(first.description, None).value;
    var d2 := CleanText(again.description, None).value;
    assert r.comments[t.serial] == Comment(uuid1, d1, actor.id, issue);
    assert SimilarComment(r, issue, actor.id, d2);
    assert r.issues == t.issues && r.projects == t.projects && r.users == t.users;
    assert IsMemberOrAuthor(r, r.issues[issue].project, actor.id) by {
      if IsMember(t, t.issues[issue].project, actor.id) {
        var c :| c in t.contributors && t.contributors[c].user == actor.id && t.contributors[c].project == t.issues[issue].project;
        assert c in r.contributors;
      }
    }
    assert issue in SelectableIssues(r, actor.id);
  }

  /** The new comment is distinct from every stored one, exactly and by uuid. */
  lemma {:induction false} AddCommentKeepsUniqueRows(t: Tables, c: Comment)
    requires KeysBelowSerial(t) && UniqueRows(t) && !SimilarComment(t, c.issue, c.author, c.description) && !UuidInUse(t, c.uuid)
    ensures UniqueRows(AddComment(t, c))
  {
    var r := AddComment(t, c);
    forall a, b | a in r.comments && b in r.comments && a != b
      ensures r.comments[a].uuid != r.comments[b].uuid
      ensures r.comments[a].issue == r.comments[b].issue && r.comments[a].author == r.comments[b].author
              ==> r.comments[a].description != r.comments[b].description
    {
      if a == t.serial {
        assert !SameIgnoringCase(t.comments[b].description, c.description) || t.comments[b].issue != c.issue || t.comments[b].author != c.author;
      } else if b == t.serial {
        assert !SameIgnoringCase(t.comments[a].description, c.description) || t.comments[a].issue != c.issue || t.comments[a].author != c.author;
      }
    }
  }

  /** The new comment points at a stored user and issue, under a fresh key. */
  lemma {:induction false} AddCommentKeepsLinks(t: Tables, c: Comment)
    requires KeysBelowSerial(t) && Linked(t) && AssigneesInProject(t) && c.author in t.users && c.issue in t.issues
    ensures KeysBelowSerial(AddComment(t, c)) && Linked(AddComment(t, c)) && AssigneesInProject(AddComment(t, c))
  {
  }

  /** A created comment leaves the store consistent. */
  lemma {:induction false} CreateCommentKeepsConsistency(t: Tables, actor: RequestUser, input: CommentInput, uuid: Uuid)
    requires Consistent(t) && KnownUser(t, actor)
    ensures Consistent(CreateComment(t, actor, input, uuid).tables)
  {
    var o := CreateComment(t, actor, input, uuid);
    if o.result.status == HTTP_201_CREATED {
      var c := Comment(uuid, CleanText(input.description, None).value, actor.id, input.issue.value as IssueId);
      assert o.tables == AddComment(t, c);
      AddCommentKeepsUniqueRows(t, c);
      AddCommentKeepsLinks(t, c);
      SameMembershipTables(AddComment(t, c), t);
    }
  }

  // ---------------------------------------------------------------------
  // The view set
  // ---------------------------------------------------------------------

  class CommentViewSet {
    const db: Database

    constructor (db: Database)
      ensures this.db == db
    {
      this.db := db;
    }

    method List(actor: RequestUser) returns (r: Listing)
      ensures r == ListComments(db.tables, actor)
    {
      if !actor.Known? {
        return Message(Refusal(actor));
      }
      if !InSomeProject(db.tables, actor.id) {
        return Message(Reply(HTTP_403_FORBIDDEN, NoProjectMessage));
      }
      if !SeesSomeIssue(db.tables, actor.id) {
        return Message(Reply(HTTP_200_OK, NoIssueMessage));
      }
      r := Items(VisibleComments(db.tables, actor.id));
    }

    method Create(actor: RequestUser, input: CommentInput, uuid: Uuid) returns (r: Reply)
      modifies db
      ensures Outcome(r, db.tables) == CreateComment(old(db.tables), actor, input, uuid)
    {
      if !actor.Known? {
        return Refusal(actor);
      }
      var description := CleanText(input.description, None);
      if description.Err? || input.issue.None? || input.issue.value < 0 || input.issue.value !in SelectableIssues(db.tables, actor.id) {
        return Reply(HTTP_400_BAD_REQUEST, Invalid);
      }
      var issue := input.issue.value as IssueId;
      if !IsMemberOrAuthor(db.tables, db.tables.issues[issue].project, actor.id) {
        return Reply(HTTP_403_FORBIDDEN, NotMemberMessage);
      }
      if SimilarComment(db.tables, issue, actor.id, description.value) {
        return Reply(HTTP_400_BAD_REQUEST, DuplicateMessage);
      }
      if UuidInUse(db.tables, uuid) {
        // The unique column refuses the row; the IntegrityError becomes the same 400.
        return Reply(HTTP_400_BAD_REQUEST, DuplicateMessage);
      }
      var title := db.tables.issues[issue].title;
      db.tables := AddComment(db.tables, Comment(uuid, description.value, actor.id, issue));
      r := Reply(HTTP_201_CREATED, CommentAddedMessage(title));
    }
  }
}
