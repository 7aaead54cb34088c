# SoftDesk backend — a Dafny model

SoftDesk is a project-issue-tracking REST backend written with Django and
Django REST Framework. Users register and then create projects. Project
authors invite contributors. Contributors file issues, assign them to
contributors of the same project, and comment on them.

Two things make it worth proving:

- the authorization model: permission classes that decide, per HTTP method
  and per resource (project, contributor row, issue, comment, user account),
  whether the acting user may read, write or delete;
- cache invalidation: list endpoints are memoized per user, and every write
  must drop the affected keys through `safe_delete_pattern`, whose behaviour
  depends on what the cache backend can do.

The model keeps the program's structure, one Dafny module per source
concern:

| Dafny file | models |
|---|---|
| `http.dfy` | request user (anonymous or a user id), HTTP methods, status codes, DRF's 401/403 refusal |
| `text.dfy`, `uuids.dfy` | Python `str` operations the code relies on; the canonical text form of a UUID and `uuid.UUID` parsing |
| `cache_tools.dfy` | `utils/cache_tools.py`: the three branches of `safe_delete_pattern`, and a `Cache` class |
| `cache_keys.dfy` | the cache keys and patterns the views format (`user_projects_{id}`, `issues_user_{id}_project_{pid or all}`, …) |
| `users_models.dfy`, `users_manager.dfy` | `users/models.py`: `validate_age`, the `CustomUserManager` and `User.save` (`full_clean`) |
| `projects_models.dfy` | `projects/models.py`: choices, the store of the four tables, uniqueness constraints, `on_delete=CASCADE`, `__str__` |
| `projects_permissions.dfy`, `users_permissions.dfy`, `api_auth_permissions.dfy` | the three `permissions.py` files |
| `serializer_fields.dfy`, `projects_serializers.dfy`, `users_serializers.dfy` | DRF field cleaning, read-only fields, the serializers' validators and queryset filters |
| `db.dfy` | a `Database` object holding the tables and the cache |
| `projects_views.dfy`, `contributors_views.dfy`, `issues_views.dfy`, `comments_views.dfy`, `users_views.dfy` | the view sets |

Each view action is a pure function from the tables (and the cache entries
when the action touches the cache) to a reply and the new state. It follows
DRF's request pipeline in order:

1. the view's permission classes (401 for an anonymous user, else 403);
2. `get_queryset`, whose value is cached for the list endpoints;
3. 404 when the object is outside the queryset;
4. the object permission (403);
5. serializer validation (400);
6. the view's own logic.

Each view set is also a class over a shared `Database`. Its methods change
the database and cache in place, and each one's `ensures` ties the new state
to the pure function. The properties the code promises are lemmas about
those functions. The central invariant is `ProjectModels.Consistent`:

- keys are below the id counter;
- foreign keys resolve;
- users are unique and pass `full_clean`'s field checks (age range, username validator and length);
- the unique constraints hold;
- every project has exactly its author's AUTHOR row;
- assignees belong to the issue's project.

Every modelled write is proved to preserve it, except the as-written issue update (`IssueViews.UpdateIssueAsWritten`), which is shown to break it (see Findings).

The model follows the code wherever the written description of the system
differs from it:

- An issue's assignee may change any field of the issue, and may delete it.
  The permission class grants that, and nothing in the views restricts it.
- The UUID invite does not reject a superuser target.
- The UUID invite always answers with the same 200 reply.
- A superuser cannot delete or edit another account through the API.
  `IsSelfOrReadOnly` answers 403 before `perform_destroy` runs, so the
  superuser branch of `perform_destroy` is unreachable.
- A superuser who belongs to no project gets 403 on issue and comment
  creation.
- The `list` view of the users endpoint has its own 401 branch. It is
  unreachable, because `IsAuthenticated` answers first.

## Model

| member | source | states |
|---|---|---|
| Http.Refusal | django-rest-api/config/settings.py:159-176 | a refused request is 401 exactly when no user is authenticated, and 403 otherwise |
| Text.NatStrRoundTrip | django-rest-api/projects/views.py:61 | the decimal text of an id reads back as that id |
| Text.StripIsSlice | django-rest-api/projects/models.py:23-24 | stripping removes a prefix and a suffix made only of stripped characters and keeps the middle unchanged |
| Text.NatStrInjective | django-rest-api/projects/views.py:61 | distinct ids format to distinct texts, so per-user keys never collide |
| Uuids.Format | django-rest-api/projects/models.py:151 | the canonical text of a UUID is 36 characters long |
| Uuids.FormatAlphabet | django-rest-api/projects/models.py:151 | the canonical text holds only lower-case hex digits and hyphens, and starts and ends with a digit |
| Uuids.ParseFormat | django-rest-api/projects/views.py:323-325 | `uuid.UUID` accepts the canonical text of every UUID and returns that UUID |
| Uuids.ParseAcceptsHexPrefix | django-rest-api/projects/views.py:323-325 | `uuid.UUID` reads its 32 characters with `int(..., 16)`, so `0x` followed by 30 digits is accepted, as the value with two leading zero digits |
| CacheTools.StripStars | django-rest-api/utils/cache_tools.py:31 | the fallback's base holds no `*` and is no longer than the pattern |
| CacheTools.GlobLiteral | django-rest-api/utils/cache_tools.py:26-28 | a pattern without `*` matches, in a native pattern delete, only the key equal to it |
| CacheTools.GlobTrailingStar | django-rest-api/utils/cache_tools.py:26-28 | the native pattern `s*` matches exactly the keys that start with `s` |
| CacheTools.StarMatchesAll | django-rest-api/utils/cache_tools.py:26-28 | the pattern `*` matches every key |
| CacheTools.AfterDeletePattern | django-rest-api/utils/cache_tools.py:10-44 | only entries are removed, never changed. A native backend removes exactly the glob matches. Otherwise no surviving key contains the base: a scan removes exactly the containing keys when one exists, and the cache is cleared when none does or keys cannot be enumerated |
| CacheTools.ConfiguredBackendClearsAll | django-rest-api/config/settings.py:196-202 | with the configured file-based cache, every `safe_delete_pattern` call empties the whole cache |
| CacheTools.SubstringMatchOverDeletes | django-rest-api/utils/cache_tools.py:35 | the substring test also drops `user_projects_12` when user 1's key is invalidated (harmless over-deletion) |
| CacheTools.LocMemDeletePattern | django-rest-api/utils/cache_tools.py:33-37 | as written on a local-memory cache: when a stored key matches the base, the cache is left exactly as it was |
| CacheTools.MadeKeysStillMatch | django-rest-api/utils/cache_tools.py:35 | a prefixed internal key still contains the base, so the scan finds it and sets `deleted_any` |
| CacheTools.LocMemKeepsStaleEntry | django-rest-api/utils/cache_tools.py:33-44 | an entry the intended fallback removes survives the code as written |
| CacheTools.Cache.Get | django-rest-api/projects/views.py:63-66 | a hit returns the stored value, and a miss happens exactly when the key is absent |
| CacheTools.Cache.Set | django-rest-api/projects/views.py:80 | the key now maps to the value, and every other entry is unchanged |
| CacheTools.Cache.Delete | django-rest-api/projects/views.py:120 | only that key is removed |
| CacheTools.Cache.Clear | django-rest-api/utils/cache_tools.py:43-44 | the cache is empty |
| CacheTools.Cache.SafeDeletePattern | django-rest-api/utils/cache_tools.py:10-44 | the new entries are what `AfterDeletePattern` prescribes for the backend's capability |
| CacheKeys.UserProjectsKeyInjective | django-rest-api/projects/views.py:61 | two users never share a project-list key |
| CacheKeys.UserProjectsInvalidated | django-rest-api/projects/views.py:164 | after `safe_delete_pattern(user_projects_{id})`, that user's key is gone on every backend |
| CacheKeys.PrefixPatternInvalidates | django-rest-api/utils/cache_tools.py:10-44 | a `prefix*` pattern removes every key that starts with the prefix, on every backend |
| CacheKeys.IssuesInvalidated | django-rest-api/projects/views.py:437 | `issues_user_{id}_project_*` removes that user's issue-list key for every project filter, `all` included |
| CacheKeys.ProjectPatternMatchesNoKey | django-rest-api/projects/views.py:500 | no key the views store contains `issues_project_{pid}`: on a scanning backend that call always clears the whole cache |
| UserModels.ValidateAge | django-rest-api/users/models.py:12-21 | accepted exactly when the age is at least 15; the error text starts with "Âge invalide" |
| UserModels.RequiredFieldsError | django-rest-api/users/models.py:29-36 | no error exactly when the username is non-empty and age and both consent flags are given; an empty username reports the username first |
| UserModels.BuildUser | django-rest-api/users/models.py:38-39 | the new user carries the given username, uuid, age and consents; staff and superuser only when passed as true |
| UserModels.SetDefault | django-rest-api/users/models.py:48-52 | `setdefault` keeps a given value and otherwise supplies the default |
| UserModels.WithSuperuserDefaults | django-rest-api/users/models.py:48-52 | staff, superuser, age 30 and both consents default for a superuser, and explicitly given values win |
| UserModels.SuperuserFlagsError | django-rest-api/users/models.py:54-57 | a superuser is refused unless both `is_staff` and `is_superuser` are true |
| UserModels.FindByUuid | django-rest-api/projects/views.py:325 | on a store with a uuid column, the lookup finds a user exactly when one has that uuid, and returns that user |
| UserModels.FullClean | django-rest-api/users/models.py:62-75 | `full_clean` passes exactly when the age lies between 15 and the top of the `PositiveIntegerField` range, the username is non-blank, at most 150 characters and matches `AbstractUser`'s `^[\w.@+-]+\Z` validator, and no other user has it; a low age is reported by `validate_age`, a too large one by the range validator, and a refused username as invalid |
| ProjectModels.ParseType | django-rest-api/projects/models.py:16-25 | accepts exactly the four type codes, and the parsed value prints back as the input |
| ProjectModels.ParsePermission | django-rest-api/projects/models.py:47-50 | accepts exactly AUTHOR and CONTRIBUTOR, and round-trips |
| ProjectModels.ParseTag | django-rest-api/projects/models.py:88-92 | accepts exactly BUG, FEATURE and TASK, and round-trips |
| ProjectModels.ParsePriority | django-rest-api/projects/models.py:94-98 | accepts exactly LOW, MEDIUM and HIGH, and round-trips |
| ProjectModels.ParseStatus | django-rest-api/projects/models.py:100-112 | an absent status defaults to TODO; a given one must be one of the three codes and round-trips |
| ProjectModels.AuthorIsMember | django-rest-api/projects/views.py:114-119 | in a consistent store, "contributor or author of the project" is the same as "has a contributor row" |
| ProjectModels.Cascade | django-rest-api/projects/models.py:26-162 | deletion removes the seeds and exactly the rows whose foreign keys reach them transitively. Nothing else changes, and foreign keys still resolve |
| ProjectModels.SubStoreKeepsUniqueness | django-rest-api/projects/models.py:34-166 | removing rows never breaks a unique constraint or user validity |
| ProjectModels.CascadeKeepsConsistency | django-rest-api/projects/models.py:26-162 | a cascade that keeps each surviving project's author row leaves the store consistent |
| ProjectModels.ProjectStr | django-rest-api/projects/models.py:39-41 | the text starts with the title and contains the type code |
| ProjectModels.ProjectStrShowsType | django-rest-api/projects/models.py:39-41 | two projects with the same title print alike exactly when their types agree, so the type code reads back from the text |
| ProjectModels.ContributorStr | django-rest-api/projects/models.py:80-82 | the text starts with the username and contains the role and the project title |
| ProjectModels.IssueStr | django-rest-api/projects/models.py:143-145 | the text starts with `[project] ` and contains the title and tag |
| ProjectModels.CommentStr | django-rest-api/projects/models.py:171-176 | the text starts with `Comment <uuid>` and contains the author's name and the issue's title |
| ProjectPermissions.IsContributorHasPermission | django-rest-api/projects/permissions.py:16-18 | passes exactly for an authenticated user |
| ProjectPermissions.IsContributorObject | django-rest-api/projects/permissions.py:20-41 | a project needs a contributor row; a contributor row, issue or comment needs a row in, or authorship of, its project |
| ProjectPermissions.IsAuthorAndContributorHasPermission | django-rest-api/projects/permissions.py:51-57 | POST and safe methods need authentication; PUT, PATCH and DELETE are left to the object check |
| ProjectPermissions.IsAuthorAndContributorObject | django-rest-api/projects/permissions.py:59-75 | reads need membership (and never pass for comments); a write to a contributor row needs the project's author; other writes need the object's author |
| ProjectPermissions.ReadOnlyUnlessAuthorObject | django-rest-api/projects/permissions.py:85-117 | per resource: readers are members, authors or the issue's assignee. Issue writers are the author or the assignee; project and comment writers are the author; nobody authenticated writes contributor rows |
| ProjectPermissions.AuthenticatedNeverWritesContributorRows | django-rest-api/projects/permissions.py:110-117 | no authenticated user passes a write check on a contributor row |
| ProjectPermissions.ReadAccessIsMembership | django-rest-api/projects/permissions.py:89-107 | in a consistent store, an authenticated read of an issue or a comment is allowed exactly for members of its project |
| ProjectPermissions.ReadChecksAgree | django-rest-api/projects/permissions.py:85-107 | for contributor rows and comments, the read rule of `IsAuthorOrProjectContributorReadOnly` equals `IsContributor`'s |
| ApiAuthPermissions.IsNotAuthenticated | django-rest-api/api_auth/permissions.py:4-9 | passes exactly for an anonymous request, whatever the HTTP method, and agrees with the users app's `IsNotAuthenticated` on every request |
| UserPermissions.IsSelfOrReadOnly | django-rest-api/users/permissions.py:16-20 | safe methods pass; other methods pass exactly when the target account is the requester's |
| UserPermissions.IsNotAuthenticated | django-rest-api/users/permissions.py:28-30 | passes exactly for an anonymous request |
| UserPermissions.AuthenticatedCannotRegister | django-rest-api/users/permissions.py:28-30 | a logged-in user never passes the registration check |
| SerializerFields.CleanText | django-rest-api/projects/models.py:23-24 | a missing value is "required", a blank one (nothing left once Python's whitespace is stripped) "blank"; an accepted value is the stripped input, within the length limit and free of NUL; a stripped input within the limit is accepted exactly when it holds no NUL, and otherwise refused with the NUL error |
| SerializerFields.AcceptInput | django-rest-api/projects/serializers.py:54 | read-only fields keep the instance's value; writable fields take the request's; absent fields keep theirs |
| SerializerFields.ReadOnlyDataIsIgnored | django-rest-api/projects/serializers.py:54 | a body of only read-only fields changes nothing |
| ProjectSerializers.ValidateUserUuid | django-rest-api/projects/serializers.py:57-66 | on a store with a uuid column, fails exactly when no user has the uuid, and otherwise returns the user who has it |
| ProjectSerializers.GetIsAuthor | django-rest-api/projects/serializers.py:77-79 | `is_author` is true exactly for an AUTHOR row |
| ProjectSerializers.IsAuthorMeansProjectAuthor | django-rest-api/projects/serializers.py:77-79 | in a consistent store, `is_author` is true exactly on the project author's row |
| ProjectSerializers.SelectableProjects | django-rest-api/projects/serializers.py:81-89 | the `project` field offers all projects to a superuser, and otherwise the requester's own |
| ProjectSerializers.SelectableProjectsAreOwned | django-rest-api/projects/serializers.py:85-89 | for a non-superuser, the selectable projects are exactly those they author |
| ProjectSerializers.FilteredContributors | django-rest-api/projects/serializers.py:208-225 | an update offers the instance's project's rows; a create offers the requested project's rows, or none when it is missing, 0 or unknown |
| ProjectSerializers.FilteredIssues | django-rest-api/projects/serializers.py:278-283 | exactly the issues of projects the user belongs to or authored |
| ProjectSerializers.FilteredIssuesMatchIsContributor | django-rest-api/projects/serializers.py:278-283 | the comment's issue choices agree with the `IsContributor` object check on issues |
| ProjectSerializers.ProtectedFields | django-rest-api/projects/serializers.py:54-267 | permission, role, authors, uuids and timestamps cannot be set from a request; `user_uuid` is write-only; an issue's project is writable |
| UserSerializers.UsernameErrors | django-rest-api/users/serializers.py:33-49 | no error exactly when the username, stripped of Python's whitespace, has 3 to 30 allowed characters and is not another user's |
| UserSerializers.AcceptedUsernameIsFree | django-rest-api/users/serializers.py:37-40 | an accepted username is non-empty, free, and admitted by the model field's validator and length, so `full_clean` will not refuse it |
| UserSerializers.PasswordError | django-rest-api/users/serializers.py:51-56 | the password is accepted exactly when it is given, not blank once stripped, and free of NUL |
| UserSerializers.PasswordWriteOnly | django-rest-api/users/serializers.py:58-70 | the password is accepted but never returned; id and created time are returned but not accepted |
| UserManager.SaveNew | django-rest-api/users/models.py:72-75 | saving succeeds exactly when the age is admitted (at least 15, at most the field's top), the username passes the model field's validator and 150-character bound, and it is free; a success stores the user under the next id and a failure changes nothing; an age above the range fails with the range error, and a refused username with the invalid-username error |
| UserManager.CreateUserStep | django-rest-api/users/models.py:27-42 | `create_user` succeeds exactly when the required fields are present, the age is admitted (15 up to the field's top), the username passes the model field's validator and length bound, and it is free; the stored user carries the given fields |
| UserManager.CreateSuperuserStep | django-rest-api/users/models.py:44-59 | a created superuser is staff and superuser, aged 30 by default; an explicit false flag is refused without change; with no extra fields, creation succeeds exactly for an admitted, free username |
| UserManager.AddUserKeepsConsistency | django-rest-api/users/models.py:72-75 | writing an account with an admitted age, an admitted and free username and a fresh uuid keeps the store consistent |
| UserManager.SaveNewKeepsConsistency | django-rest-api/users/models.py:72-75 | saving a user with a fresh uuid keeps the store consistent |
| UserManager.CreateKeepsConsistency | django-rest-api/users/models.py:27-59 | both manager methods keep the store consistent |
| UserManager.CustomUserManager.Save | django-rest-api/users/models.py:72-75 | the database changes as `SaveNew` prescribes |
| UserManager.CustomUserManager.CreateUser | django-rest-api/users/models.py:27-42 | the database changes as `CreateUserStep` prescribes |
| UserManager.CustomUserManager.CreateSuperuser | django-rest-api/users/models.py:44-59 | the database changes as `CreateSuperuserStep` prescribes |
| ProjectViews.VisibleProjectsAreReadable | django-rest-api/projects/views.py:72-78 | a non-superuser's queryset holds exactly the projects `IsAuthorAndContributor` lets them read; a superuser's holds all |
| ProjectViews.ListProjects | django-rest-api/projects/views.py:85-98 | anonymous: refusal. No membership: the friendly 200 message. Otherwise the cached or freshly cached queryset, and nothing else is stored |
| ProjectViews.ListOnMissIsMembership | django-rest-api/projects/views.py:58-83 | on a cache miss a member gets exactly their projects, and that value is cached |
| ProjectViews.ValidateProject | django-rest-api/projects/models.py:23-25 | accepted exactly when title (at most 255) and description are non-blank and free of NUL and the type is a known code; fields are stored stripped |
| ProjectViews.CreateProject | django-rest-api/projects/views.py:100-143 | 201 exactly for an authenticated user with a valid body whose title they have not used (any case). A duplicate gets 400 with the message. A 201 adds the project with its author row and drops the user's list key; any other reply changes nothing |
| ProjectViews.AddProjectKeepsUniqueRows | django-rest-api/projects/views.py:105-110 | the case-insensitive title check keeps (title, author) unique |
| ProjectViews.AddProjectKeepsAuthorRows | django-rest-api/projects/views.py:114-119 | the new project has its author's AUTHOR row |
| ProjectViews.AddProjectKeepsLinks | django-rest-api/projects/views.py:113-119 | foreign keys still resolve after the two inserts |
| ProjectViews.AddProjectKeepsConsistency | django-rest-api/projects/views.py:100-124 | `perform_create` keeps the store consistent |
| ProjectViews.NewProjectHasOneRow | django-rest-api/projects/views.py:114-119 | the new project belongs to its author, whose AUTHOR row with the author role is its only contributor row |
| ProjectViews.CreateKeepsConsistency | django-rest-api/projects/views.py:100-143 | after creation the store is consistent, and the creator is the project's author and only member |
| ProjectViews.CreateTwiceIsRefused | django-rest-api/projects/views.py:105-110 | repeating a successful creation gets 400 "Un projet avec ce titre existe déjà." |
| ProjectViews.DestroyProject | django-rest-api/projects/views.py:156-176 | 404 outside the queryset, 403 for a non-author, otherwise 200 with the cascade and the user's project and issue keys invalidated |
| ProjectViews.DestroyRemovesProjectData | django-rest-api/projects/views.py:156-176 | deletion keeps the store consistent and leaves no contributor row or issue of the project |
| ProjectViews.ProjectViewSet.GetQueryset | django-rest-api/projects/views.py:58-83 | a hit returns the cached ids unchanged; a miss computes the visible projects and caches them |
| ProjectViews.ProjectViewSet.List | django-rest-api/projects/views.py:85-98 | reply and cache as `ListProjects` prescribes |
| ProjectViews.ProjectViewSet.Create | django-rest-api/projects/views.py:126-143 | reply, tables and cache as `CreateProject` prescribes |
| ProjectViews.ProjectViewSet.Destroy | django-rest-api/projects/views.py:156-176 | reply, tables and cache as `DestroyProject` prescribes |
| ContributorViews.VisibleContributorsAreReadable | django-rest-api/projects/views.py:197-203 | a non-superuser's queryset holds exactly the rows `IsAuthorAndContributor` lets them read |
| ContributorViews.GroupingPartitions | django-rest-api/projects/views.py:214-216 | every listed row appears once, under its own project, and no group is empty |
| ContributorViews.GroupingAdd | django-rest-api/projects/views.py:215-216 | one loop step appends the row to its project's group |
| ContributorViews.GroupByProject | django-rest-api/projects/views.py:214-216 | the loop builds exactly the grouping of the rows |
| ContributorViews.ListContributors | django-rest-api/projects/views.py:205-235 | anonymous: refusal. An empty queryset: 403 with the message. The grouping is returned exactly when an authenticated user's queryset is non-empty, and it is the visible rows grouped by project |
| ContributorViews.ValidateInviteParams | django-rest-api/projects/views.py:298-329 | a (project, user) pair exactly when both parameters are given, the project exists, the requester authored it or is a superuser, and the uuid text is one `uuid.UUID` reads (`int(..., 16)` syntax included) and names a user |
| ContributorViews.InvitedRow | django-rest-api/projects/views.py:338-351 | the row is AUTHOR with the author role exactly when the invitee authored the project |
| ContributorViews.InviteEntries | django-rest-api/projects/views.py:352-353 | when a row is added, the invitee's project and issue keys are gone |
| ContributorViews.InviteIsIdempotent | django-rest-api/projects/views.py:333-336 | the invitee is a member afterwards, and inviting again changes nothing |
| ContributorViews.InviteKeepsUniqueRows | django-rest-api/projects/views.py:333-336 | the duplicate check keeps (user, project) unique |
| ContributorViews.InviteKeepsAuthorRows | django-rest-api/projects/views.py:341-350 | each project still has exactly its author's AUTHOR row |
| ContributorViews.InviteKeepsLinks | django-rest-api/projects/views.py:331-358 | foreign keys still resolve |
| ContributorViews.InviteKeepsConsistency | django-rest-api/projects/views.py:331-358 | inviting keeps the store consistent |
| ContributorViews.CreateContributor | django-rest-api/projects/views.py:257-271 | 429 exactly when the throttle refuses; otherwise always the uniform 200. The row is added only for valid parameters, and nothing changes otherwise |
| ContributorViews.InviteReplyIsUniform | django-rest-api/projects/views.py:360-365 | on a store with a uuid column, the reply does not depend on the project or uuid sent, so it reveals nothing about accounts |
| ContributorViews.CreateContributorAsWritten | django-rest-api/projects/views.py:298-329 | as written, nothing is stored; an authenticated, unthrottled request gets 500 exactly when it passes every check before the uuid lookup (`uuid.UUID` reading the text, `int(..., 16)` syntax included), and the uniform 200 otherwise |
| ContributorViews.InviteAsWrittenIsNotUniform | django-rest-api/projects/views.py:322-327 | as written, a project author inviting by a well-formed uuid gets 500, while an empty request gets 200 |
| ContributorViews.RemovalEntries | django-rest-api/projects/views.py:401-403 | the removed user's project and issue keys are gone |
| ContributorViews.DestroyContributor | django-rest-api/projects/views.py:386-411 | 404 outside the queryset; 403 with the message for the AUTHOR row; 200 exactly for the project author removing another row, which cascades and invalidates |
| ContributorViews.RemoveRowKeepsConsistency | django-rest-api/projects/views.py:392-399 | removing a non-AUTHOR row keeps the store consistent |
| ContributorViews.RemoveRowEndsMembership | django-rest-api/projects/views.py:399 | after removal the user is no longer a member, and the project remains |
| ContributorViews.DestroyKeepsConsistency | django-rest-api/projects/views.py:386-411 | every outcome of `destroy` leaves the store consistent |
| ContributorViews.DestroyEndsMembership | django-rest-api/projects/views.py:386-411 | a 200 ends the removed user's membership, while the project and its author's membership remain |
| ContributorViews.ContributorViewSet.List | django-rest-api/projects/views.py:205-235 | the reply is `ListContributors` |
| ContributorViews.ContributorViewSet.AddContributorSilently | django-rest-api/projects/views.py:331-358 | tables and cache as `Invite` and `InviteEntries` prescribe |
| ContributorViews.ContributorViewSet.Create | django-rest-api/projects/views.py:257-271 | reply, tables and cache as `CreateContributor` prescribes |
| ContributorViews.ContributorViewSet.Destroy | django-rest-api/projects/views.py:386-411 | reply, tables and cache as `DestroyContributor` prescribes |
| IssueViews.VisibleIssues | django-rest-api/projects/views.py:443-455 | the queryset only holds stored issues, all in the requested project when one is given |
| IssueViews.VisibleIssuesAreReadable | django-rest-api/projects/views.py:451-452 | in a consistent store, a non-superuser's queryset holds exactly the issues the permission class lets them read |
| IssueViews.IssueListEntries | django-rest-api/projects/views.py:499-500 | after the two invalidations, no issue-list key of the user remains, and nothing is added |
| IssueViews.ListIssues | django-rest-api/projects/views.py:460-468 | anonymous: refusal. A user in no project: 403. Otherwise the cached or freshly cached queryset for the filter |
| IssueViews.ListAfterWriteIsFresh | django-rest-api/projects/views.py:499-500 | after a write's invalidation, the writer's next list is computed from current data |
| IssueViews.ChosenAssignee | django-rest-api/projects/serializers.py:208-225 | an absent assignee keeps the instance's (none on create); null clears it; an id must be among the filtered contributors |
| IssueViews.ValidateIssue | django-rest-api/projects/serializers.py:166-225 | accepted exactly when every field is well formed, the project exists and the title is free in it; the issue carries the cleaned fields and the given author |
| IssueViews.CreatedAssigneeInProject | django-rest-api/projects/serializers.py:216-224 | on create, a chosen assignee is a row of the issue's project |
| IssueViews.UpdatedAssigneeInOldProject | django-rest-api/projects/serializers.py:212-214 | on update, a chosen assignee is a row of the instance's current project |
| IssueViews.IssueCreatedMessage | django-rest-api/projects/views.py:511-515 | the message starts with `Issue '<title>' créée` |
| IssueViews.CreateIssue | django-rest-api/projects/views.py:473-519 | 400 for an invalid body, 403 for a non-member, otherwise 201. The issue is stored with the requester as author and its assignee in its project, and the lists are invalidated |
| IssueViews.AddIssueKeepsUniqueRows | django-rest-api/projects/models.py:133-138 | the title check keeps (title, project) unique |
| IssueViews.AddIssueKeepsLinks | django-rest-api/projects/views.py:488-494 | foreign keys resolve and the assignee is in the issue's project |
| IssueViews.AddIssueKeepsConsistency | django-rest-api/projects/views.py:473-502 | `perform_create` keeps the store consistent |
| IssueViews.CreateIssueKeepsConsistency | django-rest-api/projects/views.py:473-519 | the store stays consistent, and a created issue is authored by a member of its project |
| IssueViews.UpdateIssueAsWritten | django-rest-api/projects/views.py:524-545 | as written: 200 exactly for the author or assignee with a valid body, which replaces the issue even when it moves away from its assignee's project |
| IssueViews.UpdateIssue | django-rest-api/projects/views.py:524-545 | as intended: same, but also refused unless the assignee stays in the issue's project. The author never changes, other issues are untouched, and the lists are invalidated |
| IssueViews.ReplaceIssueKeepsUniqueRows | django-rest-api/projects/models.py:133-138 | replacing an issue whose title is free keeps (title, project) unique |
| IssueViews.ReplaceIssueKeepsLinks | django-rest-api/projects/models.py:118-129 | a replacement whose assignee fits keeps foreign keys and assignees in their project |
| IssueViews.ReplaceIssueKeepsConsistency | django-rest-api/projects/views.py:541 | such a replacement keeps the store consistent |
| IssueViews.UpdateIssueKeepsConsistency | django-rest-api/projects/views.py:524-545 | every outcome of the corrected update leaves the store consistent |
| IssueViews.MoveValidates | django-rest-api/projects/serializers.py:208-214 | the serializer accepts moving issue 6 to project 3 while keeping its assignee from project 2 |
| IssueViews.UpdateAsWrittenStrandsAssignee | django-rest-api/projects/views.py:533-541 | from a consistent store, the code as written answers 200 and leaves an assignee outside its issue's project |
| IssueViews.UpdateRefusesStrandedAssignee | django-rest-api/projects/views.py:488-494 | the corrected update refuses that request with 400 and changes nothing |
| IssueViews.DestroyIssue | django-rest-api/projects/views.py:561-580 | 200 exactly for the author or assignee of an issue in the queryset: the issue goes with its comments and the lists are invalidated; otherwise nothing changes |
| IssueViews.RemoveIssueKeepsConsistency | django-rest-api/projects/models.py:158-162 | deleting an issue and its comments keeps the store consistent |
| IssueViews.DestroyIssueKeepsConsistency | django-rest-api/projects/views.py:561-580 | the store stays consistent, and a 200 leaves neither the issue nor its comments |
| IssueViews.IssueViewSet.GetQueryset | django-rest-api/projects/views.py:433-458 | the returned ids are the cached value for the key, and on a miss the freshly computed queryset |
| IssueViews.IssueViewSet.List | django-rest-api/projects/views.py:460-468 | reply and cache as `ListIssues` prescribes |
| IssueViews.IssueViewSet.Create | django-rest-api/projects/views.py:504-519 | reply, tables and cache as `CreateIssue` prescribes |
| IssueViews.IssueViewSet.Update | django-rest-api/projects/views.py:524-545 | reply, tables and cache as the corrected `UpdateIssue` prescribes |
| IssueViews.IssueViewSet.Destroy | django-rest-api/projects/views.py:561-580 | reply, tables and cache as `DestroyIssue` prescribes |
| CommentViews.VisibleComments | django-rest-api/projects/views.py:602-613 | a non-superuser sees exactly the comments on issues of projects they belong to |
| CommentViews.ListComments | django-rest-api/projects/views.py:603-631 | anonymous: refusal. A user in no project: 403. No issue in their projects: the 200 message. The comments are returned exactly when an authenticated member sees some issue, and they are the visible comments |
| CommentViews.ListedCommentsAreMembers | django-rest-api/projects/views.py:611-613 | every listed comment belongs to an issue of a project the user is a member of |
| CommentViews.SelectableIssues | django-rest-api/projects/serializers.py:269-283 | the `issue` field offers stored issues, all of them to a superuser |
| CommentViews.CreateComment | django-rest-api/projects/views.py:633-672 | 400 for an invalid body, 403 for a non-member, 400 with the message for a repeat ignoring case, otherwise 201 with the comment stored |
| CommentViews.RepeatInOtherCaseIsRefused | django-rest-api/projects/views.py:646-651 | after a comment is created, the same text in another case on the same issue is refused |
| CommentViews.AddCommentKeepsUniqueRows | django-rest-api/projects/models.py:151-166 | the repeat check keeps (description, issue, author) and the uuid unique |
| CommentViews.AddCommentKeepsLinks | django-rest-api/projects/models.py:153-162 | foreign keys still resolve |
| CommentViews.CreateCommentKeepsConsistency | django-rest-api/projects/views.py:633-672 | creating a comment keeps the store consistent |
| CommentViews.CommentViewSet.List | django-rest-api/projects/views.py:615-631 | the reply is `ListComments` |
| CommentViews.CommentViewSet.Create | django-rest-api/projects/views.py:660-672 | reply and tables as `CreateComment` prescribes |
| UserViews.PermissionMapping | django-rest-api/users/views.py:30-36 | create passes exactly for an anonymous user, every other action exactly for an authenticated one; a write passes both checks exactly on one's own account |
| UserViews.VisibleUsers | django-rest-api/users/views.py:38-43 | a superuser sees every account, anyone else at most their own, and a stored user always their own |
| UserViews.ListUsers | django-rest-api/users/views.py:45-52 | 401 exactly for an anonymous request; otherwise all accounts for a superuser and only one's own for anyone else |
| UserViews.PerformDestroyStep | django-rest-api/users/views.py:54-61 | deletion happens exactly for oneself or a superuser; the account and everything cascading from it goes, and a refusal changes nothing |
| UserViews.DestroyUser | django-rest-api/users/views.py:74-88 | a 200 only for a stored account; any other reply changes nothing |
| UserViews.DestroyOnlySelf | django-rest-api/users/views.py:74-88 | 200 exactly for a user deleting their own stored account, which is then gone. A superuser deleting another account gets 403, and another user 404 |
| UserViews.PerformDestroyGuardIsRedundant | django-rest-api/users/views.py:54-61 | once the object permission passed, `perform_destroy` never refuses |
| UserViews.DestroyUserKeepsConsistency | django-rest-api/users/views.py:61 | deleting an account keeps the store consistent |
| UserViews.Patched | django-rest-api/users/serializers.py:58-70 | an update never changes uuid, staff or superuser flags, and an empty body changes nothing |
| UserViews.AcceptedInputPassesFullClean | django-rest-api/users/models.py:72-75 | for the fields the model keeps (username, age, consent flags), a body the serializer accepts passes `full_clean` on save |
| UserViews.UpdateUser | django-rest-api/users/views.py:30-43 | a 200 rewrites only that account with the accepted fields; any other reply changes nothing |
| UserViews.UpdateOthersChangesNothing | django-rest-api/users/views.py:38-43 | nobody can change another account: nothing changes, and a non-superuser gets 404 |
| UserViews.UpdateSelf | django-rest-api/users/views.py:34-35 | updating one's own account succeeds exactly for a body the serializer accepts (an age from 15 up to the `max_value` of the field's range among its checks), and other accounts are untouched |
| UserViews.UpdateUserKeepsConsistency | django-rest-api/users/models.py:72-75 | every outcome of an update leaves the store consistent |
| UserViews.ReplaceUserKeepsValidUsers | django-rest-api/users/serializers.py:37-40 | an update whose age and username are admitted and whose username is free keeps usernames and uuids unique and every account admitted |
| UserViews.Register | django-rest-api/users/serializers.py:72-79 | a logged-in user is refused; an invalid body gets 400; any reply other than 201 changes nothing |
| UserViews.RegisterWhileLoggedInIsRefused | django-rest-api/users/views.py:32-33 | a logged-in user gets 403 and nothing changes |
| UserViews.RegisterOutcome | django-rest-api/users/serializers.py:72-79 | for an anonymous request, 201 exactly for a body the serializer accepts, an age above the field's `max_value` included among the refusals. The new account has the stripped username, the given uuid and an admitted age, and is neither staff nor superuser |
| UserViews.RegisterKeepsConsistency | django-rest-api/users/serializers.py:72-79 | registering with a fresh uuid keeps the store consistent |
| UserViews.UserViewSet.List | django-rest-api/users/views.py:45-52 | the reply is `ListUsers` |
| UserViews.UserViewSet.PerformDestroy | django-rest-api/users/views.py:54-61 | verdict and tables as `PerformDestroyStep` prescribes |
| UserViews.UserViewSet.Destroy | django-rest-api/users/views.py:74-88 | reply and tables as `DestroyUser` prescribes |
| UserViews.UserViewSet.Update | django-rest-api/users/views.py:30-43 | reply and tables as `UpdateUser` prescribes |
| UserViews.UserViewSet.Create | django-rest-api/users/serializers.py:72-79 | reply and tables as `Register` prescribes |

## Left out

- Cache time-to-live (`timeout=600`), logging and `print` calls: they do not change replies or stored data. Cache entries never expire in the model.
- OAuth2 token handling and authentication: a request carries either no user or a user id.
- Password hashing, password strength validation, and the email field.
- The invite throttle (`InviteThrottle`, 5 per minute): it is a boolean parameter of `ContributorViews.CreateContributor`.
- `make_key` internals: `CacheTools.MakeKey` only adds the `:1:` prefix that a local-memory cache uses.
- The cached queryset's field values: `cache.set` pickles the queryset, which evaluates it first, so a cache hit in `list` serves the rows as they were when cached, stale both in which rows are listed and in their fields. The model caches the ids only, so its listings are as stale in membership, but it reads the listed rows' fields from current data. `get_object` re-queries current data in both.
- Database mechanics: transactions, races and `IntegrityError` retries. Every request is atomic in the model, and the unique constraints are checked up front.
- Pagination, ordering, hyperlinks, `select_related` and `prefetch_related`: the model returns sets of ids and groupings, not JSON pages.
- The actions the views inherit unchanged from DRF: project update, contributor retrieve and update, every retrieve action, and `MeView`. They are DRF's generic code, not the application's.
- Comment update and delete: the view overrides them (an `IntegrityError` on update becomes a 400 with "Un commentaire identique existe déjà.", and delete answers 200 with a message instead of 204), but neither action is modelled.
- Non-integer JSON ids and non-numeric `project` query parameters or URL keys: ids are integers in the model.
- Settings, URLs, admin, schema generation, and the superseded copies at the repository root.
- The assignee "status only" restriction: the code has no such restriction (see above).
- `users/models.py` declares no `uuid` column, although the views and serializers look users up by `uuid`. As written, that lookup raises a `FieldError` (see Findings). UserModels.FindByUuid, ProjectSerializers.ValidateUserUuid, ContributorViews.CreateContributor and ContributorViews.InviteReplyIsUniform model the intended store, in which `User` has a unique uuid; ContributorViews.CreateContributorAsWritten models the code as written.
- UserModels.FullClean: classifies ASCII username characters exactly, but counts every other non-whitespace character as a word character; Python's Unicode `\w` classification is not modelled. The NFKC normalisation of the username in `AbstractBaseUser.clean` is not modelled either.
- Uuids.Parse: reads ASCII digits only. Python's `int()` also reads the other Unicode decimal digits, so ContributorViews.ValidateInviteParams and ContributorViews.CreateContributorAsWritten refuse a uuid text written with them, which the source reads.
- CacheTools.GlobMatch: gives `*` its glob meaning and treats every other character literally. A native `delete_pattern` (Redis glob) also gives meaning to `?`, `[...]` and `\`. No key or pattern the views build contains those characters, so no reply changes.
- Text.Lower: folds ASCII letters only, not Python's Unicode case mapping.
- IssueViews.UpdateIssue: models a full update (PUT) only. A partial update validates the same fields, taking absent ones from the instance.
- IssueViews.ValidateIssue: reports a duplicate title as a validation error (400), as DRF's unique-together validator does. It does not model a database error.
- UserViews.UpdateUser: validates a new password but keeps no password in the account. The code's update writes the raw password through the generic serializer update, without hashing it. That is not captured, since passwords are out of scope.
- UserViews.DestroyUser: like the code, it invalidates no cache entry.
- UserViews.AcceptedInputPassesFullClean: holds only because passwords are not modelled. An update writes the raw password, and `full_clean` caps `password` at 128 characters while no configured validator does, so a PUT with a longer password passes the serializer and then fails in `save` with a 500. That path is not modelled.
- The age bound `UserModels.MaxAge` is 2147483647, the top of the `PositiveIntegerField` range on PostgreSQL and on every backend before Django 5.0. On SQLite from Django 5.0 the range reaches 2^63-1; the Django version is not part of this model.

## Findings

| source | as written | input that shows it | evidently intended | confidence | as-written member | corrected member |
|---|---|---|---|---|---|---|
| django-rest-api/utils/cache_tools.py:33-37 | The fallback loops over the backend's internal keys. On a local-memory cache those already carry the `:1:` prefix, and `cache.delete(key)` prefixes them again, so nothing is deleted. `deleted_any` still becomes true, so the clear-all branch is skipped and stale entries stay | a local-memory cache holding `user_projects_7`, then `safe_delete_pattern("user_projects_7")` | every entry containing the base is removed, or else the cache is cleared | not executed | CacheTools.LocMemKeepsStaleEntry | CacheTools.AfterDeletePattern |
| django-rest-api/projects/views.py:524-545 | The update saves whatever the serializer accepts. On an update the serializer checks the assignee against the instance's current project, not the requested one. So a body that moves the issue to another project keeps an assignee who is not a contributor there | issue 6 of project 2, assigned to the author's row 4 in project 2: its author sends a full update with `project` 3 and every other field unchanged | an issue's assignee is always a contributor of the issue's project, as `perform_create` enforces | not executed | IssueViews.UpdateAsWrittenStrandsAssignee | IssueViews.UpdateRefusesStrandedAssignee |
| django-rest-api/projects/views.py:322-327 | The invite looks the user up with `User.objects.get(uuid=...)`, but the user model declares no `uuid` field. The lookup raises a `FieldError`, which the `except` clause does not catch, so the request fails with a 500 | an author of project 3 posts `project` 3 and any well-formed uuid; a post without parameters gets the uniform 200 | the user model carries a unique uuid, and every invite gets the same 200 | not executed | ContributorViews.InviteAsWrittenIsNotUniform | ContributorViews.InviteReplyIsUniform |
