/**
 * The cache keys the views format and the patterns they invalidate:
 * `user_projects_{user}` for a user's project list,
 * `issues_user_{user}_project_{project or 'all'}` for a user's issue list,
 * and the patterns `issues_user_{user}_project_*` and `issues_project_{project}`.
 */
module CacheKeys {
  import opened Wrappers
  import opened Text
  import opened CacheTools

  function UserProjectsKey(user: nat): string {
    "user_projects_" + NatStr(user)
  }

  /** `project_id or 'all'`: the query parameter, or `all` when it is absent. */
  function ScopeText(scope: Option<nat>): string {
    if scope.None? then "all" else NatStr(scope.value)
  }

  function IssuesKey(user: nat, scope: Option<nat>): string {
    "issues_user_" + NatStr(user) + "_project_" + ScopeText(scope)
  }

  function IssuesUserPattern(user: nat): string {
    "issues_user_" + NatStr(user) + "_project_*"
  }

  function IssuesProjectPattern(project: nat): string {
    "issues_project_" + NatStr(project)
  }

  lemma DigitsHaveNoStar(s: string)
    requires AllDigits(s)
    ensures '*' !in s
  {
  }

  /** Distinct users get distinct project-list keys. */
  lemma UserProjectsKeyInjective(a: nat, b: nat)
    ensures UserProjectsKey(a) == UserProjectsKey(b) ==> a == b
  {
    if UserProjectsKey(a) == UserProjectsKey(b) {
      var n := |"user_projects_"|;
      assert NatStr(a) == UserProjectsKey(a)[n..];
      assert NatStr(b) == UserProjectsKey(b)[n..];
      NatStrInjective(a, b);
    }
  }

  /** Invalidating a user's project-list key removes it, whatever the backend. */
  lemma UserProjectsInvalidated<V>(m: map<string, V>, user: nat, cap: Capability)
    ensures UserProjectsKey(user) !in AfterDeletePattern(m, UserProjectsKey(user), cap)
  {
    var key := UserProjectsKey(user);
    DigitsHaveNoStar(NatStr(user));
    assert '*' !in key;
    StripStarsOfStarFree(key);
    GlobLiteral(key, key);
    ContainsInfix([], key, []);
    assert [] + key + [] == key;
  }

  /** A `prefix*` pattern removes every key that starts with the prefix, whatever the backend. */
  lemma {:induction false} PrefixPatternInvalidates<V>(m: map<string, V>, prefix: string, rest: string, cap: Capability)
    requires '*' !in prefix
    ensures prefix + rest !in AfterDeletePattern(m, prefix + "*", cap)
  {
    var key := prefix + rest;
    GlobTrailingStar(prefix, key);
    StripStarsAppend(prefix, "*");
    StripStarsOfStarFree(prefix);
    assert StripStars("*") == [];
    ContainsInfix([], prefix, rest);
    assert [] + prefix + rest == key;
  }

  /**
   * Invalidating `issues_user_{user}_project_*` removes every issue-list key
   * of that user, for every project scope and whatever the backend.
   */
  lemma IssuesInvalidated<V>(m: map<string, V>, user: nat, scope: Option<nat>, cap: Capability)
    ensures IssuesKey(user, scope) !in AfterDeletePattern(m, IssuesUserPattern(user), cap)
  {
    var prefix := "issues_user_" + NatStr(user) + "_project_";
    DigitsHaveNoStar(NatStr(user));
    assert '*' !in prefix;
    assert IssuesUserPattern(user) == prefix + "*";
    assert IssuesKey(user, scope) == prefix + ScopeText(scope);
    PrefixPatternInvalidates(m, prefix, ScopeText(scope), cap);
  }

  /** A string whose letters are digits, or `all`, holds no `i`. */
  lemma ScopeHasNoI(scope: Option<nat>)
    ensures 'i' !in ScopeText(scope) && 'i' !in NatStr(if scope.Some? then scope.value else 0)
  {
  }

  /** A string in which the first letter of `sub` never occurs does not contain `sub`. */
  lemma {:induction false} NoHeadNoContains(s: string, sub: string)
    requires sub != [] && sub[0] !in s
    ensures !Contains(s, sub)
    decreases |s|
  {
    if s != [] {
      assert !(sub <= s);
      NoHeadNoContains(s[1..], sub);
    }
  }

  /** The `issues_project_{project}` pattern has no star, begins with `i` and has `p` at index 7. */
  lemma ProjectPatternShape(project: nat)
    ensures StripStars(IssuesProjectPattern(project)) == IssuesProjectPattern(project)
    ensures |IssuesProjectPattern(project)| > 7
    ensures IssuesProjectPattern(project)[0] == 'i' && IssuesProjectPattern(project)[7] == 'p'
  {
    DigitsHaveNoStar(NatStr(project));
    StripStarsOfStarFree(IssuesProjectPattern(project));
  }

  /** An issue-list key begins with `issues_u` and holds no other `i`. */
  lemma {:induction false} IssuesKeyShape(user: nat, scope: Option<nat>)
    ensures |IssuesKey(user, scope)| > 7
    ensures IssuesKey(user, scope)[7] == 'u'
    ensures 'i' !in IssuesKey(user, scope)[1..]
  {
    var rest := "ssues_user_" + NatStr(user) + "_project_" + ScopeText(scope);
    ScopeHasNoI(scope);
    ScopeHasNoI(Some(user));
    assert IssuesKey(user, scope) == "i" + rest;
    assert IssuesKey(user, scope)[1..] == rest;
  }

  /**
   * No key the views ever store contains `issues_project_{project}`: the
   * pattern matches nothing, so a scanning backend always takes the clear-all
   * branch for it.
   */
  lemma {:induction false} ProjectPatternMatchesNoKey(user: nat, scope: Option<nat>, project: nat)
    ensures !Contains(IssuesKey(user, scope), StripStars(IssuesProjectPattern(project)))
    ensures !Contains(UserProjectsKey(user), StripStars(IssuesProjectPattern(project)))
  {
    var base := IssuesProjectPattern(project);
    ProjectPatternShape(project);
    // The issue key differs from the pattern at index 7, and has no other `i`.
    var key := IssuesKey(user, scope);
    IssuesKeyShape(user, scope);
    assert key[7] != base[7];
    assert !(base <= key);
    NoHeadNoContains(key[1..], base);
    // The project-list key holds no `i` at all.
    var pkey := UserProjectsKey(user);
    ScopeHasNoI(Some(user));
    assert 'i' !in pkey;
    NoHeadNoContains(pkey, base);
  }
}
