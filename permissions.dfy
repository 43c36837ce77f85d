/**
 * The three permission classes of projects/permissions.py as decision
 * functions. Each looks up what it needs first (a lookup that finds nothing
 * ends the request with "not found"), then runs its early-return tests.
 */
module Permissions {
  import opened Accounts
  import opened Projects

  /** The outcome of a permission test; `NotFound` is a lookup that raised 404. */
  datatype Decision = Allow | Deny | NotFound

  /**
   * The user attached to the request. An anonymous user is neither
   * authenticated nor a superuser; a signed-in user carries the
   * `is_superuser` flag of its record.
   */
  datatype Caller = Anonymous | SignedIn(id: UserId, superuser: bool)
  {
    predicate IsAuthenticated() { SignedIn? }
    predicate IsSuperuser() { SignedIn? && superuser }
  }

  /** The request of a caller signed in as the stored user `u`. */
  function CallerOf(u: User): (c: Caller)
    ensures c.IsAuthenticated() && c.id == u.id
    ensures c.IsSuperuser() <==> u.isSuperuser
  {
    SignedIn(u.id, u.isSuperuser)
  }

  /** `permissions.SAFE_METHODS`. */
  predicate IsSafeMethod(httpMethod: string)
  {
    httpMethod in {"GET", "HEAD", "OPTIONS"}
  }

  /** The caller holds a Contributor row for the project (`is_contributor`). */
  predicate CallerContributes(caller: Caller, rows: Rows, p: ProjectId)
  {
    caller.SignedIn? && HasRow(rows, caller.id, p)
  }

  // ---- IsProjectContributor ---------------------------------------------------

  /**
   * `IsProjectContributor.has_permission`: the project of the path must exist,
   * even for a superuser, because its lookup comes first; then a superuser
   * passes; then an authenticated contributor of the project passes.
   */
  function ProjectContributorPermission(caller: Caller, projects: set<ProjectId>, rows: Rows,
                                        p: ProjectId): (d: Decision)
    ensures p !in projects <==> d == NotFound
    ensures p in projects && caller.IsSuperuser() ==> d == Allow
    ensures p in projects && !caller.IsSuperuser() ==>
              (d == Allow <==> caller.IsAuthenticated() && HasRow(rows, caller.id, p))
    ensures d == Deny ==> !caller.IsSuperuser() && !CallerContributes(caller, rows, p)
  {
    if p !in projects then NotFound
    else if caller.IsSuperuser() then Allow
    else if caller.IsAuthenticated() && CallerContributes(caller, rows, p) then Allow
    else Deny
  }

  // ---- IsProjectAuthorOrReadOnlyContributor -------------------------------------

  /**
   * `has_permission` of IsProjectAuthorOrReadOnlyContributor, and the identical
   * `has_permission` of IsCommentAuthor: authentication alone.
   */
  function AuthenticatedOnlyPermission(caller: Caller): (d: Decision)
    ensures d != NotFound
    ensures d == Allow <==> caller.IsAuthenticated()
  {
    if caller.IsAuthenticated() then Allow else Deny
  }

  /**
   * `has_object_permission` of IsProjectAuthorOrReadOnlyContributor. The
   * project and then the caller's Contributor row are looked up before the
   * superuser test, so a superuser without a row for the project gets
   * "not found". Then a superuser passes, an AUTHOR row passes for every
   * method, and any other contributor passes for the safe methods only.
   *
   * The framework runs this test only after `has_permission` of the same
   * class has allowed the request, so the caller is signed in; the
   * uniqueness constraint makes the row lookup find a single row.
   */
  function AuthorOrReadOnlyObjectPermission(caller: Caller, projects: set<ProjectId>, rows: Rows,
                                            p: ProjectId, httpMethod: string): (d: Decision)
    requires caller.IsAuthenticated()
    requires PairsUnique(rows)
    ensures d == NotFound <==> p !in projects || !HasRow(rows, caller.id, p)
    ensures d != NotFound && caller.IsSuperuser() ==> d == Allow
    ensures d != NotFound && HasAuthorRow(rows, caller.id, p) ==> d == Allow
    ensures d != NotFound && !caller.IsSuperuser() && !HasAuthorRow(rows, caller.id, p) ==>
              (d == Allow <==> IsSafeMethod(httpMethod))
  {
    if p !in projects then NotFound
    else if !HasRow(rows, caller.id, p) then NotFound
    else if caller.IsSuperuser() then Allow
    else if HasAuthorRow(rows, caller.id, p) then Allow
    else if CallerContributes(caller, rows, p) && IsSafeMethod(httpMethod) then Allow
    else Deny
  }

  /**
   * Whatever the method and the caller's flags, passing the object test of
   * IsProjectAuthorOrReadOnlyContributor means passing IsProjectContributor.
   */
  lemma ObjectPermissionImpliesContributor(caller: Caller, projects: set<ProjectId>,
                                                             rows: Rows, p: ProjectId, httpMethod: string)
    requires caller.IsAuthenticated() && PairsUnique(rows)
    ensures AuthorOrReadOnlyObjectPermission(caller, projects, rows, p, httpMethod) == Allow
            ==> ProjectContributorPermission(caller, projects, rows, p) == Allow
  {
  }

  /**
   * The read-only rule reaches a caller only when the AUTHOR test failed, so
   * a mutating method is allowed exactly to superusers and authors.
   */
  lemma MutationNeedsAuthor(caller: Caller, projects: set<ProjectId>, rows: Rows,
                                              p: ProjectId, httpMethod: string)
    requires caller.IsAuthenticated() && PairsUnique(rows)
    requires p in projects && HasRow(rows, caller.id, p) && !IsSafeMethod(httpMethod)
    ensures AuthorOrReadOnlyObjectPermission(caller, projects, rows, p, httpMethod) == Allow
            <==> caller.IsSuperuser() || HasAuthorRow(rows, caller.id, p)
  {
  }

  // ---- IsCommentAuthor -------------------------------------------------------

  /** A comment, of which only the author reference matters here. */
  datatype Comment = Comment(author: UserId)

  type CommentId = nat

  /**
   * `has_object_permission` of IsCommentAuthor: the comment of the path must
   * exist; then a superuser or the comment's author passes.
   */
  function CommentAuthorObjectPermission(caller: Caller, comments: map<CommentId, Comment>,
                                         c: CommentId): (d: Decision)
    ensures c !in comments <==> d == NotFound
    ensures c in comments ==>
              (d == Allow <==> caller.IsSuperuser() || (caller.SignedIn? && comments[c].author == caller.id))
  {
    if c !in comments then NotFound
    else if caller.IsSuperuser() then Allow
    else if caller.SignedIn? && comments[c].author == caller.id then Allow
    else Deny
  }
}
