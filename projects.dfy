/**
 * The Project and Contributor models of projects/models.py: their choice
 * fields and length bounds, and the relations the Contributor table gives
 * between users and projects (the `contributors` many-to-many through it,
 * its `unique_together`, and what a cascading delete leaves of it).
 */
module Projects {
  import opened Common
  import opened Accounts

  type ProjectId = nat
  type ContributorId = nat

  // ---- Project -----------------------------------------------------------------

  datatype ProjectType = BackEnd | FrontEnd | Ios | Android

  const TitleMaxLength: nat := 128
  const DescriptionMaxLength: nat := 2048
  const TypeMaxLength: nat := 9

  /** The stored value of each choice of PROJECT_TYPE; each fits the column. */
  function TypeCode(t: ProjectType): (code: string)
    ensures 0 < |code| <= TypeMaxLength
  {
    match t
    case BackEnd => "BACK-END"
    case FrontEnd => "FRONT-END"
    case Ios => "IOS"
    case Android => "ANDROID"
  }

  /** The choice field: a string is accepted exactly when it is one of the stored values. */
  function ParseType(code: string): (r: Option<ProjectType>)
    ensures r.Some? ==> TypeCode(r.value) == code
    ensures r.None? ==> forall t :: TypeCode(t) != code
  {
    if code == "BACK-END" then Some(BackEnd)
    else if code == "FRONT-END" then Some(FrontEnd)
    else if code == "IOS" then Some(Ios)
    else if code == "ANDROID" then Some(Android)
    else None
  }

  lemma ParseTypeCode(t: ProjectType)
    ensures ParseType(TypeCode(t)) == Some(t)
  {
  }

  datatype Project = Project(id: ProjectId, title: string, description: string, kind: ProjectType)

  /** `title` is a required CharField of at most 128; `description` may be blank, at most 2048. */
  predicate ProjectFieldsOk(p: Project)
  {
    0 < |p.title| <= TitleMaxLength && |p.description| <= DescriptionMaxLength
  }

  /** The request data of a new project; a field the request leaves out is `None`. */
  datatype ProjectInput = ProjectInput(title: Option<string>, description: Option<string>, kind: Option<string>)

  /**
   * Validation of a new project against the model's fields: the names of the
   * fields in error, or the project to save under the identifier `id`. A
   * missing description takes the model default, the empty string.
   */
  function CleanProject(input: ProjectInput, id: ProjectId): (r: Result<Project, set<string>>)
    ensures r.Ok? ==> ProjectFieldsOk(r.value) && r.value.id == id
    ensures r.Ok? ==> Some(r.value.title) == input.title && Some(TypeCode(r.value.kind)) == input.kind
    ensures r.Ok? ==> r.value.description == (if input.description.Some? then input.description.value else "")
    ensures r.Err? ==> r.error != {} && r.error <= {"title", "description", "type"}
    ensures r.Err? <==> (
      || !(input.title.Some? && 0 < |input.title.value| <= TitleMaxLength && FreeOfNull(input.title.value))
      || (input.description.Some? && (|input.description.value| > DescriptionMaxLength
                                      || !FreeOfNull(input.description.value)))
      || !(input.kind.Some? && ParseType(input.kind.value).Some?))
  {
    var titleOk := input.title.Some? && 0 < |input.title.value| <= TitleMaxLength && FreeOfNull(input.title.value);
    var description := if input.description.Some? then input.description.value else "";
    var descriptionOk := |description| <= DescriptionMaxLength && FreeOfNull(description);
    var kind := if input.kind.Some? then ParseType(input.kind.value) else None;
    var errors := (if titleOk then {} else {"title"})
                + (if descriptionOk then {} else {"description"})
                + (if kind.Some? then {} else {"type"});
    if errors == {} then Ok(Project(id, input.title.value, description, kind.value))
    else Err(errors)
  }

  // ---- Contributor -------------------------------------------------------------

  datatype Permission = Author | Assigned

  const PermissionMaxLength: nat := 8
  const RoleMaxLength: nat := 128

  /** The stored value of each choice of CONTRIBUTOR_PERMISSION; each fits the column. */
  function PermissionCode(p: Permission): (code: string)
    ensures 0 < |code| <= PermissionMaxLength
  {
    match p
    case Author => "AUTHOR"
    case Assigned => "ASSIGNED"
  }

  function ParsePermission(code: string): (r: Option<Permission>)
    ensures r.Some? ==> PermissionCode(r.value) == code
    ensures r.None? ==> forall p :: PermissionCode(p) != code
  {
    if code == "AUTHOR" then Some(Author)
    else if code == "ASSIGNED" then Some(Assigned)
    else None
  }

  datatype Contributor = Contributor(
    id: ContributorId,
    permission: Permission,
    role: string,
    user: UserId,
    project: ProjectId)

  /** `role` is a required CharField of at most 128. */
  predicate ContributorFieldsOk(c: Contributor)
  {
    0 < |c.role| <= RoleMaxLength
  }

  /** `is_author()`: the row grants the AUTHOR permission. */
  predicate IsAuthor(c: Contributor)
  {
    c.permission == Author
  }

  // ---- the Contributor table -------------------------------------------------

  type Rows = map<ContributorId, Contributor>

  /** `is_contributor`: some row links user `u` to project `p`. */
  predicate HasRow(rows: Rows, u: UserId, p: ProjectId)
  {
    exists k :: k in rows && rows[k].user == u && rows[k].project == p
  }

  /** Some row links `u` to `p` with the AUTHOR permission. */
  predicate HasAuthorRow(rows: Rows, u: UserId, p: ProjectId)
  {
    exists k :: k in rows && rows[k].user == u && rows[k].project == p && IsAuthor(rows[k])
  }

  /** `unique_together = ('user_id', 'project_id')`. */
  predicate PairsUnique(rows: Rows)
  {
    forall k, l ::
      k in rows && l in rows && rows[k].user == rows[l].user && rows[k].project == rows[l].project
      ==> k == l
  }

  /** The `contributors` many-to-many of a project: the users holding a row for it. */
  function ContributorsOf(rows: Rows, p: ProjectId): (r: set<UserId>)
    ensures forall u :: u in r <==> HasRow(rows, u, p)
  {
    set k | k in rows && rows[k].project == p :: rows[k].user
  }

  /** The users holding an AUTHOR row for a project. */
  function AuthorsOf(rows: Rows, p: ProjectId): (r: set<UserId>)
    ensures r <= ContributorsOf(rows, p)
    ensures forall u :: u in r <==> HasAuthorRow(rows, u, p)
  {
    set k | k in rows && rows[k].project == p && IsAuthor(rows[k]) :: rows[k].user
  }

  /** The projects a user holds a row for (the reverse side of `contributors`). */
  function ProjectsOf(rows: Rows, u: UserId): (r: set<ProjectId>)
    ensures forall p :: p in r <==> u in ContributorsOf(rows, p)
  {
    set k | k in rows && rows[k].user == u :: rows[k].project
  }

  /** A row may be added when its key is new and its pair is not yet present. */
  lemma AddKeepsPairsUnique(rows: Rows, c: Contributor)
    requires PairsUnique(rows) && c.id !in rows && !HasRow(rows, c.user, c.project)
    ensures PairsUnique(rows[c.id := c])
  {
  }

  /** Adding a row adds its user to the contributors of its project and changes no other project. */
  lemma AddRowContributors(rows: Rows, c: Contributor, p: ProjectId)
    requires c.id !in rows
    ensures ContributorsOf(rows[c.id := c], p)
            == if p == c.project then ContributorsOf(rows, p) + {c.user} else ContributorsOf(rows, p)
  {
    var rows' := rows[c.id := c];
    forall u ensures u in ContributorsOf(rows', p) <==> u in ContributorsOf(rows, p) || (p == c.project && u == c.user) {
      if HasRow(rows', u, p) {
        var k :| k in rows' && rows'[k].user == u && rows'[k].project == p;
        if k != c.id { assert k in rows; }
      }
      if HasRow(rows, u, p) {
        var k :| k in rows && rows[k].user == u && rows[k].project == p;
        assert k in rows' && rows'[k] == rows[k];
      }
      if p == c.project && u == c.user { assert c.id in rows'; }
    }
  }

  // ---- cascading deletes (on_delete=CASCADE) -------------------------------------

  /** What deleting project `p` leaves of the table. */
  function WithoutProject(rows: Rows, p: ProjectId): (r: Rows)
    ensures forall k :: k in r <==> k in rows && rows[k].project != p
    ensures forall k :: k in r ==> r[k] == rows[k]
  {
    map k | k in rows && rows[k].project != p :: rows[k]
  }

  /** What deleting user `u` leaves of the table. */
  function WithoutUser(rows: Rows, u: UserId): (r: Rows)
    ensures forall k :: k in r <==> k in rows && rows[k].user != u
    ensures forall k :: k in r ==> r[k] == rows[k]
  {
    map k | k in rows && rows[k].user != u :: rows[k]
  }

  /** After deleting a project it has no contributors, and every other project keeps its own. */
  lemma DeleteProjectContributors(rows: Rows, p: ProjectId, q: ProjectId)
    ensures ContributorsOf(WithoutProject(rows, p), p) == {}
    ensures q != p ==> ContributorsOf(WithoutProject(rows, p), q) == ContributorsOf(rows, q)
  {
  }

  /** After deleting a user it holds no row, and every other user keeps its projects. */
  lemma DeleteUserProjects(rows: Rows, u: UserId, v: UserId)
    ensures ProjectsOf(WithoutUser(rows, u), u) == {}
    ensures v != u ==> ProjectsOf(WithoutUser(rows, u), v) == ProjectsOf(rows, v)
  {
  }

  /** Deletes only remove rows, so they keep the uniqueness constraint. */
  lemma DeletesKeepPairsUnique(rows: Rows, p: ProjectId, u: UserId)
    requires PairsUnique(rows)
    ensures PairsUnique(WithoutProject(rows, p)) && PairsUnique(WithoutUser(rows, u))
  {
  }
}
