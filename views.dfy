/**
 * The endpoints of apis/views.py: signup, the caller's project list, and
 * project creation, which saves the project and then, in a second write,
 * the caller's AUTHOR row.
 */
module Views {
  import opened Common
  import opened Tracking
  import opened Accounts
  import opened Projects
  import opened Permissions
  import opened Database
  import opened Serializers

  // ---- SignupAPIView -------------------------------------------------------

  datatype SignupResponse =
    | Created(data: map<string, FieldValue>)
    | BadRequest(errors: set<string>)
    | ServerError

  function SignupStatus(resp: SignupResponse): (status: int)
    ensures status == 201 <==> resp.Created?
    ensures status == 400 <==> resp.BadRequest?
  {
    match resp
    case Created(_) => 201
    case BadRequest(_) => 400
    case ServerError => 500
  }

  /**
   * `SignupAPIView.post`. Valid data is saved and answered with 201; the
   * saved instance is always truthy, so the fall-through is reached only for
   * invalid data, where `create` validates the same data again and answers
   * 400. A save the database refuses (a taken key or normalised e-mail)
   * escapes as a server error.
   */
  method SignupPost(db: Store, env: Env, checks: Checks, input: SignupInput, newId: UserId, now: Instant)
    returns (resp: SignupResponse)
    requires db.Valid()
    modifies db
    ensures db.Valid()
    ensures db.projects == old(db.projects) && db.contributors == old(db.contributors)
    ensures IsValid(input, old(db.users), checks).Err? ==>
              resp == BadRequest(IsValid(input, old(db.users), checks).error) && db.users == old(db.users)
    ensures IsValid(input, old(db.users), checks).Ok? ==> SignupStatus(resp) != 400
    ensures resp.ServerError? ==> db.users == old(db.users)
    ensures resp.Created? ==>
              && IsValid(input, old(db.users), checks).Ok?
              && newId !in old(db.users) && db.users.Keys == old(db.users).Keys + {newId}
              && (forall id :: id in old(db.users) ==> db.users[id] == old(db.users)[id])
              && db.users == old(db.users)[newId := NewUser(newId, env.normalizeEmail(input.email.value),
                                                            input.lastName.value, input.firstName.value,
                                                            env.makePassword(input.password.value), map[], now)]
              && db.users[newId].email == env.normalizeEmail(input.email.value)
              && db.users[newId].password == env.makePassword(input.password.value)
              && !db.users[newId].isStaff && !db.users[newId].isSuperuser && db.users[newId].isActive
              && resp.data == Representation(db.users[newId])
    ensures IsValid(input, old(db.users), checks).Ok? ==>
              (resp.Created? <==> newId !in old(db.users)
                                  && !EmailTaken(old(db.users), env.normalizeEmail(input.email.value)))
  {
    var validation := IsValid(input, db.users, checks);
    if validation.Ok? {
      ValidDataPassesRequiredFields(input, db.users, checks);
      var user := Create(db, env, validation.value, newId, now);
      if user.Ok? {
        return Created(Representation(db.users[user.value]));
      }
      return ServerError;
    }
    resp := BadRequest(validation.error);
  }

  // ---- ProjectListAPIView ----------------------------------------------------

  /** `get_queryset`: the projects the caller holds a Contributor row for. */
  function ProjectList(caller: UserId, projects: map<ProjectId, Project>, rows: Rows): (r: map<ProjectId, Project>)
    ensures r.Keys == projects.Keys * ProjectsOf(rows, caller)
    ensures forall p :: p in r ==> r[p] == projects[p]
  {
    map p | p in projects && HasRow(rows, caller, p) :: projects[p]
  }

  /**
   * For a caller who is not a superuser, a project is listed exactly when
   * IsProjectContributor lets the caller into it.
   */
  lemma ListingAgreesWithPermission(user: User, projects: map<ProjectId, Project>,
                                                      rows: Rows, p: ProjectId)
    requires !user.isSuperuser
    ensures p in ProjectList(user.id, projects, rows)
            <==> ProjectContributorPermission(CallerOf(user), projects.Keys, rows, p) == Allow
  {
  }

  /** The row `post` adds for the creator of a project. */
  const OwnerRole: string := "Propriétaire"

  function OwnerRow(id: ContributorId, user: UserId, project: ProjectId): (c: Contributor)
    ensures IsAuthor(c) && ContributorFieldsOk(c)
    ensures c.id == id && c.user == user && c.project == project
  {
    Contributor(id, Author, OwnerRole, user, project)
  }

  /** No row can belong to a project the table of projects does not have yet. */
  lemma NewProjectHasNoRows(rows: Rows, projects: set<ProjectId>, p: ProjectId)
    requires forall k :: k in rows ==> rows[k].project in projects
    requires p !in projects
    ensures ContributorsOf(rows, p) == {} && AuthorsOf(rows, p) == {}
  {
  }

  /**
   * After the two writes of a successful creation, the new project has the
   * creator as its only contributor and only author; the creator passes
   * IsProjectContributor and, whatever the method, the object test of
   * IsProjectAuthorOrReadOnlyContributor; every other project keeps its
   * contributors.
   */
  lemma CreatorControlsNewProject(user: User, projects: map<ProjectId, Project>,
                                                    rows: Rows, p: Project, cid: ContributorId)
    requires forall k :: k in rows ==> rows[k].project in projects
    requires PairsUnique(rows)
    requires p.id !in projects && cid !in rows
    ensures var rows' := rows[cid := OwnerRow(cid, user.id, p.id)];
            && ContributorsOf(rows', p.id) == {user.id}
            && AuthorsOf(rows', p.id) == {user.id}
            && PairsUnique(rows')
            && ProjectContributorPermission(CallerOf(user), projects.Keys + {p.id}, rows', p.id) == Allow
            && (forall m :: AuthorOrReadOnlyObjectPermission(CallerOf(user), projects.Keys + {p.id}, rows', p.id, m) == Allow)
            && (forall q :: q != p.id ==> ContributorsOf(rows', q) == ContributorsOf(rows, q))
  {
    var row := OwnerRow(cid, user.id, p.id);
    var rows' := rows[cid := row];
    NewProjectHasNoRows(rows, projects.Keys, p.id);
    AddRowContributors(rows, row, p.id);
    assert ContributorsOf(rows', p.id) == {user.id};
    assert HasAuthorRow(rows', user.id, p.id) by {
      assert cid in rows' && rows'[cid] == row;
    }
    assert AuthorsOf(rows', p.id) == {user.id};
    AddKeepsPairsUnique(rows, row);
    forall q | q != p.id ensures ContributorsOf(rows', q) == ContributorsOf(rows, q) {
      AddRowContributors(rows, row, q);
    }
  }

  datatype ProjectResponse =
    | ProjectCreated(project: Project)
    | ProjectInvalid(errors: set<string>)
    | ProjectServerError

  /**
   * `ProjectListAPIView.post` for the signed-in user `caller`. Invalid data is
   * refused before anything is written (the 400 of the last line is never
   * reached: `is_valid(raise_exception=True)` raises instead, answered 400 by
   * the framework). Otherwise the project is saved, and then the AUTHOR row
   * of the caller, as two separate writes: a refused first write changes
   * nothing, a refused second write leaves the project saved without its
   * author. `newProject` and `newRow` are the random keys the two records draw.
   */
  method ProjectCreate(db: Store, caller: UserId, input: ProjectInput, newProject: ProjectId, newRow: ContributorId)
    returns (resp: ProjectResponse)
    requires db.Valid() && caller in db.users
    modifies db
    ensures db.Valid()
    ensures db.users == old(db.users)
    ensures CleanProject(input, newProject).Err? ==>
              resp == ProjectInvalid(CleanProject(input, newProject).error)
              && db.projects == old(db.projects) && db.contributors == old(db.contributors)
    ensures resp.ProjectCreated? <==>
              CleanProject(input, newProject).Ok? && newProject !in old(db.projects) && newRow !in old(db.contributors)
    ensures resp.ProjectCreated? ==>
              && resp.project == CleanProject(input, newProject).value
              && ProjectFieldsOk(resp.project)
              && db.projects == old(db.projects)[newProject := resp.project]
              && db.contributors == old(db.contributors)[newRow := OwnerRow(newRow, caller, newProject)]
              && AuthorsOf(db.contributors, newProject) == {caller}
              && ProjectContributorPermission(CallerOf(db.users[caller]), db.projects.Keys, db.contributors, newProject) == Allow
              && newProject in ProjectList(caller, db.projects, db.contributors)
    ensures resp.ProjectServerError? ==>
              && CleanProject(input, newProject).Ok?
              && db.contributors == old(db.contributors)
              && (newProject in old(db.projects) ==> db.projects == old(db.projects))
              && (newProject !in old(db.projects) ==>
                    && newRow in old(db.contributors)
                    && db.projects == old(db.projects)[newProject := CleanProject(input, newProject).value]
                    && ContributorsOf(db.contributors, newProject) == {})
  {
    var cleaned := CleanProject(input, newProject);
    if cleaned.Err? {
      return ProjectInvalid(cleaned.error);
    }
    var project := cleaned.value;
    var saved := db.InsertProject(project);
    if !saved {
      return ProjectServerError;
    }
    var row := OwnerRow(newRow, caller, newProject);
    var added := db.InsertContributor(row);
    if !added {
      return ProjectServerError;
    }
    CreatorControlsNewProject(db.users[caller], old(db.projects), old(db.contributors), project, newRow);
    resp := ProjectCreated(project);
  }
}
