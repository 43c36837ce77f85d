/**
 * The database tables the core works on: users, projects and contributor
 * rows, with the constraints the models declare (primary keys, the unique
 * e-mail, `unique_together`, foreign keys with cascading deletes), and the
 * user manager of accounts/managers.py, which writes users into them.
 */
module Database {
  import opened Common
  import opened Tracking
  import opened Accounts
  import opened Projects

  /** The rows a contributor insert may add: a new key and a new pair, both ends present. */
  predicate CanAddContributor(users: map<UserId, User>, projects: map<ProjectId, Project>,
                              rows: Rows, c: Contributor)
  {
    c.id !in rows && c.user in users && c.project in projects && !HasRow(rows, c.user, c.project)
  }

  class Store {
    var users: map<UserId, User>
    var projects: map<ProjectId, Project>
    var contributors: Rows

    /** The constraints the database keeps. */
    predicate Valid()
      reads this
    {
      && (forall id :: id in users ==> users[id].id == id)
      && (forall id :: id in projects ==> projects[id].id == id)
      && (forall k :: k in contributors ==> contributors[k].id == k)
      && EmailsUnique(users)
      && PairsUnique(contributors)
      && (forall k :: k in contributors ==> contributors[k].user in users && contributors[k].project in projects)
    }

    constructor ()
      ensures Valid()
      ensures users == map[] && projects == map[] && contributors == map[]
    {
      users, projects, contributors := map[], map[], map[];
    }

    /** `save()` of a new project: refused when its key is already used. */
    method InsertProject(p: Project) returns (ok: bool)
      requires Valid()
      modifies this
      ensures Valid()
      ensures ok <==> p.id !in old(projects)
      ensures projects == if ok then old(projects)[p.id := p] else old(projects)
      ensures users == old(users) && contributors == old(contributors)
    {
      ok := p.id !in projects;
      if ok {
        projects := projects[p.id := p];
      }
    }

    /**
     * `Contributor.objects.create`: refused when the key is used, when the user
     * or the project does not exist, or when the pair already has a row.
     */
    method InsertContributor(c: Contributor) returns (ok: bool)
      requires Valid()
      modifies this
      ensures Valid()
      ensures ok <==> CanAddContributor(old(users), old(projects), old(contributors), c)
      ensures contributors == if ok then old(contributors)[c.id := c] else old(contributors)
      ensures users == old(users) && projects == old(projects)
    {
      ok := CanAddContributor(users, projects, contributors, c);
      if ok {
        AddKeepsPairsUnique(contributors, c);
        contributors := contributors[c.id := c];
      }
    }

    /** Deleting a project deletes its contributor rows with it. */
    method DeleteProject(p: ProjectId)
      requires Valid()
      modifies this
      ensures Valid()
      ensures projects == old(projects) - {p}
      ensures contributors == WithoutProject(old(contributors), p)
      ensures users == old(users)
    {
      DeletesKeepPairsUnique(contributors, p, 0);
      projects := projects - {p};
      contributors := WithoutProject(contributors, p);
    }

    /** Deleting a user deletes its contributor rows with it. */
    method DeleteUser(u: UserId)
      requires Valid()
      modifies this
      ensures Valid()
      ensures users == old(users) - {u}
      ensures contributors == WithoutUser(old(contributors), u)
      ensures projects == old(projects)
    {
      DeletesKeepPairsUnique(contributors, 0, u);
      users := users - {u};
      contributors := WithoutUser(contributors, u);
    }

    /**
     * `CustomUserManager.create_user`. The required fields are checked in
     * order; then the e-mail is normalised, the record built, its password
     * replaced by a digest and the record saved, which the database refuses
     * when the key `newId` or the normalised e-mail is already taken.
     * `newId` is the random UUID the record draws and `now` the clock.
     */
    method CreateUser(env: Env, email: string, lastName: string, firstName: string, password: string,
                      extra: map<Flag, bool>, newId: UserId, now: Instant)
      returns (r: Result<UserId, UserError>)
      requires Valid()
      modifies this
      ensures Valid()
      ensures projects == old(projects) && contributors == old(contributors)
      ensures RequiredFieldError(email, lastName, firstName).Some? ==>
                r == Err(RequiredFieldError(email, lastName, firstName).value) && users == old(users)
      ensures RequiredFieldError(email, lastName, firstName).None? &&
              (newId in old(users) || EmailTaken(old(users), env.normalizeEmail(email))) ==>
                r == Err(IntegrityError) && users == old(users)
      ensures r.Ok? <==>
                RequiredFieldError(email, lastName, firstName).None? && newId !in old(users)
                && !EmailTaken(old(users), env.normalizeEmail(email))
      ensures r.Ok? ==> r.value == newId && users == old(users)[newId :=
                NewUser(newId, env.normalizeEmail(email), lastName, firstName,
                        env.makePassword(password), extra, now)]
    {
      var missing := RequiredFieldError(email, lastName, firstName);
      if missing.Some? {
        return Err(missing.value);
      }
      var normalized := env.normalizeEmail(email);
      var user := NewUser(newId, normalized, lastName, firstName, Digest(""), extra, now);
      // `password = make_password(raw)`, then `set_password(raw)` hashes it again.
      user := user.(password := env.makePassword(password));
      user := user.(password := env.makePassword(password));
      if newId in users || EmailTaken(users, normalized) {
        return Err(IntegrityError);
      }
      users := users[newId := user];
      r := Ok(newId);
    }

    /**
     * `CustomUserManager.create_superuser`: each absent flag is defaulted to
     * true, the three flags are checked in order, and the call is passed on
     * to `create_user`.
     */
    method CreateSuperuser(env: Env, email: string, lastName: string, firstName: string, password: string,
                           extra: map<Flag, bool>, newId: UserId, now: Instant)
      returns (r: Result<UserId, UserError>)
      requires Valid()
      modifies this
      ensures Valid()
      ensures projects == old(projects) && contributors == old(contributors)
      ensures SuperuserFlagError(SuperuserDefaults(extra)).Some? ==>
                r == Err(SuperuserFlagError(SuperuserDefaults(extra)).value) && users == old(users)
      ensures SuperuserFlagError(SuperuserDefaults(extra)).None? && RequiredFieldError(email, lastName, firstName).Some? ==>
                r == Err(RequiredFieldError(email, lastName, firstName).value) && users == old(users)
      ensures r.Ok? <==>
                SuperuserFlagError(SuperuserDefaults(extra)).None? && RequiredFieldError(email, lastName, firstName).None?
                && newId !in old(users) && !EmailTaken(old(users), env.normalizeEmail(email))
      ensures r.Err? ==> users == old(users)
      ensures r.Ok? ==> r.value == newId && users == old(users)[newId := NewUser(newId, env.normalizeEmail(email),
                lastName, firstName, env.makePassword(password), SuperuserDefaults(extra), now)]
      ensures r.Ok? ==> users[newId].isStaff && users[newId].isSuperuser && users[newId].isActive
    {
      var fields := extra;
      if IsStaff !in fields { fields := fields[IsStaff := true]; }
      if IsSuperuser !in fields { fields := fields[IsSuperuser := true]; }
      if IsActive !in fields { fields := fields[IsActive := true]; }
      assert fields == SuperuserDefaults(extra);
      if !fields[IsStaff] { return Err(StaffRequired); }
      if !fields[IsSuperuser] { return Err(SuperuserRequired); }
      if !fields[IsActive] { return Err(ActiveRequired); }
      r := CreateUser(env, email, lastName, firstName, password, fields, newId, now);
    }
  }
}
