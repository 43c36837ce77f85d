/**
 * The user record of accounts/models.py and the pure parts of the user
 * manager of accounts/managers.py: the required-field checks, the flag
 * defaults of a superuser, and the record a new user starts as.
 */
module Accounts {
  import opened Common
  import opened Tracking

  /** Users are keyed by an opaque identifier (a UUID in the source). */
  type UserId = nat

  /** A stored password: the encoded output of the hasher, never the raw text. */
  datatype Digest = Digest(encoded: string)

  /**
   * The calls into the framework that this model does not define: e-mail
   * normalisation and password hashing (with its random salt).
   */
  datatype Env = Env(normalizeEmail: string -> string, makePassword: string -> Digest)

  /** The boolean fields a caller may set through `extra_fields`. */
  datatype Flag = IsStaff | IsSuperuser | IsActive

  datatype User = User(
    id: UserId,
    email: string,
    firstName: string,
    lastName: string,
    password: Digest,
    isStaff: bool,
    isSuperuser: bool,
    isActive: bool,
    dateJoined: Instant,
    stamps: Stamps)

  /** Name fields are `CharField(max_length=150, blank=False)`. */
  const NameMaxLength: nat := 150

  predicate NameOk(s: string)
  {
    0 < |s| <= NameMaxLength
  }

  /** `USERNAME_FIELD` and `REQUIRED_FIELDS`: the login field and the other fields a new user needs. */
  const UsernameField: string := "email"
  const RequiredFields: seq<string> := ["first_name", "last_name"]

  /** The `token` property. */
  function Token(u: User): (t: string)
    ensures |t| == 0
  {
    ""
  }

  /** `__str__` shows the login key. */
  function Str(u: User): (s: string)
    ensures s == u.email
  {
    u.email
  }

  /** The model default of each flag. */
  function FlagDefault(f: Flag): bool
  {
    match f
    case IsStaff => false
    case IsSuperuser => false
    case IsActive => true
  }

  /** The value a flag takes on a new record: the one passed, else the model default. */
  function FlagValue(extra: map<Flag, bool>, f: Flag): bool
  {
    if f in extra then extra[f] else FlagDefault(f)
  }

  /**
   * The record `self.model(email=…, last_name=…, first_name=…, **extra_fields)`
   * with its password set, stamped as it is first saved at `now`.
   */
  function NewUser(id: UserId, email: string, lastName: string, firstName: string,
                   password: Digest, extra: map<Flag, bool>, now: Instant): (u: User)
    ensures u.id == id && u.email == email && u.firstName == firstName && u.lastName == lastName
    ensures u.password == password
    ensures extra == map[] ==> !u.isStaff && !u.isSuperuser && u.isActive
    ensures forall f :: f in extra ==> FlagValue(extra, f) == extra[f]
    ensures u.isStaff == FlagValue(extra, IsStaff) && u.isSuperuser == FlagValue(extra, IsSuperuser)
    ensures u.isActive == FlagValue(extra, IsActive)
    ensures u.dateJoined == now && u.stamps == Stamps(now, now)
  {
    User(id, email, firstName, lastName, password,
         FlagValue(extra, IsStaff), FlagValue(extra, IsSuperuser), FlagValue(extra, IsActive),
         now, PreSave(Stamps(now, now), true, now))
  }

  // ---- e-mail is the unique login key ----------------------------------------

  /** `email` is declared `unique=True`. */
  predicate EmailsUnique(users: map<UserId, User>)
  {
    forall a, b :: a in users && b in users && users[a].email == users[b].email ==> a == b
  }

  function UsersWithEmail(users: map<UserId, User>, email: string): set<UserId>
  {
    set id | id in users && users[id].email == email
  }

  predicate EmailTaken(users: map<UserId, User>, email: string)
  {
    exists id :: id in users && users[id].email == email
  }

  /** Logging in by e-mail finds at most one user. */
  lemma LoginKeyIdentifiesOneUser(users: map<UserId, User>, email: string)
    requires EmailsUnique(users)
    ensures |UsersWithEmail(users, email)| <= 1
    ensures |UsersWithEmail(users, email)| == 1 <==> EmailTaken(users, email)
  {
    var found := UsersWithEmail(users, email);
    if found != {} {
      var a :| a in found;
      assert found == {a};
    }
    if EmailTaken(users, email) {
      var id :| id in users && users[id].email == email;
      assert id in found;
    }
  }

  // ---- the checks of the manager ------------------------------------------------

  datatype UserError =
    | EmailRequired
    | FirstNameRequired
    | LastNameRequired
    | StaffRequired
    | SuperuserRequired
    | ActiveRequired
    | IntegrityError

  /** `create_user` refuses an empty e-mail, then an empty first name, then an empty last name. */
  function RequiredFieldError(email: string, lastName: string, firstName: string): (r: Option<UserError>)
    ensures r == None <==> email != "" && firstName != "" && lastName != ""
    ensures email == "" ==> r == Some(EmailRequired)
    ensures email != "" && firstName == "" ==> r == Some(FirstNameRequired)
    ensures email != "" && firstName != "" && lastName == "" ==> r == Some(LastNameRequired)
  {
    if email == "" then Some(EmailRequired)
    else if firstName == "" then Some(FirstNameRequired)
    else if lastName == "" then Some(LastNameRequired)
    else None
  }

  /** The three `setdefault` calls of `create_superuser`: each flag absent becomes true. */
  function SuperuserDefaults(extra: map<Flag, bool>): (r: map<Flag, bool>)
    ensures r.Keys == extra.Keys + {IsStaff, IsSuperuser, IsActive}
    ensures forall f :: f in extra ==> r[f] == extra[f]
    ensures IsStaff !in extra ==> r[IsStaff]
    ensures IsSuperuser !in extra ==> r[IsSuperuser]
    ensures IsActive !in extra ==> r[IsActive]
  {
    var withStaff := if IsStaff in extra then extra else extra[IsStaff := true];
    var withSuper := if IsSuperuser in withStaff then withStaff else withStaff[IsSuperuser := true];
    if IsActive in withSuper then withSuper else withSuper[IsActive := true]
  }

  /** The flag checks of `create_superuser`, in the order staff, superuser, active. */
  function SuperuserFlagError(flags: map<Flag, bool>): (r: Option<UserError>)
    requires IsStaff in flags && IsSuperuser in flags && IsActive in flags
    ensures r == None <==> flags[IsStaff] && flags[IsSuperuser] && flags[IsActive]
    ensures !flags[IsStaff] ==> r == Some(StaffRequired)
    ensures flags[IsStaff] && !flags[IsSuperuser] ==> r == Some(SuperuserRequired)
    ensures flags[IsStaff] && flags[IsSuperuser] && !flags[IsActive] ==> r == Some(ActiveRequired)
  {
    if !flags[IsStaff] then Some(StaffRequired)
    else if !flags[IsSuperuser] then Some(SuperuserRequired)
    else if !flags[IsActive] then Some(ActiveRequired)
    else None
  }

  /**
   * With no flag passed, the defaults pass the checks and the record made from
   * them is staff, superuser and active.
   */
  lemma SuperuserDefaultsPass(id: UserId, email: string, lastName: string,
                                                 firstName: string, password: Digest, now: Instant)
    ensures SuperuserFlagError(SuperuserDefaults(map[])) == None
    ensures var u := NewUser(id, email, lastName, firstName, password, SuperuserDefaults(map[]), now);
            u.isStaff && u.isSuperuser && u.isActive
  {
  }
}
