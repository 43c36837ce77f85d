# SoftDesk authorization core in Dafny

This project models the core of SoftDesk, a project-management API built on Django and Django REST
framework. Users sign up with their e-mail address, create projects, and become contributors of
projects. A contributor row of a project carries the permission AUTHOR or ASSIGNED.

The model covers these parts of the repository:

- **Permissions** (`projects/permissions.py`). The three permission classes are decision functions.
  Each returns `Allow`, `Deny` or `NotFound`, where `NotFound` is the 404 of `get_object_or_404`.
  Their postconditions keep the order of the source: the lookups come before the superuser test.
- **Projects** (`projects/models.py`). This covers the project and contributor records, their
  choice fields and length bounds, and the relations the contributor table defines between users
  and projects. The `contributors` many-to-many is `ContributorsOf`. Its reverse side is
  `ProjectsOf`. Cascading deletes are `WithoutProject` and `WithoutUser`.
- **Database**. The database is the class `Store`, which holds the tables of users, projects and
  contributor rows. Its `Valid()` predicate states the declared constraints:
  - primary keys;
  - the unique e-mail;
  - `unique_together` on (user, project);
  - foreign keys.

  The class also has the insert and cascading-delete methods, and the user manager of
  `accounts/managers.py` (`create_user`, `create_superuser`).
- **Accounts** (`accounts/models.py`). The user record, its defaults, `token` and `__str__`.
- **Serializers** (`apis/serializers.py`). The signup serializer: field validation, `validate`,
  `create` with its `pop("password2")`, and the representation it returns.
- **Views** (`apis/views.py`). Signup, the caller's project list, and project creation. Creating a
  project makes two separate writes: the project, then the caller's AUTHOR row. These are composed
  with the permissions to prove that the creator can access the new project.
- **Validators** (`helpers/validators.py`). The two regular-expression validators, written as
  per-character membership tests.
- **Tracking** (`helpers/models.py`). The two `auto_now_add` timestamps and the newest-first
  default order. `CustomUser` takes its `Meta` from its first abstract parent, `AbstractBaseUser`,
  so that order reaches no concrete model in these files, and no listing here uses it.
  `Tracking.OrderNewestFirst` describes the order on its own terms.

Some things the source draws from outside are parameters of the model:

- the framework calls: e-mail normalisation, password hashing, `validate_password`, e-mail syntax
  checking;
- the random UUIDs new records draw;
- the clock.

The model uses a parameter wherever the source would have called them.

The model follows these details of the code:

- `IsProjectContributor` answers "not found", not "forbidden", for a missing project, and it does so
  even for a superuser.
- `has_object_permission` answers "not found" to a superuser who has no contributor row for the
  project.
- Project creation is two separate writes and is not atomic.
- The creator's role is `"Propriétaire"`.
- Only the user record inherits the timestamps. `updated_at` is declared `auto_now_add`, so later
  saves never refresh it.

Some names the code calls are not defined in the files that make up this model, so the model gives
them a meaning:

- `is_contributor(project)`: some contributor row links the user to the project (`HasRow`).
- `is_author()`: the row's permission is AUTHOR (`IsAuthor`).
- `user.project_contributors`: the projects the user holds a row for (`ProjectsOf`). The
  many-to-many itself declares the related name `contributions`.
- `Comment`: imported by the permissions module but not defined in `projects/models.py`. The model
  keeps only a comment's author.

Project and Contributor do not inherit `TrackingModel`, although `ProjectSerializer` and
`ContributorSerializer` list `created_at` and `updated_at` (apis/serializers.py:48-56 and 63-70).
A model serializer cannot build a field its model lacks, so as written project creation stops
with a configuration error in `is_valid`, before any write. The project list fails even earlier:
`get_queryset` reads `user.project_contributors` (apis/views.py:33), which is not an attribute of
the user model, whose reverse names are `contributions` and `contributor_set`, so a GET raises an
attribute error before any serializer field is built. The model describes the evidently intended
flow instead (see "## Left out").

## Model

| member | source | states |
|---|---|---|
| Validators.IsAlphaAsWritten | helpers/validators.py:4-8 | the letters pattern as written accepts a string iff it is all letters-class, or is all letters-class followed by one final line feed |
| Validators.IsAlpha | helpers/validators.py:4-8 | the corrected letters validator: every character is in the class of line 5 (no body-independent contract; the lemmas below state its properties) |
| Validators.IsCharField | helpers/validators.py:11-15 | the special-character pattern as written, `$` included (no body-independent contract; CharFieldIsPerCharacter states what it accepts) |
| Validators.CharFieldIsPerCharacter | helpers/validators.py:11-15 | the anchored pattern, read with Python's `$`, accepts a string iff none of its characters is among the 23 excluded ones (& ¤ @ = % < > # ~ / § ^ $ { } [ ] + * . , the backslash, the backtick and the vertical bar) |
| Validators.AlphaConcat | helpers/validators.py:4-8 | with the intended per-character reading (no trailing line feed), strings made only of the letters class (letters, the listed accented letters, '.', '_', space, '-') stay accepted when concatenated |
| Validators.CharFieldConcat | helpers/validators.py:11-15 | strings accepted by the special-character validator stay accepted when concatenated |
| Validators.EmptyAccepted | helpers/validators.py:4-15 | both validators accept the empty string |
| Validators.DotAndDigits | helpers/validators.py:4-15 | '.' passes the letters validator and fails the other; every digit fails the letters validator and passes the other |
| Validators.AlphaAsWrittenAcceptsTrailingLineFeed | helpers/validators.py:4-8 | as written, the letters pattern accepts "a\n", although line feed is not in its class |
| Validators.AlphaAsWrittenNotClosedUnderConcat | helpers/validators.py:4-8 | as written, "a\n" and "b" are accepted but their concatenation is not |
| Tracking.PreSave | helpers/models.py:4-12 | an `auto_now_add` field takes the current time on the first insert and keeps its value on later saves |
| Tracking.SavesKeepInsertTime | helpers/models.py:9-12 | after an insert and any number of later saves, both `created_at` and `updated_at` still hold the insert time |
| Tracking.OrderNewestFirst | helpers/models.py:14-16 | the default order is a permutation of the records in which `created_at` never increases (newest first) |
| Tracking.InsertNewestFirst | helpers/models.py:16 | placing a record into a newest-first listing keeps it newest first and adds exactly that record |
| Accounts.Token | accounts/models.py:44-46 | `token` is always the empty string |
| Accounts.Str | accounts/models.py:48-49 | `__str__` is the e-mail address |
| Accounts.NewUser | accounts/models.py:23-36 | a new record holds the given e-mail, names and password digest; without extra fields it is not staff, not superuser, and active; date joined and both timestamps are the current time |
| Accounts.LoginKeyIdentifiesOneUser | accounts/models.py:19-41 | with e-mail unique, at most one user has a given e-mail (the login key), and exactly one when the e-mail is registered |
| Accounts.RequiredFieldError | accounts/managers.py:9-15 | `create_user` fails on an empty e-mail, else on an empty first name, else on an empty last name, and passes iff all three are present |
| Accounts.SuperuserDefaults | accounts/managers.py:23-26 | each of is_staff, is_superuser, is_active that the caller did not pass becomes true; passed values are kept |
| Accounts.SuperuserFlagError | accounts/managers.py:27-32 | `create_superuser` fails iff a flag is not true, reporting staff first, then superuser, then active |
| Accounts.SuperuserDefaultsPass | accounts/managers.py:23-33 | with no flags passed, the checks pass and the new record is staff, superuser and active |
| Projects.TypeCode | projects/models.py:8-13 | every PROJECT_TYPE choice is a non-empty string that fits max_length 9 |
| Projects.ParseType | projects/models.py:27-31 | the type field accepts exactly the four stored choice values and decodes each to its choice |
| Projects.ParseTypeCode | projects/models.py:8-13 | decoding the stored value of a choice gives back that choice |
| Projects.CleanProject | projects/models.py:19-31 | project data is accepted iff its title is present with 1 to 128 characters and no null character, its description has at most 2048 and no null character (missing means empty), and its type is one of the choices; the project holds the given values; errors name only those fields |
| Projects.PermissionCode | projects/models.py:44-57 | every CONTRIBUTOR_PERMISSION choice is a non-empty string that fits max_length 8 |
| Projects.ParsePermission | projects/models.py:53-57 | the permission field accepts exactly "AUTHOR" and "ASSIGNED" |
| Projects.IsAuthor | projects/permissions.py:46 | `is_author()`: the row holds the AUTHOR permission (a definition; the name is not defined in these files) |
| Projects.HasRow | projects/permissions.py:16 | `is_contributor(project)`: some contributor row links the user to the project (a definition; ContributorsOf states it in terms of the many-to-many) |
| Projects.ContributorsOf | projects/models.py:32-36 | a project's `contributors` are exactly the users holding a contributor row for it |
| Projects.ProjectsOf | projects/models.py:32-36 | the reverse side: a project is among a user's projects iff the user is among its contributors |
| Projects.AddKeepsPairsUnique | projects/models.py:73-74 | adding a row with a new key and a pair not yet present keeps (user, project) unique |
| Projects.AddRowContributors | projects/models.py:32-36 | adding a row adds its user to its project's contributors and leaves every other project's unchanged |
| Projects.WithoutProject | projects/models.py:67-71 | deleting a project removes exactly the rows of that project; the others stay with their values |
| Projects.WithoutUser | projects/models.py:62-66 | deleting a user removes exactly the rows of that user; the others stay with their values |
| Projects.DeleteProjectContributors | projects/models.py:67-71 | after deleting a project it has no contributors, and every other project keeps its own |
| Projects.DeleteUserProjects | projects/models.py:62-66 | after deleting a user it holds no project, and every other user keeps its projects |
| Projects.DeletesKeepPairsUnique | projects/models.py:62-74 | cascading deletes keep (user, project) unique |
| Permissions.IsSafeMethod | projects/permissions.py:49 | `SAFE_METHODS`: GET, HEAD and OPTIONS (a definition; MutationNeedsAuthor states its effect) |
| Permissions.ProjectContributorPermission | projects/permissions.py:9-19 | NotFound iff the project does not exist, superuser included; otherwise a superuser is allowed, and anyone else iff authenticated and holding a row for the project |
| Permissions.AuthenticatedOnlyPermission | projects/permissions.py:26-29 | allowed iff the caller is authenticated, never not-found; IsCommentAuthor.has_permission (lines 59-62) is the same check and is modelled by this one function |
| Permissions.AuthorOrReadOnlyObjectPermission | projects/permissions.py:31-52 | NotFound iff the project or the caller's row is missing, superuser included; otherwise a superuser or an AUTHOR row is allowed for every method, and any other contributor iff the method is GET, HEAD or OPTIONS |
| Permissions.ObjectPermissionImpliesContributor | projects/permissions.py:31-52 | passing the object test of IsProjectAuthorOrReadOnlyContributor implies passing IsProjectContributor |
| Permissions.MutationNeedsAuthor | projects/permissions.py:46-52 | for a method outside GET, HEAD, OPTIONS, a contributor is allowed iff superuser or AUTHOR |
| Permissions.CommentAuthorObjectPermission | projects/permissions.py:64-74 | NotFound iff the comment does not exist; otherwise allowed iff the caller is a superuser or the comment's author |
| Database.Store.Valid | projects/models.py:62-74 | the constraints the database keeps: each key names its record, unique e-mails (accounts/models.py:19), unique user/project pairs, and both foreign keys present; every Store method keeps it |
| Database.Store.InsertProject | projects/models.py:14-18 | a project insert succeeds iff its key is new; it adds exactly that project and keeps the constraints |
| Database.Store.InsertContributor | projects/models.py:62-74 | a row insert succeeds iff its key is new, its user and project exist and its pair has no row; otherwise the tables are unchanged; the constraints are kept |
| Database.Store.DeleteProject | projects/models.py:67-71 | deleting a project removes it and exactly its rows, and keeps the constraints |
| Database.Store.DeleteUser | projects/models.py:62-66 | deleting a user removes it and exactly its rows, and keeps the constraints |
| Database.Store.CreateUser | accounts/managers.py:9-21 | the required-field errors, in their order, store nothing; otherwise exactly one user is stored with the normalised e-mail and the password digest, unless its key or normalised e-mail is taken (integrity error, nothing stored) |
| Database.Store.CreateSuperuser | accounts/managers.py:23-33 | flags are defaulted and checked in order before the call is passed on to `create_user` with the same required-field checks; a stored superuser is staff, superuser and active |
| Serializers.FieldErrors | apis/serializers.py:12-31 | each field is in error iff it fails its own rules: every field refuses null characters; passwords required with 8 to 68 characters and accepted by `validate_password`; names required, non-blank, at most 150; e-mail required, valid and not yet registered |
| Serializers.Validate | apis/serializers.py:33-37 | fails with an error keyed "password" iff the two passwords differ, and otherwise returns the data unchanged |
| Serializers.IsValid | apis/serializers.py:10-37 | data is valid iff every field passes and the passwords match; the validated data is exactly the request's five values under their field names; valid data has both passwords of 8 to 68 characters, equal, and names and an e-mail acceptable to `create_user` |
| Serializers.ValidDataPassesRequiredFields | apis/serializers.py:39-41 | data that passed validation never trips the required-field errors of `create_user` |
| Serializers.PopLeavesCreateUserKeywords | apis/serializers.py:39-41 | after popping `password2`, the data holds exactly the keyword parameters of `create_user` |
| Serializers.Create | apis/serializers.py:39-41 | `create` stores the user `create_user` makes from the data with `password2` removed, so only `password` is hashed and stored |
| Serializers.Representation | apis/serializers.py:29-31 | the data sent back holds the declared fields minus the write-only passwords |
| Serializers.RepresentationHidesPasswords | apis/serializers.py:12-27 | neither password field is in the data sent back |
| Views.SignupPost | apis/views.py:18-24 | the status is 400 exactly for invalid data, which gets the validation errors and stores nothing; valid data gets 201 with exactly one new user, the record `create_user` builds from the request's names, normalised e-mail and hashed password (not staff, active, joined and stamped at the given instant), unless the database refuses the save |
| Views.ProjectList | apis/views.py:31-33 | the list holds exactly the existing projects the caller holds a row for |
| Views.ListingAgreesWithPermission | apis/views.py:31-33 | for a caller who is not a superuser, a project is listed iff IsProjectContributor allows the caller into it |
| Views.OwnerRow | apis/views.py:40-45 | the row added for the creator has the permission AUTHOR and a role within bounds |
| Views.CreatorControlsNewProject | apis/views.py:39-45 | after the two writes, the creator is the only contributor and the only author of the new project, passes IsProjectContributor and the object test for every method, and no other project's contributors change |
| Views.ProjectCreate | apis/views.py:35-48 | invalid data is refused before any write; on success exactly one project and one AUTHOR row (the creator, role "Propriétaire") are added and the creator is let in and sees it listed; when the second write is refused (its key is taken) the new project stays saved with no contributor at all; a refused first write changes nothing |

## Left out

- Routing (`apis/urls.py`, `core/urls.py`) is not part of this model. Nor are the views these files name that no file here defines.
- `ProjectDetailAPIView` is left out. Its behaviour comes from framework defaults and settings that are not part of this model.
- `SoftDesk/users/forms.py` is left out. Its forms name a `username` field that the user model removes.
- Token issuance (`accounts/tokens.py`) belongs to a foreign library and is left out.
- `normalize_email`, `make_password`/`set_password`, `validate_password` and the e-mail syntax check are parameters of the model (`Env`, `Checks`). Their rules are not modelled. A stored password has type `Digest`, so the raw text is never what is stored.
- Database.Store.CreateUser: `make_password` and `set_password` each draw a fresh salt; with a fixed hash parameter they give the same digest, so the model does not show that the second digest replaces the first.
- Random UUIDs and the clock are parameters. As a simplification, the model passes one instant to a whole user creation. The source reads the clock separately for `date_joined` (when the record is built) and for each `auto_now_add` field (in `pre_save`), so the three instants differ slightly.
- Transactions, concurrency and races are left out. The two writes of project creation are sequential steps, and refusals come from the check each insert makes.
- `Contributor.objects.create` and `save()` run no field validators. Column-length enforcement depends on the database engine. So the store invariant keeps the declared constraints (keys, unique e-mail, unique pair, foreign keys). Field bounds are checked by `CleanProject` and the signup validation.
- Framework validation details are left out: trimming of whitespace by serializer character fields, the error messages, and database collation in the e-mail uniqueness check. The refusal of null characters that every serializer character field makes is modelled (`FreeOfNull`).
- Serializers.FieldErrors: the uniqueness check compares the raw e-mail. Only `create_user` normalises it, so a clash that appears after normalisation is refused by the database and answered with a server error (`SignupPost`).
- Accounts.SuperuserFlagError: flags are booleans. A non-boolean value, which the `is not True` test also rejects, and extra fields other than the three flags are not modelled.
- Permissions.AuthorOrReadOnlyObjectPermission: requires a signed-in caller and a unique pair, because the framework runs it only after `has_permission` has accepted the caller, and the `unique_together` constraint keeps the row lookup single. The anonymous case, where the row lookup fails with an error, and the multiple-rows case are not modelled. The `obj` argument is unused by the source and is not modelled.
- Views.ProjectCreate and Views.ProjectList take a stored, signed-in caller. What an anonymous request gets depends on the default permission classes in settings, which are not part of this model.
- `get_object_or_404` is modelled only as the `NotFound` outcome.
- Issues and comments are left out beyond a comment's author. Their models and views are not part of this model.
- The field lists of `ProjectSerializer` and `ContributorSerializer` and the `__str__` of Project and Contributor are left out. The field lists are not mere presentation: they name `created_at` and `updated_at`, which Project and Contributor do not have.
- Views.ProjectCreate: assumes the serializer builds from Project's own fields. As written, building the declared `created_at` and `updated_at` fields fails during `is_valid`, so every request gets a server error and nothing is written.
- Views.ProjectList: gives `project_contributors` the meaning of the reverse relation and models the queryset only. As written, `get_queryset` raises an attribute error on that name before anything is serialized.

## Findings

| source | as written | input that shows it | evidently intended | confidence | as-written member | corrected member |
|---|---|---|---|---|---|---|
| helpers/validators.py:4-8 | `^[…]*$` is applied with `re.search`, and `$` also matches just before a final line feed | "a\n" is accepted, and "a\n" + "b" is rejected although both parts are accepted | accept only strings made entirely of the listed characters | medium (Python `$` semantics; not executed) | Validators.AlphaAsWrittenNotClosedUnderConcat | Validators.AlphaConcat |

The special-character validator (helpers/validators.py:11-15) has the same `$`. There it changes nothing, because line feed is not among the characters it excludes. `Validators.CharFieldIsPerCharacter` proves this.
