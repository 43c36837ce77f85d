/**
 * SignupSerializer of apis/serializers.py: field validation of the signup
 * data, the password confirmation check `validate`, `create`, and the
 * representation sent back, from which the write-only fields are absent.
 */
module Serializers {
  import opened Common
  import opened Accounts
  import opened Database

  /** The signup request data; a field the request leaves out is `None`. */
  datatype SignupInput = SignupInput(
    email: Option<string>,
    firstName: Option<string>,
    lastName: Option<string>,
    password: Option<string>,
    password2: Option<string>)

  /** Field validators that belong to the framework: the e-mail syntax check and `validate_password`. */
  datatype Checks = Checks(isEmailAddress: string -> bool, passwordAccepted: string -> bool)

  const PasswordMinLength: nat := 8
  const PasswordMaxLength: nat := 68

  /** The default length of a model `EmailField`. */
  const EmailMaxLength: nat := 254

  /** `Meta.fields`; `user_id` is not editable, so it is output only. */
  const SignupFields: seq<string> := ["user_id", "email", "first_name", "last_name", "password", "password2"]
  const WriteOnlyFields: set<string> := {"password", "password2"}
  const InputFields: set<string> := {"email", "first_name", "last_name", "password", "password2"}

  /**
   * The keyword parameters of `create_user` other than `**extra_fields`: the
   * login field, the required fields and the password.
   */
  const CreateUserKeywords: set<string> := {UsernameField, "password"} + (set f | f in RequiredFields)

  /**
   * A password field: required, free of null characters, 8 to 68 characters,
   * and accepted by `validate_password`.
   */
  predicate PasswordFieldOk(checks: Checks, v: Option<string>)
  {
    v.Some? && FreeOfNull(v.value) && PasswordMinLength <= |v.value| <= PasswordMaxLength
    && checks.passwordAccepted(v.value)
  }

  /**
   * The e-mail field: required, not blank, free of null characters, a
   * syntactically valid address, not already registered.
   */
  predicate EmailFieldOk(checks: Checks, users: map<UserId, User>, v: Option<string>)
  {
    v.Some? && 0 < |v.value| <= EmailMaxLength && FreeOfNull(v.value) && checks.isEmailAddress(v.value)
    && !EmailTaken(users, v.value)
  }

  /** A name field: required, 1 to 150 characters, free of null characters. */
  predicate NameFieldOk(v: Option<string>)
  {
    v.Some? && NameOk(v.value) && FreeOfNull(v.value)
  }

  /** The names of the fields that fail their own validation. */
  function FieldErrors(input: SignupInput, users: map<UserId, User>, checks: Checks): (errors: set<string>)
    ensures errors <= InputFields
    ensures "email" in errors <==> !EmailFieldOk(checks, users, input.email)
    ensures "first_name" in errors <==> !NameFieldOk(input.firstName)
    ensures "last_name" in errors <==> !NameFieldOk(input.lastName)
    ensures "password" in errors <==> !PasswordFieldOk(checks, input.password)
    ensures "password2" in errors <==> !PasswordFieldOk(checks, input.password2)
  {
    (if EmailFieldOk(checks, users, input.email) then {} else {"email"})
    + (if NameFieldOk(input.firstName) then {} else {"first_name"})
    + (if NameFieldOk(input.lastName) then {} else {"last_name"})
    + (if PasswordFieldOk(checks, input.password) then {} else {"password"})
    + (if PasswordFieldOk(checks, input.password2) then {} else {"password2"})
  }

  /** The `validated_data` dictionary built from fields that all passed. */
  function ValidatedData(input: SignupInput): (data: map<string, string>)
    requires input.email.Some? && input.firstName.Some? && input.lastName.Some?
    requires input.password.Some? && input.password2.Some?
    ensures data.Keys == InputFields
    ensures data["email"] == input.email.value
    ensures data["first_name"] == input.firstName.value && data["last_name"] == input.lastName.value
    ensures data["password"] == input.password.value && data["password2"] == input.password2.value
  {
    map["email" := input.email.value, "first_name" := input.firstName.value,
        "last_name" := input.lastName.value, "password" := input.password.value,
        "password2" := input.password2.value]
  }

  /**
   * `validate`: fails with an error on "password" when the two passwords
   * differ, and otherwise hands the data on untouched.
   */
  function Validate(attrs: map<string, string>): (r: Result<map<string, string>, set<string>>)
    requires "password" in attrs && "password2" in attrs
    ensures r.Err? <==> attrs["password"] != attrs["password2"]
    ensures r.Err? ==> r.error == {"password"}
    ensures r.Ok? ==> r.value == attrs
  {
    if attrs["password"] != attrs["password2"] then Err({"password"}) else Ok(attrs)
  }

  /** `is_valid`: field validation first; `validate` only once every field passed. */
  function IsValid(input: SignupInput, users: map<UserId, User>, checks: Checks): (r: Result<map<string, string>, set<string>>)
    ensures r.Err? <==> FieldErrors(input, users, checks) != {} || input.password != input.password2
    ensures r.Err? && FieldErrors(input, users, checks) != {} ==> r.error == FieldErrors(input, users, checks)
    ensures r.Err? && FieldErrors(input, users, checks) == {} ==> r.error == {"password"}
    ensures r.Ok? ==>
              && input.email.Some? && input.firstName.Some? && input.lastName.Some?
              && input.password.Some? && input.password2.Some?
              && r.value == ValidatedData(input)
    ensures r.Ok? ==> r.value.Keys == InputFields
    ensures r.Ok? ==> r.value["password"] == r.value["password2"]
    ensures r.Ok? ==> PasswordMinLength <= |r.value["password"]| <= PasswordMaxLength
    ensures r.Ok? ==> NameOk(r.value["first_name"]) && NameOk(r.value["last_name"]) && r.value["email"] != ""
    ensures r.Ok? ==> !EmailTaken(users, r.value["email"])
  {
    var errors := FieldErrors(input, users, checks);
    if errors != {} then Err(errors)
    else Validate(ValidatedData(input))
  }

  /** Data that passed validation never trips the required-field checks of `create_user`. */
  lemma ValidDataPassesRequiredFields(input: SignupInput, users: map<UserId, User>, checks: Checks)
    requires IsValid(input, users, checks).Ok?
    ensures var data := IsValid(input, users, checks).value;
            RequiredFieldError(data["email"], data["last_name"], data["first_name"]) == None
  {
  }

  /** Popping `password2` leaves exactly the keyword parameters of `create_user`. */
  lemma PopLeavesCreateUserKeywords(validated: map<string, string>)
    requires validated.Keys == InputFields
    ensures (validated - {"password2"}).Keys == CreateUserKeywords
  {
  }

  /**
   * `create`: pops `password2` from the validated data and passes what is left
   * to `create_user` as keyword arguments, so only `password` reaches it.
   */
  method Create(db: Store, env: Env, validated: map<string, string>, newId: UserId, now: Tracking.Instant)
    returns (r: Result<UserId, UserError>)
    requires db.Valid()
    requires validated.Keys == InputFields
    modifies db
    ensures db.Valid()
    ensures db.projects == old(db.projects) && db.contributors == old(db.contributors)
    ensures var email, last, first := validated["email"], validated["last_name"], validated["first_name"];
            && (r.Ok? <==> RequiredFieldError(email, last, first).None? && newId !in old(db.users)
                           && !EmailTaken(old(db.users), env.normalizeEmail(email)))
            && (r.Err? ==> db.users == old(db.users))
            && (r.Ok? ==> r.value == newId && db.users == old(db.users)[newId :=
                  NewUser(newId, env.normalizeEmail(email), last, first,
                          env.makePassword(validated["password"]), map[], now)])
  {
    var data := validated;
    data := data - {"password2"};
    PopLeavesCreateUserKeywords(validated);
    r := db.CreateUser(env, data["email"], data["last_name"], data["first_name"], data["password"], map[], newId, now);
  }

  // ---- the representation sent back ----------------------------------------------

  datatype FieldValue = Text(text: string) | Uuid(id: UserId)

  /** `serializer.data` of a saved user: every declared field that is not write-only. */
  function Representation(u: User): (r: map<string, FieldValue>)
    ensures r.Keys == (set f | f in SignupFields) - WriteOnlyFields
    ensures r["user_id"] == Uuid(u.id) && r["email"] == Text(u.email)
    ensures r["first_name"] == Text(u.firstName) && r["last_name"] == Text(u.lastName)
  {
    map["user_id" := Uuid(u.id), "email" := Text(u.email),
        "first_name" := Text(u.firstName), "last_name" := Text(u.lastName)]
  }

  /** Neither password field is ever sent back. */
  lemma RepresentationHidesPasswords(u: User)
    ensures "password" !in Representation(u) && "password2" !in Representation(u)
  {
  }
}
