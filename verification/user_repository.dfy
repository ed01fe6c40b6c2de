/**
 The user repository (src/backend/auth_api/repositories/user_repository.py).
 A new user must not share its email with an active user, nor its first
 and last name, compared without regard to letter case; both conflicts are
 reported together. Lookups, deletion and password changes see active
 users only; deletion is a soft delete that also clears `is_active`.
 */
module UserRepository {

  import opened Wrappers
  import opened Errors
  import opened Text
  import opened Constants
  import opened Validations
  import opened UserRecords
  import Records
  import UM = UserManager

  /**
   The fields the registration serializer keeps; `None` stands for a field
   the request left out.
   */
  datatype UserPayload = UserPayload(
    email: Option<string>,
    password: Option<string>,
    firstName: Option<string>,
    lastName: Option<string>,
    role: Option<int>)

  /** A keyword argument that is passed only when the request carried it. */
  function FieldOf<T>(v: Option<T>): Field<T>
  {
    match v
    case Some(x) => Given(x)
    case None => Absent
  }

  /** An active user holds this email. */
  predicate EmailTaken(us: seq<User>, email: Option<string>)
  {
    exists k :: 0 <= k < |us| && ActiveWithEmail(us, k, email)
  }

  /**
   An active user has this first and last name up to letter case. A left-out
   name filters on NULL, which no stored name is, so it never clashes.
   */
  predicate NameTaken(us: seq<User>, firstName: Option<string>, lastName: Option<string>)
  {
    && firstName.Some? && lastName.Some?
    && exists k :: 0 <= k < |us| && ActiveUser(us, k)
         && IEquals(us[k].firstName, firstName.value) && IEquals(us[k].lastName, lastName.value)
  }

  /** The message reporting a name clash: the full name, first and last joined by a space. */
  function NameInUse(firstName: string, lastName: string): string
  {
    Format(NAME_ALREADY_IN_USE, firstName + SPACE + lastName)
  }

  /**
   `__validate_entity_not_exists`: collects the email conflict, then the
   name conflict, and raises one Unprocessable error whose message joins
   them with a line break, exactly when there is at least one.
   */
  function ValidateEntityNotExists(us: seq<User>, p: UserPayload): (r: Result<()>)
    ensures r.Ok? <==> !EmailTaken(us, p.email) && !NameTaken(us, p.firstName, p.lastName)
    ensures r.Err? ==> r.failure.Raised? && r.failure.kind == Unprocessable
    ensures EmailTaken(us, p.email) && !NameTaken(us, p.firstName, p.lastName) ==>
      r.failure.message == EMAIL_ALREADY_EXISTS
    ensures !EmailTaken(us, p.email) && NameTaken(us, p.firstName, p.lastName) ==>
      r.failure.message == NameInUse(p.firstName.value, p.lastName.value)
    ensures EmailTaken(us, p.email) && NameTaken(us, p.firstName, p.lastName) ==>
      r.failure.message == EMAIL_ALREADY_EXISTS + LINE_BREAK + NameInUse(p.firstName.value, p.lastName.value)
  {
    var emailErrors := if EmailTaken(us, p.email) then [EMAIL_ALREADY_EXISTS] else [];
    var nameErrors := if NameTaken(us, p.firstName, p.lastName) then [NameInUse(p.firstName.value, p.lastName.value)] else [];
    var errors := emailErrors + nameErrors;
    if |errors| > 0 then
      JoinTwo(LINE_BREAK, EMAIL_ALREADY_EXISTS, if |nameErrors| > 0 then nameErrors[0] else "");
      Err(Raised(Unprocessable, Join(LINE_BREAK, errors)))
    else Ok(())
  }

  /**
   `__get_user_by_credentials_email`: a null or empty email is refused with
   InternalServerError; no active user with it is NotFound, naming the email;
   otherwise the first one.
   */
  function GetByEmail(us: seq<User>, email: Option<string>): (r: Result<Id>)
    ensures r.Ok? <==> email.Some? && email.value != "" && EmailTaken(us, email)
    ensures r.Ok? ==> ActiveWithEmail(us, r.value, email) && forall k :: 0 <= k < r.value ==> !ActiveWithEmail(us, k, email)
    ensures r.Err? && (email.None? || email.value == "") ==> r.failure == Default(InternalServerError)
    ensures r.Err? && email.Some? && email.value != "" ==> r.failure == Raised(NotFound, Format(USER_BY_EMAIL_NOT_FOUND, email.value))
  {
    match IsNullOrEmptyString(email)
    case Err(f) => Err(f)
    case Ok(_) =>
      var matches := ActiveWithEmailAll(us, email);
      if |matches| == 0 then Err(Raised(NotFound, Format(USER_BY_EMAIL_NOT_FOUND, email.value)))
      else
        assert matches[0] in matches;
        assert forall k :: 0 <= k < matches[0] ==> k !in matches;
        Ok(matches[0])
  }

  /**
   `create_user`: the conflicts are checked before the manager writes
   anything; the created user is then read back by its email.
   */
  function CreateUser(us: seq<User>, p: UserPayload): (r: Step<seq<User>, Id>)
    ensures ValidateEntityNotExists(us, p).Err? ==> r == Step(us, Err(ValidateEntityNotExists(us, p).failure))
    ensures r.result.Err? ==> r.state == us
    ensures r.result.Ok? <==>
      && ValidateEntityNotExists(us, p).Ok?
      && p.email.Some? && p.email.value != "" && p.password.Some? && p.password.value != ""
    ensures r.result.Ok? ==>
      && r.result.value == |us| && |r.state| == |us| + 1 && r.state[..|us|] == us
      && r.state[|us|].email == p.email && r.state[|us|].password == p.password
      && r.state[|us|].firstName == p.firstName.GetOr("") && r.state[|us|].lastName == p.lastName.GetOr("")
      && r.state[|us|].role == (if p.role.Some? then p.role else Some(DEFAULT_ROLE))
      && r.state[|us|].isActive && !r.state[|us|].deleted
  {
    match ValidateEntityNotExists(us, p)
    case Err(f) => Step(us, Err(f))
    case Ok(_) =>
      var created := UM.CreateUser(us, p.email, p.password,
        UM.Extras(FieldOf(p.firstName), FieldOf(p.lastName), FieldOf(if p.role.Some? then Some(p.role) else None), Absent));
      match created.result
      case Err(f) => Step(us, Err(f))
      case Ok(id) =>
        assert forall k :: 0 <= k < |us| ==> created.state[k] == us[k];
        match GetByEmail(created.state, p.email)
        case Err(f) => Step(created.state, Err(f))
        case Ok(found) => Step(created.state, Ok(found))
  }

  /** `__get_user`: NotFound, naming the id, unless the user exists and is not deleted. */
  function GetUser(us: seq<User>, id: Id): (r: Result<User>)
    ensures r.Ok? <==> ActiveUser(us, id)
    ensures r.Ok? ==> r.value == us[id]
    ensures r.Err? ==> r.failure == Raised(NotFound, Format(USER_BY_ID_NOT_FOUND, Records.Str(id)))
  {
    if ActiveUser(us, id) then Ok(us[id]) else Err(Raised(NotFound, Format(USER_BY_ID_NOT_FOUND, Records.Str(id))))
  }

  /** `delete_user`: clears the active flag and marks the user deleted; nothing else changes. */
  function DeleteUser(us: seq<User>, id: Id): (r: Step<seq<User>, User>)
    ensures r.result.Ok? <==> ActiveUser(us, id)
    ensures r.result.Err? ==> r == Step(us, Err(GetUser(us, id).failure))
    ensures r.result.Ok? ==>
      && r.state == us[id := us[id].(isActive := false, deleted := true)]
      && r.result.value == r.state[id]
  {
    match GetUser(us, id)
    case Err(f) => Step(us, Err(f))
    case Ok(u) =>
      var u' := u.(isActive := false, deleted := true);
      Step(us[id := u'], Ok(u'))
  }

  /** `update_password`: replaces the password and marks the user updated; nothing else changes. */
  function UpdatePassword(us: seq<User>, password: Option<string>, id: Id): (r: Step<seq<User>, User>)
    ensures r.result.Ok? <==> ActiveUser(us, id)
    ensures r.result.Err? ==> r == Step(us, Err(GetUser(us, id).failure))
    ensures r.result.Ok? ==>
      && r.state == us[id := us[id].(password := password, updated := true)]
      && r.result.value == r.state[id]
  {
    match GetUser(us, id)
    case Err(f) => Step(us, Err(f))
    case Ok(u) =>
      var u' := u.(password := password, updated := true);
      Step(us[id := u'], Ok(u'))
  }

  /** A created user's email is one no active user holds, so active emails stay unique. */
  lemma CreateUserKeepsUniqueEmails(us: seq<User>, p: UserPayload)
    requires UniqueActiveEmails(us)
    ensures UniqueActiveEmails(CreateUser(us, p).state)
  {
    var c := CreateUser(us, p);
    if c.result.Ok? {
      forall i, j | 0 <= i < |c.state| && 0 <= j < |c.state| && ActiveUser(c.state, i) && ActiveUser(c.state, j) && c.state[i].email == c.state[j].email
        ensures i == j
      {
        assert i < |us| ==> c.state[i] == us[i] && !ActiveWithEmail(us, i, p.email);
        assert j < |us| ==> c.state[j] == us[j] && !ActiveWithEmail(us, j, p.email);
      }
    }
  }

  /** Creating, deleting and changing passwords keep active emails unique. */
  lemma UserStoreKeepsUniqueEmails(us: seq<User>, p: UserPayload, password: Option<string>, id: Id)
    requires UniqueActiveEmails(us)
    ensures UniqueActiveEmails(CreateUser(us, p).state)
    ensures UniqueActiveEmails(DeleteUser(us, id).state)
    ensures UniqueActiveEmails(UpdatePassword(us, password, id).state)
  {
    CreateUserKeepsUniqueEmails(us, p);
    var d := DeleteUser(us, id).state;
    var u := UpdatePassword(us, password, id).state;
    assert forall i :: 0 <= i < |us| && ActiveUser(d, i) ==> ActiveUser(us, i) && d[i].email == us[i].email;
    assert forall i :: 0 <= i < |us| && ActiveUser(u, i) ==> ActiveUser(us, i) && u[i].email == us[i].email;
  }

  /** A user created into a store with unique emails is the one its email logs in as. */
  lemma CreatedUserLogsIn(us: seq<User>, p: UserPayload)
    requires UniqueActiveEmails(us)
    ensures CreateUser(us, p).result.Ok? ==> UM.GetByNaturalKey(CreateUser(us, p).state, p.email) == Ok(|us|)
  {
    CreateUserKeepsUniqueEmails(us, p);
    var c := CreateUser(us, p);
    if c.result.Ok? {
      UM.NaturalKeyFindsActiveUser(c.state, |us|);
    }
  }

  /**
   A deleted user can no longer be read, deleted again or given a new
   password, and no longer logs in.
   */
  lemma DeletedUserIsGone(us: seq<User>, id: Id, password: Option<string>)
    ensures DeleteUser(us, id).result.Ok? ==>
      && GetUser(DeleteUser(us, id).state, id).Err?
      && DeleteUser(DeleteUser(us, id).state, id).result.Err?
      && UpdatePassword(DeleteUser(us, id).state, password, id).result.Err?
      && UM.GetByNaturalKey(DeleteUser(us, id).state, us[id].email) != Ok(id)
  {
    var d := DeleteUser(us, id);
    if d.result.Ok? {
      UM.NaturalKeySkipsDeleted(d.state, id);
    }
  }

  /** Soft-deleted users take no part in the conflict check: what they hold does not matter. */
  lemma DeletedUsersDoNotCount(us: seq<User>, k: Id, u: User, p: UserPayload)
    requires k < |us| && us[k].deleted && u.deleted
    ensures ValidateEntityNotExists(us[k := u], p) == ValidateEntityNotExists(us, p)
  {
    var us' := us[k := u];
    assert forall j :: 0 <= j < |us| ==> (ActiveUser(us', j) <==> ActiveUser(us, j));
    assert forall j :: 0 <= j < |us| && j != k ==> us'[j] == us[j];
    assert forall j :: 0 <= j < |us| ==> (ActiveWithEmail(us', j, p.email) <==> ActiveWithEmail(us, j, p.email));
    assert EmailTaken(us', p.email) == EmailTaken(us, p.email);
    assert NameTaken(us', p.firstName, p.lastName) == NameTaken(us, p.firstName, p.lastName);
  }

  lemma LowerIdempotent(s: string)
    ensures LowerString(LowerString(s)) == LowerString(s)
  {
  }

  /**
   Registering the lower-case spelling of an active user's first and last
   name is refused, and nothing is written.
   */
  lemma CaseVariantNameRefused(us: seq<User>, k: Id, p: UserPayload)
    requires ActiveUser(us, k)
    requires p.firstName == Some(LowerString(us[k].firstName)) && p.lastName == Some(LowerString(us[k].lastName))
    ensures CreateUser(us, p).result.Err? && CreateUser(us, p).state == us
    ensures CreateUser(us, p).result.failure.Raised? && CreateUser(us, p).result.failure.kind == Unprocessable
  {
    LowerIdempotent(us[k].firstName);
    LowerIdempotent(us[k].lastName);
    assert IEquals(us[k].firstName, p.firstName.value) && IEquals(us[k].lastName, p.lastName.value);
  }
}
