/**
 The user manager (src/backend/auth_api/managers.py): creation of users and
 superusers and the login lookup by email. Email normalisation and password
 hashing are not modelled.
 */
module UserManager {

  import opened Wrappers
  import opened Errors
  import opened Constants
  import opened Validations
  import opened UserRecords

  /** The keyword arguments `create_user` passes on to the model. */
  datatype Extras = Extras(firstName: Field<string>, lastName: Field<string>, role: Field<Option<int>>, isActive: Field<bool>)

  /**
   `create_user`: a null or empty email or password is refused with
   InternalServerError; otherwise a user is appended with the model's
   defaults for what is left out (empty names, role 3, active).
   */
  function CreateUser(us: seq<User>, email: Option<string>, password: Option<string>, extras: Extras): (r: Step<seq<User>, Id>)
    ensures r.result.Err? <==> email.None? || email.value == "" || password.None? || password.value == ""
    ensures r.result.Err? ==> r == Step(us, Err(Default(InternalServerError)))
    ensures r.result.Ok? ==>
      && r.result.value == |us|
      && |r.state| == |us| + 1 && r.state[..|us|] == us
      && r.state[|us|].email == email && r.state[|us|].password == password
      && r.state[|us|].role == extras.role.OrDefault(Some(DEFAULT_ROLE))
      && r.state[|us|].isActive == extras.isActive.OrDefault(true)
      && !r.state[|us|].deleted
  {
    match IsNullOrEmptyString(email)
    case Err(f) => Step(us, Err(f))
    case Ok(_) =>
      match IsNullOrEmptyString(password)
      case Err(f) => Step(us, Err(f))
      case Ok(_) =>
        var u := User(email, password, extras.firstName.OrDefault(""), extras.lastName.OrDefault(""),
                      extras.role.OrDefault(Some(DEFAULT_ROLE)), extras.isActive.OrDefault(true), false, false);
        Step(us + [u], Ok(|us|))
  }

  /**
   `create_superuser`: role and active flag default to the administrator
   role and true; any other role, null included, is refused as Unprocessable
   before anything is written.
   */
  function CreateSuperuser(us: seq<User>, email: Option<string>, password: Option<string>, extras: Extras): (r: Step<seq<User>, Id>)
    ensures extras.role.Given? && extras.role.value != Some(ADMIN_ROLE) ==>
      r == Step(us, Err(Raised(Unprocessable, SUPER_USER_ROLE_INVALID)))
    ensures r.result.Err? ==> r.state == us
    ensures r.result.Ok? <==>
      (extras.role.Absent? || extras.role.value == Some(ADMIN_ROLE))
      && email.Some? && email.value != "" && password.Some? && password.value != ""
    ensures r.result.Ok? ==> r.result.value == |us| && |r.state| == |us| + 1
    ensures r.result.Ok? ==> r.state[|us|].role == Some(ADMIN_ROLE)
    ensures r.result.Ok? && extras.isActive.Absent? ==> r.state[|us|].isActive
  {
    var extras' := extras.(
      isActive := Given(extras.isActive.OrDefault(true)),
      role := Given(extras.role.OrDefault(Some(ADMIN_ROLE))));
    if extras'.role.value != Some(ADMIN_ROLE) then Step(us, Err(Raised(Unprocessable, SUPER_USER_ROLE_INVALID)))
    else CreateUser(us, email, password, extras')
  }

  /**
   `get_by_natural_key`: Django's `get` on the active users with the email.
   No match and several matches both raise (DoesNotExist,
   MultipleObjectsReturned), which are not API errors.
   */
  function GetByNaturalKey(us: seq<User>, email: Option<string>): (r: Result<Id>)
    ensures r.Ok? ==> ActiveWithEmail(us, r.value, email)
    ensures r.Ok? ==> forall k :: 0 <= k < |us| && ActiveWithEmail(us, k, email) ==> k == r.value
    ensures r.Err? ==> r.failure == Unhandled
    ensures (exists k :: 0 <= k < |us| && ActiveWithEmail(us, k, email)) && r.Err? ==>
      exists i, j :: 0 <= i < j < |us| && ActiveWithEmail(us, i, email) && ActiveWithEmail(us, j, email)
  {
    var matches := ActiveWithEmailAll(us, email);
    if |matches| == 1 then
      assert matches[0] in matches;
      Ok(matches[0])
    else
      assert |matches| > 1 ==> matches[0] in matches && matches[1] in matches;
      Err(Unhandled)
  }

  /** With unique active emails, every active user is found by its email. */
  lemma NaturalKeyFindsActiveUser(us: seq<User>, k: Id)
    requires UniqueActiveEmails(us) && ActiveUser(us, k)
    ensures GetByNaturalKey(us, us[k].email) == Ok(k)
  {
    UniqueEmailsSingleMatch(us, k);
  }

  /** A soft-deleted user is never found by its email. */
  lemma NaturalKeySkipsDeleted(us: seq<User>, k: Id)
    requires k < |us| && us[k].deleted
    ensures GetByNaturalKey(us, us[k].email) != Ok(k)
  {
  }
}
