/**
 The role rule of user creation (src/backend/auth_api/views/user_view.py):
 a user may only create users with a strictly greater role number than its
 own (role 1 is the administrator). The rule is checked before anything is
 written. Request parsing and serializer validation are not modelled: the
 payload is what the registration serializer accepted.
 */
module UserView {

  import opened Wrappers
  import opened Errors
  import opened Text
  import opened Constants
  import opened UserRecords
  import UR = UserRepository

  /**
   `validate_role`: Forbidden, naming both roles, when the new role number
   is not greater than the creator's. A creator without a role cannot be
   compared with (a TypeError).
   */
  function ValidateRole(creatorRole: Option<int>, userRole: int): (r: Result<()>)
    ensures creatorRole.None? ==> r == Err(Unhandled)
    ensures creatorRole.Some? ==> (r.Ok? <==> userRole > creatorRole.value)
    ensures creatorRole.Some? && r.Err? ==>
      && r.failure.Raised? && r.failure.kind == Forbidden
      && r.failure.message == Format2(USER_CREATION_ROLE_NOT_VALID, IntToString(creatorRole.value), IntToString(userRole))
  {
    if creatorRole.None? then Err(Unhandled)
    else if userRole <= creatorRole.value then
      var m := Format2(USER_CREATION_ROLE_NOT_VALID, IntToString(creatorRole.value), IntToString(userRole));
      Err(Raised(Forbidden, m))
    else Ok(())
  }

  /**
   `UserView.post`: the requested role is converted with `int` (a missing
   role fails there), checked against the creator's role, and only then is
   the user created.
   */
  function Post(us: seq<User>, creatorRole: Option<int>, p: UR.UserPayload): (r: Step<seq<User>, Id>)
    ensures p.role.None? ==> r == Step(us, Err(Unhandled))
    ensures p.role.Some? && ValidateRole(creatorRole, p.role.value).Err? ==>
      r == Step(us, Err(ValidateRole(creatorRole, p.role.value).failure))
    ensures p.role.Some? && ValidateRole(creatorRole, p.role.value).Ok? ==> r == UR.CreateUser(us, p)
    ensures r.result.Ok? ==> creatorRole.Some? && p.role.Some? && p.role.value > creatorRole.value
  {
    if p.role.None? then Step(us, Err(Unhandled))
    else
      match ValidateRole(creatorRole, p.role.value)
      case Err(f) => Step(us, Err(f))
      case Ok(_) => UR.CreateUser(us, p)
  }

  /**
   The role order: a role number equal to or below the creator's is
   Forbidden and creates nobody; a strictly greater one goes on to creation.
   */
  lemma RoleOrder(us: seq<User>, creator: int, p: UR.UserPayload)
    requires p.role.Some?
    ensures p.role.value <= creator ==>
      Post(us, Some(creator), p).state == us
      && Post(us, Some(creator), p).result.Err?
      && Post(us, Some(creator), p).result.failure.Raised?
      && Post(us, Some(creator), p).result.failure.kind == Forbidden
    ensures p.role.value > creator ==> Post(us, Some(creator), p) == UR.CreateUser(us, p)
  {
  }
}
