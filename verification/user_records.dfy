/**
 The user store of the authentication app (src/backend/auth_api/models.py).
 As for the order domain, the store is a sequence indexed by identifier and
 a set `deleted_at` becomes the `deleted` flag. The password is kept as the
 value handed to `set_password`; hashing is not modelled, and a null
 password (an unusable one) is `None`.
 */
module UserRecords {

  import opened Wrappers
  import opened Text

  type Id = nat

  datatype User = User(
    email: Option<string>,
    password: Option<string>,
    firstName: string,
    lastName: string,
    role: Option<int>,
    isActive: bool,
    updated: bool,
    deleted: bool)

  /** The role a user gets when none is given. */
  const DEFAULT_ROLE: int := 3

  /** The administrator role; a superuser must have it. */
  const ADMIN_ROLE: int := 1

  /** A keyword argument that is either left out or given (possibly as None). */
  datatype Field<T> = Absent | Given(value: T)
  {
    /** Python's `dict.setdefault`: the given value, or `default` when absent. */
    function OrDefault(default: T): T
    {
      match this
      case Given(v) => v
      case Absent => default
    }
  }

  /** A user that the `deleted_at=None` filter lets through. */
  predicate ActiveUser(us: seq<User>, k: nat)
  {
    k < |us| && !us[k].deleted
  }

  /** An active user at position `k` has this email. */
  predicate ActiveWithEmail(us: seq<User>, k: nat, email: Option<string>)
  {
    ActiveUser(us, k) && us[k].email == email
  }

  /** The positions of the active users with this email, in increasing order. */
  function ActiveWithEmailAll(us: seq<User>, email: Option<string>): (r: seq<Id>)
    ensures forall k :: k in r <==> ActiveWithEmail(us, k, email)
    ensures forall i, j :: 0 <= i < j < |r| ==> r[i] < r[j]
  {
    if |us| == 0 then []
    else
      var last := |us| - 1;
      var prefix := ActiveWithEmailAll(us[..last], email);
      assert forall k :: 0 <= k < last ==> us[..last][k] == us[k];
      assert forall i :: 0 <= i < |prefix| ==> prefix[i] in prefix;
      assert forall i :: 0 <= i < |prefix| ==> prefix[i] < last;
      if ActiveWithEmail(us, last, email) then prefix + [last] else prefix
  }

  /** No two active users share an email. */
  predicate UniqueActiveEmails(us: seq<User>)
  {
    forall i, j :: 0 <= i < |us| && 0 <= j < |us| && ActiveUser(us, i) && ActiveUser(us, j) && us[i].email == us[j].email ==> i == j
  }

  /** When exactly the user at `k` matches, the lookup yields `k` alone (or nothing, when `k` lies beyond the store). */
  lemma {:induction false} SingleMatch(us: seq<User>, email: Option<string>, k: Id)
    requires forall j :: 0 <= j < |us| ==> (ActiveWithEmail(us, j, email) <==> j == k)
    ensures ActiveWithEmailAll(us, email) == if k < |us| then [k] else []
  {
    if |us| > 0 {
      var last := |us| - 1;
      assert forall j :: 0 <= j < last ==> (ActiveWithEmail(us[..last], j, email) <==> ActiveWithEmail(us, j, email));
      SingleMatch(us[..last], email, k);
    }
  }

  /** Under unique emails, the active users with an active user's email are that user alone. */
  lemma UniqueEmailsSingleMatch(us: seq<User>, k: Id)
    requires UniqueActiveEmails(us) && ActiveUser(us, k)
    ensures ActiveWithEmailAll(us, us[k].email) == [k]
  {
    SingleMatch(us, us[k].email, k);
  }
}
