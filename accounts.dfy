/**
 * The account operations the booking views perform: creating a client
 * account on the fly for a walk-in customer (`_create_client_if_not_exists`)
 * and a supervisor changing a user's role (`changer_role`), which links or
 * unlinks the user's driver profile.
 */
module Accounts {
  import opened Wrappers
  import opened Text

  const CLIENT: string := "CLIENT"
  const CHAUFFEUR: string := "CHAUFFEUR"

  /** The roles `changer_role` accepts. */
  const ROLES: set<string> := {CLIENT, "AGENT", CHAUFFEUR, "SUPERVISEUR", "ADMIN"}

  datatype User = User(username: string, firstName: string, lastName: string, telephone: Option<string>, role: string)

  /** A driver profile, linked to at most one user account. */
  datatype Driver = Driver(nom: string, telephone: Option<string>, user: Option<nat>)

  datatype RoleChange = RoleChanged | InvalidRole | UserNotFound | OwnRole

  /** The `i`-th username tried for `base`: `base` itself, then `base_2`, `base_3`, ... */
  function Candidate(base: string, i: nat): string {
    if i <= 1 then base else base + "_" + NatToString(i)
  }

  /** Different attempts try different usernames. */
  lemma CandidateInjective(base: string, i: nat, j: nat)
    requires 1 <= i && 1 <= j && i != j
    ensures Candidate(base, i) != Candidate(base, j)
  {
    if i >= 2 && j >= 2 && Candidate(base, i) == Candidate(base, j) {
      var a := Candidate(base, i);
      assert |NatToString(i)| == |NatToString(j)|;
      assert NatToString(i) == a[|base| + 1..];
      assert NatToString(j) == a[|base| + 1..];
      NatToStringInjective(i, j);
    }
  }

  lemma {:induction false} SubsetSize(a: set<string>, b: set<string>)
    requires a <= b
    ensures |a| <= |b|
    decreases |a|
  {
    if a != {} {
      var x :| x in a;
      SubsetSize(a - {x}, b - {x});
    }
  }

  /** `get_full_name().strip()`: first and last name joined by a space. */
  function FullName(u: User): string {
    Strip(u.firstName + " " + u.lastName)
  }

  /** The name a new driver profile gets: the full name, or the username when it is blank. */
  function DriverName(u: User): (n: string)
    ensures n == [] ==> u.username == []
  {
    if FullName(u) != [] then FullName(u) else u.username
  }

  /**
   * The username loop of `_create_client_if_not_exists`: tries `base`,
   * then `base_2`, `base_3`, ... and returns the first that is not taken.
   */
  method FreeUsername(base: string, taken: set<string>) returns (username: string)
    ensures username !in taken
    ensures base !in taken ==> username == base
    ensures exists i :: i >= 1 && username == Candidate(base, i) &&
                        forall j :: 1 <= j < i ==> Candidate(base, j) in taken
  {
    username := base;
    var i := 1;
    ghost var seen: set<string> := {};
    while username in taken
      invariant i >= 1 && username == Candidate(base, i)
      invariant forall j :: 1 <= j < i ==> Candidate(base, j) in taken
      invariant forall k :: k >= i ==> Candidate(base, k) !in seen
      invariant seen <= taken && |seen| == i - 1
      decreases |taken| - |seen|
    {
      forall k | k >= i + 1
        ensures Candidate(base, k) != username
      {
        CandidateInjective(base, k, i);
      }
      seen := seen + {username};
      SubsetSize(seen, taken);
      i := i + 1;
      username := base + "_" + NatToString(i);
    }
  }

  class Directory {
    var users: map<nat, User>
    var drivers: map<nat, Driver>
    var nextUserId: nat
    var nextDriverId: nat

    function Usernames(): set<string>
      reads this`users
    {
      set id | id in users :: users[id].username
    }

    /** The driver profile linked to user `uid`, if any. */
    ghost predicate HasDriver(uid: nat)
      reads this`drivers
    {
      exists d :: d in drivers && drivers[d].user == Some(uid)
    }

    /**
     * Keys are below their counters, usernames are unique, and a driver
     * profile is linked to an existing user, one profile per user.
     */
    ghost predicate Valid()
      reads this
    {
      (forall id :: id in users ==> id < nextUserId) &&
      (forall d :: d in drivers ==> d < nextDriverId) &&
      (forall a, b :: a in users && b in users && a != b ==> users[a].username != users[b].username) &&
      (forall d :: d in drivers && drivers[d].user.Some? ==> drivers[d].user.value in users) &&
      (forall d, e :: d in drivers && e in drivers && d != e && drivers[d].user.Some? ==>
                        drivers[d].user != drivers[e].user)
    }

    constructor ()
      ensures Valid() && users == map[] && drivers == map[]
    {
      users := map[];
      drivers := map[];
      nextUserId := 0;
      nextDriverId := 0;
    }

    /**
     * `_create_client_if_not_exists`: creates a client account named after
     * the stripped phone number (the first free candidate), with the
     * customer's name as first name and the phone kept. A blank phone whose
     * first candidate, the empty username, is free makes `create_user`
     * raise `ValueError`; `None` stands for it, and nothing is created.
     */
    method CreateClientIfNotExists(nom: string, tel: string) returns (id: Option<nat>)
      requires Valid()
      modifies this
      ensures Valid()
      ensures drivers == old(drivers) && nextDriverId == old(nextDriverId)
      ensures id.None? <==> Strip(tel) == [] && [] !in old(Usernames())
      ensures id.None? ==> users == old(users) && nextUserId == old(nextUserId)
      ensures id.Some? ==> id.value == old(nextUserId) && nextUserId == old(nextUserId) + 1
      ensures id.Some? ==> id.value !in old(users) && id.value in users
      ensures id.Some? ==> users == old(users)[id.value := User(users[id.value].username, nom, "", Some(tel), CLIENT)]
      ensures id.Some? ==> users[id.value].username != [] && users[id.value].username !in old(Usernames())
      ensures id.Some? && Strip(tel) !in old(Usernames()) ==> users[id.value].username == Strip(tel)
      ensures id.Some? ==> exists i :: i >= 1 && users[id.value].username == Candidate(Strip(tel), i) &&
                                       forall j :: 1 <= j < i ==> Candidate(Strip(tel), j) in old(Usernames())
    {
      var base := Strip(tel);
      var username := FreeUsername(base, Usernames());
      ghost var i :| i >= 1 && username == Candidate(base, i);
      assert i >= 2 ==> |username| > |base|;
      if username == [] {
        return None;
      }
      id := Some(nextUserId);
      users := users[nextUserId := User(username, nom, "", Some(tel), CLIENT)];
      nextUserId := nextUserId + 1;
    }

    /**
     * `changer_role`, performed by user `actor` on user `target`: an unknown
     * role, an unknown user and one's own account are refused, in that
     * order, and change nothing. Otherwise the role is set; becoming a
     * driver links a driver profile (creating one if there is none), any
     * other role unlinks it.
     */
    method ChangerRole(actor: nat, target: nat, newRole: string) returns (out: RoleChange)
      requires Valid()
      modifies this
      ensures Valid()
      ensures nextUserId == old(nextUserId)
      ensures newRole !in ROLES ==> out == InvalidRole
      ensures newRole in ROLES && target !in old(users) ==> out == UserNotFound
      ensures newRole in ROLES && target in old(users) && target == actor ==> out == OwnRole
      ensures out != RoleChanged ==>
                users == old(users) && drivers == old(drivers) && nextDriverId == old(nextDriverId)
      ensures out == RoleChanged <==> newRole in ROLES && target in old(users) && target != actor
      ensures out == RoleChanged ==> users == old(users)[target := old(users)[target].(role := newRole)]
      ensures out == RoleChanged && newRole == CHAUFFEUR ==>
                HasDriver(target) &&
                (old(HasDriver(target)) ==> drivers == old(drivers) && nextDriverId == old(nextDriverId)) &&
                (!old(HasDriver(target)) ==>
                   drivers == old(drivers)[old(nextDriverId) := Driver(DriverName(old(users)[target]),
                                                                      old(users)[target].telephone, Some(target))] &&
                   nextDriverId == old(nextDriverId) + 1)
      ensures out == RoleChanged && newRole != CHAUFFEUR ==>
                !HasDriver(target) && nextDriverId == old(nextDriverId) &&
                drivers.Keys == old(drivers).Keys &&
                forall d :: d in drivers ==>
                  drivers[d] == if old(drivers)[d].user == Some(target) then old(drivers)[d].(user := None)
                                else old(drivers)[d]
    {
      if newRole !in ROLES {
        return InvalidRole;
      }
      if target !in users {
        return UserNotFound;
      }
      if target == actor {
        return OwnRole;
      }
      if newRole == CHAUFFEUR {
        LinkDriver(target);
      } else {
        UnlinkDriver(target);
      }
      users := users[target := users[target].(role := newRole)];
      out := RoleChanged;
    }

    /** Links a driver profile to user `target`, creating one when the user has none. */
    method LinkDriver(target: nat)
      requires Valid() && target in users
      modifies this
      ensures Valid() && HasDriver(target)
      ensures users == old(users) && nextUserId == old(nextUserId)
      ensures old(HasDriver(target)) ==> drivers == old(drivers) && nextDriverId == old(nextDriverId)
      ensures !old(HasDriver(target)) ==>
                drivers == old(drivers)[old(nextDriverId) := Driver(DriverName(users[target]), users[target].telephone, Some(target))] &&
                nextDriverId == old(nextDriverId) + 1
    {
      if exists d :: d in drivers && drivers[d].user == Some(target) {
        return;
      }
      var u := users[target];
      drivers := drivers[nextDriverId := Driver(DriverName(u), u.telephone, Some(target))];
      nextDriverId := nextDriverId + 1;
      assert drivers[old(nextDriverId)].user == Some(target);
    }

    /** Unlinks the driver profile of user `target`, if it has one; the profile itself stays. */
    method UnlinkDriver(target: nat)
      requires Valid()
      modifies this
      ensures Valid() && !HasDriver(target)
      ensures users == old(users) && nextUserId == old(nextUserId) && nextDriverId == old(nextDriverId)
      ensures drivers.Keys == old(drivers).Keys
      ensures forall d :: d in drivers ==>
                drivers[d] == if old(drivers)[d].user == Some(target) then old(drivers)[d].(user := None)
                              else old(drivers)[d]
    {
      if exists d :: d in drivers && drivers[d].user == Some(target) {
        var d :| d in drivers && drivers[d].user == Some(target);
        drivers := drivers[d := drivers[d].(user := None)];
      }
    }
  }
}
