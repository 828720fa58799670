/** Administrator accounts (`AdminService`): registration with unique email
    and username, login by email or username, profile update, the guard
    against deactivating the last active administrator, and password change.
    Hashing is outside the model: hashes arrive as parameters and checking a
    password against a hash is the function `matches`. */
module Admins {
  import opened Text

  datatype Admin = Admin(
    id: Option<nat>,
    firstName: string,
    lastName: string,
    username: string,
    email: string,
    password: string,
    role: string,
    status: string)

  predicate EmailTaken(admins: map<nat, Admin>, email: string)
  {
    exists id :: id in admins && admins[id].email == email
  }

  predicate UsernameTaken(admins: map<nat, Admin>, username: string)
  {
    exists id :: id in admins && admins[id].username == username
  }

  /** The rows `findByEmailOrUsername(x, x)` returns. */
  function Matching(admins: map<nat, Admin>, x: string): (r: set<nat>)
    ensures r <= admins.Keys
    ensures forall id :: id in r <==> id in admins && (admins[id].email == x || admins[id].username == x)
  {
    set id | id in admins && (admins[id].email == x || admins[id].username == x)
  }

  /** The ids of the ACTIVE administrators. */
  function ActiveIds(admins: map<nat, Admin>): (r: set<nat>)
    ensures r <= admins.Keys
    ensures forall id :: id in r <==> id in admins && admins[id].status == "ACTIVE"
  {
    set id | id in admins && admins[id].status == "ACTIVE"
  }

  /** `countActiveAdmins()`. */
  function ActiveCount(admins: map<nat, Admin>): nat
  {
    |ActiveIds(admins)|
  }

  /** `isFirstAdmin`: no administrator is active (inactive ones may exist). */
  function IsFirstAdmin(admins: map<nat, Admin>): (first: bool)
    ensures first <==> forall id :: id in admins ==> admins[id].status != "ACTIVE"
  {
    if ActiveCount(admins) == 0 then
      true
    else
      var id :| id in ActiveIds(admins);
      false
  }

  /** Whether `loginAdmin(x, password)` returns an administrator: the lookup
      must find exactly one row (two rows, one matching by email and one by
      username, make the query fail), which must be ACTIVE with a matching
      password. */
  ghost predicate CanLogIn(admins: map<nat, Admin>, matches: (string, string) -> bool, x: string, password: string)
  {
    |Matching(admins, x)| == 1 &&
    forall id :: id in Matching(admins, x) ==> admins[id].status == "ACTIVE" && matches(password, admins[id].password)
  }

  lemma {:induction false} RemoveOneCardinality(s: set<nat>, x: nat)
    ensures |s - {x}| >= |s| - 1
  {
    if x in s {
      assert s == (s - {x}) + {x};
    } else {
      assert s - {x} == s;
    }
  }

  /** Deactivation is only allowed while more than one administrator is
      active, so at least one active administrator always remains. */
  lemma DeactivationLeavesAnActiveAdmin(admins: map<nat, Admin>, id: nat)
    requires id in admins && ActiveCount(admins) > 1
    ensures ActiveCount(admins[id := admins[id].(status := "INACTIVE")]) >= 1
  {
    var after := admins[id := admins[id].(status := "INACTIVE")];
    assert ActiveIds(after) == ActiveIds(admins) - {id};
    RemoveOneCardinality(ActiveIds(admins), id);
  }

  ghost predicate UniqueAccounts(admins: map<nat, Admin>)
  {
    forall i, j :: i in admins && j in admins && i != j ==>
      admins[i].email != admins[j].email && admins[i].username != admins[j].username
  }

  /** A row may take an email and username that no other row holds. */
  lemma PutKeepsUnique(admins: map<nat, Admin>, id: nat, a: Admin)
    requires UniqueAccounts(admins)
    requires forall j :: j in admins && j != id ==> admins[j].email != a.email && admins[j].username != a.username
    ensures UniqueAccounts(admins[id := a])
  {
  }

  /** The `admins` table and the service over it. */
  class AdminService {
    var admins: map<nat, Admin>
    var nextId: nat
    /** `passwordEncoder.matches(raw, encoded)`. */
    const matches: (string, string) -> bool

    /** Rows are stored under their own ids and the unique columns hold. */
    ghost predicate Valid()
      reads this
    {
      (forall id :: id in admins ==> id < nextId && admins[id].id == Some(id)) &&
      UniqueAccounts(admins)
    }

    constructor (matches0: (string, string) -> bool)
      ensures Valid() && admins == map[] && matches == matches0
    {
      admins, nextId, matches := map[], 0, matches0;
    }

    /** `registerAdmin`: `encoded` is the hash of the submitted password. */
    method RegisterAdmin(a: Admin, encoded: string) returns (r: Result<Admin>)
      requires Valid()
      modifies this
      ensures Valid()
      ensures r.Failure? <==> EmailTaken(old(admins), a.email) || UsernameTaken(old(admins), a.username)
      ensures r.Failure? ==>
        admins == old(admins) &&
        r.error == (if EmailTaken(old(admins), a.email) then "Email already exists" else "Username already exists")
      ensures r.Success? ==>
        r.value == a.(id := Some(old(nextId)), password := encoded, role := "ROLE_ADMIN", status := "ACTIVE") &&
        admins == old(admins)[old(nextId) := r.value]
    {
      if EmailTaken(admins, a.email) {
        return Failure("Email already exists");
      }
      if UsernameTaken(admins, a.username) {
        return Failure("Username already exists");
      }
      var saved := a.(id := Some(nextId), password := encoded, role := "ROLE_ADMIN", status := "ACTIVE");
      PutKeepsUnique(admins, nextId, saved);
      admins := admins[nextId := saved];
      nextId := nextId + 1;
      r := Success(saved);
    }

    /** `loginAdmin`; any failure of the lookup yields no administrator. */
    method LoginAdmin(emailOrUsername: string, password: string) returns (r: Option<Admin>)
      requires Valid()
      ensures r.Some? <==> CanLogIn(admins, matches, emailOrUsername, password)
      ensures r.Some? ==> r.value in admins.Values && r.value.status == "ACTIVE"
    {
      var found := Matching(admins, emailOrUsername);
      if |found| != 1 {
        return None;
      }
      var id :| id in found;
      assert found == {id} by {
        forall other | other in found ensures other == id {
          if other != id {
            assert {id, other} <= found;
            assert |{id, other}| == 2;
            SubsetSize({id, other}, found);
          }
        }
      }
      var admin := admins[id];
      if admin.status == "ACTIVE" && matches(password, admin.password) {
        r := Some(admin);
      } else {
        r := None;
      }
    }

    /** `updateAdmin`: names, username and email are replaced; a changed email
        or username must not belong to any row; the password is replaced by
        `encoded` only when a non-empty new password was given. */
    method UpdateAdmin(id: nat, updated: Admin, encoded: string) returns (r: Result<Admin>)
      requires Valid()
      modifies this
      ensures Valid() && nextId == old(nextId)
      ensures r.Failure? <==>
        id !in old(admins) ||
        (old(admins)[id].email != updated.email && EmailTaken(old(admins), updated.email)) ||
        (old(admins)[id].username != updated.username && UsernameTaken(old(admins), updated.username))
      ensures r.Failure? ==> admins == old(admins)
      ensures r.Success? ==>
        var before := old(admins)[id];
        r.value == before.(firstName := updated.firstName, lastName := updated.lastName,
                           username := updated.username, email := updated.email,
                           password := if updated.password != "" then encoded else before.password) &&
        admins == old(admins)[id := r.value]
    {
      if id !in admins {
        return Failure("Admin not found");
      }
      var existing := admins[id];
      if existing.email != updated.email && EmailTaken(admins, updated.email) {
        return Failure("Email already exists");
      }
      if existing.username != updated.username && UsernameTaken(admins, updated.username) {
        return Failure("Username already exists");
      }
      existing := existing.(firstName := updated.firstName, lastName := updated.lastName,
                            username := updated.username, email := updated.email);
      if updated.password != "" {
        existing := existing.(password := encoded);
      }
      PutKeepsUnique(admins, id, existing);
      admins := admins[id := existing];
      r := Success(existing);
    }

    /** `deactivateAdmin`: refused while at most one administrator is active. */
    method DeactivateAdmin(id: nat) returns (r: Result<()>)
      requires Valid()
      modifies this
      ensures Valid() && nextId == old(nextId)
      ensures r.Failure? <==> id !in old(admins) || ActiveCount(old(admins)) <= 1
      ensures r.Failure? ==> admins == old(admins)
      ensures r.Success? ==> admins == old(admins)[id := old(admins)[id].(status := "INACTIVE")]
      ensures ActiveCount(old(admins)) >= 1 ==> ActiveCount(admins) >= 1
    {
      if id !in admins {
        return Failure("Admin not found");
      }
      if ActiveCount(admins) <= 1 {
        return Failure("Cannot deactivate the last admin account");
      }
      DeactivationLeavesAnActiveAdmin(admins, id);
      PutKeepsUnique(admins, id, admins[id].(status := "INACTIVE"));
      admins := admins[id := admins[id].(status := "INACTIVE")];
      r := Success(());
    }

    /** `changePassword`: the account is looked up by email or username (any
        status), the current password must match and the new one must have
        at least six characters; `encoded` is the new password's hash. */
    method ChangePassword(emailOrUsername: string, currentPassword: string, newPassword: Option<string>,
                          encoded: string) returns (r: Result<()>)
      requires Valid()
      modifies this
      ensures Valid() && nextId == old(nextId)
      ensures r.Success? <==>
        |Matching(old(admins), emailOrUsername)| == 1 &&
        (forall id :: id in Matching(old(admins), emailOrUsername) ==>
           matches(currentPassword, old(admins)[id].password)) &&
        newPassword.Some? && |newPassword.value| >= 6
      ensures r.Failure? ==> admins == old(admins)
      ensures r.Success? ==>
                exists id :: id in Matching(old(admins), emailOrUsername) &&
                             admins == old(admins)[id := old(admins)[id].(password := encoded)]
    {
      var found := Matching(admins, emailOrUsername);
      if |found| == 0 {
        return Failure("Admin not found");
      }
      if |found| > 1 {
        return Failure("Query did not return a unique result");
      }
      var id :| id in found;
      assert found == {id} by {
        forall other | other in found ensures other == id {
          if other != id {
            assert {id, other} <= found;
            assert |{id, other}| == 2;
            SubsetSize({id, other}, found);
          }
        }
      }
      if !matches(currentPassword, admins[id].password) {
        return Failure("Current password is incorrect");
      }
      if newPassword.None? || |newPassword.value| < 6 {
        return Failure("New password must be at least 6 characters long");
      }
      PutKeepsUnique(admins, id, admins[id].(password := encoded));
      admins := admins[id := admins[id].(password := encoded)];
      r := Success(());
    }
  }

  lemma {:induction false} SubsetSize(a: set<nat>, b: set<nat>)
    requires a <= b
    ensures |a| <= |b|
    decreases |b|
  {
    if a != {} {
      var x :| x in a;
      SubsetSize(a - {x}, b - {x});
    }
  }
}
