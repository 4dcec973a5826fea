/**
  The first-admin bootstrap: `hasAdminUser`, a query over the `userRoles`
  table, and `createFirstAdmin`, which refuses once any admin exists and
  otherwise upgrades the user with the given email, patching that user's role
  record or inserting one.
 */
module Setup {
  import opened Wrappers
  import opened Schema
  import Ideas

  /** The `by_role` index query `.first()` for `admin`: whether an admin record exists. */
  function AdminIn(rows: seq<UserRole>): (r: bool)
    ensures r <==> exists i :: 0 <= i < |rows| && rows[i].role == Admin
  {
    if |rows| == 0 then false
    else if rows[0].role == Admin then true
    else
      assert forall i :: 0 < i < |rows| ==> rows[i] == rows[1..][i - 1];
      AdminIn(rows[1..])
  }

  /** `hasAdminUser`: true exactly when some role record has role admin. */
  function HasAdminUser(db: Database): (r: bool)
    reads db
    ensures r <==> exists i :: 0 <= i < |db.roles| && db.roles[i].role == Admin
  {
    AdminIn(db.roles)
  }

  /** Some user of the directory has `email`. */
  ghost predicate HasUserWithEmail(users: map<UserId, Option<string>>, email: string) {
    exists u :: u in users && users[u] == Some(email)
  }

  /**
    The role table after making `u` an admin: `u`'s record is patched in place
    when it exists, and a single `{userId: u, role: admin}` record is appended
    otherwise. No other record changes.
   */
  function AssignAdmin(rows: seq<UserRole>, u: UserId): (r: seq<UserRole>)
    ensures HasRoleRecord(rows, u) ==> |r| == |rows|
    ensures !HasRoleRecord(rows, u) ==> |r| == |rows| + 1 && r[|rows|] == UserRole(u, Admin)
    ensures forall i :: 0 <= i < |rows| ==> r[i].userId == rows[i].userId
    ensures forall i :: 0 <= i < |rows| && rows[i].userId != u ==> r[i] == rows[i]
    ensures exists i :: 0 <= i < |r| && r[i] == UserRole(u, Admin)
    ensures UniqueUsers(rows) ==> UniqueUsers(r)
    ensures UniqueUsers(rows) ==> forall i :: 0 <= i < |r| && r[i].userId == u ==> r[i].role == Admin
  {
    match FindRoleRow(rows, u)
    case Some(i) => rows[i := UserRole(u, Admin)]
    case None => rows + [UserRole(u, Admin)]
  }

  /** The reply of a successful `createFirstAdmin`. */
  const AssignedMessage := "Admin role assigned successfully"

  /**
    `createFirstAdmin`: fails with "An admin user already exists" when any admin
    record exists, then with "User not found..." when no user has `email`;
    otherwise makes the user with that email an admin. Both failures happen
    before any write, and the `ideas` table is never touched.
   */
  method CreateFirstAdmin(db: Database, email: string) returns (r: Result<string, Error>)
    requires db.Valid()
    modifies db
    ensures db.Valid()
    ensures r.Failure? ==> unchanged(db)
    ensures db.ideas == old(db.ideas) && db.nextId == old(db.nextId)
    ensures old(HasAdminUser(db)) ==> r == Failure(AdminAlreadyExists)
    ensures !old(HasAdminUser(db)) && !HasUserWithEmail(db.users, email) ==> r == Failure(UserNotFound)
    ensures !old(HasAdminUser(db)) && HasUserWithEmail(db.users, email) ==>
      && r == Success(AssignedMessage)
      && exists u :: u in db.users && db.users[u] == Some(email) && db.roles == AssignAdmin(old(db.roles), u)
    ensures r.Success? ==> HasAdminUser(db)
  {
    if HasAdminUser(db) {
      return Failure(AdminAlreadyExists);
    }
    if !(exists u | u in db.users :: db.users[u] == Some(email)) {
      return Failure(UserNotFound);
    }
    var u :| u in db.users && db.users[u] == Some(email);
    ghost var before := db.roles;
    match FindRoleRow(db.roles, u) {
      case Some(i) =>
        db.PatchRole(i, Admin);
      case None =>
        db.InsertRole(UserRole(u, Admin));
    }
    assert db.roles == AssignAdmin(before, u);
    r := Success(AssignedMessage);
  }

  /**
    After the bootstrap makes `u` an admin, `u` is an admin for `isAdmin` and
    every other user keeps the role it had.
   */
  lemma AssignAdminRoles(rows: seq<UserRole>, u: UserId, v: UserId)
    requires UniqueUsers(rows)
    ensures Ideas.GetUserRole(AssignAdmin(rows, u), u) == Admin
    ensures v != u ==> Ideas.GetUserRole(AssignAdmin(rows, u), v) == Ideas.GetUserRole(rows, v)
  {
  }

  /** Bootstrapping a board without admins leaves the target as its only admin. */
  lemma SoleAdmin(rows: seq<UserRole>, u: UserId)
    requires UniqueUsers(rows) && !AdminIn(rows)
    ensures forall v :: v != u ==> Ideas.GetUserRole(AssignAdmin(rows, u), v) == User
  {
    forall v | v != u
      ensures Ideas.GetUserRole(AssignAdmin(rows, u), v) == User
    {
      AssignAdminRoles(rows, u, v);
    }
  }

  /**
    Two bootstrap calls in a row: when the first succeeds, the second fails with
    "An admin user already exists" and the first target is still an admin.
   */
  method SequentialBootstrap(db: Database, first: string, second: string)
    returns (r1: Result<string, Error>, r2: Result<string, Error>)
    requires db.Valid()
    modifies db
    ensures db.Valid()
    ensures r1.Success? ==> r2 == Failure(AdminAlreadyExists)
    ensures r1.Success? ==> exists u ::
      && u in db.users && db.users[u] == Some(first) && Ideas.IsAdmin(db, Some(u))
      && forall v :: v != u ==> !Ideas.IsAdmin(db, Some(v))
  {
    r1 := CreateFirstAdmin(db, first);
    ghost var afterFirst := db.roles;
    r2 := CreateFirstAdmin(db, second);
    if r1.Success? {
      ghost var u :| u in db.users && db.users[u] == Some(first) && afterFirst == AssignAdmin(old(db.roles), u);
      assert db.roles == afterFirst;
      AssignAdminRoles(old(db.roles), u, u);
      SoleAdmin(old(db.roles), u);
    }
  }
}
