/**
  The two application tables of the idea board (`ideas` and `userRoles`), the
  read-only user directory kept by the authentication tables, and the four
  primitive writes the handlers perform on them (`insert` and `patch` on each
  table).
 */
module Schema {
  import opened Wrappers

  /** Identifier of a user document of the authentication tables. */
  type UserId = nat

  /**
    Identifier of an idea. Ids are handed out from an insertion counter, so an
    id's value is also the idea's rank in creation order; it stands in for the
    system field `_creationTime`.
   */
  type IdeaId = nat

  /** The closed five-value life cycle of an idea. */
  datatype Status = Pending | UnderReview | Approved | Rejected | Implemented {

    /** The literal that the schema's validator accepts for this status. */
    function Literal(): string {
      match this
      case Pending => "pending"
      case UnderReview => "under_review"
      case Approved => "approved"
      case Rejected => "rejected"
      case Implemented => "implemented"
    }
  }

  /**
    The status validator `v.union(v.literal(...), ...)`: a string is accepted
    exactly when it is one of the five literals.
   */
  function ParseStatus(s: string): (r: Option<Status>)
    ensures r.Some? ==> r.value.Literal() == s
    ensures forall st: Status :: st.Literal() == s ==> r == Some(st)
  {
    if s == "pending" then Some(Pending)
    else if s == "under_review" then Some(UnderReview)
    else if s == "approved" then Some(Approved)
    else if s == "rejected" then Some(Rejected)
    else if s == "implemented" then Some(Implemented)
    else None
  }

  datatype Role = User | Admin

  /** One document of the `ideas` table (system fields excluded). */
  datatype Idea = Idea(
    title: string,
    description: string,
    submittedBy: UserId,
    pledgeSupportCount: nat,
    status: Status,
    category: string,
    tags: seq<string>)

  /** An idea together with its id, as queries return it. */
  datatype IdeaDoc = IdeaDoc(id: IdeaId, idea: Idea)

  /** One document of the `userRoles` table. */
  datatype UserRole = UserRole(userId: UserId, role: Role)

  /** The errors the handlers throw. */
  datatype Error =
    | NotAuthenticated
    | AdminAccessRequired
    | IdeaNotFound
    | AdminAlreadyExists
    | UserNotFound
  {
    /** The message of the thrown `Error`. */
    function Message(): string {
      match this
      case NotAuthenticated => "Not authenticated"
      case AdminAccessRequired => "Admin access required"
      case IdeaNotFound => "Idea not found"
      case AdminAlreadyExists => "An admin user already exists"
      case UserNotFound => "User not found. Please create an account first."
    }
  }

  /** At most one role record per user. */
  ghost predicate UniqueUsers(rows: seq<UserRole>) {
    forall i, j :: 0 <= i < j < |rows| ==> rows[i].userId != rows[j].userId
  }

  /** Some role record belongs to `u`. */
  ghost predicate HasRoleRecord(rows: seq<UserRole>, u: UserId) {
    exists i :: 0 <= i < |rows| && rows[i].userId == u
  }

  /**
    The `by_user` index lookup: the position of `u`'s role record, if any.
    It finds the first one, which under `UniqueUsers` is the only one.
   */
  function FindRoleRow(rows: seq<UserRole>, u: UserId): (r: Option<nat>)
    ensures r.Some? ==> r.value < |rows| && rows[r.value].userId == u
    ensures r.Some? ==> forall j :: 0 <= j < r.value ==> rows[j].userId != u
    ensures r.None? ==> forall i :: 0 <= i < |rows| ==> rows[i].userId != u
  {
    if |rows| == 0 then None
    else if rows[0].userId == u then Some(0)
    else match FindRoleRow(rows[1..], u)
      case None => None
      case Some(i) => Some(i + 1)
  }

  /**
    The database: the `ideas` table, its insertion counter, the `userRoles`
    table (row position = document id) and the user directory, which maps a
    user id to the user's email, if any, and which this core only reads.
   */
  class Database {
    var ideas: map<IdeaId, Idea>
    var nextId: nat
    var roles: seq<UserRole>
    const users: map<UserId, Option<string>>

    /** Every id was handed out by the counter; at most one role record per user. */
    ghost predicate Valid()
      reads this
    {
      && (forall id :: id in ideas ==> id < nextId)
      && UniqueUsers(roles)
    }

    constructor (users: map<UserId, Option<string>>)
      ensures Valid()
      ensures ideas == map[] && nextId == 0 && roles == []
      ensures this.users == users
    {
      ideas := map[];
      nextId := 0;
      roles := [];
      this.users := users;
    }

    /** `ctx.db.insert("ideas", idea)`: stores `idea` under a fresh id and returns it. */
    method InsertIdea(idea: Idea) returns (id: IdeaId)
      requires Valid()
      modifies this
      ensures Valid()
      ensures id == old(nextId) && id !in old(ideas)
      ensures ideas == old(ideas)[id := idea] && nextId == old(nextId) + 1
      ensures roles == old(roles)
    {
      id := nextId;
      ideas := ideas[id := idea];
      nextId := nextId + 1;
    }

    /** `ctx.db.patch(id, ...)` on an idea: the idea stored under `id` becomes `idea`. */
    method PatchIdea(id: IdeaId, idea: Idea)
      requires Valid() && id in ideas
      modifies this
      ensures Valid()
      ensures ideas == old(ideas)[id := idea]
      ensures nextId == old(nextId) && roles == old(roles)
    {
      ideas := ideas[id := idea];
    }

    /** `ctx.db.insert("userRoles", row)` for a user who has no role record yet. */
    method InsertRole(row: UserRole)
      requires Valid() && !HasRoleRecord(roles, row.userId)
      modifies this
      ensures Valid()
      ensures roles == old(roles) + [row]
      ensures ideas == old(ideas) && nextId == old(nextId)
    {
      roles := roles + [row];
    }

    /** `ctx.db.patch(rowId, { role })` on the role record at position `i`. */
    method PatchRole(i: nat, role: Role)
      requires Valid() && i < |roles|
      modifies this
      ensures Valid()
      ensures roles == old(roles)[i := old(roles)[i].(role := role)]
      ensures ideas == old(ideas) && nextId == old(nextId)
    {
      roles := roles[i := roles[i].(role := role)];
    }
  }
}
