/**
  The idea handlers: role resolution and the two guards, the three read-only
  queries (`listIdeas`, `myIdeas`, `isAdmin`) and the three mutations
  (`submitIdea`, `pledgeSupport`, `updateIdeaStatus`). The caller's identity,
  which the handlers obtain from the authentication provider, is an
  `Option<UserId>` argument.
 */
module Ideas {
  import opened Wrappers
  import opened Schema

  // ---------------------------------------------------------------------------
  // Roles and guards
  // ---------------------------------------------------------------------------

  /** The stored role of `u`, or `User` when `u` has no role record. */
  function GetUserRole(rows: seq<UserRole>, u: UserId): (r: Role)
    ensures UniqueUsers(rows) ==> forall i :: 0 <= i < |rows| && rows[i].userId == u ==> r == rows[i].role
    ensures !HasRoleRecord(rows, u) ==> r == User
  {
    match FindRoleRow(rows, u)
    case Some(i) => rows[i].role
    case None => User
  }

  /** The authentication guard: the caller's id, or "Not authenticated". */
  function GetAuthenticatedUser(caller: Option<UserId>): (r: Result<UserId, Error>)
    ensures r.Success? <==> caller.Some?
    ensures r.Success? ==> r.value == caller.value
    ensures r.Failure? ==> r.error == NotAuthenticated
  {
    match caller
    case None => Failure(NotAuthenticated)
    case Some(u) => Success(u)
  }

  /**
    The admin guard: the caller's id when the caller is signed in and holds an
    admin role record; otherwise "Not authenticated" or "Admin access required".
   */
  function EnsureAdmin(db: Database, caller: Option<UserId>): (r: Result<UserId, Error>)
    reads db
    requires db.Valid()
    ensures caller.None? ==> r == Failure(NotAuthenticated)
    ensures caller.Some? ==>
      (r == Success(caller.value) <==> exists i :: 0 <= i < |db.roles| && db.roles[i] == UserRole(caller.value, Admin))
    ensures caller.Some? && r.Failure? ==> r.error == AdminAccessRequired
    ensures r.Success? ==> caller.Some? && r.value == caller.value
  {
    match GetAuthenticatedUser(caller)
    case Failure(e) => Failure(e)
    case Success(u) =>
      if GetUserRole(db.roles, u) == Admin then Success(u) else Failure(AdminAccessRequired)
  }

  // ---------------------------------------------------------------------------
  // Queries
  // ---------------------------------------------------------------------------

  /** The index a query of the `ideas` table reads through. */
  datatype IdeaIndex = AllIdeas | ByStatus(status: Status) | BySubmitter(user: UserId)

  predicate Selects(index: IdeaIndex, idea: Idea) {
    match index
    case AllIdeas => true
    case ByStatus(s) => idea.status == s
    case BySubmitter(u) => idea.submittedBy == u
  }

  /**
    `query("ideas").withIndex(index).order("desc").collect()` over the ids
    below `n`: exactly the selected ideas, newest (largest id) first.
   */
  function QueryDesc(ideas: map<IdeaId, Idea>, index: IdeaIndex, n: nat): (r: seq<IdeaDoc>)
    ensures forall k :: 0 <= k < |r| ==>
      r[k].id < n && r[k].id in ideas && r[k].idea == ideas[r[k].id] && Selects(index, r[k].idea)
    ensures forall id :: id < n && id in ideas && Selects(index, ideas[id]) ==> IdeaDoc(id, ideas[id]) in r
    ensures forall j, k :: 0 <= j < k < |r| ==> r[j].id > r[k].id
  {
    if n == 0 then []
    else
      var rest := QueryDesc(ideas, index, n - 1);
      if n - 1 in ideas && Selects(index, ideas[n - 1]) then
        [IdeaDoc(n - 1, ideas[n - 1])] + rest
      else rest
  }

  /**
    `user?.email || "Unknown"`: the submitter's email, or "Unknown" when the
    user record is missing, has no email, or has the empty string as email.
   */
  function SubmitterEmail(users: map<UserId, Option<string>>, u: UserId): (r: string)
    ensures r != ""
    ensures r == "Unknown" || (u in users && users[u] == Some(r))
    ensures u in users && users[u].Some? && users[u].value != "" ==> r == users[u].value
  {
    if u in users && users[u].Some? && users[u].value != "" then users[u].value else "Unknown"
  }

  /** An idea as `listIdeas` returns it: the document with its submitter's email. */
  datatype ListedIdea = ListedIdea(doc: IdeaDoc, submitterEmail: string)

  /**
    `listIdeas`: with a status, exactly the ideas in that status; without, all
    ideas; newest first; each joined with its submitter's email.
   */
  function ListIdeas(db: Database, status: Option<Status>): (r: seq<ListedIdea>)
    reads db
    requires db.Valid()
    ensures forall k :: 0 <= k < |r| ==>
      && r[k].doc.id in db.ideas
      && r[k].doc.idea == db.ideas[r[k].doc.id]
      && (status.Some? ==> r[k].doc.idea.status == status.value)
      && r[k].submitterEmail == SubmitterEmail(db.users, r[k].doc.idea.submittedBy)
    ensures forall id :: id in db.ideas && (status.None? || db.ideas[id].status == status.value) ==>
      exists k :: 0 <= k < |r| && r[k].doc == IdeaDoc(id, db.ideas[id])
    ensures forall j, k :: 0 <= j < k < |r| ==> r[j].doc.id > r[k].doc.id
  {
    var index := if status.Some? then ByStatus(status.value) else AllIdeas;
    var docs := QueryDesc(db.ideas, index, db.nextId);
    var users := db.users;
    var r := seq(|docs|, k requires 0 <= k < |docs| => ListedIdea(docs[k], SubmitterEmail(users, docs[k].idea.submittedBy)));
    assert forall k :: 0 <= k < |docs| ==> r[k].doc == docs[k];
    r
  }

  /** `myIdeas`: exactly the caller's ideas, newest first; "Not authenticated" for no caller. */
  function MyIdeas(db: Database, caller: Option<UserId>): (r: Result<seq<IdeaDoc>, Error>)
    reads db
    requires db.Valid()
    ensures caller.None? <==> r == Failure(NotAuthenticated)
    ensures caller.Some? ==> r.Success?
    ensures r.Success? ==> forall k :: 0 <= k < |r.value| ==>
      r.value[k].id in db.ideas && r.value[k].idea == db.ideas[r.value[k].id] && r.value[k].idea.submittedBy == caller.value
    ensures r.Success? ==> forall id :: id in db.ideas && db.ideas[id].submittedBy == caller.value ==>
      IdeaDoc(id, db.ideas[id]) in r.value
    ensures r.Success? ==> forall j, k :: 0 <= j < k < |r.value| ==> r.value[j].id > r.value[k].id
  {
    match GetAuthenticatedUser(caller)
    case Failure(e) => Failure(e)
    case Success(u) => Success(QueryDesc(db.ideas, BySubmitter(u), db.nextId))
  }

  /** Over a table holding the single idea `id`, a query finds it exactly when it selects it. */
  lemma {:induction false} QueryDescSingle(ideas: map<IdeaId, Idea>, index: IdeaIndex, n: nat, id: IdeaId)
    requires ideas.Keys == {id}
    ensures QueryDesc(ideas, index, n) ==
      if id < n && Selects(index, ideas[id]) then [IdeaDoc(id, ideas[id])] else []
  {
    if n > 0 {
      QueryDescSingle(ideas, index, n - 1, id);
    }
  }

  /** A caller whose only idea is `id` gets exactly that one document from `myIdeas`. */
  lemma MyIdeasSingle(db: Database, u: UserId, id: IdeaId)
    requires db.Valid()
    requires db.ideas.Keys == {id} && db.ideas[id].submittedBy == u
    ensures MyIdeas(db, Some(u)) == Success([IdeaDoc(id, db.ideas[id])])
  {
    QueryDescSingle(db.ideas, BySubmitter(u), db.nextId, id);
  }

  /** An idea is listed under a status exactly when it is in that status. */
  lemma ListedUnderStatus(db: Database, status: Status, id: IdeaId)
    requires db.Valid() && id in db.ideas
    ensures (exists k :: 0 <= k < |ListIdeas(db, Some(status))| && ListIdeas(db, Some(status))[k].doc.id == id)
      <==> db.ideas[id].status == status
  {
    var r := ListIdeas(db, Some(status));
    if exists k :: 0 <= k < |r| && r[k].doc.id == id {
      var k :| 0 <= k < |r| && r[k].doc.id == id;
      assert r[k].doc.idea == db.ideas[id];
    }
  }

  /** `isAdmin`: false for an anonymous caller, otherwise whether the caller has an admin record. */
  function IsAdmin(db: Database, caller: Option<UserId>): (r: bool)
    reads db
    requires db.Valid()
    ensures r <==> caller.Some? && exists i :: 0 <= i < |db.roles| && db.roles[i] == UserRole(caller.value, Admin)
  {
    match caller
    case None => false
    case Some(u) => GetUserRole(db.roles, u) == Admin
  }

  // ---------------------------------------------------------------------------
  // Mutations
  // ---------------------------------------------------------------------------

  /**
    What every mutation keeps: no idea disappears, the fields fixed at
    submission never change, and no support count decreases.
   */
  ghost predicate IdeasEvolve(before: map<IdeaId, Idea>, after: map<IdeaId, Idea>) {
    forall id :: id in before ==>
      && id in after
      && after[id].title == before[id].title
      && after[id].description == before[id].description
      && after[id].submittedBy == before[id].submittedBy
      && after[id].category == before[id].category
      && after[id].tags == before[id].tags
      && after[id].pledgeSupportCount >= before[id].pledgeSupportCount
  }

  /** `submitIdea`: stores the fields verbatim as a new pending idea with no support. */
  method SubmitIdea(db: Database, caller: Option<UserId>, title: string, description: string,
                    category: string, tags: seq<string>) returns (r: Result<IdeaId, Error>)
    requires db.Valid()
    modifies db
    ensures db.Valid()
    ensures caller.None? ==> r == Failure(NotAuthenticated) && unchanged(db)
    ensures caller.Some? ==>
      && r == Success(old(db.nextId))
      && r.value !in old(db.ideas)
      && db.ideas == old(db.ideas)[r.value := Idea(title, description, caller.value, 0, Pending, category, tags)]
      && db.nextId == old(db.nextId) + 1
      && db.roles == old(db.roles)
    ensures IdeasEvolve(old(db.ideas), db.ideas)
  {
    match GetAuthenticatedUser(caller)
    case Failure(e) =>
      r := Failure(e);
    case Success(u) =>
      var id := db.InsertIdea(Idea(title, description, u, 0, Pending, category, tags));
      r := Success(id);
  }

  /** The table after one pledge on `id`: its count goes up by one. */
  function WithPledge(ideas: map<IdeaId, Idea>, id: IdeaId): (r: map<IdeaId, Idea>)
    requires id in ideas
    ensures r.Keys == ideas.Keys
    ensures r[id] == ideas[id].(pledgeSupportCount := ideas[id].pledgeSupportCount + 1)
    ensures forall other :: other in ideas && other != id ==> r[other] == ideas[other]
    ensures IdeasEvolve(ideas, r)
  {
    ideas[id := ideas[id].(pledgeSupportCount := ideas[id].pledgeSupportCount + 1)]
  }

  /** `pledgeSupport`: one more supporter for an existing idea; returns the new count. */
  method PledgeSupport(db: Database, caller: Option<UserId>, id: IdeaId) returns (r: Result<nat, Error>)
    requires db.Valid()
    modifies db
    ensures db.Valid()
    ensures caller.None? ==> r == Failure(NotAuthenticated) && unchanged(db)
    ensures caller.Some? && id !in old(db.ideas) ==> r == Failure(IdeaNotFound) && unchanged(db)
    ensures caller.Some? && id in old(db.ideas) ==>
      && r == Success(old(db.ideas[id].pledgeSupportCount) + 1)
      && db.ideas == WithPledge(old(db.ideas), id)
      && db.nextId == old(db.nextId) && db.roles == old(db.roles)
    ensures IdeasEvolve(old(db.ideas), db.ideas)
  {
    match GetAuthenticatedUser(caller)
    case Failure(e) =>
      r := Failure(e);
    case Success(_) =>
      if id !in db.ideas {
        r := Failure(IdeaNotFound);
      } else {
        var idea := db.ideas[id];
        db.PatchIdea(id, idea.(pledgeSupportCount := idea.pledgeSupportCount + 1));
        r := Success(idea.pledgeSupportCount + 1);
      }
  }

  /** The table after `n` sequential pledges on `id`. */
  function AfterPledges(ideas: map<IdeaId, Idea>, id: IdeaId, n: nat): (r: map<IdeaId, Idea>)
    requires id in ideas
    ensures id in r
  {
    if n == 0 then ideas else WithPledge(AfterPledges(ideas, id, n - 1), id)
  }

  /**
    `n` pledges raise the count of `id` by exactly `n` and change nothing else;
    so a freshly submitted idea (count 0) has count `n` after `n` pledges.
   */
  lemma {:induction false} PledgesAccumulate(ideas: map<IdeaId, Idea>, id: IdeaId, n: nat)
    requires id in ideas
    ensures AfterPledges(ideas, id, n).Keys == ideas.Keys
    ensures AfterPledges(ideas, id, n)[id] == ideas[id].(pledgeSupportCount := ideas[id].pledgeSupportCount + n)
    ensures forall other :: other in ideas && other != id ==> AfterPledges(ideas, id, n)[other] == ideas[other]
  {
    if n > 0 {
      PledgesAccumulate(ideas, id, n - 1);
    }
  }

  /** The table after `updateIdeaStatus`: only the status of `id` changes. */
  function WithStatus(ideas: map<IdeaId, Idea>, id: IdeaId, status: Status): (r: map<IdeaId, Idea>)
    requires id in ideas
    ensures r.Keys == ideas.Keys
    ensures r[id] == ideas[id].(status := status)
    ensures forall other :: other in ideas && other != id ==> r[other] == ideas[other]
    ensures IdeasEvolve(ideas, r)
  {
    ideas[id := ideas[id].(status := status)]
  }

  /**
    `updateIdeaStatus`: an admin sets any status from any status and gets it
    back; the guards and the existence check fail before any write.
   */
  method UpdateIdeaStatus(db: Database, caller: Option<UserId>, id: IdeaId, status: Status)
    returns (r: Result<Status, Error>)
    requires db.Valid()
    modifies db
    ensures db.Valid()
    ensures r.Failure? ==> unchanged(db)
    ensures caller.None? ==> r == Failure(NotAuthenticated)
    ensures caller.Some? && !old(IsAdmin(db, caller)) ==> r == Failure(AdminAccessRequired)
    ensures old(IsAdmin(db, caller)) && id !in old(db.ideas) ==> r == Failure(IdeaNotFound)
    ensures old(IsAdmin(db, caller)) && id in old(db.ideas) ==>
      && r == Success(status)
      && db.ideas == WithStatus(old(db.ideas), id, status)
      && db.nextId == old(db.nextId) && db.roles == old(db.roles)
    ensures IdeasEvolve(old(db.ideas), db.ideas)
  {
    match EnsureAdmin(db, caller)
    case Failure(e) =>
      r := Failure(e);
    case Success(_) =>
      if id !in db.ideas {
        r := Failure(IdeaNotFound);
      } else {
        db.PatchIdea(id, db.ideas[id].(status := status));
        r := Success(status);
      }
  }
}
