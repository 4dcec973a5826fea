/**
  A client of the handlers' contracts: the life of one idea on a fresh board,
  from the first-admin bootstrap through submission, a pledge and approval.
 */
module Scenario {
  import opened Wrappers
  import opened Schema
  import opened Ideas
  import Setup

  method DarkModeIdea() {
    var author, supporter, admin := 1, 2, 3;
    var db := new Database(map[author := Some("ana@example.com"), supporter := Some("bo@example.com"),
                               admin := Some("cy@example.com")]);

    // No admin yet: the bootstrap makes the user with this email the admin.
    assert !Setup.HasAdminUser(db);
    assert db.users[admin] == Some("cy@example.com");
    var boot := Setup.CreateFirstAdmin(db, "cy@example.com");
    assert boot.Success?;
    assert db.roles == [UserRole(admin, Admin)];

    var submitted := SubmitIdea(db, Some(author), "Dark mode", "Add a dark theme", "Web Development", ["ui", "theme"]);
    var id := submitted.value;
    var idea := Idea("Dark mode", "Add a dark theme", author, 0, Pending, "Web Development", ["ui", "theme"]);
    assert db.ideas == map[id := idea];

    // The author's ideas are exactly the new one: pending, without support.
    var mine := MyIdeas(db, Some(author));
    MyIdeasSingle(db, author, id);
    assert mine == Success([IdeaDoc(id, idea)]);

    var count := PledgeSupport(db, Some(supporter), id);
    assert count == Success(1);

    assert IsAdmin(db, Some(admin));
    var status := UpdateIdeaStatus(db, Some(admin), id, Approved);
    assert status == Success(Approved);
    assert db.ideas[id].status == Approved && db.ideas[id].pledgeSupportCount == 1;

    // The approved list has it; the pending list does not.
    var approved := ListIdeas(db, Some(Approved));
    ListedUnderStatus(db, Approved, id);
    assert exists k :: 0 <= k < |approved| && approved[k].doc.id == id;
    var pending := ListIdeas(db, Some(Pending));
    ListedUnderStatus(db, Pending, id);
    assert forall k :: 0 <= k < |pending| ==> pending[k].doc.id != id;
  }
}
