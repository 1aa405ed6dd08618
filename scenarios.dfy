/** Request sequences through the handlers, verified from their contracts
    alone: the session flow, validation failures and the empty store. */
module Scenarios {
  import opened Values
  import opened JsonManager
  import opened Server
  import opened Routes

  const Now: string := "2024-01-01T00:00:00.000Z"

  /** Operator login with the default credentials, then a first achievement
      gets id 1 and is the one record listed. */
  method OperatorCreatesFirstAchievement()
  {
    var db := new JsonDB(DefaultState);
    var op := OperatorFromEnv(None, None);
    var login, session := Login(Anonymous, map["username" := Str("admin"), "password" := Str("admin123")], db, op);
    assert login.success && session == Admin(SuperAdmin);
    var body := map["title" := Str("X"), "year" := Num(2024)];
    assert AchievementValid(body);
    assert Rows(db.State(), "achievements") == [];
    var created := CreateAchievement(session, body, db, Now);
    assert created.success && created.id == Some(1);
    var stored := Rows(db.State(), "achievements");
    assert |stored| == 1 && Get(stored[0], "title") == Str("X");
    var listed := ListAchievements(db);
    assert listed.data.rows == SortByYearDesc(stored);
    assert SortByYearDesc(stored) == stored;
    assert Get(listed.data.rows[0], "title") == Str("X");
  }

  /** After logout the gate rejects a write and the store is left as it was. */
  method LogoutClosesTheGate(db: JsonDB, body: Record)
    modifies db
  {
    var before := db.State();
    var login, session := Login(Anonymous, map["username" := Str("admin"), "password" := Str("admin123")], db, OperatorFromEnv(None, None));
    assert IsAuthenticated(session);
    var out, anonymous := Logout(session);
    var rejected := CreateAchievement(anonymous, body, db, Now);
    assert rejected.status == 401 && db.State() == before;
  }

  /** A testimonial with an empty name is refused and the list is unchanged. */
  method EmptyNameIsRefused(db: JsonDB)
    modifies db
  {
    var before := Rows(db.State(), "testimonials");
    var res := CreateTestimonial(Admin(SuperAdmin), map["name" := Str(""), "message" := Str("hi")], db, Now);
    assert res.status == 400;
    var listed := ListTestimonials(db);
    assert listed.data == List(before);
  }

  /** Listing achievements of an empty store is a success with no rows. */
  method EmptyStoreListsNothing()
  {
    var db := new JsonDB(DefaultState);
    var listed := ListAchievements(db);
    assert listed.success && listed.data == List([]);
  }

  /** Two settings writes accumulate. */
  method SettingsAccumulate(db: JsonDB)
    modifies db
  {
    var first := WriteSettings(Admin(SuperAdmin), map["a" := Num(1)], db);
    var second := WriteSettings(Admin(SuperAdmin), map["b" := Num(2)], db);
    var read := ReadSettings(db);
    assert read.data.Object?;
    assert read.data.fields["a"] == Num(1) && read.data.fields["b"] == Num(2);
  }
}
