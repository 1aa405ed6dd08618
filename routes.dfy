/** The route handlers of the API, each taking the session, the request body
    (and route id) and the store, and answering with a reply. Handlers that
    mutate the session return the new one. Mutating routes run the auth gate
    first; a rejected request leaves the store untouched. */
module Routes {
  import opened Values
  import opened JsonManager
  import opened Server

  // ---------------------------------------------------------------------------
  // Auth

  /** POST /api/login: the operator pair first, then the stored users. */
  method Login(session: Session, body: Record, db: JsonDB, op: Operator) returns (res: Response, next: Session)
    ensures var username, password := Get(body, "username"), Get(body, "password");
      username == Str(op.user) && password == Str(op.pass) ==>
        res == Success(None, None, NoData) && next == Admin(SuperAdmin)
    ensures var username, password := Get(body, "username"), Get(body, "password");
      !(username == Str(op.user) && password == Str(op.pass)) ==>
        && ("users" !in db.collections ==> res == InternalError && next == session)
        && ("users" in db.collections && MatchUser(db.collections["users"], username, password).Some? ==>
              res == Success(None, None, NoData) && next == Admin(username))
        && ("users" in db.collections && MatchUser(db.collections["users"], username, password).None? ==>
              res == Failure(401, "Invalid credentials") && next == session)
  {
    var username, password := Get(body, "username"), Get(body, "password");
    if username == Str(op.user) && password == Str(op.pass) {
      return Success(None, None, NoData), Admin(SuperAdmin);
    }
    var user := db.FindUser(username, password);
    match user
    case UsersMissing =>
      res, next := InternalError, session;
    case Found(u) =>
      res, next := Success(None, None, NoData), Admin(Get(u, "username"));
    case NoMatch =>
      res, next := Failure(401, "Invalid credentials"), session;
  }

  /** POST /api/logout: the session is destroyed. */
  method Logout(session: Session) returns (res: Response, next: Session)
    ensures res == Success(None, None, NoData)
    ensures next == Anonymous && !IsAuthenticated(next)
  {
    res, next := Success(None, None, NoData), Anonymous;
  }

  // ---------------------------------------------------------------------------
  // Achievements

  /** GET /api/achievements: the list, latest year first. The stored list is
      the array being sorted, so it is reordered too; nothing is saved. */
  method ListAchievements(db: JsonDB) returns (res: Response)
    modifies db
    ensures res == Success(None, None, List(SortByYearDesc(old(Rows(db.State(), "achievements")))))
    ensures "achievements" in old(db.collections) ==>
      db.collections == old(db.collections)["achievements" := SortByYearDesc(old(db.collections)["achievements"])]
    ensures "achievements" !in old(db.collections) ==> db.collections == old(db.collections)
    ensures db.settings == old(db.settings) && db.persisted == old(db.persisted)
    ensures old(WellFormed(db.State())) ==> WellFormed(db.State())
  {
    var rows := db.GetAll("achievements");
    var sorted := SortByYearDesc(rows);
    if "achievements" in db.collections {
      db.collections := db.collections["achievements" := sorted];
      if IdsWellFormed(rows) {
        SortKeepsIdsWellFormed(rows);
      }
    }
    res := Success(None, None, List(sorted));
  }

  /** POST /api/achievements. */
  method CreateAchievement(session: Session, body: Record, db: JsonDB, now: string) returns (res: Response)
    modifies db
    ensures !IsAuthenticated(session) ==> res == Unauthorized && unchanged(db)
    ensures IsAuthenticated(session) && !AchievementValid(body) ==>
      res == Failure(400, "Title is required") && unchanged(db)
    ensures IsAuthenticated(session) && AchievementValid(body) ==>
      && db.State() == Added(old(db.State()), "achievements", AchievementFields(body), now)
      && db.persisted == db.State()
      && res == Success(Some("Achievement created successfully"), Some(NextId(old(Rows(db.State(), "achievements")))), NoData)
  {
    var rejected := Gate(session);
    if rejected.Some? {
      return rejected.value;
    }
    if !AchievementValid(body) {
      return Failure(400, "Title is required");
    }
    var id := db.Add("achievements", AchievementFields(body), now);
    res := Success(Some("Achievement created successfully"), Some(id), NoData);
  }

  /** PUT /api/achievements/:id: the title is checked before the record is looked up. */
  method UpdateAchievement(session: Session, id: int, body: Record, db: JsonDB) returns (res: Response)
    modifies db
    ensures !IsAuthenticated(session) ==> res == Unauthorized && unchanged(db)
    ensures IsAuthenticated(session) && !AchievementValid(body) ==>
      res == Failure(400, "Title is required") && unchanged(db)
    ensures IsAuthenticated(session) && AchievementValid(body) ==>
      var updated := Updated(old(db.State()), "achievements", id, AchievementFields(body));
      && (updated.None? ==> res == Failure(404, "Achievement not found") && unchanged(db))
      && (updated.Some? ==> res == Success(Some("Achievement updated successfully"), None, NoData)
                            && db.State() == updated.value && db.persisted == db.State())
  {
    var rejected := Gate(session);
    if rejected.Some? {
      return rejected.value;
    }
    if !AchievementValid(body) {
      return Failure(400, "Title is required");
    }
    var ok := db.Update("achievements", id, AchievementFields(body));
    if !ok {
      return Failure(404, "Achievement not found");
    }
    res := Success(Some("Achievement updated successfully"), None, NoData);
  }

  /** DELETE /api/achievements/:id. */
  method DeleteAchievement(session: Session, id: int, db: JsonDB) returns (res: Response)
    modifies db
    ensures !IsAuthenticated(session) ==> res == Unauthorized && unchanged(db)
    ensures IsAuthenticated(session) ==>
      var deleted := Deleted(old(db.State()), "achievements", id);
      && (deleted.None? ==> res == Failure(404, "Achievement not found") && unchanged(db))
      && (deleted.Some? ==> res == Success(Some("Achievement deleted successfully"), None, NoData)
                            && db.State() == deleted.value && db.persisted == db.State())
  {
    var rejected := Gate(session);
    if rejected.Some? {
      return rejected.value;
    }
    var ok := db.Delete("achievements", id);
    if !ok {
      return Failure(404, "Achievement not found");
    }
    res := Success(Some("Achievement deleted successfully"), None, NoData);
  }

  // ---------------------------------------------------------------------------
  // Testimonials

  /** GET /api/testimonials: in stored order. */
  method ListTestimonials(db: JsonDB) returns (res: Response)
    ensures res == Success(None, None, List(Rows(db.State(), "testimonials")))
    ensures "testimonials" !in db.collections ==> res.data == List([])
  {
    var rows := db.GetAll("testimonials");
    res := Success(None, None, List(rows));
  }

  /** POST /api/testimonials. */
  method CreateTestimonial(session: Session, body: Record, db: JsonDB, now: string) returns (res: Response)
    modifies db
    ensures !IsAuthenticated(session) ==> res == Unauthorized && unchanged(db)
    ensures IsAuthenticated(session) && !TestimonialValid(body) ==>
      res == Failure(400, "Name required") && unchanged(db)
    ensures IsAuthenticated(session) && TestimonialValid(body) ==>
      && db.State() == Added(old(db.State()), "testimonials", TestimonialFields(body), now)
      && db.persisted == db.State()
      && res == Success(Some("Testimonial created"), Some(NextId(old(Rows(db.State(), "testimonials")))), NoData)
  {
    var rejected := Gate(session);
    if rejected.Some? {
      return rejected.value;
    }
    if !TestimonialValid(body) {
      return Failure(400, "Name required");
    }
    var id := db.Add("testimonials", TestimonialFields(body), now);
    res := Success(Some("Testimonial created"), Some(id), NoData);
  }

  /** PUT /api/testimonials/:id. */
  method UpdateTestimonial(session: Session, id: int, body: Record, db: JsonDB) returns (res: Response)
    modifies db
    ensures !IsAuthenticated(session) ==> res == Unauthorized && unchanged(db)
    ensures IsAuthenticated(session) && !TestimonialValid(body) ==>
      res == Failure(400, "Name required") && unchanged(db)
    ensures IsAuthenticated(session) && TestimonialValid(body) ==>
      var updated := Updated(old(db.State()), "testimonials", id, TestimonialFields(body));
      && (updated.None? ==> res == Failure(404, "Not found") && unchanged(db))
      && (updated.Some? ==> res == Success(Some("Updated"), None, NoData)
                            && db.State() == updated.value && db.persisted == db.State())
  {
    var rejected := Gate(session);
    if rejected.Some? {
      return rejected.value;
    }
    if !TestimonialValid(body) {
      return Failure(400, "Name required");
    }
    var ok := db.Update("testimonials", id, TestimonialFields(body));
    if !ok {
      return Failure(404, "Not found");
    }
    res := Success(Some("Updated"), None, NoData);
  }

  /** DELETE /api/testimonials/:id. */
  method DeleteTestimonial(session: Session, id: int, db: JsonDB) returns (res: Response)
    modifies db
    ensures !IsAuthenticated(session) ==> res == Unauthorized && unchanged(db)
    ensures IsAuthenticated(session) ==>
      var deleted := Deleted(old(db.State()), "testimonials", id);
      && (deleted.None? ==> res == Failure(404, "Not found") && unchanged(db))
      && (deleted.Some? ==> res == Success(Some("Deleted"), None, NoData)
                            && db.State() == deleted.value && db.persisted == db.State())
  {
    var rejected := Gate(session);
    if rejected.Some? {
      return rejected.value;
    }
    var ok := db.Delete("testimonials", id);
    if !ok {
      return Failure(404, "Not found");
    }
    res := Success(Some("Deleted"), None, NoData);
  }

  // ---------------------------------------------------------------------------
  // Socials

  /** GET /api/socials: in stored order. */
  method ListSocials(db: JsonDB) returns (res: Response)
    ensures res == Success(None, None, List(Rows(db.State(), "socials")))
    ensures "socials" !in db.collections ==> res.data == List([])
  {
    var rows := db.GetAll("socials");
    res := Success(None, None, List(rows));
  }

  /** POST /api/socials: no validation. */
  method CreateSocial(session: Session, body: Record, db: JsonDB, now: string) returns (res: Response)
    modifies db
    ensures !IsAuthenticated(session) ==> res == Unauthorized && unchanged(db)
    ensures IsAuthenticated(session) ==>
      && db.State() == Added(old(db.State()), "socials", SocialFields(body), now)
      && db.persisted == db.State()
      && res == Success(None, Some(NextId(old(Rows(db.State(), "socials")))), NoData)
  {
    var rejected := Gate(session);
    if rejected.Some? {
      return rejected.value;
    }
    var id := db.Add("socials", SocialFields(body), now);
    res := Success(None, Some(id), NoData);
  }

  /** DELETE /api/socials/:id: succeeds whether or not a record was removed. */
  method DeleteSocial(session: Session, id: int, db: JsonDB) returns (res: Response)
    modifies db
    ensures !IsAuthenticated(session) ==> res == Unauthorized && unchanged(db)
    ensures IsAuthenticated(session) ==>
      var deleted := Deleted(old(db.State()), "socials", id);
      && res == Success(None, None, NoData)
      && (deleted.None? ==> db.State() == old(db.State()) && db.persisted == old(db.persisted))
      && (deleted.Some? ==> db.State() == deleted.value && db.persisted == db.State())
  {
    var rejected := Gate(session);
    if rejected.Some? {
      return rejected.value;
    }
    var _ := db.Delete("socials", id);
    res := Success(None, None, NoData);
  }

  /** PUT /api/socials/:id: succeeds whether or not a record matched. */
  method UpdateSocial(session: Session, id: int, body: Record, db: JsonDB) returns (res: Response)
    modifies db
    ensures !IsAuthenticated(session) ==> res == Unauthorized && unchanged(db)
    ensures IsAuthenticated(session) ==>
      var updated := Updated(old(db.State()), "socials", id, SocialFields(body));
      && res == Success(None, None, NoData)
      && (updated.None? ==> unchanged(db))
      && (updated.Some? ==> db.State() == updated.value && db.persisted == db.State())
  {
    var rejected := Gate(session);
    if rejected.Some? {
      return rejected.value;
    }
    var _ := db.Update("socials", id, SocialFields(body));
    res := Success(None, None, NoData);
  }

  // ---------------------------------------------------------------------------
  // Users (every route is gated, listing included)

  /** GET /api/users: id, username and created_at of each user; never a password. */
  method ListUsers(session: Session, db: JsonDB) returns (res: Response)
    ensures !IsAuthenticated(session) ==> res == Unauthorized
    ensures IsAuthenticated(session) ==> res == Success(None, None, List(PublicUsers(Rows(db.State(), "users"))))
    ensures res.data.List? ==> forall k :: 0 <= k < |res.data.rows| ==> "password" !in res.data.rows[k]
  {
    var rejected := Gate(session);
    if rejected.Some? {
      return rejected.value;
    }
    var users := db.GetAll("users");
    res := Success(None, None, List(PublicUsers(users)));
  }

  /** POST /api/users: no validation and no duplicate check. */
  method CreateUser(session: Session, body: Record, db: JsonDB, now: string) returns (res: Response)
    modifies db
    ensures !IsAuthenticated(session) ==> res == Unauthorized && unchanged(db)
    ensures IsAuthenticated(session) ==>
      && db.State() == Added(old(db.State()), "users", UserFields(body), now)
      && db.persisted == db.State()
      && res == Success(None, Some(NextId(old(Rows(db.State(), "users")))), NoData)
  {
    var rejected := Gate(session);
    if rejected.Some? {
      return rejected.value;
    }
    var id := db.Add("users", UserFields(body), now);
    res := Success(None, Some(id), NoData);
  }

  /** DELETE /api/users/:id: succeeds whether or not a record was removed. */
  method DeleteUser(session: Session, id: int, db: JsonDB) returns (res: Response)
    modifies db
    ensures !IsAuthenticated(session) ==> res == Unauthorized && unchanged(db)
    ensures IsAuthenticated(session) ==>
      var deleted := Deleted(old(db.State()), "users", id);
      && res == Success(None, None, NoData)
      && (deleted.None? ==> db.State() == old(db.State()) && db.persisted == old(db.persisted))
      && (deleted.Some? ==> db.State() == deleted.value && db.persisted == db.State())
  {
    var rejected := Gate(session);
    if rejected.Some? {
      return rejected.value;
    }
    var _ := db.Delete("users", id);
    res := Success(None, None, NoData);
  }

  // ---------------------------------------------------------------------------
  // Settings

  /** GET /api/settings: the settings object, empty when there is none. */
  method ReadSettings(db: JsonDB) returns (res: Response)
    ensures res == Success(None, None, Object(SettingsOf(db.State())))
    ensures db.settings.None? ==> res.data == Object(map[])
  {
    var s := db.GetSettings();
    res := Success(None, None, Object(s));
  }

  /** POST /api/settings: the whole body is merged into the settings. */
  method WriteSettings(session: Session, body: Record, db: JsonDB) returns (res: Response)
    modifies db
    ensures !IsAuthenticated(session) ==> res == Unauthorized && unchanged(db)
    ensures IsAuthenticated(session) ==>
      && db.State() == WithSettings(old(db.State()), body)
      && db.persisted == db.State()
      && res == Success(None, None, NoData)
  {
    var rejected := Gate(session);
    if rejected.Some? {
      return rejected.value;
    }
    db.SetSettings(body);
    res := Success(None, None, NoData);
  }
}
