/** The pure decision logic of the Express server: the session states, the
    responses, the per-resource validation and defaulting, the public view of
    a user, and the ordering of achievements. */
module Server {
  import opened Values
  import opened JsonManager

  // ---------------------------------------------------------------------------
  // Sessions and the auth gate

  /** `req.session`: empty, or carrying `isAdmin = true` and a `username` label. */
  datatype Session = Anonymous | Admin(username: Value)

  /** `isAuthenticated`: `req.session && req.session.isAdmin`. */
  predicate IsAuthenticated(s: Session)
  {
    s.Admin?
  }

  /** The operator credential pair, `ADMIN_USER` and `ADMIN_PASS`. */
  datatype Operator = Operator(user: string, pass: string)

  /** `process.env.X || fallback`: an unset or empty variable takes the fallback. */
  function EnvOr(v: Option<string>, fallback: string): (r: string)
    ensures v.Some? && v.value != "" ==> r == v.value
    ensures v.None? || v.value == "" ==> r == fallback
  {
    if v.Some? && v.value != "" then v.value else fallback
  }

  /** The operator pair read from the environment, with defaults `admin` / `admin123`.
      Neither part can be empty, so a login without a username or password
      never matches it. */
  function OperatorFromEnv(user: Option<string>, pass: Option<string>): (o: Operator)
    ensures o.user != "" && o.pass != ""
    ensures user.None? ==> o.user == "admin"
    ensures pass.None? ==> o.pass == "admin123"
    ensures user.Some? && user.value != "" ==> o.user == user.value
    ensures pass.Some? && pass.value != "" ==> o.pass == pass.value
  {
    Operator(EnvOr(user, "admin"), EnvOr(pass, "admin123"))
  }

  /** The label the operator login stores in the session. */
  const SuperAdmin: Value := Str("SuperAdmin")

  // ---------------------------------------------------------------------------
  // Responses

  /** The `data` member of a JSON reply. */
  datatype Payload = NoData | List(rows: seq<Record>) | Object(fields: Record)

  /** An HTTP reply: status and the `{ success, error?, message?, id?, data? }` body. */
  datatype Response = Response(
    status: nat,
    success: bool,
    error: Option<string>,
    message: Option<string>,
    id: Option<int>,
    data: Payload)

  /** A `res.status(status).json({ success: false, error })` reply. */
  function Failure(status: nat, error: string): (r: Response)
    ensures r.status == status && !r.success && r.error == Some(error)
  {
    Response(status, false, Some(error), None, None, NoData)
  }

  /** A `res.json({ success: true, ... })` reply. */
  function Success(message: Option<string>, id: Option<int>, data: Payload): (r: Response)
    ensures r.status == 200 && r.success && r.error.None?
  {
    Response(200, true, None, message, id, data)
  }

  /** The auth gate's rejection. */
  const Unauthorized: Response := Failure(401, "Unauthorized access")

  /** The `isAuthenticated` middleware: either it answers 401 itself, or it
      passes the request on (`next()`) exactly when the session is an admin's. */
  function Gate(s: Session): (r: Option<Response>)
    ensures r.None? <==> IsAuthenticated(s)
    ensures r.Some? ==> r.value.status == 401 && r.value.error == Some("Unauthorized access") && !r.value.success
  {
    if IsAuthenticated(s) then None else Some(Unauthorized)
  }

  /** Express's reply to a handler that threw: status 500, no JSON body. */
  const InternalError: Response := Response(500, false, None, None, None, NoData)

  // ---------------------------------------------------------------------------
  // Validation and defaulting of request bodies

  /** `if (!title)`: the achievement check. */
  predicate AchievementValid(body: Record)
  {
    Truthy(Get(body, "title"))
  }

  /** `if (!name || !message)`: the testimonial check. */
  predicate TestimonialValid(body: Record)
  {
    Truthy(Get(body, "name")) && Truthy(Get(body, "message"))
  }

  /** The object the achievement POST and PUT hand to the store: the six form
      fields, with `highlight` coerced to 1 or 0 and `icon` and `link` defaulted. */
  function AchievementFields(body: Record): (r: Record)
    ensures r.Keys == {"title", "description", "year", "highlight", "icon", "link"}
    ensures "id" !in r && "created_at" !in r
    ensures r["title"] == Get(body, "title")
    ensures r["description"] == Get(body, "description")
    ensures r["year"] == Get(body, "year")
    ensures r["highlight"] == Num(1) || r["highlight"] == Num(0)
    ensures r["highlight"] == Num(1) <==> Truthy(Get(body, "highlight"))
    ensures Truthy(r["icon"]) && Truthy(r["link"])
    ensures Truthy(Get(body, "icon")) ==> r["icon"] == Get(body, "icon")
    ensures !Truthy(Get(body, "icon")) ==> r["icon"] == Str("fa-trophy")
    ensures Truthy(Get(body, "link")) ==> r["link"] == Get(body, "link")
    ensures !Truthy(Get(body, "link")) ==> r["link"] == Str("#")
  {
    map[
      "title" := Get(body, "title"),
      "description" := Get(body, "description"),
      "year" := Get(body, "year"),
      "highlight" := if Truthy(Get(body, "highlight")) then Num(1) else Num(0),
      "icon" := Or(Get(body, "icon"), Str("fa-trophy")),
      "link" := Or(Get(body, "link"), Str("#"))
    ]
  }

  /** The object the testimonial POST and PUT hand to the store, with `rating`
      defaulted to 5. */
  function TestimonialFields(body: Record): (r: Record)
    ensures r.Keys == {"name", "role", "message", "rating"}
    ensures "id" !in r && "created_at" !in r
    ensures r["name"] == Get(body, "name") && r["role"] == Get(body, "role")
    ensures r["message"] == Get(body, "message")
    ensures Truthy(r["rating"])
    ensures Truthy(Get(body, "rating")) ==> r["rating"] == Get(body, "rating")
    ensures !Truthy(Get(body, "rating")) ==> r["rating"] == Num(5)
  {
    map[
      "name" := Get(body, "name"),
      "role" := Get(body, "role"),
      "message" := Get(body, "message"),
      "rating" := Or(Get(body, "rating"), Num(5))
    ]
  }

  /** The object the social POST and PUT hand to the store: no validation, no defaults. */
  function SocialFields(body: Record): (r: Record)
    ensures r.Keys == {"platform", "url", "icon"}
    ensures "id" !in r && "created_at" !in r
    ensures forall k :: k in r ==> r[k] == Get(body, k)
  {
    map["platform" := Get(body, "platform"), "url" := Get(body, "url"), "icon" := Get(body, "icon")]
  }

  /** The object the user POST hands to the store: no validation, no defaults. */
  function UserFields(body: Record): (r: Record)
    ensures r.Keys == {"username", "password"}
    ensures forall k :: k in r ==> r[k] == Get(body, k)
  {
    map["username" := Get(body, "username"), "password" := Get(body, "password")]
  }

  /** POST /api/users stores whatever it is given, so a user created from a body
      without credentials is matched by a login that sends none. */
  lemma UserWithoutCredentialsMatchesEmptyLogin(d: DbState, now: string)
    ensures MatchUser(Rows(Added(d, "users", UserFields(map[]), now), "users"), Undef, Undef).Some?
  {
    var users := Rows(Added(d, "users", UserFields(map[]), now), "users");
    assert IsUser(users[|users| - 1], Undef, Undef);
  }

  // ---------------------------------------------------------------------------
  // The user listing

  /** `({ id: u.id, username: u.username, created_at: u.created_at })`. */
  function PublicUser(u: Record): (r: Record)
    ensures "password" !in r
    ensures r.Keys == {"id", "username", "created_at"}
    ensures forall k :: k in r ==> r[k] == Get(u, k)
  {
    map["id" := Get(u, "id"), "username" := Get(u, "username"), "created_at" := Get(u, "created_at")]
  }

  /** `users.map(PublicUser)`: one entry per user, in order, none with a password. */
  function PublicUsers(users: seq<Record>): (r: seq<Record>)
    ensures |r| == |users|
    ensures forall k :: 0 <= k < |r| ==> "password" !in r[k] && r[k] == PublicUser(users[k])
  {
    seq(|users|, k requires 0 <= k < |users| => PublicUser(users[k]))
  }

  // ---------------------------------------------------------------------------
  // Achievements by year, descending

  /** A non-empty run of decimal digits, such as the admin form's `"2023"`. */
  predicate IsDigits(s: string)
  {
    s != [] && forall i :: 0 <= i < |s| ==> '0' <= s[i] <= '9'
  }

  /** The number JavaScript's `-` coerces a decimal numeral to. */
  function DigitsValue(s: string): (n: nat)
    requires IsDigits(s)
    ensures |s| == 1 ==> n == s[0] as int - '0' as int
  {
    var last := s[|s| - 1] as int - '0' as int;
    if |s| == 1 then last else 10 * DigitsValue(s[..|s| - 1]) + last
  }

  /** `String(n)`: the decimal numeral of a natural number. */
  function Decimal(n: nat): (s: string)
    ensures IsDigits(s)
  {
    var last := ['0' + (n % 10) as char];
    if n < 10 then last else Decimal(n / 10) + last
  }

  /** Reading back the numeral of `n` gives `n`. */
  lemma {:induction false} DecimalRoundTrip(n: nat)
    ensures DigitsValue(Decimal(n)) == n
  {
    if n >= 10 {
      var s := Decimal(n);
      assert s[..|s| - 1] == Decimal(n / 10);
      DecimalRoundTrip(n / 10);
    }
  }

  /** The sort key of `(a, b) => b.year - a.year`: a number, `true` as 1,
      or a decimal numeral string coerced to its number; anything else
      orders as 0. */
  function Year(r: Record): (y: int)
    ensures Get(r, "year").Num? ==> y == Get(r, "year").n
    ensures Get(r, "year") == Bool(true) ==> y == 1
    ensures Get(r, "year") in {Undef, Null, Bool(false)} ==> y == 0
  {
    match Get(r, "year")
    case Num(n) => n
    case Bool(b) => if b then 1 else 0
    case Str(s) => if IsDigits(s) then DigitsValue(s) else 0
    case _ => 0
  }

  /** A year typed into the admin form as the numeral of `n` sorts as `n`. */
  lemma TypedYearSortsAsNumber(r: Record, n: nat)
    requires Get(r, "year") == Str(Decimal(n))
    ensures Year(r) == n
  {
    DecimalRoundTrip(n);
  }

  predicate SortedByYearDesc(s: seq<Record>)
  {
    forall i, j :: 0 <= i < j < |s| ==> Year(s[i]) >= Year(s[j])
  }

  /** The records of `s` whose year is `y`, in their order in `s`. */
  function WithYear(s: seq<Record>, y: int): (r: seq<Record>)
    ensures |r| <= |s|
  {
    if s == [] then []
    else (if Year(s[0]) == y then [s[0]] else []) + WithYear(s[1..], y)
  }

  /** Put `x` before the first record of `s` whose year is not later than its own. */
  function InsertByYear(x: Record, s: seq<Record>): (r: seq<Record>)
    ensures multiset(r) == multiset(s) + multiset{x}
  {
    if s == [] || Year(x) >= Year(s[0]) then
      [x] + s
    else
      assert s == [s[0]] + s[1..];
      [s[0]] + InsertByYear(x, s[1..])
  }

  /** The records of an insertion are `x` and those of `s`. */
  lemma {:induction false} InsertMembers(x: Record, s: seq<Record>)
    ensures forall z :: z in InsertByYear(x, s) <==> z == x || z in s
  {
    if !(s == [] || Year(x) >= Year(s[0])) {
      InsertMembers(x, s[1..]);
      assert s == [s[0]] + s[1..];
    }
  }

  /** A record no earlier than every record of a sorted list can go in front. */
  lemma ConsKeepsSorted(x: Record, s: seq<Record>)
    requires SortedByYearDesc(s)
    requires forall z :: z in s ==> Year(z) <= Year(x)
    ensures SortedByYearDesc([x] + s)
  {
    var r := [x] + s;
    forall i, j | 0 <= i < j < |r| ensures Year(r[i]) >= Year(r[j]) {
      assert r[j] == s[j - 1];
      if i > 0 { assert r[i] == s[i - 1]; }
    }
  }

  /** Insertion into a sorted list keeps it sorted. */
  lemma {:induction false} InsertKeepsSorted(x: Record, s: seq<Record>)
    requires SortedByYearDesc(s)
    ensures SortedByYearDesc(InsertByYear(x, s))
  {
    if s == [] {
    } else {
      HeadYearIsLatest(s);
      if Year(x) >= Year(s[0]) {
        ConsKeepsSorted(x, s);
      } else {
        var tail := s[1..];
        assert SortedByYearDesc(tail);
        assert forall z :: z in tail ==> z in s;
        InsertKeepsSorted(x, tail);
        InsertMembers(x, tail);
        ConsKeepsSorted(s[0], InsertByYear(x, tail));
      }
    }
  }

  /** The stable sort `rows.sort((a, b) => b.year - a.year)`: sorted by year,
      latest first, and a permutation of its input. */
  function SortByYearDesc(s: seq<Record>): (r: seq<Record>)
    ensures SortedByYearDesc(r)
    ensures multiset(r) == multiset(s) && |r| == |s|
  {
    if s == [] then []
    else
      assert s == [s[0]] + s[1..];
      var sorted := SortByYearDesc(s[1..]);
      InsertKeepsSorted(s[0], sorted);
      InsertByYear(s[0], sorted)
  }

  /** Inserting `x` does not move it past any record of its own year. */
  lemma {:induction false} WithYearOfInsert(x: Record, s: seq<Record>, y: int)
    ensures WithYear(InsertByYear(x, s), y) == (if Year(x) == y then [x] else []) + WithYear(s, y)
  {
    if s == [] || Year(x) >= Year(s[0]) {
      assert ([x] + s)[1..] == s;
    } else {
      WithYearOfInsert(x, s[1..], y);
      assert ([s[0]] + InsertByYear(x, s[1..]))[1..] == InsertByYear(x, s[1..]);
    }
  }

  /** The sort is stable: the records of each year keep their relative order. */
  lemma {:induction false} SortIsStable(s: seq<Record>, y: int)
    ensures WithYear(SortByYearDesc(s), y) == WithYear(s, y)
  {
    if s != [] {
      SortIsStable(s[1..], y);
      WithYearOfInsert(s[0], SortByYearDesc(s[1..]), y);
    }
  }

  /** The records of year `y` are exactly the records of `s` with that year. */
  lemma {:induction false} WithYearMembers(s: seq<Record>, y: int)
    ensures forall x :: x in WithYear(s, y) <==> x in s && Year(x) == y
  {
    if s != [] {
      WithYearMembers(s[1..], y);
      assert s == [s[0]] + s[1..];
    }
  }

  /** In a list sorted latest first, no record is later than the head. */
  lemma HeadYearIsLatest(t: seq<Record>)
    requires SortedByYearDesc(t) && t != []
    ensures forall x :: x in t ==> Year(x) <= Year(t[0])
  {
    forall x | x in t ensures Year(x) <= Year(t[0]) {
      var k :| 0 <= k < |t| && t[k] == x;
      if k > 0 { assert Year(t[0]) >= Year(t[k]); }
    }
  }

  /** A non-empty list has a record in the head's year. */
  lemma HeadInOwnYear(t: seq<Record>)
    requires t != []
    ensures WithYear(t, Year(t[0])) != []
  {
  }

  /** The head year of `t1` is no later than that of `t2` when both are sorted
      and agree on each year's records. */
  lemma HeadYearBound(t1: seq<Record>, t2: seq<Record>)
    requires SortedByYearDesc(t1) && SortedByYearDesc(t2) && t1 != [] && t2 != []
    requires WithYear(t1, Year(t1[0])) == WithYear(t2, Year(t1[0]))
    ensures Year(t1[0]) <= Year(t2[0])
  {
    var y := Year(t1[0]);
    assert t1 == [t1[0]] + t1[1..];
    assert t1[0] in WithYear(t1, y);
    WithYearMembers(t2, y);
    HeadYearIsLatest(t2);
  }

  /** Two lists sorted by year, latest first, that agree on the order of each
      year's records are the same list. */
  lemma {:induction false} SortedByYearUnique(t1: seq<Record>, t2: seq<Record>)
    requires SortedByYearDesc(t1) && SortedByYearDesc(t2)
    requires forall y :: WithYear(t1, y) == WithYear(t2, y)
    ensures t1 == t2
  {
    if t1 == [] && t2 == [] {
    } else if t1 == [] || t2 == [] {
      var t := if t1 == [] then t2 else t1;
      HeadInOwnYear(t);
      assert false;
    } else {
      var a, b := t1[0], t2[0];
      HeadYearBound(t1, t2);
      HeadYearBound(t2, t1);
      var r1, r2 := t1[1..], t2[1..];
      assert t1 == [a] + r1 && t2 == [b] + r2;
      assert WithYear(t1, Year(a))[0] == a;
      assert WithYear(t2, Year(a))[0] == b;
      forall y ensures WithYear(r1, y) == WithYear(r2, y) {
        var h1 := if Year(a) == y then [a] else [];
        var h2 := if Year(b) == y then [b] else [];
        assert WithYear(t1, y) == h1 + WithYear(r1, y);
        assert WithYear(t2, y) == h2 + WithYear(r2, y);
        assert WithYear(r1, y) == WithYear(t1, y)[|h1|..];
        assert WithYear(r2, y) == WithYear(t2, y)[|h2|..];
      }
      SortedByYearUnique(r1, r2);
    }
  }

  /** Any stable sort by year, latest first (such as the engine's
      `Array.prototype.sort`), gives the same list as `SortByYearDesc`. */
  lemma SortIsTheStableSort(s: seq<Record>, t: seq<Record>)
    requires SortedByYearDesc(t)
    requires forall y :: WithYear(t, y) == WithYear(s, y)
    ensures t == SortByYearDesc(s)
  {
    forall y ensures WithYear(t, y) == WithYear(SortByYearDesc(s), y) {
      SortIsStable(s, y);
    }
    SortedByYearUnique(t, SortByYearDesc(s));
  }

  /** Inserting a record whose id is positive and new keeps the id invariant. */
  lemma {:induction false} InsertKeepsIdsWellFormed(x: Record, s: seq<Record>)
    requires IdsWellFormed(s) && HasPositiveId(x)
    requires forall z :: z in s ==> IdOf(z) != IdOf(x)
    ensures IdsWellFormed(InsertByYear(x, s))
  {
    if s == [] || Year(x) >= Year(s[0]) {
      ConsKeepsIdsWellFormed(x, s);
    } else {
      var tail := s[1..];
      TailIdsWellFormed(s);
      assert forall z :: z in tail ==> z in s;
      InsertKeepsIdsWellFormed(x, tail);
      InsertMembers(x, tail);
      assert s[0] in s;
      ConsKeepsIdsWellFormed(s[0], InsertByYear(x, tail));
    }
  }

  /** Sorting the achievements keeps their ids positive and distinct. */
  lemma {:induction false} SortKeepsIdsWellFormed(s: seq<Record>)
    requires IdsWellFormed(s)
    ensures IdsWellFormed(SortByYearDesc(s))
  {
    if s != [] {
      var tail := s[1..];
      TailIdsWellFormed(s);
      SortKeepsIdsWellFormed(tail);
      var sorted := SortByYearDesc(tail);
      assert forall z :: z in sorted ==> z in multiset(tail);
      InsertKeepsIdsWellFormed(s[0], sorted);
    }
  }
}
