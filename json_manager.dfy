/** The JSON-file collection store (`JsonDB`): named lists of records plus a
    flat settings object, with auto-incremented ids. The file itself is
    abstracted to the field `persisted`, which `Save` sets to the current data. */
module JsonManager {
  import opened Values

  /** `this.data`: the record lists by collection name, and `settings`,
      which a loaded file may lack. */
  datatype DbState = DbState(collections: map<string, seq<Record>>, settings: Option<Record>)

  /** `defaultData`: four empty collections and empty settings. */
  const DefaultState: DbState :=
    DbState(map["users" := [], "socials" := [], "achievements" := [], "testimonials" := []], Some(map[]))

  // ---------------------------------------------------------------------------
  // Ids

  /** The `i.id || 0` of the auto-increment: a numeric id, or 0 when falsy. */
  function IdOf(r: Record): (i: int)
    ensures Get(r, "id") == Num(i) || (i == 0 && !Get(r, "id").Num?)
  {
    match Get(r, "id")
    case Num(n) => n
    case _ => 0
  }

  /** `item.id == id` for an integer route id. */
  predicate Matches(r: Record, id: int): (m: bool)
    ensures m ==> IdOf(r) == id
    ensures HasPositiveId(r) ==> (m <==> IdOf(r) == id)
  {
    Get(r, "id") == Num(id)
  }

  /** `list.reduce((max, i) => Math.max(max, i.id || 0), 0)`, folded from the left. */
  function MaxId(rows: seq<Record>): (m: int)
    ensures m >= 0
    ensures forall k :: 0 <= k < |rows| ==> IdOf(rows[k]) <= m
    ensures m == 0 || exists k :: 0 <= k < |rows| && IdOf(rows[k]) == m
  {
    if rows == [] then 0
    else
      var m := MaxId(rows[..|rows| - 1]);
      var last := IdOf(rows[|rows| - 1]);
      if last > m then last else m
  }

  /** The id `add` assigns to a new record of `rows`. */
  function NextId(rows: seq<Record>): (id: int)
    ensures id > 0
    ensures forall k :: 0 <= k < |rows| ==> IdOf(rows[k]) < id && !Matches(rows[k], id)
  {
    MaxId(rows) + 1
  }

  predicate HasPositiveId(r: Record)
  {
    Get(r, "id").Num? && Get(r, "id").n > 0
  }

  /** The collection invariant: every record has a positive integer id, and
      no two records share one. */
  predicate IdsWellFormed(rows: seq<Record>)
  {
    && (forall k :: 0 <= k < |rows| ==> HasPositiveId(rows[k]))
    && (forall i, j :: 0 <= i < j < |rows| ==> IdOf(rows[i]) != IdOf(rows[j]))
  }

  predicate WellFormed(d: DbState)
  {
    forall c :: c in d.collections ==> IdsWellFormed(d.collections[c])
  }

  // ---------------------------------------------------------------------------
  // Reads

  /** `this.data[collection] || []`. */
  function Rows(d: DbState, c: string): (rows: seq<Record>)
    ensures c !in d.collections ==> rows == []
    ensures WellFormed(d) ==> IdsWellFormed(rows)
  {
    if c in d.collections then d.collections[c] else []
  }

  /** `findIndex(item => item.id == id)`, with -1 as None. */
  function FindIndex(rows: seq<Record>, id: int): (r: Option<nat>)
    ensures r.Some? ==> r.value < |rows| && Matches(rows[r.value], id)
    ensures r.Some? ==> forall k :: 0 <= k < r.value ==> !Matches(rows[k], id)
    ensures r.None? <==> forall k :: 0 <= k < |rows| ==> !Matches(rows[k], id)
  {
    if rows == [] then None
    else if Matches(rows[0], id) then Some(0)
    else
      match FindIndex(rows[1..], id)
      case None => None
      case Some(i) => Some(i + 1)
  }

  /** `list.find(item => item.id == id)`: the first record with that id. */
  function FindById(rows: seq<Record>, id: int): (r: Option<Record>)
    ensures r.Some? ==> r.value in rows && Matches(r.value, id)
    ensures r.Some? ==> exists k :: 0 <= k < |rows| && rows[k] == r.value
                          && forall j :: 0 <= j < k ==> !Matches(rows[j], id)
    ensures r.None? <==> forall k :: 0 <= k < |rows| ==> !Matches(rows[k], id)
  {
    match FindIndex(rows, id)
    case Some(i) => Some(rows[i])
    case None => None
  }

  predicate IsUser(u: Record, username: Value, password: Value)
  {
    Get(u, "username") == username && Get(u, "password") == password
  }

  /** `users.find(u => u.username === username && u.password === password)`. */
  function MatchUser(users: seq<Record>, username: Value, password: Value): (r: Option<Record>)
    ensures r.Some? ==> r.value in users && IsUser(r.value, username, password)
    ensures r.Some? ==> exists k :: 0 <= k < |users| && users[k] == r.value
                          && forall j :: 0 <= j < k ==> !IsUser(users[j], username, password)
    ensures r.None? <==> forall k :: 0 <= k < |users| ==> !IsUser(users[k], username, password)
  {
    if users == [] then None
    else if IsUser(users[0], username, password) then Some(users[0])
    else
      var r := MatchUser(users[1..], username, password);
      if r.Some? then
        ghost var k :| 0 <= k < |users[1..]| && users[1..][k] == r.value
                       && forall j :: 0 <= j < k ==> !IsUser(users[1..][j], username, password);
        assert users[k + 1] == r.value;
        r
      else r
  }

  /** `this.data.settings || {}`. */
  function SettingsOf(d: DbState): (s: Record)
    ensures d.settings.None? ==> s == map[]
  {
    match d.settings
    case Some(s) => s
    case None => map[]
  }

  // ---------------------------------------------------------------------------
  // Writes, as functions of the old data

  /** The record `add` stores: the caller's object with `id` and `created_at` set. */
  function Stamp(item: Record, id: int, now: string): (r: Record)
    ensures r.Keys == item.Keys + {"id", "created_at"}
    ensures Get(r, "id") == Num(id) && Get(r, "created_at") == Str(now)
    ensures forall key :: key in item && key != "id" && key != "created_at" ==> r[key] == item[key]
  {
    item["id" := Num(id)]["created_at" := Str(now)]
  }

  /** The data after `add(c, item)`: the collection (created when absent) gets one
      more record at its end, whose id exceeds every id already there. */
  function Added(d: DbState, c: string, item: Record, now: string): (r: DbState)
    ensures c in r.collections
    ensures var before := Rows(d, c); var after := Rows(r, c);
      && |after| == |before| + 1
      && after[..|before|] == before
      && IdOf(after[|before|]) == NextId(before)
      && HasPositiveId(after[|before|])
      && (forall k :: 0 <= k < |before| ==> IdOf(before[k]) < IdOf(after[|before|]))
      && Get(after[|before|], "created_at") == Str(now)
      && (forall key :: key != "id" && key != "created_at" ==> Get(after[|before|], key) == Get(item, key))
    ensures forall other :: other != c ==> Rows(r, other) == Rows(d, other)
    ensures r.collections.Keys == d.collections.Keys + {c}
    ensures r.settings == d.settings
  {
    var rows := Rows(d, c);
    d.(collections := d.collections[c := rows + [Stamp(item, NextId(rows), now)]])
  }

  /** The data after `update(c, id, updates)`, or None when it returns false:
      the first record with that id becomes its shallow merge with `updates`. */
  function Updated(d: DbState, c: string, id: int, updates: Record): (r: Option<DbState>)
    ensures r.None? <==> c !in d.collections || forall k :: 0 <= k < |Rows(d, c)| ==> !Matches(Rows(d, c)[k], id)
    ensures r.Some? ==> var i := FindIndex(Rows(d, c), id).value; var before := Rows(d, c); var after := Rows(r.value, c);
      && |after| == |before|
      && after[i] == Merge(before[i], updates)
      && (forall k :: 0 <= k < |before| && k != i ==> after[k] == before[k])
    ensures r.Some? ==> r.value.collections.Keys == d.collections.Keys
    ensures r.Some? ==> forall other :: other != c ==> Rows(r.value, other) == Rows(d, other)
    ensures r.Some? ==> r.value.settings == d.settings
  {
    if c !in d.collections then None
    else
      var rows := d.collections[c];
      match FindIndex(rows, id)
      case None => None
      case Some(i) =>
        assert Matches(Rows(d, c)[i], id);
        Some(d.(collections := d.collections[c := rows[i := Merge(rows[i], updates)]]))
  }

  /** `list.filter(item => item.id != id)`. */
  function Remaining(rows: seq<Record>, id: int): (r: seq<Record>)
    ensures |r| <= |rows|
    ensures forall x :: x in r <==> x in rows && !Matches(x, id)
    ensures |r| == |rows| <==> forall k :: 0 <= k < |rows| ==> !Matches(rows[k], id)
    ensures (forall k :: 0 <= k < |rows| ==> !Matches(rows[k], id)) ==> r == rows
  {
    if rows == [] then []
    else (if Matches(rows[0], id) then [] else [rows[0]]) + Remaining(rows[1..], id)
  }

  /** The data after `delete(c, id)`, or None when it returns false (no such
      collection, or nothing had that id). */
  function Deleted(d: DbState, c: string, id: int): (r: Option<DbState>)
    ensures r.None? <==> c !in d.collections || forall k :: 0 <= k < |Rows(d, c)| ==> !Matches(Rows(d, c)[k], id)
    ensures r.Some? ==> Rows(r.value, c) == Remaining(Rows(d, c), id) && |Rows(r.value, c)| < |Rows(d, c)|
    ensures r.Some? ==> r.value.collections.Keys == d.collections.Keys
    ensures r.Some? ==> forall other :: other != c ==> Rows(r.value, other) == Rows(d, other)
    ensures r.Some? ==> r.value.settings == d.settings
  {
    if c !in d.collections then None
    else
      var rest := Remaining(d.collections[c], id);
      assert Rows(d, c) == d.collections[c];
      if |rest| != |d.collections[c]| then Some(d.(collections := d.collections[c := rest]))
      else None
  }

  /** The data after `setSettings(m)`: `{ ...settings, ...m }`. */
  function WithSettings(d: DbState, m: Record): (r: DbState)
    ensures SettingsOf(r).Keys == SettingsOf(d).Keys + m.Keys
    ensures forall k :: k in m ==> SettingsOf(r)[k] == m[k]
    ensures forall k :: k in SettingsOf(d) && k !in m ==> SettingsOf(r)[k] == SettingsOf(d)[k]
    ensures r.collections == d.collections
  {
    d.(settings := Some(Merge(SettingsOf(d), m)))
  }

  // ---------------------------------------------------------------------------
  // Properties of the store operations

  /** The initial schema satisfies the id invariant. */
  lemma DefaultStateWellFormed()
    ensures WellFormed(DefaultState)
    ensures forall c :: c in DefaultState.collections ==> Rows(DefaultState, c) == []
  {
  }

  /** A record just added is found by the id `add` returned, with the fields given. */
  lemma AddThenFind(d: DbState, c: string, item: Record, now: string)
    ensures FindById(Rows(Added(d, c, item, now), c), NextId(Rows(d, c))) == Some(Stamp(item, NextId(Rows(d, c)), now))
  {
    var rows := Rows(d, c);
    var id := NextId(rows);
    var after := Rows(Added(d, c, item, now), c);
    assert after == rows + [Stamp(item, id, now)];
    assert FindIndex(after, id) == Some(|rows|);
  }

  /** Appending a record whose id exceeds every id in a well-formed list keeps it well formed. */
  lemma AppendKeepsIdsWellFormed(rows: seq<Record>, x: Record)
    requires IdsWellFormed(rows) && HasPositiveId(x)
    requires forall k :: 0 <= k < |rows| ==> IdOf(rows[k]) < IdOf(x)
    ensures IdsWellFormed(rows + [x])
  {
    var r := rows + [x];
    assert forall k :: 0 <= k < |rows| ==> r[k] == rows[k];
  }

  /** `add` keeps every collection's ids positive and distinct. */
  lemma AddKeepsIdsWellFormed(d: DbState, c: string, item: Record, now: string)
    requires WellFormed(d)
    ensures WellFormed(Added(d, c, item, now))
  {
    var r := Added(d, c, item, now);
    var rows := Rows(d, c);
    var x := Stamp(item, NextId(rows), now);
    assert IdsWellFormed(rows);
    assert Get(x, "id") == Num(NextId(rows));
    AppendKeepsIdsWellFormed(rows, x);
    assert r.collections[c] == rows + [x];
    forall other | other in r.collections ensures IdsWellFormed(r.collections[other]) {
      if other != c { assert r.collections[other] == Rows(d, other); }
    }
  }

  /** After a successful `update` that does not overwrite `id`, the same id
      finds the merged record. */
  lemma UpdateThenFind(d: DbState, c: string, id: int, updates: Record)
    requires "id" !in updates
    requires Updated(d, c, id, updates).Some?
    ensures FindById(Rows(Updated(d, c, id, updates).value, c), id) == Some(Merge(FindById(Rows(d, c), id).value, updates))
  {
    var before := Rows(d, c);
    var after := Rows(Updated(d, c, id, updates).value, c);
    var i := FindIndex(before, id).value;
    assert Matches(after[i], id);
    assert forall k :: 0 <= k < i ==> after[k] == before[k];
    assert FindIndex(after, id) == Some(i);
  }

  /** An `update` that does not overwrite `id` keeps the id invariant. */
  lemma UpdateKeepsIdsWellFormed(d: DbState, c: string, id: int, updates: Record)
    requires WellFormed(d)
    requires "id" !in updates
    requires Updated(d, c, id, updates).Some?
    ensures WellFormed(Updated(d, c, id, updates).value)
  {
    var r := Updated(d, c, id, updates).value;
    var before, after := Rows(d, c), Rows(r, c);
    var i := FindIndex(before, id).value;
    assert IdsWellFormed(before);
    forall k | 0 <= k < |after| ensures IdOf(after[k]) == IdOf(before[k]) && HasPositiveId(after[k]) {
      if k == i {
        assert after[k] == Merge(before[k], updates);
        assert Get(after[k], "id") == Get(before[k], "id");
      } else {
        assert after[k] == before[k];
      }
    }
    assert IdsWellFormed(after);
    forall other | other in r.collections ensures IdsWellFormed(r.collections[other]) {
      if other != c { assert r.collections[other] == Rows(d, other); }
    }
  }

  /** Filtering a list with a known first record. */
  lemma RemainingCons(x: Record, s: seq<Record>, id: int)
    ensures Remaining([x] + s, id) == (if Matches(x, id) then [] else [x]) + Remaining(s, id)
  {
    assert ([x] + s)[0] == x && ([x] + s)[1..] == s;
  }

  /** `filter` keeps the relative order of the records it keeps. */
  lemma {:induction false} RemainingOfConcat(a: seq<Record>, b: seq<Record>, id: int)
    ensures Remaining(a + b, id) == Remaining(a, id) + Remaining(b, id)
  {
    if a == [] {
      assert a + b == b;
    } else {
      var x, rest := a[0], a[1..];
      assert a == [x] + rest;
      assert a + b == [x] + (rest + b);
      var h := if Matches(x, id) then [] else [x];
      calc {
        Remaining(a + b, id);
        == { RemainingCons(x, rest + b, id); }
        h + Remaining(rest + b, id);
        == { RemainingOfConcat(rest, b, id); }
        h + (Remaining(rest, id) + Remaining(b, id));
        (h + Remaining(rest, id)) + Remaining(b, id);
        == { RemainingCons(x, rest, id); }
        Remaining(a, id) + Remaining(b, id);
      }
    }
  }

  /** The tail of a well-formed list is well formed, and its head's id is not
      used by any record after it. */
  lemma TailIdsWellFormed(rows: seq<Record>)
    requires IdsWellFormed(rows) && rows != []
    ensures IdsWellFormed(rows[1..]) && HasPositiveId(rows[0])
    ensures forall z :: z in rows[1..] ==> IdOf(z) != IdOf(rows[0])
  {
    var tail := rows[1..];
    assert forall k :: 0 <= k < |tail| ==> tail[k] == rows[k + 1];
    forall z | z in tail ensures IdOf(z) != IdOf(rows[0]) {
      var k :| 0 <= k < |tail| && tail[k] == z;
      assert rows[k + 1] == z;
    }
  }

  /** Putting a record with a positive, unused id in front keeps the id invariant. */
  lemma ConsKeepsIdsWellFormed(x: Record, rows: seq<Record>)
    requires IdsWellFormed(rows) && HasPositiveId(x)
    requires forall z :: z in rows ==> IdOf(z) != IdOf(x)
    ensures IdsWellFormed([x] + rows)
  {
    var r := [x] + rows;
    forall i, j | 0 <= i < j < |r| ensures IdOf(r[i]) != IdOf(r[j]) {
      assert r[j] == rows[j - 1];
      if i > 0 { assert r[i] == rows[i - 1]; }
    }
    forall k | 0 < k < |r| ensures HasPositiveId(r[k]) {
      assert r[k] == rows[k - 1];
    }
  }

  /** Filtering keeps the id invariant. */
  lemma {:induction false} RemainingKeepsIdsWellFormed(rows: seq<Record>, id: int)
    requires IdsWellFormed(rows)
    ensures IdsWellFormed(Remaining(rows, id))
  {
    if rows != [] {
      TailIdsWellFormed(rows);
      RemainingKeepsIdsWellFormed(rows[1..], id);
      var rest := Remaining(rows[1..], id);
      if !Matches(rows[0], id) {
        ConsKeepsIdsWellFormed(rows[0], rest);
      }
    }
  }

  /** A successful `delete` removes every record with that id, so `getById`
      no longer finds it. */
  lemma DeleteThenFind(d: DbState, c: string, id: int)
    requires Deleted(d, c, id).Some?
    ensures FindById(Rows(Deleted(d, c, id).value, c), id).None?
  {
    var after := Rows(Deleted(d, c, id).value, c);
    forall k | 0 <= k < |after| ensures !Matches(after[k], id) {
      assert after[k] in after;
    }
  }

  /** `delete` keeps the id invariant. */
  lemma DeleteKeepsIdsWellFormed(d: DbState, c: string, id: int)
    requires WellFormed(d)
    requires Deleted(d, c, id).Some?
    ensures WellFormed(Deleted(d, c, id).value)
  {
    var r := Deleted(d, c, id).value;
    RemainingKeepsIdsWellFormed(Rows(d, c), id);
    forall other | other in r.collections ensures IdsWellFormed(r.collections[other]) {
      if other != c { assert r.collections[other] == Rows(d, other); }
    }
  }

  /** Two `setSettings` calls accumulate: the second keeps the first's keys
      that it does not name. */
  lemma SettingsMergeAccumulates(d: DbState, a: Record, b: Record)
    ensures var s := SettingsOf(WithSettings(WithSettings(d, a), b));
      && s.Keys == SettingsOf(d).Keys + a.Keys + b.Keys
      && (forall k :: k in b ==> s[k] == b[k])
      && (forall k :: k in a && k !in b ==> s[k] == a[k])
      && (forall k :: k in SettingsOf(d) && k !in a && k !in b ==> s[k] == SettingsOf(d)[k])
  {
  }

  /** Repeating the same `setSettings` changes nothing more. */
  lemma SettingsMergeIdempotent(d: DbState, m: Record)
    ensures WithSettings(WithSettings(d, m), m) == WithSettings(d, m)
  {
    var once := WithSettings(d, m);
    var twice := WithSettings(once, m);
    assert SettingsOf(twice) == SettingsOf(once);
  }

  /** What `findUser` yields: a user, no match, or a TypeError because the
      data has no `users` list. */
  datatype UserLookup = Found(user: Record) | NoMatch | UsersMissing

  class JsonDB {
    var collections: map<string, seq<Record>>
    var settings: Option<Record>
    /** The data last written to the file by `save()`. */
    var persisted: DbState

    function State(): DbState
      reads this
    {
      DbState(collections, settings)
    }

    /** The data `load()` read from the file. */
    constructor (initial: DbState)
      ensures State() == initial && persisted == initial
    {
      collections := initial.collections;
      settings := initial.settings;
      persisted := initial;
    }

    /** `save()`: write the whole data to the file. */
    method Save()
      modifies this`persisted
      ensures persisted == State()
    {
      persisted := State();
    }

    /** `getAll(collection)`: the live list, or an empty one for an unknown name. */
    method GetAll(c: string) returns (rows: seq<Record>)
      ensures c in collections ==> rows == collections[c]
      ensures c !in collections ==> rows == []
    {
      rows := Rows(State(), c);
    }

    /** `getById(collection, id)`. */
    method GetById(c: string, id: int) returns (r: Option<Record>)
      ensures r == FindById(Rows(State(), c), id)
    {
      r := FindById(Rows(State(), c), id);
    }

    /** `add(collection, item)`: returns the new id. */
    method Add(c: string, item: Record, now: string) returns (id: int)
      modifies this
      ensures id == NextId(Rows(old(State()), c)) && id > 0
      ensures State() == Added(old(State()), c, item, now)
      ensures old(WellFormed(State())) ==> WellFormed(State())
      ensures persisted == State()
    {
      if c !in collections {
        collections := collections[c := []];
      }
      var list := collections[c];
      var maxId := MaxId(list);
      id := maxId + 1;
      collections := collections[c := list + [Stamp(item, id, now)]];
      assert State() == Added(old(State()), c, item, now);
      Save();
      if WellFormed(old(State())) {
        AddKeepsIdsWellFormed(old(State()), c, item, now);
      }
    }

    /** `update(collection, id, updates)`. */
    method Update(c: string, id: int, updates: Record) returns (ok: bool)
      modifies this
      ensures ok <==> Updated(old(State()), c, id, updates).Some?
      ensures ok ==> State() == Updated(old(State()), c, id, updates).value && persisted == State()
      ensures ok && "id" !in updates && old(WellFormed(State())) ==> WellFormed(State())
      ensures !ok ==> unchanged(this)
    {
      if c !in collections {
        return false;
      }
      var list := collections[c];
      var index := FindIndex(list, id);
      if index.None? {
        return false;
      }
      var i := index.value;
      collections := collections[c := list[i := Merge(list[i], updates)]];
      Save();
      ok := true;
      if "id" !in updates && WellFormed(old(State())) {
        UpdateKeepsIdsWellFormed(old(State()), c, id, updates);
      }
    }

    /** `delete(collection, id)`: true exactly when something was removed. */
    method Delete(c: string, id: int) returns (ok: bool)
      modifies this
      ensures ok <==> Deleted(old(State()), c, id).Some?
      ensures ok ==> State() == Deleted(old(State()), c, id).value && persisted == State()
      ensures ok && old(WellFormed(State())) ==> WellFormed(State())
      ensures !ok ==> unchanged(this)
    {
      if c !in collections {
        return false;
      }
      var initialLen := |collections[c]|;
      collections := collections[c := Remaining(collections[c], id)];
      if |collections[c]| != initialLen {
        Save();
        ok := true;
        if WellFormed(old(State())) {
          DeleteKeepsIdsWellFormed(old(State()), c, id);
        }
      } else {
        assert collections == old(collections);
        ok := false;
      }
    }

    /** `findUser(username, password)`: exact match on both. */
    method FindUser(username: Value, password: Value) returns (r: UserLookup)
      ensures r.UsersMissing? <==> "users" !in collections
      ensures r.Found? ==> r.user in collections["users"] && IsUser(r.user, username, password)
      ensures r.Found? ==> r == Found(MatchUser(collections["users"], username, password).value)
      ensures r.NoMatch? ==> forall k :: 0 <= k < |collections["users"]| ==> !IsUser(collections["users"][k], username, password)
    {
      if "users" !in collections {
        return UsersMissing;
      }
      match MatchUser(collections["users"], username, password)
      case Some(u) => r := Found(u);
      case None => r := NoMatch;
    }

    /** `getSettings()`. */
    method GetSettings() returns (s: Record)
      ensures settings.None? ==> s == map[]
      ensures settings.Some? ==> s == settings.value
    {
      s := SettingsOf(State());
    }

    /** `setSettings(newSettings)`. */
    method SetSettings(m: Record)
      modifies this
      ensures State() == WithSettings(old(State()), m)
      ensures old(WellFormed(State())) ==> WellFormed(State())
      ensures persisted == State()
    {
      settings := Some(Merge(SettingsOf(State()), m));
      Save();
    }
  }
}
