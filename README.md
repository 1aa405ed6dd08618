# Portfolio backend: collection store and API rules

This project models the backend of a personal-portfolio site in Dafny. It covers two parts.

The first is the JSON-file store `JsonDB`. It holds named lists of records (`users`, `socials`, `achievements`, `testimonials`) and a flat `settings` object. It offers `getAll`, `getById`, `add` (auto-incremented ids), `update` (shallow merge), `delete` (filter), `findUser`, `getSettings` and `setSettings` (shallow merge). Every successful write ends with `save()`.

The second is the decision logic of the Express server. That covers the session (anonymous, or admin with a label), login and logout, the auth gate in front of the mutating routes, per-resource validation and defaulting, the 404 mapping, the password-free user listing, and the year-descending sort of achievements.

Files:

- `values.dfy` (module `Values`): JavaScript values (`undefined`, `null`, booleans, integers, strings), records as maps, truthiness, `||` and object spread.
- `json_manager.dfy` (module `JsonManager`): the store's data as a value (`DbState`). It holds one specification function per operation and the lemmas about them: fresh ids, the id invariant, update/delete/find round trips, and settings merging. It also holds the class `JsonDB`, whose fields are the data plus `persisted`, the content last written to the file. Each method's contract sets the new state to the specification function of the old one.
- `server.dfy` (module `Server`): sessions, replies, the operator credentials, field validation and defaulting, the public user view, and the stable sort by year. For the sort it proves: sorted, a permutation, stable, equal to any other stable sort, and id-preserving.
- `routes.dfy` (module `Routes`): one method per route. Each takes the session, the body (and route id) and the store. Each states the reply and the exact store effect on every path: gate, validation, not-found, success.
- `scenarios.dfy` (module `Scenarios`): request sequences checked from the handlers' contracts. They cover operator login then first achievement, logout then a rejected write, an empty testimonial name, an empty store, and two settings writes.

Behaviours of the code worth noting:

- `POST /api/users` does not validate `username` or `password`, and no route checks for duplicate usernames.
- Social PUT/DELETE and user DELETE answer success even when nothing matched; there is no user PUT route.
- Achievements with the same year keep their stored relative order; the sort is stable.
- A failed `update` or `delete` does not write the file. The in-place sort done by `GET /api/achievements` is not saved either, so the file can lag the in-memory order.
- `findUser` throws when the data has no `users` list. Login then answers 500.
- A user record stored without `username` and `password` matches a login body that sends neither (`undefined === undefined`); see `Server.UserWithoutCredentialsMatchesEmptyLogin`.

## Model

| member | source | states |
|---|---|---|
| `Values.Truthy` | server.js:90 | JavaScript falsiness: exactly `undefined`, `null`, `false`, `0` and `""` are falsy |
| `Values.Or` | server.js:95-96 | `v \|\| fallback`: a truthy value is kept, a falsy one is replaced, and a truthy fallback makes the result truthy |
| `Values.Merge` | db/json_manager.js:68 | object spread: the keys of both, the override's values where it has the key, the base's elsewhere |
| `JsonManager.IdOf` | db/json_manager.js:53 | `i.id \|\| 0`: the record's numeric id, or 0 when it has none |
| `JsonManager.Matches` | db/json_manager.js:45 | `item.id == id`: a match implies the record's id is that number, and for a record with a positive id the two are equivalent |
| `JsonManager.Rows` | db/json_manager.js:40 | `this.data[collection] \|\| []`: an unknown collection reads as empty, and a well-formed store yields a list with positive, unique ids |
| `JsonManager.MaxId` | db/json_manager.js:53 | the fold of `Math.max(max, i.id \|\| 0)` from 0 is non-negative, bounds every record's id and is 0 or one of them |
| `JsonManager.NextId` | db/json_manager.js:53-54 | the new id is positive, exceeds every existing id and matches no existing record |
| `JsonManager.FindIndex` | db/json_manager.js:65-66 | `findIndex`: the first index whose id matches, or none exactly when no record matches |
| `JsonManager.FindById` | db/json_manager.js:43-46 | `getById`'s `find`: the first record of the list whose id matches, or none exactly when no record matches |
| `JsonManager.MatchUser` | db/json_manager.js:88-90 | the first user whose username and password both equal the inputs, or none exactly when no user matches both |
| `JsonManager.SettingsOf` | db/json_manager.js:92-94 | absent settings read as the empty object |
| `JsonManager.Stamp` | db/json_manager.js:54-55 | the stored record has the item's keys plus `id` and `created_at`, carries the new id and timestamp, and keeps every other field of the item |
| `JsonManager.Added` | db/json_manager.js:48-60 | `add` creates the collection if absent; it appends exactly one record at the end, keeps the earlier ones, gives it a positive id above all existing ids, stamps `created_at` and keeps the item's other fields; other collections and settings are untouched |
| `JsonManager.Updated` | db/json_manager.js:62-71 | `update` fails exactly when the collection is missing or no id matches; otherwise only the first match becomes its shallow merge with `updates`, and length, every other record and every other collection are kept |
| `JsonManager.Remaining` | db/json_manager.js:77 | the filter keeps exactly the records whose id differs; its length equals the input's exactly when nothing matched, in which case it is the input |
| `JsonManager.Deleted` | db/json_manager.js:73-84 | `delete` succeeds exactly when the collection exists and some record has the id; the list then becomes the filtered, strictly shorter list; nothing else changes |
| `JsonManager.WithSettings` | db/json_manager.js:96-99 | `setSettings`: keys are the old ones plus the new; new values win; old keys not named keep their values; collections are untouched |
| `JsonManager.DefaultStateWellFormed` | db/json_manager.js:7-13 | the initial schema has four empty collections and satisfies the id invariant |
| `JsonManager.AddThenFind` | db/json_manager.js:48-60 | after `add`, `getById` with the returned id finds the stamped record |
| `JsonManager.AddKeepsIdsWellFormed` | db/json_manager.js:53-57 | `add` keeps ids positive and unique in every collection |
| `JsonManager.UpdateThenFind` | db/json_manager.js:62-71 | after a successful `update` that does not overwrite `id`, the id finds the old record merged with the updates |
| `JsonManager.UpdateKeepsIdsWellFormed` | db/json_manager.js:68 | an `update` whose fields do not include `id` keeps ids positive and unique |
| `JsonManager.RemainingOfConcat` | db/json_manager.js:77 | filtering distributes over concatenation, so kept records keep their relative order |
| `JsonManager.RemainingKeepsIdsWellFormed` | db/json_manager.js:77 | filtering keeps ids positive and unique |
| `JsonManager.DeleteThenFind` | db/json_manager.js:73-84 | after a successful `delete`, `getById` finds nothing with that id |
| `JsonManager.DeleteKeepsIdsWellFormed` | db/json_manager.js:73-84 | `delete` keeps ids positive and unique in every collection |
| `JsonManager.SettingsMergeAccumulates` | db/json_manager.js:96-99 | `setSettings(a)` then `setSettings(b)` keeps both: `b` wins, then `a`, then the old settings |
| `JsonManager.SettingsMergeIdempotent` | db/json_manager.js:96-99 | repeating the same `setSettings` changes nothing more |
| `JsonManager.JsonDB.constructor` | db/json_manager.js:21-23 | the store starts from the loaded data, which is also the file's content |
| `JsonManager.JsonDB.Save` | db/json_manager.js:33-35 | the file holds exactly the current data; the data is unchanged |
| `JsonManager.JsonDB.GetAll` | db/json_manager.js:39-41 | the live list of the collection, or an empty list for an unknown name; nothing changes |
| `JsonManager.JsonDB.GetById` | db/json_manager.js:43-46 | the first record of the collection with that id, or none exactly when none matches; nothing changes |
| `JsonManager.JsonDB.Add` | db/json_manager.js:48-60 | returns the positive id `max + 1`; the data becomes `Added` of the old data; the id invariant is kept; the file holds the new data |
| `JsonManager.JsonDB.Update` | db/json_manager.js:62-71 | returns whether `Updated` succeeds; on success the data becomes it and is saved; on failure nothing changes and nothing is saved |
| `JsonManager.JsonDB.Delete` | db/json_manager.js:73-84 | returns whether something was removed; on success the data becomes `Deleted` and is saved; on failure nothing changes and nothing is saved |
| `JsonManager.JsonDB.FindUser` | db/json_manager.js:88-90 | the first user matching both credentials, no match exactly when none matches, or a TypeError when there is no `users` list |
| `JsonManager.JsonDB.GetSettings` | db/json_manager.js:92-94 | the settings object, or the empty object when there is none |
| `JsonManager.JsonDB.SetSettings` | db/json_manager.js:96-99 | the settings become their merge with the argument; the collections are kept; the file holds the new data |
| `Server.IsAuthenticated` | server.js:31 | `req.session && req.session.isAdmin`: only an admin session passes |
| `Server.Gate` | server.js:30-35 | the middleware passes a request on exactly when the session is an admin's, and otherwise answers 401 `Unauthorized access` |
| `Server.EnvOr` | server.js:13-14 | an unset or empty environment variable takes the fallback |
| `Server.OperatorFromEnv` | server.js:13-14 | the operator pair defaults to `admin` / `admin123` and is never empty |
| `Server.AchievementValid` | server.js:90 | `!title` rejects: an achievement body is valid exactly when its title is truthy |
| `Server.TestimonialValid` | server.js:136 | `!name \|\| !message` rejects: a testimonial body is valid exactly when both are truthy |
| `Server.AchievementFields` | server.js:92-97 | the stored achievement has exactly the six form fields and no `id` or `created_at`; `highlight` is 1 exactly when truthy, else 0; `icon` and `link` are always truthy, defaulting to `fa-trophy` and `#` |
| `Server.TestimonialFields` | server.js:138 | the stored testimonial has name, role, message and a truthy rating, defaulting to 5; no `id` or `created_at` |
| `Server.SocialFields` | server.js:166 | the stored social is platform, url and icon as sent, without validation |
| `Server.UserFields` | server.js:191 | the stored user is username and password as sent, without validation |
| `Server.UserWithoutCredentialsMatchesEmptyLogin` | server.js:189-192 | a user created from a body without credentials is matched by a login that sends none |
| `Server.PublicUser` | server.js:185 | the listed user has exactly `id`, `username` and `created_at`, copied; never `password` |
| `Server.PublicUsers` | server.js:185 | one public entry per user, in order, none with a password |
| `Server.DigitsValue` | server.js:82 | the number `-` coerces a decimal numeral string to; a single digit is its own value |
| `Server.Decimal` | public/js/admin.js:134 | the numeral a year is typed as in the admin form: a non-empty run of decimal digits |
| `Server.DecimalRoundTrip` | server.js:82 | coercing the numeral of `n` back gives `n` |
| `Server.Year` | server.js:82 | the sort key: a numeric `year` as is, `true` as 1, `false`, `null` and a missing year as 0, and a decimal numeral string as its number |
| `Server.TypedYearSortsAsNumber` | public/js/admin.js:134 | a year sent by the admin form as the text of `n` sorts as the number `n` |
| `Server.InsertByYear` | server.js:82 | insertion adds exactly one copy of the record |
| `Server.InsertMembers` | server.js:82 | the records of an insertion are the inserted one and the list's |
| `Server.InsertKeepsSorted` | server.js:82 | inserting into a year-descending list keeps it year-descending |
| `Server.SortByYearDesc` | server.js:82 | the sorted achievements are ordered by year, latest first, and are a permutation of the input |
| `Server.WithYearOfInsert` | server.js:82 | inserting a record never moves it past a record of its own year |
| `Server.SortIsStable` | server.js:82 | the sort is stable: each year's records keep their relative order |
| `Server.SortedByYearUnique` | server.js:82 | two year-descending lists that agree on each year's order are equal |
| `Server.SortIsTheStableSort` | server.js:82 | any stable year-descending sort of the list equals the modelled one |
| `Server.InsertKeepsIdsWellFormed` | server.js:82 | inserting a record with a new positive id keeps ids positive and unique |
| `Server.SortKeepsIdsWellFormed` | server.js:82 | sorting the stored achievements keeps their ids positive and unique |
| `Routes.Login` | server.js:49-69 | the operator pair is checked first and gives `SuperAdmin`; else a matching stored user gives an admin session labelled with that username; else 401 `Invalid credentials` with the session unchanged; without a `users` list, 500 |
| `Routes.Logout` | server.js:71-74 | the session becomes anonymous, so the gate rejects what follows |
| `Routes.ListAchievements` | server.js:79-84 | replies with the achievements sorted by year descending; the stored list is reordered the same way; settings and the file are untouched; the id invariant is kept |
| `Routes.CreateAchievement` | server.js:87-100 | 401 and no change without admin; 400 `Title is required` and no change for a falsy title; otherwise the normalised achievement is added, saved, and its new id returned |
| `Routes.UpdateAchievement` | server.js:103-118 | 401 first, then 400 for a falsy title before any lookup; 404 and no change exactly when `update` fails; otherwise the record is merged and saved |
| `Routes.DeleteAchievement` | server.js:121-125 | 401 and no change without admin; 404 and no change exactly when `delete` fails; otherwise removed and saved |
| `Routes.ListTestimonials` | server.js:129-132 | replies with the stored testimonials in order, or an empty list |
| `Routes.CreateTestimonial` | server.js:134-140 | 401 without admin; 400 `Name required` for a falsy name or message; otherwise added with rating defaulted to 5, saved, id returned |
| `Routes.UpdateTestimonial` | server.js:142-150 | 401, then 400 for a falsy name or message; 404 and no change exactly when `update` fails; otherwise merged and saved |
| `Routes.DeleteTestimonial` | server.js:152-156 | 401 without admin; 404 and no change exactly when `delete` fails; otherwise removed and saved |
| `Routes.ListSocials` | server.js:160-162 | replies with the stored socials in order, or an empty list |
| `Routes.CreateSocial` | server.js:164-168 | 401 without admin; otherwise the unvalidated fields are added and saved, and the id is returned |
| `Routes.DeleteSocial` | server.js:170-173 | 401 without admin; otherwise success whether or not a record was removed, with the store changed exactly as `delete` does |
| `Routes.UpdateSocial` | server.js:175-179 | 401 without admin; otherwise success whether or not a record matched, with the store changed exactly as `update` does |
| `Routes.ListUsers` | server.js:183-187 | gated: 401 without admin; otherwise each user's id, username and created_at, never a password |
| `Routes.CreateUser` | server.js:189-193 | 401 without admin; otherwise username and password are added unvalidated, saved, and the id is returned |
| `Routes.DeleteUser` | server.js:195-198 | 401 without admin; otherwise success whether or not a record was removed |
| `Routes.ReadSettings` | server.js:202-204 | replies with the settings, or the empty object |
| `Routes.WriteSettings` | server.js:206-209 | 401 and no change without admin; otherwise the whole body is merged into the settings and saved |

## Left out

- File I/O, JSON (de)serialisation and the fallback to `defaultData` on a parse error (db/json_manager.js:15-35). The constructor takes the loaded data. The file is the abstract field `persisted`, which `Save` sets to the current data.
- `created_at` timestamps (`new Date().toISOString()`): the handlers and `Add` take the time as a `now` parameter.
- Loose equality and coercion. Route ids are integers, and a record matches when its `id` is that number. A string id that JavaScript would coerce (`"3" == 3`, `Math.max` on a numeric string) is not modelled. Any non-number id counts as 0 in the maximum.
- Server.Year: the admin form sends `year` as a string (public/js/admin.js:134). A plain decimal numeral is coerced to its number, as `b.year - a.year` does. Other strings are ordered as year 0: padded, signed, fractional or exponent numerals (`" 2023"`, `"-5"`, `"2023.5"`, `"1e3"`), which JavaScript would coerce to their number, and non-numerals and missing years, for which JavaScript gives NaN and an engine-defined order.
- Non-integer numbers: `Num` holds integers only, so JSON numbers with a fraction or exponent (`4.5` as a rating) and `NaN` cannot be represented.
- NextId: ids are exact only below 2^53. JavaScript numbers are doubles, so once a stored id reaches 2^53 `maxId + 1` equals `maxId` and `add` would repeat an id. The model's unbounded integers always give a fresh id, so the uniqueness proved by `AddKeepsIdsWellFormed` holds only below that bound. Only a hand-edited data file can reach it, because no route lets a client set `id`.
- Nested objects and arrays in request bodies and settings values: values are scalars only.
- Collection names that collide with `settings` or with inherited object properties (`constructor`, `toString`): collection names index only the record lists.
- JSON key order within a record.
- Express machinery: CORS, body parsing, static files and the `/admin.html` redirect (server.js:38-43). Express's error page for a thrown handler is modelled only by its status, 500.
- Session cookie expiry (`maxAge`, server.js:26) is wall-clock time. An expired session is an `Anonymous` session, which every handler already covers.
- Aliasing between the object a handler passes to `add` and the stored record: no caller uses the object afterwards.
- Password hashing: credentials are compared as plain values, as the code does.
- The front-end scripts, the alternate SQLite backend (`db/database.js`) and the seeding script are not part of this model.
