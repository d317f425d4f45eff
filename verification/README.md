# jcalendar: appointment store and credential check, in Dafny

This project models the core of the jcalendar personal-calendar backend:

- the per-user appointment store of `modules/data.js`;
- the basic-auth credential helpers of `modules/auth.js`;
- the request flows of `calendar.js`, which authorise a request with `validateAuth` and then call the store.

Both MongoDB collections are sequences kept in insertion order: `seq<User>` and `seq<Appointment>`. Every promise is an `Outcome`, which either resolves with a value or rejects with a `Failure`. A JavaScript promise settles once, so a function that calls `reject` and keeps going is modelled by its first rejection. Operations that write return an `Effect`: the outcome together with the state they leave.

Some of the source's dependencies become parameters:

- bcrypt is a `Hasher`: a hash function and a comparison. The ghost predicate `Sound` is the one assumption made of it: comparing `p` with the hash of `q` succeeds exactly when `p == q`.
- The salt, the random appointment id and the `Date` parser are parameters, bundled in `Calendar.Env`.
- The Google Maps and Eventbrite gateways are function parameters that return an `Outcome`.

Timestamps are integers in milliseconds. A day is `[DayStart(t), DayStart(t) + DAY)`, counted in UTC.

Files:

- `outcomes.dfy`: outcomes, failures and replies.
- `requests.dfy`: the request shape. Fields the source checks with `typeof` are `JsValue`s.
- `data.dfy`: `modules/data.js`.
- `store_properties.dfy`: lemmas relating store operations.
- `auth.dfy`: `modules/auth.js`.
- `calendar.dfy`: `calendar.js`.
- `flow_properties.dfy`: lemmas about the flows.

Behaviour of the source worth noting:

- **Registration does not hash.** `addUser` stores the password as given. `validateAuth` then calls `checkPassword(storedPassword, hash(suppliedPassword))`, with the arguments in the opposite roles to their names. The effect is a plaintext comparison: login succeeds exactly when the supplied password equals the password stored for the first user with that name. `ValidateAuthOutcome` and `RegisterThenLogin` prove this.
- **The directions flows skip authorisation.** `getDirections`, `getDistance` and `getDuration` never call `validateAuth`. They only use the header's username to scope the lookup.
- **`updateAppointment` can fail with a type error.** It reads `request.authorization.basic.username` before authorising, so a request without that header rejects with a type error, not with `authorization header missing`.
- **A bad date has status "ok".** `getAppointmentsByDate` rejects a non-string date with status `"ok"`, where every other rejection reply in `modules/data.js` and `modules/auth.js` has status `"error"`.
- **Not-found uses code 204.** Not-found rejections carry code 204 (No Content), a success code, rather than a client-error code.
- **The day window is half-open.** `getAppointmentsByDate` queries `[start of day, start of next day)`: midnight belongs to the day it starts.

## Model

| member | source | states |
|---|---|---|
| Data.ValidateAppointment | modules/data.js:17-39 | an appointment body is valid exactly when name, date, address, towncity and postcode are all strings |
| Data.AddUser | modules/data.js:47-59 | rejects with 400 "username/password are not strings" exactly when either field is not a string; otherwise stores one user with the password as given and resolves with the body |
| Data.GetUserInfo | modules/data.js:67-73 | resolves with the users of that name, all of them and only them; rejects with 204 "user does not exist" exactly when there are none |
| Data.UsersNamedHead | calendar.js:240-242 | the first account `validateAuth` takes from the lookup is the first stored user with that name |
| Data.AppointmentsCount | modules/data.js:81-87 | the owner's count equals the length of the owner's appointment list |
| Data.CountIsFindLength | spec/data-spec.js:385-401 | for any query, counting gives the length of the list found |
| Data.AppointmentsClear | modules/data.js:95-101 | always resolves 200 "all appointments removed"; afterwards the store holds exactly the records of other owners |
| Data.AddAppointment | modules/data.js:109-130 | rejects with 400 "JSON data missing in request body" exactly when the body is invalid, leaving the store unchanged; an unparseable date makes the save fail with the store's error; otherwise appends exactly one record with the given owner, the given id, the body's fields and the parsed date |
| Data.GetAllAppointments | modules/data.js:138-144 | returns exactly the records whose owner is the given user |
| Data.FirstKeyed | modules/data.js:214 | finds the first index whose record matches both id and owner, or reports that no record matches |
| Data.GetAppointmentById | modules/data.js:213-220 | resolves with the first stored record matching both id and owner; rejects with 204 "no appointment found" exactly when the owner has no such record, even if another owner has that id |
| Data.RemoveAppointment | modules/data.js:153-160 | with a match, deletes the first record matching (id, owner), keeps the rest in order and resolves 200 "appointment has been deleted"; with none, rejects with 204 and leaves the store unchanged |
| Data.UpdateAppointment | modules/data.js:170-182 | rejects with 400 "JSON data missing in request body" exactly when the body is invalid; an unparseable date makes the update fail, leaving the store unchanged; with a match, the first matching record gets the body's fields and keeps its id and owner, nothing else changes, and the message is "<id> has been updated"; with no match, 204 and no change |
| Data.DayWindow | modules/data.js:195-198 | the window `[DayStart(t), DayStart(t) + DAY)` holds exactly the timestamps on t's day; its start is included and the next day's start is not |
| Data.DayQueryIsOwnersDay | modules/data.js:195-201 | the range query over the day window finds exactly the owner's list restricted to that day, in the same order |
| Data.GetAppointmentsByDate | modules/data.js:191-204 | a non-string date gives 400 "date is the incorrect format"; an unparseable date makes the query fail; otherwise it resolves exactly when the owner has a record on that day, with exactly the owner's records on that day in storage order (the owner's list restricted to that day), and rejects with 204 "no appointments on given date/time" when there are none |
| StoreProperties.AddIsolation | modules/data.js:116-127 | adding for an owner appends the new record to that owner's list and leaves every other owner's list unchanged |
| StoreProperties.ClearIsolation | modules/data.js:95-101 | after clearing an owner, that owner's list is empty and every other owner's list is unchanged |
| StoreProperties.ClearThenCountZero | modules/data.js:81-101 | after clearing an owner, that owner's count is 0 |
| StoreProperties.RemoveIsolation | modules/data.js:153-160 | a removal leaves every other owner's list unchanged |
| StoreProperties.RemoveLowersCount | modules/data.js:153-160 | a successful removal lowers the owner's count (`appointmentsCount`, modules/data.js:81-87) by exactly one |
| StoreProperties.UpdateIsolation | modules/data.js:170-182 | an update leaves other owners' lists and the owner's count unchanged |
| StoreProperties.AddKeepsKeysUnique | modules/data.js:115-118 | adding under a fresh (id, owner) pair keeps that pair unique across the store |
| StoreProperties.RemoveKeepsKeysUnique | modules/data.js:154 | removal keeps (id, owner) pairs unique |
| StoreProperties.UpdateKeepsKeysUnique | modules/data.js:176 | an update keeps (id, owner) pairs unique because it keeps id and owner |
| StoreProperties.ClearKeepsKeysUnique | modules/data.js:96 | clearing keeps (id, owner) pairs unique |
| StoreProperties.AddThenGetById | modules/data.js:109-130 | a record added under a fresh key is what a lookup by that key returns |
| StoreProperties.AddThenOnItsDay | spec/data-spec.js:206-231 | a record just added is found by a date query with its own date string |
| StoreProperties.RemoveThenGone | spec/data-spec.js:266-300 | when keys are unique, a lookup after a removal finds nothing for that key |
| StoreProperties.UpdateThenGet | spec/data-spec.js:306-332 | after a successful update, a lookup by the same key returns the rewritten record |
| Auth.GetHeaderCreds | modules/auth.js:17-25 | a missing authorization or basic part gives 400 "authorization header missing"; that check comes before the 400 "missing username/password" check; otherwise returns exactly the header's username and password |
| Auth.HashPass | modules/auth.js:33-37 | keeps the username; with a sound bcrypt, comparing the new password field accepts exactly the original password |
| Auth.CheckPassword | modules/auth.js:46-49 | resolves `true` or rejects with the bare value `false`; with a sound bcrypt it resolves exactly for the hashed plaintext |
| Auth.HashThenCheck | spec/auth-spec.js:72-112 | hashing and then checking accepts the original password and rejects every other with `false` |
| Calendar.ValidateAuth | calendar.js:230-249 | the chain of extraction, hashing, lookup and comparison never resolves `false`, and resolves only for a request that carries both credentials |
| Calendar.ValidateAuthOutcome | calendar.js:237-243 | rejection order is missing header, then missing credentials, then 204 "user does not exist" when no user has the name, then `false` when one has it but the first has another password; it resolves `true` exactly when the first user stored under the header's username has the header's password as stored |
| Calendar.Authorised | calendar.js:37-144 | each authorised write runs `validateAuth` first: on its rejection that rejection is the result and nothing changes; otherwise the store operation runs for the header's username, its outcome is the result, and the users stay as they were |
| Calendar.AuthorisedRead | calendar.js:69-110 | each authorised read runs `validateAuth` first: on its rejection that rejection is the result; otherwise the query runs for the header's username and its outcome is the result |
| Calendar.CreateUser | calendar.js:14-20 | registration needs no authorisation; it resolves with the body exactly when username and password are strings, otherwise 400, and never touches appointments |
| Calendar.UpdateAppointment | calendar.js:118-128 | a request without `authorization.basic` rejects with a type error and changes nothing |
| Calendar.RouteTo | calendar.js:175-178 | a failed lookup is the result and the gateway is not consulted; otherwise the gateway gets exactly "address, towncity, postcode" of the owned record |
| Calendar.Navigate | calendar.js:174-220 | no authorisation; without the header there is a type error; otherwise the lookup is scoped to the header's username before the gateway is called |
| FlowProperties.NoLoginNoChange | calendar.js:37-144 | with credentials that do not log in, createAppointment, clearAllAppointments, updateAppointment and deleteAppointment all reject and change nothing |
| FlowProperties.NoLoginNoRead | calendar.js:69-110 | with credentials that do not log in, the authorised reads and getEvents reject with `validateAuth`'s rejection |
| FlowProperties.WritesStayWithRequester | calendar.js:37-144 | no writing flow changes the users, or the appointments of anyone other than the header's user |
| FlowProperties.ReadsStayWithRequester | calendar.js:69-110 | the authorised reads return only records owned by the header's user |
| FlowProperties.CreateAppointmentStores | calendar.js:37-45 | a logged-in request with a valid body stores exactly one new record, owned by the requester and carrying the fresh id |
| FlowProperties.RegisterThenLogin | modules/data.js:51-54 | after registering a new username, login succeeds with the registered password and with no other |
| FlowProperties.EventsAfterLookup | calendar.js:153-166 | getEvents calls the gateway only after finding the requester's record, passing its town and date; a failed lookup gives 204 whatever the gateway would return |
| FlowProperties.NavigateSkipsLogin | calendar.js:174-184 | the directions result depends neither on the header's password nor on the users collection |
| FlowProperties.NavigateWithWrongPassword | calendar.js:174-184 | a request with a wrong password for a registered user still gets directions to that user's appointment |
| FlowProperties.AuthorisedNavigateNeedsLogin | calendar.js:168-173 | the corrected directions flow rejects every request that does not log in, and matches the as-written flow for every request that does |

## Findings

| source | as written | input that shows it | evidently intended | confidence | as-written member | corrected member |
|---|---|---|---|---|---|---|
| calendar.js:174-220 | `getDirections`, `getDistance` and `getDuration` call `getAppointmentById` without `validateAuth`, even though their documentation says they verify the user's credentials | header `jwolfe94` / `guess` while the stored password is `testpass`: the flow still resolves with directions to `jwolfe94`'s appointment | verify the credentials first, as every other appointment flow does | medium, not executed | FlowProperties.NavigateWithWrongPassword | FlowProperties.AuthorisedNavigateNeedsLogin |

`Calendar.GetDirections`, `GetDistance` and `GetDuration` model the code as written, through `Navigate`. `Calendar.AuthorisedNavigate` is the corrected flow.

## Left out

- MongoDB and mongoose are replaced by in-memory sequences: no connection, no schema registration, no SIGINT disconnect (schema/schema.js). Schema casting of non-string values is also not modelled.
- Storage-driver errors are not modelled. The one exception is a date string that does not parse. There the source's `Date` cast fails, and the model reports `StoreRejected`.
- The HTTP routes of index.js are not modelled. That includes the PUT handler that uses `.then` where `.catch` was meant.
- The internals of modules/directions.js and modules/events.js are not modelled. They become function parameters that return an outcome.
- bcrypt's algorithm, its salt generation and its 72-byte truncation are not modelled. They are replaced by the `Hasher` parameter and the `Sound` assumption.
- `csprng` id generation is not modelled. The id is a parameter. The source never checks for collisions, so the lemmas about unique keys take freshness as a precondition.
- JavaScript `Date` parsing and local time zones are not modelled. The parser is a parameter and days are counted in UTC. The source builds the next-day boundary from a string, which misbehaves on the last day of a month. The model uses `DayStart(t) + DAY` instead.
- Asynchronous ordering is not modelled. The flows run sequentially. `validateAuth` keeps the username and password in module-level state shared between requests; the model passes them as values instead.
- `authLogin` (calendar.js:22-29) returns `validateAuth`'s outcome unchanged, so `Calendar.ValidateAuth` covers it.
- Data.AddUser: on the 400 path the source still issues the save, because `reject` is not followed by `return`. The model returns only the rejection, and its contract says nothing about the users on that path.
- Data.UpdateAppointment: on the 400 path the source still issues the update with the unvalidated body. The model returns only the rejection, and its contract says nothing about the store on that path. That write would still touch only the record keyed by (id, owner).
- Calendar.Navigate: a header without a username sends the query with an undefined owner. The model assumes that matches no stored record, because every stored owner is a string.
- Replies have no `contentType` field. Body ids and the caller's location are taken to be strings. Numbers in request bodies are taken to be integers.
- Calendar.CreateAppointment, Calendar.ClearAllAppointments, Calendar.GetAllAppointments, Calendar.GetAppointment, Calendar.GetAppointmentByDate, Calendar.DeleteAppointment, Calendar.GetEvents, Calendar.GetDirections, Calendar.GetDistance and Calendar.GetDuration have no contract of their own. Each writing flow is `Calendar.Authorised` applied to one store operation, and each read is `Calendar.AuthorisedRead` applied to one store lookup. `Calendar.GetEvents` is `Calendar.AuthorisedRead` applied to `Calendar.EventsFor`, a lookup followed by the events gateway; `FlowProperties.EventsAfterLookup` states what it does. The directions flows are `Calendar.Navigate`, which hands `Calendar.Destination` of the found record to the gateway through `Calendar.RouteTo`. The FlowProperties lemmas above state their properties.
