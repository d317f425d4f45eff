/** The persistent store of `modules/data.js`: the users collection and the
    appointments collection, each an in-memory sequence kept in insertion
    order (the order the storage engine returns documents in). Every
    appointment operation is scoped by its owner's username. */
module Data {

  import opened Outcomes
  import opened Requests

  /** Length of a calendar day in milliseconds. */
  const DAY: int := 86_400_000

  datatype User = User(username: string, password: string)

  /** A stored appointment document. `owner` is the `userID` field; `date` is
      a timestamp in milliseconds. */
  datatype Appointment = Appointment(
    owner: string,
    id: string,
    name: string,
    date: int,
    address: string,
    towncity: string,
    postcode: string)

  type Store = seq<Appointment>

  /** Turns a date string into a timestamp, `None` for an invalid date. */
  type DateParser = string -> Option<int>

  const NotStrings := Reply(400, "error", "username/password are not strings")
  const UserMissing := Reply(204, "error", "user does not exist")
  const AllRemoved := Reply(200, "ok", "all appointments removed")
  const JsonMissing := Reply(400, "error", "JSON data missing in request body")
  const NoAppointment := Reply(204, "error", "no appointment found")
  const Deleted := Reply(200, "ok", "appointment has been deleted")
  /** The source sends this rejection with status "ok". */
  const BadDate := Reply(400, "ok", "date is the incorrect format")
  const NoneOnDate := Reply(204, "error", "no appointments on given date/time")

  function Updated(id: string): Reply {
    Reply(200, "ok", id + " has been updated")
  }

  // ---------------------------------------------------------------- users

  /** The users named `name`, in storage order. */
  function UsersNamed(users: seq<User>, name: string): (r: seq<User>)
    ensures forall x :: x in r <==> x in users && x.username == name
    ensures |r| <= |users|
  {
    if users == [] then []
    else (if users[0].username == name then [users[0]] else []) + UsersNamed(users[1..], name)
  }

  /** `users[i]` is the first user named `name`. */
  ghost predicate FirstNamedAt(users: seq<User>, name: string, i: int) {
    0 <= i < |users| && users[i].username == name
    && forall j :: 0 <= j < i ==> users[j].username != name
  }

  /** `addUser`: both fields must be strings; the user is stored with the
      password exactly as given (no hashing) and the promise resolves with the
      body itself. */
  function AddUser(users: seq<User>, body: Body): (r: Effect<Body, seq<User>>)
    ensures r.outcome.Resolved? <==> body.username.Str? && body.password.Str?
    ensures r.outcome.Rejected? ==> r.outcome == Rejected(Refused(NotStrings))
    ensures r.outcome.Resolved? ==>
      && r.outcome.value == body
      && |r.state| == |users| + 1
      && r.state[..|users|] == users
      && r.state[|users|].username == body.username.s
      && r.state[|users|].password == body.password.s
  {
    if !body.username.Str? || !body.password.Str? then
      Effect(Rejected(Refused(NotStrings)), users)
    else
      Effect(Resolved(body), users + [User(body.username.s, body.password.s)])
  }

  /** `getUserInfo`: every user with the given name, rejecting with 204 when
      there is none. */
  function GetUserInfo(users: seq<User>, name: string): (r: Outcome<seq<User>>)
    ensures r.Rejected? <==> forall x :: x in users ==> x.username != name
    ensures r.Rejected? ==> r.failure == Refused(UserMissing)
    ensures r.Resolved? ==> |r.value| > 0 && forall x :: x in r.value <==> x in users && x.username == name
  {
    var found := UsersNamed(users, name);
    if |found| > 0 then assert found[0] in found; Resolved(found)
    else Rejected(Refused(UserMissing))
  }

  /** The head of the users found by name is the first such user in storage. */
  lemma {:induction false} UsersNamedHead(users: seq<User>, name: string)
    requires |UsersNamed(users, name)| > 0
    ensures exists i :: FirstNamedAt(users, name, i) && users[i] == UsersNamed(users, name)[0]
  {
    if users[0].username == name {
      assert FirstNamedAt(users, name, 0);
    } else {
      UsersNamedHead(users[1..], name);
      var i :| FirstNamedAt(users[1..], name, i) && users[1..][i] == UsersNamed(users[1..], name)[0];
      assert FirstNamedAt(users, name, i + 1);
    }
  }

  // --------------------------------------------------------- appointments

  /** `validateAppointment`: name, date, address, towncity and postcode are
      each checked, in that order, to be strings. */
  function ValidateAppointment(body: Body): (valid: bool)
    ensures valid <==> body.name.Str? && body.date.Str? && body.address.Str?
                       && body.towncity.Str? && body.postcode.Str?
  {
    if !body.name.Str? then false
    else if !body.date.Str? then false
    else if !body.address.Str? then false
    else if !body.towncity.Str? then false
    else if !body.postcode.Str? then false
    else true
  }

  /** A storage query: all documents of an owner, or those of an owner whose
      date lies in the half-open range `[low, high)`. */
  datatype Query = ByOwner(owner: string) | InRange(owner: string, low: int, high: int)

  predicate Selects(q: Query, a: Appointment) {
    match q
    case ByOwner(u) => a.owner == u
    case InRange(u, low, high) => a.owner == u && low <= a.date < high
  }

  /** The documents a query selects, in storage order (`find`). */
  function Find(s: Store, q: Query): (r: Store)
    ensures forall a :: a in r <==> a in s && Selects(q, a)
    ensures |r| <= |s|
  {
    if s == [] then []
    else (if Selects(q, s[0]) then [s[0]] else []) + Find(s[1..], q)
  }

  /** The documents left after removing every one a query selects (`find(..).remove`). */
  function Delete(s: Store, q: Query): (r: Store)
    ensures forall a :: a in r <==> a in s && !Selects(q, a)
    ensures |r| <= |s|
  {
    if s == [] then []
    else (if Selects(q, s[0]) then [] else [s[0]]) + Delete(s[1..], q)
  }

  /** The number of documents a query selects (`find(..).count`). */
  function Count(s: Store, q: Query): (n: nat)
    ensures n <= |s|
  {
    if s == [] then 0
    else (if Selects(q, s[0]) then 1 else 0) + Count(s[1..], q)
  }

  /** Counting a query's documents gives the length of the list it finds. */
  lemma {:induction false} CountIsFindLength(s: Store, q: Query)
    ensures Count(s, q) == |Find(s, q)|
  {
    if s != [] {
      CountIsFindLength(s[1..], q);
    }
  }

  /** The document is the one `(id, owner)` names. */
  predicate Keyed(a: Appointment, id: string, owner: string) {
    a.id == id && a.owner == owner
  }

  /** The index of the first document keyed by `(id, owner)`, as `findOne`,
      `findOneAndRemove` and `findOneAndUpdate` pick it. */
  function FirstKeyed(s: Store, id: string, owner: string): (r: Option<nat>)
    ensures r.Some? ==> r.value < |s| && Keyed(s[r.value], id, owner)
    ensures r.Some? ==> forall j :: 0 <= j < r.value ==> !Keyed(s[j], id, owner)
    ensures r.None? <==> forall a :: a in s ==> !Keyed(a, id, owner)
  {
    if s == [] then None
    else if Keyed(s[0], id, owner) then Some(0)
    else match FirstKeyed(s[1..], id, owner)
      case None => None
      case Some(i) => Some(i + 1)
  }

  /** No two documents share both id and owner. */
  ghost predicate UniqueKeys(s: Store) {
    forall i, j :: 0 <= i < j < |s| && s[i].id == s[j].id ==> s[i].owner != s[j].owner
  }

  /** `getAllAppointments`: the owner's documents in storage order. */
  function GetAllAppointments(s: Store, owner: string): (r: Store)
    ensures forall a :: a in r <==> a in s && a.owner == owner
  {
    Find(s, ByOwner(owner))
  }

  /** `appointmentsCount`: counted by the storage engine independently of the
      list query, and equal to the length of that list. */
  function AppointmentsCount(s: Store, owner: string): (n: nat)
    ensures n == |GetAllAppointments(s, owner)|
  {
    CountIsFindLength(s, ByOwner(owner));
    Count(s, ByOwner(owner))
  }

  /** `appointmentsClear`: removes every document of the owner and always
      resolves with 200. */
  function AppointmentsClear(s: Store, owner: string): (r: Effect<Reply, Store>)
    ensures r.outcome == Resolved(AllRemoved)
    ensures forall a :: a in r.state <==> a in s && a.owner != owner
  {
    Effect(Resolved(AllRemoved), Delete(s, ByOwner(owner)))
  }

  /** The document `addAppointment` builds for a valid body. */
  function NewAppointment(body: Body, owner: string, id: string, date: int): Appointment
    requires ValidateAppointment(body)
  {
    Appointment(owner, id, body.name.s, date, body.address.s, body.towncity.s, body.postcode.s)
  }

  /** `addAppointment`: a body that fails validation is rejected with 400; a
      date the parser refuses makes the save fail; otherwise exactly one new
      document, with the given owner and id and the body's fields, is
      appended. `id` stands for the random token the source generates. */
  function AddAppointment(s: Store, body: Body, owner: string, id: string, parse: DateParser)
    : (r: Effect<Appointment, Store>)
    ensures !ValidateAppointment(body) <==> r.outcome == Rejected(Refused(JsonMissing))
    ensures r.outcome.Rejected? ==> r.state == s
    ensures r.outcome.Resolved? <==> ValidateAppointment(body) && parse(body.date.s).Some?
    ensures ValidateAppointment(body) && parse(body.date.s).None? ==> r.outcome == Rejected(StoreRejected)
    ensures r.outcome.Resolved? ==>
      var a := r.outcome.value;
      && r.state == s + [a]
      && a.owner == owner && a.id == id
      && a.name == body.name.s && a.address == body.address.s
      && a.towncity == body.towncity.s && a.postcode == body.postcode.s
      && parse(body.date.s) == Some(a.date)
  {
    if !ValidateAppointment(body) then
      Effect(Rejected(Refused(JsonMissing)), s)
    else match parse(body.date.s)
      case None => Effect(Rejected(StoreRejected), s)
      case Some(t) =>
        var a := NewAppointment(body, owner, id, t);
        Effect(Resolved(a), s + [a])
  }

  /** `getAppointmentById`: the document keyed by `(id, owner)`, or 204 when
      the owner has none with that id, whoever else may. */
  function GetAppointmentById(s: Store, id: string, owner: string): (r: Outcome<Appointment>)
    ensures r.Resolved? ==> r.value in s && Keyed(r.value, id, owner)
    ensures FirstKeyed(s, id, owner).Some? ==> r == Resolved(s[FirstKeyed(s, id, owner).value])
    ensures r.Rejected? <==> forall a :: a in s ==> !Keyed(a, id, owner)
    ensures r.Rejected? ==> r.failure == Refused(NoAppointment)
  {
    match FirstKeyed(s, id, owner)
    case None => Rejected(Refused(NoAppointment))
    case Some(i) => Resolved(s[i])
  }

  /** `removeAppointment`: deletes the first document keyed by `(id, owner)`,
      keeping the others in order; with no such document it rejects with 204 and the
      store is unchanged. */
  function RemoveAppointment(s: Store, id: string, owner: string): (r: Effect<Reply, Store>)
    ensures r.outcome.Resolved? <==> exists a :: a in s && Keyed(a, id, owner)
    ensures r.outcome.Resolved? ==> r.outcome.value == Deleted
    ensures r.outcome.Resolved? ==>
      exists i :: 0 <= i < |s| && FirstKeyed(s, id, owner) == Some(i) && r.state == s[..i] + s[i + 1..]
    ensures r.outcome.Rejected? ==> r.outcome.failure == Refused(NoAppointment) && r.state == s
  {
    match FirstKeyed(s, id, owner)
    case None => Effect(Rejected(Refused(NoAppointment)), s)
    case Some(i) => Effect(Resolved(Deleted), s[..i] + s[i + 1..])
  }

  /** `updateAppointment`: a body that fails validation is rejected with 400
      first; a date the parser refuses makes the update fail; then the first document keyed by `(id, owner)` has its five
      fields replaced, keeping its id and owner, and every other document
      stays as it was; with no such document it rejects with 204 and nothing
      changes. The source still sends the update after the 400 rejection;
      that write is not modelled and the contract says nothing of the store
      on that path. */
  function UpdateAppointment(s: Store, id: string, body: Body, owner: string, parse: DateParser)
    : (r: Effect<Reply, Store>)
    ensures !ValidateAppointment(body) <==> r.outcome == Rejected(Refused(JsonMissing))
    ensures ValidateAppointment(body) && parse(body.date.s).None? ==> r == Effect(Rejected(StoreRejected), s)
    ensures ValidateAppointment(body) && r.outcome.Rejected? ==> r.state == s
    ensures r.outcome.Resolved? <==>
      ValidateAppointment(body) && parse(body.date.s).Some?
      && exists a :: a in s && Keyed(a, id, owner)
    ensures ValidateAppointment(body) && parse(body.date.s).Some?
            && (forall a :: a in s ==> !Keyed(a, id, owner))
            ==> r.outcome == Rejected(Refused(NoAppointment))
    ensures r.outcome.Resolved? ==>
      && r.outcome.value == Updated(id)
      && |r.state| == |s|
      && exists i :: 0 <= i < |s| && FirstKeyed(s, id, owner) == Some(i)
           && r.state == s[i := NewAppointment(body, owner, id, parse(body.date.s).value)]
  {
    if !ValidateAppointment(body) then
      Effect(Rejected(Refused(JsonMissing)), s)
    else match parse(body.date.s)
      case None => Effect(Rejected(StoreRejected), s)
      case Some(t) =>
        match FirstKeyed(s, id, owner)
        case None => Effect(Rejected(Refused(NoAppointment)), s)
        case Some(i) => Effect(Resolved(Updated(id)), s[i := NewAppointment(body, owner, id, t)])
  }

  // ------------------------------------------------------------ the day

  /** The start of the day a timestamp falls in. Days are counted from the
      epoch in UTC. */
  function DayStart(t: int): int {
    t - t % DAY
  }

  /** Two timestamps fall in the same calendar day. */
  predicate SameDay(t: int, u: int) {
    t / DAY == u / DAY
  }

  /** The half-open window `[DayStart(t), DayStart(t) + DAY)` holds exactly
      the timestamps of the day `t` falls in: its start is included, the next
      day's start is not. */
  lemma DayWindow(t: int, x: int)
    ensures DayStart(t) <= t < DayStart(t) + DAY
    ensures DayStart(t) <= x < DayStart(t) + DAY <==> SameDay(x, t)
    ensures SameDay(DayStart(t), t) && !SameDay(DayStart(t) + DAY, t)
  {
  }

  /** The documents of `s` dated on the same day as `t`, in storage order. */
  function OnDay(s: Store, t: int): (r: Store)
    ensures forall a :: a in r <==> a in s && SameDay(a.date, t)
  {
    if s == [] then []
    else (if SameDay(s[0].date, t) then [s[0]] else []) + OnDay(s[1..], t)
  }

  /** The range query over `t`'s day window finds the owner's list restricted
      to `t`'s day, in the same order. */
  lemma {:induction false} DayQueryIsOwnersDay(s: Store, owner: string, t: int)
    ensures Find(s, InRange(owner, DayStart(t), DayStart(t) + DAY)) == OnDay(GetAllAppointments(s, owner), t)
  {
    if s != [] {
      DayQueryIsOwnersDay(s[1..], owner, t);
      DayWindow(t, s[0].date);
      var rest := GetAllAppointments(s[1..], owner);
      if s[0].owner == owner {
        assert GetAllAppointments(s, owner) == [s[0]] + rest;
        assert ([s[0]] + rest)[1..] == rest;
      } else {
        assert GetAllAppointments(s, owner) == rest;
      }
    }
  }

  /** `getAppointmentsByDate`: a date that is not a string is rejected with
      400; otherwise the owner's documents dated on the same day as the parsed
      date, in storage order, rejecting with 204 when there are none. */
  function GetAppointmentsByDate(s: Store, date: JsValue, owner: string, parse: DateParser)
    : (r: Outcome<Store>)
    ensures !date.Str? ==> r == Rejected(Refused(BadDate))
    ensures date.Str? && parse(date.s).None? ==> r == Rejected(StoreRejected)
    ensures r.Resolved? ==> date.Str? && parse(date.s).Some? && |r.value| > 0
    ensures r.Resolved? ==> forall a :: a in r.value <==>
      a in s && a.owner == owner && SameDay(a.date, parse(date.s).value)
    ensures date.Str? && parse(date.s).Some?
            && (forall a :: a in s && a.owner == owner ==> !SameDay(a.date, parse(date.s).value))
            ==> r == Rejected(Refused(NoneOnDate))
    ensures date.Str? && parse(date.s).Some?
            && (exists a :: a in s && a.owner == owner && SameDay(a.date, parse(date.s).value))
            ==> r.Resolved?
    ensures r.Resolved? ==> r.value == OnDay(GetAllAppointments(s, owner), parse(date.s).value)
  {
    if !date.Str? then Rejected(Refused(BadDate))
    else match parse(date.s)
      case None => Rejected(StoreRejected)
      case Some(t) =>
        var low := DayStart(t);
        var found := Find(s, InRange(owner, low, low + DAY));
        DayQueryIsOwnersDay(s, owner, t);
        assert forall a :: a in found <==> a in s && a.owner == owner && SameDay(a.date, t) by {
          forall a: Appointment ensures low <= a.date < low + DAY <==> SameDay(a.date, t) {
            DayWindow(t, a.date);
          }
        }
        if |found| == 0 then Rejected(Refused(NoneOnDate))
        else assert found[0] in found; Resolved(found)
  }
}
