/** The request flows of `calendar.js`. Each one either authorises the request
    with `validateAuth` and then calls the store scoped to the header's
    username, or, for the directions flows, goes to the store without an
    authorisation check. */
module Calendar {

  import opened Outcomes
  import opened Requests
  import opened Data
  import opened Auth

  /** Both collections. */
  datatype Db = Db(users: seq<User>, appointments: Store)

  /** What a request takes from outside the model: bcrypt, the salt it draws,
      the date parser, and the random token a new appointment gets. */
  datatype Env = Env(hasher: Hasher, salt: Salt, parse: DateParser, freshId: string)

  /** A user is stored under `name` with password `password`, and no user
      stored before it has that name. */
  ghost predicate FirstUserHas(users: seq<User>, name: string, password: string) {
    exists i :: FirstNamedAt(users, name, i) && users[i].password == password
  }

  /** `validateAuth`: header extraction, hashing, user lookup and comparison,
      in that order; the first rejection is the result. The password the
      comparison receives as plaintext is the stored one, and the hash it
      receives is that of the supplied one. */
  function ValidateAuth(req: Request, users: seq<User>, h: Hasher, salt: Salt): (r: Outcome<bool>)
    ensures r.Resolved? ==> r.value && CarriesCredentials(req)
  {
    var creds :- GetHeaderCreds(req);
    var hashed := HashPass(creds, h, salt).value;
    var accounts :- GetUserInfo(users, hashed.username);
    CheckPassword(h, accounts[0].password, hashed.password)
  }

  /** With a sound bcrypt, `validateAuth` rejects for a missing header, then
      for missing credentials, then for an unknown user, then with `false`,
      and resolves `true` exactly when the first user stored under the
      header's username has the header's password as stored. The salt plays
      no part. */
  lemma ValidateAuthOutcome(req: Request, users: seq<User>, h: Hasher, salt: Salt)
    requires Sound(h)
    ensures var r := ValidateAuth(req, users, h, salt);
      && (!CarriesBasic(req) ==> r == Rejected(Refused(HeaderMissing)))
      && (CarriesBasic(req) && !CarriesCredentials(req) ==> r == Rejected(Refused(CredentialsMissing)))
      && ((CarriesCredentials(req) && forall x :: x in users ==> x.username != HeaderUser(req))
          ==> r == Rejected(Refused(UserMissing)))
      && ((CarriesCredentials(req) && (exists x :: x in users && x.username == HeaderUser(req))
           && !FirstUserHas(users, HeaderUser(req), HeaderPassword(req)))
          ==> r == Rejected(RejectedFalse))
      && (r == Resolved(true) <==>
            CarriesCredentials(req) && FirstUserHas(users, HeaderUser(req), HeaderPassword(req)))
      && (r == Resolved(true) || r.Rejected?)
  {
    var r := ValidateAuth(req, users, h, salt);
    if CarriesCredentials(req) {
      var name, pw := HeaderUser(req), HeaderPassword(req);
      var found := UsersNamed(users, name);
      if |found| > 0 {
        UsersNamedHead(users, name);
        var i :| FirstNamedAt(users, name, i) && users[i] == found[0];
        assert r == CheckPassword(h, users[i].password, h.hash(salt, pw));
        assert r == Resolved(true) <==> users[i].password == pw;
        if FirstUserHas(users, name, pw) {
          var k :| FirstNamedAt(users, name, k) && users[k].password == pw;
          assert k == i;
        }
      } else {
        assert forall x :: x in users ==> x.username != name;
      }
    }
  }

  // ---------------------------------------------------------------- flows

  /** `createUser`: `addUser` on the body, with no authorisation check. */
  function CreateUser(req: Request, db: Db): (r: Effect<Body, Db>)
    ensures r.outcome.Resolved? <==> req.body.username.Str? && req.body.password.Str?
    ensures r.outcome.Rejected? ==> r.outcome == Rejected(Refused(NotStrings))
    ensures r.outcome.Resolved? ==> r.outcome.value == req.body
    ensures r.state.appointments == db.appointments
  {
    var e := AddUser(db.users, req.body);
    Effect(e.outcome, db.(users := e.state))
  }

  /** The shape of every authorised flow that changes the store: on a
      rejection from `validateAuth` nothing changes and that rejection is the
      result; otherwise `op` runs for the header's username. */
  function Authorised<T>(req: Request, db: Db, env: Env, op: string -> Effect<T, Store>): (r: Effect<T, Db>)
    ensures r.state.users == db.users
    ensures ValidateAuth(req, db.users, env.hasher, env.salt).Rejected? ==>
      r == Effect(Rejected(ValidateAuth(req, db.users, env.hasher, env.salt).failure), db)
    ensures ValidateAuth(req, db.users, env.hasher, env.salt).Resolved? ==>
      CarriesCredentials(req) && r.outcome == op(HeaderUser(req)).outcome
      && r.state.appointments == op(HeaderUser(req)).state
  {
    match ValidateAuth(req, db.users, env.hasher, env.salt)
    case Rejected(f) => Effect(Rejected(f), db)
    case Resolved(_) =>
      var e := op(HeaderUser(req));
      Effect(e.outcome, db.(appointments := e.state))
  }

  /** The shape of every authorised read-only flow. */
  function AuthorisedRead<T>(req: Request, db: Db, env: Env, query: string -> Outcome<T>): (r: Outcome<T>)
    ensures ValidateAuth(req, db.users, env.hasher, env.salt).Rejected? ==>
      r == Rejected(ValidateAuth(req, db.users, env.hasher, env.salt).failure)
    ensures ValidateAuth(req, db.users, env.hasher, env.salt).Resolved? ==>
      CarriesCredentials(req) && r == query(HeaderUser(req))
  {
    var _ :- ValidateAuth(req, db.users, env.hasher, env.salt);
    query(HeaderUser(req))
  }

  /** `createAppointment`. */
  function CreateAppointment(req: Request, db: Db, env: Env): Effect<Appointment, Db> {
    Authorised(req, db, env, owner => AddAppointment(db.appointments, req.body, owner, env.freshId, env.parse))
  }

  /** `clearAllAppointments`. */
  function ClearAllAppointments(req: Request, db: Db, env: Env): Effect<Reply, Db> {
    Authorised(req, db, env, owner => AppointmentsClear(db.appointments, owner))
  }

  /** `getAllAppointments`. */
  function GetAllAppointments(req: Request, db: Db, env: Env): Outcome<Store> {
    AuthorisedRead(req, db, env, owner => Resolved(Data.GetAllAppointments(db.appointments, owner)))
  }

  /** `getAppointment`. */
  function GetAppointment(req: Request, db: Db, env: Env): Outcome<Appointment> {
    AuthorisedRead(req, db, env, owner => GetAppointmentById(db.appointments, req.body.id, owner))
  }

  /** `getAppointmentByDate`. */
  function GetAppointmentByDate(req: Request, db: Db, env: Env): Outcome<Store> {
    AuthorisedRead(req, db, env, owner => GetAppointmentsByDate(db.appointments, req.body.date, owner, env.parse))
  }

  /** `updateAppointment`. The source reads the header's username before
      authorising, so a request without `authorization.basic` fails with a
      type error rather than with `validateAuth`'s rejection. */
  function UpdateAppointment(req: Request, db: Db, env: Env): (r: Effect<Reply, Db>)
    ensures !CarriesBasic(req) ==> r == Effect(Rejected(HeaderTypeError), db)
  {
    if !CarriesBasic(req) then Effect(Rejected(HeaderTypeError), db)
    else Authorised(req, db, env, owner => Data.UpdateAppointment(db.appointments, req.body.id, req.body, owner, env.parse))
  }

  /** `deleteAppointment`. */
  function DeleteAppointment(req: Request, db: Db, env: Env): Effect<Reply, Db> {
    Authorised(req, db, env, owner => RemoveAppointment(db.appointments, req.body.id, owner))
  }

  /** The events of the town and day of `owner`'s appointment `id`; a failed
      lookup is the result and the gateway is not consulted. */
  function EventsFor<R>(s: Store, id: string, owner: string, events: (string, int) -> Outcome<R>): Outcome<R> {
    var a :- GetAppointmentById(s, id, owner);
    events(a.towncity, a.date)
  }

  /** `getEvents`. */
  function GetEvents<R>(req: Request, db: Db, env: Env, events: (string, int) -> Outcome<R>): Outcome<R> {
    AuthorisedRead(req, db, env, owner => EventsFor(db.appointments, req.body.id, owner, events))
  }

  /** The destination string handed to the directions gateway. */
  function Destination(a: Appointment): string {
    a.address + ", " + a.towncity + ", " + a.postcode
  }

  /** The gateway's answer for the way from `origin` to `owner`'s appointment
      `id`; a failed lookup is the result and the gateway is not consulted. */
  function RouteTo<R>(s: Store, id: string, owner: string, origin: string,
                      gateway: (string, string) -> Outcome<R>): (r: Outcome<R>)
    ensures var found := GetAppointmentById(s, id, owner);
      && (found.Rejected? ==> r == Rejected(Refused(NoAppointment)))
      && (found.Resolved? ==>
            r == gateway(origin, found.value.address + ", " + found.value.towncity + ", " + found.value.postcode))
  {
    var a :- GetAppointmentById(s, id, owner);
    gateway(origin, Destination(a))
  }

  /** The common part of `getDirections`, `getDistance` and `getDuration`:
      no authorisation; the appointment with the body's id is looked up under
      the header's username and the gateway is asked for the way from the
      body's location to it. A request without `authorization.basic` fails
      with a type error. A header without a username queries for an owner no
      stored appointment has. */
  function Navigate<R>(req: Request, db: Db, gateway: (string, string) -> Outcome<R>): (r: Outcome<R>)
    ensures !CarriesBasic(req) ==> r == Rejected(HeaderTypeError)
    ensures CarriesBasic(req) && req.authorization.value.basic.value.username.None? ==>
      r == Rejected(Refused(NoAppointment))
    ensures CarriesBasic(req) && req.authorization.value.basic.value.username.Some? ==>
      r == RouteTo(db.appointments, req.body.id, req.authorization.value.basic.value.username.value,
                   req.body.currentLocation, gateway)
  {
    if !CarriesBasic(req) then Rejected(HeaderTypeError)
    else match req.authorization.value.basic.value.username
      case None => Rejected(Refused(NoAppointment))
      case Some(owner) => RouteTo(db.appointments, req.body.id, owner, req.body.currentLocation, gateway)
  }

  /** The directions flows as their documentation describes them: the
      credentials are verified before the lookup, as in every other flow. */
  function AuthorisedNavigate<R>(req: Request, db: Db, env: Env, gateway: (string, string) -> Outcome<R>)
    : Outcome<R>
  {
    AuthorisedRead(req, db, env, owner => RouteTo(db.appointments, req.body.id, owner, req.body.currentLocation, gateway))
  }

  /** `getDirections`. */
  function GetDirections<R>(req: Request, db: Db, route: (string, string) -> Outcome<R>): Outcome<R> {
    Navigate(req, db, route)
  }

  /** `getDistance`. */
  function GetDistance<R>(req: Request, db: Db, distance: (string, string) -> Outcome<R>): Outcome<R> {
    Navigate(req, db, distance)
  }

  /** `getDuration`. */
  function GetDuration<R>(req: Request, db: Db, duration: (string, string) -> Outcome<R>): Outcome<R> {
    Navigate(req, db, duration)
  }
}
