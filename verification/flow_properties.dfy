/** Properties of the request flows of `calendar.js` taken together: what an
    unauthorised request can do, whose appointments an authorised one can
    touch, registration followed by login, and the lookup that precedes every
    gateway call. */
module FlowProperties {

  import opened Outcomes
  import opened Requests
  import opened Data
  import opened Auth
  import opened Calendar
  import StoreProperties

  /** The header's credentials are those of the first user stored under its
      username, as stored. */
  ghost predicate LogsIn(req: Request, users: seq<User>) {
    CarriesCredentials(req) && FirstUserHas(users, HeaderUser(req), HeaderPassword(req))
  }

  /** `v` is not the username the request authenticates as. */
  predicate Bystander(req: Request, v: string) {
    !CarriesCredentials(req) || v != HeaderUser(req)
  }

  /** A request whose credentials do not log in changes nothing, through any
      of the four flows that write, and each of them rejects. */
  lemma NoLoginNoChange(req: Request, db: Db, env: Env)
    requires Sound(env.hasher)
    requires !LogsIn(req, db.users)
    ensures CreateAppointment(req, db, env).state == db && CreateAppointment(req, db, env).outcome.Rejected?
    ensures ClearAllAppointments(req, db, env).state == db && ClearAllAppointments(req, db, env).outcome.Rejected?
    ensures Calendar.UpdateAppointment(req, db, env).state == db && Calendar.UpdateAppointment(req, db, env).outcome.Rejected?
    ensures DeleteAppointment(req, db, env).state == db && DeleteAppointment(req, db, env).outcome.Rejected?
  {
    ValidateAuthOutcome(req, db.users, env.hasher, env.salt);
  }

  /** A request whose credentials do not log in reads nothing: every
      authorised read rejects with `validateAuth`'s rejection. */
  lemma NoLoginNoRead<R>(req: Request, db: Db, env: Env, events: (string, int) -> Outcome<R>)
    requires Sound(env.hasher)
    requires !LogsIn(req, db.users)
    ensures var f := ValidateAuth(req, db.users, env.hasher, env.salt);
      && f.Rejected?
      && Calendar.GetAllAppointments(req, db, env) == Rejected(f.failure)
      && GetAppointment(req, db, env) == Rejected(f.failure)
      && GetAppointmentByDate(req, db, env) == Rejected(f.failure)
      && GetEvents(req, db, env, events) == Rejected(f.failure)
  {
    ValidateAuthOutcome(req, db.users, env.hasher, env.salt);
  }

  /** No flow that writes changes the users, or the appointments of anyone
      but the user the request logs in as. */
  lemma WritesStayWithRequester(req: Request, db: Db, env: Env, v: string)
    requires Bystander(req, v)
    ensures CreateAppointment(req, db, env).state.users == db.users
    ensures Data.GetAllAppointments(CreateAppointment(req, db, env).state.appointments, v)
            == Data.GetAllAppointments(db.appointments, v)
    ensures ClearAllAppointments(req, db, env).state.users == db.users
    ensures Data.GetAllAppointments(ClearAllAppointments(req, db, env).state.appointments, v)
            == Data.GetAllAppointments(db.appointments, v)
    ensures Calendar.UpdateAppointment(req, db, env).state.users == db.users
    ensures Data.GetAllAppointments(Calendar.UpdateAppointment(req, db, env).state.appointments, v)
            == Data.GetAllAppointments(db.appointments, v)
    ensures DeleteAppointment(req, db, env).state.users == db.users
    ensures Data.GetAllAppointments(DeleteAppointment(req, db, env).state.appointments, v)
            == Data.GetAllAppointments(db.appointments, v)
  {
    if ValidateAuth(req, db.users, env.hasher, env.salt).Resolved? {
      var u := HeaderUser(req);
      StoreProperties.AddIsolation(db.appointments, req.body, u, env.freshId, env.parse, v);
      StoreProperties.ClearIsolation(db.appointments, u, v);
      StoreProperties.UpdateIsolation(db.appointments, req.body.id, req.body, u, env.parse, v);
      if v != u {
        StoreProperties.RemoveIsolation(db.appointments, req.body.id, u, v);
      }
    }
  }

  /** The authorised reads return only the requester's appointments. */
  lemma ReadsStayWithRequester(req: Request, db: Db, env: Env)
    ensures var r := Calendar.GetAllAppointments(req, db, env);
      r.Resolved? ==> (CarriesCredentials(req)
        && forall a :: a in r.value <==> a in db.appointments && a.owner == HeaderUser(req))
    ensures var r := GetAppointment(req, db, env);
      r.Resolved? ==> (CarriesCredentials(req)
        && r.value in db.appointments && Keyed(r.value, req.body.id, HeaderUser(req)))
    ensures var r := GetAppointmentByDate(req, db, env);
      r.Resolved? ==> (CarriesCredentials(req)
        && forall a :: a in r.value ==> a in db.appointments && a.owner == HeaderUser(req))
  {
  }

  /** A logged-in request with a valid body and a parseable date stores
      exactly one new appointment, owned by the requester. */
  lemma CreateAppointmentStores(req: Request, db: Db, env: Env)
    requires Sound(env.hasher)
    requires LogsIn(req, db.users)
    requires ValidateAppointment(req.body) && env.parse(req.body.date.s).Some?
    ensures var r := CreateAppointment(req, db, env);
      && r.outcome.Resolved?
      && r.state.appointments == db.appointments + [r.outcome.value]
      && r.outcome.value.owner == HeaderUser(req)
      && r.outcome.value.id == env.freshId
  {
    ValidateAuthOutcome(req, db.users, env.hasher, env.salt);
  }

  /** Registering a new username and then logging in with it succeeds with
      the registered password and with no other: the password is stored as
      given and compared, through the hash of the supplied one, with the
      plaintext. */
  lemma RegisterThenLogin(db: Db, body: Body, login: Request, env: Env)
    requires Sound(env.hasher)
    requires body.username.Str? && body.password.Str?
    requires forall x :: x in db.users ==> x.username != body.username.s
    requires CarriesCredentials(login) && HeaderUser(login) == body.username.s
    ensures var r := CreateUser(Request(None, body), db);
      ValidateAuth(login, r.state.users, env.hasher, env.salt) == Resolved(true)
      <==> HeaderPassword(login) == body.password.s
  {
  }

  /** `getEvents` asks the events gateway only after finding the requester's
      appointment, with that appointment's town and date; a failed lookup is
      the result whatever the gateway would have said. */
  lemma EventsAfterLookup<R>(req: Request, db: Db, env: Env, events: (string, int) -> Outcome<R>)
    requires Sound(env.hasher)
    requires LogsIn(req, db.users)
    ensures var found := GetAppointmentById(db.appointments, req.body.id, HeaderUser(req));
      && (found.Rejected? ==> GetEvents(req, db, env, events) == Rejected(Refused(NoAppointment)))
      && (found.Resolved? ==>
            found.value.owner == HeaderUser(req)
            && GetEvents(req, db, env, events) == events(found.value.towncity, found.value.date))
  {
    ValidateAuthOutcome(req, db.users, env.hasher, env.salt);
  }

  /** The same request with the basic-auth password replaced. */
  function WithPassword(req: Request, password: Option<string>): (r: Request)
    requires CarriesBasic(req)
    ensures CarriesBasic(r)
  {
    var basic := req.authorization.value.basic.value;
    req.(authorization := Some(Authorization(Some(basic.(password := password)))))
  }

  /** The directions flows do not authorise: their result depends neither on
      the header's password nor on the users collection. */
  lemma NavigateSkipsLogin<R>(req: Request, db: Db, gateway: (string, string) -> Outcome<R>,
                              password: Option<string>, users: seq<User>)
    requires CarriesBasic(req)
    ensures Navigate(WithPassword(req, password), db.(users := users), gateway) == Navigate(req, db, gateway)
    ensures GetDirections(WithPassword(req, password), db.(users := users), gateway) == GetDirections(req, db, gateway)
  {
  }

  /** The corrected directions flow rejects every request that does not log
      in, and agrees with the flow as written on every request that does. */
  lemma AuthorisedNavigateNeedsLogin<R>(req: Request, db: Db, env: Env, gateway: (string, string) -> Outcome<R>)
    requires Sound(env.hasher)
    ensures !LogsIn(req, db.users) ==> AuthorisedNavigate(req, db, env, gateway).Rejected?
    ensures LogsIn(req, db.users) ==> AuthorisedNavigate(req, db, env, gateway) == Navigate(req, db, gateway)
  {
    ValidateAuthOutcome(req, db.users, env.hasher, env.salt);
  }

  /** As written, a request with the wrong password for a registered user
      still obtains the directions to that user's appointment. */
  lemma NavigateWithWrongPassword()
    ensures var db := Db([User("jwolfe94", "testpass")],
                         [Appointment("jwolfe94", "anID", "New Appointment", 0, "The Lea", "Loughborough", "LE126TD")]);
      var req := Request(Some(Authorization(Some(Basic(Some("jwolfe94"), Some("guess"))))),
                         Body("anID", Undefined, Undefined, Undefined, Undefined, Undefined, Undefined, Undefined, "52.4,-1.5"));
      && !LogsIn(req, db.users)
      && Navigate(req, db, (origin: string, destination: string) => Resolved(destination))
         == Resolved("The Lea, Loughborough, LE126TD")
  {
    var users := [User("jwolfe94", "testpass")];
    var a := Appointment("jwolfe94", "anID", "New Appointment", 0, "The Lea", "Loughborough", "LE126TD");
    assert "testpass" != "guess" by { assert "testpass"[0] != "guess"[0]; }
    assert !FirstUserHas(users, "jwolfe94", "guess");
    assert FirstKeyed([a], "anID", "jwolfe94") == Some(0);
    assert GetAppointmentById([a], "anID", "jwolfe94") == Resolved(a);
    assert Destination(a) == "The Lea, Loughborough, LE126TD";
  }
}
