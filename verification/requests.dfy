/** The request objects the calendar functions receive. */
module Requests {

  import opened Outcomes

  /** The JavaScript values a body field can hold, as far as `typeof` tells
      them apart. Numbers are taken to be integers. */
  datatype JsValue = Undefined | Null | Boolean(b: bool) | Number(n: int) | Str(s: string) | Object

  /** `request.body`. The fields whose type the source checks with `typeof` are
      `JsValue`s; the appointment id and the caller's location are passed on to
      the store and the gateways without a check and are taken to be strings. */
  datatype Body = Body(
    id: string,
    username: JsValue,
    password: JsValue,
    name: JsValue,
    date: JsValue,
    address: JsValue,
    towncity: JsValue,
    postcode: JsValue,
    currentLocation: string)

  /** `request.authorization.basic`: a field the header parser did not fill is `None`. */
  datatype Basic = Basic(username: Option<string>, password: Option<string>)

  /** `request.authorization`, whose `basic` part may be missing. */
  datatype Authorization = Authorization(basic: Option<Basic>)

  datatype Request = Request(authorization: Option<Authorization>, body: Body)

  /** The request carries `authorization.basic` at all. */
  predicate CarriesBasic(req: Request) {
    req.authorization.Some? && req.authorization.value.basic.Some?
  }

  /** The request carries both a basic-auth username and a password. */
  predicate CarriesCredentials(req: Request) {
    CarriesBasic(req)
    && req.authorization.value.basic.value.username.Some?
    && req.authorization.value.basic.value.password.Some?
  }

  /** `request.authorization.basic.username` of a request that carries one. */
  function HeaderUser(req: Request): string
    requires CarriesCredentials(req)
  {
    req.authorization.value.basic.value.username.value
  }

  /** `request.authorization.basic.password` of a request that carries one. */
  function HeaderPassword(req: Request): string
    requires CarriesCredentials(req)
  {
    req.authorization.value.basic.value.password.value
  }
}
