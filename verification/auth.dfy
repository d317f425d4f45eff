/** The credential helpers of `modules/auth.js`: reading basic-auth
    credentials from a request, hashing a password, and comparing a plaintext
    with a hash. bcrypt is a parameter: a hash function and a comparison,
    assumed sound in the one sense the calendar relies on. */
module Auth {

  import opened Outcomes
  import opened Requests

  datatype Credentials = Credentials(username: string, password: string)

  type Salt = string

  /** bcrypt's `hashSync` and `compareSync`. */
  datatype Hasher = Hasher(hash: (Salt, string) -> string, compare: (string, string) -> bool)

  /** Comparing a plaintext `p` with the hash of `q` under any salt succeeds
      exactly when `p` is `q`. */
  ghost predicate Sound(h: Hasher) {
    forall salt, p, q :: h.compare(p, h.hash(salt, q)) <==> p == q
  }

  const HeaderMissing := Reply(400, "error", "authorization header missing")
  const CredentialsMissing := Reply(400, "error", "missing username/password")

  /** `getHeaderCreds`: a missing `authorization` or `authorization.basic` is
      reported first; then a missing username or password; otherwise the two
      are returned as they are, empty strings included. */
  function GetHeaderCreds(req: Request): (r: Outcome<Credentials>)
    ensures !CarriesBasic(req) ==> r == Rejected(Refused(HeaderMissing))
    ensures CarriesBasic(req) && !CarriesCredentials(req) ==> r == Rejected(Refused(CredentialsMissing))
    ensures r.Resolved? <==> CarriesCredentials(req)
    ensures r.Resolved? ==> r.value == Credentials(HeaderUser(req), HeaderPassword(req))
  {
    if req.authorization.None? || req.authorization.value.basic.None? then
      Rejected(Refused(HeaderMissing))
    else
      var basic := req.authorization.value.basic.value;
      if basic.username.None? || basic.password.None? then
        Rejected(Refused(CredentialsMissing))
      else
        Resolved(Credentials(basic.username.value, basic.password.value))
  }

  /** `hashPass`: keeps the username and replaces the password by its hash
      under a fresh salt, which a comparison with the original password
      accepts and with any other password refuses. */
  function HashPass(c: Credentials, h: Hasher, salt: Salt): (r: Outcome<Credentials>)
    ensures r.Resolved? && r.value.username == c.username
    ensures Sound(h) ==> forall p :: h.compare(p, r.value.password) <==> p == c.password
  {
    Resolved(Credentials(c.username, h.hash(salt, c.password)))
  }

  /** `checkPassword(provided, hash)`: resolves `true` when the comparison
      accepts and rejects with the bare value `false` otherwise. */
  function CheckPassword(h: Hasher, provided: string, hash: string): (r: Outcome<bool>)
    ensures r == Resolved(true) || r == Rejected(RejectedFalse)
    ensures Sound(h) ==> forall salt, q :: hash == h.hash(salt, q) ==> (r == Resolved(true) <==> provided == q)
  {
    if !h.compare(provided, hash) then Rejected(RejectedFalse) else Resolved(true)
  }

  /** Hashing a password and checking a plaintext against the result accepts
      exactly the original password. */
  lemma HashThenCheck(c: Credentials, h: Hasher, salt: Salt, p: string)
    requires Sound(h)
    ensures CheckPassword(h, p, HashPass(c, h, salt).value.password) ==
            if p == c.password then Resolved(true) else Rejected(RejectedFalse)
  {
  }

  /** A comparison that is the identity on plaintexts satisfies `Sound`, so
      the assumption made of bcrypt is consistent. */
  lemma PlainHasherIsSound()
    ensures Sound(Hasher((salt: Salt, q: string) => q, (p: string, hash: string) => p == hash))
  {
  }
}
