/**
 * `POST /api/auth/register-tenant`: validate the body, refuse an e-mail
 * address that is already registered, create an unverified TENANT row with
 * a verification token that expires one hour later, send the verification
 * mail, and answer with the new account's id, e-mail and name.
 *
 * The body's JSON parse and the schema check are one input (`Body`); the
 * token, the clock and the id the database assigns are inputs; each call
 * that can throw (lookup, create, mail) has a fault flag. Columns the route
 * does not set take the defaults the model assumes for the schema: not
 * verified, no password, no picture.
 */
module RegisterTenant {
  import opened Wrappers
  import opened Users
  import AuthConfig

  const VerificationWindowMs := 60 * 60 * 1000
  const MsgEmailTaken := "Email sudah terdaftar"
  const MsgServerError := "Terjadi kesalahan saat registrasi"
  const MsgRegistered := "Registrasi berhasil. Silakan cek email Anda untuk verifikasi."

  /** The fields the schema yields on success. */
  datatype TenantForm = TenantForm(email: string, name: string, phone: string)

  /** `req.json()` then `registerTenantSchema.safeParse(body)`. */
  datatype Body =
    | MalformedJson
    | Invalid(issues: seq<string>)   // the issues' messages, in order
    | Valid(form: TenantForm)

  /** Which awaited calls throw. */
  datatype Faults = Faults(lookupThrows: bool, createThrows: bool, mailThrows: bool)

  datatype Response =
    | Failed(status: int, error: string)
    | Registered(message: string, id: string, email: string, name: string)
  {
    function Status(): int {
      if Failed? then status else 200
    }
    predicate Success() {
      Registered?
    }
  }

  datatype Outcome = Outcome(response: Response, store: Store)

  /** The row the route creates. */
  function NewTenant(form: TenantForm, freshId: string, token: string, now: int): User {
    User(freshId, form.email, form.name, form.phone, TENANT, "", false, "", EMAIL,
         Some(token), Some(now + VerificationWindowMs))
  }

  function Post(body: Body, store: Store, token: string, now: int, freshId: string, faults: Faults): (r: Outcome)
    // every answer is 200, 400 or 500, and only 200 reports success
    ensures r.response.Status() in {200, 400, 500}
    ensures r.response.Success() <==> r.response.Status() == 200
    // a schema failure answers 400 with its first issue, touching nothing
    ensures body.Invalid? && |body.issues| > 0 ==>
      r == Outcome(Failed(400, body.issues[0]), store)
    // a taken address answers 400 and the table is unchanged
    ensures body.Valid? && !faults.lookupThrows && body.form.email in store ==>
      r == Outcome(Failed(400, MsgEmailTaken), store)
    // the table changes only by the one new tenant row
    ensures r.store == store || (body.Valid? && body.form.email !in store
                                 && r.store == store[body.form.email := NewTenant(body.form, freshId, token, now)])
    // the created row is an unverified e-mail TENANT whose token expires an hour from now
    ensures r.store != store ==>
      var u := r.store[body.form.email];
      u.role == TENANT && u.provider == EMAIL && !u.isVerified
      && u.email == body.form.email && u.name == body.form.name && u.phone == body.form.phone
      && u.verificationToken == Some(token) && u.verificationExpiry == Some(now + 3600000)
    // success echoes the new row's id, e-mail and name
    ensures r.response.Success() ==>
      body.Valid? && r.response == Registered(MsgRegistered, freshId, body.form.email, body.form.name)
    // a thrown error anywhere answers 500
    ensures r.response.Status() == 500 <==>
      body.MalformedJson? || (body.Invalid? && |body.issues| == 0)
      || (body.Valid? && (faults.lookupThrows
          || (body.form.email !in store && (faults.createThrows || faults.mailThrows))))
    ensures r.response.Status() == 500 ==> r.response == Failed(500, MsgServerError)
  {
    match body
    case MalformedJson => Outcome(Failed(500, MsgServerError), store)
    case Invalid(issues) =>
      // `issues[0].message` throws when there is no first issue
      if |issues| == 0 then Outcome(Failed(500, MsgServerError), store)
      else Outcome(Failed(400, issues[0]), store)
    case Valid(form) =>
      if faults.lookupThrows then Outcome(Failed(500, MsgServerError), store)
      else if form.email in store then Outcome(Failed(400, MsgEmailTaken), store)
      else if faults.createThrows then Outcome(Failed(500, MsgServerError), store)
      else
        var user := NewTenant(form, freshId, token, now);
        var created := store[form.email := user];
        if faults.mailThrows then Outcome(Failed(500, MsgServerError), created)
        else Outcome(Registered(MsgRegistered, user.id, user.email, user.name), created)
  }

  /** When the verification mail cannot be sent the account still exists,
      although the caller is told registration failed. */
  lemma MailFailureKeepsAccount(form: TenantForm, store: Store, token: string, now: int, freshId: string)
    requires form.email !in store
    ensures var r := Post(Valid(form), store, token, now, freshId, Faults(false, false, true));
      r.response.Status() == 500 && form.email in r.store && r.store[form.email].role == TENANT
  {
  }

  /** A second registration with the same address is refused, so the table
      never holds two rows for one address. */
  lemma RegisterTwiceRefused(form: TenantForm, form2: TenantForm, store: Store,
                                                token: string, token2: string, now: int, now2: int,
                                                id: string, id2: string)
    requires form2.email == form.email
    requires Post(Valid(form), store, token, now, id, Faults(false, false, false)).response.Success()
    ensures var first := Post(Valid(form), store, token, now, id, Faults(false, false, false)).store;
      Post(Valid(form2), first, token2, now2, id2, Faults(false, false, false))
        == Outcome(Failed(400, MsgEmailTaken), first)
  {
  }

  /** Registration keeps the table well formed. */
  lemma PostPreservesWellFormed(body: Body, store: Store, token: string, now: int, freshId: string, faults: Faults)
    requires WellFormed(store)
    ensures WellFormed(Post(body, store, token, now, freshId, faults).store)
  {
  }

  /** A freshly registered tenant has no password yet, so the tenant
      credential sign-in refuses it as a social-login account before it gets
      to the verification check. */
  lemma NewTenantCannotSignIn(form: TenantForm, store: Store, token: string, now: int, freshId: string,
                              password: string, passwordMatches: (string, string) -> bool)
    requires form.email != "" && password != ""
    requires Post(Valid(form), store, token, now, freshId, Faults(false, false, false)).response.Success()
    ensures var s := Post(Valid(form), store, token, now, freshId, Faults(false, false, false)).store;
      AuthConfig.Authorize(AuthConfig.TenantCredentials, s, form.email, password, passwordMatches)
        == AuthConfig.Refused(AuthConfig.MsgSocialAccount)
  {
  }
}
