/**
 * The user records that the sign-in callbacks and the tenant registration
 * route read and write. The database is modelled as a map from e-mail
 * address (the table's unique key) to the user's row.
 *
 * JavaScript truthiness: the source tests `password`, `profileImage` and
 * the like for falsiness, which lumps together `null`, `undefined` and "".
 * The model writes all of these as "".
 */
module Users {
  import opened Wrappers

  datatype Role = USER | TENANT

  datatype Provider = EMAIL | GOOGLE | FACEBOOK | TWITTER

  datatype User = User(
    id: string,
    email: string,
    name: string,
    phone: string,
    role: Role,
    password: string,           // bcrypt hash; "" when the account has none
    isVerified: bool,
    profileImage: string,       // "" when there is none
    provider: Provider,
    verificationToken: Option<string>,
    verificationExpiry: Option<int>  // milliseconds since the epoch
  )

  /** The user table, keyed by the unique e-mail column. */
  type Store = map<string, User>

  /** Each row sits under its own e-mail address. */
  predicate WellFormed(store: Store) {
    forall e :: e in store ==> store[e].email == e
  }

  /** `findUnique({ where: { email, role } })`: the row with that e-mail,
      provided it also has that role. */
  function FindByEmailAndRole(store: Store, email: string, role: Role): (r: Option<User>)
    ensures r.Some? <==> email in store && store[email].role == role
    ensures r.Some? ==> r.value == store[email]
  {
    if email in store && store[email].role == role then Some(store[email]) else None
  }

  /** One address belongs to one role: a lookup as USER and a lookup as
      TENANT never both find a row, and in a well-formed table a row found
      has the address and the role that were asked for. */
  lemma LookupIsRoleScoped(store: Store, email: string)
    ensures FindByEmailAndRole(store, email, USER).Some? ==> FindByEmailAndRole(store, email, TENANT).None?
    ensures FindByEmailAndRole(store, email, TENANT).Some? ==> FindByEmailAndRole(store, email, USER).None?
    ensures WellFormed(store) ==> forall role :: FindByEmailAndRole(store, email, role).Some? ==>
      FindByEmailAndRole(store, email, role).value.email == email
      && FindByEmailAndRole(store, email, role).value.role == role
  {
  }
}
