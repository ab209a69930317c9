/**
 * The authentication configuration: the two credential sign-in checks
 * (users and tenants), the social sign-in callback that creates or verifies
 * the account, and the `jwt` / `session` callbacks that carry the user's id,
 * role and verification flag into the token and the session.
 *
 * The bcrypt comparison is a parameter `passwordMatches(plain, hash)`; the
 * id the database assigns to a new row is a parameter `freshId`.
 */
module AuthConfig {
  import opened Wrappers
  import opened Users

  const MsgMissingFields := "Email dan password harus diisi"
  const MsgBadCredentials := "Email atau password salah"
  const MsgSocialAccount := "Akun ini menggunakan social login"
  const MsgUnverified := "Email belum diverifikasi. Silakan cek email Anda"

  /** The two credential providers, which differ only in the role they look up. */
  datatype CredentialsProvider = UserCredentials | TenantCredentials

  function ProviderRole(p: CredentialsProvider): Role {
    match p
    case UserCredentials => USER
    case TenantCredentials => TENANT
  }

  /** What `authorize` hands to NextAuth on success. */
  datatype AuthUser = AuthUser(id: string, email: string, name: string, role: Role, image: string, isVerified: bool)

  /** `authorize` either returns a user or throws an Error with a message. */
  datatype AuthResult = Authorized(user: AuthUser) | Refused(message: string)

  /** `authorize(credentials)` for either credential provider. An empty
      string stands for a missing field. */
  function Authorize(
    provider: CredentialsProvider, store: Store, email: string, password: string,
    passwordMatches: (string, string) -> bool): (r: AuthResult)
    // missing input is refused before any lookup
    ensures email == "" || password == "" ==> r == Refused(MsgMissingFields)
    // success needs every check to pass
    ensures r.Authorized? <==>
      email != "" && password != "" && email in store && store[email].role == ProviderRole(provider)
      && store[email].password != "" && store[email].isVerified
      && passwordMatches(password, store[email].password)
    // the fields handed back come from the row found
    ensures r.Authorized? ==>
      var u := store[email];
      r.user == AuthUser(u.id, u.email, u.name, u.role, u.profileImage, u.isVerified)
    // an unknown address (or one of the other role) and a wrong password look the same
    ensures r.Refused? && r.message == MsgBadCredentials <==>
      email != "" && password != "" &&
      (email !in store || store[email].role != ProviderRole(provider) ||
       (store[email].password != "" && store[email].isVerified && !passwordMatches(password, store[email].password)))
    // the social-login check comes before the verification check
    ensures r == Refused(MsgSocialAccount) <==>
      email != "" && password != "" && email in store && store[email].role == ProviderRole(provider)
      && store[email].password == ""
    ensures r == Refused(MsgUnverified) <==>
      email != "" && password != "" && email in store && store[email].role == ProviderRole(provider)
      && store[email].password != "" && !store[email].isVerified
  {
    if email == "" || password == "" then Refused(MsgMissingFields)
    else
      match FindByEmailAndRole(store, email, ProviderRole(provider))
      case None => Refused(MsgBadCredentials)
      case Some(user) =>
        if user.password == "" then Refused(MsgSocialAccount)
        else if !user.isVerified then Refused(MsgUnverified)
        else if !passwordMatches(password, user.password) then Refused(MsgBadCredentials)
        else Authorized(AuthUser(user.id, user.email, user.name, user.role, user.profileImage, user.isVerified))
  }

  /** A user account can never sign in through the tenant provider and
      vice versa, whatever the password. */
  lemma CredentialsAreRoleScoped(store: Store, email: string, password: string,
                                 passwordMatches: (string, string) -> bool)
    ensures Authorize(UserCredentials, store, email, password, passwordMatches).Authorized? ==>
      !Authorize(TenantCredentials, store, email, password, passwordMatches).Authorized?
    ensures Authorize(TenantCredentials, store, email, password, passwordMatches).Authorized? ==>
      Authorize(TenantCredentials, store, email, password, passwordMatches).user.role == TENANT
  {
  }

  /** The profile and the OAuth account NextAuth passes to `signIn`. */
  datatype Profile = Profile(email: string, name: string, image: string)

  predicate IsSocialProvider(provider: string) {
    provider == "google" || provider == "facebook" || provider == "twitter"
  }

  /** The lower-case name NextAuth gives each social provider. */
  function ProviderName(p: Provider): string {
    match p
    case EMAIL => "email"
    case GOOGLE => "google"
    case FACEBOOK => "facebook"
    case TWITTER => "twitter"
  }

  /** `providerMap[account.provider] || 'GOOGLE'`: each social provider's
      name maps to the provider it names; a social account is never recorded
      as an e-mail account. `signIn` only calls it for the three names, so
      the GOOGLE fallback cannot be reached from there (and JavaScript would
      answer an inherited member, not GOOGLE, for names such as `toString`;
      the model keeps the fallback for every other name). */
  function SocialProvider(provider: string): (p: Provider)
    ensures p != EMAIL
    ensures IsSocialProvider(provider) ==> ProviderName(p) == provider
    ensures !IsSocialProvider(provider) ==> p == GOOGLE
  {
    if provider == "facebook" then FACEBOOK
    else if provider == "twitter" then TWITTER
    else GOOGLE
  }

  /** The map is a bijection between the three names and the three social
      providers. */
  lemma SocialProviderRoundTrip(p: Provider)
    requires p != EMAIL
    ensures IsSocialProvider(ProviderName(p))
    ensures SocialProvider(ProviderName(p)) == p
  {
  }

  /** The row `signIn` creates for a first-time social visitor. */
  function SocialUser(profile: Profile, provider: string, freshId: string): User {
    User(freshId, profile.email, profile.name, "", USER, "", true, profile.image,
         SocialProvider(provider), None, None)
  }

  datatype SignInOutcome = SignInOutcome(store: Store, allowed: bool)

  /** A sign-in through one of the three social providers. */
  predicate IsSocial(account: Option<string>) {
    account.Some? && IsSocialProvider(account.value)
  }

  /** The `signIn` callback. `account` is the provider id, or None when there
      is no account; the credential providers' ids are not social, so they
      pass straight through.
      A social profile without an e-mail ("" here) makes the lookup by e-mail
      throw, and a throwing callback refuses the sign-in; otherwise the
      callback returns true. */
  function SignIn(store: Store, profile: Profile, account: Option<string>, freshId: string): (r: SignInOutcome)
    ensures r.allowed <==> !(IsSocial(account) && profile.email == "")
    // credential sign-ins, unknown providers and refused sign-ins leave the table alone
    ensures !IsSocial(account) || !r.allowed ==> r.store == store
    // only the visitor's own row can change
    ensures forall e :: e != profile.email ==> (e in r.store <==> e in store)
    ensures forall e :: e != profile.email && e in store ==> r.store[e] == store[e]
    ensures r.allowed && IsSocial(account) ==>
      profile.email in r.store && r.store[profile.email].isVerified
    // a first-time visitor becomes a verified USER of the mapped provider
    ensures r.allowed && IsSocial(account) && profile.email !in store ==>
      var u := r.store[profile.email];
      u.role == USER && u.provider == SocialProvider(account.value)
      && u.email == profile.email && u.name == profile.name && u.profileImage == profile.image
      && u.password == ""
    // an unverified account is verified, keeping its old picture if the new one is empty
    ensures r.allowed && IsSocial(account) && profile.email in store ==>
      var prior := store[profile.email];
      r.store[profile.email] ==
        if prior.isVerified then prior
        else prior.(isVerified := true, profileImage := if profile.image != "" then profile.image else prior.profileImage)
  {
    if IsSocial(account) then
      if profile.email == "" then SignInOutcome(store, false)
      else if profile.email !in store then
        SignInOutcome(store[profile.email := SocialUser(profile, account.value, freshId)], true)
      else
        var existing := store[profile.email];
        if !existing.isVerified then
          var image := if profile.image != "" then profile.image else existing.profileImage;
          SignInOutcome(store[profile.email := existing.(isVerified := true, profileImage := image)], true)
        else SignInOutcome(store, true)
    else SignInOutcome(store, true)
  }

  /** Social sign-in keeps the table well formed. */
  lemma SignInPreservesWellFormed(store: Store, profile: Profile, account: Option<string>, freshId: string)
    requires WellFormed(store)
    ensures WellFormed(SignIn(store, profile, account, freshId).store)
  {
  }

  /** Signing in twice through the same social provider changes nothing the
      second time. */
  lemma SignInIdempotent(store: Store, profile: Profile, account: Option<string>, freshId: string, freshId2: string)
    ensures var once := SignIn(store, profile, account, freshId).store;
      SignIn(once, profile, account, freshId2).store == once
  {
  }

  /** The JWT's own claims plus the fields `jwt` adds; `undefined` is None. */
  datatype Token = Token(name: string, email: string, picture: string,
                         id: Option<string>, role: Option<Role>, isVerified: Option<bool>)

  /** The user object NextAuth hands to `jwt` right after a sign-in: what
      `authorize` returned for a credential sign-in, or, after a social
      sign-in, the object NextAuth builds from the provider's profile, which
      has an id but no `role` and no `isVerified`. */
  datatype SignedInUser =
    | CredentialsUser(authUser: AuthUser)
    | OAuthUser(oauthId: string, profile: Profile)

  /** The `jwt` callback: the user is present only right after sign-in.
      Fields the user object lacks are copied as `undefined`. */
  function Jwt(token: Token, user: Option<SignedInUser>): (t: Token)
    ensures user.None? ==> t == token
    ensures user.Some? && user.value.CredentialsUser? ==>
      var u := user.value.authUser;
      t.id == Some(u.id) && t.role == Some(u.role) && t.isVerified == Some(u.isVerified)
    ensures user.Some? && user.value.OAuthUser? ==>
      t.id == Some(user.value.oauthId) && t.role.None? && t.isVerified.None?
    ensures t.name == token.name && t.email == token.email && t.picture == token.picture
  {
    match user
    case None => token
    case Some(CredentialsUser(u)) => token.(id := Some(u.id), role := Some(u.role), isVerified := Some(u.isVerified))
    case Some(OAuthUser(id, _)) => token.(id := Some(id), role := None, isVerified := None)
  }

  datatype SessionUser = SessionUser(name: string, email: string, image: string,
                                     id: Option<string>, role: Option<Role>, isVerified: Option<bool>)

  datatype Session = Session(user: Option<SessionUser>, expires: string)

  /** The `session` callback: copy the token's fields onto `session.user`
      when both are there; the casts copy `undefined` through unchanged. */
  function SessionOf(session: Session, token: Option<Token>): (s: Session)
    ensures token.None? || session.user.None? ==> s == session
    ensures token.Some? && session.user.Some? ==>
      s.user.Some? && s.user.value.id == token.value.id && s.user.value.role == token.value.role
      && s.user.value.isVerified == token.value.isVerified
    ensures s.expires == session.expires
    ensures s.user.Some? <==> session.user.Some?
    ensures s.user.Some? ==>
      s.user.value.name == session.user.value.name && s.user.value.email == session.user.value.email
      && s.user.value.image == session.user.value.image
  {
    if token.Some? && session.user.Some? then
      var t := token.value;
      session.(user := Some(session.user.value.(id := t.id, role := t.role, isVerified := t.isVerified)))
    else session
  }

  /** A credential sign-in followed by a session read shows the signed-in
      row's id, role and verification flag, whatever the token held before. */
  lemma SignedInSessionShowsUser(
    provider: CredentialsProvider, store: Store, email: string, password: string,
    passwordMatches: (string, string) -> bool, token: Token, session: Session)
    requires Authorize(provider, store, email, password, passwordMatches).Authorized?
    requires session.user.Some?
    ensures var u := Authorize(provider, store, email, password, passwordMatches).user;
      var s := SessionOf(session, Some(Jwt(token, Some(CredentialsUser(u)))));
      s.user.Some? && s.user.value.id == Some(store[email].id)
      && s.user.value.role == Some(ProviderRole(provider)) && s.user.value.isVerified == Some(true)
  {
  }

  /** After a first social sign-in the table holds a verified USER row, yet
      the session built from that sign-in carries no role and no
      verification flag: `jwt` copies them from the profile-based user
      object, which has neither, and the row is never read back. */
  lemma SocialSessionLacksRole(store: Store, profile: Profile, provider: string, freshId: string,
                               oauthId: string, token: Token, session: Session)
    requires IsSocialProvider(provider) && profile.email != "" && profile.email !in store
    requires session.user.Some?
    ensures var r := SignIn(store, profile, Some(provider), freshId);
      r.allowed && r.store[profile.email].role == USER && r.store[profile.email].isVerified
    ensures var s := SessionOf(session, Some(Jwt(token, Some(OAuthUser(oauthId, profile)))));
      s.user.Some? && s.user.value.role.None? && s.user.value.isVerified.None?
  {
  }

  /** A social profile without an e-mail is turned away and nothing is written. */
  lemma SocialSignInNeedsEmail(store: Store, profile: Profile, provider: string, freshId: string)
    requires IsSocialProvider(provider) && profile.email == ""
    ensures SignIn(store, profile, Some(provider), freshId) == SignInOutcome(store, false)
  {
  }
}
