/**
 * The NextAuth configuration: the Credentials provider's `authorize`, the
 * `authorized` callback, and the outcome of `signIn`/`signOut` as values.
 */
module Auth {
  import opened Wrappers
  import opened Schema
  import Bcrypt
  import opened UserStore

  /** The two library operations the model leaves abstract: zod's email grammar and bcrypt's key derivation. */
  datatype Libs = Libs(isEmail: string -> bool, kdf: Bcrypt.Kdf)

  /** The schema `authorize` parses its credentials with; the messages are zod's defaults and are discarded. */
  const CredentialsSchema: ObjectSchema :=
    [Field("email", Email("Invalid email")),
     Field("password", MinLength(6, "String must contain at least 6 character(s)"))]

  /** The user projection `authorize` returns; it has no password field. */
  datatype AuthUser = AuthUser(id: nat, email: string, name: string)

  function Public(u: UserRecord): AuthUser
  {
    AuthUser(u.id, u.email, u.name)
  }

  function SubmittedEmail(credentials: FormData): string
  {
    TextOf(Get(credentials, "email"))
  }

  function SubmittedPassword(credentials: FormData): string
  {
    TextOf(Get(credentials, "password"))
  }

  /** Credentials of the right shape: an email string and a password of at least 6 UTF-16 units. */
  predicate WellFormed(isEmail: string -> bool, credentials: FormData)
  {
    Get(credentials, "email").Text? && Get(credentials, "password").Text? &&
    isEmail(SubmittedEmail(credentials)) && Utf16Length(SubmittedPassword(credentials)) >= 6
  }

  /**
   * `authorize(credentials)`: null unless the credentials are well formed, a
   * record exists under exactly that email, and the password matches its
   * digest; then the record's id, email and name. It reads `users` and
   * never changes it.
   */
  function Authorize(libs: Libs, credentials: FormData, users: map<string, UserRecord>): (r: Option<AuthUser>)
    ensures !WellFormed(libs.isEmail, credentials) ==> r == None
    ensures r.Some? <==>
      WellFormed(libs.isEmail, credentials) && SubmittedEmail(credentials) in users &&
      Bcrypt.Matches(libs.kdf, SubmittedPassword(credentials), users[SubmittedEmail(credentials)].password)
    ensures r.Some? ==> r.value == Public(users[SubmittedEmail(credentials)])
  {
    assert CredentialsSchema[0].key == "email" && CredentialsSchema[1].key == "password";
    match SafeParse(CredentialsSchema, credentials, libs.isEmail)
    case Failure(_) =>
      assert !Passes(CredentialsSchema[0], credentials, libs.isEmail) || !Passes(CredentialsSchema[1], credentials, libs.isEmail);
      None
    case Success(data) =>
      var email, password := data[0], data[1];
      if email !in users then None
      else if !Bcrypt.Matches(libs.kdf, password, users[email].password) then None
      else Some(Public(users[email]))
  }

  /** The result is the same whichever store is consulted when the credentials are malformed: no lookup happens. */
  lemma MalformedCredentialsIgnoreStore(libs: Libs, credentials: FormData, users1: map<string, UserRecord>, users2: map<string, UserRecord>)
    requires !WellFormed(libs.isEmail, credentials)
    ensures Authorize(libs, credentials, users1) == Authorize(libs, credentials, users2) == None
  {
  }

  /** On a store keyed by email, a successful sign-in names the submitted email and a record whose digest the password matches. */
  lemma AuthorizedUserIsSubmitted(libs: Libs, credentials: FormData, users: map<string, UserRecord>)
    requires KeyedByEmail(users)
    requires Authorize(libs, credentials, users).Some?
    ensures var u := Authorize(libs, credentials, users).value;
      Get(credentials, "email") == Text(u.email) && u.email in users &&
      users[u.email].id == u.id && users[u.email].name == u.name &&
      Bcrypt.Matches(libs.kdf, SubmittedPassword(credentials), users[u.email].password)
  {
  }

  /** A session as the `authorized` callback receives it. */
  datatype Session = Session(user: AuthUser)

  /** `authorized: ({ auth }) => !!auth`: access exactly when a session is present. */
  function Authorized(auth: Option<Session>): (allowed: bool)
    ensures allowed <==> auth != None
  {
    auth.Some?
  }

  /** What `signIn` throws: the `NEXT_REDIRECT` signal, or `CredentialsSignin`, an `AuthError`. */
  datatype Thrown = NextRedirect(url: string) | CredentialsSignin

  predicate IsAuthError(t: Thrown)
  {
    t.CredentialsSignin?
  }

  /** What a NextAuth call does to the session cookie. */
  datatype SessionChange = Unchanged | Issued(user: AuthUser) | Cleared

  /** The session the next request carries after a change. */
  function NextSession(current: Option<Session>, change: SessionChange): (next: Option<Session>)
    ensures change.Unchanged? ==> next == current
    ensures change.Issued? ==> next == Some(Session(change.user))
    ensures change.Cleared? ==> next == None
  {
    match change
    case Unchanged => current
    case Issued(u) => Some(Session(u))
    case Cleared => None
  }

  /** How a NextAuth call leaves the action: always by a throw, with its effect on the session. */
  datatype Signal = Signal(thrown: Thrown, session: SessionChange)

  /** The credentials object `signIn("credentials", { email, password, ... })` hands to `authorize`. */
  function SignInCredentials(email: string, password: string): FormData
  {
    [("email", TextEntry(email)), ("password", TextEntry(password))]
  }

  /**
   * `signIn("credentials", { email, password, redirectTo })` with redirection
   * on: a session for the authorized user and a redirect, or `CredentialsSignin`
   * when `authorize` returns null.
   */
  function SignIn(libs: Libs, users: map<string, UserRecord>, email: string, password: string, redirectTo: string): (s: Signal)
    ensures IsAuthError(s.thrown) <==> Authorize(libs, SignInCredentials(email, password), users) == None
    ensures IsAuthError(s.thrown) ==> s.session == Unchanged
    ensures !IsAuthError(s.thrown) ==>
      s.thrown == NextRedirect(redirectTo) && s.session.Issued? &&
      Some(s.session.user) == Authorize(libs, SignInCredentials(email, password), users)
  {
    match Authorize(libs, SignInCredentials(email, password), users)
    case None => Signal(CredentialsSignin, Unchanged)
    case Some(u) => Signal(NextRedirect(redirectTo), Issued(u))
  }

  /** `signOut({ redirectTo })`: the session is cleared and the request redirected. */
  function SignOut(redirectTo: string): (s: Signal)
    ensures s.thrown == NextRedirect(redirectTo) && s.session == Cleared
  {
    Signal(NextRedirect(redirectTo), Cleared)
  }
}
