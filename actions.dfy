/**
 * The server actions behind the login, registration and logout forms. Each
 * action either returns `{ error }` or leaves by the throw of a NextAuth call.
 */
module AuthActions {
  import opened Wrappers
  import opened Schema
  import Bcrypt
  import opened UserStore
  import opened Auth

  const InvalidEmailAddress := "Invalid email address"
  const PasswordTooShort := "Password must be at least 6 characters"
  const NameTooShort := "Name must be at least 2 characters"
  const InvalidCredentials := "Invalid email or password"
  const UserExists := "User with this email already exists"
  const CreateFailed := "Failed to create user"
  const DashboardPath := "/dashboard"
  const LoginPath := "/login"

  const LoginSchema: ObjectSchema :=
    [Field("email", Email(InvalidEmailAddress)),
     Field("password", MinLength(6, PasswordTooShort))]

  const RegisterSchema: ObjectSchema :=
    [Field("name", MinLength(2, NameTooShort)),
     Field("email", Email(InvalidEmailAddress)),
     Field("password", MinLength(6, PasswordTooShort))]

  /** How an action ends: it returns `{ error: message }` or rethrows what a NextAuth call threw. */
  datatype ActionResult = ReturnedError(message: string) | Threw(thrown: Thrown)

  /** An action's result together with what it did to the session. */
  datatype Response = Response(result: ActionResult, session: SessionChange)

  /**
   * `loginAction(formData)`. A validation failure returns the first failing
   * field's message and signs nobody in; an `AuthError` from `signIn` becomes
   * the one generic message, whether the email is unknown or the password
   * wrong; the success redirect is rethrown with a session for the stored user.
   */
  function LoginAction(libs: Libs, users: map<string, UserRecord>, form: FormData): (r: Response)
    ensures var p := SafeParse(LoginSchema, form, libs.isEmail);
      p.Failure? ==> r == Response(ReturnedError(p.error), Unchanged)
    ensures var p := SafeParse(LoginSchema, form, libs.isEmail);
      p.Success? && (p.value[0] !in users || !Bcrypt.Matches(libs.kdf, p.value[1], users[p.value[0]].password)) ==>
        r == Response(ReturnedError(InvalidCredentials), Unchanged)
    ensures var p := SafeParse(LoginSchema, form, libs.isEmail);
      p.Success? && p.value[0] in users && Bcrypt.Matches(libs.kdf, p.value[1], users[p.value[0]].password) ==>
        r == Response(Threw(NextRedirect(DashboardPath)), Issued(Public(users[p.value[0]])))
    ensures r.result.Threw? ==> r.result.thrown == NextRedirect(DashboardPath) && r.session.Issued?
    ensures !r.session.Cleared?
  {
    match SafeParse(LoginSchema, form, libs.isEmail)
    case Failure(message) => Response(ReturnedError(message), Unchanged)
    case Success(data) =>
      LoginDataIsWellFormed(libs.isEmail, form, data);
      var s := SignIn(libs, users, data[0], data[1], DashboardPath);
      if IsAuthError(s.thrown) then Response(ReturnedError(InvalidCredentials), s.session)
      else Response(Threw(s.thrown), s.session)
  }

  /** Data that passed the login schema passes the schema `authorize` applies. */
  lemma LoginDataIsWellFormed(isEmail: string -> bool, form: FormData, data: seq<string>)
    requires SafeParse(LoginSchema, form, isEmail) == Success(data)
    ensures |data| == 2
    ensures WellFormed(isEmail, SignInCredentials(data[0], data[1]))
    ensures SubmittedEmail(SignInCredentials(data[0], data[1])) == data[0]
    ensures SubmittedPassword(SignInCredentials(data[0], data[1])) == data[1]
  {
  }

  /**
   * Enumeration resistance: an unknown email and a known email with a wrong
   * password produce the same response.
   */
  lemma UnknownEmailLooksLikeWrongPassword(libs: Libs, users: map<string, UserRecord>, unknown: FormData, wrong: FormData)
    requires SafeParse(LoginSchema, unknown, libs.isEmail).Success?
    requires SafeParse(LoginSchema, wrong, libs.isEmail).Success?
    requires SafeParse(LoginSchema, unknown, libs.isEmail).value[0] !in users
    requires var d := SafeParse(LoginSchema, wrong, libs.isEmail).value;
      d[0] in users && !Bcrypt.Matches(libs.kdf, d[1], users[d[0]].password)
    ensures LoginAction(libs, users, unknown) == LoginAction(libs, users, wrong)
  {
  }

  /** A validation failure is decided before the store is consulted: the response is the same whatever the store holds. */
  lemma LoginValidationIgnoresStore(libs: Libs, users1: map<string, UserRecord>, users2: map<string, UserRecord>, form: FormData)
    requires SafeParse(LoginSchema, form, libs.isEmail).Failure?
    ensures LoginAction(libs, users1, form) == LoginAction(libs, users2, form)
  {
  }

  /** After a login the gate admits the next request exactly when it admitted it before or the login succeeded. */
  lemma LoginThenGate(libs: Libs, users: map<string, UserRecord>, form: FormData, current: Option<Session>)
    ensures var r := LoginAction(libs, users, form);
      Authorized(NextSession(current, r.session)) <==> Authorized(current) || r.result.Threw?
  {
  }

  /**
   * The login form's validation message: the email is checked before the
   * password, and each string field fails with its own custom message.
   */
  lemma LoginValidationMessages(isEmail: string -> bool, form: FormData)
    ensures Get(form, "email").Text? && !isEmail(Get(form, "email").s) ==>
      SafeParse(LoginSchema, form, isEmail) == Failure(InvalidEmailAddress)
    ensures (Get(form, "email").Text? && isEmail(Get(form, "email").s) &&
             Get(form, "password").Text? && Utf16Length(Get(form, "password").s) < 6) ==>
        SafeParse(LoginSchema, form, isEmail) == Failure(PasswordTooShort)
  {
    if Get(form, "email").Text? && !isEmail(Get(form, "email").s) {
      assert FailsFirstAt(LoginSchema, form, isEmail, 0);
    }
    if Get(form, "email").Text? && isEmail(Get(form, "email").s) &&
      Get(form, "password").Text? && Utf16Length(Get(form, "password").s) < 6 {
      assert FailsFirstAt(LoginSchema, form, isEmail, 1);
    }
  }

  /** `logoutAction()`: signs out and redirects to the login page. */
  function LogoutAction(): (r: Response)
    ensures r.result == Threw(NextRedirect(LoginPath))
    ensures r.session == Cleared
    ensures forall current :: !Authorized(NextSession(current, r.session))
  {
    var s := SignOut(LoginPath);
    Response(Threw(s.thrown), s.session)
  }

  /** After a logout the gate refuses the next request, whatever session it had. */
  lemma LogoutThenGate(current: Option<Session>)
    ensures !Authorized(NextSession(current, LogoutAction().session))
  {
  }

  /**
   * The registration form's validation message: name, then email, then
   * password, each string field failing with its own custom message.
   */
  lemma RegisterValidationMessages(isEmail: string -> bool, form: FormData)
    ensures Get(form, "name").Text? && Utf16Length(Get(form, "name").s) < 2 ==>
      SafeParse(RegisterSchema, form, isEmail) == Failure(NameTooShort)
    ensures (Get(form, "name").Text? && Utf16Length(Get(form, "name").s) >= 2 &&
             Get(form, "email").Text? && !isEmail(Get(form, "email").s)) ==>
        SafeParse(RegisterSchema, form, isEmail) == Failure(InvalidEmailAddress)
    ensures (Get(form, "name").Text? && Utf16Length(Get(form, "name").s) >= 2 &&
             Get(form, "email").Text? && isEmail(Get(form, "email").s) &&
             Get(form, "password").Text? && Utf16Length(Get(form, "password").s) < 6) ==>
        SafeParse(RegisterSchema, form, isEmail) == Failure(PasswordTooShort)
  {
    var name, email, password := Get(form, "name"), Get(form, "email"), Get(form, "password");
    if name.Text? && Utf16Length(name.s) < 2 {
      assert FailsFirstAt(RegisterSchema, form, isEmail, 0);
    }
    if name.Text? && Utf16Length(name.s) >= 2 && email.Text? && !isEmail(email.s) {
      assert FailsFirstAt(RegisterSchema, form, isEmail, 1);
    }
    if name.Text? && Utf16Length(name.s) >= 2 && email.Text? && isEmail(email.s) &&
      password.Text? && Utf16Length(password.s) < 6 {
      assert FailsFirstAt(RegisterSchema, form, isEmail, 2);
    }
  }

  /** Data that passed the registration schema passes the login schema with the same email and password. */
  lemma {:induction false} RegisterDataPassesLogin(isEmail: string -> bool, form: FormData)
    requires SafeParse(RegisterSchema, form, isEmail).Success?
    ensures var d := SafeParse(RegisterSchema, form, isEmail).value;
      |d| == 3 && SafeParse(LoginSchema, form, isEmail) == Success([d[1], d[2]])
  {
    var d := SafeParse(RegisterSchema, form, isEmail).value;
    assert Passes(RegisterSchema[1], form, isEmail) && Passes(RegisterSchema[2], form, isEmail);
    assert Passes(LoginSchema[0], form, isEmail) && Passes(LoginSchema[1], form, isEmail);
    var p := SafeParse(LoginSchema, form, isEmail);
    assert Get(form, "email") == Text(d[1]) && Get(form, "password") == Text(d[2]);
    assert p.value == [d[1], d[2]];
  }

  /** `validatedFields.data` of a registration. */
  datatype Registration = Registration(name: string, email: string, password: string)

  /** The registration schema's parse, read into its three fields. */
  function ParseRegistration(isEmail: string -> bool, form: FormData): (r: Result<Registration, string>)
    ensures r.Failure? ==> SafeParse(RegisterSchema, form, isEmail) == Failure(r.error)
    ensures r.Success? ==>
      SafeParse(RegisterSchema, form, isEmail) == Success([r.value.name, r.value.email, r.value.password])
  {
    match SafeParse(RegisterSchema, form, isEmail)
    case Failure(message) => Failure(message)
    case Success(d) =>
      assert d == [d[0], d[1], d[2]];
      Success(Registration(d[0], d[1], d[2]))
  }

  /**
   * Round trip: once a record for registration data is stored with the hash
   * of its password, signing in with that email and password authorizes it.
   */
  lemma {:induction false} RegisteredUserSignsIn(libs: Libs, users: map<string, UserRecord>, form: FormData, reg: Registration, salt: Bcrypt.Bytes, id: nat)
    requires ParseRegistration(libs.isEmail, form) == Success(reg)
    ensures SignIn(libs, users[reg.email := UserRecord(id, reg.name, reg.email, Bcrypt.Hash(libs.kdf, reg.password, salt))],
                   reg.email, reg.password, DashboardPath)
      == Signal(NextRedirect(DashboardPath), Issued(AuthUser(id, reg.email, reg.name)))
  {
    RegisterDataPassesLogin(libs.isEmail, form);
    LoginDataIsWellFormed(libs.isEmail, form, [reg.email, reg.password]);
  }

  /**
   * `registerAction(formData)` against the user table. `salt` is the salt
   * bcrypt draws and `createFails` whether the database rejects the insert.
   */
  method RegisterAction(db: UserTable, libs: Libs, form: FormData, salt: Bcrypt.Bytes, createFails: bool)
    returns (r: Response)
    requires db.Valid()
    modifies db
    ensures db.Valid()
    ensures var p := ParseRegistration(libs.isEmail, form);
      p.Failure? ==>
        r == Response(ReturnedError(p.error), Unchanged) && db.log == old(db.log) &&
        db.rows == old(db.rows) && db.nextId == old(db.nextId)
    ensures var p := ParseRegistration(libs.isEmail, form);
      p.Success? && p.value.email in old(db.rows) ==>
        r == Response(ReturnedError(UserExists), Unchanged) && db.log == old(db.log) + [FindByEmail(p.value.email)] &&
        db.rows == old(db.rows) && db.nextId == old(db.nextId)
    ensures var p := ParseRegistration(libs.isEmail, form);
      p.Success? && p.value.email !in old(db.rows) && createFails ==>
        r == Response(ReturnedError(CreateFailed), Unchanged) &&
        db.log == old(db.log) + [FindByEmail(p.value.email), Insert(p.value.email)] &&
        db.rows == old(db.rows) && db.nextId == old(db.nextId)
    ensures var p := ParseRegistration(libs.isEmail, form);
      p.Success? && p.value.email !in old(db.rows) && !createFails ==>
        var Registration(name, email, password) := p.value;
        db.rows == old(db.rows)[email := UserRecord(old(db.nextId), name, email, Bcrypt.Hash(libs.kdf, password, salt))] &&
        db.nextId == old(db.nextId) + 1 &&
        r == Response(Threw(NextRedirect(DashboardPath)), Issued(AuthUser(old(db.nextId), email, name))) &&
        db.log == old(db.log) + [FindByEmail(email), Insert(email)]
  {
    var parsed := ParseRegistration(libs.isEmail, form);
    if parsed.Failure? {
      r := Response(ReturnedError(parsed.error), Unchanged);
      return;
    }
    var Registration(name, email, password) := parsed.value;

    var existing := db.FindUnique(email);
    if existing.Some? {
      r := Response(ReturnedError(UserExists), Unchanged);
      return;
    }

    var hashed := Bcrypt.Hash(libs.kdf, password, salt);
    ghost var before := db.rows;
    var created := db.Create(name, email, hashed, createFails);
    if created.None? {
      r := Response(ReturnedError(CreateFailed), Unchanged);
      return;
    }

    // signIn's throw, the success redirect or otherwise, is rethrown as is.
    RegisteredUserSignsIn(libs, before, form, parsed.value, salt, created.value.id);
    var s := SignIn(libs, db.rows, email, password, DashboardPath);
    r := Response(Threw(s.thrown), s.session);
  }
}
