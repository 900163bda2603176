# Credential authentication core of a Next.js auth app

This project models the credential decision logic of a Next.js application
with email/password sign-in (NextAuth Credentials provider, zod schemas,
bcryptjs, a Prisma `user` table), and proves properties of it in Dafny:

- `Schema` (schema.dfy): `FormData.get`, and zod's `z.object` of string fields
  with one `.email(msg)` or `.min(n, msg)` check each, parsed by `safeParse`
  and reported as `error.issues[0].message`.
- `Bcrypt` (bcrypt.dfy): `bcrypt.hash(password, 10)` and `bcrypt.compare`, over
  an abstract key derivation.
- `UserStore` (user_store.dfy): the `user` table as a class holding a map from
  the exact email string to the record, with `findUnique` and `create`.
- `Auth` (auth.dfy): the Credentials provider's `authorize`, the `authorized`
  callback, and `signIn`/`signOut` as the value they throw plus their effect
  on the session.
- `AuthActions` (actions.dfy): the server actions `loginAction`,
  `registerAction` and `logoutAction`.

Things the code takes from libraries or the outside world are parameters:
zod's email grammar (`Libs.isEmail`), bcrypt's key derivation (`Libs.kdf`),
the random salt bcrypt draws, and whether the database rejects an insert.
Nothing is assumed about them; in particular, two different passwords may
match the same digest (bcrypt truncates its input at 72 bytes).

The model follows the code in these details:

- The email is looked up exactly as submitted; nothing lowercases it.
- Register checks name, then email, then password, in the schema's
  declaration order.
- A duplicate email is caught by the `findUnique` before the insert. An insert
  that fails for any reason, a unique violation from a race included, is
  reported as "Failed to create user".
- A successful registration reads the store twice: once for the duplicate
  check, once inside `authorize` during the sign-in that follows.
- `registerAction` rethrows whatever `signIn` throws, an `AuthError` included.
  `RegisteredUserSignsIn` proves that after a successful insert it is always
  the redirect to `/dashboard`.

## Model

| member | source | states |
|---|---|---|
| Schema.Get | app/actions/auth.ts:21-24 | `formData.get(key)` is null exactly when no entry has that key; otherwise it is the first such entry's value |
| Schema.Utf16Length | app/actions/auth.ts:15-17 | `.min(n)` compares against the JavaScript length, which lies between the number of characters and twice that, and equals it when every character is in the Basic Multilingual Plane |
| Schema.Issues | app/actions/auth.ts:9-18 | a parse has no issues exactly when every key passes its check |
| Schema.FirstIssueIsFirstFailure | app/actions/auth.ts:26-29 | `issues[0]` is the issue of the first key in declaration order whose check fails |
| Schema.SafeParse | app/actions/auth.ts:21-30 | success exactly when every key passes, and then the data is the string under each key; otherwise the error is the message of the first failing key |
| Bcrypt.Hash | app/actions/auth.ts:75 | the digest records cost 10 and the given salt, and `compare` of the same password against it succeeds |
| Bcrypt.CompareRehashes | auth.ts:29 | `compare` re-derives the checksum with the digest's own cost and salt: against a cost-10 digest it succeeds exactly when hashing the password again with that salt reproduces the digest |
| Auth.Authorize | auth.ts:14-38 | null when the credentials fail the schema, when no record has exactly that email, or when the password does not match; otherwise exactly the record's id, email and name |
| Auth.MalformedCredentialsIgnoreStore | auth.ts:15-19 | malformed credentials give null whatever the store holds, so the store is not consulted |
| Auth.AuthorizedUserIsSubmitted | auth.ts:21-37 | on a store keyed by email, a non-null result has the submitted email, the stored record's id and name, and the password matches that record's digest |
| Auth.Authorized | auth.ts:45-47 | the gate admits a request exactly when a session is present |
| Auth.SignIn | app/actions/auth.ts:35-39 | throws `CredentialsSignin` (an `AuthError`) and leaves the session alone exactly when `authorize` is null; otherwise issues a session for the authorized user and throws the redirect |
| Auth.SignOut | app/actions/auth.ts:105 | clears the session and throws the redirect to the given path |
| UserStore.UserTable.FindUnique | app/actions/auth.ts:65-67 | finds a record exactly when one is stored under that exact email, and returns that record; the table's contents are unchanged and the lookup is appended to its query log |
| UserStore.UserTable.Create | app/actions/auth.ts:78-84 | fails, changing nothing, exactly when the database errs or the email is taken; otherwise adds one record with a fresh id and leaves every other record as it was; the table stays keyed by email with distinct ids; the insert is appended to the query log |
| AuthActions.LoginAction | app/actions/auth.ts:20-48 | a validation failure returns its message with no session; an unknown email and a wrong password both return "Invalid email or password" with no session; a match rethrows the redirect to `/dashboard` with a session for the stored user; no `AuthError` escapes |
| AuthActions.LoginDataIsWellFormed | auth.ts:15-17 | email and password that pass the login schema pass the schema `authorize` applies |
| AuthActions.LoginValidationMessages | app/actions/auth.ts:9-12 | a bad email string reports "Invalid email address"; with a good email, a short password string reports "Password must be at least 6 characters" |
| AuthActions.UnknownEmailLooksLikeWrongPassword | app/actions/auth.ts:40-45 | an unknown email and a known email with a wrong password produce identical responses |
| AuthActions.LoginValidationIgnoresStore | app/actions/auth.ts:26-30 | a login that fails validation responds the same whatever the store holds |
| AuthActions.LoginThenGate | app/actions/auth.ts:34-47 | after a login the gate admits the next request exactly when it did before or the login ended in the redirect |
| AuthActions.LogoutAction | app/actions/auth.ts:104-106 | logout always throws the redirect to `/login` and clears the session, so whatever session a request carried, the gate refuses the next one |
| AuthActions.LogoutThenGate | app/actions/auth.ts:104-106 | after a logout the gate refuses the next request, whatever session it carried |
| AuthActions.RegisterValidationMessages | app/actions/auth.ts:14-18 | a short name string reports "Name must be at least 2 characters" before anything else; then a bad email string "Invalid email address"; then a short password string "Password must be at least 6 characters" |
| AuthActions.ParseRegistration | app/actions/auth.ts:51-63 | the registration's name, email and password are the schema parse's data in declaration order, and a failed parse carries its message |
| AuthActions.RegisterDataPassesLogin | app/actions/auth.ts:14-18 | data that passes the registration schema passes the login schema with the same email and password |
| AuthActions.RegisteredUserSignsIn | app/actions/auth.ts:75-101 | after a record with the hash of the password is stored, `signIn` with that email and password issues a session for it and redirects to `/dashboard` |
| AuthActions.RegisterAction | app/actions/auth.ts:50-102 | a validation failure returns its message, sends the table no query and issues no session; an existing email returns "User with this email already exists" after exactly one lookup and no insert, table unchanged; a failed insert returns "Failed to create user" after one lookup and one insert, with no session issued; otherwise exactly one record `{name, email, hash}` is added, its digest matches the password, and the action ends in the redirect to `/dashboard` with a session for the new user |

## Left out

- Pages, layout and the register form component: rendering and form state. The page-level redirects on session presence are one-line conditionals.
- zod's email grammar: it is the parameter `Libs.isEmail`, about which nothing is assumed.
- zod's messages for non-string fields: modelled as zod's default `invalid_type` texts. The code only passes them through as `issues[0].message`.
- bcrypt internals (EksBlowfish, salt generation, the 72-byte truncation, constant-time comparison, timing): the key derivation is the parameter `Libs.kdf`, and the salt is a parameter of `RegisterAction`.
- NextAuth's session, cookie and JWT issuance, token expiry, `pages.signIn`, and the internal HTTP round trip of `signIn`: a session is a value (`SessionChange`, `NextSession`), and a redirect is a thrown value.
- Prisma, the database and `console.error` logging: the table is a map, and a failed insert is the `createFails` parameter. The database's id generation is not part of this model; ids come from a counter.
- `findUnique` is assumed never to fail. In the code a failing lookup in `registerAction` (app/actions/auth.ts:65-67) escapes the action uncaught. In `authorize` (auth.ts:23-25) the error is wrapped by NextAuth as an `AuthError`, which `loginAction` reports as "Invalid email or password". The model captures neither path.
- The query log records the table queries of `registerAction` itself. The lookup that `authorize` performs during the `signIn` that follows a successful insert reads the table snapshot and is not logged. The call to `bcrypt.hash` is not observable in the model, so no claim is made about when it happens.
- Concurrency: the race between `findUnique` and `create` appears only as an insert that may fail.
- The database collation: lookups compare email strings exactly.
- Asynchrony: every `await` is modelled as a sequential step.
