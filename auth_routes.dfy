/**
 * `/auth/register` and `/auth/login` (backend/src/routes/auth.routes.js).
 * `fault` stands for any call in the handler throwing (a store, hashing or signing
 * failure), which the catch block answers with 500.
 */
module AuthRoutes {
  import opened Wrappers
  import opened Crypto
  import opened Http
  import opened UserModel
  import AuthMiddleware

  const AlreadyExists := Response(400, ErrorBody("User already exists"))
  const RegistrationFailed := Response(500, ErrorBody("Registration failed"))
  const InvalidCredentials := Response(401, ErrorBody("Invalid credentials"))
  const LoginFailed := Response(500, ErrorBody("Login failed"))

  /** Register: refuse an email already on record, otherwise store the User with
      `bcrypt.hash(password, 10)` (under the random `salt`) in place of the password. */
  method Register(db: UserCollection, body: Credentials, bcrypt: Bcrypt, salt: string, fault: bool)
    returns (r: Response)
    requires db.Valid()
    modifies db
    ensures db.Valid()
    ensures fault ==> r == RegistrationFailed && db.users == old(db.users)
    ensures !fault && FindByEmail(old(db.users), body.email).Some? ==>
      r == AlreadyExists && db.users == old(db.users)
    ensures !fault && FindByEmail(old(db.users), body.email).None? ==>
      match Validate(old(db.nextId), body.username, body.email, bcrypt.hash(body.password, SaltRounds, salt))
      case None => r == RegistrationFailed && db.users == old(db.users)
      case Some(u) =>
        && u.password == bcrypt.hash(body.password, SaltRounds, salt)
        && db.users == old(db.users) + [u]
        && r == Response(201, UserBody("User registered successfully", ToView(u)))
    ensures EmailsDistinct(old(db.users)) ==> EmailsDistinct(db.users)
  {
    if fault {
      return RegistrationFailed;
    }
    var existing := FindByEmail(db.users, body.email);
    if existing.Some? {
      return AlreadyExists;
    }
    var hashed := bcrypt.hash(body.password, SaltRounds, salt);
    var created := db.Insert(body.username, body.email, hashed);
    if created.None? {
      return RegistrationFailed;
    }
    r := Response(201, UserBody("User registered successfully", ToView(created.value)));
  }

  /** Login: the same 401 for an unknown email and for a wrong password; otherwise a
      token over `{userId, email}` expiring seven days from `now`. */
  function Login(users: seq<User>, body: Credentials, bcrypt: Bcrypt, jwt: Jwt,
                 env: Option<string>, now: int, fault: bool): (r: Response)
    ensures fault <==> r == LoginFailed
    ensures !fault ==>
      (r.status == 200 <==>
        FindByEmail(users, body.email).Some? && bcrypt.compare(body.password, users[FindByEmail(users, body.email).value].password))
    ensures r.status == 401 ==> r == InvalidCredentials
    ensures !fault && r.status != 200 ==> r == InvalidCredentials
    ensures r.status == 200 ==>
      var k := FindByEmail(users, body.email);
      && k.Some?
      && bcrypt.compare(body.password, users[k.value].password)
      && r.body == LoginBody("Login successful",
           jwt.sign(Claims(users[k.value].id, users[k.value].email), SigningSecret(env), now + SevenDays),
           ToView(users[k.value]))
    ensures r.status in {200, 401, 500}
  {
    if fault then LoginFailed
    else
      match FindByEmail(users, body.email)
      case None => InvalidCredentials
      case Some(k) =>
        var user := users[k];
        if !bcrypt.compare(body.password, user.password) then InvalidCredentials
        else
          var token := jwt.sign(Claims(user.id, user.email), SigningSecret(env), now + SevenDays);
          Response(200, LoginBody("Login successful", token, ToView(user)))
  }

  /** An unknown email and a wrong password are indistinguishable to the client. */
  lemma NoAccountEnumeration(users: seq<User>, unknown: Credentials, wrong: Credentials,
                             bcrypt: Bcrypt, jwt: Jwt, env: Option<string>, now: int)
    requires forall u :: u in users ==> u.email != unknown.email
    requires FindByEmail(users, wrong.email).Some?
    requires !bcrypt.compare(wrong.password, users[FindByEmail(users, wrong.email).value].password)
    ensures Login(users, unknown, bcrypt, jwt, env, now, false)
         == Login(users, wrong, bcrypt, jwt, env, now, false)
         == InvalidCredentials
  {
  }

  /** A registered User logs in with the password it registered with. */
  lemma RegisteredUserLogsIn(users: seq<User>, k: nat, password: string, salt: string,
                             bcrypt: Bcrypt, jwt: Jwt, env: Option<string>, now: int)
    requires BcryptAxioms(bcrypt) && EmailsDistinct(users) && k < |users|
    requires users[k].password == bcrypt.hash(password, SaltRounds, salt)
    ensures Login(users, Credentials("", users[k].email, password), bcrypt, jwt, env, now, false)
         == Response(200, LoginBody("Login successful",
              jwt.sign(Claims(users[k].id, users[k].email), SigningSecret(env), now + SevenDays),
              ToView(users[k])))
  {
    FindByEmailUnique(users, k);
  }

  /** Any other password is refused with the same 401 as an unknown email. */
  lemma WrongPasswordRefused(users: seq<User>, k: nat, password: string, guess: string, salt: string,
                             bcrypt: Bcrypt, jwt: Jwt, env: Option<string>, now: int)
    requires BcryptAxioms(bcrypt) && EmailsDistinct(users) && k < |users|
    requires users[k].password == bcrypt.hash(password, SaltRounds, salt) && guess != password
    ensures Login(users, Credentials("", users[k].email, guess), bcrypt, jwt, env, now, false)
         == InvalidCredentials
  {
    FindByEmailUnique(users, k);
  }

  /** The token a successful login returns authenticates that same User at the identity
      resolver for seven days, and is rejected with 403 from then on. */
  lemma LoginTokenAuthenticates(users: seq<User>, body: Credentials, bcrypt: Bcrypt, jwt: Jwt,
                                env: Option<string>, issuedAt: int, now: int)
    requires JwtAxioms(jwt) && IdsDistinct(users) && EmailsDistinct(users)
    requires Login(users, body, bcrypt, jwt, env, issuedAt, false).status == 200
    ensures var k := FindByEmail(users, body.email).value;
      var token := Login(users, body, bcrypt, jwt, env, issuedAt, false).body.token;
      AuthMiddleware.Authenticate(Some("Bearer " + token), users, jwt, env, now, false)
        == if now < issuedAt + SevenDays then AuthMiddleware.Authenticated(users[k]) else AuthMiddleware.InvalidToken
  {
    var k := FindByEmail(users, body.email).value;
    AuthMiddleware.SignedTokenAuthenticates(users, k, jwt, env, issuedAt + SevenDays, now);
  }
}
