/**
 * `authenticateToken` (backend/src/middleware/auth.middleware.js): from the
 * Authorization header, the User collection and the token library to exactly one of
 * four outcomes. The first three answer the request; only the last calls `next()`.
 */
module AuthMiddleware {
  import opened Wrappers
  import opened JsString
  import opened Crypto
  import opened Http
  import UserModel

  datatype AuthOutcome =
    | MissingToken                          // 401 "Access token required"
    | InvalidToken                          // 403 "Invalid or expired token"
    | UnknownUser                           // 401 "Invalid token"
    | Authenticated(user: UserModel.User)   // req.user = user; next()

  /** `authHeader && authHeader.split(' ')[1]`, kept only when truthy. The first word
      is never compared with "Bearer". */
  function BearerToken(header: Option<string>): (token: Option<string>)
    ensures header.None? ==> token.None?
    ensures token.Some? ==> token.value != "" && ' ' !in token.value
  {
    if header.None? || header.value == "" then None
    else
      var parts := Split(header.value, ' ');
      SplitSegmentsFree(header.value, ' ');
      if |parts| < 2 || parts[1] == "" then None else Some(parts[1])
  }

  /** The token is the second space-separated word, whatever the first word is and
      whatever follows; a second word that is empty (two spaces) means no token. */
  lemma TokenIsSecondWord(scheme: string, token: string, tail: string)
    requires ' ' !in scheme && ' ' !in token
    requires tail == "" || tail[0] == ' '
    ensures BearerToken(Some(scheme + " " + token + tail)) == if token == "" then None else Some(token)
  {
    var h := scheme + " " + token + tail;
    assert h == scheme + [' '] + (token + tail);
    SplitAfterWord(scheme, ' ', token + tail);
    if tail == "" {
      assert token + tail == token;
      SplitWord(token, ' ');
    } else {
      assert token + tail == token + [' '] + tail[1..];
      SplitAfterWord(token, ' ', tail[1..]);
    }
  }

  /** A header with no space at all carries no token. */
  lemma NoSpaceNoToken(h: string)
    requires ' ' !in h
    ensures BearerToken(Some(h)) == None
  {
    if h != "" {
      SplitWord(h, ' ');
    }
  }

  /** The decision `authenticateToken` takes. `fault` stands for `User.findById`
      throwing, which the catch block answers like a failed verification. */
  function Authenticate(header: Option<string>, users: seq<UserModel.User>, jwt: Jwt,
                        env: Option<string>, now: int, fault: bool): (r: AuthOutcome)
    ensures r == MissingToken <==> BearerToken(header).None?
    ensures r.Authenticated? ==>
      && r.user in users
      && jwt.verify(BearerToken(header).value, SigningSecret(env), now).Valid?
      && jwt.verify(BearerToken(header).value, SigningSecret(env), now).claims.userId == r.user.id
    ensures r == UnknownUser ==>
      && jwt.verify(BearerToken(header).value, SigningSecret(env), now).Valid?
      && forall u :: u in users ==> u.id != jwt.verify(BearerToken(header).value, SigningSecret(env), now).claims.userId
    ensures r == InvalidToken <==>
      BearerToken(header).Some? && (fault || jwt.verify(BearerToken(header).value, SigningSecret(env), now).Invalid?)
  {
    match BearerToken(header)
    case None => MissingToken
    case Some(token) =>
      match jwt.verify(token, SigningSecret(env), now)
      case Invalid(_) => InvalidToken
      case Valid(claims) =>
        if fault then InvalidToken
        else
          match UserModel.FindById(users, claims.userId)
          case None => UnknownUser
          case Some(k) => Authenticated(users[k])
  }

  /** The response sent, or `None` when `next()` is called instead: on every path
      exactly one of the two happens. */
  function Reply(o: AuthOutcome): (r: Option<Response>)
    ensures r.None? <==> o.Authenticated?
    ensures r.Some? ==> r.value.status == (if o == InvalidToken then 403 else 401)
    ensures o == MissingToken ==> r == Some(Response(401, ErrorBody("Access token required")))
    ensures o == InvalidToken ==> r == Some(Response(403, ErrorBody("Invalid or expired token")))
    ensures o == UnknownUser ==> r == Some(Response(401, ErrorBody("Invalid token")))
  {
    match o
    case MissingToken => Some(Response(401, ErrorBody("Access token required")))
    case InvalidToken => Some(Response(403, ErrorBody("Invalid or expired token")))
    case UnknownUser => Some(Response(401, ErrorBody("Invalid token")))
    case Authenticated(_) => None
  }

  /** Any scheme word works: `Basic <token>` authenticates exactly as `Bearer <token>`. */
  lemma SchemeIgnored(scheme: string, token: string, users: seq<UserModel.User>, jwt: Jwt,
                      env: Option<string>, now: int, fault: bool)
    requires ' ' !in scheme && ' ' !in token
    ensures Authenticate(Some(scheme + " " + token), users, jwt, env, now, fault)
         == Authenticate(Some("Bearer " + token), users, jwt, env, now, fault)
  {
    TokenIsSecondWord(scheme, token, "");
    TokenIsSecondWord("Bearer", token, "");
    assert scheme + " " + token + "" == scheme + " " + token;
    assert "Bearer" + " " + token + "" == "Bearer " + token;
  }

  /** A token signed with the server's secret for an existing user authenticates as
      that user until it expires, and is rejected with 403 from then on. */
  lemma SignedTokenAuthenticates(users: seq<UserModel.User>, k: nat, jwt: Jwt,
                                 env: Option<string>, exp: int, now: int)
    requires JwtAxioms(jwt) && UserModel.IdsDistinct(users) && k < |users|
    ensures var token := jwt.sign(Claims(users[k].id, users[k].email), SigningSecret(env), exp);
      Authenticate(Some("Bearer " + token), users, jwt, env, now, false)
        == if now < exp then Authenticated(users[k]) else InvalidToken
  {
    var token := jwt.sign(Claims(users[k].id, users[k].email), SigningSecret(env), exp);
    assert Compact(token);
    TokenIsSecondWord("Bearer", token, "");
    assert "Bearer" + " " + token + "" == "Bearer " + token;
    UserModel.FindByIdUnique(users, k);
  }

  /** A token signed with any other secret is rejected with 403. */
  lemma ForeignSecretRejected(users: seq<UserModel.User>, jwt: Jwt, claims: Claims, key: string,
                              env: Option<string>, exp: int, now: int)
    requires JwtAxioms(jwt) && key != SigningSecret(env)
    ensures Authenticate(Some("Bearer " + jwt.sign(claims, key, exp)), users, jwt, env, now, false) == InvalidToken
  {
    var token := jwt.sign(claims, key, exp);
    assert Compact(token);
    TokenIsSecondWord("Bearer", token, "");
    assert "Bearer" + " " + token + "" == "Bearer " + token;
  }

  /** A token whose claims name no stored User (a deleted or never-existing account) is
      rejected with 401 even though its signature is good. */
  lemma UnknownUserRejected(users: seq<UserModel.User>, jwt: Jwt, claims: Claims,
                            env: Option<string>, exp: int, now: int)
    requires JwtAxioms(jwt) && now < exp
    requires forall u :: u in users ==> u.id != claims.userId
    ensures Authenticate(Some("Bearer " + jwt.sign(claims, SigningSecret(env), exp)), users, jwt, env, now, false)
         == UnknownUser
  {
    var token := jwt.sign(claims, SigningSecret(env), exp);
    assert Compact(token);
    TokenIsSecondWord("Bearer", token, "");
    assert "Bearer" + " " + token + "" == "Bearer " + token;
  }

  /** Whoever authenticates presented, in the header, an unexpired token signed with the
      server's secret over claims naming that very user. */
  lemma AuthenticatedMeansSigned(header: Option<string>, users: seq<UserModel.User>, jwt: Jwt,
                                 env: Option<string>, now: int, fault: bool)
    requires JwtAxioms(jwt)
    requires Authenticate(header, users, jwt, env, now, fault).Authenticated?
    ensures var id := Authenticate(header, users, jwt, env, now, fault).user.id;
      exists email, exp :: now < exp && BearerToken(header) == Some(jwt.sign(Claims(id, email), SigningSecret(env), exp))
  {
    var token := BearerToken(header).value;
    var claims := jwt.verify(token, SigningSecret(env), now).claims;
    var exp :| now < exp && token == jwt.sign(claims, SigningSecret(env), exp);
    assert BearerToken(header) == Some(jwt.sign(Claims(claims.userId, claims.email), SigningSecret(env), exp));
  }
}
