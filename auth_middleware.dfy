/** `verifyJWT`: the middleware that authenticates a request by its access token before any
    protected handler runs. It reads the user collection and never writes it. */
module AuthMiddleware {
  import opened Js
  import opened UserModel
  import opened Db

  /** What the middleware does with a request: reject it with a status (the next handler is
      never called), or attach the authenticated user and call the next handler. */
  datatype AuthResult = Rejected(statusCode: int) | Authenticated(user: PublicUser)

  const BearerPrefix := "Bearer "

  /** `req.cookies?.accessToken || req.headers?.authorization?.replace("Bearer ", "")`:
      the cookie when it is non-empty, otherwise the Authorization header with its first
      "Bearer " removed. */
  function ExtractToken(cookie: Option<string>, authorization: Option<string>): (t: Option<string>)
    ensures Truthy(cookie) ==> t == cookie
    ensures !Truthy(cookie) && authorization.None? ==> !Truthy(t)
    ensures !Truthy(cookie) && authorization.Some? && OccursAt(authorization.value, BearerPrefix, 0) ==>
      t == Some(authorization.value[|BearerPrefix|..])
    ensures !Truthy(cookie) && authorization.Some? && IndexOf(authorization.value, BearerPrefix).None? ==>
      t == authorization
    ensures !Truthy(cookie) && authorization.Some? && IndexOf(authorization.value, BearerPrefix).Some? ==>
      var k := IndexOf(authorization.value, BearerPrefix).value;
      k + |BearerPrefix| <= |authorization.value|
      && t == Some(authorization.value[..k] + authorization.value[k + |BearerPrefix|..])
  {
    if authorization.Some? then
      ReplaceFirstRemoves(authorization.value, BearerPrefix);
      Or(cookie, Some(ReplaceFirst(authorization.value, BearerPrefix, "")))
    else
      Or(cookie, None)
  }

  /** The middleware's decision: a missing token, a token that does not verify under the access
      secret and a token whose user no longer exists are all rejected with 422 (every inner
      error is rewrapped by the catch block); otherwise the user named by the token, without
      password digest and refresh token, is attached. */
  function Authenticate(users: seq<User>, crypto: Crypto, env: Env,
                        cookie: Option<string>, authorization: Option<string>): (r: AuthResult)
    ensures r.Rejected? ==> r.statusCode == 422
    ensures !Truthy(ExtractToken(cookie, authorization)) ==> r.Rejected?
    ensures r.Authenticated? <==>
      var t := ExtractToken(cookie, authorization);
      Truthy(t) && VerifyToken(crypto, t.value, env.accessTokenSecret).Some?
      && IndexOfUser(users, VerifyToken(crypto, t.value, env.accessTokenSecret).value.id).Some?
    ensures r.Authenticated? ==>
      var c := VerifyToken(crypto, ExtractToken(cookie, authorization).value, env.accessTokenSecret).value;
      r.user.id == c.id && exists k :: 0 <= k < |users| && r.user == Public(users[k])
  {
    var token := ExtractToken(cookie, authorization);
    if !Truthy(token) then Rejected(422)
    else match VerifyToken(crypto, token.value, env.accessTokenSecret)
      case None => Rejected(422)
      case Some(claims) =>
        match IndexOfUser(users, claims.id)
        case None => Rejected(422)
        case Some(i) => Authenticated(Public(users[i]))
  }

  /** The middleware itself. It has no `modifies` clause: it cannot change the store. */
  method VerifyJWT(db: Store, crypto: Crypto, env: Env, cookie: Option<string>, authorization: Option<string>)
    returns (r: AuthResult)
    ensures r == Authenticate(db.users, crypto, env, cookie, authorization)
  {
    var token := ExtractToken(cookie, authorization);
    if !Truthy(token) {
      return Rejected(422);
    }
    var decoded := VerifyToken(crypto, token.value, env.accessTokenSecret);
    if decoded.None? {
      return Rejected(422);
    }
    var found := IndexOfUser(db.users, decoded.value.id);
    if found.None? {
      return Rejected(422);
    }
    r := Authenticated(Public(db.users[found.value]));
  }

  /** A request whose only credential is `Authorization: Bearer <token>` is authenticated by
      `<token>` exactly as if it had been sent in the cookie. */
  lemma BearerHeaderActsAsCookie(users: seq<User>, crypto: Crypto, env: Env, token: string)
    ensures Authenticate(users, crypto, env, None, Some(BearerPrefix + token))
         == Authenticate(users, crypto, env, Some(token), None)
  {
    var h := BearerPrefix + token;
    assert OccursAt(h, BearerPrefix, 0);
    assert h[|BearerPrefix|..] == token;
  }
}
