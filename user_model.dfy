/** The user schema: stored fields and their setters, the pre-save password hook, password
    checking, and the claims of the two JSON web tokens a user is issued.
    bcrypt and jsonwebtoken are foreign code, so they enter as a `Crypto` value of
    uninterpreted operations; the process environment enters as an `Env` value. */
module UserModel {
  import opened Js

  /** A stored user document. An absent `refreshToken` is represented as "": the only use of
      the field is a strict comparison with a non-empty presented token, which both fail. */
  datatype User = User(
    id: Id,
    username: string,
    email: string,
    fullname: string,
    avatar: string,
    cover: Option<string>,
    watchHistory: seq<Id>,
    password: string,       // the bcrypt digest once saved
    refreshToken: string)

  /** A user as loaded with `.select("-password -refreshToken")`. */
  datatype PublicUser = PublicUser(
    id: Id,
    username: string,
    email: string,
    fullname: string,
    avatar: string,
    cover: Option<string>,
    watchHistory: seq<Id>)

  /** Projection that leaves out the password digest and the refresh token. */
  function Public(u: User): (p: PublicUser)
    ensures p.id == u.id && p.username == u.username && p.email == u.email
    ensures p.fullname == u.fullname && p.watchHistory == u.watchHistory
  {
    PublicUser(u.id, u.username, u.email, u.fullname, u.avatar, u.cover, u.watchHistory)
  }

  /** What the schema's setters guarantee of every stored user: username and email are stored
      lowercase and trimmed, fullname trimmed. */
  predicate Normalized(u: User) {
    IsNormalized(u.username) && IsNormalized(u.email) && Unpadded(u.fullname)
  }

  /** Assigning username, email and fullname on a loaded document: the setters normalise the
      new values; every other field is kept. */
  function WithProfile(u: User, username: string, email: string, fullname: string): (r: User)
    ensures Normalized(r)
    ensures r.username == Normalize(username) && r.email == Normalize(email) && r.fullname == Trim(fullname)
    ensures r.id == u.id && r.password == u.password && r.refreshToken == u.refreshToken
    ensures r.watchHistory == u.watchHistory && r.avatar == u.avatar && r.cover == u.cover
  {
    NormalizeIdempotent(username);
    NormalizeIdempotent(email);
    TrimUnpadded(fullname);
    u.(username := Normalize(username), email := Normalize(email), fullname := Trim(fullname))
  }

  // ---------------------------------------------------------------------------
  // Foreign primitives

  /** The claims of a signed token: access tokens carry `{_id, email, username}`, refresh tokens
      `{_id}` only. */
  datatype Claims = AccessClaims(id: Id, email: string, username: string) | RefreshClaims(id: Id)

  /** bcrypt and jsonwebtoken, uninterpreted:
      `hash(plaintext, salt)` is `bcrypt.hash(plaintext, 10)` with the given random salt;
      `compare(plaintext, digest)` is `bcrypt.compare`;
      `sign(claims, secret, expiresIn, issuedAt)` is `jwt.sign` at the given clock reading;
      `isTimespan(expiresIn)` is jsonwebtoken's check of the `expiresIn` option, a string of
      seconds or a timespan such as "1d" (any other value makes `jwt.sign` throw);
      `verify(token, secret)` is `jwt.verify`: the decoded claims, or None when it throws
      (bad signature, expired, malformed). */
  datatype Crypto = Crypto(
    hash: (string, nat) -> string,
    compare: (string, string) -> bool,
    sign: (Claims, string, string, nat) -> string,
    isTimespan: string -> bool,
    verify: (string, string) -> Option<Claims>)

  /** `process.env.ACCESS_TOKEN_SECRET`, `REFRESH_TOKEN_SECRET`, `ACCESS_TOKEN_EXPIRY` and
      `REFRESH_TOKEN_EXPIRY`; None for a variable that is not set. */
  datatype Env = Env(accessTokenSecret: Option<string>, refreshTokenSecret: Option<string>,
                     accessTokenExpiry: Option<string>, refreshTokenExpiry: Option<string>)

  /** jsonwebtoken accepts an `expiresIn` option only when it is a non-empty string that reads
      as a timespan; `undefined` (the variable is not set) is refused. */
  predicate ExpiryAccepted(crypto: Crypto, expiresIn: Option<string>) {
    Truthy(expiresIn) && crypto.isTimespan(expiresIn.value)
  }

  /** The hypothesis that a digest verifies the plaintext it was made from. */
  ghost predicate HashesVerify(crypto: Crypto) {
    forall p, salt :: crypto.compare(p, crypto.hash(p, salt))
  }

  /** The hypothesis that verifying a token with the secret it was signed with returns its claims. */
  ghost predicate TokensRoundTrip(crypto: Crypto) {
    forall c, secret, e, t :: crypto.verify(crypto.sign(c, secret, e, t), secret) == Some(c)
  }

  /** The hypothesis that a signed token is never the empty string (a JWT has three
      dot-separated parts). */
  ghost predicate SignedTokensNonEmpty(crypto: Crypto) {
    forall c, secret, e, t :: crypto.sign(c, secret, e, t) != ""
  }

  // ---------------------------------------------------------------------------
  // Schema hooks and methods

  /** Assigning `doc.password = p` marks the path modified only when the value changes. */
  predicate PasswordModified(u: User, p: string) {
    p != u.password
  }

  /** The pre-save hook: the password is replaced by its digest only when it was modified;
      every other save leaves the stored digest and all other fields as they are. */
  function PreSave(u: User, passwordModified: bool, crypto: Crypto, salt: nat): (r: User)
    ensures !passwordModified ==> r == u
    ensures passwordModified ==> r == u.(password := crypto.hash(u.password, salt))
    ensures HashesVerify(crypto) && passwordModified ==> crypto.compare(u.password, r.password)
  {
    if passwordModified then u.(password := crypto.hash(u.password, salt)) else u
  }

  /** `isPasswordCorrect(password)`: bcrypt's comparison of the plaintext with the stored digest. */
  function IsPasswordCorrect(u: User, crypto: Crypto, password: string): bool {
    crypto.compare(password, u.password)
  }

  /** The password check reads nothing but the stored digest: two records with the same digest
      accept and reject the same plaintexts, whatever else differs. */
  lemma PasswordCheckReadsOnlyDigest(u: User, v: User, crypto: Crypto, password: string)
    requires u.password == v.password
    ensures IsPasswordCorrect(u, crypto, password) == IsPasswordCorrect(v, crypto, password)
  {
  }

  /** `jwt.verify(token, secret as string)`: throws (None) when the secret is undefined or empty. */
  function VerifyToken(crypto: Crypto, token: string, secret: Option<string>): (r: Option<Claims>)
    ensures !Truthy(secret) ==> r.None?
    ensures Truthy(secret) ==> r == crypto.verify(token, secret.value)
  {
    if Truthy(secret) then crypto.verify(token, secret.value) else None
  }

  /** `generateAccessToken()`: throws (None) when the secret is not set, and `jwt.sign` throws
      when the expiry is not an accepted `expiresIn`; otherwise signs `{_id, email, username}`
      where the `username` claim carries the user's email. */
  function GenerateAccessToken(u: User, env: Env, crypto: Crypto, now: nat): (t: Option<string>)
    ensures t.Some? <==> Truthy(env.accessTokenSecret) && ExpiryAccepted(crypto, env.accessTokenExpiry)
    ensures t.Some? && TokensRoundTrip(crypto) ==>
      VerifyToken(crypto, t.value, env.accessTokenSecret) == Some(AccessClaims(u.id, u.email, u.email))
  {
    if !Truthy(env.accessTokenSecret) then None
    else if !ExpiryAccepted(crypto, env.accessTokenExpiry) then None
    else Some(crypto.sign(AccessClaims(u.id, u.email, u.email), env.accessTokenSecret.value,
                          env.accessTokenExpiry.value, now))
  }

  /** `generateRefreshToken()`: throws (None) when the secret is not set or the expiry is not
      an accepted `expiresIn`; otherwise signs `{_id}`. */
  function GenerateRefreshToken(u: User, env: Env, crypto: Crypto, now: nat): (t: Option<string>)
    ensures t.Some? <==> Truthy(env.refreshTokenSecret) && ExpiryAccepted(crypto, env.refreshTokenExpiry)
    ensures t.Some? && TokensRoundTrip(crypto) ==>
      VerifyToken(crypto, t.value, env.refreshTokenSecret) == Some(RefreshClaims(u.id))
  {
    if !Truthy(env.refreshTokenSecret) then None
    else if !ExpiryAccepted(crypto, env.refreshTokenExpiry) then None
    else Some(crypto.sign(RefreshClaims(u.id), env.refreshTokenSecret.value, env.refreshTokenExpiry.value, now))
  }
}
