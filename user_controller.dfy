/** The session and account handlers of the user controller: login, logout, refresh-token
    rotation, password change, profile update and the paged watch history.

    Each handler that writes is given twice: as a function from the user collection before the
    request to the collection after it and the reply (`Login`, `Logout`, ...), and as a method on
    the store (`LoginUser`, `LogoutUser`, ...) that performs the same loads, assignments and
    saves and is proved to agree with the function. The lemmas at the end chain the functions
    into sessions. */
module UserController {
  import opened Js
  import opened ApiResponses
  import opened UserModel
  import opened VideoModel
  import opened Db
  import opened AuthMiddleware

  /** `{ userId, accessToken, refreshToken }` */
  datatype LoginData = LoginData(userId: Id, accessToken: string, refreshToken: string)

  /** `{ user, newAccessToken, newRefreshToken }` */
  datatype RefreshData = RefreshData(user: PublicUser, newAccessToken: string, newRefreshToken: string)

  /** `{ _id, username, email, fullname }` */
  datatype ProfileData = ProfileData(id: Id, username: string, email: string, fullname: string)

  const AccessCookie := "accessToken"
  const RefreshCookie := "refreshToken"

  function SessionCookies(accessToken: string, refreshToken: string): seq<Cookie> {
    [SetCookie(AccessCookie, accessToken), SetCookie(RefreshCookie, refreshToken)]
  }

  function ClearedCookies(): seq<Cookie> {
    [ClearCookie(AccessCookie), ClearCookie(RefreshCookie)]
  }

  // ---------------------------------------------------------------------------
  // Login

  /** The login lookup `{ $or: [{ username }, { email }] }` for the values given: each branch
      compares a stored field with the request value after the lowercase-and-trim setter has run
      on it; a value that is not given contributes no branch. (The query as written behaves
      differently when a value is missing; see `LoginFilterAsWritten`.) */
  function LoginFilter(username: Option<string>, email: Option<string>): User -> bool {
    (u: User) =>
      (username.Some? && u.username == Normalize(username.value))
      || (email.Some? && u.email == Normalize(email.value))
  }

  /** The same query as the driver receives it: Mongoose drops a filter key whose value is
      `undefined`, so a missing username or email turns its branch into `{}`, which every
      document matches. */
  function LoginFilterAsWritten(username: Option<string>, email: Option<string>): User -> bool {
    (u: User) =>
      (username.None? || u.username == Normalize(username.value))
      || (email.None? || u.email == Normalize(email.value))
  }

  /** With only an email given, the query as written selects the first stored user whoever
      that is: the user holding the email is not found when someone else was stored first. */
  lemma LoginLookupAsWrittenIgnoresEmail(users: seq<User>, email: string)
    requires |users| >= 2 && users[1].email == Normalize(email) && users[0].email != users[1].email
    ensures First(users, LoginFilterAsWritten(None, Some(email))) == Some(0)
    ensures First(users, LoginFilter(None, Some(email))) == Some(1)
  {
    var asWritten := LoginFilterAsWritten(None, Some(email));
    var intended := LoginFilter(None, Some(email));
    assert asWritten(users[0]);
    FirstAt(users, asWritten, 0);
    assert !intended(users[0]) && intended(users[1]);
    FirstIsSecond(users, intended);
  }

  /** Under the unique email index, a login by email alone finds exactly the user holding that
      email, and finds no one when no user holds it. */
  lemma LoginByEmailFindsItsHolder(users: seq<User>, next: Id, email: string)
    requires UsersOk(users, next)
    ensures forall k :: 0 <= k < |users| && users[k].email == Normalize(email) ==>
      First(users, LoginFilter(None, Some(email))) == Some(k)
    ensures First(users, LoginFilter(None, Some(email))).None? <==>
      forall k :: 0 <= k < |users| ==> users[k].email != Normalize(email)
  {
    var p := LoginFilter(None, Some(email));
    forall k | 0 <= k < |users| && users[k].email == Normalize(email)
      ensures First(users, p) == Some(k)
    {
      assert p(users[k]);
      forall j | 0 <= j < |users| && j != k ensures users[j].email != users[k].email {
        if j < k {
          assert users[j].email != users[k].email;
        } else {
          assert users[k].email != users[j].email;
        }
      }
    }
  }

  /** `loginUser`, with the lookup `LoginFilter` (the corrected form of the query as written,
      `LoginFilterAsWritten`): a missing identifier or password, no matching user, a wrong
      password for the first user the lookup finds, and a token secret or expiry that is not
      set or not accepted all end in the catch block's 500, with nothing written. Otherwise
      that user's stored refresh token is overwritten with the newly issued one (the save runs
      the pre-save hook, which leaves the digest alone because the password was not touched),
      and both tokens are returned and set as cookies. */
  function Login(users: seq<User>, crypto: Crypto, env: Env, now: nat,
                 username: Option<string>, email: Option<string>, password: Option<string>)
    : (r: Outcome<seq<User>, LoginData>)
    ensures r.reply.Thrown? ==> r.reply.statusCode == 500 && r.state == users
    ensures r.reply.Sent? <==>
      && (Truthy(username) || Truthy(email)) && Truthy(password)
      && First(users, LoginFilter(username, email)).Some?
      && IsPasswordCorrect(users[First(users, LoginFilter(username, email)).value], crypto, password.value)
      && Truthy(env.accessTokenSecret) && ExpiryAccepted(crypto, env.accessTokenExpiry)
      && Truthy(env.refreshTokenSecret) && ExpiryAccepted(crypto, env.refreshTokenExpiry)
    ensures r.reply.Sent? ==>
      var k := First(users, LoginFilter(username, email)).value;
      var d := r.reply.body.data;
      && r.reply.httpStatus == 200 && r.reply.body.success
      && r.reply.cookies == SessionCookies(d.accessToken, d.refreshToken)
      && d.userId == users[k].id
      && r.state == users[k := users[k].(refreshToken := d.refreshToken)]
      && (TokensRoundTrip(crypto) ==>
            VerifyToken(crypto, d.accessToken, env.accessTokenSecret)
              == Some(AccessClaims(d.userId, users[k].email, users[k].email))
            && VerifyToken(crypto, d.refreshToken, env.refreshTokenSecret) == Some(RefreshClaims(d.userId)))
  {
    if !(Truthy(username) || Truthy(email)) || !Truthy(password) then Outcome(users, Thrown(500))
    else match First(users, LoginFilter(username, email))
      case None => Outcome(users, Thrown(500))
      case Some(i) =>
        var user := users[i];
        if !IsPasswordCorrect(user, crypto, password.value) then Outcome(users, Thrown(500))
        else match (GenerateAccessToken(user, env, crypto, now), GenerateRefreshToken(user, env, crypto, now))
          case (Some(accessToken), Some(refreshToken)) =>
            Outcome(users[i := user.(refreshToken := refreshToken)],
                    Sent(200, SessionCookies(accessToken, refreshToken),
                         NewApiResponse(200, LoginData(user.id, accessToken, refreshToken), Some("User login successfully"))))
          case _ => Outcome(users, Thrown(500))
  }

  method LoginUser(db: Store, crypto: Crypto, env: Env, now: nat,
                   username: Option<string>, email: Option<string>, password: Option<string>)
    returns (reply: Reply<LoginData>)
    requires db.Valid()
    modifies db`users
    ensures db.Valid()
    ensures Outcome(db.users, reply) == Login(old(db.users), crypto, env, now, username, email, password)
  {
    if !(Truthy(username) || Truthy(email)) || !Truthy(password) {
      return Thrown(500);
    }
    var found := First(db.users, LoginFilter(username, email));
    if found.None? {
      return Thrown(500);
    }
    var i := found.value;
    var user := db.users[i];
    if !IsPasswordCorrect(user, crypto, password.value) {
      return Thrown(500);
    }
    var accessToken := GenerateAccessToken(user, env, crypto, now);
    var refreshToken := GenerateRefreshToken(user, env, crypto, now);
    if accessToken.None? || refreshToken.None? {
      return Thrown(500);
    }
    OwnEmailNotTaken(db.users, db.nextId, i);
    // The password path is not modified, so the hook does not rehash and the salt is unused.
    var _ := db.SaveUser(i, user.(refreshToken := refreshToken.value), false, crypto, 0);
    reply := Sent(200, SessionCookies(accessToken.value, refreshToken.value),
                  NewApiResponse(200, LoginData(user.id, accessToken.value, refreshToken.value), Some("User login successfully")));
  }

  // ---------------------------------------------------------------------------
  // Logout

  /** `logoutUser`: `findByIdAndUpdate(id, { $set: { refreshToken: "" } })` whatever the token
      held, clearing both cookies; an id that matches no user updates nothing. */
  function Logout(users: seq<User>, userId: Id): (r: Outcome<seq<User>, ()>)
    ensures r.reply == Sent(200, ClearedCookies(), NewApiResponse(200, (), Some("User Logged Out")))
    ensures |r.state| == |users|
    ensures forall k :: 0 <= k < |users| ==>
      r.state[k] == if users[k].id == userId && IndexOfUser(users, userId) == Some(k)
                    then users[k].(refreshToken := "") else users[k]
  {
    var updated :=
      match IndexOfUser(users, userId)
      case None => users
      case Some(i) => users[i := users[i].(refreshToken := "")];
    Outcome(updated, Sent(200, ClearedCookies(), NewApiResponse(200, (), Some("User Logged Out"))))
  }

  method LogoutUser(db: Store, userId: Id) returns (reply: Reply<()>)
    requires db.Valid()
    modifies db`users
    ensures db.Valid()
    ensures Outcome(db.users, reply) == Logout(old(db.users), userId)
  {
    var _ := db.SetRefreshToken(userId, "");
    reply := Sent(200, ClearedCookies(), NewApiResponse(200, (), Some("User Logged Out")));
  }

  // ---------------------------------------------------------------------------
  // Refresh-token rotation

  /** `refreshUserToken`: the presented token (cookie, else route parameter) must be present,
      verify under the refresh secret, name an existing user, and be strictly equal to the token
      stored for that user; then a new pair is issued and the new refresh token is stored with
      `$set` (no save hook). Every failure is rewrapped as 400 with nothing written. */
  function Refresh(users: seq<User>, crypto: Crypto, env: Env, now: nat,
                   cookieToken: Option<string>, paramToken: Option<string>)
    : (r: Outcome<seq<User>, RefreshData>)
    ensures r.reply.Thrown? ==> r.reply.statusCode == 400 && r.state == users
    ensures !Truthy(Or(cookieToken, paramToken)) ==> r.reply.Thrown?
    ensures r.reply.Sent? ==>
      var incoming := Or(cookieToken, paramToken).value;
      var d := r.reply.body.data;
      && r.reply.httpStatus == 200 && r.reply.body.success
      && r.reply.cookies == SessionCookies(d.newAccessToken, d.newRefreshToken)
      && exists k :: 0 <= k < |users| && users[k].refreshToken == incoming
           && VerifyToken(crypto, incoming, env.refreshTokenSecret).Some?
           && VerifyToken(crypto, incoming, env.refreshTokenSecret).value.id == users[k].id
           && d.user == Public(users[k])
           && r.state == users[k := users[k].(refreshToken := d.newRefreshToken)]
    ensures var incoming := Or(cookieToken, paramToken);
      r.reply.Sent? <==>
        && Truthy(incoming)
        && VerifyToken(crypto, incoming.value, env.refreshTokenSecret).Some?
        && IndexOfUser(users, VerifyToken(crypto, incoming.value, env.refreshTokenSecret).value.id).Some?
        && var k := IndexOfUser(users, VerifyToken(crypto, incoming.value, env.refreshTokenSecret).value.id).value;
           && users[k].refreshToken == incoming.value
           && GenerateAccessToken(users[k], env, crypto, now).Some?
           && GenerateRefreshToken(users[k], env, crypto, now).Some?
    ensures r.reply.Sent? ==>
      var incoming := Or(cookieToken, paramToken).value;
      var k := IndexOfUser(users, VerifyToken(crypto, incoming, env.refreshTokenSecret).value.id).value;
      && r.reply.body.data.newAccessToken == GenerateAccessToken(users[k], env, crypto, now).value
      && r.reply.body.data.newRefreshToken == GenerateRefreshToken(users[k], env, crypto, now).value
  {
    var incoming := Or(cookieToken, paramToken);
    if !Truthy(incoming) then Outcome(users, Thrown(400))
    else match VerifyToken(crypto, incoming.value, env.refreshTokenSecret)
      case None => Outcome(users, Thrown(400))
      case Some(claims) =>
        match IndexOfUser(users, claims.id)
        case None => Outcome(users, Thrown(400))
        case Some(i) =>
          var user := users[i];
          if user.refreshToken != incoming.value then Outcome(users, Thrown(400))
          else match (GenerateAccessToken(user, env, crypto, now), GenerateRefreshToken(user, env, crypto, now))
            case (Some(accessToken), Some(refreshToken)) =>
              var updated := user.(refreshToken := refreshToken);
              Outcome(users[i := updated],
                      Sent(200, SessionCookies(accessToken, refreshToken),
                           NewApiResponse(200, RefreshData(Public(updated), accessToken, refreshToken),
                                          Some("User Refresh successfully."))))
            case _ => Outcome(users, Thrown(400))
  }

  method RefreshUserToken(db: Store, crypto: Crypto, env: Env, now: nat,
                          cookieToken: Option<string>, paramToken: Option<string>)
    returns (reply: Reply<RefreshData>)
    requires db.Valid()
    modifies db`users
    ensures db.Valid()
    ensures Outcome(db.users, reply) == Refresh(old(db.users), crypto, env, now, cookieToken, paramToken)
  {
    var incoming := Or(cookieToken, paramToken);
    if !Truthy(incoming) {
      return Thrown(400);
    }
    var decoded := VerifyToken(crypto, incoming.value, env.refreshTokenSecret);
    if decoded.None? {
      return Thrown(400);
    }
    var found := IndexOfUser(db.users, decoded.value.id);
    if found.None? {
      return Thrown(400);
    }
    var user := db.users[found.value];
    if user.refreshToken != incoming.value {
      return Thrown(400);
    }
    var accessToken := GenerateAccessToken(user, env, crypto, now);
    var refreshToken := GenerateRefreshToken(user, env, crypto, now);
    if accessToken.None? || refreshToken.None? {
      return Thrown(400);
    }
    var _ := db.SetRefreshToken(user.id, refreshToken.value);
    reply := Sent(200, SessionCookies(accessToken.value, refreshToken.value),
                  NewApiResponse(200, RefreshData(Public(user.(refreshToken := refreshToken.value)), accessToken.value, refreshToken.value),
                                 Some("User Refresh successfully.")));
  }

  // ---------------------------------------------------------------------------
  // Password change

  /** `changeCurrentPassword`: both passwords are required, the authenticated user must exist
      and the old password must verify. Then the new plaintext is assigned (the path counts as
      modified when it differs from the stored digest, and the pre-save hook then hashes it),
      the refresh token is cleared, and both cookies are cleared. Failures are 400 with
      nothing written. */
  function ChangePassword(users: seq<User>, crypto: Crypto, salt: nat, userId: Id,
                          oldPassword: Option<string>, newPassword: Option<string>)
    : (r: Outcome<seq<User>, ()>)
    ensures r.reply.Thrown? ==> r.reply.statusCode == 400 && r.state == users
    ensures !Truthy(oldPassword) || !Truthy(newPassword) ==> r.reply.Thrown?
    ensures |r.state| == |users|
    ensures r.reply.Sent? <==>
      && Truthy(oldPassword) && Truthy(newPassword) && IndexOfUser(users, userId).Some?
      && IsPasswordCorrect(users[IndexOfUser(users, userId).value], crypto, oldPassword.value)
    ensures r.reply.Sent? ==>
      var k := IndexOfUser(users, userId).value;
      && r.reply.httpStatus == 200 && r.reply.cookies == ClearedCookies()
      && r.state == users[k := r.state[k]]
      && r.state[k].refreshToken == ""
      && r.state[k].(password := users[k].password, refreshToken := users[k].refreshToken) == users[k]
      && (HashesVerify(crypto) && PasswordModified(users[k], newPassword.value) ==>
            IsPasswordCorrect(r.state[k], crypto, newPassword.value))
  {
    if !Truthy(oldPassword) || !Truthy(newPassword) then Outcome(users, Thrown(400))
    else match IndexOfUser(users, userId)
      case None => Outcome(users, Thrown(400))
      case Some(i) =>
        var user := users[i];
        if !IsPasswordCorrect(user, crypto, oldPassword.value) then Outcome(users, Thrown(400))
        else
          var doc := user.(password := newPassword.value, refreshToken := "");
          var saved := PreSave(doc, PasswordModified(user, newPassword.value), crypto, salt);
          Outcome(users[i := saved],
                  Sent(200, ClearedCookies(), NewApiResponse(200, (), Some("Password Successfully changed."))))
  }

  method ChangeCurrentPassword(db: Store, crypto: Crypto, salt: nat, userId: Id,
                               oldPassword: Option<string>, newPassword: Option<string>)
    returns (reply: Reply<()>)
    requires db.Valid()
    modifies db`users
    ensures db.Valid()
    ensures Outcome(db.users, reply) == ChangePassword(old(db.users), crypto, salt, userId, oldPassword, newPassword)
  {
    if !Truthy(oldPassword) || !Truthy(newPassword) {
      return Thrown(400);
    }
    var found := IndexOfUser(db.users, userId);
    if found.None? {
      return Thrown(400);
    }
    var i := found.value;
    var user := db.users[i];
    if !IsPasswordCorrect(user, crypto, oldPassword.value) {
      return Thrown(400);
    }
    var modified := PasswordModified(user, newPassword.value);
    OwnEmailNotTaken(db.users, db.nextId, i);
    var _ := db.SaveUser(i, user.(password := newPassword.value, refreshToken := ""), modified, crypto, salt);
    reply := Sent(200, ClearedCookies(), NewApiResponse(200, (), Some("Password Successfully changed.")));
  }

  // ---------------------------------------------------------------------------
  // Profile update

  /** `updateUser`: all four fields are required, the user must exist and the password must
      verify. Username, email and fullname are assigned (through their setters) and saved
      without validation; the unique email index rejects an email another user holds. The
      password digest and refresh token of every user are untouched. Failures are 400. */
  function UpdateUser(users: seq<User>, crypto: Crypto, userId: Id, fullname: Option<string>,
                      email: Option<string>, username: Option<string>, password: Option<string>)
    : (r: Outcome<seq<User>, ProfileData>)
    ensures r.reply.Thrown? ==> r.reply.statusCode == 400 && r.state == users
    ensures !Truthy(fullname) || !Truthy(email) || !Truthy(username) || !Truthy(password) ==> r.reply.Thrown?
    ensures |r.state| == |users|
    ensures forall k :: 0 <= k < |users| ==>
      r.state[k].id == users[k].id && r.state[k].password == users[k].password
      && r.state[k].refreshToken == users[k].refreshToken && r.state[k].watchHistory == users[k].watchHistory
    ensures r.reply.Sent? ==>
      var d := r.reply.body.data;
      && r.reply.httpStatus == 200 && r.reply.body.success
      && d.username == Normalize(username.value) && d.email == Normalize(email.value) && d.fullname == Trim(fullname.value)
      && exists k :: 0 <= k < |users| && users[k].id == userId && d.id == userId
           && IsPasswordCorrect(users[k], crypto, password.value)
           && r.state == users[k := WithProfile(users[k], username.value, email.value, fullname.value)]
    ensures r.reply.Sent? <==>
      && Truthy(fullname) && Truthy(email) && Truthy(username) && Truthy(password)
      && IndexOfUser(users, userId).Some?
      && IsPasswordCorrect(users[IndexOfUser(users, userId).value], crypto, password.value)
      && !EmailTaken(users, Normalize(email.value), IndexOfUser(users, userId).value)
  {
    if !Truthy(fullname) || !Truthy(email) || !Truthy(username) || !Truthy(password) then Outcome(users, Thrown(400))
    else match IndexOfUser(users, userId)
      case None => Outcome(users, Thrown(400))
      case Some(i) =>
        var user := users[i];
        if !IsPasswordCorrect(user, crypto, password.value) then Outcome(users, Thrown(400))
        else
          var doc := WithProfile(user, username.value, email.value, fullname.value);
          if EmailTaken(users, doc.email, i) then Outcome(users, Thrown(400))
          else
            SameCredentialsAfterReplace(users, i, doc);
            assert users[i].id == userId && IsPasswordCorrect(users[i], crypto, password.value);
            Outcome(users[i := doc],
                       Sent(200, [], NewApiResponse(200, ProfileData(doc.id, doc.username, doc.email, doc.fullname),
                                                    Some("User update Successfully."))))
  }

  /** Replacing one user by a record with the same id, digest, refresh token and watch
      history leaves those four fields of every user as they were. */
  lemma SameCredentialsAfterReplace(users: seq<User>, i: nat, doc: User)
    requires i < |users|
    requires doc.id == users[i].id && doc.password == users[i].password
    requires doc.refreshToken == users[i].refreshToken && doc.watchHistory == users[i].watchHistory
    ensures forall k :: 0 <= k < |users| ==>
      users[i := doc][k].id == users[k].id && users[i := doc][k].password == users[k].password
      && users[i := doc][k].refreshToken == users[k].refreshToken
      && users[i := doc][k].watchHistory == users[k].watchHistory
  {
  }

  method UpdateUserProfile(db: Store, crypto: Crypto, userId: Id, fullname: Option<string>,
                           email: Option<string>, username: Option<string>, password: Option<string>)
    returns (reply: Reply<ProfileData>)
    requires db.Valid()
    modifies db`users
    ensures db.Valid()
    ensures Outcome(db.users, reply) == UpdateUser(old(db.users), crypto, userId, fullname, email, username, password)
  {
    if !Truthy(fullname) || !Truthy(email) || !Truthy(username) || !Truthy(password) {
      return Thrown(400);
    }
    var found := IndexOfUser(db.users, userId);
    if found.None? {
      return Thrown(400);
    }
    var i := found.value;
    var user := db.users[i];
    if !IsPasswordCorrect(user, crypto, password.value) {
      return Thrown(400);
    }
    var doc := WithProfile(user, username.value, email.value, fullname.value);
    // The password path is not modified, so the hook does not rehash and the salt is unused.
    var ok := db.SaveUser(i, doc, false, crypto, 0);
    if !ok {
      return Thrown(400);
    }
    reply := Sent(200, [], NewApiResponse(200, ProfileData(doc.id, doc.username, doc.email, doc.fullname),
                                          Some("User update Successfully.")));
  }

  // ---------------------------------------------------------------------------
  // Watch history page

  /** The aggregation operator `$slice: [array, position, n]` for a positive `n`: a negative
      position counts from the end (clamped at the start), a position past the end gives the
      empty array, and at most `n` elements are taken. */
  function Slice<T>(s: seq<T>, position: int, n: int): (r: seq<T>)
    requires n > 0
    ensures |r| <= n
    ensures position >= 0 ==> |r| == Max(0, Min(n, |s| - position))
    ensures position >= 0 ==> forall k :: 0 <= k < |r| ==> r[k] == s[position + k]
    ensures position < 0 ==> r == s[Max(0, |s| + position)..][..Min(n, |s| - Max(0, |s| + position))]
  {
    var start := if position < 0 then Max(0, |s| + position) else Min(position, |s|);
    s[start..Min(start + n, |s|)]
  }

  /** The `$lookup` of the history page: the stored videos whose id is on the page, in the
      order of the video collection. */
  function VideosOnPage(videos: seq<Video>, ids: seq<Id>): (r: seq<Video>)
    ensures forall v :: v in r <==> v in videos && v.id in ids
  {
    Filter(videos, (v: Video) => v.id in ids)
  }

  /** The history ids on a page: `$slice` of the history at `(page - 1) * limit`. */
  function HistoryIds(history: seq<Id>, page: int, limit: int): seq<Id>
    requires limit > 0
  {
    Slice(history, PageSkip(page, limit), limit)
  }

  /** `getWatchHistory`: page and limit default to 1 and 10 when missing, unparsable or 0;
      the page of history ids is `$slice`d at `(page - 1) * limit`, and the videos on it are
      returned. A user who no longer exists has no history. A non-positive limit makes the
      aggregation fail, which reaches the error handler. */
  function GetWatchHistory(users: seq<User>, videos: seq<Video>, userId: Id,
                           page: Option<int>, limit: Option<int>): (r: Reply<seq<Video>>)
    ensures r.Thrown? ==> ParsedOr(limit, 10) <= 0
    ensures r.Sent? ==> r.httpStatus == 200 && forall v :: v in r.body.data ==> v in videos
    ensures r.Sent? && IndexOfUser(users, userId).None? ==> r.body.data == []
  {
    var pageSize := ParsedOr(page, 1);
    var limitSize := ParsedOr(limit, 10);
    match IndexOfUser(users, userId)
    case None => Json(200, 200, [], "success")
    case Some(i) =>
      if limitSize <= 0 then Thrown(500)
      else Json(200, 200, VideosOnPage(videos, HistoryIds(users[i].watchHistory, pageSize, limitSize)), "success")
  }

  /** For a positive page and limit, the history page is exactly the entries at positions
      `(page - 1) * limit` up to `page * limit`, and the videos returned are the stored videos
      whose id is among them. */
  lemma WatchHistoryPage(users: seq<User>, videos: seq<Video>, userId: Id, page: int, limit: int, i: nat)
    requires page >= 1 && limit >= 1
    requires IndexOfUser(users, userId) == Some(i)
    ensures var h := users[i].watchHistory;
      var skip := (page - 1) * limit;
      var ids := HistoryIds(h, page, limit);
      && skip >= 0
      && |ids| == Max(0, Min(limit, |h| - skip))
      && (forall k :: 0 <= k < |ids| ==> ids[k] == h[skip + k])
      && GetWatchHistory(users, videos, userId, Some(page), Some(limit)).Sent?
      && forall v :: v in GetWatchHistory(users, videos, userId, Some(page), Some(limit)).body.data <==>
           v in videos && v.id in ids
  {
    var skip := (page - 1) * limit;
    assert skip >= 0 by {
      PageSkipNonNegative(page, limit);
    }
    HistoryPageServed(users, videos, userId, page, limit, i);
  }

  /** For a positive page and limit, the reply carries the videos on the history page. */
  lemma HistoryPageServed(users: seq<User>, videos: seq<Video>, userId: Id, page: int, limit: int, i: nat)
    requires page >= 1 && limit >= 1
    requires IndexOfUser(users, userId) == Some(i)
    ensures GetWatchHistory(users, videos, userId, Some(page), Some(limit))
         == Json(200, 200, VideosOnPage(videos, HistoryIds(users[i].watchHistory, page, limit)), "success")
  {
    assert ParsedOr(Some(page), 1) == page && ParsedOr(Some(limit), 10) == limit;
  }

  // ---------------------------------------------------------------------------
  // Sessions

  /** The first user with a given id is the one at its position: ids are distinct. */
  lemma IdLocatesUser(users: seq<User>, next: Id, i: nat)
    requires UsersOk(users, next) && i < |users|
    ensures IndexOfUser(users, users[i].id) == Some(i)
  {
    forall j | 0 <= j < |users| && j != i ensures users[j].id != users[i].id {
      if j < i {
        assert users[j].id != users[i].id;
      } else {
        assert users[i].id != users[j].id;
      }
    }
  }

  /** Writing one user back at its position keeps the id lookup of every other position. */
  lemma IdLocatesAfterWrite(users: seq<User>, i: nat, u: User, id: Id)
    requires i < |users| && u.id == users[i].id
    ensures IndexOfUser(users[i := u], id) == IndexOfUser(users, id)
  {
    var users' := users[i := u];
    assert forall k :: 0 <= k < |users| ==> users'[k].id == users[k].id;
  }

  /** A refresh token issued by a successful login is accepted by the next refresh. */
  lemma LoginThenRefresh(users: seq<User>, next: Id, crypto: Crypto, env: Env, now: nat, later: nat,
                         username: Option<string>, email: Option<string>, password: Option<string>)
    requires UsersOk(users, next) && TokensRoundTrip(crypto) && SignedTokensNonEmpty(crypto)
    requires Login(users, crypto, env, now, username, email, password).reply.Sent?
    ensures var login := Login(users, crypto, env, now, username, email, password);
      Refresh(login.state, crypto, env, later, Some(login.reply.body.data.refreshToken), None).reply.Sent?
  {
    var i := First(users, LoginFilter(username, email)).value;
    var user := users[i];
    var rt := GenerateRefreshToken(user, env, crypto, now).value;
    var users' := users[i := user.(refreshToken := rt)];
    assert Login(users, crypto, env, now, username, email, password).state == users';
    IdLocatesUser(users, next, i);
    IdLocatesAfterWrite(users, i, user.(refreshToken := rt), user.id);
    assert crypto.sign(RefreshClaims(user.id), env.refreshTokenSecret.value, env.refreshTokenExpiry.value, now) != "";
  }

  /** Rotation chains: the refresh token issued by a successful refresh is accepted by the
      next refresh, so a session can be refreshed again and again. */
  lemma RefreshThenRefresh(users: seq<User>, next: Id, crypto: Crypto, env: Env, now: nat, later: nat,
                           cookieToken: Option<string>, paramToken: Option<string>)
    requires UsersOk(users, next) && TokensRoundTrip(crypto) && SignedTokensNonEmpty(crypto)
    requires Refresh(users, crypto, env, now, cookieToken, paramToken).reply.Sent?
    ensures var first := Refresh(users, crypto, env, now, cookieToken, paramToken);
      Refresh(first.state, crypto, env, later, Some(first.reply.body.data.newRefreshToken), None).reply.Sent?
  {
    var incoming := Or(cookieToken, paramToken).value;
    var i := IndexOfUser(users, VerifyToken(crypto, incoming, env.refreshTokenSecret).value.id).value;
    var user := users[i];
    var rt := GenerateRefreshToken(user, env, crypto, now).value;
    assert Refresh(users, crypto, env, now, cookieToken, paramToken).state == users[i := user.(refreshToken := rt)];
    IdLocatesUser(users, next, i);
    IdLocatesAfterWrite(users, i, user.(refreshToken := rt), user.id);
    assert crypto.sign(RefreshClaims(user.id), env.refreshTokenSecret.value, env.refreshTokenExpiry.value, now) != "";
  }

  /** An access token issued by a successful login authenticates its user at the middleware. */
  lemma LoginThenAuthenticate(users: seq<User>, next: Id, crypto: Crypto, env: Env, now: nat,
                              username: Option<string>, email: Option<string>, password: Option<string>)
    requires UsersOk(users, next) && TokensRoundTrip(crypto) && SignedTokensNonEmpty(crypto)
    requires Login(users, crypto, env, now, username, email, password).reply.Sent?
    ensures var login := Login(users, crypto, env, now, username, email, password);
      var k := First(users, LoginFilter(username, email)).value;
      Authenticate(login.state, crypto, env, Some(login.reply.body.data.accessToken), None)
        == Authenticated(Public(users[k]))
  {
    var i := First(users, LoginFilter(username, email)).value;
    var user := users[i];
    var rt := GenerateRefreshToken(user, env, crypto, now).value;
    IdLocatesUser(users, next, i);
    IdLocatesAfterWrite(users, i, user.(refreshToken := rt), user.id);
    assert crypto.sign(AccessClaims(user.id, user.email, user.email), env.accessTokenSecret.value, env.accessTokenExpiry.value, now) != "";
  }

  /** After a rotation, the token that was presented is refused (the store now holds the new
      one), unless the new token happens to be the same string. Nothing is written. */
  lemma RefreshRejectsRotatedToken(users: seq<User>, crypto: Crypto, env: Env, now: nat, later: nat, token: string)
    requires Refresh(users, crypto, env, now, Some(token), None).reply.Sent?
    requires Refresh(users, crypto, env, now, Some(token), None).reply.body.data.newRefreshToken != token
    ensures var rotated := Refresh(users, crypto, env, now, Some(token), None).state;
      Refresh(rotated, crypto, env, later, Some(token), None) == Outcome(rotated, Thrown(400))
  {
    var c := VerifyToken(crypto, token, env.refreshTokenSecret).value;
    var i := IndexOfUser(users, c.id).value;
    var n := GenerateRefreshToken(users[i], env, crypto, now).value;
    IdLocatesAfterWrite(users, i, users[i].(refreshToken := n), c.id);
  }

  /** After logout, no refresh token naming the user is accepted any more: the stored token is
      "" and a presented token is never empty. */
  lemma LogoutRevokesRefresh(users: seq<User>, userId: Id, crypto: Crypto, env: Env, now: nat,
                             cookieToken: Option<string>, paramToken: Option<string>)
    requires var t := Or(cookieToken, paramToken);
      Truthy(t) ==> VerifyToken(crypto, t.value, env.refreshTokenSecret).Some?
                    && VerifyToken(crypto, t.value, env.refreshTokenSecret).value.id == userId
    ensures var out := Logout(users, userId).state;
      Refresh(out, crypto, env, now, cookieToken, paramToken) == Outcome(out, Thrown(400))
  {
    match IndexOfUser(users, userId)
    case None =>
    case Some(i) =>
      IdLocatesAfterWrite(users, i, users[i].(refreshToken := ""), userId);
  }

  /** Logging out twice is logging out once. */
  lemma LogoutIdempotent(users: seq<User>, userId: Id)
    ensures Logout(Logout(users, userId).state, userId) == Logout(users, userId)
  {
    match IndexOfUser(users, userId)
    case None =>
    case Some(i) =>
      var u := users[i].(refreshToken := "");
      IdLocatesAfterWrite(users, i, u, userId);
      assert users[i := u][i := u.(refreshToken := "")] == users[i := u];
  }

  /** Logout does not revoke access tokens: the middleware accepts and rejects exactly the
      same requests before and after, and attaches the same user. */
  lemma LogoutKeepsAccessTokens(users: seq<User>, userId: Id, crypto: Crypto, env: Env,
                                cookie: Option<string>, authorization: Option<string>)
    ensures Authenticate(Logout(users, userId).state, crypto, env, cookie, authorization)
         == Authenticate(users, crypto, env, cookie, authorization)
  {
    match IndexOfUser(users, userId)
    case None =>
    case Some(i) =>
      var u := users[i].(refreshToken := "");
      forall id ensures IndexOfUser(users[i := u], id) == IndexOfUser(users, id) {
        IdLocatesAfterWrite(users, i, u, id);
      }
      assert Public(u) == Public(users[i]);
  }

  /** A successful password change also ends the session: no refresh token naming the user is
      accepted afterwards. */
  lemma ChangePasswordRevokesRefresh(users: seq<User>, crypto: Crypto, salt: nat, userId: Id,
                                     oldPassword: Option<string>, newPassword: Option<string>,
                                     env: Env, now: nat, cookieToken: Option<string>, paramToken: Option<string>)
    requires ChangePassword(users, crypto, salt, userId, oldPassword, newPassword).reply.Sent?
    requires var t := Or(cookieToken, paramToken);
      Truthy(t) ==> VerifyToken(crypto, t.value, env.refreshTokenSecret).Some?
                    && VerifyToken(crypto, t.value, env.refreshTokenSecret).value.id == userId
    ensures var out := ChangePassword(users, crypto, salt, userId, oldPassword, newPassword).state;
      Refresh(out, crypto, env, now, cookieToken, paramToken) == Outcome(out, Thrown(400))
  {
    var i := IndexOfUser(users, userId).value;
    var out := ChangePassword(users, crypto, salt, userId, oldPassword, newPassword).state;
    IdLocatesAfterWrite(users, i, out[i], userId);
  }
}
