# A verified model of the video platform's session, like, subscription and comment rules

This project models the request-handling core of an Express/Mongoose video-platform backend in
Dafny, and proves properties about it. The backend lets users register, log in, upload and watch
videos, like and dislike videos and comments, comment, and subscribe to channels.

The document store is a class `Db.Store`. It holds one sequence per collection (users, videos,
comments, likes, subscriptions), in natural insertion order, so `findOne` means the first match.
It also holds a counter for fresh ObjectIds. `Store.Valid()` states what every stored collection
satisfies:
- distinct ids;
- the schema validators of the records that are validated on write;
- the lowercase and trim setters;
- the unique email index.

Every store method keeps it.

Each controller operation appears in two forms:
- a pure function of the collections it reads and writes, which returns the new collection and
  the reply (`Outcome`);
- a method on the store, proved to have exactly that effect.

The reply is either a sent response (HTTP status, cookies and the `ApiResponse` envelope) or an
`ApiError` thrown to the framework's error handler. The lemmas relate operations to one another:
- login, refresh, logout, password change and authentication as a session lifecycle;
- at most one reaction per user and target, and what a reaction does to the counts the video
  detail view shows;
- the subscription toggle undoing itself;
- a posted comment appearing in the detail view.

Foreign code enters as parameters:
- bcrypt and jsonwebtoken are a `UserModel.Crypto` value of uninterpreted operations,
  including `isTimespan`, jsonwebtoken's test of an `expiresIn` setting. The
  hypotheses `HashesVerify`, `TokensRoundTrip` and `SignedTokensNonEmpty` are stated where a
  lemma needs them.
- The process environment is `UserModel.Env`.
- The clock reading at token issue, the bcrypt salt, the thumbnail upload result and title
  regular-expression matching are also parameters.

Modules, one per source file, plus two shared ones:
- `Js`: JavaScript and MongoDB value semantics, meaning truthiness, `||`, `trim`, `toLowerCase`,
  string `replace`, `parseInt(..) || d`, and first match, filter and count over a collection.
- `ApiResponses`: `utils/apiResponse.ts`.
- `UserModel`, `VideoModel`, `LikeModel`, `CommentModel`, `SubscriptionModel`: the schemas.
- `Db`: the store.
- `AuthMiddleware`, `UserController`, `VideoController`, `LikeController`,
  `SubscriptionController`, `CommentController`: the handlers.

## Model

| member | source | states |
|---|---|---|
| ApiResponses.NewApiResponse | utils/apiResponse.ts:1-13 | `success` is true exactly when the status code is below 400; status code and data are kept as passed; the message defaults to "Success" only when none is passed |
| Js.NormalizeIdempotent | src/models/user.model.ts:7-21 | the lowercase-and-trim setter yields a lowercase value with no whitespace at either end, and applying it again changes nothing |
| Js.TrimUnpadded | src/models/comment.model.ts:6-10 | a trimmed value has no whitespace at either end, and a value without such whitespace is its own trim |
| Js.ParsedOr | src/controllers/user.controller.ts:452-453 | `parseInt(x) \|\| d` is the parsed number unless parsing gives NaN or 0, in which case it is the default |
| UserModel.Public | src/middlewares/auth.middleware.ts:28-30 | the projection `-password -refreshToken` keeps id, username, email, fullname and watch history |
| UserModel.WithProfile | src/controllers/user.controller.ts:356-358 | assigning username, email and fullname stores them normalised by the setters and keeps the id, password digest, refresh token, watch history, avatar and cover |
| UserModel.PreSave | src/models/user.model.ts:47-52 | a save rehashes the password only when it was modified, otherwise the record is unchanged; under `HashesVerify` the new digest verifies the plaintext |
| UserModel.PasswordCheckReadsOnlyDigest | src/models/user.model.ts:54-56 | the password check depends on the stored digest and nothing else |
| UserModel.VerifyToken | src/middlewares/auth.middleware.ts:22-25 | verification fails when the secret is unset; otherwise it is jwt's verify |
| UserModel.GenerateAccessToken | src/models/user.model.ts:58-77 | a token is issued exactly when the secret is set and the expiry setting is present and accepted by jsonwebtoken as a timespan (`ExpiryAccepted`); under `TokensRoundTrip` it decodes to `{_id, email, username}` whose `username` is the email |
| UserModel.GenerateRefreshToken | src/models/user.model.ts:79-90 | a token is issued exactly when the secret is set and the expiry setting is accepted (`ExpiryAccepted`); it decodes to `{_id}` only |
| VideoModel.NewVideo | src/models/video.model.ts:29-36 | a new video has 0 views, and `isPublished` defaults to true when omitted |
| LikeModel.NewLike | src/models/likes.model.ts:4-30 | an omitted `isLike` is null; the record is valid exactly when `likedBy` is set and `likeType` is "video" or "comment" |
| CommentModel.NewComment | src/models/comment.model.ts:4-27 | content is stored trimmed; the record is valid exactly when the trimmed content is non-empty and video and owner are set |
| Db.Store.SaveUser | src/models/user.model.ts:14-21 | a user save fails exactly when another user holds the email (the unique index); otherwise the pre-save hook's result is written at the record's position |
| Db.Store.SetRefreshToken | src/controllers/user.controller.ts:126-136 | `findByIdAndUpdate` with `$set refreshToken` writes only that field of the user with that id, and nothing when there is none |
| Db.Store.CreateLike | src/models/likes.model.ts:4-30 | a like is appended under a fresh id exactly when it passes the schema validators |
| Db.Store.SaveLike | src/models/likes.model.ts:4-30 | a like is written back exactly when it passes the schema validators |
| Db.Store.CreateComment | src/models/comment.model.ts:4-27 | `Comment.create` on a comment built under the fresh id: it is appended and the id advanced exactly when it passes the validators, and otherwise nothing is written |
| Db.Store.SaveVideo | src/models/video.model.ts:4-44 | a video is written back exactly when title (at most 150 characters), description (at most 1000), duration (at least 1), video file, thumbnail and owner pass the validators |
| Db.Store.CreateSubscription | src/controllers/subscription.controller.ts:37-40 | one subscription `{channel, subscriber}` is appended under a fresh id |
| Db.Store.DeleteSubscription | src/controllers/subscription.controller.ts:26 | `deleteOne({_id})` removes exactly the found subscription |
| AuthMiddleware.ExtractToken | src/middlewares/auth.middleware.ts:13-15 | the token is the cookie when it is non-empty; otherwise it is the Authorization header with its first "Bearer " cut out wherever it occurs (so a leading one is a prefix strip), the header unchanged when it holds none, and absent without a header |
| AuthMiddleware.Authenticate | src/middlewares/auth.middleware.ts:9-43 | every rejection is 422; a request is authenticated exactly when a token is present, verifies under the access secret and names an existing user, and that user is attached without digest and refresh token |
| AuthMiddleware.VerifyJWT | src/middlewares/auth.middleware.ts:9-43 | the middleware computes `Authenticate` and has no write access to the store |
| AuthMiddleware.BearerHeaderActsAsCookie | src/middlewares/auth.middleware.ts:13-15 | `Authorization: Bearer t` is treated exactly like the cookie `t` |
| UserController.LoginLookupAsWrittenIgnoresEmail | src/controllers/user.controller.ts:82-84 | with only an email given, the lookup as written returns the first stored user instead of the email's holder (see Findings) |
| UserController.LoginByEmailFindsItsHolder | src/controllers/user.controller.ts:82-84 | under the unique email index, the corrected lookup finds exactly the holder of the email, or nobody when no user holds it |
| UserController.Login | src/controllers/user.controller.ts:72-122 | a failure is 500 with nothing written; a success happens exactly when a password and a username or email are given, the first user the lookup matches has that password, and both secrets and expiries are set and accepted; on success only that first match's refresh token changes, and the returned tokens and cookies decode to that user's claims |
| UserController.LoginUser | src/controllers/user.controller.ts:72-122 | the store method has exactly `Login`'s effect and reply |
| UserController.Logout | src/controllers/user.controller.ts:124-149 | only the user's refresh token is set to "", whatever it held; both cookies are cleared |
| UserController.LogoutUser | src/controllers/user.controller.ts:124-149 | the store method has exactly `Logout`'s effect and reply |
| UserController.Refresh | src/controllers/user.controller.ts:151-214 | a success happens exactly when the token (cookie, else parameter) is present, verifies under the refresh secret, names an existing user whose stored token equals it, and both generators issue; every failure is 400 with nothing written; on success the new tokens are that user's generated pair and the stored refresh token becomes the new one |
| UserController.RefreshUserToken | src/controllers/user.controller.ts:151-214 | the store method has exactly `Refresh`'s effect and reply |
| UserController.ChangePassword | src/controllers/user.controller.ts:216-258 | a success happens exactly when both passwords are given, the user exists and the old password verifies; every failure is 400 with nothing written; on success only that user's password and refresh token change, the refresh token becomes "", the cookies are cleared, and under `HashesVerify` the new password verifies |
| UserController.ChangeCurrentPassword | src/controllers/user.controller.ts:216-258 | the store method has exactly `ChangePassword`'s effect and reply |
| UserController.UpdateUser | src/controllers/user.controller.ts:334-377 | a success happens exactly when all four fields are given, the user exists, the password verifies and no other user holds the normalised email (the unique index); failures are 400 with nothing written; only username, email and fullname of the caller change, normalised; no password digest or refresh token changes |
| UserController.UpdateUserProfile | src/controllers/user.controller.ts:334-377 | the store method has exactly `UpdateUser`'s effect and reply |
| UserController.Slice | src/controllers/user.controller.ts:463-469 | `$slice` takes at most n entries, starting at the position, or counted from the end for a negative position |
| UserController.VideosOnPage | src/controllers/user.controller.ts:470-485 | the `$lookup` returns exactly the stored videos whose id is on the page |
| UserController.GetWatchHistory | src/controllers/user.controller.ts:450-497 | only videos that exist are returned; a missing user gives an empty list; only a non-positive limit fails |
| UserController.WatchHistoryPage | src/controllers/user.controller.ts:451-466 | for a positive page and limit, skip is `(page-1)*limit` and the page is exactly the history entries from skip to skip+limit |
| UserController.LoginThenRefresh | src/controllers/user.controller.ts:93-176 | the refresh token issued by a login is accepted by the next refresh |
| UserController.RefreshThenRefresh | src/controllers/user.controller.ts:166-190 | the refresh token issued by a successful refresh is accepted by the next refresh, so rotation can go on |
| UserController.LoginThenAuthenticate | src/controllers/user.controller.ts:93-114 | the access token issued by a login authenticates the logged-in user at the middleware |
| UserController.RefreshRejectsRotatedToken | src/controllers/user.controller.ts:171-189 | after a rotation the presented token is refused with nothing written, unless the new token is the same string |
| UserController.LogoutRevokesRefresh | src/controllers/user.controller.ts:126-136 | after logout, no refresh token naming the user is accepted |
| UserController.LogoutIdempotent | src/controllers/user.controller.ts:126-136 | logging out twice has the effect of logging out once |
| UserController.LogoutKeepsAccessTokens | src/controllers/user.controller.ts:124-149 | logout leaves the middleware's decision on every request unchanged (access tokens stay valid) |
| UserController.ChangePasswordRevokesRefresh | src/controllers/user.controller.ts:238-240 | after a password change, no refresh token naming the user is accepted |
| VideoController.RemoveAll | src/controllers/video.controller.ts:279-281 | the filter removes every occurrence of the id and keeps every other entry |
| VideoController.MoveToFrontProperties | src/controllers/video.controller.ts:279-284 | after a view the id heads the history and occurs once; the other entries keep their order and multiplicity; a repeated view changes nothing |
| VideoController.CommentsOf | src/controllers/video.controller.ts:153-195 | one entry per comment on the video, each with `totalCommentLike` counting comment likes of its id whatever `isLike` holds |
| VideoController.Detail | src/controllers/video.controller.ts:147-262 | no result for a missing video; otherwise `totalVideoLikes` and `totalVideoDislikes` count the video likes with `isLike` true and false |
| VideoController.LikesAndDislikesDisjoint | src/controllers/video.controller.ts:196-243 | no record counts both as a like and as a dislike |
| VideoController.ViewVideo | src/controllers/video.controller.ts:143-297 | the reply is 200 exactly when there is no token, or the token verifies and names an existing user; without a token no user is written; a token that fails or names no user gives 500 with nothing written; otherwise only watch histories are touched, by move-to-front |
| VideoController.GetVideoById | src/controllers/video.controller.ts:143-297 | the store method has exactly `ViewVideo`'s effect and reply |
| VideoController.ViewUpdatesOnlyViewer | src/controllers/video.controller.ts:264-288 | an authenticated view moves the video to the front of the viewer's history and writes no other user |
| VideoController.InsertByDate | src/controllers/video.controller.ts:111 | inserting into a newest-first list keeps it newest first and adds exactly that video |
| VideoController.SortNewestFirst | src/controllers/video.controller.ts:111 | `$sort createdAt -1` gives a newest-first permutation of its input |
| VideoController.Window | src/controllers/video.controller.ts:115 | `$skip` then `$limit` gives the entries from skip on, at most limit of them |
| VideoController.PageOf | src/controllers/video.controller.ts:103-124 | the reply is 200 exactly when skip is non-negative and limit positive, otherwise 500; on 200 the data is the window of `limit` entries from position `skip` of the matching videos sorted newest first, so it is newest first and holds only matching videos |
| VideoController.Paged | src/controllers/video.controller.ts:300-350 | page and limit default to 1 and 10 when unparsable or 0; the data is the window at `(page - 1) * limit` of the matching videos newest first; a negative skip or a non-positive limit gives 500 |
| VideoController.Feed | src/controllers/video.controller.ts:99-141 | page and limit default to 1 and 10; the reply is 200 exactly when the skip is non-negative and the limit positive; on 200 the data is the window at `(page - 1) * limit` of the published videos newest first, and lists only published videos |
| VideoController.FeedPage | src/controllers/video.controller.ts:101-115 | for every page >= 1 and limit >= 1 the feed is 200, holds `min(limit, total - skip)` entries (none past the end) and entry k is the published video at position skip + k of the newest-first order |
| VideoController.FeedDefaultIsFirstPage | src/controllers/video.controller.ts:101-115 | with no page and limit, the feed is the first ten published videos, newest first |
| VideoController.MyVideos | src/controllers/video.controller.ts:299-360 | paged like the feed: 200 exactly when the skip is non-negative and the limit positive, else 500; on 200 the data is the window of the caller's matching videos newest first, each owned by the caller |
| VideoController.MyVideosFilter | src/controllers/video.controller.ts:306-317 | the filter always names the caller; it tests `isPublished` only when that parameter is present, and for true exactly when it is "true"; it tests the title only when the trimmed title is non-empty |
| VideoController.MyVideosOnlyOwn | src/controllers/video.controller.ts:299-360 | every listed video belongs to the caller and has the requested publication flag; without flag and title, all of the caller's videos qualify |
| VideoController.EditVideo | src/controllers/video.controller.ts:59-97 | a success happens exactly when the video exists, a thumbnail file was received, the upload gave a url and the edited record validates; every failure is 400 with nothing written; on success only title, description, isPublished and thumbnail of that video change |
| VideoController.EditVideoTwice | src/controllers/video.controller.ts:59-97 | repeating a successful edit with the same request leaves the collection and the reply as the first edit did |
| VideoController.EditVideoFields | src/controllers/video.controller.ts:59-97 | the store method has exactly `EditVideo`'s effect and reply |
| LikeController.React | src/controllers/like.controller.ts:53-77 | keyed on the input: with no matching record exactly the new record is appended and returned with 200; when the first match already has the requested `isLike` the reply is 400 with that record and nothing is written; otherwise that record alone has its `isLike` flipped and is returned with 200 (500 with nothing written if the flipped record fails validation) |
| LikeController.ReactIn | src/controllers/like.controller.ts:53-77 | the store method has exactly `React`'s effect and reply, and uses a fresh id only when it creates a record |
| LikeController.LikeVideo | src/controllers/like.controller.ts:39-82 | a missing video id or `isLike` is 400 and a missing video is 404, with nothing written; for an existing video, no earlier reaction of the user appends a new video like with "Video liked successfully.", an earlier one with the same `isLike` is refused with 400, and one with the other `isLike` is flipped in place with "success." |
| LikeController.PostLikeVideo | src/controllers/like.controller.ts:39-82 | the store method has exactly `LikeVideo`'s effect and reply |
| LikeController.LikeVideoKeepsAtMostOne | src/controllers/like.controller.ts:49-77 | at most one video reaction per (video, user) is preserved, and after a success the requesting pair has exactly one |
| LikeController.LikeVideoCounts | src/controllers/like.controller.ts:53-77 | a success raises the requested count by one and lowers the other by at most one; a refused repeat leaves the counts alone |
| LikeController.LikeVideoRepeatRefused | src/controllers/like.controller.ts:53-64 | repeating a successful reaction is refused with 400 and writes nothing |
| LikeController.LikeComment | src/controllers/like.controller.ts:84-132 | video id, comment id and `isLike` are all required (400) and the video must exist (404); then no earlier reaction of the user on that comment appends a new comment like, one with the same `isLike` is refused with 400, and one with the other `isLike` is flipped in place |
| LikeController.PostLikeTheComment | src/controllers/like.controller.ts:84-132 | the store method has exactly `LikeComment`'s effect and reply |
| LikeController.LikeCommentKeepsAtMostOne | src/controllers/like.controller.ts:94-127 | at most one comment reaction per (video, user, comment) is preserved |
| LikeController.LikeCommentCounts | src/controllers/like.controller.ts:103-127 | a new comment reaction raises `totalCommentLike` by one; a flip leaves it unchanged |
| LikeController.CreateLikeAsWritten | src/controllers/like.controller.ts:10-37 | the helper as written never adds a record (see Findings) |
| LikeController.CreateLikeAsWrittenRejectsFirstLike | src/controllers/like.controller.ts:30-36 | the first like of a user on a video makes the helper as written reject |
| LikeController.CreateLike | src/controllers/like.controller.ts:10-37 | an existing match is returned with `alreadyLiked` true and nothing created; otherwise exactly one valid record carrying the payload is created and returned with `alreadyLiked` false |
| LikeController.CreateLikeTwice | src/controllers/like.controller.ts:30-36 | a second call finds the record and creates nothing |
| LikeController.CreateLikeRecord | src/controllers/like.controller.ts:10-37 | the store method has exactly `CreateLike`'s effect and result |
| SubscriptionController.Subscribe | src/controllers/subscription.controller.ts:10-48 | a missing channel id fails; an existing subscription is deleted without checking the channel; otherwise an unknown channel fails (404 rethrown as 400) and a known one gets exactly one new subscription; a failure writes nothing |
| SubscriptionController.SubscribeChannel | src/controllers/subscription.controller.ts:10-48 | the store method has exactly `Subscribe`'s effect and reply |
| SubscriptionController.SubscribeKeepsAtMostOne | src/controllers/subscription.controller.ts:20-40 | at most one subscription per (channel, subscriber) is preserved; no other pair changes; the requesting pair has one after "Subscribed" and none after "Unsubscribed" |
| SubscriptionController.SubscribeTwiceRestores | src/controllers/subscription.controller.ts:20-44 | subscribing and then repeating the request restores the collection exactly |
| SubscriptionController.UnsubscribeTwiceRestores | src/controllers/subscription.controller.ts:20-44 | unsubscribing and then repeating the request re-subscribes, so every pair ends with its original count |
| CommentController.PostComment | src/controllers/comment.controller.ts:9-38 | a success happens exactly when the comment is present and non-blank after trimming and the video exists; it appends the trimmed comment by the caller on that video with status 201; every failure is 400 with null data and nothing written |
| CommentController.PostCommentOn | src/controllers/comment.controller.ts:9-38 | the store method has exactly `PostComment`'s effect and reply |
| CommentController.CommentsOfAppend | src/controllers/video.controller.ts:153-195 | a new comment adds its entry at the end of its own video's list and changes no other video's list |
| CommentController.PostedCommentIsListed | src/controllers/comment.controller.ts:23-27 | a posted comment shows up last in its video's detail view, with its trimmed content |

## Left out

- Not modelled: database I/O, connection set-up, routing, file uploads and the remote upload service. The upload result of `editVideo` is a parameter.
- Not modelled: `registerUser`, `userProfile`, `updateAvatar`, `updateCover`, `getUserChannelProfile`, `uploadVideo` and `getVideoLikes`. They are outside the modelled core.
- bcrypt and jsonwebtoken internals are uninterpreted parameters; whether jsonwebtoken accepts an `expiresIn` string is the parameter `isTimespan`, and an unset expiry setting makes `sign` throw. Token expiry at verification time is part of jwt's verify. The model does not assume that two issued tokens differ: `RefreshRejectsRotatedToken` states that case as a hypothesis.
- Query strings are modelled after parsing. `parseInt` is a parameter value, where None stands for NaN.
- Ids are abstract naturals. Malformed ObjectId strings, which make Mongoose throw a cast error, are not modelled.
- `isLike`, `isPublished` and the other request fields are modelled as values already of the schema's type. JavaScript's loose comparison of a string with a boolean is not modelled.
- Lowercasing covers ASCII letters only. String lengths count code points, not UTF-16 units.
- VideoController.MatchesFilter: title regular-expression matching (`$regex` with option `i`) is a parameter, not modelled.
- VideoController.Paged: the `$facet` metadata (total count, page and limit echo) and the one-element array that wraps the result are not modelled.
- VideoController.Feed: the same `$facet` metadata is not modelled.
- UserController.Login: uses the corrected lookup `LoginFilter`, which matches on the given username or email only. The query as written, where Mongoose may drop an undefined key and match every user, is `LoginFilterAsWritten` and is kept apart under Findings, because whether the key is dropped depends on how the Mongoose version in use casts an undefined filter value.
- VideoController.Detail: the detail view returns the whole video record. The source's `$project` drops `isPublished` from it.
- Error messages of thrown `ApiError`s are not modelled, only their status codes.
- VideoController.SortNewestFirst: Mongo's `$sort` is not stable; the model fixes one order (collection order) for equal `createdAt` values.
- Concurrency is not modelled: each request is one atomic step.
- Activity logging is not modelled: it is fire-and-forget and swallows its own errors.

## Findings

| source | as written | input that shows it | evidently intended | confidence | as-written member | corrected member |
|---|---|---|---|---|---|---|
| src/controllers/user.controller.ts:82-84 | `findOne({ $or: [{ username }, { email }] })` with one of the two undefined: Mongoose drops the undefined key, the branch becomes `{}`, and every user matches | two stored users, a login with only the second user's email: the first user is found and the second user's password is checked against the first user's digest | find the user whose username or email equals the given one | medium (not executed; rests on Mongoose dropping an undefined filter value) | UserController.LoginFilterAsWritten, UserController.LoginLookupAsWrittenIgnoresEmail | UserController.LoginFilter, UserController.LoginByEmailFindsItsHolder |
| src/controllers/like.controller.ts:21-34 | `createLike` builds its payload without `likeType`, so `Like.create(payload)` fails the schema's required validator | an empty like collection and any video and user: the returned promise rejects and nothing is stored | set `likeType` ("comment" when a comment id is given, else "video") so that the first like is created | high (not executed) | LikeController.CreateLikeAsWritten, LikeController.CreateLikeAsWrittenRejectsFirstLike | LikeController.CreateLike, LikeController.CreateLikeTwice |
