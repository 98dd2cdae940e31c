/** The video handlers: the detail view (with its like, dislike and comment-like counts and the
    viewer's watch-history update), the public feed, the owner's own uploads and the edit of a
    video's fields. */
module VideoController {
  import opened Js
  import opened ApiResponses
  import opened UserModel
  import opened VideoModel
  import opened LikeModel
  import opened CommentModel
  import opened Db
  import opened AuthMiddleware

  // ---------------------------------------------------------------------------
  // Watch history

  /** `history.filter(item => String(item) !== id)` */
  function RemoveAll(history: seq<Id>, id: Id): (r: seq<Id>)
    ensures id !in r
    ensures forall x :: x != id ==> (x in r <==> x in history)
  {
    Filter(history, (x: Id) => x != id)
  }

  /** The filter followed by `unshift(id)`. */
  function MoveToFront(history: seq<Id>, id: Id): seq<Id> {
    [id] + RemoveAll(history, id)
  }

  /** After a view the video id heads the history and occurs exactly once, the other entries
      keep their order and multiplicity (removing the id gives the same list before and after),
      and viewing the same video again changes nothing. */
  lemma MoveToFrontProperties(history: seq<Id>, id: Id)
    ensures var h := MoveToFront(history, id);
      && h[0] == id
      && Count(h, (x: Id) => x == id) == 1
      && RemoveAll(h, id) == RemoveAll(history, id)
      && |h| <= |history| + 1
      && MoveToFront(h, id) == h
  {
    var rest := RemoveAll(history, id);
    var h := [id] + rest;
    assert h[1..] == rest;
    var ne := (x: Id) => x != id;
    FilterIdempotent(history, ne);
    assert Filter(h, ne) == Filter(rest, ne);
    assert Count(rest, (x: Id) => x == id) == 0 by {
      forall j | 0 <= j < |rest| ensures rest[j] != id {
        assert rest[j] in rest;
      }
    }
    assert Count(h, (x: Id) => x == id) == 1 + Count(rest, (x: Id) => x == id);
  }

  // ---------------------------------------------------------------------------
  // Counts

  /** Like records counted as likes (`like` true) or dislikes (`like` false) of a video:
      video likes naming it whose `isLike` is exactly that value. */
  function VideoVotes(videoId: Id, like: bool): Like -> bool {
    (l: Like) => l.video == Some(videoId) && l.likeType == Some(VideoKind) && l.isLike == Some(like)
  }

  /** Like records counted for a comment: comment likes naming it, whatever `isLike` holds. */
  function IsCommentLike(commentId: Id): Like -> bool {
    (l: Like) => l.comment == Some(commentId) && l.likeType == Some(CommentKind)
  }

  /** A comment as the detail view shows it: `{ _id, content, totalCommentLike }`. */
  datatype CommentDetail = CommentDetail(id: Id, content: Option<string>, totalCommentLike: nat)

  /** The detail view of a video: its fields with `totalVideoLikes`, `totalVideoDislikes` and
      its comments. */
  datatype VideoDetail = VideoDetail(video: Video, totalVideoLikes: nat, totalVideoDislikes: nat,
                                     comments: seq<CommentDetail>)

  /** What one comment contributes to a video's comment list: its detail when it is on that
      video, nothing otherwise. */
  function DetailIfOn(c: Comment, likes: seq<Like>, videoId: Id): seq<CommentDetail> {
    if c.video == Some(videoId) then [CommentDetail(c.id, c.content, Count(likes, IsCommentLike(c.id)))] else []
  }

  /** The comments of a video in collection order, each with its like count. */
  function CommentsOf(comments: seq<Comment>, likes: seq<Like>, videoId: Id): (r: seq<CommentDetail>)
    ensures |r| == Count(comments, (c: Comment) => c.video == Some(videoId))
    ensures forall d :: d in r ==> d.totalCommentLike == Count(likes, IsCommentLike(d.id))
    ensures forall d :: d in r ==> exists c :: c in comments && c.video == Some(videoId) && c.id == d.id && c.content == d.content
  {
    if comments == [] then []
    else
      DetailIfOn(comments[0], likes, videoId) + CommentsOf(comments[1..], likes, videoId)
  }

  /** The `$match` on the id followed by the three `$lookup`s: no element when the video does
      not exist, otherwise one detail carrying the counts. */
  function Detail(videos: seq<Video>, comments: seq<Comment>, likes: seq<Like>, id: Id): (r: seq<VideoDetail>)
    ensures |r| <= 1
    ensures r == [] <==> IndexOfVideo(videos, id).None?
    ensures r != [] ==>
      && r[0].video.id == id && r[0].video in videos
      && r[0].totalVideoLikes == Count(likes, VideoVotes(id, true))
      && r[0].totalVideoDislikes == Count(likes, VideoVotes(id, false))
      && |r[0].comments| == Count(comments, (c: Comment) => c.video == Some(id))
  {
    match IndexOfVideo(videos, id)
    case None => []
    case Some(i) =>
      [VideoDetail(videos[i], Count(likes, VideoVotes(id, true)), Count(likes, VideoVotes(id, false)),
                   CommentsOf(comments, likes, id))]
  }

  /** A like and a dislike are never the same record, so together they never outnumber the
      video's like records. */
  lemma {:induction false} LikesAndDislikesDisjoint(likes: seq<Like>, id: Id)
    ensures Count(likes, VideoVotes(id, true)) + Count(likes, VideoVotes(id, false))
         <= Count(likes, (l: Like) => l.video == Some(id) && l.likeType == Some(VideoKind))
  {
    if likes != [] {
      LikesAndDislikesDisjoint(likes[1..], id);
    }
  }

  // ---------------------------------------------------------------------------
  // getVideoById

  function ServerError<T>(): Reply<Option<T>> {
    Json(500, 500, None, "Internal server error")
  }

  /** `getVideoById`: the detail view is computed first; then, when the request carries an
      access token (cookie or Bearer header), the token must verify and name an existing user,
      else the catch block answers 500 with nothing written; that user's watch history gets the
      id moved to its front and is saved, whether or not the video exists. Without a token no
      user is written. */
  function ViewVideo(users: seq<User>, videos: seq<Video>, comments: seq<Comment>, likes: seq<Like>,
                     crypto: Crypto, env: Env, id: Id, cookie: Option<string>, authorization: Option<string>)
    : (r: Outcome<seq<User>, Option<seq<VideoDetail>>>)
    ensures r.reply.Sent?
    ensures !Truthy(ExtractToken(cookie, authorization)) ==> r.state == users && r.reply.httpStatus == 200
    ensures r.reply.Sent? && r.reply.httpStatus != 200 ==>
      r.state == users && r.reply.httpStatus == 500 && r.reply.body.data.None? && !r.reply.body.success
    ensures r.reply.Sent? && r.reply.httpStatus == 200 ==> r.reply.body.data == Some(Detail(videos, comments, likes, id))
    ensures var t := ExtractToken(cookie, authorization);
      r.reply.httpStatus == 200 <==>
        !Truthy(t)
        || (VerifyToken(crypto, t.value, env.accessTokenSecret).Some?
            && IndexOfUser(users, VerifyToken(crypto, t.value, env.accessTokenSecret).value.id).Some?)
    ensures |r.state| == |users|
    ensures forall k :: 0 <= k < |users| ==>
      r.state[k] == users[k] || r.state[k] == users[k].(watchHistory := MoveToFront(users[k].watchHistory, id))
  {
    var detail := Detail(videos, comments, likes, id);
    var token := ExtractToken(cookie, authorization);
    if !Truthy(token) then Outcome(users, Json(200, 200, Some(detail), "success"))
    else match VerifyToken(crypto, token.value, env.accessTokenSecret)
      case None => Outcome(users, ServerError())
      case Some(claims) =>
        match IndexOfUser(users, claims.id)
        case None => Outcome(users, ServerError())
        case Some(i) =>
          var user := users[i];
          Outcome(users[i := user.(watchHistory := MoveToFront(user.watchHistory, id))],
                  Json(200, 200, Some(detail), "success"))
  }

  method GetVideoById(db: Store, crypto: Crypto, env: Env, id: Id, cookie: Option<string>, authorization: Option<string>)
    returns (reply: Reply<Option<seq<VideoDetail>>>)
    requires db.Valid()
    modifies db`users
    ensures db.Valid()
    ensures Outcome(db.users, reply)
         == ViewVideo(old(db.users), db.videos, db.comments, db.likes, crypto, env, id, cookie, authorization)
  {
    var detail := Detail(db.videos, db.comments, db.likes, id);
    var token := ExtractToken(cookie, authorization);
    if !Truthy(token) {
      return Json(200, 200, Some(detail), "success");
    }
    var decoded := VerifyToken(crypto, token.value, env.accessTokenSecret);
    if decoded.None? {
      return ServerError();
    }
    var found := IndexOfUser(db.users, decoded.value.id);
    if found.None? {
      return ServerError();
    }
    var i := found.value;
    var user := db.users[i];
    OwnEmailNotTaken(db.users, db.nextId, i);
    // The password path is not modified, so the hook does not rehash and the salt is unused.
    var doc := user.(watchHistory := MoveToFront(user.watchHistory, id));
    assert PreSave(doc, false, crypto, 0) == doc;
    var _ := db.SaveUser(i, doc, false, crypto, 0);
    reply := Json(200, 200, Some(detail), "success");
  }

  /** A successful view by an authenticated viewer puts the video at the head of that viewer's
      history and writes no other user. */
  lemma ViewUpdatesOnlyViewer(users: seq<User>, videos: seq<Video>, comments: seq<Comment>, likes: seq<Like>,
                              crypto: Crypto, env: Env, id: Id, cookie: Option<string>, authorization: Option<string>)
    requires var t := ExtractToken(cookie, authorization);
      Truthy(t) && VerifyToken(crypto, t.value, env.accessTokenSecret).Some?
    requires var t := ExtractToken(cookie, authorization);
      IndexOfUser(users, VerifyToken(crypto, t.value, env.accessTokenSecret).value.id).Some?
    ensures var t := ExtractToken(cookie, authorization);
      var i := IndexOfUser(users, VerifyToken(crypto, t.value, env.accessTokenSecret).value.id).value;
      var r := ViewVideo(users, videos, comments, likes, crypto, env, id, cookie, authorization);
      && r.reply.httpStatus == 200
      && r.state[i].watchHistory[0] == id
      && Count(r.state[i].watchHistory, (x: Id) => x == id) == 1
      && RemoveAll(r.state[i].watchHistory, id) == RemoveAll(users[i].watchHistory, id)
      && forall k :: 0 <= k < |users| && k != i ==> r.state[k] == users[k]
  {
    var t := ExtractToken(cookie, authorization);
    var i := IndexOfUser(users, VerifyToken(crypto, t.value, env.accessTokenSecret).value.id).value;
    MoveToFrontProperties(users[i].watchHistory, id);
  }

  // ---------------------------------------------------------------------------
  // Feed and own uploads

  /** `$sort: { createdAt: -1 }` leaves videos newest first. */
  predicate NewestFirst(s: seq<Video>) {
    forall i, j :: 0 <= i < j < |s| ==> s[i].createdAt >= s[j].createdAt
  }

  /** A video no older than every video of a newest-first list may head it. */
  lemma ConsNewestFirst(h: Video, t: seq<Video>)
    requires NewestFirst(t) && forall x :: x in t ==> x.createdAt <= h.createdAt
    ensures NewestFirst([h] + t)
  {
    var s := [h] + t;
    forall i, j | 0 <= i < j < |s| ensures s[i].createdAt >= s[j].createdAt {
      assert s[j] == t[j - 1];
      if i > 0 {
        assert s[i] == t[i - 1];
      }
    }
  }

  /** What a list holds bounds what a list with the same multiset holds. */
  lemma BoundByMultiset(r: seq<Video>, t: seq<Video>, v: Video, bound: nat)
    requires multiset(r) == multiset(t) + multiset{v}
    requires v.createdAt <= bound && forall x :: x in t ==> x.createdAt <= bound
    ensures forall x :: x in r ==> x.createdAt <= bound
  {
    forall x | x in r ensures x.createdAt <= bound {
      assert x in multiset(r);
      assert x == v || x in multiset(t);
    }
  }

  function InsertByDate(v: Video, s: seq<Video>): (r: seq<Video>)
    requires NewestFirst(s)
    ensures NewestFirst(r)
    ensures multiset(r) == multiset(s) + multiset{v}
  {
    if s == [] || v.createdAt >= s[0].createdAt then
      ConsNewestFirst(v, s);
      [v] + s
    else
      var t := s[1..];
      assert s == [s[0]] + t;
      assert NewestFirst(t);
      var rest := InsertByDate(v, t);
      assert forall x :: x in t ==> x.createdAt <= s[0].createdAt;
      BoundByMultiset(rest, t, v, s[0].createdAt);
      ConsNewestFirst(s[0], rest);
      [s[0]] + rest
  }

  /** `$sort: { createdAt: -1 }`. MongoDB leaves the order of equal keys unspecified; this
      keeps them in collection order. */
  function SortNewestFirst(s: seq<Video>): (r: seq<Video>)
    ensures NewestFirst(r)
    ensures multiset(r) == multiset(s)
  {
    if s == [] then []
    else
      assert s == [s[0]] + s[1..];
      InsertByDate(s[0], SortNewestFirst(s[1..]))
  }

  /** `$skip: skip` then `$limit: limit`, for a non-negative skip and a positive limit. */
  function Window<T>(s: seq<T>, skip: int, limit: int): (r: seq<T>)
    requires skip >= 0 && limit > 0
    ensures |r| == Max(0, Min(limit, |s| - skip))
    ensures forall k :: 0 <= k < |r| ==> r[k] == s[skip + k]
  {
    s[Min(skip, |s|)..Min(skip + limit, |s|)]
  }

  /** `$sort: { createdAt: -1 }`, `$skip: skip` and `$limit: limit` on the videos satisfying
      `p`: a negative skip or a non-positive limit is refused by the aggregation, which the
      catch block answers with 500; otherwise the data is the window of `limit` entries
      starting at `skip` in the matching videos sorted newest first. */
  function PageOf(videos: seq<Video>, p: Video -> bool, skip: int, limit: int)
    : (r: Reply<Option<seq<Video>>>)
    ensures r.Sent?
    ensures r.httpStatus == 200 <==> skip >= 0 && limit > 0
    ensures r.httpStatus != 200 ==> r == ServerError()
    ensures r.httpStatus == 200 ==>
      var sorted := SortNewestFirst(Filter(videos, p));
      && r.body.data == Some(Window(sorted, skip, limit))
      && NewestFirst(r.body.data.value)
      && forall v :: v in r.body.data.value ==> v in videos && p(v)
  {
    if skip < 0 || limit <= 0 then ServerError()
    else
      var sorted := SortNewestFirst(Filter(videos, p));
      var data := Window(sorted, skip, limit);
      WindowKeepsOrder(sorted, skip, limit);
      SortedMatchesAreMatches(videos, p, skip, limit);
      Json(200, 200, Some(data), "success")
  }

  /** Every video of a window of the sorted matches is a stored video that matches. */
  lemma SortedMatchesAreMatches(videos: seq<Video>, p: Video -> bool, skip: int, limit: int)
    requires skip >= 0 && limit > 0
    ensures forall v :: v in Window(SortNewestFirst(Filter(videos, p)), skip, limit) ==> v in videos && p(v)
  {
    var sorted := SortNewestFirst(Filter(videos, p));
    forall v | v in Window(sorted, skip, limit) ensures v in videos && p(v) {
      var k :| 0 <= k < |Window(sorted, skip, limit)| && Window(sorted, skip, limit)[k] == v;
      assert v in multiset(sorted);
    }
  }

  /** A window of a newest-first list is newest first. */
  lemma WindowKeepsOrder(s: seq<Video>, skip: int, limit: int)
    requires skip >= 0 && limit > 0 && NewestFirst(s)
    ensures NewestFirst(Window(s, skip, limit))
  {
    var w := Window(s, skip, limit);
    forall i, j | 0 <= i < j < |w| ensures w[i].createdAt >= w[j].createdAt {
      assert w[i] == s[skip + i] && w[j] == s[skip + j];
    }
  }

  /** The paged listing of the videos satisfying `p`: page and limit default to 1 and 10 and
      the skip is `(page - 1) * limit`. */
  function Paged(videos: seq<Video>, p: Video -> bool, page: Option<int>, limit: Option<int>)
    : (r: Reply<Option<seq<Video>>>)
    ensures r.Sent?
    ensures var skip := PageSkip(ParsedOr(page, 1), ParsedOr(limit, 10));
      r.httpStatus == 200 <==> skip >= 0 && ParsedOr(limit, 10) > 0
    ensures r.httpStatus != 200 ==> r == ServerError()
    ensures r.httpStatus == 200 ==>
      var skip := PageSkip(ParsedOr(page, 1), ParsedOr(limit, 10));
      var sorted := SortNewestFirst(Filter(videos, p));
      && r.body.data == Some(Window(sorted, skip, ParsedOr(limit, 10)))
      && NewestFirst(r.body.data.value)
      && forall v :: v in r.body.data.value ==> v in videos && p(v)
  {
    PageOf(videos, p, PageSkip(ParsedOr(page, 1), ParsedOr(limit, 10)), ParsedOr(limit, 10))
  }

  /** `getVideosFeed`: published videos only, newest first, paged as `Paged` describes. (The
      `$facet` metadata with the total count is not part of this model.) */
  function Feed(videos: seq<Video>, page: Option<int>, limit: Option<int>): (r: Reply<Option<seq<Video>>>)
    ensures r.Sent?
    ensures var skip := PageSkip(ParsedOr(page, 1), ParsedOr(limit, 10));
      r.httpStatus == 200 <==> skip >= 0 && ParsedOr(limit, 10) > 0
    ensures r.httpStatus != 200 ==> r == ServerError()
    ensures r.httpStatus == 200 ==>
      var skip := PageSkip(ParsedOr(page, 1), ParsedOr(limit, 10));
      var all := SortNewestFirst(Filter(videos, Published));
      && r.body.data == Some(Window(all, skip, ParsedOr(limit, 10)))
      && NewestFirst(r.body.data.value)
      && forall v :: v in r.body.data.value ==> Published(v) && v in videos
  {
    Paged(videos, Published, page, limit)
  }

  /** Every positive page and limit is served: page `page` holds the published videos at
      positions `(page - 1) * limit` up to `page * limit` of the newest-first order. */
  lemma FeedPage(videos: seq<Video>, page: int, limit: int)
    requires page >= 1 && limit >= 1
    ensures var all := SortNewestFirst(Filter(videos, Published));
      var skip := PageSkip(page, limit);
      var r := Feed(videos, Some(page), Some(limit));
      && skip >= 0
      && r.httpStatus == 200 && r.body.data.Some?
      && |r.body.data.value| == Max(0, Min(limit, |all| - skip))
      && forall k :: 0 <= k < |r.body.data.value| ==> r.body.data.value[k] == all[skip + k]
  {
    FeedPageServed(videos, page, limit);
  }

  /** For a positive page and limit, the feed answers the window at the page's skip. */
  lemma FeedPageServed(videos: seq<Video>, page: int, limit: int)
    requires page >= 1 && limit >= 1
    ensures PageSkip(page, limit) >= 0
    ensures Feed(videos, Some(page), Some(limit))
         == Json(200, 200, Some(Window(SortNewestFirst(Filter(videos, Published)), PageSkip(page, limit), limit)), "success")
  {
    PageSkipNonNegative(page, limit);
    assert ParsedOr(Some(page), 1) == page && ParsedOr(Some(limit), 10) == limit;
  }

  /** With the default page and limit the feed is the newest ten published videos: a prefix
      of all published videos sorted newest first. */
  lemma FeedDefaultIsFirstPage(videos: seq<Video>)
    ensures var all := SortNewestFirst(Filter(videos, Published));
      Feed(videos, None, None) == Json(200, 200, Some(all[..Min(10, |all|)]), "success")
  {
  }

  /** The `$match` filter of `getMyUploadedVideos`. */
  datatype VideoFilter = VideoFilter(owner: Id, isPublished: Option<bool>, title: Option<string>)

  /** The filter always names the current owner; it tests `isPublished` only when that query
      parameter is present, and then for `true` exactly when the parameter is "true"; it tests
      the title only when the trimmed title is non-empty, and then with the trimmed title. */
  function MyVideosFilter(userId: Id, isPublished: Option<string>, title: Option<string>): (f: VideoFilter)
    ensures f.owner == userId
    ensures f.isPublished.Some? <==> isPublished.Some?
    ensures isPublished.Some? ==> (f.isPublished.value <==> isPublished.value == "true")
    ensures f.title.Some? <==> title.Some? && Trim(title.value) != ""
    ensures f.title.Some? ==> f.title.value == Trim(title.value)
  {
    VideoFilter(userId,
                if isPublished.Some? then Some(isPublished.value == "true") else None,
                if title.Some? && Trim(title.value) != "" then Some(Trim(title.value)) else None)
  }

  /** A video matches the filter: owned by the owner, with the requested `isPublished` if one
      is set, and with a title the case-insensitive regular expression matches if one is set.
      Regular-expression matching is a parameter (`regexMatches(pattern, text)`). */
  function MatchesFilter(f: VideoFilter, regexMatches: (string, string) -> bool): Video -> bool {
    (v: Video) =>
      && v.owner == Some(f.owner)
      && (f.isPublished.Some? ==> v.isPublished == f.isPublished)
      && (f.title.Some? ==> v.title.Some? && regexMatches(f.title.value, v.title.value))
  }

  /** `getMyUploadedVideos`: the filtered videos, newest first, paged like the feed. */
  function MyVideos(videos: seq<Video>, userId: Id, page: Option<int>, limit: Option<int>,
                    isPublished: Option<string>, title: Option<string>, regexMatches: (string, string) -> bool)
    : (r: Reply<Option<seq<Video>>>)
    ensures r.Sent?
    ensures var skip := PageSkip(ParsedOr(page, 1), ParsedOr(limit, 10));
      r.httpStatus == 200 <==> skip >= 0 && ParsedOr(limit, 10) > 0
    ensures r.httpStatus != 200 ==> r == ServerError()
    ensures r.httpStatus == 200 ==>
      var p := MatchesFilter(MyVideosFilter(userId, isPublished, title), regexMatches);
      var skip := PageSkip(ParsedOr(page, 1), ParsedOr(limit, 10));
      && r.body.data == Some(Window(SortNewestFirst(Filter(videos, p)), skip, ParsedOr(limit, 10)))
      && NewestFirst(r.body.data.value)
      && forall v :: v in r.body.data.value ==> v in videos && v.owner == Some(userId) && p(v)
  {
    Paged(videos, MatchesFilter(MyVideosFilter(userId, isPublished, title), regexMatches), page, limit)
  }

  /** Every video listed by `getMyUploadedVideos` belongs to the caller and has the requested
      publication flag; with no flag and no title requested, every one of the caller's videos
      is a candidate. */
  lemma MyVideosOnlyOwn(videos: seq<Video>, userId: Id, page: Option<int>, limit: Option<int>,
                        isPublished: Option<string>, title: Option<string>, regexMatches: (string, string) -> bool)
    ensures var r := MyVideos(videos, userId, page, limit, isPublished, title, regexMatches);
      r.httpStatus == 200 ==> r.body.data.Some? && forall v :: v in r.body.data.value ==>
        && v in videos && v.owner == Some(userId)
        && (isPublished.Some? ==> v.isPublished == Some(isPublished.value == "true"))
    ensures isPublished.None? && title.None? ==>
      forall v :: v in videos && v.owner == Some(userId) ==>
        MatchesFilter(MyVideosFilter(userId, isPublished, title), regexMatches)(v)
  {
    var f := MyVideosFilter(userId, isPublished, title);
    var r := MyVideos(videos, userId, page, limit, isPublished, title, regexMatches);
    if r.httpStatus == 200 {
      forall v | v in r.body.data.value
        ensures v in videos && v.owner == Some(userId)
        ensures isPublished.Some? ==> v.isPublished == Some(isPublished.value == "true")
      {
        assert MatchesFilter(f, regexMatches)(v);
      }
    }
  }

  // ---------------------------------------------------------------------------
  // editVideo

  /** `editVideo`: the video must exist, a thumbnail file must have been received and its
      upload must succeed (the upload result is a parameter: the uploaded URL, or None when the
      upload returned null); then title, description, isPublished and thumbnail are assigned
      and the document is saved with validation. Every failure is 400 with nothing written. */
  function EditVideo(videos: seq<Video>, id: Id, title: Option<string>, description: Option<string>,
                     isPublished: Option<bool>, thumbnailPath: Option<string>, uploadedUrl: Option<string>)
    : (r: Outcome<seq<Video>, Video>)
    ensures r.reply.Thrown? ==> r.reply.statusCode == 400 && r.state == videos
    ensures IndexOfVideo(videos, id).None? || !Truthy(thumbnailPath) || uploadedUrl.None? ==> r.reply.Thrown?
    ensures r.reply.Sent? ==>
      var v := r.reply.body.data;
      && r.reply.httpStatus == 200 && ValidVideo(v) && uploadedUrl.Some?
      && v.title == title && v.description == description && v.isPublished == isPublished
      && v.thumbnail == Some(uploadedUrl.value)
      && exists k :: 0 <= k < |videos| && videos[k].id == id
           && v == videos[k].(title := v.title, description := v.description,
                              isPublished := v.isPublished, thumbnail := v.thumbnail)
           && r.state == videos[k := v]
    ensures r.reply.Sent? <==>
      && IndexOfVideo(videos, id).Some? && Truthy(thumbnailPath) && uploadedUrl.Some?
      && ValidVideo(videos[IndexOfVideo(videos, id).value].(title := title, description := description,
                                                            isPublished := isPublished,
                                                            thumbnail := Some(uploadedUrl.value)))
  {
    match IndexOfVideo(videos, id)
    case None => Outcome(videos, Thrown(400))
    case Some(i) =>
      if !Truthy(thumbnailPath) || uploadedUrl.None? then Outcome(videos, Thrown(400))
      else
        var doc := videos[i].(title := title, description := description, isPublished := isPublished,
                              thumbnail := Some(uploadedUrl.value));
        if !ValidVideo(doc) then Outcome(videos, Thrown(400))
        else Outcome(videos[i := doc], Json(200, 200, doc, "Video update successfully"))
  }

  /** Rewriting one record without changing its id does not move any id's first position. */
  lemma VideoIdLocatesAfterWrite(videos: seq<Video>, i: nat, v: Video, id: Id)
    requires i < |videos| && v.id == videos[i].id
    ensures IndexOfVideo(videos[i := v], id) == IndexOfVideo(videos, id)
  {
    var videos' := videos[i := v];
    assert forall k :: 0 <= k < |videos| ==> videos'[k].id == videos[k].id;
  }

  /** Repeating a successful edit with the same request (and the same upload result) leaves
      the collection as the first edit left it and returns the same record. */
  lemma EditVideoTwice(videos: seq<Video>, id: Id, title: Option<string>, description: Option<string>,
                       isPublished: Option<bool>, thumbnailPath: Option<string>, uploadedUrl: Option<string>)
    requires EditVideo(videos, id, title, description, isPublished, thumbnailPath, uploadedUrl).reply.Sent?
    ensures var first := EditVideo(videos, id, title, description, isPublished, thumbnailPath, uploadedUrl);
      EditVideo(first.state, id, title, description, isPublished, thumbnailPath, uploadedUrl) == first
  {
    var i := IndexOfVideo(videos, id).value;
    var doc := videos[i].(title := title, description := description, isPublished := isPublished,
                          thumbnail := Some(uploadedUrl.value));
    VideoIdLocatesAfterWrite(videos, i, doc, id);
    assert videos[i := doc][i := doc] == videos[i := doc];
  }

  method EditVideoFields(db: Store, id: Id, title: Option<string>, description: Option<string>,
                         isPublished: Option<bool>, thumbnailPath: Option<string>, uploadedUrl: Option<string>)
    returns (reply: Reply<Video>)
    requires db.Valid()
    modifies db`videos
    ensures db.Valid()
    ensures Outcome(db.videos, reply)
         == EditVideo(old(db.videos), id, title, description, isPublished, thumbnailPath, uploadedUrl)
  {
    var found := IndexOfVideo(db.videos, id);
    if found.None? {
      return Thrown(400);
    }
    if !Truthy(thumbnailPath) || uploadedUrl.None? {
      return Thrown(400);
    }
    var i := found.value;
    var doc := db.videos[i].(title := title, description := description, isPublished := isPublished,
                             thumbnail := Some(uploadedUrl.value));
    var ok := db.SaveVideo(i, doc);
    if !ok {
      return Thrown(400);
    }
    reply := Json(200, 200, doc, "Video update successfully");
  }
}
