/** The like handlers: a user's reaction to a video or to a comment is a like record keyed by
    the user and its target. A request creates the record, flips its `isLike`, or is refused as
    a repeat. */
module LikeController {
  import opened Js
  import opened ApiResponses
  import opened VideoModel
  import opened LikeModel
  import opened Db
  import opened VideoController

  /** The records `postLikeVideo` looks up: `{ likeType: "video", video, likedBy }`. */
  function VideoReactionBy(videoId: Id, userId: Id): Like -> bool {
    (l: Like) => l.likeType == Some(VideoKind) && l.video == Some(videoId) && l.likedBy == Some(userId)
  }

  /** The records `postLikeTheComment` looks up: `{ likeType: "comment", video, likedBy, comment }`. */
  function CommentReactionBy(videoId: Id, userId: Id, commentId: Id): Like -> bool {
    (l: Like) => l.likeType == Some(CommentKind) && l.video == Some(videoId)
                 && l.likedBy == Some(userId) && l.comment == Some(commentId)
  }

  function AlreadyMessage(isLike: bool): string {
    if isLike then "Already liked the video." else "Already disliked the video."
  }

  // ---------------------------------------------------------------------------
  // The reject / flip / create step shared by both handlers

  /** The first record matching `key`: the same `isLike` (loose equality, which a null never
      meets) is refused with 400 and the record; a different one is flipped and saved with
      validation; no record at all creates `created`. */
  function React(likes: seq<Like>, key: Like -> bool, isLike: bool, created: Like, createdMessage: string)
    : (r: Outcome<seq<Like>, Like>)
    requires key(created) && created.isLike == Some(isLike)
    requires forall l: Like :: key(l) ==> key(l.(isLike := Some(isLike)))
    ensures r.reply.Sent? && r.reply.httpStatus == 400 ==>
      r.state == likes && r.reply.body.data.isLike == Some(isLike) && key(r.reply.body.data)
      && !r.reply.body.success
    ensures r.reply.Thrown? ==> r.state == likes
    ensures r.reply.Sent? && r.reply.httpStatus == 200 ==>
      r.reply.body.data.isLike == Some(isLike) && key(r.reply.body.data)
      && First(r.state, key) == Some(if First(likes, key).Some? then First(likes, key).value else |likes|)
      && r.state[First(r.state, key).value] == r.reply.body.data
    ensures r.reply.Sent? && r.reply.httpStatus == 200 && First(likes, key).None? ==>
      r.state == likes + [created] && r.reply.body.data == created
    ensures r.reply.Sent? && r.reply.httpStatus == 200 && First(likes, key).Some? ==>
      var i := First(likes, key).value;
      r.state == likes[i := likes[i].(isLike := Some(isLike))] && likes[i].isLike != Some(isLike)
    ensures r.reply.Sent? ==> r.reply.httpStatus == 200 || r.reply.httpStatus == 400
    ensures First(likes, key).None? ==> r == Outcome(likes + [created], Json(200, 200, created, createdMessage))
    ensures First(likes, key).Some? && likes[First(likes, key).value].isLike == Some(isLike) ==>
      var i := First(likes, key).value;
      r == Outcome(likes, Sent(400, [], NewApiResponse(400, likes[i], Some(AlreadyMessage(isLike)))))
    ensures First(likes, key).Some? && likes[First(likes, key).value].isLike != Some(isLike) ==>
      var i := First(likes, key).value;
      var doc := likes[i].(isLike := Some(isLike));
      r == if ValidLike(doc) then Outcome(likes[i := doc], Json(200, 200, doc, "success."))
           else Outcome(likes, Thrown(500))
  {
    match First(likes, key)
    case Some(i) =>
      if likes[i].isLike == Some(isLike) then
        Outcome(likes, Sent(400, [], NewApiResponse(400, likes[i], Some(AlreadyMessage(isLike)))))
      else
        var doc := likes[i].(isLike := Some(isLike));
        if !ValidLike(doc) then Outcome(likes, Thrown(500))
        else
          assert forall j :: 0 <= j < i ==> likes[i := doc][j] == likes[j];
          FirstAt(likes[i := doc], key, i);
          Outcome(likes[i := doc], Json(200, 200, doc, "success."))
    case None =>
      assert (likes + [created])[|likes|] == created;
      assert forall j :: 0 <= j < |likes| ==> (likes + [created])[j] == likes[j];
      FirstAt(likes + [created], key, |likes|);
      Outcome(likes + [created], Json(200, 200, created, createdMessage))
  }

  method ReactIn(db: Store, key: Like -> bool, isLike: bool, likeType: string, comment: Option<Id>,
                 video: Id, likedBy: Id, createdMessage: string)
    returns (reply: Reply<Like>)
    requires db.Valid()
    requires likeType == VideoKind || likeType == CommentKind
    requires key(NewLike(db.nextId, Some(likeType), Some(isLike), comment, Some(video), Some(likedBy)))
    requires forall l: Like :: key(l) ==> key(l.(isLike := Some(isLike)))
    modifies db`likes, db`nextId
    ensures db.Valid()
    ensures var created := NewLike(old(db.nextId), Some(likeType), Some(isLike), comment, Some(video), Some(likedBy));
      Outcome(db.likes, reply) == React(old(db.likes), key, isLike, created, createdMessage)
    ensures db.nextId == if First(old(db.likes), key).None? then old(db.nextId) + 1 else old(db.nextId)
  {
    var found := First(db.likes, key);
    if found.Some? {
      var i := found.value;
      if db.likes[i].isLike == Some(isLike) {
        return Sent(400, [], NewApiResponse(400, db.likes[i], Some(AlreadyMessage(isLike))));
      }
      var doc := db.likes[i].(isLike := Some(isLike));
      var ok := db.SaveLike(i, doc);
      if !ok {
        return Thrown(500);
      }
      return Json(200, 200, doc, "success.");
    }
    var created := db.CreateLike(Some(likeType), Some(isLike), comment, Some(video), Some(likedBy));
    reply := Json(200, 200, created.value, createdMessage);
  }

  // ---------------------------------------------------------------------------
  // postLikeVideo

  /** `postLikeVideo` for the authenticated `userId`: a missing video id or `isLike` is 400, a
      video that does not exist is 404, both thrown with nothing written; otherwise the shared
      step keyed by (video, user) with a new record `{ likeType: "video", isLike, video,
      likedBy }` under the fresh id `next`. */
  function LikeVideo(likes: seq<Like>, videos: seq<Video>, next: Id, userId: Id,
                     videoId: Option<Id>, isLike: Option<bool>)
    : (r: Outcome<seq<Like>, Like>)
    ensures videoId.None? || isLike.None? ==> r == Outcome(likes, Thrown(400))
    ensures videoId.Some? && isLike.Some? && IndexOfVideo(videos, videoId.value).None? ==> r == Outcome(likes, Thrown(404))
    ensures r.reply.Thrown? || (r.reply.Sent? && r.reply.httpStatus != 200) ==> r.state == likes
    ensures r.reply.Sent? && r.reply.httpStatus == 200 ==>
      videoId.Some? && isLike.Some? && IndexOfVideo(videos, videoId.value).Some?
      && r.reply.body.data.isLike == isLike && r.reply.body.data.likedBy == Some(userId)
      && r.reply.body.data.video == videoId && r.reply.body.data.likeType == Some(VideoKind)
    ensures videoId.Some? && isLike.Some? && IndexOfVideo(videos, videoId.value).Some? ==>
      var key := VideoReactionBy(videoId.value, userId);
      var created := NewLike(next, Some(VideoKind), isLike, None, videoId, Some(userId));
      && (First(likes, key).None? ==>
            r == Outcome(likes + [created], Json(200, 200, created, "Video liked successfully.")))
      && (First(likes, key).Some? ==>
            var i := First(likes, key).value;
            if likes[i].isLike == isLike then
              r == Outcome(likes, Sent(400, [], NewApiResponse(400, likes[i], Some(AlreadyMessage(isLike.value)))))
            else
              r == Outcome(likes[i := likes[i].(isLike := isLike)], Json(200, 200, likes[i].(isLike := isLike), "success.")))
  {
    if videoId.None? || isLike.None? then Outcome(likes, Thrown(400))
    else if IndexOfVideo(videos, videoId.value).None? then Outcome(likes, Thrown(404))
    else
      React(likes, VideoReactionBy(videoId.value, userId), isLike.value,
            NewLike(next, Some(VideoKind), isLike, None, videoId, Some(userId)), "Video liked successfully.")
  }

  method PostLikeVideo(db: Store, userId: Id, videoId: Option<Id>, isLike: Option<bool>)
    returns (reply: Reply<Like>)
    requires db.Valid()
    modifies db`likes, db`nextId
    ensures db.Valid()
    ensures Outcome(db.likes, reply) == LikeVideo(old(db.likes), db.videos, old(db.nextId), userId, videoId, isLike)
  {
    if videoId.None? || isLike.None? {
      return Thrown(400);
    }
    if IndexOfVideo(db.videos, videoId.value).None? {
      return Thrown(404);
    }
    reply := ReactIn(db, VideoReactionBy(videoId.value, userId), isLike.value, VideoKind, None,
                     videoId.value, userId, "Video liked successfully.");
  }

  /** At most one video reaction per (video, user): a request keeps that for every pair, and
      after a successful one the requesting pair has exactly one. */
  lemma LikeVideoKeepsAtMostOne(likes: seq<Like>, videos: seq<Video>, next: Id, userId: Id,
                                videoId: Option<Id>, isLike: Option<bool>, v: Id, u: Id)
    requires Count(likes, VideoReactionBy(v, u)) <= 1
    ensures var r := LikeVideo(likes, videos, next, userId, videoId, isLike);
      && Count(r.state, VideoReactionBy(v, u)) <= 1
      && (r.reply.Sent? && r.reply.httpStatus == 200 && videoId == Some(v) && userId == u ==>
            Count(r.state, VideoReactionBy(v, u)) == 1)
  {
    var r := LikeVideo(likes, videos, next, userId, videoId, isLike);
    if r.reply.Sent? && r.reply.httpStatus == 200 {
      var key := VideoReactionBy(videoId.value, userId);
      var created := NewLike(next, Some(VideoKind), isLike, None, videoId, Some(userId));
      match First(likes, key)
      case None =>
        CountAppend(likes, created, VideoReactionBy(v, u));
        if videoId == Some(v) && userId == u {
          assert Count(likes, key) == 0;
        }
      case Some(i) =>
        CountUpdate(likes, i, likes[i].(isLike := isLike), VideoReactionBy(v, u));
        if videoId == Some(v) && userId == u {
          assert key(likes[i]);
        }
    }
  }

  /** What a successful video reaction does to the counts the detail view shows: the count of
      the requested kind grows by one; the other kind shrinks by at most one (by one exactly
      when the user's earlier reaction is flipped). A refused repeat changes neither. */
  lemma LikeVideoCounts(likes: seq<Like>, videos: seq<Video>, next: Id, userId: Id, videoId: Id, isLike: bool)
    ensures var r := LikeVideo(likes, videos, next, userId, Some(videoId), Some(isLike));
      && (r.reply.Sent? && r.reply.httpStatus == 200 ==>
            && Count(r.state, VideoVotes(videoId, isLike)) == Count(likes, VideoVotes(videoId, isLike)) + 1
            && Count(likes, VideoVotes(videoId, !isLike)) - 1 <= Count(r.state, VideoVotes(videoId, !isLike))
                 <= Count(likes, VideoVotes(videoId, !isLike)))
      && (r.reply.Sent? && r.reply.httpStatus == 400 ==>
            Count(r.state, VideoVotes(videoId, isLike)) == Count(likes, VideoVotes(videoId, isLike)))
  {
    var r := LikeVideo(likes, videos, next, userId, Some(videoId), Some(isLike));
    if r.reply.Sent? && r.reply.httpStatus == 200 {
      var key := VideoReactionBy(videoId, userId);
      var created := NewLike(next, Some(VideoKind), Some(isLike), None, Some(videoId), Some(userId));
      match First(likes, key)
      case None =>
        CountAppend(likes, created, VideoVotes(videoId, isLike));
        CountAppend(likes, created, VideoVotes(videoId, !isLike));
      case Some(i) =>
        CountUpdate(likes, i, likes[i].(isLike := Some(isLike)), VideoVotes(videoId, isLike));
        CountUpdate(likes, i, likes[i].(isLike := Some(isLike)), VideoVotes(videoId, !isLike));
    }
  }

  /** Repeating a successful reaction is refused and writes nothing. */
  lemma LikeVideoRepeatRefused(likes: seq<Like>, videos: seq<Video>, next: Id, userId: Id,
                               videoId: Id, isLike: bool, later: Id)
    requires LikeVideo(likes, videos, next, userId, Some(videoId), Some(isLike)).reply.Sent?
    requires LikeVideo(likes, videos, next, userId, Some(videoId), Some(isLike)).reply.httpStatus == 200
    ensures var after := LikeVideo(likes, videos, next, userId, Some(videoId), Some(isLike)).state;
      var again := LikeVideo(after, videos, later, userId, Some(videoId), Some(isLike));
      again.state == after && again.reply.Sent? && again.reply.httpStatus == 400
  {
  }

  // ---------------------------------------------------------------------------
  // postLikeTheComment

  /** `postLikeTheComment`: video id, comment id and `isLike` are all required (400), the video
      must exist (404); the comment's existence is not checked. Then the shared step keyed by
      (video, user, comment) with a new record `{ likeType: "comment", isLike, video, likedBy,
      comment }`. */
  function LikeComment(likes: seq<Like>, videos: seq<Video>, next: Id, userId: Id,
                       videoId: Option<Id>, commentId: Option<Id>, isLike: Option<bool>)
    : (r: Outcome<seq<Like>, Like>)
    ensures videoId.None? || commentId.None? || isLike.None? ==> r == Outcome(likes, Thrown(400))
    ensures videoId.Some? && commentId.Some? && isLike.Some? && IndexOfVideo(videos, videoId.value).None? ==>
      r == Outcome(likes, Thrown(404))
    ensures r.reply.Thrown? || (r.reply.Sent? && r.reply.httpStatus != 200) ==> r.state == likes
    ensures r.reply.Sent? && r.reply.httpStatus == 200 ==>
      commentId.Some? && r.reply.body.data.comment == commentId && r.reply.body.data.likeType == Some(CommentKind)
      && r.reply.body.data.isLike == isLike && r.reply.body.data.likedBy == Some(userId)
    ensures videoId.Some? && commentId.Some? && isLike.Some? && IndexOfVideo(videos, videoId.value).Some? ==>
      var key := CommentReactionBy(videoId.value, userId, commentId.value);
      var created := NewLike(next, Some(CommentKind), isLike, commentId, videoId, Some(userId));
      && (First(likes, key).None? ==>
            r == Outcome(likes + [created], Json(200, 200, created, "Comment liked successfully.")))
      && (First(likes, key).Some? ==>
            var i := First(likes, key).value;
            if likes[i].isLike == isLike then
              r == Outcome(likes, Sent(400, [], NewApiResponse(400, likes[i], Some(AlreadyMessage(isLike.value)))))
            else
              r == Outcome(likes[i := likes[i].(isLike := isLike)], Json(200, 200, likes[i].(isLike := isLike), "success.")))
  {
    if videoId.None? || commentId.None? || isLike.None? then Outcome(likes, Thrown(400))
    else if IndexOfVideo(videos, videoId.value).None? then Outcome(likes, Thrown(404))
    else
      React(likes, CommentReactionBy(videoId.value, userId, commentId.value), isLike.value,
            NewLike(next, Some(CommentKind), isLike, commentId, videoId, Some(userId)), "Comment liked successfully.")
  }

  method PostLikeTheComment(db: Store, userId: Id, videoId: Option<Id>, commentId: Option<Id>, isLike: Option<bool>)
    returns (reply: Reply<Like>)
    requires db.Valid()
    modifies db`likes, db`nextId
    ensures db.Valid()
    ensures Outcome(db.likes, reply) == LikeComment(old(db.likes), db.videos, old(db.nextId), userId, videoId, commentId, isLike)
  {
    if videoId.None? || commentId.None? || isLike.None? {
      return Thrown(400);
    }
    if IndexOfVideo(db.videos, videoId.value).None? {
      return Thrown(404);
    }
    reply := ReactIn(db, CommentReactionBy(videoId.value, userId, commentId.value), isLike.value, CommentKind,
                     commentId, videoId.value, userId, "Comment liked successfully.");
  }

  /** At most one comment reaction per (video, user, comment) is kept by every request. */
  lemma LikeCommentKeepsAtMostOne(likes: seq<Like>, videos: seq<Video>, next: Id, userId: Id,
                                  videoId: Option<Id>, commentId: Option<Id>, isLike: Option<bool>,
                                  v: Id, u: Id, c: Id)
    requires Count(likes, CommentReactionBy(v, u, c)) <= 1
    ensures Count(LikeComment(likes, videos, next, userId, videoId, commentId, isLike).state, CommentReactionBy(v, u, c)) <= 1
  {
    var r := LikeComment(likes, videos, next, userId, videoId, commentId, isLike);
    if r.reply.Sent? && r.reply.httpStatus == 200 {
      var key := CommentReactionBy(videoId.value, userId, commentId.value);
      var created := NewLike(next, Some(CommentKind), isLike, commentId, videoId, Some(userId));
      match First(likes, key)
      case None =>
        CountAppend(likes, created, CommentReactionBy(v, u, c));
        if videoId == Some(v) && userId == u && commentId == Some(c) {
          assert Count(likes, key) == 0;
        }
      case Some(i) =>
        CountUpdate(likes, i, likes[i].(isLike := isLike), CommentReactionBy(v, u, c));
    }
  }

  /** The detail view's `totalCommentLike` counts reactions, not likes: a new comment reaction
      raises it by one whether it is a like or a dislike, and a flip leaves it unchanged. */
  lemma LikeCommentCounts(likes: seq<Like>, videos: seq<Video>, next: Id, userId: Id,
                          videoId: Id, commentId: Id, isLike: bool)
    ensures var r := LikeComment(likes, videos, next, userId, Some(videoId), Some(commentId), Some(isLike));
      var key := CommentReactionBy(videoId, userId, commentId);
      && (r.reply.Sent? && r.reply.httpStatus == 200 && First(likes, key).None? ==>
            Count(r.state, IsCommentLike(commentId)) == Count(likes, IsCommentLike(commentId)) + 1)
      && (First(likes, key).Some? ==>
            Count(r.state, IsCommentLike(commentId)) == Count(likes, IsCommentLike(commentId)))
  {
    var r := LikeComment(likes, videos, next, userId, Some(videoId), Some(commentId), Some(isLike));
    var key := CommentReactionBy(videoId, userId, commentId);
    var created := NewLike(next, Some(CommentKind), Some(isLike), Some(commentId), Some(videoId), Some(userId));
    match First(likes, key)
    case None =>
      if r.reply.Sent? && r.reply.httpStatus == 200 {
        CountAppend(likes, created, IsCommentLike(commentId));
      }
    case Some(i) =>
      CountUpdate(likes, i, likes[i].(isLike := Some(isLike)), IsCommentLike(commentId));
  }

  // ---------------------------------------------------------------------------
  // createLike

  /** The result of `createLike`: `{ alreadyLiked, like }`. */
  datatype CreateLikeResult = CreateLikeResult(alreadyLiked: bool, like: Like)

  /** The helper's effect: the like collection afterwards, and its result, or None when the
      returned promise rejects. */
  datatype CreateLikeOutcome = CreateLikeOutcome(likes: seq<Like>, result: Option<CreateLikeResult>)

  /** The payload `{ video, likedBy }`, plus `comment` when a comment id is given, used as a
      lookup filter. */
  function PayloadFilter(videoId: Id, userId: Id, commentId: Option<Id>): Like -> bool {
    (l: Like) => l.video == Some(videoId) && l.likedBy == Some(userId) && (commentId.Some? ==> l.comment == commentId)
  }

  /** `createLike` as written: an existing record matching the payload is returned with
      `alreadyLiked: true`; otherwise `Like.create(payload)` runs, but the payload carries no
      `likeType`, which the schema requires, so the create is refused by validation. */
  function CreateLikeAsWritten(likes: seq<Like>, next: Id, commentId: Option<Id>, videoId: Id, userId: Id)
    : (r: CreateLikeOutcome)
    ensures r.likes == likes
  {
    match First(likes, PayloadFilter(videoId, userId, commentId))
    case Some(i) => CreateLikeOutcome(likes, Some(CreateLikeResult(true, likes[i])))
    case None =>
      var l := NewLike(next, None, None, commentId, Some(videoId), Some(userId));
      if ValidLike(l) then CreateLikeOutcome(likes + [l], Some(CreateLikeResult(false, l)))
      else CreateLikeOutcome(likes, None)
  }

  /** The first like of a user on a video cannot be recorded by `createLike` as written: the
      promise rejects. */
  lemma CreateLikeAsWrittenRejectsFirstLike(videoId: Id, userId: Id, next: Id)
    ensures CreateLikeAsWritten([], next, None, videoId, userId) == CreateLikeOutcome([], None)
  {
  }

  /** `createLike` as evidently intended: the same lookup, and a created record that also
      carries its `likeType`: "comment" when a comment id is given, "video" otherwise. */
  function CreateLike(likes: seq<Like>, next: Id, commentId: Option<Id>, videoId: Id, userId: Id)
    : (r: CreateLikeOutcome)
    ensures r.result.Some?
    ensures r.result.value.alreadyLiked <==> First(likes, PayloadFilter(videoId, userId, commentId)).Some?
    ensures r.result.value.alreadyLiked ==> r.likes == likes && r.result.value.like in likes
    ensures !r.result.value.alreadyLiked ==>
      var l := r.result.value.like;
      && r.likes == likes + [l] && ValidLike(l) && l.id == next && l.isLike.None?
      && l.likeType == Some(if commentId.Some? then CommentKind else VideoKind)
      && PayloadFilter(videoId, userId, commentId)(l)
  {
    match First(likes, PayloadFilter(videoId, userId, commentId))
    case Some(i) => CreateLikeOutcome(likes, Some(CreateLikeResult(true, likes[i])))
    case None =>
      var kind := if commentId.Some? then CommentKind else VideoKind;
      var l := NewLike(next, Some(kind), None, commentId, Some(videoId), Some(userId));
      CreateLikeOutcome(likes + [l], Some(CreateLikeResult(false, l)))
  }

  /** Calling the corrected helper twice creates at most one record: the second call finds the
      first call's record (or the one that was already there) and writes nothing. */
  lemma CreateLikeTwice(likes: seq<Like>, next: Id, later: Id, commentId: Option<Id>, videoId: Id, userId: Id)
    ensures var first := CreateLike(likes, next, commentId, videoId, userId);
      var second := CreateLike(first.likes, later, commentId, videoId, userId);
      && second.likes == first.likes
      && second.result.value.alreadyLiked
      && |second.likes| <= |likes| + 1
  {
    var first := CreateLike(likes, next, commentId, videoId, userId);
    if !first.result.value.alreadyLiked {
      var l := first.result.value.like;
      assert first.likes[|likes|] == l;
    }
  }

  method CreateLikeRecord(db: Store, commentId: Option<Id>, videoId: Id, userId: Id)
    returns (result: CreateLikeResult)
    requires db.Valid()
    modifies db`likes, db`nextId
    ensures db.Valid()
    ensures CreateLike(old(db.likes), old(db.nextId), commentId, videoId, userId)
         == CreateLikeOutcome(db.likes, Some(result))
  {
    var found := First(db.likes, PayloadFilter(videoId, userId, commentId));
    if found.Some? {
      return CreateLikeResult(true, db.likes[found.value]);
    }
    var kind := if commentId.Some? then CommentKind else VideoKind;
    var created := db.CreateLike(Some(kind), None, commentId, Some(videoId), Some(userId));
    result := CreateLikeResult(false, created.value);
  }
}
