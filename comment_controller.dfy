/** `postComment`: the authenticated user comments on a video. Every failure, including a
    validation error, is answered with the same 400 response. */
module CommentController {
  import opened Js
  import opened ApiResponses
  import opened VideoModel
  import opened LikeModel
  import opened CommentModel
  import opened Db
  import opened VideoController

  /** The answer to any failure: `res.status(400).json(new ApiResponse(400, null, ...))`. */
  function CommentFailed(): Reply<Option<Comment>> {
    Json(400, 400, None, "Failed to post comment.")
  }

  /** `postComment` for the authenticated `userId`: a request with neither a comment nor a video
      id, a video id naming no video (or none at all), a missing comment (`comment.trim()` throws)
      and a comment that is blank after trimming (the `required` validator) all fail with nothing
      written; otherwise the trimmed comment is stored under the fresh id `next` and returned
      with HTTP status 201 (the envelope says 200). */
  function PostComment(comments: seq<Comment>, videos: seq<Video>, next: Id, userId: Id,
                       comment: Option<string>, videoId: Option<Id>)
    : (r: Outcome<seq<Comment>, Option<Comment>>)
    ensures r.reply.Sent?
    ensures r.reply.httpStatus == 201 || r == Outcome(comments, CommentFailed())
    ensures r.reply.httpStatus == 201 <==>
      && comment.Some? && Trim(comment.value) != ""
      && videoId.Some? && IndexOfVideo(videos, videoId.value).Some?
    ensures r.reply.httpStatus == 201 ==>
      var c := Comment(next, Some(Trim(comment.value)), videoId, Some(userId));
      && r.state == comments + [c] && ValidComment(c) && ContentTrimmed(c)
      && r.reply.body == NewApiResponse(200, Some(c), Some("Comment Post Successfully."))
  {
    if !Truthy(comment) && videoId.None? then Outcome(comments, CommentFailed())
    else if videoId.None? || IndexOfVideo(videos, videoId.value).None? then Outcome(comments, CommentFailed())
    else if comment.None? then Outcome(comments, CommentFailed())
    else
      var t := Trim(comment.value);
      TrimIdempotent(comment.value);
      var c := NewComment(next, Some(t), videoId, Some(userId));
      assert c == Comment(next, Some(t), videoId, Some(userId));
      if !ValidComment(c) then Outcome(comments, CommentFailed())
      else Outcome(comments + [c], Sent(201, [], NewApiResponse(200, Some(c), Some("Comment Post Successfully."))))
  }

  method PostCommentOn(db: Store, userId: Id, comment: Option<string>, videoId: Option<Id>)
    returns (reply: Reply<Option<Comment>>)
    requires db.Valid()
    modifies db`comments, db`nextId
    ensures db.Valid()
    ensures Outcome(db.comments, reply) == PostComment(old(db.comments), db.videos, old(db.nextId), userId, comment, videoId)
  {
    if !Truthy(comment) && videoId.None? {
      return CommentFailed();
    }
    if videoId.None? || IndexOfVideo(db.videos, videoId.value).None? {
      return CommentFailed();
    }
    if comment.None? {
      return CommentFailed();
    }
    var c := NewComment(db.nextId, Some(Trim(comment.value)), videoId, Some(userId));
    var ok := db.CreateComment(c);
    if !ok {
      return CommentFailed();
    }
    reply := Sent(201, [], NewApiResponse(200, Some(c), Some("Comment Post Successfully.")));
  }

  /** Appending a comment on another video leaves a video's comment list alone; appending one
      on the video adds its detail at the end. */
  lemma {:induction false} CommentsOfAppend(comments: seq<Comment>, likes: seq<Like>, videoId: Id, c: Comment)
    ensures CommentsOf(comments + [c], likes, videoId) == CommentsOf(comments, likes, videoId) + DetailIfOn(c, likes, videoId)
  {
    if comments == [] {
      assert CommentsOf([c], likes, videoId) == DetailIfOn(c, likes, videoId) + CommentsOf([], likes, videoId);
    } else {
      var s := comments + [c];
      assert s[0] == comments[0] && s[1..] == comments[1..] + [c];
      CommentsOfAppend(comments[1..], likes, videoId, c);
    }
  }

  /** A posted comment shows up last in its video's detail view, with its trimmed content and
      the like count of its id, and no other video's comment list changes. */
  lemma PostedCommentIsListed(comments: seq<Comment>, videos: seq<Video>, likes: seq<Like>, next: Id,
                              userId: Id, comment: Option<string>, videoId: Option<Id>, other: Id)
    requires PostComment(comments, videos, next, userId, comment, videoId).reply.httpStatus == 201
    ensures var r := PostComment(comments, videos, next, userId, comment, videoId);
      && CommentsOf(r.state, likes, videoId.value)
         == CommentsOf(comments, likes, videoId.value)
            + [CommentDetail(next, Some(Trim(comment.value)), Count(likes, IsCommentLike(next)))]
      && (Some(other) != videoId ==> CommentsOf(r.state, likes, other) == CommentsOf(comments, likes, other))
  {
    var c := Comment(next, Some(Trim(comment.value)), videoId, Some(userId));
    CommentsOfAppend(comments, likes, videoId.value, c);
    CommentsOfAppend(comments, likes, other, c);
  }
}
