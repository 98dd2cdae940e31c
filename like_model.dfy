/** The like schema: one record per reaction of a user to a video or to a comment. */
module LikeModel {
  import opened Js

  /** A like document; `isLike` is true for a like, false for a dislike and None for null. */
  datatype Like = Like(
    id: Id,
    likeType: Option<string>,
    isLike: Option<bool>,
    comment: Option<Id>,
    video: Option<Id>,
    likedBy: Option<Id>)

  const VideoKind := "video"
  const CommentKind := "comment"

  /** The schema's validators: `likeType` is required and one of "video" and "comment";
      `likedBy` is required; `comment` and `video` are optional references. */
  predicate ValidLike(l: Like) {
    l.likeType.Some? && (l.likeType.value == VideoKind || l.likeType.value == CommentKind)
    && l.likedBy.Some?
  }

  /** `Like.create(payload)` before validation: an `isLike` the payload leaves out is null. */
  function NewLike(id: Id, likeType: Option<string>, isLike: Option<bool>, comment: Option<Id>,
                   video: Option<Id>, likedBy: Option<Id>): (l: Like)
    ensures l.id == id && l.likeType == likeType && l.comment == comment && l.video == video
    ensures l.likedBy == likedBy
    ensures isLike.None? ==> l.isLike.None?
    ensures ValidLike(l) <==> likedBy.Some? && (likeType == Some(VideoKind) || likeType == Some(CommentKind))
  {
    Like(id, likeType, isLike, comment, video, likedBy)
  }
}
