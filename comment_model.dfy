/** The comment schema: required, trimmed content on a video by an owner. */
module CommentModel {
  import opened Js

  datatype Comment = Comment(id: Id, content: Option<string>, video: Option<Id>, owner: Option<Id>)

  /** The schema's validators: `content`, `video` and `owner` are required. */
  predicate ValidComment(c: Comment) {
    RequiredString(c.content) && c.video.Some? && c.owner.Some?
  }

  /** What the `trim: true` setter guarantees of every stored comment. */
  predicate ContentTrimmed(c: Comment) {
    c.content.Some? ==> Unpadded(c.content.value)
  }

  /** `Comment.create({content, video, owner})` before validation: the content setter trims. */
  function NewComment(id: Id, content: Option<string>, video: Option<Id>, owner: Option<Id>): (c: Comment)
    ensures ContentTrimmed(c)
    ensures c.id == id && c.video == video && c.owner == owner
    ensures content.None? ==> c.content.None?
    ensures content.Some? ==> c.content == Some(Trim(content.value))
    ensures ValidComment(c) <==> content.Some? && Trim(content.value) != "" && video.Some? && owner.Some?
  {
    if content.None? then Comment(id, None, video, owner)
    else
      TrimUnpadded(content.value);
      Comment(id, Some(Trim(content.value)), video, owner)
  }
}
