/** The video schema: required fields, length and range constraints, and defaults. */
module VideoModel {
  import opened Js

  /** A video document. Fields the schema does not force to exist are optional here; `views`
      always exists because its default is applied when the document is created. */
  datatype Video = Video(
    id: Id,
    videoFile: Option<string>,
    thumbnail: Option<string>,
    title: Option<string>,
    description: Option<string>,
    duration: Option<real>,
    views: real,
    isPublished: Option<bool>,
    owner: Option<Id>,
    createdAt: nat)

  const MaxTitleLength := 150
  const MaxDescriptionLength := 1000

  /** The schema's validators: videoFile, thumbnail, title, description, duration and owner are
      required; title is at most 150 characters, description at most 1000, duration at least 1. */
  predicate ValidVideo(v: Video) {
    && RequiredString(v.videoFile)
    && RequiredString(v.thumbnail)
    && RequiredString(v.title) && |v.title.value| <= MaxTitleLength
    && RequiredString(v.description) && |v.description.value| <= MaxDescriptionLength
    && v.duration.Some? && v.duration.value >= 1.0
    && v.owner.Some?
  }

  /** `Video.create({...})` before validation: `views` starts at 0 and an omitted `isPublished`
      defaults to true. */
  function NewVideo(id: Id, videoFile: Option<string>, thumbnail: Option<string>, title: Option<string>,
                    description: Option<string>, duration: Option<real>, isPublished: Option<bool>,
                    owner: Option<Id>, createdAt: nat): (v: Video)
    ensures v.id == id && v.views == 0.0 && v.createdAt == createdAt
    ensures v.isPublished == (if isPublished.None? then Some(true) else isPublished)
    ensures v.videoFile == videoFile && v.thumbnail == thumbnail && v.title == title
    ensures v.description == description && v.duration == duration && v.owner == owner
  {
    Video(id, videoFile, thumbnail, title, description, duration, 0.0,
          if isPublished.None? then Some(true) else isPublished, owner, createdAt)
  }

  /** A video is on the public feed exactly when `isPublished` is true. */
  predicate Published(v: Video) {
    v.isPublished == Some(true)
  }
}
