/** The document store, abstracted as an in-memory object holding one sequence per collection
    in natural (insertion) order, plus the source of fresh ObjectIds. A loaded document is a
    value; writing it back (`save`, `create`, `deleteOne`, `findByIdAndUpdate`) reassigns the
    collection. Documents are written back at the position they were loaded from, which is the
    position of their `_id` because ids are distinct. */
module Db {
  import opened Js
  import opened UserModel
  import opened VideoModel
  import opened LikeModel
  import opened CommentModel
  import opened SubscriptionModel

  // ---------------------------------------------------------------------------
  // Lookups by id (`findById`, `exists({_id})`)

  function IndexOfUser(users: seq<User>, id: Id): (r: Option<nat>)
    ensures r.Some? ==> r.value < |users| && users[r.value].id == id
    ensures r.None? ==> forall k :: 0 <= k < |users| ==> users[k].id != id
  {
    First(users, (u: User) => u.id == id)
  }

  function IndexOfVideo(videos: seq<Video>, id: Id): (r: Option<nat>)
    ensures r.Some? ==> r.value < |videos| && videos[r.value].id == id
    ensures r.None? ==> forall k :: 0 <= k < |videos| ==> videos[k].id != id
  {
    First(videos, (v: Video) => v.id == id)
  }

  /** Another user than the one at position `i` already holds `email` (the unique index). */
  predicate EmailTaken(users: seq<User>, email: string, i: nat) {
    exists k | 0 <= k < |users| :: k != i && users[k].email == email
  }

  // ---------------------------------------------------------------------------
  // What holds of every stored collection

  /** Users: ids below `next` and distinct; the setters' normalisation; the unique email index. */
  ghost predicate UsersOk(users: seq<User>, next: Id) {
    && (forall k :: 0 <= k < |users| ==> users[k].id < next && Normalized(users[k]))
    && (forall k, m :: 0 <= k < m < |users| ==> users[k].id != users[m].id)
    && (forall k, m :: 0 <= k < m < |users| ==> users[k].email != users[m].email)
  }

  /** Videos are validated on create and on save. */
  ghost predicate VideosOk(videos: seq<Video>, next: Id) {
    && (forall k :: 0 <= k < |videos| ==> videos[k].id < next && ValidVideo(videos[k]))
    && (forall k, m :: 0 <= k < m < |videos| ==> videos[k].id != videos[m].id)
  }

  /** Likes are validated on create and on save. */
  ghost predicate LikesOk(likes: seq<Like>, next: Id) {
    && (forall k :: 0 <= k < |likes| ==> likes[k].id < next && ValidLike(likes[k]))
    && (forall k, m :: 0 <= k < m < |likes| ==> likes[k].id != likes[m].id)
  }

  /** Comments are validated on create and their content passes the trim setter. */
  ghost predicate CommentsOk(comments: seq<Comment>, next: Id) {
    && (forall k :: 0 <= k < |comments| ==> comments[k].id < next && ValidComment(comments[k]) && ContentTrimmed(comments[k]))
    && (forall k, m :: 0 <= k < m < |comments| ==> comments[k].id != comments[m].id)
  }

  ghost predicate SubscriptionsOk(subs: seq<Subscription>, next: Id) {
    && (forall k :: 0 <= k < |subs| ==> subs[k].id < next)
    && (forall k, m :: 0 <= k < m < |subs| ==> subs[k].id != subs[m].id)
  }

  // ---------------------------------------------------------------------------
  // The writes keep those invariants

  lemma UsersOkUpdate(users: seq<User>, next: Id, i: nat, u: User)
    requires UsersOk(users, next) && i < |users|
    requires u.id == users[i].id && Normalized(u) && !EmailTaken(users, u.email, i)
    ensures UsersOk(users[i := u], next)
  {
    var users' := users[i := u];
    forall k, m | 0 <= k < m < |users'| ensures users'[k].email != users'[m].email {
      if k == i {
        assert !(users[m].email == u.email);
      } else if m == i {
        assert !(users[k].email == u.email);
      }
    }
  }

  /** Under the unique index, no other user holds a user's own email. */
  lemma OwnEmailNotTaken(users: seq<User>, next: Id, i: nat)
    requires UsersOk(users, next) && i < |users|
    ensures !EmailTaken(users, users[i].email, i)
  {
    forall k | 0 <= k < |users| && k != i
      ensures users[k].email != users[i].email
    {
      if k < i {
        assert users[k].email != users[i].email;
      } else {
        assert users[i].email != users[k].email;
      }
    }
  }

  lemma LikesOkUpdate(likes: seq<Like>, next: Id, i: nat, l: Like)
    requires LikesOk(likes, next) && i < |likes| && l.id == likes[i].id && ValidLike(l)
    ensures LikesOk(likes[i := l], next)
  {
  }

  lemma LikesOkAppend(likes: seq<Like>, next: Id, l: Like)
    requires LikesOk(likes, next) && l.id == next && ValidLike(l)
    ensures LikesOk(likes + [l], next + 1)
  {
  }

  lemma VideosOkUpdate(videos: seq<Video>, next: Id, i: nat, v: Video)
    requires VideosOk(videos, next) && i < |videos| && v.id == videos[i].id && ValidVideo(v)
    ensures VideosOk(videos[i := v], next)
  {
  }

  lemma CommentsOkAppend(comments: seq<Comment>, next: Id, c: Comment)
    requires CommentsOk(comments, next) && c.id == next && ValidComment(c) && ContentTrimmed(c)
    ensures CommentsOk(comments + [c], next + 1)
  {
  }

  lemma SubscriptionsOkAppend(subs: seq<Subscription>, next: Id, s: Subscription)
    requires SubscriptionsOk(subs, next) && s.id == next
    ensures SubscriptionsOk(subs + [s], next + 1)
  {
  }

  lemma SubscriptionsOkRemove(subs: seq<Subscription>, next: Id, i: nat)
    requires SubscriptionsOk(subs, next) && i < |subs|
    ensures SubscriptionsOk(subs[..i] + subs[i + 1..], next)
  {
    var r := subs[..i] + subs[i + 1..];
    assert forall k :: 0 <= k < |r| ==> r[k] == (if k < i then subs[k] else subs[k + 1]);
  }

  /** Appending a valid, trimmed comment under the next id and raising the counter keeps
      every invariant. */
  lemma CommentAppendKeepsOk(users: seq<User>, videos: seq<Video>, likes: seq<Like>, comments: seq<Comment>,
                             subs: seq<Subscription>, next: Id, c: Comment)
    requires UsersOk(users, next) && VideosOk(videos, next) && LikesOk(likes, next)
    requires CommentsOk(comments, next) && SubscriptionsOk(subs, next)
    requires c.id == next && ValidComment(c) && ContentTrimmed(c)
    ensures UsersOk(users, next + 1) && VideosOk(videos, next + 1) && LikesOk(likes, next + 1)
    ensures CommentsOk(comments + [c], next + 1) && SubscriptionsOk(subs, next + 1)
  {
    CommentsOkAppend(comments, next, c);
  }

  /** Raising the id counter keeps every invariant. */
  lemma Bump(s: Store)
    requires s.Valid()
    ensures UsersOk(s.users, s.nextId + 1) && VideosOk(s.videos, s.nextId + 1)
    ensures LikesOk(s.likes, s.nextId + 1) && CommentsOk(s.comments, s.nextId + 1)
    ensures SubscriptionsOk(s.subscriptions, s.nextId + 1)
  {
  }

  class Store {
    var users: seq<User>
    var videos: seq<Video>
    var comments: seq<Comment>
    var likes: seq<Like>
    var subscriptions: seq<Subscription>
    var nextId: Id

    ghost predicate Valid()
      reads this
    {
      && UsersOk(users, nextId)
      && VideosOk(videos, nextId)
      && LikesOk(likes, nextId)
      && CommentsOk(comments, nextId)
      && SubscriptionsOk(subscriptions, nextId)
    }

    constructor ()
      ensures Valid()
      ensures users == [] && videos == [] && comments == [] && likes == [] && subscriptions == []
    {
      users, videos, comments, likes, subscriptions := [], [], [], [], [];
      nextId := 0;
    }

    /** `doc.save({ validateBeforeSave: false })` for a user document loaded from position `i`:
        the pre-save hook runs, no validator does, and the unique email index rejects an email
        that another user holds. */
    method SaveUser(i: nat, doc: User, passwordModified: bool, crypto: Crypto, salt: nat) returns (ok: bool)
      requires Valid()
      requires i < |users| && doc.id == users[i].id && Normalized(doc)
      modifies this`users
      ensures Valid()
      ensures ok == !EmailTaken(old(users), doc.email, i)
      ensures users == if ok then old(users)[i := PreSave(doc, passwordModified, crypto, salt)] else old(users)
    {
      if EmailTaken(users, doc.email, i) {
        return false;
      }
      UsersOkUpdate(users, nextId, i, PreSave(doc, passwordModified, crypto, salt));
      users := users[i := PreSave(doc, passwordModified, crypto, salt)];
      ok := true;
    }

    /** `User.findByIdAndUpdate(id, { $set: { refreshToken: token } })`: no save hook runs;
        a missing id updates nothing. */
    method SetRefreshToken(id: Id, token: string) returns (found: Option<nat>)
      requires Valid()
      modifies this`users
      ensures Valid()
      ensures found == IndexOfUser(old(users), id)
      ensures found.None? ==> users == old(users)
      ensures found.Some? ==> users == old(users)[found.value := old(users)[found.value].(refreshToken := token)]
    {
      found := IndexOfUser(users, id);
      if found.Some? {
        var i := found.value;
        var u := users[i].(refreshToken := token);
        OwnEmailNotTaken(users, nextId, i);
        UsersOkUpdate(users, nextId, i, u);
        users := users[i := u];
      }
    }

    /** `Like.create(payload)`: validates the new record and appends it with a fresh id. */
    method CreateLike(likeType: Option<string>, isLike: Option<bool>, comment: Option<Id>,
                      video: Option<Id>, likedBy: Option<Id>) returns (created: Option<Like>)
      requires Valid()
      modifies this`likes, this`nextId
      ensures Valid()
      ensures var l := NewLike(old(nextId), likeType, isLike, comment, video, likedBy);
        if ValidLike(l)
        then created == Some(l) && likes == old(likes) + [l] && nextId == old(nextId) + 1
        else created.None? && likes == old(likes) && nextId == old(nextId)
    {
      var l := NewLike(nextId, likeType, isLike, comment, video, likedBy);
      if !ValidLike(l) {
        return None;
      }
      Bump(this);
      LikesOkAppend(likes, nextId, l);
      likes := likes + [l];
      nextId := nextId + 1;
      created := Some(l);
    }

    /** `like.save({})` for a like loaded from position `i`: validated, then written back. */
    method SaveLike(i: nat, doc: Like) returns (ok: bool)
      requires Valid()
      requires i < |likes| && doc.id == likes[i].id
      modifies this`likes
      ensures Valid()
      ensures ok == ValidLike(doc)
      ensures likes == if ok then old(likes)[i := doc] else old(likes)
    {
      if !ValidLike(doc) {
        return false;
      }
      LikesOkUpdate(likes, nextId, i, doc);
      likes := likes[i := doc];
      ok := true;
    }

    /** `Comment.create(...)` of a comment document built with the next id (its content
        already through the trim setter): validated, then appended. */
    method CreateComment(c: Comment) returns (ok: bool)
      requires Valid()
      requires c.id == nextId && ContentTrimmed(c)
      modifies this`comments, this`nextId
      ensures Valid()
      ensures ok == ValidComment(c)
      ensures ok ==> comments == old(comments) + [c] && nextId == old(nextId) + 1
      ensures !ok ==> comments == old(comments) && nextId == old(nextId)
    {
      if !ValidComment(c) {
        return false;
      }
      CommentAppendKeepsOk(users, videos, likes, comments, subscriptions, nextId, c);
      comments, nextId := comments + [c], nextId + 1;
      ok := true;
    }

    /** `video.save()` for a video loaded from position `i`: validated, then written back. */
    method SaveVideo(i: nat, doc: Video) returns (ok: bool)
      requires Valid()
      requires i < |videos| && doc.id == videos[i].id
      modifies this`videos
      ensures Valid()
      ensures ok == ValidVideo(doc)
      ensures videos == if ok then old(videos)[i := doc] else old(videos)
    {
      if !ValidVideo(doc) {
        return false;
      }
      VideosOkUpdate(videos, nextId, i, doc);
      videos := videos[i := doc];
      ok := true;
    }

    /** `Subscription.create({channel, subscriber})`: appended with a fresh id. */
    method CreateSubscription(channel: Id, subscriber: Id) returns (s: Subscription)
      requires Valid()
      modifies this`subscriptions, this`nextId
      ensures Valid()
      ensures s == Subscription(old(nextId), subscriber, channel)
      ensures subscriptions == old(subscriptions) + [s] && nextId == old(nextId) + 1
    {
      s := Subscription(nextId, subscriber, channel);
      Bump(this);
      SubscriptionsOkAppend(subscriptions, nextId, s);
      subscriptions := subscriptions + [s];
      nextId := nextId + 1;
    }

    /** `Subscription.deleteOne({_id})` for the subscription found at position `i`. */
    method DeleteSubscription(i: nat)
      requires Valid()
      requires i < |subscriptions|
      modifies this`subscriptions
      ensures Valid()
      ensures subscriptions == old(subscriptions[..i] + subscriptions[i + 1..])
    {
      SubscriptionsOkRemove(subscriptions, nextId, i);
      subscriptions := subscriptions[..i] + subscriptions[i + 1..];
    }
  }
}
