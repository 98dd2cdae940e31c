/** `subscribeChannel`: one request toggles whether the authenticated user follows a channel. */
module SubscriptionController {
  import opened Js
  import opened ApiResponses
  import opened UserModel
  import opened SubscriptionModel
  import opened Db

  /** The subscriptions `findOne({ channel, subscriber })` matches. */
  function Follows(channel: Id, subscriber: Id): Subscription -> bool {
    (s: Subscription) => s.channel == channel && s.subscriber == subscriber
  }

  /** `subscribeChannel` for the authenticated `subscriberId` and the route's `channelid`:
      a missing channel id is refused; the first subscription of this user to this channel, if
      any, is deleted ("Unsubscribed"); otherwise the channel must be an existing user and a
      subscription is created under the fresh id `next` ("Subscribed"). Every error, including
      the 404 for an unknown channel, is rethrown by the catch block as a 400. */
  function Subscribe(subs: seq<Subscription>, users: seq<User>, next: Id, subscriberId: Id, channelId: Option<Id>)
    : (r: Outcome<seq<Subscription>, ()>)
    ensures r.reply.Thrown? ==> r.reply.statusCode == 400 && r.state == subs
    ensures channelId.None? ==> r.reply.Thrown?
    ensures r.reply.Sent? ==> r.reply.httpStatus == 200 && r.reply.body.success
    ensures channelId.Some? && First(subs, Follows(channelId.value, subscriberId)).Some? ==>
      var i := First(subs, Follows(channelId.value, subscriberId)).value;
      r == Outcome(subs[..i] + subs[i + 1..], Json(200, 200, (), "Unsubscribed Successfully"))
    ensures channelId.Some? && First(subs, Follows(channelId.value, subscriberId)).None? ==>
      && (r.reply.Sent? <==> IndexOfUser(users, channelId.value).Some?)
      && (r.reply.Sent? ==>
            r == Outcome(subs + [Subscription(next, subscriberId, channelId.value)],
                         Json(200, 200, (), "Subscribed Successfully")))
  {
    if channelId.None? then Outcome(subs, Thrown(400))
    else match First(subs, Follows(channelId.value, subscriberId))
      case Some(i) => Outcome(subs[..i] + subs[i + 1..], Json(200, 200, (), "Unsubscribed Successfully"))
      case None =>
        if IndexOfUser(users, channelId.value).None? then Outcome(subs, Thrown(400))
        else Outcome(subs + [Subscription(next, subscriberId, channelId.value)], Json(200, 200, (), "Subscribed Successfully"))
  }

  method SubscribeChannel(db: Store, subscriberId: Id, channelId: Option<Id>) returns (reply: Reply<()>)
    requires db.Valid()
    modifies db`subscriptions, db`nextId
    ensures db.Valid()
    ensures Outcome(db.subscriptions, reply)
         == Subscribe(old(db.subscriptions), db.users, old(db.nextId), subscriberId, channelId)
  {
    if channelId.None? {
      return Thrown(400);
    }
    var existing := First(db.subscriptions, Follows(channelId.value, subscriberId));
    if existing.Some? {
      db.DeleteSubscription(existing.value);
      return Json(200, 200, (), "Unsubscribed Successfully");
    }
    if IndexOfUser(db.users, channelId.value).None? {
      return Thrown(400);
    }
    var _ := db.CreateSubscription(channelId.value, subscriberId);
    reply := Json(200, 200, (), "Subscribed Successfully");
  }

  /** With at most one subscription per (channel, subscriber) pair, which every request keeps,
      a successful request leaves the requesting pair with one subscription when it answers
      "Subscribed" and with none when it answers "Unsubscribed", and no other pair changes. */
  lemma SubscribeKeepsAtMostOne(subs: seq<Subscription>, users: seq<User>, next: Id, subscriberId: Id,
                                channelId: Option<Id>, c: Id, u: Id)
    requires Count(subs, Follows(c, u)) <= 1
    ensures var r := Subscribe(subs, users, next, subscriberId, channelId);
      && Count(r.state, Follows(c, u)) <= 1
      && (r.reply.Sent? && (channelId != Some(c) || subscriberId != u) ==>
            Count(r.state, Follows(c, u)) == Count(subs, Follows(c, u)))
      && (r.reply.Sent? && channelId == Some(c) && subscriberId == u ==>
            (Count(r.state, Follows(c, u)) == 1 <==> r.reply.body.message == "Subscribed Successfully"))
  {
    var r := Subscribe(subs, users, next, subscriberId, channelId);
    if r.reply.Sent? {
      var key := Follows(channelId.value, subscriberId);
      match First(subs, key)
      case Some(i) =>
        CountRemove(subs, i, Follows(c, u));
      case None =>
        CountAppend(subs, Subscription(next, subscriberId, channelId.value), Follows(c, u));
    }
  }

  /** Subscribing and then repeating the request undoes it exactly: the second request finds the
      subscription the first one appended and deletes it. */
  lemma SubscribeTwiceRestores(subs: seq<Subscription>, users: seq<User>, next: Id, later: Id,
                               subscriberId: Id, channel: Id)
    requires First(subs, Follows(channel, subscriberId)).None?
    requires IndexOfUser(users, channel).Some?
    ensures var first := Subscribe(subs, users, next, subscriberId, Some(channel));
      var second := Subscribe(first.state, users, later, subscriberId, Some(channel));
      && first.reply == Json(200, 200, (), "Subscribed Successfully")
      && second == Outcome(subs, Json(200, 200, (), "Unsubscribed Successfully"))
  {
    var s := Subscription(next, subscriberId, channel);
    var after := subs + [s];
    assert forall j :: 0 <= j < |subs| ==> after[j] == subs[j];
    FirstAt(after, Follows(channel, subscriberId), |subs|);
    assert after[..|subs|] + after[|subs| + 1..] == subs;
  }

  /** Unsubscribing and then repeating the request re-subscribes (when the channel still
      exists): every (channel, subscriber) pair ends with as many subscriptions as it started
      with; only the record's id and position change. */
  lemma UnsubscribeTwiceRestores(subs: seq<Subscription>, users: seq<User>, next: Id, later: Id,
                                 subscriberId: Id, channel: Id, c: Id, u: Id)
    requires Count(subs, Follows(channel, subscriberId)) == 1
    requires IndexOfUser(users, channel).Some?
    ensures var first := Subscribe(subs, users, next, subscriberId, Some(channel));
      var second := Subscribe(first.state, users, later, subscriberId, Some(channel));
      && first.reply == Json(200, 200, (), "Unsubscribed Successfully")
      && second.reply == Json(200, 200, (), "Subscribed Successfully")
      && Count(second.state, Follows(c, u)) == Count(subs, Follows(c, u))
  {
    var key := Follows(channel, subscriberId);
    var i := First(subs, key).value;
    var mid := subs[..i] + subs[i + 1..];
    CountRemove(subs, i, key);
    CountRemove(subs, i, Follows(c, u));
    CountAppend(mid, Subscription(later, subscriberId, channel), Follows(c, u));
  }
}
