/** The subscription schema: a subscriber following a channel (both are users). */
module SubscriptionModel {
  import opened Js

  datatype Subscription = Subscription(id: Id, subscriber: Id, channel: Id)
}
