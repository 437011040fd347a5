/** The accept subscribers of the registry. A callback is identified by the id of its subscriber. */
module SubscriptionManager {
  import opened Types
  import opened SetId
  import opened Registry

  class Manager {
    const gracePeriod: int
    var acceptSubscriptions: set<nat>
    var nextSubscriberId: nat
    var lastSubscriberRemovedAt: Option<Time>

    constructor (gracePeriod: int)
      ensures this.gracePeriod == gracePeriod
      ensures acceptSubscriptions == {} && nextSubscriberId == 0 && lastSubscriberRemovedAt == None
    {
      this.gracePeriod := gracePeriod;
      acceptSubscriptions, nextSubscriberId, lastSubscriberRemovedAt := {}, 0, None;
    }

    method GenerateSubscriptionId() returns (id: nat)
      modifies this`nextSubscriberId
      ensures nextSubscriberId == old(nextSubscriberId) + 1 && id == nextSubscriberId
    {
      nextSubscriberId := nextSubscriberId + 1;
      id := nextSubscriberId;
    }

    method AddAcceptSubscription(id: nat)
      modifies this`acceptSubscriptions
      ensures acceptSubscriptions == old(acceptSubscriptions) + {id}
    {
      acceptSubscriptions := acceptSubscriptions + {id};
    }

    /** Removing an unknown subscriber does not start a grace period. */
    method DeleteAcceptSubscription(id: nat, now: Time)
      modifies this`acceptSubscriptions, this`lastSubscriberRemovedAt
      ensures acceptSubscriptions == old(acceptSubscriptions) - {id}
      ensures lastSubscriberRemovedAt == if id in old(acceptSubscriptions)
                then Some(now) else old(lastSubscriberRemovedAt)
    {
      if id !in acceptSubscriptions {
        return;
      }
      acceptSubscriptions := acceptSubscriptions - {id};
      lastSubscriberRemovedAt := Some(now);
    }

    /** The notices that the subscribers receive, in the order in which they are called. */
    method NotifySubscribers(hash: Hash, id: SetID, serial: nat) returns (notices: seq<Notice>, ghost order: seq<nat>)
      ensures Enumerates(order, acceptSubscriptions)
      ensures notices == NoticesTo(order, hash, serial, id)
    {
      notices, order := [], [];
      var rest := acceptSubscriptions;
      while rest != {}
        invariant rest <= acceptSubscriptions
        invariant Enumerates(order, acceptSubscriptions - rest)
        invariant notices == NoticesTo(order, hash, serial, id)
      {
        var subscriber :| subscriber in rest;
        notices := notices + [Notice(subscriber, serial, hash, id)];
        order := order + [subscriber];
        rest := rest - {subscriber};
      }
      assert acceptSubscriptions - rest == acceptSubscriptions;
    }

    predicate HasRecentSubscribers(now: Time)
      reads this
    {
      acceptSubscriptions != {} || (lastSubscriberRemovedAt.Some? && now - lastSubscriberRemovedAt.value <= gracePeriod)
    }
  }
}
