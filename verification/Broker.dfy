// internal/realtime/redis_broker.go: reference-counted Redis subscriptions of one node.
module Broker {
  import opened Base
  import opened Topics

  class Broker {
    var subs: map<string, int>
    // The topics the pub/sub connection is subscribed to.
    var subscribed: set<string>

    ghost predicate Counted()
      reads this
    {
      forall t :: t in subs ==> subs[t] > 0
    }

    ghost predicate Valid()
      reads this
    {
      Counted() && subscribed == subs.Keys
    }

    function Refs(topic: string): int
      reads this
    {
      if topic in subs then subs[topic] else 0
    }

    constructor ()
      ensures Valid() && subs == map[]
    {
      subs, subscribed := map[], {};
    }

    // works says whether a first subscription succeeds; a failed one is counted back.
    method Ensure(topic: string, works: bool)
      requires Valid()
      modifies this
      ensures Valid() && Refs(topic) == if old(Refs(topic)) == 0 && !works then 0 else old(Refs(topic)) + 1
      ensures forall t :: t != topic ==> Refs(t) == old(Refs(t))
    {
      subs := subs[topic := Refs(topic) + 1];
      if subs[topic] == 1 {
        if works {
          subscribed := subscribed + {topic};
        } else {
          subs := subs[topic := subs[topic] - 1];
          if subs[topic] == 0 {
            subs := subs - {topic};
          }
        }
      }
    }

    // A topic nobody counts is left alone; the last reference also unsubscribes.
    method Maybe(topic: string)
      requires Valid()
      modifies this
      ensures Valid() && Refs(topic) == if old(Refs(topic)) == 0 then 0 else old(Refs(topic)) - 1
      ensures forall t :: t != topic ==> Refs(t) == old(Refs(t))
    {
      if topic !in subs {
        return;
      }
      subs := subs[topic := subs[topic] - 1];
      if subs[topic] > 0 {
        return;
      }
      subs := subs - {topic};
      subscribed := subscribed - {topic};
    }

    method EnsureSubscribed(workspace: int64, channel: int64, works: bool)
      requires Valid()
      modifies this
      ensures Valid()
      ensures var t := ChannelTopic(workspace, channel);
        Refs(t) == if old(Refs(t)) == 0 && !works then 0 else old(Refs(t)) + 1
      ensures forall t :: t != ChannelTopic(workspace, channel) ==> Refs(t) == old(Refs(t))
    {
      Ensure(ChannelTopic(workspace, channel), works);
    }

    method MaybeUnsubscribe(workspace: int64, channel: int64)
      requires Valid()
      modifies this
      ensures Valid()
      ensures var t := ChannelTopic(workspace, channel);
        Refs(t) == if old(Refs(t)) == 0 then 0 else old(Refs(t)) - 1
      ensures forall t :: t != ChannelTopic(workspace, channel) ==> Refs(t) == old(Refs(t))
    {
      Maybe(ChannelTopic(workspace, channel));
    }

    method EnsureUserSubscribed(user: int64, works: bool)
      requires Valid()
      modifies this
      ensures Valid()
      ensures var t := UserTopic(user); Refs(t) == if old(Refs(t)) == 0 && !works then 0 else old(Refs(t)) + 1
      ensures forall t :: t != UserTopic(user) ==> Refs(t) == old(Refs(t))
    {
      Ensure(UserTopic(user), works);
    }

    method MaybeUnsubscribeUser(user: int64)
      requires Valid()
      modifies this
      ensures Valid()
      ensures var t := UserTopic(user);
        Refs(t) == if old(Refs(t)) == 0 then 0 else old(Refs(t)) - 1
      ensures forall t :: t != UserTopic(user) ==> Refs(t) == old(Refs(t))
    {
      Maybe(UserTopic(user));
    }

    // After the connection is lost, the new one is subscribed to exactly the counted topics,
    // whatever was subscribed before.
    method Reconnect()
      requires Counted()
      modifies this`subscribed
      ensures Valid()
    {
      var topics: seq<string> := [];
      var todo := subs.Keys;
      while todo != {}
        invariant todo <= subs.Keys
        invariant forall t :: t in topics <==> t in subs.Keys - todo
        decreases |todo|
      {
        var topic :| topic in todo;
        todo := todo - {topic};
        if subs[topic] > 0 {
          topics := topics + [topic];
        }
      }
      if |topics| == 0 {
        subscribed := {};
        return;
      }
      subscribed := set t | t in topics;
    }
  }
}
