// internal/realtime/hub.go: one node's hub. Register, unregister and deliver run one at a time in
// the hub's loop; the presence calls they end with are the subject of module Cluster.
module Hub {
  import opened Base
  import opened Presence
  import opened Clients
  import opened Topics
  import Broker

  const CLIENT_SEND_BUFFER := 16

  // from and to are the user ids read from the payload, 0 when absent.
  datatype Event = Event(kind: string, channelID: int64, sequence: int, from: int64, to: int64)

  predicate IsCallSignal(kind: string) {
    kind == "call.offer" || kind == "call.answer" || kind == "call.ice"
  }

  // Who an event is meant for: the clients of its channel; of those, a call signal goes to the
  // addressee only, or to everyone but the sender when no addressee is named.
  predicate MeantFor(e: Event, c: Client) {
    && c.channelID == e.channelID
    && (IsCallSignal(e.kind) ==>
          if e.to != 0 then c.userID == e.to else e.from == 0 || c.userID != e.from)
  }

  // ---- Counters ----

  function FromIP(clients: set<Client>, ip: string): set<Client> {
    set c | c in clients && c.remoteIP == ip
  }

  function CountOf<K>(m: map<K, int>, k: K): int {
    if k in m then m[k] else 0
  }

  function OneMore<K>(m: map<K, int>, k: K): map<K, int> {
    m[k := CountOf(m, k) + 1]
  }

  // Decrement, and delete the entry when nothing is left.
  function OneLess<K>(m: map<K, int>, k: K): map<K, int> {
    if CountOf(m, k) <= 1 then m - {k} else m[k := CountOf(m, k) - 1]
  }

  ghost predicate ExactUsers(m: map<int64, int>, clients: set<Client>) {
    && (forall u: int64 :: CountOf(m, u) == |Select(clients, ByUser(u))|)
    && (forall u: int64 :: u in m ==> m[u] > 0)
  }

  ghost predicate ExactIPs(m: map<string, int>, clients: set<Client>) {
    && (forall ip :: CountOf(m, ip) == |FromIP(clients, ip)|)
    && (forall ip :: ip in m ==> m[ip] > 0)
  }

  lemma UsersMore(m: map<int64, int>, clients: set<Client>, c: Client)
    requires ExactUsers(m, clients) && c !in clients
    ensures ExactUsers(OneMore(m, c.userID), clients + {c})
  {
    hide Select;
    forall u: int64
      ensures CountOf(OneMore(m, c.userID), u) == |Select(clients + {c}, ByUser(u))|
    {
      SelectAdd(clients, c, ByUser(u));
    }
  }

  lemma UsersLess(m: map<int64, int>, clients: set<Client>, c: Client)
    requires ExactUsers(m, clients) && c in clients
    ensures ExactUsers(OneLess(m, c.userID), clients - {c})
  {
    hide Select;
    forall u: int64
      ensures CountOf(OneLess(m, c.userID), u) == |Select(clients - {c}, ByUser(u))|
    {
      SelectRemove(clients, c, ByUser(u));
    }
  }

  lemma FromIPAdd(clients: set<Client>, c: Client, ip: string)
    requires c !in clients
    ensures |FromIP(clients + {c}, ip)| == |FromIP(clients, ip)| + Bit(c.remoteIP == ip)
  {
    if c.remoteIP == ip {
      assert FromIP(clients + {c}, ip) == FromIP(clients, ip) + {c};
    } else {
      assert FromIP(clients + {c}, ip) == FromIP(clients, ip);
    }
  }

  lemma IPsMore(m: map<string, int>, clients: set<Client>, c: Client)
    requires ExactIPs(m, clients) && c !in clients
    ensures ExactIPs(OneMore(m, c.remoteIP), clients + {c})
  {
    hide FromIP;
    forall ip
      ensures CountOf(OneMore(m, c.remoteIP), ip) == |FromIP(clients + {c}, ip)|
    {
      FromIPAdd(clients, c, ip);
    }
  }

  lemma IPsLess(m: map<string, int>, clients: set<Client>, c: Client)
    requires ExactIPs(m, clients) && c in clients
    ensures ExactIPs(OneLess(m, c.remoteIP), clients - {c})
  {
    hide FromIP;
    assert clients - {c} + {c} == clients;
    forall ip
      ensures CountOf(OneLess(m, c.remoteIP), ip) == |FromIP(clients - {c}, ip)|
    {
      FromIPAdd(clients - {c}, c, ip);
    }
  }

  // ---- Topics ----

  // A channel belongs to one workspace.
  predicate Coherent(clients: set<Client>) {
    forall c, d :: c in clients && d in clients && c.channelID == d.channelID ==> c.workspaceID == d.workspaceID
  }

  // The topics a node needs: one for each channel and one for each user of its clients.
  ghost predicate Wanted(clients: set<Client>, topic: string) {
    exists c :: c in clients && (topic == ChannelTopic(c.workspaceID, c.channelID) || topic == UserTopic(c.userID))
  }

  lemma WantedFor(clients: set<Client>, c: Client)
    requires Coherent(clients + {c})
    ensures Wanted(clients, ChannelTopic(c.workspaceID, c.channelID)) <==>
            exists d :: d in clients && d.channelID == c.channelID
    ensures Wanted(clients, UserTopic(c.userID)) <==> exists d :: d in clients && d.userID == c.userID
  {
    var channel, user := ChannelTopic(c.workspaceID, c.channelID), UserTopic(c.userID);
    forall d | d in clients
      ensures channel == ChannelTopic(d.workspaceID, d.channelID) <==> d.channelID == c.channelID
      ensures channel != UserTopic(d.userID)
      ensures user == UserTopic(d.userID) <==> d.userID == c.userID
      ensures user != ChannelTopic(d.workspaceID, d.channelID)
    {
      if channel == ChannelTopic(d.workspaceID, d.channelID) {
        ChannelTopicInjective(c.workspaceID, c.channelID, d.workspaceID, d.channelID);
      }
      if user == UserTopic(d.userID) {
        UserTopicInjective(c.userID, d.userID);
      }
      TopicsDisjoint(c.workspaceID, c.channelID, d.userID);
      TopicsDisjoint(d.workspaceID, d.channelID, c.userID);
    }
  }

  lemma WantedMore(clients: set<Client>, c: Client, topic: string)
    ensures Wanted(clients + {c}, topic) <==>
            || Wanted(clients, topic)
            || topic == ChannelTopic(c.workspaceID, c.channelID)
            || topic == UserTopic(c.userID)
  {
    if Wanted(clients, topic) {
      var d :| d in clients && (topic == ChannelTopic(d.workspaceID, d.channelID) || topic == UserTopic(d.userID));
      assert d in clients + {c};
    }
    assert c in clients + {c};
  }

  lemma FirstUser(m: map<int64, int>, clients: set<Client>, user: int64)
    requires ExactUsers(m, clients)
    ensures CountOf(m, user) == 0 <==> !exists d :: d in clients && d.userID == user
  {
    var chosen := Select(clients, ByUser(user));
    if d :| d in clients && d.userID == user {
      assert d in chosen;
    } else {
      assert chosen == {};
    }
  }

  lemma NobodyOn(onChannel: set<Client>, clients: set<Client>, channel: int64)
    requires forall d :: d in onChannel <==> d in clients && d.channelID == channel
    ensures onChannel == {} <==> !exists d :: d in clients && d.channelID == channel
  {
    if d :| d in clients && d.channelID == channel {
      assert d in onChannel;
    } else {
      assert forall d :: d !in onChannel;
    }
  }

  lemma EntryMeansClients(m: map<int64, int>, clients: set<Client>, user: int64)
    requires ExactUsers(m, clients)
    ensures user in m <==> CountOf(m, user) != 0
  {
  }

  // ---- Send buffers ----

  // The two tests for which deliverCallSignal goes on to the next target.
  predicate Skips(e: Event, c: Client) {
    || (e.to != 0 && c.userID != e.to)
    || (e.to == 0 && e.from != 0 && c.userID == e.from)
  }

  // The targets that are left.
  function Addressed(targets: set<Client>, e: Event): set<Client> {
    set c | c in targets && !Skips(e, c)
  }

  type Buffers = map<Client, seq<Event>>

  function Meant(clients: set<Client>, e: Event): set<Client> {
    set c | c in clients && MeantFor(e, c)
  }

  function BufferIn(buffers: Buffers, c: Client): seq<Event> {
    if c in buffers then buffers[c] else []
  }

  function Full(buffers: Buffers, clients: set<Client>): set<Client> {
    set c | c in clients && |BufferIn(buffers, c)| >= CLIENT_SEND_BUFFER
  }

  function AfterSend(buffer: seq<Event>, meant: bool, e: Event): seq<Event> {
    if meant && |buffer| < CLIENT_SEND_BUFFER then buffer + [e] else buffer
  }

  // Each of the targets got the event once, room permitting, and nobody else got anything.
  ghost predicate Sent(before: Buffers, after: Buffers, targets: set<Client>, e: Event) {
    forall c :: BufferIn(after, c) == AfterSend(BufferIn(before, c), c in targets, e)
  }

  lemma NothingSent(buffers: Buffers, e: Event)
    ensures Sent(buffers, buffers, {}, e) && Full(buffers, {}) == {}
  {
  }

  lemma SentOneMore(before: Buffers, buffers: Buffers, reached: set<Client>, c: Client, e: Event)
    requires Sent(before, buffers, reached, e) && c !in reached
    ensures Sent(before, buffers[c := AfterSend(BufferIn(buffers, c), true, e)], reached + {c}, e)
    ensures Full(before, reached + {c}) == Full(before, reached) + Full(buffers, {c})
  {
    assert BufferIn(buffers, c) == BufferIn(before, c);
  }

  // What a delivery to the clients meant does to each buffer: those of the channel get the event, except
  // that one of the three signals of a call reaches its addressee's clients only, or, with no addressee
  // named, those of everybody but its sender.
  lemma SentByRule(before: Buffers, after: Buffers, clients: set<Client>, e: Event)
    requires Sent(before, after, Meant(clients, e), e)
    ensures forall c ::
      var was := if c in before then before[c] else [];
      var allowed :=
        if e.kind !in {"call.offer", "call.answer", "call.ice"} then true
        else if e.to != 0 then c.userID == e.to
        else if e.from != 0 then c.userID != e.from
        else true;
      (if c in after then after[c] else [])
        == if c in clients && c.channelID == e.channelID && allowed && |was| < 16 then was + [e] else was
  {
    forall c
      ensures
        var was := if c in before then before[c] else [];
        var allowed :=
          if e.kind !in {"call.offer", "call.answer", "call.ice"} then true
          else if e.to != 0 then c.userID == e.to
          else if e.from != 0 then c.userID != e.from
          else true;
        (if c in after then after[c] else [])
          == if c in clients && c.channelID == e.channelID && allowed && |was| < 16 then was + [e] else was
    {
      assert BufferIn(after, c) == AfterSend(BufferIn(before, c), c in Meant(clients, e), e);
    }
  }

  type Channels = map<int64, set<Client>>

  function AllOf(channels: Channels): set<Client> {
    set ch, c | ch in channels && c in channels[ch] :: c
  }

  // Every client sits under its own channel.
  predicate Sorted(channels: Channels) {
    forall ch, c :: ch in channels && c in channels[ch] ==> c.channelID == ch
  }

  lemma NoChannels()
    ensures AllOf(map[]) == {}
  {
  }

  lemma AllOfSorted(channels: Channels)
    requires Sorted(channels)
    ensures forall c :: c in AllOf(channels) <==> c.channelID in channels && c in channels[c.channelID]
  {
  }

  lemma AllOfUpdate(channels: Channels, channel: int64, clients: set<Client>)
    requires Sorted(channels) && forall c :: c in clients ==> c.channelID == channel
    ensures Sorted(channels[channel := clients]) && Sorted(channels - {channel})
    ensures AllOf(channels[channel := clients])
         == AllOf(channels) - (if channel in channels then channels[channel] else {}) + clients
    ensures AllOf(channels - {channel}) == AllOf(channels) - (if channel in channels then channels[channel] else {})
  {
    AllOfSorted(channels);
    AllOfSorted(channels[channel := clients]);
    AllOfSorted(channels - {channel});
  }

  class Hub {
    const maxPerUser: int
    const maxPerIP: int
    const broker: Broker.Broker
    var channels: Channels
    var userConnections: map<int64, int>
    var ipConnections: map<string, int>
    // The clients' send channels: what is buffered, and which are closed.
    var buffers: map<Client, seq<Event>>
    var closed: set<Client>
    // Clients whose buffer was full: a goroutine is waiting to unregister each.
    var slow: set<Client>
    var done: bool

    function OnChannel(channel: int64): set<Client>
      reads this
    {
      if channel in channels then channels[channel] else {}
    }

    function Clients(): set<Client>
      reads this
    {
      AllOf(channels)
    }

    // Every client sits under its own channel, and no registered client's send channel is closed.
    ghost predicate Safe()
      reads this
    {
      && Sorted(channels)
      && closed !! Clients()
    }

    ghost predicate Counted()
      reads this
    {
      ExactUsers(userConnections, Clients()) && ExactIPs(ipConnections, Clients())
    }

    // The node counts each topic it needs once, and no other topic.
    ghost predicate Subscribed()
      reads this, broker
    {
      && Coherent(Clients())
      && broker.Valid()
      && forall t :: broker.Refs(t) == Bit(Wanted(Clients(), t))
    }

    ghost predicate Valid()
      reads this, broker
    {
      Safe() && Counted() && Subscribed()
    }

    constructor (maxPerUser: int, maxPerIP: int, broker: Broker.Broker)
      requires broker.Valid() && broker.subs == map[]
      ensures Valid() && Clients() == {} && closed == {} && !done && this.broker == broker
      ensures this.maxPerUser == maxPerUser && this.maxPerIP == maxPerIP
    {
      this.maxPerUser, this.maxPerIP, this.broker := maxPerUser, maxPerIP, broker;
      channels, userConnections, ipConnections := map[], map[], map[];
      buffers, closed, slow, done := map[], {}, {}, false;
      new;
      assert forall u: int64 :: Select(Clients(), ByUser(u)) == {};
      assert forall ip :: FromIP(Clients(), ip) == {};
    }

    // A limit of zero or less is no limit.
    method CanConnect(user: int64, ip: string) returns (ok: bool)
      requires Valid()
      ensures ok <==>
        && (maxPerUser > 0 ==> |Select(Clients(), ByUser(user))| < maxPerUser)
        && (maxPerIP > 0 ==> |FromIP(Clients(), ip)| < maxPerIP)
    {
      if maxPerUser > 0 && CountOf(userConnections, user) >= maxPerUser {
        return false;
      }
      if maxPerIP > 0 && CountOf(ipConnections, ip) >= maxPerIP {
        return false;
      }
      return true;
    }

    // The part of handleRegister under the lock.
    method AddToMaps(c: Client) returns (firstOnChannel: bool, firstUserOnNode: bool)
      requires Safe() && Counted() && c !in Clients() && c !in closed
      modifies this`channels, this`userConnections, this`ipConnections
      ensures Safe() && Counted() && Clients() == old(Clients()) + {c}
      ensures firstOnChannel <==> !exists d :: d in old(Clients()) && d.channelID == c.channelID
      ensures firstUserOnNode <==> !exists d :: d in old(Clients()) && d.userID == c.userID
    {
      hide ExactUsers, ExactIPs, AllOf;
      UsersMore(userConnections, Clients(), c);
      IPsMore(ipConnections, Clients(), c);
      FirstUser(userConnections, Clients(), c.userID);
      firstOnChannel := OnChannel(c.channelID) == {};
      AllOfSorted(channels);
      NobodyOn(OnChannel(c.channelID), Clients(), c.channelID);
      AllOfUpdate(channels, c.channelID, OnChannel(c.channelID) + {c});
      channels := channels[c.channelID := OnChannel(c.channelID) + {c}];
      assert Clients() == old(Clients()) + {c};
      userConnections := OneMore(userConnections, c.userID);
      ipConnections := OneMore(ipConnections, c.remoteIP);
      firstUserOnNode := userConnections[c.userID] == 1;
    }

    // The caller registers each client object once, with the workspace its channel belongs to. Its
    // subscriptions succeed.
    method HandleRegister(c: Client)
      requires Valid() && c !in Clients() && c !in closed && Coherent(Clients() + {c})
      modifies this`channels, this`userConnections, this`ipConnections, broker
      ensures Valid() && Clients() == old(Clients()) + {c}
    {
      hide Wanted, AllOf;
      WantedFor(Clients(), c);
      var firstOnChannel, firstUserOnNode := AddToMaps(c);
      if firstOnChannel {
        broker.EnsureSubscribed(c.workspaceID, c.channelID, true);
      }
      if firstUserOnNode {
        broker.EnsureUserSubscribed(c.userID, true);
      }
      TopicsDisjoint(c.workspaceID, c.channelID, c.userID);
      forall t
        ensures broker.Refs(t) == Bit(Wanted(Clients(), t))
      {
        WantedMore(old(Clients()), c, t);
      }
    }

    // The part of handleUnregister under the lock.
    method RemoveFromMaps(c: Client) returns (ok: bool, lastOnChannel: bool, lastUserOnNode: bool)
      requires Safe() && Counted()
      modifies this`channels, this`userConnections, this`ipConnections
      ensures Safe() && Counted() && Clients() == old(Clients()) - {c}
      ensures ok <==> c in old(Clients())
      ensures !ok ==> unchanged(this)
      ensures ok ==> (lastOnChannel <==> !exists d :: d in Clients() && d.channelID == c.channelID)
      ensures ok ==> (lastUserOnNode <==> !exists d :: d in Clients() && d.userID == c.userID)
    {
      hide ExactUsers, ExactIPs, AllOf;
      AllOfSorted(channels);
      ok := c in OnChannel(c.channelID);
      if !ok {
        return false, false, false;
      }
      UsersLess(userConnections, Clients(), c);
      IPsLess(ipConnections, Clients(), c);
      AllOfSorted(channels);
      AllOfUpdate(channels, c.channelID, channels[c.channelID] - {c});
      channels := channels[c.channelID := channels[c.channelID] - {c}];
      lastOnChannel := channels[c.channelID] == {};
      assert Clients() == old(Clients()) - {c};
      AllOfSorted(channels);
      NobodyOn(channels[c.channelID], Clients(), c.channelID);
      userConnections := OneLess(userConnections, c.userID);
      ipConnections := OneLess(ipConnections, c.remoteIP);
      lastUserOnNode := c.userID !in userConnections;
      FirstUser(userConnections, Clients(), c.userID);
      EntryMeansClients(userConnections, Clients(), c.userID);
    }

    // Closing a closed channel would panic; nothing here can.
    method CloseSend(c: Client)
      requires c !in closed
      modifies this`closed
      ensures closed == old(closed) + {c}
    {
      closed := closed + {c};
    }

    // Unregistering a client that is not registered, or no longer, changes nothing.
    method HandleUnregister(c: Client)
      requires Valid()
      modifies this`channels, this`userConnections, this`ipConnections, this`closed, broker
      ensures Valid() && Clients() == old(Clients()) - {c}
      ensures closed == old(closed) + if c in old(Clients()) then {c} else {}
      ensures c !in old(Clients()) ==> unchanged(this) && unchanged(broker)
    {
      hide Wanted, AllOf;
      var ok, lastOnChannel, lastUserOnNode := RemoveFromMaps(c);
      if !ok {
        return;
      }
      assert old(Clients()) == Clients() + {c};
      WantedFor(Clients(), c);
      if lastOnChannel {
        broker.MaybeUnsubscribe(c.workspaceID, c.channelID);
      }
      if lastUserOnNode {
        broker.MaybeUnsubscribeUser(c.userID);
      }
      TopicsDisjoint(c.workspaceID, c.channelID, c.userID);
      forall t
        ensures broker.Refs(t) == Bit(Wanted(Clients(), t))
      {
        WantedMore(Clients(), c, t);
      }
      CloseSend(c);
    }

    // ---- Delivery ----

    // Never blocks: a client whose buffer is full is marked for unregistering instead. Sending on a
    // closed channel would panic.
    method SendToClient(c: Client, e: Event)
      requires c !in closed
      modifies this`buffers, this`slow
      ensures buffers == old(buffers)[c := AfterSend(old(BufferIn(buffers, c)), true, e)]
      ensures slow == old(slow) + Full(old(buffers), {c})
      ensures var was := if c in old(buffers) then old(buffers)[c] else [];
        && buffers == old(buffers)[c := if |was| < 16 then was + [e] else was]
        && slow == old(slow) + if |was| < 16 then {} else {c}
    {
      if |BufferIn(buffers, c)| < CLIENT_SEND_BUFFER {
        buffers := buffers[c := BufferIn(buffers, c) + [e]];
      } else {
        buffers := buffers[c := BufferIn(buffers, c)];
        slow := slow + {c};
      }
    }

    // The loop that sends to each of the targets copied.
    method SendEach(targets: set<Client>, e: Event)
      requires targets !! closed
      modifies this`buffers, this`slow
      ensures Sent(old(buffers), buffers, targets, e)
      ensures slow == old(slow) + Full(old(buffers), targets)
    {
      hide Full, Sent, AfterSend, BufferIn;
      NothingSent(buffers, e);
      var todo := targets;
      assert targets - todo == {};
      while todo != {}
        invariant todo <= targets
        invariant Sent(old(buffers), buffers, targets - todo, e)
        invariant slow == old(slow) + Full(old(buffers), targets - todo)
        decreases |todo|
      {
        var c :| c in todo;
        SentOneMore(old(buffers), buffers, targets - todo, c, e);
        SendToClient(c, e);
        assert targets - (todo - {c}) == targets - todo + {c};
        todo := todo - {c};
      }
      assert targets - todo == targets;
    }

    // Delivers to the clients of the event's channel for which the to/from rule lets it through.
    method Deliver(e: Event)
      requires Safe()
      modifies this`buffers, this`slow
      ensures Sent(old(buffers), buffers, Meant(Clients(), e), e)
      ensures slow == old(slow) + Full(old(buffers), Meant(Clients(), e))
      ensures forall c ::
        var was := if c in old(buffers) then old(buffers)[c] else [];
        var allowed :=
          if e.kind !in {"call.offer", "call.answer", "call.ice"} then true
          else if e.to != 0 then c.userID == e.to
          else if e.from != 0 then c.userID != e.from
          else true;
        (if c in buffers then buffers[c] else [])
          == if c in Clients() && c.channelID == e.channelID && allowed && |was| < 16 then was + [e] else was
    {
      hide IsCallSignal, AllOf, Full, Sent, AfterSend, BufferIn;
      var targets := OnChannel(e.channelID);
      AllOfSorted(channels);
      assert Meant(Clients(), e) == if IsCallSignal(e.kind) then Addressed(targets, e) else targets;
      if IsCallSignal(e.kind) {
        DeliverCallSignal(e, targets);
      } else {
        SendEach(targets, e);
      }
      hide Meant;
      SentByRule(old(buffers), buffers, Clients(), e);
    }

    method DeliverCallSignal(e: Event, targets: set<Client>)
      requires targets !! closed
      modifies this`buffers, this`slow
      ensures Sent(old(buffers), buffers, Addressed(targets, e), e)
      ensures slow == old(slow) + Full(old(buffers), Addressed(targets, e))
    {
      hide Full, Sent, AfterSend, BufferIn, Skips;
      ghost var left := Addressed(targets, e);
      NothingSent(buffers, e);
      var todo := targets;
      assert left - todo == {};
      while todo != {}
        invariant todo <= targets
        invariant Sent(old(buffers), buffers, left - todo, e)
        invariant slow == old(slow) + Full(old(buffers), left - todo)
        decreases |todo|
      {
        var c :| c in todo;
        if Skips(e, c) {
          assert left - (todo - {c}) == left - todo;
        } else {
          assert left - (todo - {c}) == left - todo + {c};
          SentOneMore(old(buffers), buffers, left - todo, c, e);
          SendToClient(c, e);
        }
        todo := todo - {c};
      }
      assert left - todo == left;
    }

    // Every client of the user on this node, whatever its channel.
    method NotifyUserLocal(user: int64, e: Event)
      requires Safe()
      modifies this`buffers, this`slow
      ensures Sent(old(buffers), buffers, Select(Clients(), ByUser(user)), e)
      ensures slow == old(slow) + Full(old(buffers), Select(Clients(), ByUser(user)))
    {
      hide AllOf, Full, Sent, AfterSend, BufferIn;
      var targets := set c | c in Clients() && c.userID == user;
      assert targets == Select(Clients(), ByUser(user));
      SendEach(targets, e);
    }

    // Closes every registered client exactly once; a second shutdown does nothing. The counters are
    // left as they are, so they are no longer exact.
    method Shutdown()
      requires Safe()
      modifies this`done, this`channels, this`closed
      ensures Safe() && done
      ensures old(done) ==> unchanged(this)
      ensures !old(done) ==> Clients() == {} && closed == old(closed) + old(Clients())
    {
      if done {
        return;
      }
      hide AllOf;
      done := true;
      while channels != map[]
        invariant done && Safe() && Clients() <= old(Clients())
        invariant closed == old(closed) + (old(Clients()) - Clients())
        decreases |channels|
      {
        var channel :| channel in channels;
        CloseChannel(channel);
      }
      NoChannels();
    }

    method CloseChannel(channel: int64)
      requires Safe() && channel in channels
      modifies this`channels, this`closed
      ensures Safe() && channels == old(channels) - {channel}
      ensures Clients() == old(Clients()) - old(channels[channel])
      ensures closed == old(closed) + old(channels[channel])
    {
      hide AllOf;
      assert channels[channel] !! closed by { AllOfSorted(channels); }
      AllOfUpdate(channels, channel, {});
      var clients := channels[channel];
      while clients != {}
        invariant channels == old(channels) && clients <= channels[channel] && clients !! closed
        invariant closed == old(closed) + (channels[channel] - clients)
        decreases |clients|
      {
        var c :| c in clients;
        CloseSend(c);
        clients := clients - {c};
      }
      channels := channels - {channel};
    }
  }
}
