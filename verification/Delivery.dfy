// Channel events across nodes: the sequencer, the copies in transit to each node, delivery, and the
// closing of send channels, as steps that interleave in any order.
module Delivery {
  import opened Base
  import opened Presence
  import opened Clients
  import opened Hub

  datatype Node = Node(
    clients: set<Client>,
    transit: set<Event>,         // sent to the node and not yet taken from its broadcast queue
    handled: set<Event>,         // delivered, or dropped because the queue was full
    closing: Option<Client>,     // removed from the map, its send channel about to be closed
    done: bool)

  datatype World = World(
    nodes: seq<Node>,
    issued: map<int64, seq<Event>>,   // the channel's events, in the order they got their sequence
    home: map<Client, nat>,           // the node each client registered with
    inbox: map<Client, seq<Event>>,   // everything put into a client's send channel
    closes: seq<Client>)              // every close of a send channel

  datatype Action =
    // Publish an event; reached are the nodes the broker hands a copy to.
    | Publish(kind: string, channel: int64, from: int64, to: int64, reached: set<nat>)
    | Drop(node: nat, event: Event)
    // Deliver to the clients meant, skipping those whose buffer is full.
    | Deliver(node: nat, event: Event, full: set<Client>)
    | Register(node: nat, client: Client)
    | Unregister(node: nat, client: Client)
    | Close(node: nat)
    | Shutdown(node: nat)

  function Issued(w: World, channel: int64): seq<Event> {
    if channel in w.issued then w.issued[channel] else []
  }

  function Inbox(w: World, c: Client): seq<Event> {
    if c in w.inbox then w.inbox[c] else []
  }

  // The sequencer adds one to the channel's counter and returns it.
  function NewEvent(w: World, kind: string, channel: int64, from: int64, to: int64): Event {
    Event(kind, channel, |Issued(w, channel)| + 1, from, to)
  }

  function Receivers(node: Node, e: Event, full: set<Client>): set<Client> {
    Meant(node.clients, e) - full
  }

  function Put(inbox: map<Client, seq<Event>>, targets: set<Client>, e: Event): map<Client, seq<Event>> {
    map c | c in inbox.Keys + targets ::
      (if c in inbox then inbox[c] else []) + (if c in targets then [e] else [])
  }

  function Handled(node: Node, e: Event): Node {
    node.(transit := node.transit - {e}, handled := node.handled + {e})
  }

  ghost function Next(w: World, a: Action): World {
    match a
    case Publish(kind, channel, from, to, reached) =>
      if channel <= 0 then w
      else
        var e := NewEvent(w, kind, channel, from, to);
        w.(issued := w.issued[channel := Issued(w, channel) + [e]],
           nodes := seq(|w.nodes|, n requires 0 <= n < |w.nodes| =>
             if n in reached then w.nodes[n].(transit := w.nodes[n].transit + {e}) else w.nodes[n]))
    case Drop(n, e) =>
      if n < |w.nodes| && e in w.nodes[n].transit then
        w.(nodes := w.nodes[n := Handled(w.nodes[n], e)])
      else w
    case Deliver(n, e, full) =>
      if n < |w.nodes| && e in w.nodes[n].transit then
        w.(nodes := w.nodes[n := Handled(w.nodes[n], e)],
           inbox := Put(w.inbox, Receivers(w.nodes[n], e, full), e))
      else w
    case Register(n, c) =>
      if n < |w.nodes| && c !in w.home && w.nodes[n].closing == None then
        w.(nodes := w.nodes[n := w.nodes[n].(clients := w.nodes[n].clients + {c})], home := w.home[c := n])
      else w
    case Unregister(n, c) =>
      if n < |w.nodes| && w.nodes[n].closing == None && c in w.nodes[n].clients then
        w.(nodes := w.nodes[n := w.nodes[n].(clients := w.nodes[n].clients - {c}, closing := Some(c))])
      else w
    case Close(n) =>
      if n < |w.nodes| && w.nodes[n].closing.Some? then
        w.(nodes := w.nodes[n := w.nodes[n].(closing := None)], closes := w.closes + [w.nodes[n].closing.value])
      else w
    case Shutdown(n) =>
      if n < |w.nodes| && !w.nodes[n].done then
        w.(nodes := w.nodes[n := w.nodes[n].(clients := {}, done := true)],
           closes := w.closes + Listing(w.nodes[n].clients))
      else w
  }

  // The members of a set, each once, in some order.
  ghost function Listing(clients: set<Client>): (cs: seq<Client>)
    ensures NoDuplicates(cs) && forall c :: c in cs <==> c in clients
  {
    if clients == {} then []
    else
      var c :| c in clients;
      var rest := Listing(clients - {c});
      [c] + rest
  }

  function Start(n: nat): World {
    World(seq(n, _ => Node({}, {}, {}, None, false)), map[], map[], map[], [])
  }

  ghost function Exec(n: nat, run: seq<Action>): World {
    if run == [] then Start(n) else Next(Exec(n, Front(run)), Last(run))
  }

  // ---- Invariant ----

  predicate IsIssued(w: World, e: Event) {
    0 < e.sequence <= |Issued(w, e.channelID)| && Issued(w, e.channelID)[e.sequence - 1] == e
  }

  predicate Numbered(w: World) {
    forall channel :: channel in w.issued ==>
      forall i :: 0 <= i < |w.issued[channel]| ==>
        w.issued[channel][i].sequence == i + 1 && w.issued[channel][i].channelID == channel
  }

  predicate NodeOk(w: World, n: nat)
    requires n < |w.nodes|
  {
    var node := w.nodes[n];
    && node.transit !! node.handled
    && (forall e :: e in node.transit + node.handled ==> IsIssued(w, e))
    && (forall c :: c in node.clients ==> c in w.home && w.home[c] == n && c !in w.closes)
    && (node.closing.Some? ==>
          var c := node.closing.value;
          c in w.home && w.home[c] == n && c !in w.closes && c !in node.clients)
  }

  // What a client received: its own channel's events it was meant to get, each handled by its node.
  predicate InboxOk(w: World, c: Client) {
    && NoDuplicates(Inbox(w, c))
    && forall e :: e in Inbox(w, c) ==>
         MeantFor(e, c) && c in w.home && w.home[c] < |w.nodes| && e in w.nodes[w.home[c]].handled
  }

  ghost predicate Inv(w: World) {
    && Numbered(w)
    && (forall n :: 0 <= n < |w.nodes| ==> NodeOk(w, n))
    && (forall c :: InboxOk(w, c))
    && NoDuplicates(w.closes)
    && (forall c :: c in w.closes ==> c in w.home)
  }

  lemma PublishStep(w: World, a: Action)
    requires Inv(w) && a.Publish?
    ensures Inv(Next(w, a))
  {
    var v := Next(w, a);
    if a.channel > 0 {
      var e := NewEvent(w, a.kind, a.channel, a.from, a.to);
      assert !IsIssued(w, e);
      assert forall d :: IsIssued(w, d) ==> IsIssued(v, d);
      assert IsIssued(v, e);
      forall n | 0 <= n < |v.nodes|
        ensures NodeOk(v, n)
      {
        assert NodeOk(w, n);
      }
      forall c
        ensures InboxOk(v, c)
      {
        assert InboxOk(w, c);
      }
    }
  }

  // An event leaves the transit of a node, having reached some of the clients meant.
  lemma HandleStep(w: World, n: nat, e: Event, targets: set<Client>)
    requires Inv(w) && n < |w.nodes| && e in w.nodes[n].transit
    requires targets <= Meant(w.nodes[n].clients, e)
    ensures Inv(w.(nodes := w.nodes[n := Handled(w.nodes[n], e)], inbox := Put(w.inbox, targets, e)))
  {
    var v := w.(nodes := w.nodes[n := Handled(w.nodes[n], e)], inbox := Put(w.inbox, targets, e));
    forall m | 0 <= m < |v.nodes|
      ensures NodeOk(v, m)
    {
      assert NodeOk(w, m);
      assert v.nodes[m].transit + v.nodes[m].handled == w.nodes[m].transit + w.nodes[m].handled;
    }
    forall c
      ensures InboxOk(v, c)
    {
      assert InboxOk(w, c) && NodeOk(w, n);
      assert Inbox(v, c) == Inbox(w, c) + if c in targets then [e] else [];
      if c in targets {
        assert c in w.nodes[n].clients && w.home[c] == n && MeantFor(e, c);
        assert e !in w.nodes[n].handled;
        assert e !in Inbox(w, c);
      }
    }
  }

  lemma HubStep(w: World, a: Action)
    requires Inv(w) && (a.Register? || a.Unregister? || a.Close?)
    ensures Inv(Next(w, a))
  {
    var v := Next(w, a);
    if v != w {
      assert NodeOk(w, a.node);
      if a.Close? {
        var c := w.nodes[a.node].closing.value;
        assert v.closes == w.closes + [c];
        NoDuplicatesAppend(w.closes, [c]);
      }
      forall m | 0 <= m < |v.nodes|
        ensures NodeOk(v, m)
      {
        assert NodeOk(w, m);
      }
      forall c
        ensures InboxOk(v, c)
      {
        assert InboxOk(w, c);
      }
    }
  }

  lemma ShutdownStep(w: World, n: nat)
    requires Inv(w)
    ensures Inv(Next(w, Shutdown(n)))
  {
    var v := Next(w, Shutdown(n));
    if v != w {
      assert NodeOk(w, n);
      var more := Listing(w.nodes[n].clients);
      forall i, j | 0 <= i < |w.closes| && 0 <= j < |more|
        ensures w.closes[i] != more[j]
      {
        assert w.closes[i] in w.closes && more[j] in more;
      }
      NoDuplicatesAppend(w.closes, more);
      forall m | 0 <= m < |v.nodes|
        ensures NodeOk(v, m)
      {
        assert NodeOk(w, m);
      }
      forall c
        ensures InboxOk(v, c)
      {
        assert InboxOk(w, c);
      }
    }
  }

  lemma {:induction false} Reachable(n: nat, run: seq<Action>)
    ensures Inv(Exec(n, run))
  {
    if run != [] {
      Reachable(n, Front(run));
      var w := Exec(n, Front(run));
      match Last(run)
      case Publish(_, _, _, _, _) => PublishStep(w, Last(run));
      case Drop(m, e) =>
        if m < |w.nodes| && e in w.nodes[m].transit {
          HandleStep(w, m, e, {});
          assert forall c :: c in w.inbox ==> w.inbox[c] + [] == w.inbox[c];
          assert Put(w.inbox, {}, e) == w.inbox;
        }
      case Deliver(m, e, full) =>
        if m < |w.nodes| && e in w.nodes[m].transit {
          HandleStep(w, m, e, Receivers(w.nodes[m], e, full));
        }
      case Register(_, _) => HubStep(w, Last(run));
      case Unregister(_, _) => HubStep(w, Last(run));
      case Close(_) => HubStep(w, Last(run));
      case Shutdown(m) => ShutdownStep(w, m);
    }
  }

  // ---- Main results, for every run ----

  // A client gets only events meant for it, each at most once, with pairwise distinct sequences,
  // and every sequence it sees is one the channel issued, for that very event.
  lemma EachEventOnce(n: nat, run: seq<Action>, c: Client)
    ensures var w := Exec(n, run); var got := Inbox(w, c);
      && (forall e :: e in got ==> MeantFor(e, c) && IsIssued(w, e))
      && (forall i, j :: 0 <= i < j < |got| ==> got[i].sequence != got[j].sequence)
  {
    Reachable(n, run);
    var w := Exec(n, run);
    var got := Inbox(w, c);
    assert InboxOk(w, c);
    forall e | e in got
      ensures IsIssued(w, e)
    {
      assert NodeOk(w, w.home[c]);
    }
    forall i, j | 0 <= i < j < |got|
      ensures got[i].sequence != got[j].sequence
    {
      assert got[i] in got && got[j] in got;
      assert IsIssued(w, got[i]) && IsIssued(w, got[j]);
    }
  }

  // What is published on a channel, in order.
  function Publishes(run: seq<Action>, channel: int64): seq<Action> {
    if run == [] then []
    else
      var a := Last(run);
      Publishes(Front(run), channel) + if a.Publish? && a.channel == channel && channel > 0 then [a] else []
  }

  lemma IssuedStep(w: World, a: Action, channel: int64)
    ensures Issued(Next(w, a), channel) == Issued(w, channel)
      + if a.Publish? && a.channel == channel && channel > 0
        then [Event(a.kind, channel, |Issued(w, channel)| + 1, a.from, a.to)] else []
  {
  }

  // The events of a channel are what was published on it, numbered from one, with kind, sender and
  // addressee as published.
  lemma {:induction false} IssuedArePublished(n: nat, run: seq<Action>, channel: int64)
    ensures var events, sent := Issued(Exec(n, run), channel), Publishes(run, channel);
      && |events| == |sent|
      && forall i :: 0 <= i < |events| ==>
           sent[i].Publish? && events[i] == Event(sent[i].kind, channel, i + 1, sent[i].from, sent[i].to)
  {
    if run != [] {
      IssuedArePublished(n, Front(run), channel);
      IssuedStep(Exec(n, Front(run)), Last(run), channel);
      hide Next, Issued;
    }
  }

  // A copy goes to every node reached and to no other.
  lemma PublishReaches(w: World, kind: string, channel: int64, from: int64, to: int64, reached: set<nat>, n: nat)
    requires n < |w.nodes| && channel > 0
    ensures var v := Next(w, Publish(kind, channel, from, to, reached));
      var e := Event(kind, channel, |Issued(w, channel)| + 1, from, to);
      && |v.nodes| == |w.nodes| && v.inbox == w.inbox
      && v.nodes[n] == if n in reached then w.nodes[n].(transit := w.nodes[n].transit + {e}) else w.nodes[n]
  {
  }

  // The delivery of a copy puts the event, once, into the inbox of each client of the channel on the node
  // that has room: of all of them, or, for the three signals of a call, of the addressee's only, or of
  // everybody's but the sender's when no addressee is named.
  lemma DeliveryReaches(w: World, n: nat, e: Event, full: set<Client>, c: Client)
    requires n < |w.nodes| && e in w.nodes[n].transit
    ensures var allowed :=
        if e.kind !in {"call.offer", "call.answer", "call.ice"} then true
        else if e.to != 0 then c.userID == e.to
        else if e.from != 0 then c.userID != e.from
        else true;
      Inbox(Next(w, Deliver(n, e, full)), c) == Inbox(w, c)
        + if c in w.nodes[n].clients && c !in full && c.channelID == e.channelID && allowed then [e] else []
  {
  }

  // However unregisters and shutdowns interleave, no send channel is closed twice, and none is
  // closed while its client is still in a hub's map.
  lemma ClosedAtMostOnce(n: nat, run: seq<Action>)
    ensures var w := Exec(n, run);
      && NoDuplicates(w.closes)
      && forall m, c :: 0 <= m < |w.nodes| && c in w.nodes[m].clients ==> c !in w.closes
  {
    Reachable(n, run);
    var w := Exec(n, run);
    forall m, c | 0 <= m < |w.nodes| && c in w.nodes[m].clients
      ensures c !in w.closes
    {
      assert NodeOk(w, m);
    }
  }

  // internal/realtime/sequence.go: the in-process sequencer, with all it has given out so far.
  class MemorySequencer {
    var counters: map<int64, int>
    ghost var given: map<int64, seq<int>>

    ghost function Given(channel: int64): seq<int>
      reads this
    {
      if channel in given then given[channel] else []
    }

    // Each channel was given 1, 2, 3, ... and its counter is the last of them.
    ghost predicate Valid()
      reads this
    {
      forall channel: int64 ::
        && CountOf(counters, channel) == |Given(channel)|
        && forall i :: 0 <= i < |Given(channel)| ==> Given(channel)[i] == i + 1
    }

    constructor ()
      ensures Valid() && given == map[]
    {
      counters, given := map[], map[];
    }

    method Next(channel: int64) returns (n: int)
      requires Valid()
      modifies this
      ensures Valid() && Given(channel) == old(Given(channel)) + [n]
      ensures forall other: int64 :: other != channel ==> Given(other) == old(Given(other))
    {
      given := given[channel := Given(channel) + [CountOf(counters, channel) + 1]];
      counters := counters[channel := CountOf(counters, channel) + 1];
      n := counters[channel];
      forall other: int64
        ensures CountOf(counters, other) == |Given(other)|
        ensures forall i :: 0 <= i < |Given(other)| ==> Given(other)[i] == i + 1
      {
        assert old(CountOf(counters, other) == |Given(other)|);
      }
    }
  }
}
