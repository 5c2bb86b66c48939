// Several nodes sharing one presence store. A hub runs its registrations one at a time, but each
// is two steps: the hub's own maps change under its lock, and the presence script runs afterwards.
// Steps of different nodes interleave freely.
module Cluster {
  import opened Base
  import opened Presence
  import opened Clients

  datatype Pending = Idle | Connecting(client: Client) | Disconnecting(client: Client)

  datatype Node = Node(clients: set<Client>, pending: Pending)

  // ops is the sequence of presence calls made so far, by all nodes together.
  datatype Cluster = Cluster(nodes: seq<Node>, seen: set<Client>, ops: seq<Op>)

  datatype Action =
    | Register(node: nat, client: Client)
    | RunConnect(node: nat)
    | Unregister(node: nat, client: Client)
    | RunDisconnect(node: nat)
    | UpdateStatus(user: int64, wanted: Status)
    | ShutDownClient(node: nat, client: Client)   // one round of the loop in Shutdown

  function Next(s: Cluster, a: Action): Cluster {
    match a
    case Register(n, c) =>
      // Each client object is registered once.
      if n < |s.nodes| && s.nodes[n].pending == Idle && c !in s.seen then
        Cluster(s.nodes[n := Node(s.nodes[n].clients + {c}, Connecting(c))], s.seen + {c}, s.ops)
      else s
    case RunConnect(n) =>
      if n < |s.nodes| && s.nodes[n].pending.Connecting? then
        s.(nodes := s.nodes[n := s.nodes[n].(pending := Idle)],
           ops := s.ops + [Connect(ConnOf(s.nodes[n].pending.client))])
      else s
    case Unregister(n, c) =>
      // A client that is not in the map is left alone, so a second unregister does nothing.
      if n < |s.nodes| && s.nodes[n].pending == Idle && c in s.nodes[n].clients then
        s.(nodes := s.nodes[n := Node(s.nodes[n].clients - {c}, Disconnecting(c))])
      else s
    case RunDisconnect(n) =>
      if n < |s.nodes| && s.nodes[n].pending.Disconnecting? then
        s.(nodes := s.nodes[n := s.nodes[n].(pending := Idle)],
           ops := s.ops + [Disconnect(ConnOf(s.nodes[n].pending.client))])
      else s
    case UpdateStatus(u, wanted) =>
      s.(ops := s.ops + [SetStatus(u, wanted)])
    case ShutDownClient(n, c) =>
      if n < |s.nodes| && c in s.nodes[n].clients then
        s.(nodes := s.nodes[n := s.nodes[n].(clients := s.nodes[n].clients - {c})],
           ops := s.ops + [Disconnect(ConnOf(c))])
      else s
  }

  function Start(n: nat): Cluster {
    Cluster(seq(n, _ => Node({}, Idle)), {}, [])
  }

  function Exec(n: nat, run: seq<Action>): Cluster {
    if run == [] then Start(n) else Next(Exec(n, Front(run)), Last(run))
  }

  // No shutdown catches a client between the map update and the connect script of its registration:
  // its disconnect would then run before its connect.
  predicate Clean(s: Cluster, a: Action) {
    a.ShutDownClient? && a.node < |s.nodes| ==> s.nodes[a.node].pending != Connecting(a.client)
  }

  predicate CleanRun(n: nat, run: seq<Action>) {
    run == [] || (CleanRun(n, Front(run)) && Clean(Exec(n, Front(run)), Last(run)))
  }

  // ---- What the store should hold ----

  // The clients whose connect script has run and whose disconnect script has not.
  function Live(node: Node): set<Client> {
    match node.pending
    case Idle => node.clients
    case Connecting(c) => node.clients - {c}
    case Disconnecting(c) => node.clients + {c}
  }

  function Total(nodes: seq<Node>, scope: Scope): nat {
    if nodes == [] then 0 else |Select(Live(nodes[0]), scope)| + Total(nodes[1..], scope)
  }

  lemma {:induction false} TotalUpdate(nodes: seq<Node>, n: nat, node: Node, scope: Scope)
    requires n < |nodes|
    ensures Total(nodes[n := node], scope)
         == Total(nodes, scope) - |Select(Live(nodes[n]), scope)| + |Select(Live(node), scope)|
  {
    if n == 0 {
      assert nodes[0 := node][1..] == nodes[1..];
    } else {
      TotalUpdate(nodes[1..], n - 1, node, scope);
      assert nodes[n := node][1..] == nodes[1..][n - 1 := node];
    }
  }

  ghost function Conns(s: Cluster): multiset<Conn> {
    After(Redis, s.ops).conns
  }

  predicate NodeOk(node: Node, seen: set<Client>) {
    && node.clients <= seen
    && (node.pending.Connecting? ==> node.pending.client in node.clients)
    && (node.pending.Disconnecting? ==> node.pending.client !in node.clients)
  }

  ghost predicate Inv(s: Cluster) {
    && (forall n :: 0 <= n < |s.nodes| ==> NodeOk(s.nodes[n], s.seen))
    && (forall scope :: Count(Conns(s), scope) == Total(s.nodes, scope))
    && MatchedRun(Redis, s.ops)
  }

  lemma {:induction false} TotalOfIdle(n: nat, scope: Scope)
    ensures Total(Start(n).nodes, scope) == 0
  {
    if n > 0 {
      TotalOfIdle(n - 1, scope);
      assert Start(n).nodes[1..] == Start(n - 1).nodes;
      assert Select({}, scope) == {};
    }
  }

  lemma OpsStep(ops: seq<Op>, op: Op)
    ensures After(Redis, ops + [op]) == Step(Redis, After(Redis, ops), op)
    ensures MatchedRun(Redis, ops + [op]) <==> MatchedRun(Redis, ops) && Matched(After(Redis, ops), op)
  {
    assert Front(ops + [op]) == ops;
  }

  // The steps that change only a hub's own maps leave the live clients as they were.
  lemma QuietStep(s: Cluster, a: Action)
    requires Inv(s) && (a.Register? || a.Unregister?)
    ensures Inv(Next(s, a))
  {
    hide Count, Total;
    var t := Next(s, a);
    if t != s {
      assert NodeOk(s.nodes[a.node], s.seen);
      QuietNode(s.nodes[a.node], a.client, t.nodes[a.node]);
      forall scope
        ensures Total(t.nodes, scope) == Total(s.nodes, scope)
      {
        TotalUpdate(s.nodes, a.node, t.nodes[a.node], scope);
      }
    }
  }

  lemma QuietNode(node: Node, c: Client, node': Node)
    requires node.pending == Idle
    requires || (c !in node.clients && node' == Node(node.clients + {c}, Connecting(c)))
             || (c in node.clients && node' == Node(node.clients - {c}, Disconnecting(c)))
    ensures Live(node') == Live(node)
  {
  }

  lemma ConnectStep(s: Cluster, n: nat)
    requires Inv(s)
    ensures Inv(Next(s, RunConnect(n)))
  {
    hide Count, Total, After, MatchedRun, Select;
    var t := Next(s, RunConnect(n));
    if t != s {
      var c := s.nodes[n].pending.client;
      OpsStep(s.ops, Connect(ConnOf(c)));
      assert NodeOk(s.nodes[n], s.seen);
      CountsChange(Conns(s), ConnOf(c));
      forall scope
        ensures Count(Conns(t), scope) == Total(t.nodes, scope)
      {
        TotalUpdate(s.nodes, n, t.nodes[n], scope);
        SelectRemove(s.nodes[n].clients, c, scope);
      }
    }
  }

  lemma {:induction false} TotalAtLeast(nodes: seq<Node>, n: nat, scope: Scope)
    requires n < |nodes|
    ensures Total(nodes, scope) >= |Select(Live(nodes[n]), scope)|
  {
    if n > 0 {
      TotalAtLeast(nodes[1..], n - 1, scope);
    }
  }

  // Running the disconnect script for a live client of a node, which then is not live.
  lemma Withdraw(s: Cluster, t: Cluster, n: nat, c: Client)
    requires Inv(s) && n < |s.nodes| && c in Live(s.nodes[n])
    requires |t.nodes| == |s.nodes| && t.nodes == s.nodes[n := t.nodes[n]]
    requires Live(t.nodes[n]) == Live(s.nodes[n]) - {c}
    requires NodeOk(t.nodes[n], t.seen) && t.seen == s.seen && t.ops == s.ops + [Disconnect(ConnOf(c))]
    ensures Inv(t)
  {
    hide Count, Total, After, MatchedRun, Select, Live;
    OpsStep(s.ops, Disconnect(ConnOf(c)));
    TotalAtLeast(s.nodes, n, Exactly(ConnOf(c)));
    SelectRemove(Live(s.nodes[n]), c, Exactly(ConnOf(c)));
    CountExactly(Conns(s), ConnOf(c));
    CountsChange(Conns(s), ConnOf(c));
    forall scope
      ensures Count(Conns(t), scope) == Total(t.nodes, scope)
    {
      TotalUpdate(s.nodes, n, t.nodes[n], scope);
      SelectRemove(Live(s.nodes[n]), c, scope);
    }
  }

  // The disconnect script is only ever run for a connection the store still counts.
  lemma DisconnectStep(s: Cluster, n: nat)
    requires Inv(s)
    ensures Inv(Next(s, RunDisconnect(n)))
  {
    var t := Next(s, RunDisconnect(n));
    if t != s {
      var c := s.nodes[n].pending.client;
      assert NodeOk(s.nodes[n], s.seen);
      hide Inv;
      assert Live(s.nodes[n]) - {c} == Live(t.nodes[n]);
      Withdraw(s, t, n, c);
    }
  }

  lemma ShutDownStep(s: Cluster, n: nat, c: Client)
    requires Inv(s) && Clean(s, ShutDownClient(n, c))
    ensures Inv(Next(s, ShutDownClient(n, c)))
  {
    var t := Next(s, ShutDownClient(n, c));
    if t != s {
      assert NodeOk(s.nodes[n], s.seen);
      hide Inv;
      assert Live(s.nodes[n]) - {c} == Live(t.nodes[n]);
      Withdraw(s, t, n, c);
    }
  }

  lemma StatusStep(s: Cluster, user: int64, wanted: Status)
    requires Inv(s)
    ensures Inv(Next(s, UpdateStatus(user, wanted)))
  {
    hide Count, Total, After, MatchedRun;
    OpsStep(s.ops, SetStatus(user, wanted));
  }

  lemma StartKeeps(n: nat)
    ensures Inv(Start(n))
  {
    hide Count, Total;
    forall scope
      ensures Count(Conns(Start(n)), scope) == Total(Start(n).nodes, scope)
    {
      TotalOfIdle(n, scope);
      CountPositive(multiset{}, scope);
    }
  }

  lemma {:induction false} Reachable(n: nat, run: seq<Action>)
    requires CleanRun(n, run)
    ensures Inv(Exec(n, run)) && |Exec(n, run).nodes| == n
  {
    hide Inv;
    if run == [] {
      StartKeeps(n);
    } else {
      Reachable(n, Front(run));
      var s := Exec(n, Front(run));
      match Last(run)
      case Register(_, _) => QuietStep(s, Last(run));
      case Unregister(_, _) => QuietStep(s, Last(run));
      case RunConnect(m) => ConnectStep(s, m);
      case RunDisconnect(m) => DisconnectStep(s, m);
      case UpdateStatus(u, wanted) => StatusStep(s, u, wanted);
      case ShutDownClient(m, c) => ShutDownStep(s, m, c);
    }
  }

  // ---- Main results, for every run ----

  // The user's clients in a hub's maps: until that hub shuts down, its userConnections entry.
  function UserConnections(node: Node, user: int64): nat {
    |Select(node.clients, ByUser(user))|
  }

  function SumConnections(nodes: seq<Node>, user: int64): nat {
    if nodes == [] then 0 else UserConnections(nodes[0], user) + SumConnections(nodes[1..], user)
  }

  // Registered but not yet announced, and removed but not yet withdrawn.
  function Announcing(nodes: seq<Node>, user: int64): nat {
    if nodes == [] then 0
    else Bit(nodes[0].pending.Connecting? && nodes[0].pending.client.userID == user) + Announcing(nodes[1..], user)
  }

  function Withdrawing(nodes: seq<Node>, user: int64): nat {
    if nodes == [] then 0
    else Bit(nodes[0].pending.Disconnecting? && nodes[0].pending.client.userID == user) + Withdrawing(nodes[1..], user)
  }

  lemma {:induction false} TotalByUser(nodes: seq<Node>, seen: set<Client>, user: int64)
    requires forall n :: 0 <= n < |nodes| ==> NodeOk(nodes[n], seen)
    ensures Total(nodes, ByUser(user)) + Announcing(nodes, user)
         == SumConnections(nodes, user) + Withdrawing(nodes, user)
  {
    if nodes != [] {
      assert NodeOk(nodes[0], seen);
      match nodes[0].pending {
        case Idle =>
        case Connecting(c) => SelectRemove(nodes[0].clients, c, ByUser(user));
        case Disconnecting(c) => SelectAdd(nodes[0].clients, c, ByUser(user));
      }
      TotalByUser(nodes[1..], seen, user);
    }
  }

  // The shared connection count of a user is the sum of all hubs' own counts, up to the clients
  // between the map update and the script call.
  lemma CountIsSum(n: nat, run: seq<Action>, user: int64)
    requires CleanRun(n, run)
    ensures var s := Exec(n, run);
      Count(Conns(s), ByUser(user)) + Announcing(s.nodes, user)
      == SumConnections(s.nodes, user) + Withdrawing(s.nodes, user)
  {
    Reachable(n, run);
    var s := Exec(n, run);
    TotalByUser(s.nodes, s.seen, user);
  }

  lemma {:induction false} TotalPositive(nodes: seq<Node>, scope: Scope)
    ensures Total(nodes, scope) > 0 <==>
            exists n, c :: 0 <= n < |nodes| && c in Live(nodes[n]) && In(ConnOf(c), scope)
  {
    if nodes != [] {
      TotalPositive(nodes[1..], scope);
      if c :| c in Select(Live(nodes[0]), scope) {
        assert 0 <= 0 < |nodes| && c in Live(nodes[0]) && In(ConnOf(c), scope);
      } else {
        assert Select(Live(nodes[0]), scope) == {};
        if n, c :| 0 <= n < |nodes| && c in Live(nodes[n]) && In(ConnOf(c), scope) {
          assert n == 0 ==> c in Select(Live(nodes[0]), scope);
          assert nodes[1..][n - 1] == nodes[n];
        }
      }
      if n, c :| 0 <= n < |nodes[1..]| && c in Live(nodes[1..][n]) && In(ConnOf(c), scope) {
        assert nodes[n + 1] == nodes[1..][n];
      }
    }
  }

  // A user is in the global online set, or a workspace's, exactly while some node holds a live
  // client of that user, or of that user in that workspace.
  lemma OnlineIffLiveClient(n: nat, run: seq<Action>, scope: Scope)
    requires CleanRun(n, run)
    ensures var s := Exec(n, run);
      Count(Conns(s), scope) > 0 <==>
      exists m, c :: 0 <= m < |s.nodes| && c in Live(s.nodes[m]) && In(ConnOf(c), scope)
  {
    Reachable(n, run);
    TotalPositive(Exec(n, run).nodes, scope);
  }

  // In the maps with its connect script run, or removed with its disconnect script still to run.
  predicate Announced(node: Node, c: Client) {
    if c in node.clients then node.pending != Connecting(c) else node.pending == Disconnecting(c)
  }

  // The store holds a connection of a user to a channel of a workspace exactly while some node has such
  // a client announced.
  lemma ConnectionIffClient(n: nat, run: seq<Action>, user: int64, workspace: int64, channel: int64)
    requires CleanRun(n, run)
    ensures var s := Exec(n, run);
      Conn(user, workspace, channel) in Conns(s) <==>
      exists m, c :: 0 <= m < |s.nodes| && Announced(s.nodes[m], c)
        && c.userID == user && c.workspaceID == workspace && c.channelID == channel
  {
    hide Total, Exec, CleanRun, Conns;
    Reachable(n, run);
    var s, conn := Exec(n, run), Conn(user, workspace, channel);
    OnlineIffLiveClient(n, run, Exactly(conn));
    CountExactly(Conns(s), conn);
    forall m, c | 0 <= m < |s.nodes|
      ensures c in Live(s.nodes[m]) <==> Announced(s.nodes[m], c)
    {
      assert NodeOk(s.nodes[m], s.seen);
    }
    hide Live, Announced, Count;
    if conn in Conns(s) {
      var m, c :| 0 <= m < |s.nodes| && c in Live(s.nodes[m]) && In(ConnOf(c), Exactly(conn));
      assert Announced(s.nodes[m], c);
    }
    if m, c :| 0 <= m < |s.nodes| && Announced(s.nodes[m], c)
               && c.userID == user && c.workspaceID == workspace && c.channelID == channel {
      assert c in Live(s.nodes[m]) && In(ConnOf(c), Exactly(conn));
    }
  }

  // Whatever the interleaving, the scripts' answers about each user strictly alternate, in the order of
  // the scripts, starting with online. Their publication is the subject of module ClusterNotices.
  lemma NoticesAlternateOnEveryRun(n: nat, run: seq<Action>, user: int64)
    requires CleanRun(n, run)
    ensures Truthful(Of(Log(Redis, Exec(n, run).ops), user), Count(Conns(Exec(n, run)), ByUser(user)) > 0)
  {
    Reachable(n, run);
    NoticesAlternate(Redis, Exec(n, run).ops, user);
  }

  // ---- Exactly which runs keep the store exact ----

  // Every count of the store is the number of live clients, and no disconnect ran unmatched.
  ghost predicate Exact(s: Cluster) {
    && (forall scope :: Count(Conns(s), scope) == Total(s.nodes, scope))
    && MatchedRun(Redis, s.ops)
  }

  // At every moment of the run.
  ghost predicate AlwaysExact(n: nat, run: seq<Action>) {
    Exact(Exec(n, run)) && (run == [] || AlwaysExact(n, Front(run)))
  }

  // A shutdown that catches a registering client breaks exactness there and then: the disconnect
  // either has no connection to end or ends the connection of another, equal client.
  lemma UncleanBreaks(s: Cluster, a: Action)
    requires Inv(s) && !Clean(s, a)
    ensures !Exact(Next(s, a))
  {
    hide Count, Total, After, MatchedRun, Select;
    var n, c, t := a.node, a.client, Next(s, a);
    var conn := ConnOf(c);
    assert NodeOk(s.nodes[n], s.seen);
    assert Live(t.nodes[n]) == Live(s.nodes[n]);
    TotalUpdate(s.nodes, n, t.nodes[n], Exactly(conn));
    OpsStep(s.ops, Disconnect(conn));
    if conn in Conns(s) {
      CountsChange(Conns(s), conn);
      assert Count(Conns(t), Exactly(conn)) == Count(Conns(s), Exactly(conn)) - 1;
    }
  }

  // The store is exact throughout a run if and only if no shutdown of the run catches a client
  // between the two halves of its registration.
  lemma {:induction false} ExactIffClean(n: nat, run: seq<Action>)
    ensures AlwaysExact(n, run) <==> CleanRun(n, run)
  {
    if CleanRun(n, run) {
      ExactNow(n, run);
    }
    if run != [] {
      ExactIffClean(n, Front(run));
      if CleanRun(n, Front(run)) && !CleanRun(n, run) {
        Reachable(n, Front(run));
        UncleanBreaks(Exec(n, Front(run)), Last(run));
      }
    }
  }

  lemma ExactNow(n: nat, run: seq<Action>)
    requires CleanRun(n, run)
    ensures Exact(Exec(n, run))
  {
    Reachable(n, run);
  }

  // The witness: a shutdown that catches a registering client leaves its user online with no client
  // anywhere.
  lemma ShutdownCatchesRegistration(c: Client)
    ensures var run := [Register(0, c)] + [ShutDownClient(0, c)] + [RunConnect(0)]; var s := Exec(1, run);
      && !CleanRun(1, run)
      && s.nodes == [Node({}, Idle)]
      && Count(Conns(s), ByUser(c.userID)) == 1
  {
    var r1 := [] + [Register(0, c)];
    var r2 := r1 + [ShutDownClient(0, c)];
    var r3 := r2 + [RunConnect(0)];
    Append(1, [], Register(0, c));
    Append(1, r1, ShutDownClient(0, c));
    Append(1, r2, RunConnect(0));
    assert r1 == [Register(0, c)];
    assert Exec(1, []) == Cluster([Node({}, Idle)], {}, []);
    hide Exec, CleanRun, After;
    var conn := ConnOf(c);
    assert {} + {c} == {c} && {c} - {c} == {};
    assert Exec(1, r1) == Cluster([Node({c}, Connecting(c))], {c}, []);
    assert Exec(1, r2) == Cluster([Node({}, Connecting(c))], {c}, [] + [Disconnect(conn)]);
    assert Exec(1, r3) == Cluster([Node({}, Idle)], {c}, [] + [Disconnect(conn)] + [Connect(conn)]);
    OpsStep([], Disconnect(conn));
    OpsStep([] + [Disconnect(conn)], Connect(conn));
    assert multiset{} - multiset{conn} == multiset{};
    assert Conns(Exec(1, r3)) == multiset{} + multiset{conn};
    CountAdd(multiset{}, conn, ByUser(c.userID));
    CountPositive(multiset{}, ByUser(c.userID));
  }

  lemma Append(n: nat, run: seq<Action>, a: Action)
    ensures Exec(n, run + [a]) == Next(Exec(n, run), a)
    ensures CleanRun(n, run + [a]) <==> CleanRun(n, run) && Clean(Exec(n, run), a)
  {
    assert Front(run + [a]) == run;
  }
}
