// The notices of several nodes: each presence call ends with its publish, so a hub's handler has at
// most one notice on its way, and so has a hub's shutdown, which runs beside the handlers.
module ClusterNotices {
  import opened Base
  import opened Presence
  import opened Clients
  import Nodes = Cluster
  import Publishing

  datatype Caller = Handler(node: nat) | Stopper(node: nat) | Request

  // acts are the steps of the cluster and moves those of the desk; callers are those still publishing.
  datatype World = World(acts: seq<Nodes.Action>, moves: seq<Publishing.Move>, callers: seq<Caller>)

  datatype Move = Act(action: Nodes.Action) | Publish(i: nat)

  const NOTHING := World([], [], [])

  function CallerOf(a: Nodes.Action): Caller {
    match a
    case Register(n, _) => Handler(n)
    case RunConnect(n) => Handler(n)
    case Unregister(n, _) => Handler(n)
    case RunDisconnect(n) => Handler(n)
    case ShutDownClient(n, _) => Stopper(n)
    case UpdateStatus(_, _) => Request
  }

  ghost function Acted(n: nat, w: World, a: Nodes.Action): World {
    var s, t := Nodes.Exec(n, w.acts), Nodes.Next(Nodes.Exec(n, w.acts), a);
    if |t.ops| == |s.ops| then w.(acts := w.acts + [a])
    else
      World(w.acts + [a], w.moves + [Publishing.Script(Last(t.ops))],
            w.callers + if Notices(After(Redis, s.ops), Last(t.ops)) == [] then [] else [CallerOf(a)])
  }

  ghost function Next(n: nat, w: World, m: Move): World {
    match m
    case Act(a) => if CallerOf(a) in w.callers then w else Acted(n, w, a)
    case Publish(i) =>
      if i < |w.callers| then World(w.acts, w.moves + [Publishing.Publish(i)], Publishing.Without(w.callers, i)) else w
  }

  ghost function Exec(n: nat, run: seq<Move>): World {
    if run == [] then NOTHING else Next(n, Exec(n, Front(run)), Last(run))
  }

  // The desk has run the scripts of the cluster, in their order, and each waiting notice is of one caller.
  ghost predicate Inv(n: nat, w: World) {
    var d := Publishing.Exec(Redis, w.moves);
    && d.ops == Nodes.Exec(n, w.acts).ops
    && |d.waiting| == |w.callers|
    && NoDuplicates(w.callers)
  }

  // A step of the cluster runs at most one script.
  lemma OneScript(s: Nodes.Cluster, a: Nodes.Action)
    ensures var t := Nodes.Next(s, a); t.ops == s.ops || (t.ops != [] && t.ops == s.ops + [Last(t.ops)])
  {
  }

  lemma StepKeeps(n: nat, w: World, m: Move)
    requires Inv(n, w)
    ensures Inv(n, Next(n, w, m))
  {
    hide Notices, After, NoDuplicates;
    match m
    case Act(a) =>
      if CallerOf(a) !in w.callers {
        var s := Nodes.Exec(n, w.acts);
        hide Nodes.Exec, Nodes.Next, Publishing.Exec;
        OneScript(s, a);
        Nodes.Append(n, w.acts, a);
        if Nodes.Next(s, a).ops != s.ops {
          var op := Last(Nodes.Next(s, a).ops);
          Publishing.Append(Redis, w.moves, Publishing.Script(op));
          FewNotices(After(Redis, s.ops), op);
          NoDuplicatesMore(w.callers, CallerOf(a));
          assert w.callers + [] == w.callers;
        }
      }
    case Publish(i) =>
      if i < |w.callers| {
        hide Nodes.Exec, Publishing.Exec;
        Publishing.Append(Redis, w.moves, Publishing.Publish(i));
        NoDuplicatesWithout(w.callers, i);
      }
  }

  lemma FewNotices(s: State, op: Op)
    ensures |Notices(s, op)| <= 1
  {
  }

  lemma NoDuplicatesMore(callers: seq<Caller>, c: Caller)
    requires NoDuplicates(callers) && c !in callers
    ensures NoDuplicates(callers + [c])
  {
  }

  lemma NoDuplicatesWithout(callers: seq<Caller>, i: nat)
    requires NoDuplicates(callers) && i < |callers|
    ensures NoDuplicates(Publishing.Without(callers, i))
  {
  }

  lemma {:induction false} Reachable(n: nat, run: seq<Move>)
    ensures Inv(n, Exec(n, run))
  {
    if run != [] {
      Reachable(n, Front(run));
      StepKeeps(n, Exec(n, Front(run)), Last(run));
    }
  }

  // ---- Main results ----

  // Whatever the interleaving of nodes and publishes, as long as no shutdown catches a registering
  // client: what is published about each user alternates at every moment, whichever waiting notice
  // comes next, if and only if no two notices of one user ever wait together.
  lemma NoticesInTurnIff(n: nat, run: seq<Move>)
    requires Nodes.CleanRun(n, Exec(n, run).acts)
    ensures var moves := Exec(n, run).moves;
      Publishing.AlwaysInTurn(Redis, moves) <==> Publishing.NeverTogether(Redis, moves)
  {
    Reachable(n, run);
    Nodes.Reachable(n, Exec(n, run).acts);
    Publishing.InTurnIffNeverTogether(Redis, Exec(n, run).moves);
  }

  predicate NoShutdown(acts: seq<Nodes.Action>) {
    forall i :: 0 <= i < |acts| ==> !acts[i].ShutDownClient?
  }

  lemma {:induction false} OfShorter(waiting: seq<Notice>, user: int64)
    ensures |Of(waiting, user)| <= |waiting|
  {
    if waiting != [] {
      OfShorter(Front(waiting), user);
    }
  }

  lemma {:induction false} NodesStay(n: nat, acts: seq<Nodes.Action>)
    ensures |Nodes.Exec(n, acts).nodes| == n
  {
    if acts != [] {
      NodesStay(n, Front(acts));
    }
  }

  lemma CallersStep(w: World, m: Move)
    requires NoShutdown(Next(1, w, m).acts) && |Nodes.Exec(1, w.acts).nodes| == 1
    requires forall c :: c in w.callers ==> c == Handler(0)
    ensures NoShutdown(w.acts)
    ensures forall c :: c in Next(1, w, m).callers ==> c == Handler(0)
  {
    hide Nodes.Exec;
    var v := Next(1, w, m);
    assert forall i :: 0 <= i < |w.acts| ==> v.acts[i] == w.acts[i];
    if m.Act? && v != w {
      assert v.acts[|w.acts|] == m.action;
      QuietStatus(1, w, m.action);
      OneScript(Nodes.Exec(1, w.acts), m.action);
    }
    if m.Publish? && m.i < |w.callers| {
      assert forall c :: c in Publishing.Without(w.callers, m.i) ==> c in w.callers;
    }
  }

  lemma FewerActs(w: World, m: Move)
    requires NoShutdown(Next(1, w, m).acts)
    ensures NoShutdown(w.acts)
  {
    var v := Next(1, w, m);
    assert forall i :: 0 <= i < |w.acts| ==> v.acts[i] == w.acts[i];
  }

  lemma {:induction false} OneCaller(run: seq<Move>)
    requires NoShutdown(Exec(1, run).acts)
    ensures forall c :: c in Exec(1, run).callers ==> c == Handler(0)
  {
    if run != [] {
      var w := Exec(1, Front(run));
      FewerActs(w, Last(run));
      OneCaller(Front(run));
      NodesStay(1, w.acts);
      CallersStep(w, Last(run));
    }
  }

  lemma MovesStep(w: World, m: Move)
    ensures var v := Next(1, w, m); v.moves == w.moves || (v.moves != [] && Front(v.moves) == w.moves)
  {
  }

  // On one node, before its shutdown, at most one notice is on its way.
  lemma {:induction false} OneAtATime(run: seq<Move>)
    requires NoShutdown(Exec(1, run).acts)
    ensures Publishing.NeverTogether(Redis, Exec(1, run).moves)
  {
    if run == [] {
      Publishing.NothingYet(Redis);
    } else {
      FewerActs(Exec(1, Front(run)), Last(run));
      OneAtATime(Front(run));
      MovesStep(Exec(1, Front(run)), Last(run));
      assert Exec(1, run) == Next(1, Exec(1, Front(run)), Last(run));
      hide Exec, Next;
      Reachable(1, run);
      OneCaller(run);
      AtMostOne(Exec(1, run).callers);
      Alone(1, Exec(1, run));
    }
  }

  // A status update runs a script that calls for no notice.
  lemma QuietStatus(n: nat, w: World, a: Nodes.Action)
    ensures a.UpdateStatus? ==> Acted(n, w, a).callers == w.callers
  {
    if a.UpdateStatus? {
      var s := Nodes.Exec(n, w.acts);
      assert Last(Nodes.Next(s, a).ops) == SetStatus(a.user, a.wanted);
      assert w.callers + [] == w.callers;
    }
  }

  lemma AtMostOne(callers: seq<Caller>)
    requires forall c :: c in callers ==> c == Handler(0)
    ensures NoDuplicates(callers) ==> |callers| <= 1
  {
    if |callers| > 1 {
      assert callers[0] in callers && callers[1] in callers;
    }
  }

  lemma Alone(n: nat, w: World)
    requires Inv(n, w) && |w.callers| <= 1
    ensures Publishing.NoneTogether(Publishing.Exec(Redis, w.moves))
  {
    forall u: int64
      ensures |Of(Publishing.Exec(Redis, w.moves).waiting, u)| <= 1
    {
      OfShorter(Publishing.Exec(Redis, w.moves).waiting, u);
    }
  }

  // So on a single node that is not shut down, everything is always published in turn.
  lemma OneNodeInTurn(run: seq<Move>)
    requires NoShutdown(Exec(1, run).acts)
    ensures Publishing.AlwaysInTurn(Redis, Exec(1, run).moves)
  {
    OneAtATime(run);
    NoShutdownIsClean(1, Exec(1, run).acts);
    NoticesInTurnIff(1, run);
  }

  lemma {:induction false} NoShutdownIsClean(n: nat, acts: seq<Nodes.Action>)
    requires NoShutdown(acts)
    ensures Nodes.CleanRun(n, acts)
  {
    if acts != [] {
      NoShutdownIsClean(n, Front(acts));
    }
  }

  // ---- The witness, on two nodes ----

  const HERE := Client(0, 1, 1, 1, "")
  const THERE := Client(1, 1, 1, 1, "")

  // The user's only client, on node 1, comes and leaves, and the second notice still waits.
  const VISIT_ACTS: seq<Nodes.Action> :=
    [Nodes.Register(1, THERE)] + [Nodes.RunConnect(1)] + [Nodes.Unregister(1, THERE)] + [Nodes.RunDisconnect(1)]

  const VISIT: seq<Move> :=
    [Act(Nodes.Register(1, THERE))] + [Act(Nodes.RunConnect(1))] + [Publish(0)]
    + [Act(Nodes.Unregister(1, THERE))] + [Act(Nodes.RunDisconnect(1))]

  const VISIT_MOVES: seq<Publishing.Move> :=
    [Publishing.Script(Connect(Conn(1, 1, 1)))] + [Publishing.Publish(0)]
    + [Publishing.Script(Disconnect(Conn(1, 1, 1)))]

  const IDLE := Nodes.Node({}, Nodes.Idle)

  const VISITED := Nodes.Cluster([IDLE, IDLE], {THERE}, [Connect(Conn(1, 1, 1))] + [Disconnect(Conn(1, 1, 1))])

  // Another client of the user comes to node 0, which publishes first.
  const CROSSING_ACTS: seq<Nodes.Action> := VISIT_ACTS + [Nodes.Register(0, HERE)] + [Nodes.RunConnect(0)]

  const CROSSING: seq<Move> :=
    VISIT + [Act(Nodes.Register(0, HERE))] + [Act(Nodes.RunConnect(0))] + [Publish(1)] + [Publish(0)]

  lemma ActStep(n: nat, run: seq<Move>, w: World, a: Nodes.Action, s: Nodes.Cluster, t: Nodes.Cluster)
    requires Exec(n, run) == w && CallerOf(a) !in w.callers
    requires Nodes.Exec(n, w.acts) == s && Nodes.Next(s, a) == t
    ensures Nodes.Exec(n, w.acts + [a]) == t
    ensures Acted(n, w, a) ==
      if |t.ops| == |s.ops| then w.(acts := w.acts + [a])
      else
        World(w.acts + [a], w.moves + [Publishing.Script(Last(t.ops))],
              w.callers + if Notices(After(Redis, s.ops), Last(t.ops)) == [] then [] else [CallerOf(a)])
    ensures Exec(n, run + [Act(a)]) == Acted(n, w, a)
  {
    Nodes.Append(n, w.acts, a);
    assert Front(run + [Act(a)]) == run;
  }

  lemma PublishStep(n: nat, run: seq<Move>, w: World, i: nat)
    requires Exec(n, run) == w && i < |w.callers|
    ensures Exec(n, run + [Publish(i)]) ==
      World(w.acts, w.moves + [Publishing.Publish(i)], Publishing.Without(w.callers, i))
  {
    assert Front(run + [Publish(i)]) == run;
  }

  lemma Visited()
    ensures Nodes.Exec(2, VISIT_ACTS) == VISITED
    ensures Exec(2, VISIT) == World(VISIT_ACTS, VISIT_MOVES, [Handler(1)])
  {
    Publishing.CrossingScripts(Redis);
    var c := Conn(1, 1, 1);
    var s0 := Nodes.Cluster([IDLE, IDLE], {}, []);
    var s1 := Nodes.Cluster([IDLE, Nodes.Node({THERE}, Nodes.Connecting(THERE))], {THERE}, []);
    var s2 := Nodes.Cluster([IDLE, Nodes.Node({THERE}, Nodes.Idle)], {THERE}, [Connect(c)]);
    var s3 := Nodes.Cluster([IDLE, Nodes.Node({}, Nodes.Disconnecting(THERE))], {THERE}, [Connect(c)]);
    assert Nodes.Exec(2, []) == s0 && Exec(2, []) == NOTHING;
    assert Nodes.Next(s0, Nodes.Register(1, THERE)) == s1 by { assert {} + {THERE} == {THERE}; }
    assert Nodes.Next(s1, Nodes.RunConnect(1)) == s2 by { assert [] + [Connect(c)] == [Connect(c)]; }
    assert Nodes.Next(s2, Nodes.Unregister(1, THERE)) == s3 by { assert {THERE} - {THERE} == {}; }
    assert Nodes.Next(s3, Nodes.RunDisconnect(1)) == VISITED;
    hide *;
    var a1: seq<Nodes.Action> := [Nodes.Register(1, THERE)];
    var r1: seq<Move> := [Act(Nodes.Register(1, THERE))];
    assert [] + a1 == a1 && [] + r1 == r1;
    ActStep(2, [], NOTHING, Nodes.Register(1, THERE), s0, s1);
    var r2 := r1 + [Act(Nodes.RunConnect(1))];
    ActStep(2, r1, Exec(2, r1), Nodes.RunConnect(1), s1, s2);
    var r3 := r2 + [Publish(0)];
    PublishStep(2, r2, Exec(2, r2), 0);
    var r4 := r3 + [Act(Nodes.Unregister(1, THERE))];
    ActStep(2, r3, Exec(2, r3), Nodes.Unregister(1, THERE), s2, s3);
    ActStep(2, r4, Exec(2, r4), Nodes.RunDisconnect(1), s3, VISITED);
  }

  const ARRIVING :=
    Nodes.Cluster([Nodes.Node({HERE}, Nodes.Connecting(HERE)), IDLE], {THERE} + {HERE}, VISITED.ops)

  const ARRIVED :=
    Nodes.Cluster([Nodes.Node({HERE}, Nodes.Idle), IDLE], {THERE} + {HERE}, VISITED.ops + [Connect(Conn(1, 1, 1))])

  lemma Arrival()
    ensures Nodes.Next(VISITED, Nodes.Register(0, HERE)) == ARRIVING
    ensures Nodes.Next(ARRIVING, Nodes.RunConnect(0)) == ARRIVED
  {
    assert {} + {HERE} == {HERE};
  }

  lemma CrossingSteps()
    ensures Exec(2, CROSSING) == World(CROSSING_ACTS, Publishing.CROSSED, [])
  {
    Publishing.CrossingScripts(Redis);
    Visited();
    Arrival();
    assert CallerOf(Nodes.Register(0, HERE)) == Handler(0) && CallerOf(Nodes.RunConnect(0)) == Handler(0);
    assert ARRIVING.ops == VISITED.ops == [Connect(Conn(1, 1, 1))] + [Disconnect(Conn(1, 1, 1))];
    assert ARRIVED.ops == VISITED.ops + [Connect(Conn(1, 1, 1))];
    hide *;
    var r5 := VISIT + [Act(Nodes.Register(0, HERE))];
    ActStep(2, VISIT, Exec(2, VISIT), Nodes.Register(0, HERE), VISITED, ARRIVING);
    var r6 := r5 + [Act(Nodes.RunConnect(0))];
    ActStep(2, r5, Exec(2, r5), Nodes.RunConnect(0), ARRIVING, ARRIVED);
    assert Exec(2, r6).callers == [Handler(1)] + [Handler(0)];
    PublishStep(2, r6, Exec(2, r6), 1);
    Removed();
    PublishStep(2, r6 + [Publish(1)], Exec(2, r6 + [Publish(1)]), 0);
  }

  lemma Removed()
    ensures Publishing.Without([Handler(1)] + [Handler(0)], 1) == [Handler(1)]
    ensures Publishing.Without([Handler(1)], 0) == []
  {
  }

  // No shutdown, no failure: online, online, offline, and the user is connected.
  lemma NoticesCross()
    ensures var w := Exec(2, CROSSING); var d := Publishing.Exec(Redis, w.moves);
      && w.acts == CROSSING_ACTS && Nodes.CleanRun(2, w.acts)
      && d.waiting == [] && Of(d.out, 1) == [true, true, false]
      && Count(After(Redis, d.ops).conns, ByUser(1)) == 1
  {
    Publishing.Crossed(Redis);
    CrossingSteps();
    assert NoShutdown(CROSSING_ACTS);
    NoShutdownIsClean(2, CROSSING_ACTS);
    hide *;
  }
}
