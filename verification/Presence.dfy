// What presence means, independently of any store: a multiset of live connections, one entry per
// open socket, and a status per user. Both stores are proved against this machine.
module Presence {
  import opened Base

  datatype Status = Online | Away | Offline

  datatype Conn = Conn(user: int64, workspace: int64, channel: int64)

  datatype Scope = ByUser(user: int64) | ByWorkspace(user: int64, workspace: int64) | Exactly(conn: Conn)

  predicate In(c: Conn, scope: Scope) {
    match scope
    case ByUser(u) => c.user == u
    case ByWorkspace(u, w) => c.user == u && c.workspace == w
    case Exactly(d) => c == d
  }

  function Bit(b: bool): nat {
    if b then 1 else 0
  }

  // ---- Counting connections ----

  ghost function Count(m: multiset<Conn>, scope: Scope): nat
    decreases |m|
  {
    if m == multiset{} then 0
    else
      var c :| c in m;
      Bit(In(c, scope)) + Count(m - multiset{c}, scope)
  }

  lemma {:induction false} CountRemove(m: multiset<Conn>, c: Conn, scope: Scope)
    requires c in m
    ensures Count(m, scope) == Bit(In(c, scope)) + Count(m - multiset{c}, scope)
    decreases |m|
  {
    var d :| d in m && Count(m, scope) == Bit(In(d, scope)) + Count(m - multiset{d}, scope);
    if c != d {
      hide Count;
      RemoveBoth(m, c, d);
      CountRemove(m - multiset{d}, c, scope);
      CountRemove(m - multiset{c}, d, scope);
    }
  }

  lemma RemoveBoth(m: multiset<Conn>, c: Conn, d: Conn)
    requires c in m && d in m && c != d
    ensures m - multiset{d} - multiset{c} == m - multiset{c} - multiset{d}
    ensures c in m - multiset{d} && d in m - multiset{c}
    ensures |m - multiset{c}| < |m| && |m - multiset{d}| < |m|
  {
  }

  lemma CountAdd(m: multiset<Conn>, c: Conn, scope: Scope)
    ensures Count(m + multiset{c}, scope) == Bit(In(c, scope)) + Count(m, scope)
  {
    CountRemove(m + multiset{c}, c, scope);
    assert m + multiset{c} - multiset{c} == m;
  }

  // Both effects, for every scope at once.
  lemma CountsChange(m: multiset<Conn>, c: Conn)
    ensures forall scope :: Count(m + multiset{c}, scope) == Count(m, scope) + Bit(In(c, scope))
    ensures c in m ==> forall scope :: Count(m - multiset{c}, scope) == Count(m, scope) - Bit(In(c, scope))
    ensures c !in m ==> m - multiset{c} == m
  {
    forall scope
      ensures Count(m + multiset{c}, scope) == Count(m, scope) + Bit(In(c, scope))
      ensures c in m ==> Count(m - multiset{c}, scope) == Count(m, scope) - Bit(In(c, scope))
    {
      CountAdd(m, c, scope);
      if c in m {
        CountRemove(m, c, scope);
      }
    }
  }

  lemma {:induction false} CountPositive(m: multiset<Conn>, scope: Scope)
    ensures Count(m, scope) > 0 <==> exists c :: c in m && In(c, scope)
    decreases |m|
  {
    if m != multiset{} {
      var d :| d in m;
      CountRemove(m, d, scope);
      CountPositive(m - multiset{d}, scope);
      if In(d, scope) {
        assert d in m && In(d, scope);
      } else {
        forall c | In(c, scope)
          ensures c in m <==> c in m - multiset{d}
        {
          assert (m - multiset{d})[c] == m[c];
        }
      }
    }
  }

  lemma {:induction false} CountExactly(m: multiset<Conn>, d: Conn)
    ensures Count(m, Exactly(d)) == m[d]
    decreases |m|
  {
    if m != multiset{} {
      var c :| c in m;
      CountRemove(m, c, Exactly(d));
      CountExactly(m - multiset{c}, d);
    }
  }

  // A count depends only on the connections in its scope.
  lemma {:induction false} CountSame(m: multiset<Conn>, n: multiset<Conn>, scope: Scope)
    requires forall c :: In(c, scope) ==> m[c] == n[c]
    ensures Count(m, scope) == Count(n, scope)
    decreases |m| + |n|
  {
    hide Count;
    CountPositive(m, scope);
    CountPositive(n, scope);
    if c :| c in m && In(c, scope) {
      assert c in n;
      CountRemove(m, c, scope);
      CountRemove(n, c, scope);
      CountSame(m - multiset{c}, n - multiset{c}, scope);
    }
  }

  // What the three kinds of counts count.
  lemma CountedConnections(m: multiset<Conn>, user: int64, workspace: int64, channel: int64)
    ensures Count(m, ByUser(user)) > 0 <==> exists w: int64, c: int64 :: Conn(user, w, c) in m
    ensures Count(m, ByWorkspace(user, workspace)) > 0 <==> exists c: int64 :: Conn(user, workspace, c) in m
    ensures Count(m, Exactly(Conn(user, workspace, channel))) == m[Conn(user, workspace, channel)]
  {
    hide Count;
    CountPositive(m, ByUser(user));
    CountPositive(m, ByWorkspace(user, workspace));
    CountExactly(m, Conn(user, workspace, channel));
    if c :| c in m && In(c, ByUser(user)) {
      assert Conn(user, c.workspace, c.channel) in m;
    }
    if c :| c in m && In(c, ByWorkspace(user, workspace)) {
      assert Conn(user, workspace, c.channel) in m;
    }
  }

  // ---- The machine ----

  datatype State = State(conns: multiset<Conn>, status: map<int64, Status>) {
    function StatusOf(user: int64): Status {
      if user in status then status[user] else Offline
    }

    // What a caller reads: a user without connections is offline whatever was stored.
    ghost function Shown(user: int64): Status {
      if Count(conns, ByUser(user)) == 0 then Offline else StatusOf(user)
    }
  }

  const EMPTY := State(multiset{}, map[])

  datatype Op =
    | Connect(conn: Conn)
    | Disconnect(conn: Conn)
    | SetStatus(user: int64, wanted: Status)

  // The stores differ in one place: what the first connection of a user does to a stored status.
  datatype Kind = Memory | Redis

  ghost function StatusOnConnect(kind: Kind, s: State, user: int64): Status {
    match kind
    case Memory => if s.StatusOf(user) == Offline then Online else s.StatusOf(user)
    case Redis => if Count(s.conns, ByUser(user)) == 0 then Online else s.StatusOf(user)
  }

  // A connected user who asks to be offline is shown as away.
  ghost function Kept(s: State, user: int64, wanted: Status): Status {
    if Count(s.conns, ByUser(user)) > 0 && wanted == Offline then Away else wanted
  }

  function PutStatus(s: State, user: int64, status: Status): State {
    s.(status := s.status[user := status])
  }

  ghost function Step(kind: Kind, s: State, op: Op): State {
    match op
    case Connect(c) =>
      State(s.conns + multiset{c}, s.status[c.user := StatusOnConnect(kind, s, c.user)])
    case Disconnect(c) =>
      var left := s.conns - multiset{c};
      State(left, if Count(left, ByUser(c.user)) == 0 then s.status[c.user := Offline] else s.status)
    case SetStatus(u, wanted) =>
      PutStatus(s, u, Kept(s, u, wanted))
  }

  ghost predicate BecameOnline(s: State, c: Conn) {
    Count(s.conns, ByUser(c.user)) == 0
  }

  ghost predicate BecameOffline(s: State, c: Conn) {
    Count(s.conns - multiset{c}, ByUser(c.user)) == 0
  }

  // A connected user is never stored as offline.
  ghost predicate WellFormed(s: State) {
    forall u: int64 :: Count(s.conns, ByUser(u)) > 0 ==> s.StatusOf(u) != Offline
  }

  // A disconnect is matched when it ends a connection that exists.
  ghost predicate Matched(s: State, op: Op) {
    op.Disconnect? ==> op.conn in s.conns
  }

  lemma StepWellFormed(kind: Kind, s: State, op: Op)
    requires WellFormed(s) && Matched(s, op)
    ensures WellFormed(Step(kind, s, op))
  {
    var t := Step(kind, s, op);
    forall u: int64 | Count(t.conns, ByUser(u)) > 0
      ensures t.StatusOf(u) != Offline
    {
      if op.Connect? {
        CountAdd(s.conns, op.conn, ByUser(u));
      } else if op.Disconnect? {
        CountRemove(s.conns, op.conn, ByUser(u));
      }
    }
  }

  // A status that was chosen in state s and is written in a later state t leaves a connected user
  // stored as offline exactly when offline was asked for while disconnected and a connection came
  // in between.
  lemma LateStatus(s: State, t: State, user: int64, wanted: Status)
    requires WellFormed(t)
    ensures WellFormed(PutStatus(t, user, Kept(s, user, wanted))) <==>
            !(wanted == Offline && Count(s.conns, ByUser(user)) == 0 && Count(t.conns, ByUser(user)) > 0)
  {
    hide Count;
    var after := PutStatus(t, user, Kept(s, user, wanted));
    assert after.StatusOf(user) == Kept(s, user, wanted);
    forall u: int64 | u != user
      ensures after.StatusOf(u) == t.StatusOf(u)
    {
    }
    assert Count(t.conns, ByUser(user)) > 0 && WellFormed(after) ==> after.StatusOf(user) != Offline;
  }

  // ---- Runs ----

  ghost function After(kind: Kind, ops: seq<Op>): State {
    if ops == [] then EMPTY else Step(kind, After(kind, Front(ops)), Last(ops))
  }

  ghost predicate MatchedRun(kind: Kind, ops: seq<Op>) {
    ops == [] || (MatchedRun(kind, Front(ops)) && Matched(After(kind, Front(ops)), Last(ops)))
  }

  lemma {:induction false} RunWellFormed(kind: Kind, ops: seq<Op>)
    requires MatchedRun(kind, ops)
    ensures WellFormed(After(kind, ops))
  {
    if ops != [] {
      RunWellFormed(kind, Front(ops));
      StepWellFormed(kind, After(kind, Front(ops)), Last(ops));
    }
  }

  // The machine of either kind goes through the same connections. Of the stores themselves this
  // says something on matched runs only, where they represent their machine.
  lemma {:induction false} SameConnections(ops: seq<Op>)
    ensures After(Memory, ops).conns == After(Redis, ops).conns
  {
    if ops != [] {
      SameConnections(Front(ops));
    }
  }

  // ---- Online and offline notices ----

  // The place is the channel whose audience is told.
  datatype Notice = Notice(user: int64, online: bool, place: ChannelRef)

  // The notices an operation calls for, as its script answers.
  ghost function Notices(s: State, op: Op): seq<Notice> {
    match op
    case Connect(c) =>
      if BecameOnline(s, c) then [Notice(c.user, true, ChannelRef(c.workspace, c.channel))] else []
    case Disconnect(c) =>
      if BecameOffline(s, c) then [Notice(c.user, false, ChannelRef(c.workspace, c.channel))] else []
    case SetStatus(_, _) => []
  }

  ghost function Log(kind: Kind, ops: seq<Op>): seq<Notice> {
    if ops == [] then []
    else Log(kind, Front(ops)) + Notices(After(kind, Front(ops)), Last(ops))
  }

  function Of(log: seq<Notice>, user: int64): seq<bool> {
    if log == [] then []
    else Of(Front(log), user) + (if Last(log).user == user then [Last(log).online] else [])
  }

  // Online first, then strictly in turn, the last notice saying how things stand.
  predicate Truthful(flags: seq<bool>, online: bool) {
    && (forall i :: 0 <= i < |flags| ==> flags[i] == (i % 2 == 0))
    && (|flags| % 2 == 1 <==> online)
  }

  lemma TruthfulAppend(flags: seq<bool>, before: bool, after: bool)
    requires Truthful(flags, before)
    ensures Truthful(flags + if before == after then [] else [after], after)
  {
  }

  // On every matched run the answers about each user alternate, in the order of the scripts, starting
  // with online. When they are published is the subject of module Publishing.
  lemma {:induction false} NoticesAlternate(kind: Kind, ops: seq<Op>, user: int64)
    requires MatchedRun(kind, ops)
    ensures Truthful(Of(Log(kind, ops), user), Count(After(kind, ops).conns, ByUser(user)) > 0)
  {
    if ops != [] {
      var s, log := After(kind, Front(ops)), Log(kind, Front(ops));
      var before, after := Count(s.conns, ByUser(user)) > 0, Count(After(kind, ops).conns, ByUser(user)) > 0;
      NoticesAlternate(kind, Front(ops), user);
      NoticeStep(s, kind, Last(ops), user);
      OfAppend(log, Notices(s, Last(ops)), user);
      TruthfulAppend(Of(log, user), before, after);
    }
  }

  // The notice names the user and goes to the channel of the connection that is the first, or the last.
  lemma NoticeOfStep(s: State, op: Op)
    ensures Notices(s, op) == match op
      case Connect(c) =>
        if exists w: int64, ch: int64 :: Conn(c.user, w, ch) in s.conns then []
        else [Notice(c.user, true, ChannelRef(c.workspace, c.channel))]
      case Disconnect(c) =>
        if exists w: int64, ch: int64 :: Conn(c.user, w, ch) in s.conns - multiset{c} then []
        else [Notice(c.user, false, ChannelRef(c.workspace, c.channel))]
      case SetStatus(_, _) => []
  {
    if op.Connect? || op.Disconnect? {
      var c := op.conn;
      CountedConnections(s.conns, c.user, c.workspace, c.channel);
      CountedConnections(s.conns - multiset{c}, c.user, c.workspace, c.channel);
    }
    hide Count;
  }

  // One matched step emits a notice about a user exactly when the user's count leaves or reaches zero.
  lemma NoticeStep(s: State, kind: Kind, op: Op, user: int64)
    requires Matched(s, op)
    ensures
      var was, now := Count(s.conns, ByUser(user)) > 0, Count(Step(kind, s, op).conns, ByUser(user)) > 0;
      Of(Notices(s, op), user) == if was == now then [] else [now]
  {
    hide Count, Of;
    if op.Connect? {
      CountAdd(s.conns, op.conn, ByUser(user));
    } else if op.Disconnect? {
      CountRemove(s.conns, op.conn, ByUser(user));
    }
    OfFew(user);
  }

  lemma OfFew(user: int64)
    ensures Of([], user) == []
    ensures forall n: Notice :: Of([n], user) == if n.user == user then [n.online] else []
  {
    forall n: Notice
      ensures Of([n], user) == if n.user == user then [n.online] else []
    {
      assert Front([n]) == [] && Last([n]) == n;
    }
  }

  lemma OfAppend(log: seq<Notice>, more: seq<Notice>, user: int64)
    requires |more| <= 1
    ensures Of(log + more, user)
         == Of(log, user) + (if more != [] && more[0].user == user then [more[0].online] else [])
    ensures Of(log + more, user) == Of(log, user) + Of(more, user)
  {
    if more == [] {
      assert log + more == log;
    } else {
      assert Front(log + more) == log;
      assert Front(more) == [];
    }
  }

  // ---- When the two stores show the same statuses ----

  ghost predicate AgreeNow(ops: seq<Op>) {
    forall u: int64 :: After(Memory, ops).Shown(u) == After(Redis, ops).Shown(u)
  }

  // At every moment of the run.
  ghost predicate Agree(ops: seq<Op>) {
    AgreeNow(ops) && (ops == [] || Agree(Front(ops)))
  }

  // The first connection of a user whose status was set to away while disconnected.
  ghost predicate FreshAway(s: State, op: Op) {
    && op.Connect?
    && Count(s.conns, ByUser(op.conn.user)) == 0
    && s.StatusOf(op.conn.user) == Away
  }

  ghost predicate NoFreshAway(ops: seq<Op>) {
    ops == [] || (NoFreshAway(Front(ops)) && !FreshAway(After(Memory, Front(ops)), Last(ops)))
  }

  ghost predicate SameStored(s: State, t: State) {
    forall u: int64 :: s.StatusOf(u) == t.StatusOf(u)
  }

  lemma {:induction false} SameStoredUnlessFreshAway(ops: seq<Op>)
    requires MatchedRun(Memory, ops) && NoFreshAway(ops)
    ensures SameStored(After(Memory, ops), After(Redis, ops))
  {
    if ops != [] {
      SameStoredUnlessFreshAway(Front(ops));
      SameConnections(Front(ops));
      RunWellFormed(Memory, Front(ops));
      SameStoredStep(After(Memory, Front(ops)), After(Redis, Front(ops)), Last(ops));
    }
  }

  lemma SameStoredStep(s: State, t: State, op: Op)
    requires s.conns == t.conns && SameStored(s, t) && WellFormed(s) && !FreshAway(s, op)
    ensures SameStored(Step(Memory, s, op), Step(Redis, t, op))
  {
    match op
    case Connect(c) =>
      assert s.StatusOf(c.user) == t.StatusOf(c.user);
      SameUpdate(s, t, Step(Memory, s, op).conns, c.user, StatusOnConnect(Memory, s, c.user));
    case Disconnect(c) =>
      SameUpdate(s, t, s.conns - multiset{c}, c.user, Offline);
    case SetStatus(u, wanted) =>
      SameUpdate(s, t, s.conns, u, if Count(s.conns, ByUser(u)) > 0 && wanted == Offline then Away else wanted);
  }

  lemma SameUpdate(s: State, t: State, conns: multiset<Conn>, user: int64, status: Status)
    requires SameStored(s, t)
    ensures SameStored(State(conns, s.status[user := status]), State(conns, t.status[user := status]))
    ensures SameStored(State(conns, s.status), State(conns, t.status))
  {
    forall v: int64
      ensures State(conns, s.status[user := status]).StatusOf(v)
           == State(conns, t.status[user := status]).StatusOf(v)
      ensures State(conns, s.status).StatusOf(v) == State(conns, t.status).StatusOf(v)
    {
      assert s.StatusOf(v) == t.StatusOf(v);
    }
  }

  // The stores show the same statuses at every moment of a run exactly when no user connects
  // afresh with a stored away status: memory keeps that status, Redis overwrites it.
  lemma {:induction false} StoresAgreeIff(ops: seq<Op>)
    requires MatchedRun(Memory, ops)
    ensures Agree(ops) <==> NoFreshAway(ops)
  {
    SameConnections(ops);
    if ops != [] {
      StoresAgreeIff(Front(ops));
      if NoFreshAway(ops) {
        SameStoredUnlessFreshAway(ops);
      } else if NoFreshAway(Front(ops)) {
        FreshAwayDisagrees(ops);
      }
    }
  }

  lemma FreshAwayShown(ops: seq<Op>)
    requires ops != [] && FreshAway(After(Memory, Front(ops)), Last(ops))
    ensures After(Memory, ops).Shown(Last(ops).conn.user) == Away
    ensures After(Redis, ops).Shown(Last(ops).conn.user) == Online
  {
    SameConnections(Front(ops));
    CountAdd(After(Memory, Front(ops)).conns, Last(ops).conn, ByUser(Last(ops).conn.user));
  }

  lemma FreshAwayDisagrees(ops: seq<Op>)
    requires ops != [] && FreshAway(After(Memory, Front(ops)), Last(ops))
    ensures !AgreeNow(ops)
  {
    FreshAwayShown(ops);
  }

  // A user who sets away before connecting is away in memory and online in Redis.
  lemma AwayBeforeConnectDisagrees(user: int64, workspace: int64, channel: int64)
    ensures var ops := [SetStatus(user, Away), Connect(Conn(user, workspace, channel))];
      MatchedRun(Memory, ops) && !AgreeNow(ops)
  {
    var ops := [SetStatus(user, Away), Connect(Conn(user, workspace, channel))];
    assert Front(ops) == [SetStatus(user, Away)] && Front(Front(ops)) == [];
    assert After(Memory, Front(Front(ops))) == EMPTY;
    assert After(Memory, Front(ops)) == Step(Memory, EMPTY, SetStatus(user, Away));
    assert MatchedRun(Memory, Front(Front(ops))) && MatchedRun(Memory, Front(ops));
    FreshAwayDisagrees(ops);
  }

  ghost predicate SetWhileConnected(ops: seq<Op>) {
    ops == [] ||
    (SetWhileConnected(Front(ops)) &&
     (Last(ops).SetStatus? ==> Count(After(Memory, Front(ops)).conns, ByUser(Last(ops).user)) > 0))
  }

  // In particular they agree when statuses are only set while connected.
  lemma {:induction false} StoresAgreeWhenSetWhileConnected(ops: seq<Op>)
    requires MatchedRun(Memory, ops) && SetWhileConnected(ops)
    ensures Agree(ops)
  {
    NoFreshAwayWhenSetWhileConnected(ops);
    StoresAgreeIff(ops);
  }

  lemma {:induction false} NoFreshAwayWhenSetWhileConnected(ops: seq<Op>)
    requires MatchedRun(Memory, ops) && SetWhileConnected(ops)
    ensures NoFreshAway(ops)
  {
    if ops != [] {
      NoFreshAwayWhenSetWhileConnected(Front(ops));
      if Last(ops).Connect? {
        DisconnectedIsOffline(Front(ops), Last(ops).conn.user);
      }
    }
  }

  lemma {:induction false} DisconnectedIsOffline(ops: seq<Op>, user: int64)
    requires MatchedRun(Memory, ops) && SetWhileConnected(ops)
    ensures Count(After(Memory, ops).conns, ByUser(user)) == 0 ==> After(Memory, ops).StatusOf(user) == Offline
  {
    if ops != [] {
      DisconnectedIsOffline(Front(ops), user);
      var s, op := After(Memory, Front(ops)), Last(ops);
      if op.Connect? {
        CountAdd(s.conns, op.conn, ByUser(user));
      } else if op.Disconnect? {
        CountRemove(s.conns, op.conn, ByUser(user));
      }
    }
  }

  // ---- Answers of the store operations ----

  datatype ConnectResult = ConnectResult(becameOnline: bool, globalCount: int)

  datatype DisconnectResult = DisconnectResult(becameOffline: bool, globalCount: int)

  datatype UserPresence = UserPresence(user: int64, status: Status, connectionCount: int)

  ghost function ConnectAnswer(s: State, c: Conn): ConnectResult {
    ConnectResult(BecameOnline(s, c), Count(s.conns, ByUser(c.user)) + 1)
  }

  ghost function DisconnectAnswer(s: State, c: Conn): DisconnectResult {
    DisconnectResult(BecameOffline(s, c), Count(s.conns - multiset{c}, ByUser(c.user)))
  }

  ghost function PresenceOf(s: State, user: int64): UserPresence {
    UserPresence(user, s.Shown(user), Count(s.conns, ByUser(user)))
  }

  // The listing holds each online user once, with what Get would answer, and nobody else.
  ghost predicate ListsOnline(s: State, items: seq<UserPresence>) {
    && NoDuplicates(items)
    && (forall i :: 0 <= i < |items| ==> items[i] == PresenceOf(s, items[i].user))
    && (forall u: int64 :: Count(s.conns, ByUser(u)) > 0 <==> PresenceOf(s, u) in items)
  }

  ghost predicate ListsWorkspace(s: State, workspace: int64, ids: seq<int64>) {
    && NoDuplicates(ids)
    && forall u: int64 :: Count(s.conns, ByWorkspace(u, workspace)) > 0 <==> u in ids
  }

  // Every channel the user has a connection on, once.
  ghost predicate ListsChannels(s: State, user: int64, refs: seq<ChannelRef>) {
    && NoDuplicates(refs)
    && forall w: int64, c: int64 :: Conn(user, w, c) in s.conns <==> ChannelRef(w, c) in refs
  }

  // ---- What each operation shows ----

  // A first connection shows the user as online, but for an away kept in memory; a further one changes
  // nothing that is shown. The answer is the new count, and whether it is the first.
  lemma ConnectShows(kind: Kind, s: State, c: Conn)
    ensures var t, n := Step(kind, s, Op.Connect(c)), Count(s.conns, ByUser(c.user));
      && ConnectAnswer(s, c) == ConnectResult(n == 0, n + 1) && Count(t.conns, ByUser(c.user)) == n + 1
      && (n == 0 && kind == Memory && c.user in s.status && s.status[c.user] == Away ==> t.Shown(c.user) == Away)
      && (n == 0 && !(kind == Memory && c.user in s.status && s.status[c.user] == Away) ==> t.Shown(c.user) == Online)
      && (n > 0 && WellFormed(s) ==> t.Shown(c.user) == s.Shown(c.user))
      && forall v: int64 :: v != c.user ==> t.Shown(v) == s.Shown(v) && t.StatusOf(v) == s.StatusOf(v)
  {
    hide Count;
    var t := Step(kind, s, Op.Connect(c));
    CountsChange(s.conns, c);
    assert WellFormed(s) && Count(s.conns, ByUser(c.user)) > 0 ==> s.StatusOf(c.user) != Offline;
  }

  // The last disconnect leaves the user offline, shown and stored; an earlier one changes nothing shown.
  lemma DisconnectShows(kind: Kind, s: State, c: Conn)
    requires c in s.conns
    ensures var t, n := Step(kind, s, Op.Disconnect(c)), Count(s.conns, ByUser(c.user));
      && n > 0 && DisconnectAnswer(s, c) == DisconnectResult(n == 1, n - 1)
      && Count(t.conns, ByUser(c.user)) == n - 1
      && t.Shown(c.user) == (if n == 1 then Offline else s.Shown(c.user))
      && (n == 1 ==> t.StatusOf(c.user) == Offline)
      && forall v: int64 :: v != c.user ==> t.Shown(v) == s.Shown(v) && t.StatusOf(v) == s.StatusOf(v)
  {
    hide Count;
    CountsChange(s.conns, c);
  }

  // Setting a status: shown while connected, with away for offline; stored as it is otherwise. Nobody
  // else, and no connection, is touched.
  lemma SetStatusShows(kind: Kind, s: State, user: int64, wanted: Status)
    ensures var t, n := Step(kind, s, Op.SetStatus(user, wanted)), Count(s.conns, ByUser(user));
      && t.conns == s.conns
      && t.Shown(user) == (if n == 0 then Offline else if wanted == Offline then Away else wanted)
      && (n == 0 ==> t.StatusOf(user) == wanted)
      && forall v: int64 :: v != user ==> t.Shown(v) == s.Shown(v) && t.StatusOf(v) == s.StatusOf(v)
  {
    hide Count;
  }

  // A disconnect the stores can absorb: it ends a live connection, or the user has none at all.
  ghost predicate Absorbable(s: State, c: Conn) {
    c in s.conns || Count(s.conns, ByUser(c.user)) == 0
  }
}
