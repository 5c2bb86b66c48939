// internal/presence/redis_store.go: presence kept in Redis counters, sets and hashes, shared by
// all nodes. Keys are the printed strings; expiry is not modelled.
module RedisStore {
  import opened Base
  import opened Decimal
  import opened PresenceKeys
  import opened Presence

  datatype UserHash = UserHash(count: Option<int>, status: Option<Status>)

  datatype Value =
    | Counter(n: int)
    | Members(members: set<string>)
    | Hash(hash: UserHash)

  const NO_HASH := UserHash(None, None)

  type Keyspace = map<string, Value>

  function At(ks: Keyspace, k: Key): Option<Value> {
    if Print(k) in ks then Some(ks[Print(k)]) else None
  }

  // Writing one printed key leaves every other entity alone: this is where disjointness is used.
  lemma WriteFrame(ks: Keyspace, k: Key, v: Value)
    ensures At(ks[Print(k) := v], k) == Some(v)
    ensures forall j: Key :: j != k ==> At(ks[Print(k) := v], j) == At(ks, j)
  {
    forall j: Key | j != k
      ensures At(ks[Print(k) := v], j) == At(ks, j)
    {
      if Print(j) == Print(k) {
        PrintInjective(j, k);
      }
    }
  }

  lemma DeleteFrame(ks: Keyspace, k: Key)
    ensures At(ks - {Print(k)}, k) == None
    ensures forall j: Key :: j != k ==> At(ks - {Print(k)}, j) == At(ks, j)
  {
    forall j: Key | j != k
      ensures At(ks - {Print(k)}, j) == At(ks, j)
    {
      if Print(j) == Print(k) {
        PrintInjective(j, k);
      }
    }
  }

  // ---- What each key must hold ----

  function CounterIn(v: Option<Value>): int {
    match v
    case Some(Counter(n)) => n
    case _ => 0
  }

  function MembersIn(v: Option<Value>): set<string> {
    match v
    case Some(Members(m)) => m
    case _ => {}
  }

  function HashIn(v: Option<Value>): UserHash {
    match v
    case Some(Hash(h)) => h
    case _ => NO_HASH
  }

  // The value under a key has the type the scripts expect, so no command fails with WRONGTYPE.
  predicate RightType(v: Option<Value>, k: Key) {
    match v
    case None => true
    case Some(v) =>
      match k
      case User(_) => v.Hash?
      case GlobalOnline => v.Members?
      case WorkspaceOnline(_) => v.Members?
      case WorkspaceConn(_, _) => v.Counter?
      case ChannelConn(_, _, _) => v.Counter?
      case UserChannels(_) => v.Members?
  }

  // A Redis set whose members are the printed forms of xs.
  ghost predicate Names<T(!new)>(m: set<string>, xs: iset<T>, text: T -> string) {
    && (forall x: T :: text(x) in m <==> x in xs)
    && (forall raw :: raw in m ==> exists x: T :: raw == text(x))
  }

  lemma NamesChange<T(!new)>(m: set<string>, xs: iset<T>, text: T -> string, x: T)
    requires Names(m, xs, text)
    requires forall y :: text(y) == text(x) ==> y == x
    ensures Names(m + {text(x)}, xs + iset{x}, text)
    ensures Names(m - {text(x)}, xs - iset{x}, text)
  {
  }

  function PrintUser(u: int64): string {
    FormatInt(u)
  }

  lemma PrintUserInjective(u: int64)
    ensures forall v: int64 :: PrintUser(v) == PrintUser(u) ==> v == u
  {
    forall v: int64 | PrintUser(v) == PrintUser(u)
      ensures v == u
    {
      FormatInjective(v, u);
    }
  }

  lemma PrintRefInjectiveAt(r: ChannelRef)
    ensures forall q: ChannelRef :: PrintRef(q) == PrintRef(r) ==> q == r
  {
    forall q: ChannelRef | PrintRef(q) == PrintRef(r)
      ensures q == r
    {
      PrintRefInjective(q, r);
    }
  }

  ghost function OnlineUsers(s: State): iset<int64> {
    iset u: int64 | Count(s.conns, ByUser(u)) > 0
  }

  ghost function OnlineIn(s: State, workspace: int64): iset<int64> {
    iset u: int64 | Count(s.conns, ByWorkspace(u, workspace)) > 0
  }

  ghost function ChannelsOf(s: State, user: int64): iset<ChannelRef> {
    iset r: ChannelRef | Conn(user, r.workspace, r.channel) in s.conns :: r
  }

  // Each key holds what the state s asks for.
  ghost predicate KeyOf(v: Option<Value>, s: State, k: Key) {
    && RightType(v, k)
    && match k
       case User(u) =>
         && HashIn(v).count.GetOr(0) == Count(s.conns, ByUser(u))
         && HashIn(v).status.GetOr(Offline) == s.StatusOf(u)
         && (Count(s.conns, ByUser(u)) > 0 ==> HashIn(v).status.Some?)
       case GlobalOnline => Names(MembersIn(v), OnlineUsers(s), PrintUser)
       case WorkspaceOnline(w) => Names(MembersIn(v), OnlineIn(s, w), PrintUser)
       case WorkspaceConn(u, w) => CounterIn(v) == Count(s.conns, ByWorkspace(u, w))
       case ChannelConn(u, w, c) => CounterIn(v) == s.conns[Conn(u, w, c)]
       case UserChannels(u) => Names(MembersIn(v), ChannelsOf(s, u), PrintRef)
  }

  ghost predicate Fits(ks: Keyspace, s: State) {
    forall k: Key :: KeyOf(At(ks, k), s, k)
  }

  // The six keys the scripts are given.
  function KeysOf(c: Conn): set<Key> {
    {User(c.user), GlobalOnline, WorkspaceOnline(c.workspace), WorkspaceConn(c.user, c.workspace),
     ChannelConn(c.user, c.workspace, c.channel), UserChannels(c.user)}
  }

  // Keys that do not mention the connection keep fitting when it comes or goes.
  lemma OtherKey(v: Option<Value>, s: State, t: State, c: Conn, k: Key)
    requires KeyOf(v, s, k)
    requires t.conns == s.conns + multiset{c} || t.conns == s.conns - multiset{c}
    requires forall u: int64 :: u != c.user ==> t.StatusOf(u) == s.StatusOf(u)
    requires k !in KeysOf(c)
    ensures KeyOf(v, t, k)
  {
    hide Count;
    CountsChange(s.conns, c);
    match k
    case User(u) => assert !In(c, ByUser(u));
    case GlobalOnline =>
    case WorkspaceOnline(w) =>
      assert forall u: int64 :: !In(c, ByWorkspace(u, w));
      assert OnlineIn(t, w) == OnlineIn(s, w);
    case WorkspaceConn(u, w) => assert !In(c, ByWorkspace(u, w));
    case ChannelConn(u, w, ch) =>
    case UserChannels(u) => assert ChannelsOf(t, u) == ChannelsOf(s, u);
  }

  // Between two keyspaces, only key k changed.
  ghost predicate Only(before: Keyspace, after: Keyspace, k: Key) {
    forall j: Key :: j != k ==> At(after, j) == At(before, j)
  }

  ghost predicate Only2(before: Keyspace, after: Keyspace, k: Key, l: Key) {
    forall j: Key :: j != k && j != l ==> At(after, j) == At(before, j)
  }

  lemma WorkspaceWithinUser(m: multiset<Conn>, user: int64, workspace: int64)
    ensures Count(m, ByUser(user)) == 0 ==> Count(m, ByWorkspace(user, workspace)) == 0
  {
    CountPositive(m, ByUser(user));
    CountPositive(m, ByWorkspace(user, workspace));
  }

  // Who is online once a connection has gone.
  lemma OnlineAfterLeave(s: State, t: State, c: Conn)
    requires t.conns == s.conns - multiset{c} && Absorbable(s, c)
    ensures OnlineUsers(t) ==
            if Count(t.conns, ByUser(c.user)) == 0 then OnlineUsers(s) - iset{c.user} else OnlineUsers(s)
    ensures OnlineIn(t, c.workspace) ==
            if Count(t.conns, ByWorkspace(c.user, c.workspace)) == 0
            then OnlineIn(s, c.workspace) - iset{c.user} else OnlineIn(s, c.workspace)
    ensures Count(t.conns, ByUser(c.user)) == Count(s.conns, ByUser(c.user)) - Bit(c in s.conns)
    ensures Count(t.conns, ByWorkspace(c.user, c.workspace))
         == Count(s.conns, ByWorkspace(c.user, c.workspace)) - Bit(c in s.conns)
    ensures c !in s.conns ==> Count(s.conns, ByWorkspace(c.user, c.workspace)) == 0
  {
    hide Count;
    CountsChange(s.conns, c);
    WorkspaceWithinUser(s.conns, c.user, c.workspace);
  }

  lemma ChannelKeyStatus(v: Option<Value>, s: State, t: State, k: Key)
    requires k.ChannelConn? && s.conns == t.conns && KeyOf(v, s, k)
    ensures KeyOf(v, t, k)
  {
  }

  // A keyspace whose channel counters hold s but whose global count differs stands for nothing.
  lemma Misfit(ks: Keyspace, s: State, t: State, user: int64)
    requires forall k: Key :: k.ChannelConn? && k.user == user ==> KeyOf(At(ks, k), s, k)
    requires HashIn(At(ks, User(user))).count.GetOr(0) != Count(s.conns, ByUser(user))
    ensures !Fits(ks, t)
  {
    hide Count;
    if Fits(ks, t) {
      assert KeyOf(At(ks, User(user)), t, User(user));
      forall c: Conn | c.user == user
        ensures s.conns[c] == t.conns[c]
      {
        var k := ChannelConn(user, c.workspace, c.channel);
        assert c == Conn(user, c.workspace, c.channel);
        assert KeyOf(At(ks, k), s, k) && KeyOf(At(ks, k), t, k);
      }
      CountSame(s.conns, t.conns, ByUser(user));
    }
  }

  // Between two keyspaces, only the keys the scripts are given changed.
  ghost predicate Untouched(before: Keyspace, after: Keyspace, c: Conn) {
    forall k: Key :: k !in KeysOf(c) ==> At(after, k) == At(before, k)
  }

  // If those keys are right for t, all are.
  lemma FitsAgain(before: Keyspace, after: Keyspace, s: State, t: State, c: Conn)
    requires Fits(before, s) && Untouched(before, after, c)
    requires t.conns == s.conns + multiset{c} || t.conns == s.conns - multiset{c}
    requires forall u: int64 :: u != c.user ==> t.StatusOf(u) == s.StatusOf(u)
    requires forall k: Key :: k in KeysOf(c) ==> KeyOf(At(after, k), t, k)
    ensures Fits(after, t)
  {
    hide Count, At, KeyOf, KeysOf;
    forall k: Key
      ensures KeyOf(At(after, k), t, k)
    {
      if k !in KeysOf(c) {
        assert KeyOf(At(before, k), s, k);
        OtherKey(At(before, k), s, t, c, k);
      }
    }
  }

  // After an unmatched disconnect of a connected user the channel counters hold what they held, and
  // the global count is one less.
  lemma NothingFits(before: Keyspace, after: Keyspace, s: State, c: Conn, u: State)
    requires Fits(before, s) && Untouched(before, after, c) && c !in s.conns && Count(s.conns, ByUser(c.user)) > 0
    requires var k := ChannelConn(c.user, c.workspace, c.channel); KeyOf(At(after, k), s, k)
    requires HashIn(At(after, User(c.user))).count.GetOr(0) == Count(s.conns, ByUser(c.user)) - 1
    ensures !Fits(after, u)
  {
    hide Count, At, KeyOf;
    forall k: Key | k.ChannelConn? && k.user == c.user
      ensures KeyOf(At(after, k), s, k)
    {
      if k !in KeysOf(c) {
        assert KeyOf(At(before, k), s, k);
      }
    }
    Misfit(after, s, u, c.user);
  }

  class Store {
    var keys: Keyspace

    ghost predicate Represents(s: State)
      reads this
    {
      Fits(keys, s)
    }

    constructor ()
      ensures Represents(EMPTY)
    {
      keys := map[];
    }

    // ---- Redis commands ----

    method Write(k: Key, v: Value)
      modifies this
      ensures At(keys, k) == Some(v) && Only(old(keys), keys, k)
    {
      WriteFrame(keys, k, v);
      keys := keys[Print(k) := v];
    }

    method Del(k: Key)
      modifies this
      ensures At(keys, k) == None && Only(old(keys), keys, k)
    {
      DeleteFrame(keys, k);
      keys := keys - {Print(k)};
    }

    // INCR and DECR.
    method IncrBy(k: Key, delta: int) returns (n: int)
      requires At(keys, k).Some? ==> At(keys, k).value.Counter?
      modifies this
      ensures n == CounterIn(old(At(keys, k))) + delta
      ensures At(keys, k) == Some(Counter(n)) && Only(old(keys), keys, k)
    {
      n := CounterIn(At(keys, k)) + delta;
      Write(k, Counter(n));
    }

    method SAdd(k: Key, raw: string)
      requires At(keys, k).Some? ==> At(keys, k).value.Members?
      modifies this
      ensures At(keys, k) == Some(Members(MembersIn(old(At(keys, k))) + {raw})) && Only(old(keys), keys, k)
    {
      Write(k, Members(MembersIn(At(keys, k)) + {raw}));
    }

    // Redis drops a set when its last member goes.
    method SRem(k: Key, raw: string)
      requires At(keys, k).Some? ==> At(keys, k).value.Members?
      modifies this
      ensures MembersIn(At(keys, k)) == MembersIn(old(At(keys, k))) - {raw}
      ensures At(keys, k).Some? ==> At(keys, k).value.Members?
      ensures Only(old(keys), keys, k)
    {
      var left := MembersIn(At(keys, k)) - {raw};
      if left == {} {
        Del(k);
      } else {
        Write(k, Members(left));
      }
    }

    // HINCRBY on connection_count.
    method HIncrCount(k: Key, delta: int) returns (n: int)
      requires At(keys, k).Some? ==> At(keys, k).value.Hash?
      modifies this
      ensures n == HashIn(old(At(keys, k))).count.GetOr(0) + delta
      ensures At(keys, k) == Some(Hash(HashIn(old(At(keys, k))).(count := Some(n)))) && Only(old(keys), keys, k)
    {
      n := HashIn(At(keys, k)).count.GetOr(0) + delta;
      Write(k, Hash(HashIn(At(keys, k)).(count := Some(n))));
    }

    method HSet(k: Key, hash: UserHash)
      requires At(keys, k).Some? ==> At(keys, k).value.Hash?
      modifies this
      ensures At(keys, k) == Some(Hash(hash)) && Only(old(keys), keys, k)
    {
      Write(k, Hash(hash));
    }

    // ---- connectScript, in its three parts ----

    method JoinWorkspace(c: Conn, ghost s: State, ghost t: State)
      requires Represents(s) && t.conns == s.conns + multiset{c}
      modifies this
      ensures KeyOf(At(keys, WorkspaceConn(c.user, c.workspace)), t, WorkspaceConn(c.user, c.workspace))
      ensures KeyOf(At(keys, WorkspaceOnline(c.workspace)), t, WorkspaceOnline(c.workspace))
      ensures Only2(old(keys), keys, WorkspaceConn(c.user, c.workspace), WorkspaceOnline(c.workspace))
    {
      hide Count, At, Names, PrintUser, PrintRef;
      var countKey, onlineKey := WorkspaceConn(c.user, c.workspace), WorkspaceOnline(c.workspace);
      assert KeyOf(At(keys, countKey), s, countKey) && KeyOf(At(keys, onlineKey), s, onlineKey);
      var count := IncrBy(countKey, 1);
      if count == 1 {
        SAdd(onlineKey, PrintUser(c.user));
      }
      CountsChange(s.conns, c);
      PrintUserInjective(c.user);
      NamesChange(MembersIn(old(At(keys, onlineKey))), OnlineIn(s, c.workspace), PrintUser, c.user);
      assert OnlineIn(t, c.workspace) == OnlineIn(s, c.workspace) + iset{c.user};
      assert c.user in OnlineIn(s, c.workspace) ==> OnlineIn(t, c.workspace) == OnlineIn(s, c.workspace);
    }

    method JoinChannel(c: Conn, ghost s: State, ghost t: State)
      requires var k := ChannelConn(c.user, c.workspace, c.channel); KeyOf(At(keys, k), s, k)
      requires KeyOf(At(keys, UserChannels(c.user)), s, UserChannels(c.user))
      requires t.conns == s.conns + multiset{c}
      modifies this
      ensures var k := ChannelConn(c.user, c.workspace, c.channel); KeyOf(At(keys, k), t, k)
      ensures KeyOf(At(keys, UserChannels(c.user)), t, UserChannels(c.user))
      ensures Only2(old(keys), keys, ChannelConn(c.user, c.workspace, c.channel), UserChannels(c.user))
    {
      hide Count, At, Names, PrintUser, PrintRef;
      var countKey, activeKey := ChannelConn(c.user, c.workspace, c.channel), UserChannels(c.user);
      var ref := ChannelRef(c.workspace, c.channel);
      var count := IncrBy(countKey, 1);
      if count == 1 {
        SAdd(activeKey, PrintRef(ref));
      }
      PrintRefInjectiveAt(ref);
      NamesChange(MembersIn(old(At(keys, activeKey))), ChannelsOf(s, c.user), PrintRef, ref);
      assert ChannelsOf(t, c.user) == ChannelsOf(s, c.user) + iset{ref};
      assert ref in ChannelsOf(s, c.user) ==> ChannelsOf(t, c.user) == ChannelsOf(s, c.user);
    }

    method JoinUser(c: Conn, ghost s: State) returns (count: int)
      requires KeyOf(At(keys, User(c.user)), s, User(c.user)) && KeyOf(At(keys, GlobalOnline), s, GlobalOnline)
      modifies this
      ensures KeyOf(At(keys, User(c.user)), Step(Redis, s, Op.Connect(c)), User(c.user))
      ensures KeyOf(At(keys, GlobalOnline), Step(Redis, s, Op.Connect(c)), GlobalOnline)
      ensures Only2(old(keys), keys, User(c.user), GlobalOnline)
      ensures count == Count(s.conns, ByUser(c.user)) + 1
    {
      hide Count, At, Names, PrintUser, PrintRef;
      count := HIncrCount(User(c.user), 1);
      if count == 1 {
        HSet(User(c.user), HashIn(At(keys, User(c.user))).(status := Some(Online)));
        SAdd(GlobalOnline, PrintUser(c.user));
      }
      CountsChange(s.conns, c);
      PrintUserInjective(c.user);
      ghost var t := Step(Redis, s, Op.Connect(c));
      NamesChange(MembersIn(old(At(keys, GlobalOnline))), OnlineUsers(s), PrintUser, c.user);
      assert OnlineUsers(t) == OnlineUsers(s) + iset{c.user};
      assert c.user in OnlineUsers(s) ==> OnlineUsers(t) == OnlineUsers(s);
    }

    method Connect(c: Conn, ghost s: State) returns (r: ConnectResult)
      requires Represents(s)
      modifies this
      ensures Represents(Step(Redis, s, Op.Connect(c)))
      ensures r == ConnectAnswer(s, c)
    {
      hide Count, At, KeyOf;
      ghost var t := Step(Redis, s, Op.Connect(c));
      JoinWorkspace(c, s, t);
      JoinChannel(c, s, t);
      var count := JoinUser(c, s);
      r := ConnectResult(count == 1, count);
      FitsAgain(old(keys), keys, s, t, c);
    }

    // ---- disconnectScript, in its three parts ----

    method LeaveWorkspace(c: Conn, ghost s: State, ghost t: State)
      requires Represents(s) && t.conns == s.conns - multiset{c}
      modifies this
      ensures Absorbable(s, c) ==>
                KeyOf(At(keys, WorkspaceConn(c.user, c.workspace)), t, WorkspaceConn(c.user, c.workspace))
      ensures Absorbable(s, c) ==>
                KeyOf(At(keys, WorkspaceOnline(c.workspace)), t, WorkspaceOnline(c.workspace))
      ensures Only2(old(keys), keys, WorkspaceConn(c.user, c.workspace), WorkspaceOnline(c.workspace))
    {
      hide Count, At, Names, PrintUser, PrintRef;
      var countKey, onlineKey := WorkspaceConn(c.user, c.workspace), WorkspaceOnline(c.workspace);
      assert KeyOf(At(keys, countKey), s, countKey) && KeyOf(At(keys, onlineKey), s, onlineKey);
      var count := IncrBy(countKey, -1);
      if count <= 0 {
        Del(countKey);
        SRem(onlineKey, PrintUser(c.user));
      }
      if Absorbable(s, c) {
        OnlineAfterLeave(s, t, c);
        PrintUserInjective(c.user);
        NamesChange(MembersIn(old(At(keys, onlineKey))), OnlineIn(s, c.workspace), PrintUser, c.user);
      }
    }

    method LeaveChannel(c: Conn, ghost s: State, ghost t: State)
      requires var k := ChannelConn(c.user, c.workspace, c.channel); KeyOf(At(keys, k), s, k)
      requires KeyOf(At(keys, UserChannels(c.user)), s, UserChannels(c.user))
      requires t.conns == s.conns - multiset{c}
      modifies this
      ensures var k := ChannelConn(c.user, c.workspace, c.channel); KeyOf(At(keys, k), t, k)
      ensures KeyOf(At(keys, UserChannels(c.user)), t, UserChannels(c.user))
      ensures Only2(old(keys), keys, ChannelConn(c.user, c.workspace, c.channel), UserChannels(c.user))
    {
      hide Count, At, Names, PrintUser, PrintRef;
      var countKey, activeKey := ChannelConn(c.user, c.workspace, c.channel), UserChannels(c.user);
      var ref := ChannelRef(c.workspace, c.channel);
      var count := IncrBy(countKey, -1);
      if count <= 0 {
        Del(countKey);
        SRem(activeKey, PrintRef(ref));
      }
      PrintRefInjectiveAt(ref);
      NamesChange(MembersIn(old(At(keys, activeKey))), ChannelsOf(s, c.user), PrintRef, ref);
      assert count <= 0 ==> ChannelsOf(t, c.user) == ChannelsOf(s, c.user) - iset{ref};
      assert count > 0 ==> ChannelsOf(t, c.user) == ChannelsOf(s, c.user);
    }

    method LeaveUser(c: Conn, ghost s: State) returns (count: int, offline: bool)
      requires KeyOf(At(keys, User(c.user)), s, User(c.user)) && KeyOf(At(keys, GlobalOnline), s, GlobalOnline)
      modifies this
      ensures Absorbable(s, c) ==>
                KeyOf(At(keys, User(c.user)), Step(Redis, s, Op.Disconnect(c)), User(c.user))
      ensures Absorbable(s, c) ==> KeyOf(At(keys, GlobalOnline), Step(Redis, s, Op.Disconnect(c)), GlobalOnline)
      ensures Only2(old(keys), keys, User(c.user), GlobalOnline)
      ensures count == HashIn(At(keys, User(c.user))).count.GetOr(0) && offline == (count == 0)
      ensures var n := Count(s.conns, ByUser(c.user)); count == if n == 0 then 0 else n - 1
    {
      hide Count, At, Names, PrintUser, PrintRef;
      ghost var t := Step(Redis, s, Op.Disconnect(c));
      count := HIncrCount(User(c.user), -1);
      if count < 0 {
        HSet(User(c.user), HashIn(At(keys, User(c.user))).(count := Some(0)));
        count := 0;
      }
      offline := false;
      if count <= 0 {
        HSet(User(c.user), UserHash(Some(0), Some(Offline)));
        SRem(GlobalOnline, PrintUser(c.user));
        offline := true;
      }
      if Absorbable(s, c) {
        OnlineAfterLeave(s, t, c);
        PrintUserInjective(c.user);
        NamesChange(MembersIn(old(At(keys, GlobalOnline))), OnlineUsers(s), PrintUser, c.user);
      }
    }

    // The three parts.
    method RunDisconnect(c: Conn, ghost s: State, ghost t: State) returns (count: int, offline: bool)
      requires Represents(s) && t == Step(Redis, s, Op.Disconnect(c))
      modifies this
      ensures Untouched(old(keys), keys, c)
      ensures Absorbable(s, c) ==> forall k: Key :: k in KeysOf(c) ==> KeyOf(At(keys, k), t, k)
      ensures var k := ChannelConn(c.user, c.workspace, c.channel); KeyOf(At(keys, k), t, k)
      ensures count == HashIn(At(keys, User(c.user))).count.GetOr(0) && offline == (count == 0)
      ensures var n := Count(s.conns, ByUser(c.user)); count == if n == 0 then 0 else n - 1
    {
      hide Count, At, KeyOf, Absorbable;
      LeaveWorkspace(c, s, t);
      LeaveChannel(c, s, t);
      count, offline := LeaveUser(c, s);
    }

    // As in the memory store, an unmatched disconnect of a connected user leaves counters that
    // stand for no set of connections.
    method Disconnect(c: Conn, ghost s: State) returns (r: DisconnectResult)
      requires Represents(s)
      modifies this
      ensures Absorbable(s, c) ==> Represents(Step(Redis, s, Op.Disconnect(c)))
      ensures !Absorbable(s, c) ==> forall t: State :: !Represents(t)
      ensures c in s.conns ==> r == DisconnectAnswer(s, c)
    {
      hide Count, At, KeyOf;
      ghost var t := Step(Redis, s, Op.Disconnect(c));
      var count, offline := RunDisconnect(c, s, t);
      r := DisconnectResult(offline, if count > 0 then count else 0);
      CountsChange(s.conns, c);
      hide KeysOf, HashIn, Untouched;
      if Absorbable(s, c) {
        FitsAgain(old(keys), keys, s, t, c);
      } else {
        var channelKey := ChannelConn(c.user, c.workspace, c.channel);
        ChannelKeyStatus(At(keys, channelKey), t, s, channelKey);
        forall u: State
          ensures !Represents(u)
        {
          NothingFits(old(keys), keys, s, c, u);
        }
      }
    }

    // HGETALL and the defaults of an absent hash.
    function Get(user: int64): UserPresence
      reads this
    {
      var hash := HashIn(At(keys, User(user)));
      var count := hash.count.GetOr(0);
      UserPresence(user, if count <= 0 then Offline else hash.status.GetOr(Offline), count)
    }

    lemma GetShows(user: int64, s: State)
      requires Represents(s)
      ensures Get(user) == PresenceOf(s, user)
      ensures var n := Count(s.conns, ByUser(user));
        Get(user) == UserPresence(user, if n > 0 && user in s.status then s.status[user] else Offline, n)
    {
      assert KeyOf(At(keys, User(user)), s, User(user));
    }

    // HGET, and what is to be written.
    method ChooseStatus(user: int64, wanted: Status, ghost s: State) returns (status: Status)
      requires Represents(s)
      ensures status == Kept(s, user, wanted)
      ensures status == if wanted == Offline && Count(s.conns, ByUser(user)) > 0 then Away else wanted
    {
      hide Count, At, Names, PrintUser, PrintRef;
      assert KeyOf(At(keys, User(user)), s, User(user));
      var count := HashIn(At(keys, User(user))).count.GetOr(0);
      status := if count > 0 && wanted == Offline then Away else wanted;
    }

    // HSET of the status, whatever has happened since it was chosen.
    method WriteStatus(user: int64, status: Status, ghost t: State)
      requires Represents(t)
      modifies this
      ensures Represents(PutStatus(t, user, status))
    {
      hide Count, At, Names, PrintUser, PrintRef;
      var k := User(user);
      assert KeyOf(At(keys, k), t, k);
      HSet(k, HashIn(At(keys, k)).(status := Some(status)));
      ghost var after := PutStatus(t, user, status);
      forall j: Key
        ensures KeyOf(At(keys, j), after, j)
      {
        assert KeyOf(old(At(keys, j)), t, j);
        assert OnlineUsers(after) == OnlineUsers(t);
        assert j.WorkspaceOnline? ==> OnlineIn(after, j.workspace) == OnlineIn(t, j.workspace);
        assert j.UserChannels? ==> ChannelsOf(after, j.user) == ChannelsOf(t, j.user);
      }
    }

    // Nothing else runs between the commands here.
    method SetStatus(user: int64, wanted: Status, ghost s: State) returns (r: UserPresence)
      requires Represents(s)
      modifies this
      ensures Represents(Step(Redis, s, Op.SetStatus(user, wanted)))
      ensures r == PresenceOf(Step(Redis, s, Op.SetStatus(user, wanted)), user)
      ensures var n := Count(s.conns, ByUser(user));
        r == UserPresence(user, if n == 0 then Offline else if wanted == Offline then Away else wanted, n)
    {
      hide Count, At, KeyOf;
      var status := ChooseStatus(user, wanted, s);
      WriteStatus(user, status, s);
      GetShows(user, Step(Redis, s, Op.SetStatus(user, wanted)));
      r := Get(user);
    }

    // SMEMBERS: every member once, in no particular order.
    method SMembers(k: Key) returns (raws: seq<string>)
      ensures NoDuplicates(raws)
      ensures forall raw :: raw in raws <==> raw in MembersIn(At(keys, k))
    {
      raws := [];
      var all := MembersIn(At(keys, k));
      var todo := all;
      while todo != {}
        invariant todo <= all && NoDuplicates(raws)
        invariant forall raw :: raw in raws <==> raw in all - todo
        decreases |todo|
      {
        var raw :| raw in todo;
        assert raw !in raws;
        todo := todo - {raw};
        raws := raws + [raw];
      }
    }

    method ListOnline(ghost s: State) returns (items: seq<UserPresence>)
      requires Represents(s)
      ensures ListsOnline(s, items)
    {
      hide Count, At, PrintUser;
      assert KeyOf(At(keys, GlobalOnline), s, GlobalOnline);
      var raws := SMembers(GlobalOnline);
      var ids := ParseIds(raws, OnlineUsers(s));
      items := [];
      for i := 0 to |ids|
        invariant |items| == i
        invariant forall j :: 0 <= j < i ==> items[j] == PresenceOf(s, ids[j])
      {
        GetShows(ids[i], s);
        assert ids[i] in OnlineUsers(s);
        var presence := Get(ids[i]);
        if presence.connectionCount > 0 {
          items := items + [presence];
        }
      }
      forall u: int64
        ensures Count(s.conns, ByUser(u)) > 0 <==> PresenceOf(s, u) in items
      {
        assert u in OnlineUsers(s) <==> u in ids;
      }
    }

    method ListWorkspaceOnlineUserIDs(workspace: int64, ghost s: State) returns (ids: seq<int64>)
      requires Represents(s)
      ensures ListsWorkspace(s, workspace, ids)
    {
      hide Count, At, PrintUser;
      assert KeyOf(At(keys, WorkspaceOnline(workspace)), s, WorkspaceOnline(workspace));
      var raws := SMembers(WorkspaceOnline(workspace));
      ids := ParseIds(raws, OnlineIn(s, workspace));
      assert forall u: int64 :: u in OnlineIn(s, workspace) <==> u in ids;
    }

    method ActiveChannels(user: int64, ghost s: State) returns (refs: seq<ChannelRef>)
      requires Represents(s)
      ensures ListsChannels(s, user, refs)
    {
      hide Count, At, PrintRef, ParseRef;
      var k := UserChannels(user);
      assert KeyOf(At(keys, k), s, k);
      var raws := SMembers(k);
      refs := [];
      for i := 0 to |raws|
        invariant |refs| == i
        invariant forall j :: 0 <= j < i ==> PrintRef(refs[j]) == raws[j]
      {
        assert raws[i] in raws;
        ghost var r: ChannelRef :| raws[i] == PrintRef(r);
        RefRoundTrip(r);
        match ParseRef(raws[i]) {
          case Some(ref) => refs := refs + [ref];
          case None =>
        }
      }
      forall r: ChannelRef
        ensures r in refs <==> PrintRef(r) in raws
      {
        PrintRefInjectiveAt(r);
      }
    }
  }

  // ParseInt over the members of an online set; the printed ids all parse.
  method ParseIds(raws: seq<string>, ghost users: iset<int64>) returns (ids: seq<int64>)
    requires NoDuplicates(raws)
    requires forall u: int64 :: PrintUser(u) in raws <==> u in users
    requires forall raw :: raw in raws ==> exists u: int64 :: raw == PrintUser(u)
    ensures NoDuplicates(ids) && forall u: int64 :: u in ids <==> u in users
  {
    ids := [];
    for i := 0 to |raws|
      invariant |ids| == i
      invariant forall j :: 0 <= j < i ==> PrintUser(ids[j]) == raws[j]
    {
      assert raws[i] in raws;
      ghost var u: int64 :| raws[i] == PrintUser(u);
      ParseFormat(u);
      match ParseInt(raws[i]) {
        case Some(id) => ids := ids + [id];
        case None =>
      }
    }
    forall u: int64
      ensures u in ids <==> u in users
    {
      PrintUserInjective(u);
    }
  }
}
