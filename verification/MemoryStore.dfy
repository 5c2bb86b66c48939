// internal/presence/memory_store.go: presence kept in Go maps on a single node.
module MemoryStore {
  import opened Base
  import opened Presence

  type Channels = map<int64, map<int64, int>>  // workspace -> channel -> count

  datatype UserRecord = UserRecord(status: Status, connectionCount: int, channels: Channels)

  const NEW_RECORD := UserRecord(Offline, 0, map[])

  function ChannelCount(channels: Channels, workspace: int64, channel: int64): int {
    if workspace in channels && channel in channels[workspace] then channels[workspace][channel] else 0
  }

  function InWorkspaceOf(channels: Channels, workspace: int64): map<int64, int> {
    if workspace in channels then channels[workspace] else map[]
  }

  // Only positive counts are stored, and no workspace entry is empty.
  predicate Compact(channels: Channels) {
    forall w :: w in channels ==>
      channels[w] != map[] && forall c :: c in channels[w] ==> channels[w][c] > 0
  }

  // The nested maps hold exactly the user's connections.
  ghost predicate Holds(channels: Channels, conns: multiset<Conn>, user: int64) {
    && Compact(channels)
    && forall w: int64, c: int64 :: ChannelCount(channels, w, c) == conns[Conn(user, w, c)]
  }

  ghost predicate RecordOf(r: UserRecord, s: State, user: int64) {
    && r.connectionCount == Count(s.conns, ByUser(user))
    && r.status == s.StatusOf(user)
    && Holds(r.channels, s.conns, user)
  }

  // ---- The nested maps, one connection more or less ----

  lemma HoldsMore(channels: Channels, conns: multiset<Conn>, c: Conn)
    requires Holds(channels, conns, c.user)
    ensures var n := ChannelCount(channels, c.workspace, c.channel);
      Holds(channels[c.workspace := InWorkspaceOf(channels, c.workspace)[c.channel := n + 1]],
            conns + multiset{c}, c.user)
  {
    var n := ChannelCount(channels, c.workspace, c.channel);
    var ws := InWorkspaceOf(channels, c.workspace)[c.channel := n + 1];
    assert c.channel in ws;
    forall w: int64, ch: int64
      ensures ChannelCount(channels[c.workspace := ws], w, ch) == (conns + multiset{c})[Conn(c.user, w, ch)]
    {
      assert ChannelCount(channels, w, ch) == conns[Conn(c.user, w, ch)];
    }
  }

  lemma HoldsLess(channels: Channels, ws: map<int64, int>, after: Channels, conns: multiset<Conn>, c: Conn)
    requires Holds(channels, conns, c.user) && c.workspace in channels
    requires var n := ChannelCount(channels, c.workspace, c.channel);
      ws == if n <= 1 then channels[c.workspace] - {c.channel} else channels[c.workspace][c.channel := n - 1]
    requires after == if ws == map[] then channels - {c.workspace} else channels[c.workspace := ws]
    ensures Holds(after, conns - multiset{c}, c.user)
  {
    assert ws != map[] ==> exists ch :: ch in ws;
    assert forall w :: w in after ==> w in channels;
    forall w: int64, ch: int64
      ensures ChannelCount(after, w, ch) == (conns - multiset{c})[Conn(c.user, w, ch)]
    {
      assert ChannelCount(channels, w, ch) == conns[Conn(c.user, w, ch)];
      assert ChannelCount(channels, c.workspace, c.channel) == conns[c];
      if w == c.workspace {
        assert w !in after ==> ch !in ws;
        assert ch != c.channel ==> (ch in ws <==> ch in channels[w]);
      }
    }
  }

  lemma HoldsOther(channels: Channels, conns: multiset<Conn>, c: Conn, user: int64)
    requires Holds(channels, conns, user) && user != c.user
    ensures Holds(channels, conns + multiset{c}, user)
    ensures Holds(channels, conns - multiset{c}, user)
  {
  }

  // A workspace entry exists exactly when the user has a connection in the workspace.
  lemma HoldsWorkspace(channels: Channels, conns: multiset<Conn>, user: int64, workspace: int64)
    requires Holds(channels, conns, user)
    ensures workspace in channels <==> Count(conns, ByWorkspace(user, workspace)) > 0
  {
    var scope := ByWorkspace(user, workspace);
    CountPositive(conns, scope);
    if workspace in channels {
      var ch :| ch in channels[workspace];
      assert ChannelCount(channels, workspace, ch) > 0;
      assert In(Conn(user, workspace, ch), scope);
    } else {
      forall c | In(c, scope)
        ensures c !in conns
      {
        assert ChannelCount(channels, workspace, c.channel) == conns[Conn(user, workspace, c.channel)];
      }
    }
  }

  // Two multisets held by the same maps have the same connections of that user.
  lemma HoldsUnique(channels: Channels, m: multiset<Conn>, n: multiset<Conn>, user: int64)
    requires Holds(channels, m, user) && Holds(channels, n, user)
    ensures forall c: Conn :: c.user == user ==> m[c] == n[c]
  {
    forall c: Conn | c.user == user
      ensures m[c] == n[c]
    {
      assert c == Conn(user, c.workspace, c.channel);
      assert ChannelCount(channels, c.workspace, c.channel) == m[c];
    }
  }

  lemma HoldsNot(channels: Channels, conns: multiset<Conn>, c: Conn)
    requires Holds(channels, conns, c.user) && c.workspace !in channels
    ensures c !in conns && conns - multiset{c} == conns
  {
    assert ChannelCount(channels, c.workspace, c.channel) == conns[c];
  }

  lemma NoneToRemove(r: UserRecord, s: State, c: Conn)
    requires RecordOf(r, s, c.user) && r == NEW_RECORD
    ensures c !in s.conns && s.conns - multiset{c} == s.conns && Count(s.conns, ByUser(c.user)) == 0
  {
    HoldsNot(r.channels, s.conns, c);
  }

  // A record whose global count is not the number of its channel entries stands for nothing.
  lemma Misfit(r: UserRecord, conns: multiset<Conn>, t: State, user: int64)
    requires Holds(r.channels, conns, user)
    requires r.connectionCount != Count(conns, ByUser(user))
    ensures !RecordOf(r, t, user)
  {
    if RecordOf(r, t, user) {
      HoldsUnique(r.channels, conns, t.conns, user);
      CountSame(conns, t.conns, ByUser(user));
      assert false;
    }
  }

  method DropChannel(channels: Channels, c: Conn, ghost conns: multiset<Conn>) returns (left: Channels)
    requires Holds(channels, conns, c.user)
    ensures Holds(left, conns - multiset{c}, c.user)
  {
    left := channels;
    if c.workspace in channels {
      var count := ChannelCount(channels, c.workspace, c.channel) - 1;
      var ws := channels[c.workspace][c.channel := count];
      if count <= 0 {
        ws := ws - {c.channel};
        assert ws == channels[c.workspace] - {c.channel};
      }
      left := if ws == map[] then channels - {c.workspace} else channels[c.workspace := ws];
      HoldsLess(channels, ws, left, conns, c);
    } else {
      HoldsNot(channels, conns, c);
    }
  }

  // ---- The whole store, as values ----

  type Users = map<int64, UserRecord>
  type Members = map<int64, set<int64>>  // workspace -> online users

  function RecordIn(users: Users, user: int64): UserRecord {
    if user in users then users[user] else NEW_RECORD
  }

  predicate IsMember(members: Members, workspace: int64, user: int64) {
    workspace in members && user in members[workspace]
  }

  ghost predicate Fits(users: Users, online: set<int64>, members: Members, s: State) {
    && (forall u: int64 :: RecordOf(RecordIn(users, u), s, u))
    && (forall u: int64 :: u in online <==> Count(s.conns, ByUser(u)) > 0)
    && (forall w: int64, u: int64 :: IsMember(members, w, u) <==> Count(s.conns, ByWorkspace(u, w)) > 0)
  }

  // One user's connection c comes or goes: if that user's entries are right again, all are.
  lemma FitsAgain(users: Users, online: set<int64>, members: Members, s: State,
                  users': Users, online': set<int64>, members': Members, t: State, c: Conn)
    requires Fits(users, online, members, s)
    requires t.conns == s.conns + multiset{c} || t.conns == s.conns - multiset{c}
    requires forall u: int64 :: u != c.user ==> t.StatusOf(u) == s.StatusOf(u)
    requires forall u: int64 :: u != c.user ==> RecordIn(users', u) == RecordIn(users, u)
    requires forall u: int64 :: u != c.user ==> (u in online' <==> u in online)
    requires forall w: int64, u: int64 :: (w, u) != (c.workspace, c.user) ==>
               (IsMember(members', w, u) <==> IsMember(members, w, u))
    requires RecordOf(RecordIn(users', c.user), t, c.user)
    requires c.user in online' <==> Count(t.conns, ByUser(c.user)) > 0
    requires IsMember(members', c.workspace, c.user) <==> Count(t.conns, ByWorkspace(c.user, c.workspace)) > 0
    ensures Fits(users', online', members', t)
  {
    hide Count, Holds;
    CountsChange(s.conns, c);
    forall u: int64
      ensures RecordOf(RecordIn(users', u), t, u)
    {
      if u != c.user {
        assert RecordOf(RecordIn(users, u), s, u);
        HoldsOther(RecordIn(users, u).channels, s.conns, c, u);
        assert !In(c, ByUser(u));
      }
    }
    forall w: int64, u: int64
      ensures IsMember(members', w, u) <==> Count(t.conns, ByWorkspace(u, w)) > 0
    {
      assert In(c, ByWorkspace(u, w)) <==> (w, u) == (c.workspace, c.user);
    }
  }

  lemma RecordMore(r: UserRecord, s: State, c: Conn)
    requires RecordOf(r, s, c.user)
    ensures r.connectionCount == Count(s.conns, ByUser(c.user))
    ensures var n := ChannelCount(r.channels, c.workspace, c.channel);
      var ws := InWorkspaceOf(r.channels, c.workspace)[c.channel := n + 1];
      RecordOf(UserRecord(if r.status == Offline then Online else r.status, r.connectionCount + 1,
                          r.channels[c.workspace := ws]),
               Step(Memory, s, Op.Connect(c)), c.user)
  {
    hide Count, Holds;
    HoldsMore(r.channels, s.conns, c);
    CountsChange(s.conns, c);
  }

  class Store {
    var users: map<int64, UserRecord>
    var globalOnline: set<int64>
    var wsOnline: map<int64, set<int64>>

    ghost predicate Represents(s: State)
      reads this
    {
      Fits(users, globalOnline, wsOnline, s)
    }

    constructor ()
      ensures Represents(EMPTY)
    {
      users, globalOnline, wsOnline := map[], {}, map[];
    }

    method Connect(c: Conn, ghost s: State) returns (r: ConnectResult)
      requires Represents(s)
      modifies this
      ensures Represents(Step(Memory, s, Op.Connect(c)))
      ensures r == ConnectAnswer(s, c)
    {
      hide Count, Holds, RecordOf;
      var record := RecordIn(users, c.user);
      assert RecordOf(record, s, c.user);
      RecordMore(record, s, c);
      record := record.(connectionCount := record.connectionCount + 1);
      if record.status == Offline {
        record := record.(status := Online);
      }
      var onChannel := ChannelCount(record.channels, c.workspace, c.channel);
      var ws := InWorkspaceOf(record.channels, c.workspace)[c.channel := onChannel + 1];
      record := record.(channels := record.channels[c.workspace := ws]);
      users := users[c.user := record];

      if record.connectionCount == 1 {
        globalOnline := globalOnline + {c.user};
      }
      var online := if c.workspace in wsOnline then wsOnline[c.workspace] else {};
      wsOnline := wsOnline[c.workspace := online + {c.user}];
      r := ConnectResult(record.connectionCount == 1, record.connectionCount);

      CountsChange(s.conns, c);
      FitsAgain(old(users), old(globalOnline), old(wsOnline), s,
                users, globalOnline, wsOnline, Step(Memory, s, Op.Connect(c)), c);
    }

    // unmarkWorkspaceOnline
    method Unmark(workspace: int64, user: int64, channels: Channels)
      modifies this`wsOnline
      ensures forall w: int64, u: int64 :: IsMember(wsOnline, w, u) <==>
                old(IsMember(wsOnline, w, u)) && ((w, u) == (workspace, user) ==> workspace in channels)
    {
      if workspace !in channels && workspace in wsOnline {
        wsOnline := wsOnline[workspace := wsOnline[workspace] - {user}];
      }
    }

    // An unmatched disconnect of a connected user leaves a store that stands for no set of
    // connections at all: the global count no longer fits the channel counts.
    method Disconnect(c: Conn, ghost s: State) returns (r: DisconnectResult)
      requires Represents(s)
      modifies this
      ensures Absorbable(s, c) ==> Represents(Step(Memory, s, Op.Disconnect(c)))
      ensures !Absorbable(s, c) ==> forall t: State :: !Represents(t)
      ensures c in s.conns ==> r == DisconnectAnswer(s, c)
    {
      hide Count, Holds;
      var record := RecordIn(users, c.user);
      assert RecordOf(record, s, c.user);
      if c.user !in users {
        NoneToRemove(record, s, c);
        return DisconnectResult(false, 0);
      }
      record := record.(connectionCount := if record.connectionCount < 1 then 0 else record.connectionCount - 1);

      var channels := DropChannel(record.channels, c, s.conns);
      record := record.(channels := channels);
      HoldsWorkspace(record.channels, s.conns - multiset{c}, c.user, c.workspace);

      Unmark(c.workspace, c.user, record.channels);
      if record.connectionCount == 0 {
        record := record.(status := Offline);
        globalOnline := globalOnline - {c.user};
      }
      users := users[c.user := record];
      r := DisconnectResult(record.connectionCount == 0, record.connectionCount);

      CountsChange(s.conns, c);
      if Absorbable(s, c) {
        FitsAgain(old(users), old(globalOnline), old(wsOnline), s,
                  users, globalOnline, wsOnline, Step(Memory, s, Op.Disconnect(c)), c);
      } else {
        assert s.conns - multiset{c} == s.conns && RecordIn(users, c.user) == record;
        forall t: State
          ensures !Represents(t)
        {
          Misfit(record, s.conns, t, c.user);
        }
      }
    }

    method SetStatus(user: int64, wanted: Status, ghost s: State) returns (r: UserPresence)
      requires Represents(s)
      modifies this
      ensures Represents(Step(Memory, s, Op.SetStatus(user, wanted)))
      ensures r == PresenceOf(Step(Memory, s, Op.SetStatus(user, wanted)), user)
      ensures var n := Count(s.conns, ByUser(user));
        r == UserPresence(user, if n == 0 then Offline else if wanted == Offline then Away else wanted, n)
    {
      hide Count, Holds;
      var record := RecordIn(users, user);
      assert RecordOf(record, s, user);
      var status := if record.connectionCount > 0 && wanted == Offline then Away else wanted;
      record := record.(status := status);
      users := users[user := record];
      forall u: int64
        ensures RecordOf(RecordIn(users, u), Step(Memory, s, Op.SetStatus(user, wanted)), u)
      {
        assert RecordOf(old(RecordIn(users, u)), s, u);
      }
      r := ToPresence(user, record);
    }

    function Get(user: int64): UserPresence
      reads this
    {
      if user in users then ToPresence(user, users[user]) else UserPresence(user, Offline, 0)
    }

    lemma GetShows(user: int64, s: State)
      requires Represents(s)
      ensures Get(user) == PresenceOf(s, user)
      ensures var n := Count(s.conns, ByUser(user));
        Get(user) == UserPresence(user, if n > 0 && user in s.status then s.status[user] else Offline, n)
    {
      assert RecordOf(RecordIn(users, user), s, user);
    }

    method ListOnline(ghost s: State) returns (items: seq<UserPresence>)
      requires Represents(s)
      ensures ListsOnline(s, items)
    {
      hide Count, Holds;
      items := [];
      var todo := globalOnline;
      while todo != {}
        invariant todo <= globalOnline && NoDuplicates(items)
        invariant forall i :: 0 <= i < |items| ==>
                    items[i] == PresenceOf(s, items[i].user) && items[i].user in globalOnline - todo
        invariant forall u :: u in globalOnline - todo ==> PresenceOf(s, u) in items
        decreases |todo|
      {
        var u :| u in todo;
        todo := todo - {u};
        assert RecordOf(RecordIn(users, u), s, u);
        if u in users {
          items := items + [ToPresence(u, users[u])];
        }
      }
    }

    method ListWorkspaceOnlineUserIDs(workspace: int64, ghost s: State) returns (ids: seq<int64>)
      requires Represents(s)
      ensures ListsWorkspace(s, workspace, ids)
    {
      hide Count, Holds;
      ids := [];
      var online := if workspace in wsOnline then wsOnline[workspace] else {};
      var todo := online;
      while todo != {}
        invariant todo <= online && NoDuplicates(ids)
        invariant forall u :: u in ids <==> u in online - todo
        decreases |todo|
      {
        var u :| u in todo;
        assert u !in ids;
        todo := todo - {u};
        ids := ids + [u];
      }
      assert forall u: int64 :: u in online <==> IsMember(wsOnline, workspace, u);
    }

    method ActiveChannels(user: int64, ghost s: State) returns (refs: seq<ChannelRef>)
      requires Represents(s)
      ensures ListsChannels(s, user, refs)
    {
      hide Count;
      refs := [];
      var channels := RecordIn(users, user).channels;
      assert RecordOf(RecordIn(users, user), s, user);
      var todo := channels.Keys;
      while todo != {}
        invariant todo <= channels.Keys && NoDuplicates(refs)
        invariant forall r :: r in refs <==>
                    r.workspace in channels.Keys - todo && ChannelCount(channels, r.workspace, r.channel) > 0
        decreases |todo|
      {
        var w :| w in todo;
        var more := PositiveIn(w, channels[w]);
        forall i, j | 0 <= i < |refs| && 0 <= j < |more|
          ensures refs[i] != more[j]
        {
          assert refs[i] in refs && more[j] in more;
        }
        todo := todo - {w};
        NoDuplicatesAppend(refs, more);
        refs := refs + more;
      }
      assert forall w: int64, c: int64 :: ChannelCount(channels, w, c) == s.conns[Conn(user, w, c)];
    }
  }

  function ToPresence(user: int64, r: UserRecord): UserPresence {
    UserPresence(user, if r.connectionCount == 0 then Offline else r.status, r.connectionCount)
  }

  // The channels of one workspace with a positive count.
  method PositiveIn(workspace: int64, counts: map<int64, int>) returns (refs: seq<ChannelRef>)
    ensures NoDuplicates(refs)
    ensures forall r :: r in refs <==> r.workspace == workspace && r.channel in counts && counts[r.channel] > 0
  {
    refs := [];
    var todo := counts.Keys;
    while todo != {}
      invariant todo <= counts.Keys && NoDuplicates(refs)
      invariant forall r :: r in refs <==>
                  r.workspace == workspace && r.channel in counts.Keys - todo && counts[r.channel] > 0
      decreases |todo|
    {
      var c :| c in todo;
      todo := todo - {c};
      if counts[c] > 0 {
        assert ChannelRef(workspace, c) !in refs;
        refs := refs + [ChannelRef(workspace, c)];
      }
    }
  }
}
