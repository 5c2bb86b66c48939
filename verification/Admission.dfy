// Websocket admission (internal/realtime/handler.go): CanConnect is asked before the upgrade and the
// client is registered after it, so several upgrades can pass the check together.
module Admission {
  import opened Base
  import opened Presence
  import opened Clients
  import opened Hub

  // waiting are the clients that passed the check and are not registered yet.
  datatype Door = Door(clients: set<Client>, waiting: set<Client>)

  datatype Attempt =
    | Check(client: Client)
    | GiveUp(client: Client)     // refused later on, or the upgrade failed
    | Register(client: Client)
    | Unregister(client: Client)

  datatype Limits = Limits(perUser: int, perIP: int)

  // What CanConnect answers.
  predicate Admits(l: Limits, d: Door, c: Client) {
    && (l.perUser > 0 ==> |Select(d.clients, ByUser(c.userID))| < l.perUser)
    && (l.perIP > 0 ==> |FromIP(d.clients, c.remoteIP)| < l.perIP)
  }

  function Next(l: Limits, d: Door, a: Attempt): Door {
    match a
    case Check(c) =>
      if c !in d.clients && Admits(l, d, c) then d.(waiting := d.waiting + {c}) else d
    case GiveUp(c) => d.(waiting := d.waiting - {c})
    case Register(c) =>
      if c in d.waiting then Door(d.clients + {c}, d.waiting - {c}) else d
    case Unregister(c) => d.(clients := d.clients - {c})
  }

  // An upgrade gets past its check exactly when the user's registered clients, and those of the address,
  // are fewer than the positive limits.
  lemma CheckPassesIff(l: Limits, d: Door, c: Client)
    requires c !in d.clients
    ensures var users := set x | x in d.clients && x.userID == c.userID;
      var address := set x | x in d.clients && x.remoteIP == c.remoteIP;
      var passes := (l.perUser <= 0 || |users| < l.perUser) && (l.perIP <= 0 || |address| < l.perIP);
      Next(l, d, Check(c)) == if passes then d.(waiting := d.waiting + {c}) else d
  {
    assert Select(d.clients, ByUser(c.userID)) == set x | x in d.clients && x.userID == c.userID;
    assert FromIP(d.clients, c.remoteIP) == set x | x in d.clients && x.remoteIP == c.remoteIP;
  }

  function Exec(l: Limits, run: seq<Attempt>): Door {
    if run == [] then Door({}, {}) else Next(l, Exec(l, Front(run)), Last(run))
  }

  // At most n upgrades of the user are under way at any time, and likewise for an address.
  predicate UserOverlap(l: Limits, run: seq<Attempt>, user: int64, n: nat) {
    |Select(Exec(l, run).waiting, ByUser(user))| <= n && (run == [] || UserOverlap(l, Front(run), user, n))
  }

  predicate IPOverlap(l: Limits, run: seq<Attempt>, ip: string, n: nat) {
    |FromIP(Exec(l, run).waiting, ip)| <= n && (run == [] || IPOverlap(l, Front(run), ip, n))
  }

  lemma SelectStep(clients: set<Client>, c: Client, scope: Scope)
    ensures c in clients ==> |Select(clients - {c}, scope)| == |Select(clients, scope)| - Bit(In(ConnOf(c), scope))
    ensures c !in clients ==> |Select(clients + {c}, scope)| == |Select(clients, scope)| + Bit(In(ConnOf(c), scope))
    ensures c in clients ==> clients + {c} == clients
    ensures c !in clients ==> clients - {c} == clients
  {
    if c in clients {
      SelectRemove(clients, c, scope);
    } else {
      SelectAdd(clients, c, scope);
    }
  }

  lemma {:induction false} Disjoint(l: Limits, run: seq<Attempt>)
    ensures Exec(l, run).clients !! Exec(l, run).waiting
  {
    if run != [] {
      Disjoint(l, Front(run));
    }
  }

  lemma {:induction false} UserSum(l: Limits, run: seq<Attempt>, user: int64, n: nat)
    requires l.perUser > 0 && UserOverlap(l, run, user, n)
    ensures var d := Exec(l, run);
      |Select(d.clients, ByUser(user))| + |Select(d.waiting, ByUser(user))| <= l.perUser + n - 1
  {
    hide Select;
    var scope := ByUser(user);
    if run == [] {
      NobodyYet(user, "");
    } else {
      UserSum(l, Front(run), user, n);
      Disjoint(l, Front(run));
      var d := Exec(l, Front(run));
      SelectStep(d.clients, Last(run).client, scope);
      SelectStep(d.waiting, Last(run).client, scope);
    }
  }

  lemma NobodyYet(user: int64, ip: string)
    ensures Select({}, ByUser(user)) == {} && FromIP({}, ip) == {}
  {
  }

  // With at most n upgrades of a user between the check and the registration, the user never has
  // more than max + n - 1 connections on the node.
  lemma UserLimitOvershoot(l: Limits, run: seq<Attempt>, user: int64, n: nat)
    requires l.perUser > 0 && UserOverlap(l, run, user, n)
    ensures |Select(Exec(l, run).clients, ByUser(user))| <= l.perUser + n - 1
  {
    UserSum(l, run, user, n);
  }

  lemma FromIPStep(clients: set<Client>, c: Client, ip: string)
    ensures c in clients ==> |FromIP(clients - {c}, ip)| == |FromIP(clients, ip)| - Bit(c.remoteIP == ip)
    ensures c !in clients ==> |FromIP(clients + {c}, ip)| == |FromIP(clients, ip)| + Bit(c.remoteIP == ip)
    ensures c in clients ==> clients + {c} == clients
    ensures c !in clients ==> clients - {c} == clients
  {
    if c in clients {
      FromIPAdd(clients - {c}, c, ip);
      assert clients - {c} + {c} == clients;
    } else {
      FromIPAdd(clients, c, ip);
    }
  }

  lemma {:induction false} IPSum(l: Limits, run: seq<Attempt>, ip: string, n: nat)
    requires l.perIP > 0 && IPOverlap(l, run, ip, n)
    ensures |FromIP(Exec(l, run).clients, ip)| + |FromIP(Exec(l, run).waiting, ip)| <= l.perIP + n - 1
  {
    hide FromIP;
    if run == [] {
      NobodyYet(0, ip);
    } else {
      IPSum(l, Front(run), ip, n);
      Disjoint(l, Front(run));
      var d := Exec(l, Front(run));
      FromIPStep(d.clients, Last(run).client, ip);
      FromIPStep(d.waiting, Last(run).client, ip);
    }
  }

  lemma IPLimitOvershoot(l: Limits, run: seq<Attempt>, ip: string, n: nat)
    requires l.perIP > 0 && IPOverlap(l, run, ip, n)
    ensures |FromIP(Exec(l, run).clients, ip)| <= l.perIP + n - 1
  {
    IPSum(l, run, ip, n);
  }

  // ---- The bounds are reached ----

  // Clients that have a user, or an address, in common and nothing else.
  datatype Shared = OneUser(user: int64) | OneIP(ip: string)

  function Guest(shared: Shared, k: nat): Client {
    match shared
    case OneUser(u) => Client(k, u, 0, 0, seq(k, _ => '1'))
    case OneIP(ip) => Client(k, if k <= MAX_INT64 then k else 0, 0, 0, ip)
  }

  function Guests(shared: Shared, from: nat, to: nat): set<Client> {
    set k: nat | from <= k < to :: Guest(shared, k)
  }

  function Having(clients: set<Client>, shared: Shared): set<Client> {
    match shared
    case OneUser(u) => Select(clients, ByUser(u))
    case OneIP(ip) => FromIP(clients, ip)
  }

  function LimitOn(l: Limits, shared: Shared): int {
    if shared.OneUser? then l.perUser else l.perIP
  }

  predicate Overlap(l: Limits, run: seq<Attempt>, shared: Shared, n: nat) {
    match shared
    case OneUser(u) => UserOverlap(l, run, u, n)
    case OneIP(ip) => IPOverlap(l, run, ip, n)
  }

  lemma {:induction false} GuestCount(shared: Shared, from: nat, to: nat)
    requires from <= to
    ensures |Guests(shared, from, to)| == to - from
  {
    if from < to {
      GuestCount(shared, from, to - 1);
      GuestMore(shared, from, to - 1);
      hide Guests;
    } else {
      assert Guests(shared, from, to) == {};
    }
  }

  lemma AllShare(shared: Shared, from: nat, to: nat)
    ensures Having(Guests(shared, from, to), shared) == Guests(shared, from, to)
  {
  }

  lemma GuestMore(shared: Shared, from: nat, to: nat)
    requires from <= to
    ensures Guests(shared, from, to + 1) == Guests(shared, from, to) + {Guest(shared, to)}
    ensures Guest(shared, to) !in Guests(shared, from, to)
  {
    assert forall k :: Guest(shared, k).id == k;
  }

  lemma GuestFirst(shared: Shared, from: nat, to: nat)
    requires from < to
    ensures Guests(shared, from, to) - {Guest(shared, from)} == Guests(shared, from + 1, to)
    ensures Guest(shared, from) in Guests(shared, from, to)
  {
    assert forall k :: Guest(shared, k).id == k;
  }

  // The first r guests are in and the next w wait: the following one is admitted below the limit.
  lemma GuestAdmitted(l: Limits, shared: Shared, r: nat, w: nat)
    requires r < LimitOn(l, shared) && r + w <= MAX_INT64
    ensures Admits(l, Door(Guests(shared, 0, r), Guests(shared, r, r + w)), Guest(shared, r + w))
  {
    GuestCount(shared, 0, r);
    AllShare(shared, 0, r);
    var inside, next := Guests(shared, 0, r), Guest(shared, r + w);
    match shared
    case OneUser(u) => assert FromIP(inside, next.remoteIP) == {};
    case OneIP(ip) => assert Select(inside, ByUser(next.userID)) == {};
  }

  ghost predicate At(l: Limits, run: seq<Attempt>, shared: Shared, r: nat, w: nat, n: nat) {
    && Exec(l, run) == Door(Guests(shared, 0, r), Guests(shared, r, r + w))
    && Overlap(l, run, shared, n)
  }

  lemma OverlapMore(l: Limits, run: seq<Attempt>, a: Attempt, shared: Shared, n: nat)
    requires Overlap(l, run, shared, n) && |Having(Next(l, Exec(l, run), a).waiting, shared)| <= n
    ensures Exec(l, run + [a]) == Next(l, Exec(l, run), a) && Overlap(l, run + [a], shared, n)
  {
    hide Next, Select, FromIP;
    assert Front(run + [a]) == run;
  }

  lemma Append(l: Limits, run: seq<Attempt>, a: Attempt, shared: Shared, r: nat, w: nat, n: nat)
    requires Overlap(l, run, shared, n) && w <= n
    requires Next(l, Exec(l, run), a) == Door(Guests(shared, 0, r), Guests(shared, r, r + w))
    ensures At(l, run + [a], shared, r, w, n)
  {
    hide Guests, Guest, Next, Having, Overlap, Exec;
    GuestCount(shared, r, r + w);
    AllShare(shared, r, r + w);
    OverlapMore(l, run, a, shared, n);
  }

  lemma Enter(l: Limits, run: seq<Attempt>, shared: Shared, r: nat, w: nat, n: nat) returns (more: seq<Attempt>)
    requires At(l, run, shared, r, w, n) && w < n && r < LimitOn(l, shared) && r + w <= MAX_INT64
    ensures At(l, more, shared, r, w + 1, n)
  {
    var next := Check(Guest(shared, r + w));
    GuestAdmitted(l, shared, r, w);
    GuestMore(shared, r, r + w);
    GuestMore(shared, 0, r + w);
    hide Overlap, Exec, Admits;
    assert Guest(shared, r + w) !in Guests(shared, 0, r);
    Append(l, run, next, shared, r, w + 1, n);
    more := run + [next];
  }

  lemma Arrive(l: Limits, run: seq<Attempt>, shared: Shared, r: nat, w: nat, n: nat) returns (more: seq<Attempt>)
    requires At(l, run, shared, r, w, n) && 0 < w <= n
    ensures At(l, more, shared, r + 1, w - 1, n)
  {
    var first := Register(Guest(shared, r));
    GuestFirst(shared, r, r + w);
    GuestMore(shared, 0, r);
    hide Overlap, Exec;
    Append(l, run, first, shared, r + 1, w - 1, n);
    more := run + [first];
  }

  lemma Opening(l: Limits, shared: Shared, n: nat)
    ensures At(l, [], shared, 0, 0, n)
  {
    assert Guests(shared, 0, 0) == {};
    assert Having({}, shared) == {};
  }

  // max - 1 clients one after the other, then n that all pass the check before any registers.
  lemma OvershootReached(l: Limits, shared: Shared, n: nat) returns (run: seq<Attempt>)
    requires LimitOn(l, shared) > 0 && n > 0 && LimitOn(l, shared) + n <= MAX_INT64
    ensures Overlap(l, run, shared, n)
    ensures |Having(Exec(l, run).clients, shared)| == LimitOn(l, shared) + n - 1
  {
    hide At, Overlap, Exec;
    var limit := LimitOn(l, shared);
    run := [];
    Opening(l, shared, n);
    for r := 0 to limit - 1
      invariant At(l, run, shared, r, 0, n)
    {
      run := Enter(l, run, shared, r, 0, n);
      run := Arrive(l, run, shared, r, 1, n);
    }
    for w := 0 to n
      invariant At(l, run, shared, limit - 1, w, n)
    {
      run := Enter(l, run, shared, limit - 1, w, n);
    }
    for done := 0 to n
      invariant At(l, run, shared, limit - 1 + done, n - done, n)
    {
      run := Arrive(l, run, shared, limit - 1 + done, n - done, n);
    }
    Counted(l, run, shared, limit + n - 1, n);
  }

  lemma Counted(l: Limits, run: seq<Attempt>, shared: Shared, r: nat, n: nat)
    requires At(l, run, shared, r, 0, n)
    ensures Overlap(l, run, shared, n) && |Having(Exec(l, run).clients, shared)| == r
  {
    GuestCount(shared, 0, r);
    AllShare(shared, 0, r);
  }
}
