// Access tokens: issue, validate, refresh by rotation, suspension (internal/auth/token.go,
// pkg/jwt/jwt.go). Signing is a foreign call: a token is an id that either was issued or was not.
// Times are whole microseconds, the resolution of the timestamps the database keeps.
module Tokens {
  import opened Base

  const SECOND: int := 1_000_000

  // RFC 7519, sections 4.1.4, 4.1.6 and 4.1.7: exp, iat, jti. Both times are cut to whole seconds.
  datatype Claims = Claims(id: nat, user: int64, app: int64, keyEnv: string, issuedAt: int, expiresAt: int)

  // What is remembered of an issued token: when, and the first token of its refresh family.
  datatype Issued = Issued(claims: Claims, at: int, family: nat)

  // users.suspended_at and users.tokens_invalidated_at
  datatype AuthState = AuthState(suspendedAt: Option<int>, invalidatedAt: Option<int>)

  datatype Config = Config(ttl: nat, grace: nat)

  datatype State = State(
    users: map<int64, AuthState>,
    revoked: set<nat>,
    issued: seq<Issued>,
    pending: map<nat, nat>)      // refreshes past their checks: call -> token

  datatype Failure = Forged | Expired | Revoked | UnknownUser | Suspended

  datatype Outcome = Accepted(user: int64, app: int64, lane: string) | Rejected(why: Failure)

  // A refresh is two steps: other requests run between its checks and its writes.
  datatype Event =
    | Register(user: int64, now: int)
    | Issue(user: int64, app: int64, sandbox: bool, now: int)
    | IssueLegacy(user: int64, app: int64, now: int)   // by an older release: no key_env claim
    | BeginRefresh(call: nat, token: nat, now: int)
    | FinishRefresh(call: nat, now: int)
    | Suspend(user: int64, now: int)
    | Unsuspend(user: int64, now: int)

  const START := State(map[], {}, [], map[])

  function FloorSecond(t: int): (r: int)
    ensures r <= t < r + SECOND && r % SECOND == 0 && (t >= 0 ==> r >= 0)
  {
    t - t % SECOND
  }

  function KeyEnv(app: int64, sandbox: bool): string {
    if app > 0 then if sandbox then "sandbox" else "live" else ""
  }

  // The data lane a token speaks for.
  function Lane(c: Claims): string {
    if c.app > 0 && c.keyEnv == "" then "live" else c.keyEnv
  }

  // GenerateSessionToken
  function NewClaims(config: Config, id: nat, user: int64, app: int64, keyEnv: string, now: int): Claims {
    Claims(id, user, app, keyEnv, FloorSecond(now), FloorSecond(now + config.ttl))
  }

  // The checks validation and refresh share.
  function Standing(s: State, c: Claims): Option<Failure> {
    if c.id in s.revoked then Some(Revoked)
    else if c.user !in s.users then Some(UnknownUser)
    else if s.users[c.user].suspendedAt.Some? then Some(Suspended)
    else if s.users[c.user].invalidatedAt.Some? && c.issuedAt < s.users[c.user].invalidatedAt.value then Some(Revoked)
    else None
  }

  // ValidateAccessToken
  function Validate(s: State, token: nat, now: int): Outcome {
    if token >= |s.issued| then Rejected(Forged)
    else
      var c := s.issued[token].claims;
      if c.expiresAt < now then Rejected(Expired)
      else match Standing(s, c)
        case Some(why) => Rejected(why)
        case None => Accepted(c.user, c.app, Lane(c))
  }

  // Whether Refresh gets past its checks.
  predicate Refreshable(config: Config, s: State, token: nat, now: int) {
    && token < |s.issued|
    && now - s.issued[token].claims.expiresAt <= config.grace
    && Standing(s, s.issued[token].claims).None?
  }

  function Next(config: Config, s: State, e: Event): State {
    var id := |s.issued|;
    match e
    case Register(user, _) =>
      if user in s.users then s else s.(users := s.users[user := AuthState(None, None)])
    case Issue(user, app, sandbox, now) =>
      s.(issued := s.issued + [Issued(NewClaims(config, id, user, app, KeyEnv(app, sandbox), now), now, id)])
    case IssueLegacy(user, app, now) =>
      s.(issued := s.issued + [Issued(NewClaims(config, id, user, app, "", now), now, id)])
    case BeginRefresh(call, token, now) =>
      if call !in s.pending && Refreshable(config, s, token, now) then s.(pending := s.pending[call := token]) else s
    case FinishRefresh(call, now) =>
      if call in s.pending && s.pending[call] < id then
        var previous := s.issued[s.pending[call]].claims;
        var keyEnv := KeyEnv(previous.app, previous.keyEnv == "sandbox");
        State(s.users, s.revoked + {s.pending[call]},
              s.issued + [Issued(NewClaims(config, id, previous.user, previous.app, keyEnv, now), now,
                          s.issued[s.pending[call]].family)],
              s.pending - {call})
      else s
    case Suspend(user, now) =>
      if user in s.users then s.(users := s.users[user := AuthState(Some(now), Some(now))]) else s
    case Unsuspend(user, _) =>
      if user in s.users then s.(users := s.users[user := s.users[user].(suspendedAt := None)]) else s
  }

  function Exec(config: Config, run: seq<Event>): State {
    if run == [] then START else Next(config, Exec(config, Front(run)), Last(run))
  }

  // ---- Invariant ----

  predicate TokenOk(s: State, t: nat)
    requires t < |s.issued|
  {
    var i := s.issued[t];
    && i.claims.id == t
    && i.claims.issuedAt == FloorSecond(i.at)
    && i.claims.keyEnv in {"", "live", "sandbox"}
    && (i.claims.app <= 0 ==> i.claims.keyEnv == "")
    && i.family <= t
    && s.issued[i.family].family == i.family
    && var root := s.issued[i.family].claims;
       i.claims.user == root.user && i.claims.app == root.app && Lane(i.claims) == Lane(root)
  }

  predicate Inv(s: State) {
    && (forall t :: 0 <= t < |s.issued| ==> TokenOk(s, t))
    && (forall c :: c in s.pending ==> s.pending[c] < |s.issued|)
    && (forall t :: t in s.revoked ==> t < |s.issued|)
  }

  lemma StepKeeps(config: Config, s: State, e: Event)
    requires Inv(s)
    ensures Inv(Next(config, s, e))
    ensures s.issued <= Next(config, s, e).issued && s.revoked <= Next(config, s, e).revoked
  {
    hide FloorSecond;
    var t := Next(config, s, e);
    forall k | 0 <= k < |t.issued|
      ensures TokenOk(t, k)
    {
      if k < |s.issued| {
        assert TokenOk(s, k);
      } else if e.FinishRefresh? {
        assert TokenOk(s, s.pending[e.call]);
      }
    }
  }

  lemma {:induction false} Reachable(config: Config, run: seq<Event>)
    ensures Inv(Exec(config, run))
  {
    if run != [] {
      Reachable(config, Front(run));
      StepKeeps(config, Exec(config, Front(run)), Last(run));
    }
  }

  // ---- When a token is good ----

  lemma NewTimes(config: Config, s: State, e: Event)
    ensures var t := Next(config, s, e);
      || t.issued == s.issued
      || (var i := Last(t.issued);
          && t.issued == s.issued + [i]
          && i.claims.issuedAt == FloorSecond(i.at) && i.claims.expiresAt == FloorSecond(i.at + config.ttl))
  {
    hide FloorSecond, Refreshable;
  }

  lemma {:induction false} TimesOf(config: Config, run: seq<Event>, token: nat)
    requires token < |Exec(config, run).issued|
    ensures var i := Exec(config, run).issued[token];
      i.claims.issuedAt == FloorSecond(i.at) && i.claims.expiresAt == FloorSecond(i.at + config.ttl)
  {
    hide FloorSecond, Next;
    NewTimes(config, Exec(config, Front(run)), Last(run));
    if token < |Exec(config, Front(run)).issued| {
      TimesOf(config, Front(run), token);
    }
  }

  // On every run: a token is accepted if and only if it has not been rotated away, its user has a row and
  // is not suspended, its second of issue does not precede the invalidation of the user's tokens, and its
  // time to live, cut to whole seconds, is not over. To be refreshed it may be over by the grace period.
  lemma AcceptedIff(config: Config, run: seq<Event>, token: nat, now: int)
    requires token < |Exec(config, run).issued|
    ensures var s := Exec(config, run); var i := s.issued[token];
      var good :=
        && token !in s.revoked && i.claims.user in s.users && s.users[i.claims.user].suspendedAt == None
        && (s.users[i.claims.user].invalidatedAt.Some? ==>
              s.users[i.claims.user].invalidatedAt.value <= FloorSecond(i.at));
      && (Validate(s, token, now).Accepted? <==> good && now <= FloorSecond(i.at + config.ttl))
      && (Validate(s, token, now) == Rejected(Expired) <==> now > FloorSecond(i.at + config.ttl))
      && (Validate(s, token, now) == Rejected(UnknownUser) <==>
            now <= FloorSecond(i.at + config.ttl) && token !in s.revoked && i.claims.user !in s.users)
      && (Validate(s, token, now) == Rejected(Suspended) <==>
            && now <= FloorSecond(i.at + config.ttl) && token !in s.revoked
            && i.claims.user in s.users && s.users[i.claims.user].suspendedAt.Some?)
      && (Refreshable(config, s, token, now) <==> good && now <= FloorSecond(i.at + config.ttl) + config.grace)
  {
    Reachable(config, run);
    assert TokenOk(Exec(config, run), token);
    TimesOf(config, run, token);
    hide FloorSecond, Exec;
  }

  // ---- What is constant along a refresh chain ----

  // Whatever a token is accepted for, the first token of its family stood for: refreshing never
  // changes the user, the app or the lane, also across tokens of an older release.
  lemma LaneKept(config: Config, run: seq<Event>, token: nat, now: int)
    requires Validate(Exec(config, run), token, now).Accepted?
    ensures Exec(config, run).issued[token].family <= token
    ensures var s := Exec(config, run); var root := s.issued[s.issued[token].family].claims;
      && Validate(s, token, now) == Accepted(root.user, root.app, Lane(root))
      && (root.app > 0 <==> Lane(root) in {"live", "sandbox"}) && (root.app <= 0 <==> Lane(root) == "")
  {
    Reachable(config, run);
    var s := Exec(config, run);
    assert TokenOk(s, token);
    assert TokenOk(s, s.issued[token].family);
  }

  lemma {:induction false} IssuedStays(config: Config, run: seq<Event>, after: seq<Event>)
    ensures Exec(config, run).issued <= Exec(config, run + after).issued
  {
    if after == [] {
      assert run + after == run;
    } else {
      assert Front(run + after) == run + Front(after);
      IssuedStays(config, run, Front(after));
      hide FloorSecond, Standing, NewClaims;
    }
  }

  // Every token of the family a session token starts is accepted, if at all, for the user and the app it
  // was issued for, in the lane of its key.
  lemma IssuedFor(config: Config, before: seq<Event>, user: int64, app: int64, sandbox: bool, at: int,
                  after: seq<Event>, token: nat, now: int)
    requires var s := Exec(config, before + [Issue(user, app, sandbox, at)] + after);
      && token < |s.issued| && s.issued[token].family == |Exec(config, before).issued|
      && Validate(s, token, now).Accepted?
    ensures var s := Exec(config, before + [Issue(user, app, sandbox, at)] + after);
      Validate(s, token, now) == Accepted(user, app, if app <= 0 then "" else if sandbox then "sandbox" else "live")
  {
    var run, root := before + [Issue(user, app, sandbox, at)], |Exec(config, before).issued|;
    LaneKept(config, run + after, token, now);
    assert Front(run) == before;
    var i := Exec(config, run).issued[root];
    assert i.claims.user == user && i.claims.app == app;
    IssuedStays(config, run, after);
    assert Exec(config, run + after).issued[root] == i;
  }

  // ---- Rotation ----

  // The tokens of a family that have not been rotated away.
  function Live(s: State, family: nat): set<nat> {
    set t: nat | t < |s.issued| && s.issued[t].family == family && t !in s.revoked
  }

  // A refresh that writes although its token has been rotated away since it checked.
  predicate Repeated(s: State, e: Event, family: nat) {
    && e.FinishRefresh? && e.call in s.pending && s.pending[e.call] < |s.issued|
    && s.issued[s.pending[e.call]].family == family && s.pending[e.call] in s.revoked
  }

  function Repeats(config: Config, run: seq<Event>, family: nat): nat {
    if run == [] then 0
    else
      var more: nat := if Repeated(Exec(config, Front(run)), Last(run), family) then 1 else 0;
      Repeats(config, Front(run), family) + more
  }

  predicate IsFamily(s: State, family: nat) {
    family < |s.issued| && s.issued[family].family == family
  }

  lemma LiveAppend(s: State, t: State, i: Issued, gone: set<nat>, family: nat)
    requires t.issued == s.issued + [i] && t.revoked == s.revoked + gone
    requires forall k :: k in t.revoked ==> k < |s.issued|
    ensures Live(t, family) == Live(s, family) - gone + if i.family == family then {|s.issued|} else {}
  {
  }

  lemma FamilyAppend(s: State, t: State, i: Issued, family: nat)
    requires t.issued == s.issued + [i] && IsFamily(s, i.family)
    ensures IsFamily(t, family) <==> IsFamily(s, family)
  {
  }

  // A finished refresh adds a live token to its family, and takes one from it unless repeated.
  lemma LiveFinish(config: Config, s: State, call: nat, now: int, family: nat)
    requires Inv(s) && call in s.pending
    ensures var e := FinishRefresh(call, now); var t := Next(config, s, e);
      && |Live(t, family)| == |Live(s, family)| + (if Repeated(s, e, family) then 1 else 0)
      && (IsFamily(t, family) <==> IsFamily(s, family))
  {
    var token, was := s.pending[call], Live(s, family);
    FamilyIsOld(s, token);
    hide Inv, FloorSecond, NewClaims, TokenOk, Live, Standing, Refreshable;
    hide IsFamily;
    var t, id := Next(config, s, FinishRefresh(call, now)), |s.issued|;
    FamilyAppend(s, t, t.issued[id], family);
    LiveAppend(s, t, t.issued[id], {token}, family);
    InLive(s, id, family);
    InLive(s, token, family);
    if token in was {
      assert |was - {token}| == |was| - 1;
    } else {
      assert was - {token} == was;
    }
  }

  // Issuing starts a family with one live token.
  lemma LiveIssue(s: State, t: State, i: Issued, family: nat)
    requires Inv(s) && t == s.(issued := s.issued + [i]) && i.family == |s.issued|
    ensures |Live(t, family)| == |Live(s, family)| + if family == |s.issued| then 1 else 0
    ensures IsFamily(t, family) <==> IsFamily(s, family) || family == |s.issued|
  {
    InLive(s, |s.issued|, family);
    hide Inv, Live;
    LiveAppend(s, t, i, {}, family);
    assert Live(s, family) - {} == Live(s, family);
  }

  lemma LiveStep(config: Config, s: State, e: Event, family: nat)
    requires Inv(s)
    ensures var t := Next(config, s, e);
      |Live(t, family)| == |Live(s, family)|
        + (if Repeated(s, e, family) then 1 else 0)
        + (if IsFamily(t, family) && !IsFamily(s, family) then 1 else 0)
  {
    var t := Next(config, s, e);
    if e.FinishRefresh? && e.call in s.pending {
      LiveFinish(config, s, e.call, e.now, family);
    } else if t.issued != s.issued {
      hide Inv, Live;
      LiveIssue(s, t, t.issued[|s.issued|], family);
    } else {
      LiveSame(s, t, family);
    }
  }

  lemma InLive(s: State, token: nat, family: nat)
    ensures token in Live(s, family) <==>
      token < |s.issued| && s.issued[token].family == family && token !in s.revoked
  {
  }

  lemma LiveSame(s: State, t: State, family: nat)
    requires t.issued == s.issued && t.revoked == s.revoked
    ensures Live(t, family) == Live(s, family)
  {
  }

  lemma FamilyIsOld(s: State, token: nat)
    requires Inv(s) && token < |s.issued|
    ensures IsFamily(s, s.issued[token].family)
  {
    assert TokenOk(s, token);
  }

  // Exactly: a family has one live token, and one more for every refresh that wrote although
  // another refresh of the same token had written since it checked.
  lemma {:induction false} LiveTokens(config: Config, run: seq<Event>, family: nat)
    ensures var s := Exec(config, run);
      |Live(s, family)| == Repeats(config, run, family) + if IsFamily(s, family) then 1 else 0
  {
    if run == [] {
      assert Live(START, family) == {};
    } else {
      LiveTokens(config, Front(run), family);
      Reachable(config, Front(run));
      LiveStep(config, Exec(config, Front(run)), Last(run), family);
    }
  }

  // No two refreshes of one token are ever under way together.
  ghost predicate OneAtATime(config: Config, run: seq<Event>) {
    && (forall c, d :: var p := Exec(config, run).pending; c in p && d in p && p[c] == p[d] ==> c == d)
    && (run == [] || OneAtATime(config, Front(run)))
  }

  predicate NonePendingRevoked(s: State) {
    forall c :: c in s.pending ==> s.pending[c] !in s.revoked
  }

  lemma {:induction false} PendingUnrevoked(config: Config, run: seq<Event>)
    requires OneAtATime(config, run)
    ensures NonePendingRevoked(Exec(config, run))
  {
    if run != [] {
      PendingUnrevoked(config, Front(run));
      Reachable(config, Front(run));
      var s, e := Exec(config, Front(run)), Last(run);
      if e.FinishRefresh? && e.call in s.pending {
        forall c | c in s.pending && c != e.call
          ensures s.pending[c] != s.pending[e.call]
        {
          assert OneAtATime(config, Front(run));
        }
      } else if e.BeginRefresh? && e.token < |s.issued| {
        assert TokenOk(s, e.token);
      }
    }
  }

  lemma {:induction false} NoRepeats(config: Config, run: seq<Event>, family: nat)
    requires OneAtATime(config, run)
    ensures Repeats(config, run, family) == 0
  {
    if run != [] {
      NoRepeats(config, Front(run), family);
      PendingUnrevoked(config, Front(run));
      assert !Repeated(Exec(config, Front(run)), Last(run), family);
    }
  }

  // So when refreshes of one token do not overlap, each family is a chain with exactly one live
  // token, and nothing but that token is accepted.
  lemma OneLiveToken(config: Config, run: seq<Event>, a: nat, b: nat, now: int, later: int)
    requires OneAtATime(config, run)
    requires var s := Exec(config, run);
      Validate(s, a, now).Accepted? && Validate(s, b, later).Accepted? && s.issued[a].family == s.issued[b].family
    ensures a == b
  {
    Reachable(config, run);
    var s := Exec(config, run);
    var family := s.issued[a].family;
    LiveTokens(config, run, family);
    NoRepeats(config, run, family);
    assert TokenOk(s, a) && TokenOk(s, b);
    assert a in Live(s, family) && b in Live(s, family);
    var rest := Live(s, family) - {a};
    assert |rest| == 0;
    assert b !in rest;
  }

  lemma Append(config: Config, run: seq<Event>, e: Event)
    ensures Exec(config, run + [e]) == Next(config, Exec(config, run), e)
  {
    assert Front(run + [e]) == run;
  }

  const OVERLAP: seq<Event> :=
    [Register(1, 0)] + [Issue(1, 0, false, 0)] + [BeginRefresh(0, 0, 0)] + [BeginRefresh(1, 0, 0)]

  lemma Overlap(config: Config)
    ensures Exec(config, OVERLAP) == State(map[1 := AuthState(None, None)], {},
                                           [Issued(NewClaims(config, 0, 1, 0, "", 0), 0, 0)], map[0 := 0, 1 := 0])
  {
    hide Exec;
    var r1: seq<Event> := [Register(1, 0)];
    var r2 := r1 + [Issue(1, 0, false, 0)];
    assert Exec(config, r1) == State(map[1 := AuthState(None, None)], {}, [], map[]) by {
      assert Exec(config, []) == START by { Empty(config); }
      Append(config, [], r1[0]);
      assert [] + [r1[0]] == r1;
    }
    Append(config, r1, Issue(1, 0, false, 0));
    Append(config, r2, BeginRefresh(0, 0, 0));
    Append(config, r2 + [BeginRefresh(0, 0, 0)], BeginRefresh(1, 0, 0));
  }

  lemma Empty(config: Config)
    ensures Exec(config, []) == START
  {
  }

  // Two overlapping refreshes leave a family with two live tokens.
  lemma OverlapForks(config: Config)
    ensures |Live(Exec(config, OVERLAP + [FinishRefresh(0, 0)] + [FinishRefresh(1, 0)]), 0)| == 2
  {
    hide Exec;
    Overlap(config);
    Append(config, OVERLAP, FinishRefresh(0, 0));
    Append(config, OVERLAP + [FinishRefresh(0, 0)], FinishRefresh(1, 0));
    var s := Exec(config, OVERLAP + [FinishRefresh(0, 0)] + [FinishRefresh(1, 0)]);
    assert |s.issued| == 3 && s.revoked == {0};
    assert Live(s, 0) == {1, 2};
  }

  // ---- Suspension ----

  predicate Ordered(run: seq<Event>) {
    run == [] || (Ordered(Front(run)) && (Front(run) == [] || Last(Front(run)).now <= Last(run).now))
  }

  // From a suspension on, the invalidation time stands at its time or later.
  lemma {:induction false} InvalidationStands(config: Config, before: seq<Event>, user: int64, at: int,
                                              after: seq<Event>)
    requires user in Exec(config, before).users
    requires Ordered(before + [Suspend(user, at)] + after)
    ensures var s := Exec(config, before + [Suspend(user, at)] + after);
      && user in s.users && s.users[user].invalidatedAt.Some?
      && at <= s.users[user].invalidatedAt.value <= Last(before + [Suspend(user, at)] + after).now
      && Exec(config, before).issued <= s.issued
  {
    hide FloorSecond, NewClaims, TokenOk, Standing;
    var run := before + [Suspend(user, at)] + after;
    if after == [] {
      assert run == before + [Suspend(user, at)] && Front(run) == before;
    } else {
      assert Front(run) == before + [Suspend(user, at)] + Front(after);
      InvalidationStands(config, before, user, at, Front(after));
    }
  }

  // No token issued before a suspension is accepted, or passes the checks of a refresh, at any time
  // after it, also once the suspension has been lifted. A suspension acts on a row of the users table.
  lemma SuspensionIsFinal(config: Config, before: seq<Event>, user: int64, at: int, after: seq<Event>,
                          token: nat, now: int)
    requires Ordered(before + [Suspend(user, at)] + after)
    requires var s := Exec(config, before);
      && user in s.users
      && token < |s.issued| && s.issued[token].claims.user == user && s.issued[token].at < at
    ensures var s := Exec(config, before + [Suspend(user, at)] + after);
      Validate(s, token, now).Rejected? && !Refreshable(config, s, token, now)
  {
    Reachable(config, before);
    assert TokenOk(Exec(config, before), token);
    InvalidationStands(config, before, user, at, after);
  }

  predicate Lifted(after: seq<Event>, user: int64) {
    exists i :: 0 <= i < |after| && after[i].Unsuspend? && after[i].user == user
  }

  lemma {:induction false} StaysSuspended(config: Config, before: seq<Event>, user: int64, at: int, after: seq<Event>)
    requires user in Exec(config, before).users && !Lifted(after, user)
    ensures var s := Exec(config, before + [Suspend(user, at)] + after);
      user in s.users && s.users[user].suspendedAt.Some?
  {
    hide NewClaims, Standing;
    var run := before + [Suspend(user, at)] + after;
    if after == [] {
      assert run == before + [Suspend(user, at)] && Front(run) == before;
    } else {
      assert Front(run) == before + [Suspend(user, at)] + Front(after);
      assert forall i :: 0 <= i < |after| - 1 ==> Front(after)[i] == after[i];
      assert Last(run) == after[|after| - 1];
      StaysSuspended(config, before, user, at, Front(after));
    }
  }

  // While a suspension lasts no token of the user is accepted or can begin a refresh, whenever issued.
  lemma SuspendedIsRefused(config: Config, before: seq<Event>, user: int64, at: int, after: seq<Event>,
                           token: nat, now: int)
    requires user in Exec(config, before).users && !Lifted(after, user)
    requires var s := Exec(config, before + [Suspend(user, at)] + after);
      token < |s.issued| && s.issued[token].claims.user == user
    ensures var s := Exec(config, before + [Suspend(user, at)] + after);
      Validate(s, token, now).Rejected? && !Refreshable(config, s, token, now)
  {
    StaysSuspended(config, before, user, at, after);
  }

  // ---- Which refresh families outlive a suspension ----

  // A refresh of the family is between its checks and its writes.
  predicate InFlight(s: State, family: nat) {
    exists c :: c in s.pending && s.pending[c] < |s.issued| && s.issued[s.pending[c]].family == family
  }

  // A live token of the family whose second of issue began no earlier than the suspension, which
  // before the suspension means: on its very tick.
  predicate Spared(s: State, family: nat, at: int) {
    exists t: nat :: t < |s.issued| && t in Live(s, family) && s.issued[t].claims.issuedAt >= at
  }

  ghost predicate Alive(s: State, family: nat) {
    exists token: nat, now: int ::
      token < |s.issued| && s.issued[token].family == family && Validate(s, token, now).Accepted?
  }

  // Nothing of the family can be accepted any more, nor refreshed.
  predicate Dead(s: State, family: nat, user: int64, at: int) {
    && user in s.users && s.users[user].invalidatedAt.Some? && s.users[user].invalidatedAt.value >= at
    && IsFamily(s, family)
    && !InFlight(s, family)
    && forall t :: 0 <= t < |s.issued| && s.issued[t].family == family ==>
         s.issued[t].claims.user == user && (t in s.revoked || s.issued[t].claims.issuedAt < at)
  }

  lemma SuspensionKills(config: Config, s: State, family: nat, user: int64, at: int)
    requires Inv(s) && user in s.users && IsFamily(s, family) && s.issued[family].claims.user == user
    requires !InFlight(s, family) && !Spared(s, family, at)
    ensures Dead(Next(config, s, Suspend(user, at)), family, user, at)
  {
    forall t | 0 <= t < |s.issued| && s.issued[t].family == family
      ensures s.issued[t].claims.user == user && (t in s.revoked || s.issued[t].claims.issuedAt < at)
    {
      assert TokenOk(s, t);
      InLive(s, t, family);
    }
  }

  lemma DeadStep(config: Config, s: State, e: Event, family: nat, user: int64, at: int)
    requires Inv(s) && Dead(s, family, user, at) && (e.Suspend? ==> at <= e.now)
    ensures Dead(Next(config, s, e), family, user, at)
  {
    hide FloorSecond, NewClaims;
    var t := Next(config, s, e);
    if e.BeginRefresh? && e.token < |s.issued| {
      assert TokenOk(s, e.token);
    }
    if e.FinishRefresh? && e.call in s.pending {
      assert s.issued[s.pending[e.call]].family != family;
    }
    forall c | c in t.pending && t.pending[c] < |t.issued|
      ensures t.issued[t.pending[c]].family != family
    {
      assert c in s.pending ==> s.pending[c] < |s.issued|;
    }
  }

  lemma {:induction false} DeadStays(config: Config, before: seq<Event>, user: int64, at: int, family: nat,
                                     after: seq<Event>)
    requires Ordered(before + [Suspend(user, at)] + after)
    requires Dead(Exec(config, before + [Suspend(user, at)]), family, user, at)
    ensures Dead(Exec(config, before + [Suspend(user, at)] + after), family, user, at)
    ensures at <= Last(before + [Suspend(user, at)] + after).now
  {
    hide Dead, Next;
    var run := before + [Suspend(user, at)] + after;
    if after == [] {
      assert run == before + [Suspend(user, at)];
    } else {
      assert Front(run) == before + [Suspend(user, at)] + Front(after);
      DeadStays(config, before, user, at, family, Front(after));
      Reachable(config, Front(run));
      DeadStep(config, Exec(config, Front(run)), Last(run), family, user, at);
    }
  }

  lemma DeadIsNotAlive(s: State, family: nat, user: int64, at: int)
    requires Inv(s) && Dead(s, family, user, at)
    ensures !Alive(s, family)
  {
    forall token: nat, now: int | token < |s.issued| && s.issued[token].family == family
      ensures !Validate(s, token, now).Accepted?
    {
      assert TokenOk(s, token);
    }
  }

  // What runs after the suspension: the refresh writes in the next second, and the suspension is lifted.
  function Afterwards(call: nat, user: int64, at: int): seq<Event> {
    [FinishRefresh(call, FloorSecond(at) + SECOND), Unsuspend(user, FloorSecond(at) + SECOND)]
  }

  lemma LateWrite(config: Config, s: State, user: int64, at: int, call: nat)
    requires Inv(s) && user in s.users && call in s.pending && s.issued[s.pending[call]].claims.user == user
    ensures var later := FloorSecond(at) + SECOND;
      var written := Next(config, Next(config, s, Suspend(user, at)), FinishRefresh(call, later));
      var t := Next(config, written, Unsuspend(user, later));
      && |t.issued| == |s.issued| + 1 && t.issued[|s.issued|].family == s.issued[s.pending[call]].family
      && Validate(t, |s.issued|, later).Accepted?
  {
    var later := FloorSecond(at) + SECOND;
    WholeSeconds(later, config.ttl);
    assert at < later && s.pending[call] < |s.issued|;
    assert |s.issued| !in s.revoked;
    hide FloorSecond, Refreshable, Inv;
  }

  // Every refresh in flight at a suspension can outlive it.
  lemma RefreshInFlightOutlives(config: Config, before: seq<Event>, user: int64, at: int, call: nat)
    requires Ordered(before + [Suspend(user, at)])
    requires var s := Exec(config, before);
      && user in s.users && call in s.pending && s.pending[call] < |s.issued|
      && s.issued[s.pending[call]].claims.user == user
    ensures var run := before + [Suspend(user, at)] + Afterwards(call, user, at);
      var s, successor := Exec(config, run), |Exec(config, before).issued|;
      && Ordered(run) && |s.issued| == successor + 1
      && s.issued[successor].family == Exec(config, before).issued[Exec(config, before).pending[call]].family
      && Validate(s, successor, FloorSecond(at) + SECOND).Accepted?
  {
    var later := FloorSecond(at) + SECOND;
    Reachable(config, before);
    var s0, r1 := Exec(config, before), before + [Suspend(user, at)];
    var r2 := r1 + [FinishRefresh(call, later)];
    var run := r2 + [Unsuspend(user, later)];
    assert run == r1 + Afterwards(call, user, at);
    OrderedAppend(r1, FinishRefresh(call, later));
    OrderedAppend(r2, Unsuspend(user, later));
    hide Exec, Ordered, Next, Inv, Validate, FloorSecond;
    Append(config, before, Suspend(user, at));
    Append(config, r1, FinishRefresh(call, later));
    Append(config, r2, Unsuspend(user, later));
    LateWrite(config, s0, user, at, call);
  }

  lemma OrderedAppend(run: seq<Event>, e: Event)
    requires Ordered(run) && (run != [] ==> Last(run).now <= e.now)
    ensures Ordered(run + [e])
  {
    assert Front(run + [e]) == run;
  }

  lemma WholeSeconds(t: int, ttl: nat)
    requires t % SECOND == 0
    ensures FloorSecond(t) == t && FloorSecond(t + ttl) >= t
  {
  }

  // A spared token is accepted as soon as the suspension is lifted.
  lemma SparedOutlives(config: Config, before: seq<Event>, user: int64, at: int, family: nat)
    requires Ordered(before + [Suspend(user, at)])
    requires var s := Exec(config, before);
      && user in s.users && IsFamily(s, family) && s.issued[family].claims.user == user && Spared(s, family, at)
    ensures var run := before + [Suspend(user, at)] + [Unsuspend(user, at)];
      Ordered(run) && Alive(Exec(config, run), family)
  {
    var s0, r1 := Exec(config, before), before + [Suspend(user, at)];
    var run := r1 + [Unsuspend(user, at)];
    OrderedAppend(r1, Unsuspend(user, at));
    Reachable(config, before);
    var t: nat :| t < |s0.issued| && t in Live(s0, family) && s0.issued[t].claims.issuedAt >= at;
    assert TokenOk(s0, t);
    ExpiryAfterIssue(config, before, t);
    hide Exec, Ordered, TokenOk;
    Append(config, before, Suspend(user, at));
    Append(config, r1, Unsuspend(user, at));
    assert Validate(Exec(config, run), t, at).Accepted?;
  }

  lemma ExpiryAfterIssue(config: Config, run: seq<Event>, token: nat)
    requires token < |Exec(config, run).issued|
    ensures var c := Exec(config, run).issued[token].claims; c.issuedAt <= c.expiresAt
  {
    TimesOf(config, run, token);
    hide Exec, FloorSecond;
    FloorMonotone(Exec(config, run).issued[token].at, Exec(config, run).issued[token].at + config.ttl);
  }

  lemma FloorMonotone(t: int, u: int)
    requires t <= u
    ensures FloorSecond(t) <= FloorSecond(u)
  {
    assert t / SECOND <= u / SECOND;
  }

  // Exactly: after a suspension some run makes a family acceptable again if and only if one of its
  // refreshes was in flight, or a live token of it was issued on the very tick of the suspension.
  lemma FamilyOutlivesIff(config: Config, before: seq<Event>, user: int64, at: int, family: nat)
    requires Ordered(before + [Suspend(user, at)])
    requires var s := Exec(config, before);
      user in s.users && IsFamily(s, family) && s.issued[family].claims.user == user
    ensures (exists after :: Outlives(config, before, user, at, family, after)) <==>
            InFlight(Exec(config, before), family) || Spared(Exec(config, before), family, at)
  {
    var s := Exec(config, before);
    if InFlight(s, family) {
      var call :| call in s.pending && s.pending[call] < |s.issued| && s.issued[s.pending[call]].family == family;
      Reachable(config, before);
      assert TokenOk(s, s.pending[call]);
      RefreshInFlightOutlives(config, before, user, at, call);
      assert Outlives(config, before, user, at, family, Afterwards(call, user, at));
    } else if Spared(s, family, at) {
      SparedOutlives(config, before, user, at, family);
      assert Outlives(config, before, user, at, family, [Unsuspend(user, at)]);
    } else {
      forall after
        ensures !Outlives(config, before, user, at, family, after)
      {
        if Ordered(before + [Suspend(user, at)] + after) {
          FamilyIsOver(config, before, user, at, family, after);
        }
      }
    }
  }

  ghost predicate Outlives(config: Config, before: seq<Event>, user: int64, at: int, family: nat, after: seq<Event>) {
    var run := before + [Suspend(user, at)] + after;
    Ordered(run) && Alive(Exec(config, run), family)
  }

  // When no refresh of a family is in flight at a suspension, and no live token of it was issued on
  // the suspension's tick, no token of the family, old or new, is ever accepted again.
  lemma FamilyIsOver(config: Config, before: seq<Event>, user: int64, at: int, family: nat, after: seq<Event>)
    requires Ordered(before + [Suspend(user, at)] + after)
    requires var s := Exec(config, before);
      && user in s.users && IsFamily(s, family) && s.issued[family].claims.user == user
      && !InFlight(s, family) && !Spared(s, family, at)
    ensures !Alive(Exec(config, before + [Suspend(user, at)] + after), family)
  {
    hide FloorSecond, Dead, Alive, InFlight, Spared, IsFamily, Live, Inv;
    Reachable(config, before);
    SuspensionKills(config, Exec(config, before), family, user, at);
    Append(config, before, Suspend(user, at));
    DeadStays(config, before, user, at, family, after);
    Reachable(config, before + [Suspend(user, at)] + after);
    DeadIsNotAlive(Exec(config, before + [Suspend(user, at)] + after), family, user, at);
  }

  // A run of that kind: a refresh checked before the suspension and written after it leaves a token
  // that is accepted once the suspension is lifted.
  lemma InFlightRun(config: Config)
    ensures var run := OVERLAP + [Suspend(1, 0)] + Afterwards(0, 1, 0);
      && |Exec(config, OVERLAP).issued| == 1
      && 0 in Exec(config, OVERLAP).pending && Exec(config, OVERLAP).pending[0] == 0
      && |Exec(config, run).issued| == 2 && Validate(Exec(config, run), 1, SECOND).Accepted?
  {
    Overlap(config);
    hide Exec;
    assert Ordered(OVERLAP + [Suspend(1, 0)]) by { OverlapOrdered(); }
    RefreshInFlightOutlives(config, OVERLAP, 1, 0, 0);
  }

  lemma OverlapOrdered()
    ensures Ordered(OVERLAP + [Suspend(1, 0)])
  {
    var r1: seq<Event> := [Register(1, 0)];
    var r2 := r1 + [Issue(1, 0, false, 0)];
    var r3 := r2 + [BeginRefresh(0, 0, 0)];
    var r4 := r3 + [BeginRefresh(1, 0, 0)];
    OrderedAppend([], Register(1, 0));
    assert [] + [Register(1, 0)] == r1;
    hide Ordered;
    OrderedAppend(r1, Issue(1, 0, false, 0));
    OrderedAppend(r2, BeginRefresh(0, 0, 0));
    OrderedAppend(r3, BeginRefresh(1, 0, 0));
    OrderedAppend(r4, Suspend(1, 0));
  }

  // ---- What a lifted suspension lets through ----

  function AuthOf(s: State, user: int64): AuthState {
    if user in s.users then s.users[user] else AuthState(None, None)
  }

  // Which tokens a lifted suspension lets through, for a token that is otherwise good: those whose
  // second of issue began no earlier than the suspension. One issued after the suspension but in
  // the same second is refused too.
  lemma AfterUnsuspend(config: Config, run: seq<Event>, token: nat, now: int)
    requires var s := Exec(config, run);
      && token < |s.issued| && token !in s.revoked && now <= s.issued[token].claims.expiresAt
      && AuthOf(s, s.issued[token].claims.user).suspendedAt.None?
      && AuthOf(s, s.issued[token].claims.user).invalidatedAt.Some?
    ensures var s := Exec(config, run);
      var i, suspended := s.issued[token], AuthOf(s, s.issued[token].claims.user).invalidatedAt.value;
      && (Validate(s, token, now).Accepted? <==> FloorSecond(i.at) >= suspended)
      && (suspended <= i.at && Validate(s, token, now).Rejected? ==> i.at - suspended < SECOND)
  {
    Reachable(config, run);
    assert TokenOk(Exec(config, run), token);
  }

  // ---- The service ----

  class Service {
    const config: Config
    var users: map<int64, AuthState>
    var revoked: set<nat>
    var drawn: nat                 // jti values handed out
    ghost var issued: seq<Issued>  // in the hands of clients
    ghost var run: seq<Event>

    ghost function Now(): State
      reads this
    {
      State(users, revoked, issued, map[])
    }

    ghost predicate Valid()
      reads this
    {
      drawn == |issued| && Now() == Exec(config, run)
    }

    // The claims of a presented token, or none when its signature is bad. Nobody else can sign.
    ghost predicate Presented(token: Option<Claims>)
      reads this
    {
      token.Some? ==> token.value.id < |issued| && issued[token.value.id].claims == token.value
    }

    constructor (config: Config)
      ensures Valid() && this.config == config && run == []
    {
      this.config := config;
      users, revoked, drawn, issued, run := map[], {}, 0, [], [];
    }

    // Appending an event to a run performs it.
    ghost method Log(e: Event)
      requires Now() == Next(config, Exec(config, run), e)
      modifies this`run
      ensures run == old(run) + [e] && Now() == Exec(config, run)
    {
      run := run + [e];
      assert Front(run) == old(run);
    }

    method GenerateSessionToken(user: int64, app: int64, sandbox: bool, now: int) returns (token: Claims)
      requires Valid()
      modifies this
      ensures Valid() && run == old(run) + [Issue(user, app, sandbox, now)]
      ensures Presented(Some(token))
      ensures token == Claims(|old(issued)|, user, app, if app <= 0 then "" else if sandbox then "sandbox" else "live",
                              FloorSecond(now), FloorSecond(now + config.ttl))
      ensures users == old(users) && revoked == old(revoked)
    {
      var keyEnv := "";
      if app > 0 {
        keyEnv := "live";
        if sandbox {
          keyEnv := "sandbox";
        }
      }
      token := Claims(drawn, user, app, keyEnv, FloorSecond(now), FloorSecond(now + config.ttl));
      issued := issued + [Issued(token, now, drawn)];
      drawn := drawn + 1;
      Log(Issue(user, app, sandbox, now));
    }

    // The checks after the claims have been read.
    method CheckStanding(c: Claims) returns (why: Option<Failure>)
      ensures why == Standing(Now(), c)
    {
      if c.id in revoked {
        return Some(Revoked);
      }
      if c.user !in users {
        return Some(UnknownUser);
      }
      var state := users[c.user];
      if state.suspendedAt.Some? {
        return Some(Suspended);
      }
      if state.invalidatedAt.Some? {
        if c.issuedAt < state.invalidatedAt.value {
          return Some(Revoked);
        }
      }
      return None;
    }

    method ValidateAccessToken(token: Option<Claims>, now: int) returns (outcome: Outcome)
      requires Valid() && Presented(token)
      ensures token.None? ==> outcome == Rejected(Forged)
      ensures token.Some? ==> outcome == Validate(Exec(config, run), token.value.id, now)
    {
      if token.None? {
        return Rejected(Forged);
      }
      var c := token.value;
      if c.expiresAt < now {
        return Rejected(Expired);
      }
      var why := CheckStanding(c);
      if why.Some? {
        return Rejected(why.value);
      }
      var keyEnv := c.keyEnv;
      if c.app > 0 && keyEnv == "" {
        keyEnv := "live";
      }
      return Accepted(c.user, c.app, keyEnv);
    }

    // Refresh with nothing running in between.
    method Refresh(token: Option<Claims>, now: int) returns (fresher: Option<Claims>)
      requires Valid() && Presented(token)
      modifies this
      ensures Valid() && users == old(users)
      ensures fresher.Some? <==> token.Some? && Refreshable(config, Exec(config, old(run)), token.value.id, now)
      ensures fresher.None? ==> run == old(run)
      ensures fresher.Some? ==>
        && run == old(run) + [BeginRefresh(0, token.value.id, now), FinishRefresh(0, now)]
        && Presented(fresher)
        && fresher.value == Claims(
             |old(issued)|, token.value.user, token.value.app,
             if token.value.app <= 0 then "" else if token.value.keyEnv == "sandbox" then "sandbox" else "live",
             FloorSecond(now), FloorSecond(now + config.ttl))
        && revoked == old(revoked) + {token.value.id}
    {
      hide FloorSecond;
      if token.None? {
        return None;
      }
      var c := token.value;
      var expiredFor := now - c.expiresAt;
      if expiredFor > 0 && expiredFor > config.grace {
        return None;
      }
      var why := CheckStanding(c);
      if why.Some? {
        return None;
      }
      ghost var began := run + [BeginRefresh(0, c.id, now)];
      assert Front(began) == run;
      ghost var s := Exec(config, began);
      assert s == Now().(pending := map[0 := c.id]);
      var sandbox := c.keyEnv == "sandbox";
      var keyEnv := "";
      if c.app > 0 {
        keyEnv := "live";
        if sandbox {
          keyEnv := "sandbox";
        }
      }
      var next := Claims(drawn, c.user, c.app, keyEnv, FloorSecond(now), FloorSecond(now + config.ttl));
      issued := issued + [Issued(next, now, issued[c.id].family)];
      drawn := drawn + 1;
      revoked := revoked + {c.id};
      run := began + [FinishRefresh(0, now)];
      assert Front(run) == began;
      fresher := Some(next);
    }

    method SuspendUser(user: int64, now: int) returns (found: bool)
      requires Valid()
      modifies this
      ensures Valid() && run == old(run) + [Suspend(user, now)] && found == (user in old(users))
    {
      found := user in users;
      if found {
        users := users[user := AuthState(Some(now), Some(now))];
      }
      Log(Suspend(user, now));
    }

    method UnsuspendUser(user: int64, now: int) returns (found: bool)
      requires Valid()
      modifies this
      ensures Valid() && run == old(run) + [Unsuspend(user, now)] && found == (user in old(users))
    {
      found := user in users;
      if found {
        users := users[user := users[user].(suspendedAt := None)];
      }
      Log(Unsuspend(user, now));
    }
  }
}
