// ProvisionUser of the developer API, as database steps of concurrent calls that interleave in any
// order. Rows are never deleted; the unique indexes are what each insert is checked against.
module Provisioning {
  import opened Base
  import opened Text

  datatype Environment = Live | Sandbox

  datatype Key = Key(app: int64, environment: Environment, externalID: string)

  datatype User = User(email: string, username: string)

  datatype Phase =
    | Lookup                              // GetAppUserByExternalID
    | ByEmail                             // GetUserByEmail
    | Create                              // CreateUser
    | ByEmailAgain                        // after a unique violation
    | ByUsername
    | Join(user: nat, created: bool)      // ensureWorkspaceMember
    | Link(user: nat, created: bool)      // CreateAppUser
    | LinkedByExternalID(user: nat)       // after a unique violation
    | LinkedByUser(user: nat)
    | Done(result: Option<nat>)           // the user id, or an error

  datatype Call = Call(key: Key, email: string, username: string, phase: Phase)

  datatype State = State(
    users: map<nat, User>,
    links: map<Key, nat>,       // app_users
    calls: map<nat, Call>,
    creator: map<nat, nat>,     // the call that created each user
    provisioned: seq<nat>)      // users a user.provisioned event was sent for

  datatype Action =
    // Somebody registers without any app.
    | SignUp(user: nat, email: string, username: string)
    | Begin(call: nat, app: int64, environment: Environment, externalID: string, email: string, username: string)
    // pick is the id of a new row, or the row a username lookup returns; refused says that the
    // sandbox cap check, made after the first lookup, fails, or the one for workspace membership.
    | Advance(call: nat, pick: nat, refused: bool)

  const START := State(map[], map[], map[], map[], [])

  // The case folding the username lookup uses is left open.
  datatype Folding = Folding(lower: string -> string)

  predicate EmailTaken(s: State, email: string) {
    exists u :: u in s.users && s.users[u].email == email
  }

  predicate UsernameTaken(s: State, username: string) {
    exists u :: u in s.users && s.users[u].username == username
  }

  ghost function UserByEmail(s: State, email: string): nat
    requires EmailTaken(s, email)
  {
    var u :| u in s.users && s.users[u].email == email;
    u
  }

  // Some link of the app and environment already maps to the user.
  predicate UserLinked(s: State, key: Key, user: nat) {
    exists k :: k in s.links && k.app == key.app && k.environment == key.environment && s.links[k] == user
  }

  ghost function LinkOfUser(s: State, key: Key, user: nat): Key
    requires UserLinked(s, key, user)
  {
    var k :| k in s.links && k.app == key.app && k.environment == key.environment && s.links[k] == user;
    k
  }

  function Goto(s: State, id: nat, phase: Phase): State
    requires id in s.calls
  {
    s.(calls := s.calls[id := s.calls[id].(phase := phase)])
  }

  // Where a call goes from its phase, on what its query finds.
  ghost function NextPhase(f: Folding, s: State, c: Call, pick: nat, refused: bool): Phase {
    match c.phase
    case Lookup =>
      if c.key in s.links then Done(Some(s.links[c.key])) else if refused then Done(None) else ByEmail
    case ByEmail =>
      if EmailTaken(s, c.email) then Join(UserByEmail(s, c.email), false) else Create
    case Create =>
      if EmailTaken(s, c.email) || UsernameTaken(s, c.username) then ByEmailAgain
      else if pick in s.users then Create
      else Join(pick, true)
    case ByEmailAgain =>
      if EmailTaken(s, c.email) then Join(UserByEmail(s, c.email), false) else ByUsername
    case ByUsername =>
      if pick in s.users && f.lower(s.users[pick].username) == f.lower(c.username) then Join(pick, false)
      else if exists u :: u in s.users && f.lower(s.users[u].username) == f.lower(c.username) then ByUsername
      else Done(None)
    case Join(user, created) => if refused then Done(None) else Link(user, created)
    case Link(user, created) =>
      if c.key in s.links || UserLinked(s, c.key, user) then LinkedByExternalID(user) else Done(Some(user))
    case LinkedByExternalID(user) =>
      if c.key in s.links then Done(Some(s.links[c.key])) else LinkedByUser(user)
    case LinkedByUser(user) =>
      if UserLinked(s, c.key, user) && LinkOfUser(s, c.key, user).externalID == c.key.externalID then Done(Some(user))
      else Done(None)
    case Done(_) => c.phase
  }

  // The two inserts that succeed add a user's row, or a link.
  ghost function AdvanceCall(f: Folding, s: State, id: nat, pick: nat, refused: bool): State
    requires id in s.calls
  {
    var c := s.calls[id];
    var phase := NextPhase(f, s, c, pick, refused);
    var moved := Goto(s, id, phase);
    if c.phase.Create? && phase.Join? then
      moved.(users := s.users[pick := User(c.email, c.username)], creator := s.creator[pick := id])
    else if c.phase.Link? && phase.Done? then
      moved.(links := s.links[c.key := c.phase.user],
             provisioned := s.provisioned + if c.phase.created then [c.phase.user] else [])
    else moved
  }

  // A blank external id is refused at once.
  function NewCall(key: Key, email: string, username: string): Call {
    Call(key, email, username, if key.externalID == "" then Done(None) else Lookup)
  }

  ghost function Next(f: Folding, s: State, a: Action): State {
    match a
    case SignUp(user, email, username) =>
      if user in s.users || EmailTaken(s, email) || UsernameTaken(s, username) then s
      else s.(users := s.users[user := User(email, username)])
    case Begin(id, app, environment, externalID, email, username) =>
      if id in s.calls then s
      else s.(calls := s.calls[id := NewCall(Key(app, environment, TrimSpace(externalID)), email, username)])
    case Advance(id, pick, refused) =>
      if id in s.calls then AdvanceCall(f, s, id, pick, refused) else s
  }

  ghost function Exec(f: Folding, run: seq<Action>): State {
    if run == [] then START else Next(f, Exec(f, Front(run)), Last(run))
  }

  // ---- Invariant ----

  // External ids and users of one app and environment: at most one of either for the other.
  predicate Bijective(s: State) {
    forall k, l :: (k in s.links && l in s.links && k.app == l.app && k.environment == l.environment
                    && s.links[k] == s.links[l]) ==> k == l
  }

  // Emails and usernames are unique.
  predicate UsersUnique(s: State) {
    forall u, v :: (u in s.users && v in s.users
                    && (s.users[u].email == s.users[v].email || s.users[u].username == s.users[v].username)) ==> u == v
  }

  predicate CallOk(s: State, id: nat)
    requires id in s.calls
  {
    var c := s.calls[id];
    match c.phase
    case Done(Some(user)) => c.key in s.links && s.links[c.key] == user
    case Join(user, created) => user in s.users && (created ==> user in s.creator && s.creator[user] == id)
    case Link(user, created) => user in s.users && (created ==> user in s.creator && s.creator[user] == id)
    case _ => true
  }

  ghost predicate Inv(s: State) {
    && Bijective(s)
    && UsersUnique(s)
    && (forall id :: id in s.calls ==> CallOk(s, id))
    && (forall u :: u in s.creator ==> u in s.users && s.creator[u] in s.calls)
    && (forall i :: 0 <= i < |s.provisioned| ==>
          var u := s.provisioned[i];
          u in s.creator && s.calls[s.creator[u]].phase.Done?)
    && (forall i, j :: 0 <= i < j < |s.provisioned| ==> s.provisioned[i] != s.provisioned[j])
  }

  lemma SignUpKeeps(s: State, user: nat, email: string, username: string)
    requires Inv(s) && user !in s.users && !EmailTaken(s, email) && !UsernameTaken(s, username)
    ensures Inv(s.(users := s.users[user := User(email, username)]))
  {
    var t := s.(users := s.users[user := User(email, username)]);
    forall id | id in t.calls
      ensures CallOk(t, id)
    {
      assert CallOk(s, id);
    }
  }

  // A step that only moves a call on, to a phase its rows support.
  lemma GotoKeeps(s: State, id: nat, phase: Phase)
    requires Inv(s) && id in s.calls && !s.calls[id].phase.Done?
    requires CallOk(Goto(s, id, phase), id)
    ensures Inv(Goto(s, id, phase))
  {
    var t := Goto(s, id, phase);
    forall other | other in t.calls
      ensures CallOk(t, other)
    {
      assert other != id ==> CallOk(s, other);
    }
  }

  lemma CreatorKeeps(s: State, user: nat, id: nat)
    requires Inv(s) && user in s.users && user !in s.creator && id in s.calls
    ensures Inv(s.(creator := s.creator[user := id]))
  {
    var t := s.(creator := s.creator[user := id]);
    forall other | other in t.calls
      ensures CallOk(t, other)
    {
      assert CallOk(s, other);
    }
  }

  lemma CreateKeeps(s: State, id: nat, pick: nat)
    requires Inv(s) && id in s.calls && s.calls[id].phase == Create && pick !in s.users
    requires !EmailTaken(s, s.calls[id].email) && !UsernameTaken(s, s.calls[id].username)
    ensures Inv(Goto(s, id, Join(pick, true)).(
                  users := s.users[pick := User(s.calls[id].email, s.calls[id].username)],
                  creator := s.creator[pick := id]))
  {
    var withUser := s.(users := s.users[pick := User(s.calls[id].email, s.calls[id].username)]);
    SignUpKeeps(s, pick, s.calls[id].email, s.calls[id].username);
    assert pick !in s.creator;
    hide Inv;
    CreatorKeeps(withUser, pick, id);
    GotoKeeps(withUser.(creator := s.creator[pick := id]), id, Join(pick, true));
  }

  lemma LinksKeep(s: State, key: Key, user: nat)
    requires Inv(s) && key !in s.links && !UserLinked(s, key, user)
    ensures Inv(s.(links := s.links[key := user]))
  {
    var t := s.(links := s.links[key := user]);
    forall id | id in t.calls
      ensures CallOk(t, id)
    {
      assert CallOk(s, id);
    }
  }

  lemma AnnounceKeeps(s: State, user: nat)
    requires Inv(s) && user in s.creator && s.creator[user] in s.calls && s.calls[s.creator[user]].phase.Done?
    requires user !in s.provisioned
    ensures Inv(s.(provisioned := s.provisioned + [user]))
  {
    var t := s.(provisioned := s.provisioned + [user]);
    forall id | id in t.calls
      ensures CallOk(t, id)
    {
      assert CallOk(s, id);
    }
  }

  lemma LinkKeeps(s: State, id: nat)
    requires Inv(s) && id in s.calls && s.calls[id].phase.Link?
    requires var c := s.calls[id]; c.key !in s.links && !UserLinked(s, c.key, c.phase.user)
    ensures var c := s.calls[id];
      Inv(Goto(s, id, Done(Some(c.phase.user))).(
            links := s.links[c.key := c.phase.user],
            provisioned := s.provisioned + if c.phase.created then [c.phase.user] else []))
  {
    var c := s.calls[id];
    var user := c.phase.user;
    assert CallOk(s, id);
    assert c.phase.created ==> user !in s.provisioned;
    hide Inv, UserLinked;
    var linked := s.(links := s.links[c.key := user]);
    LinksKeep(s, c.key, user);
    GotoKeeps(linked, id, Done(Some(user)));
    if c.phase.created {
      AnnounceKeeps(Goto(linked, id, Done(Some(user))), user);
    } else {
      assert s.provisioned + [] == s.provisioned;
    }
  }

  lemma EmailRow(s: State, email: string)
    requires EmailTaken(s, email)
    ensures UserByEmail(s, email) in s.users && s.users[UserByEmail(s, email)].email == email
  {
  }

  // A call moves on to a phase that the rows it looked up support.
  lemma LookupMoves(f: Folding, s: State, id: nat, pick: nat, refused: bool)
    requires id in s.calls && CallOk(s, id)
    requires !s.calls[id].phase.Create? && !s.calls[id].phase.Link? && !s.calls[id].phase.Done?
    ensures CallOk(Goto(s, id, NextPhase(f, s, s.calls[id], pick, refused)), id)
  {
    hide EmailTaken, UsernameTaken, UserLinked;
    var c := s.calls[id];
    if EmailTaken(s, c.email) {
      EmailRow(s, c.email);
    }
    if c.phase.LinkedByUser? && UserLinked(s, c.key, c.phase.user) {
      LinkRow(s, c.key, c.phase.user);
    }
  }

  lemma LinkRow(s: State, key: Key, user: nat)
    requires UserLinked(s, key, user)
    ensures var k := LinkOfUser(s, key, user);
      k in s.links && k.app == key.app && k.environment == key.environment && s.links[k] == user
  {
  }

  lemma CreateAdvances(f: Folding, s: State, id: nat, pick: nat, refused: bool)
    requires Inv(s) && id in s.calls && s.calls[id].phase.Create?
    ensures Inv(AdvanceCall(f, s, id, pick, refused))
  {
    hide Inv, EmailTaken, UsernameTaken;
    var c := s.calls[id];
    if EmailTaken(s, c.email) || UsernameTaken(s, c.username) {
      GotoKeeps(s, id, ByEmailAgain);
    } else if pick !in s.users {
      CreateKeeps(s, id, pick);
    } else {
      GotoKeeps(s, id, Create);
    }
  }

  lemma LinkAdvances(f: Folding, s: State, id: nat, pick: nat, refused: bool)
    requires Inv(s) && id in s.calls && s.calls[id].phase.Link?
    ensures Inv(AdvanceCall(f, s, id, pick, refused))
  {
    hide Inv, UserLinked;
    var c := s.calls[id];
    if c.key in s.links || UserLinked(s, c.key, c.phase.user) {
      GotoKeeps(s, id, LinkedByExternalID(c.phase.user));
    } else {
      LinkKeeps(s, id);
    }
  }

  lemma AdvanceKeeps(f: Folding, s: State, id: nat, pick: nat, refused: bool)
    requires Inv(s) && id in s.calls
    ensures Inv(AdvanceCall(f, s, id, pick, refused))
  {
    assert CallOk(s, id);
    var c := s.calls[id];
    match c.phase
    case Create => CreateAdvances(f, s, id, pick, refused);
    case Link(_, _) => LinkAdvances(f, s, id, pick, refused);
    case Done(_) =>
      assert Goto(s, id, c.phase) == s;
    case _ =>
      LookupMoves(f, s, id, pick, refused);
      hide Inv, NextPhase, CallOk;
      GotoKeeps(s, id, NextPhase(f, s, c, pick, refused));
  }

  lemma {:induction false} Reachable(f: Folding, run: seq<Action>)
    ensures Inv(Exec(f, run))
  {
    if run != [] {
      Reachable(f, Front(run));
      var s := Exec(f, Front(run));
      match Last(run)
      case SignUp(user, email, username) =>
        if Next(f, s, Last(run)) != s {
          SignUpKeeps(s, user, email, username);
        }
      case Begin(id, _, _, _, _, _) =>
        var t := Next(f, s, Last(run));
        forall other | other in t.calls
          ensures CallOk(t, other)
        {
          assert other in s.calls ==> CallOk(s, other);
        }
      case Advance(id, pick, refused) =>
        if id in s.calls {
          AdvanceKeeps(f, s, id, pick, refused);
        }
    }
  }

  // ---- Whose user a call finds ----

  // The call was made with the user's email, or with its username in lower case.
  predicate Names(f: Folding, c: Call, u: User) {
    c.email == u.email || f.lower(c.username) == f.lower(u.username)
  }

  predicate OnUser(p: Phase) {
    p.Join? || p.Link? || p.LinkedByExternalID? || p.LinkedByUser?
  }

  ghost predicate NamedBy(f: Folding, s: State, key: Key, user: nat) {
    user in s.users && exists id :: id in s.calls && s.calls[id].key == key && Names(f, s.calls[id], s.users[user])
  }

  ghost predicate AllNamed(f: Folding, s: State) {
    && (forall id :: id in s.calls && OnUser(s.calls[id].phase) ==>
          s.calls[id].phase.user in s.users && Names(f, s.calls[id], s.users[s.calls[id].phase.user]))
    && (forall k :: k in s.links ==> NamedBy(f, s, k, s.links[k]))
  }

  // What a step does to the rows and to the calls.
  lemma AdvanceFrame(f: Folding, s: State, id: nat, pick: nat, refused: bool)
    requires id in s.calls
    ensures var t, c := AdvanceCall(f, s, id, pick, refused), s.calls[id];
      && id in t.calls && t.calls == s.calls[id := c.(phase := t.calls[id].phase)]
      && (t.users == s.users || (pick !in s.users && t.users == s.users[pick := User(c.email, c.username)]))
      && (t.links == s.links || (c.phase.Link? && t.links == s.links[c.key := c.phase.user]))
  {
    hide EmailTaken, UsernameTaken, UserLinked;
    assert s.calls[id].phase.Create? && NextPhase(f, s, s.calls[id], pick, refused).Join? ==> pick !in s.users;
    hide NextPhase;
  }

  // The user a step leads to is the one it led to before, or one the step found or created.
  lemma AdvanceNames(f: Folding, s: State, id: nat, pick: nat, refused: bool)
    requires id in s.calls
    requires var c := s.calls[id]; OnUser(c.phase) ==> c.phase.user in s.users && Names(f, c, s.users[c.phase.user])
    ensures var t, c := AdvanceCall(f, s, id, pick, refused), s.calls[id];
      OnUser(t.calls[id].phase) ==>
        t.calls[id].phase.user in t.users && Names(f, c, t.users[t.calls[id].phase.user])
  {
    var c := s.calls[id];
    if EmailTaken(s, c.email) {
      EmailRow(s, c.email);
    }
    hide EmailTaken, UsernameTaken, UserLinked, UserByEmail, LinkOfUser;
    var phase := NextPhase(f, s, c, pick, refused);
    assert OnUser(phase) && !(c.phase.Create? && phase.user == pick) ==>
      phase.user in s.users && Names(f, c, s.users[phase.user]);
    hide NextPhase;
  }

  // Rows of users and what calls were made with never change.
  lemma NamedByStays(f: Folding, s: State, t: State, key: Key, user: nat)
    requires NamedBy(f, s, key, user)
    requires forall u :: u in s.users ==> u in t.users && t.users[u] == s.users[u]
    requires forall id :: id in s.calls ==> id in t.calls && t.calls[id] == s.calls[id].(phase := t.calls[id].phase)
    ensures NamedBy(f, t, key, user)
  {
    var id :| id in s.calls && s.calls[id].key == key && Names(f, s.calls[id], s.users[user]);
    assert t.calls[id].key == key && Names(f, t.calls[id], t.users[user]);
  }

  // A new link is to the user its call was on.
  lemma LinksNamed(f: Folding, s: State, t: State, id: nat)
    requires AllNamed(f, s)
    requires forall u :: u in s.users ==> u in t.users && t.users[u] == s.users[u]
    requires forall c :: c in s.calls ==> c in t.calls && t.calls[c] == s.calls[c].(phase := t.calls[c].phase)
    requires t.links == s.links || (id in s.calls && s.calls[id].phase.Link?
                                    && t.links == s.links[s.calls[id].key := s.calls[id].phase.user])
    ensures forall k :: k in t.links ==> NamedBy(f, t, k, t.links[k])
  {
    hide NamedBy, Names;
    forall k | k in t.links
      ensures NamedBy(f, t, k, t.links[k])
    {
      if k in s.links && t.links[k] == s.links[k] {
        NamedByStays(f, s, t, k, s.links[k]);
      } else {
        assert NamedBy(f, s, k, t.links[k]) by { OnUserNamed(f, s, id); }
        NamedByStays(f, s, t, k, t.links[k]);
      }
    }
  }

  lemma OnUserNamed(f: Folding, s: State, id: nat)
    requires AllNamed(f, s) && id in s.calls && OnUser(s.calls[id].phase)
    ensures NamedBy(f, s, s.calls[id].key, s.calls[id].phase.user)
  {
  }

  lemma AdvanceNamed(f: Folding, s: State, id: nat, pick: nat, refused: bool)
    requires AllNamed(f, s) && id in s.calls
    ensures AllNamed(f, AdvanceCall(f, s, id, pick, refused))
  {
    AdvanceFrame(f, s, id, pick, refused);
    AdvanceNames(f, s, id, pick, refused);
    hide AdvanceCall, NamedBy, Names;
    var t := AdvanceCall(f, s, id, pick, refused);
    LinksNamed(f, s, t, id);
    forall other | other in t.calls && OnUser(t.calls[other].phase)
      ensures t.calls[other].phase.user in t.users
      ensures Names(f, t.calls[other], t.users[t.calls[other].phase.user])
    {
      SameNames(f, s.calls[other], t.calls[other]);
    }
  }

  lemma SameNames(f: Folding, c: Call, d: Call)
    requires d == c.(phase := d.phase)
    ensures forall u :: Names(f, c, u) <==> Names(f, d, u)
  {
  }

  lemma SignUpNamed(f: Folding, s: State, a: Action)
    requires AllNamed(f, s) && a.SignUp?
    ensures AllNamed(f, Next(f, s, a))
  {
    hide EmailTaken, UsernameTaken, Names, NamedBy;
    var t := Next(f, s, a);
    assert t.calls == s.calls && t.links == s.links;
    LinksNamed(f, s, t, 0);
  }

  lemma BeginNamed(f: Folding, s: State, a: Action)
    requires AllNamed(f, s) && a.Begin?
    ensures AllNamed(f, Next(f, s, a))
  {
    hide Names, NamedBy, TrimSpace;
    var t := Next(f, s, a);
    assert t.users == s.users && t.links == s.links;
    LinksNamed(f, s, t, 0);
  }

  lemma {:induction false} Named(f: Folding, run: seq<Action>)
    ensures AllNamed(f, Exec(f, run))
  {
    if run != [] {
      Named(f, Front(run));
      var s, a := Exec(f, Front(run)), Last(run);
      hide AllNamed, AdvanceCall;
      if a.SignUp? {
        SignUpNamed(f, s, a);
      } else if a.Begin? {
        BeginNamed(f, s, a);
      } else if a.call in s.calls {
        AdvanceNamed(f, s, a.call, a.pick, a.refused);
      }
    }
  }

  // ---- Main results, for every run ----

  // Every link was made for a call with its key and the linked user's email or, case aside, username.
  // A successful call returns the user its key is linked to.
  lemma LinkedUserIsNamed(f: Folding, run: seq<Action>, key: Key)
    requires key in Exec(f, run).links
    ensures var s := Exec(f, run); var user := s.links[key];
      && user in s.users
      && exists id :: id in s.calls && s.calls[id].key == key
           && (s.calls[id].email == s.users[user].email
               || f.lower(s.calls[id].username) == f.lower(s.users[user].username))
  {
    Named(f, run);
    var s := Exec(f, run);
    hide Exec;
    assert NamedBy(f, s, key, s.links[key]);
    var id :| id in s.calls && s.calls[id].key == key && Names(f, s.calls[id], s.users[s.links[key]]);
  }

  lemma ReturnedUserIsLinked(f: Folding, run: seq<Action>, id: nat)
    requires var s := Exec(f, run); id in s.calls && s.calls[id].phase.Done? && s.calls[id].phase.result.Some?
    ensures var s := Exec(f, run);
      s.calls[id].key in s.links && s.links[s.calls[id].key] == s.calls[id].phase.result.value
  {
    Reachable(f, run);
    assert CallOk(Exec(f, run), id);
  }

  // All calls for one app, environment and external id that succeed return the same user.
  lemma ProvisioningAgrees(f: Folding, run: seq<Action>, a: nat, b: nat)
    requires var s := Exec(f, run);
      && a in s.calls && s.calls[a].phase.Done? && s.calls[a].phase.result.Some?
      && b in s.calls && s.calls[b].phase.Done? && s.calls[b].phase.result.Some?
    ensures var s := Exec(f, run);
      s.calls[a].key == s.calls[b].key ==> s.calls[a].phase.result == s.calls[b].phase.result
  {
    Reachable(f, run);
    var s := Exec(f, run);
    assert CallOk(s, a) && CallOk(s, b);
  }

  // ... and calls for different external ids of one app and environment return different users.
  lemma DifferentIDsDifferentUsers(f: Folding, run: seq<Action>, a: nat, b: nat)
    requires var s := Exec(f, run);
      && a in s.calls && s.calls[a].phase.Done? && s.calls[a].phase.result.Some?
      && b in s.calls && s.calls[b].phase.Done? && s.calls[b].phase.result.Some?
    ensures var s := Exec(f, run); var k, l := s.calls[a].key, s.calls[b].key;
      k.app == l.app && k.environment == l.environment && k.externalID != l.externalID ==>
        s.calls[a].phase.result != s.calls[b].phase.result
  {
    Reachable(f, run);
    var s := Exec(f, run);
    assert CallOk(s, a) && CallOk(s, b);
  }

  // A call is for the external id without the white space around it; a blank one fails at once.
  lemma BeginsTrimmed(f: Folding, s: State, id: nat, key: Key, before: string, after: string, email: string,
                      username: string)
    requires id !in s.calls && All(before, IsSpace) && All(after, IsSpace)
    requires key.externalID == "" || (!IsSpace(key.externalID[0]) && !IsSpace(Last(key.externalID)))
    ensures var raw := before + key.externalID + after;
      Next(f, s, Begin(id, key.app, key.environment, raw, email, username)) ==
        s.(calls := s.calls[id := Call(key, email, username, if key.externalID == "" then Done(None) else Lookup)])
  {
    if key.externalID == "" {
      TrimAway(before + "" + after, IsSpace);
    } else {
      TrimOf(before, key.externalID, after, IsSpace);
    }
    hide TrimSpace, IsSpace;
  }

  // ---- One call with nothing in between ----

  // k steps of a call that no cap refuses.
  ghost function Steps(f: Folding, s: State, id: nat, pick: nat, k: nat): State
    requires id in s.calls
    decreases k
  {
    if k == 0 then s else Steps(f, AdvanceCall(f, s, id, pick, false), id, pick, k - 1)
  }

  lemma {:induction false} DoneStays(f: Folding, s: State, id: nat, pick: nat, k: nat)
    requires id in s.calls && s.calls[id].phase.Done?
    ensures Steps(f, s, id, pick, k) == s
    decreases k
  {
    if k > 0 {
      assert AdvanceCall(f, s, id, pick, false) == s by { assert s.calls[id := s.calls[id]] == s.calls; }
      DoneStays(f, s, id, pick, k - 1);
    }
  }

  lemma Moves(f: Folding, s: State, id: nat, pick: nat, k: nat, phase: Phase)
    requires id in s.calls && k > 0 && NextPhase(f, s, s.calls[id], pick, false) == phase
    requires !(s.calls[id].phase.Create? && phase.Join?) && !(s.calls[id].phase.Link? && phase.Done?)
    ensures Steps(f, s, id, pick, k) == Steps(f, Goto(s, id, phase), id, pick, k - 1)
  {
    hide NextPhase;
  }

  lemma GotoGoto(s: State, id: nat, a: Phase, b: Phase)
    requires id in s.calls
    ensures Goto(Goto(s, id, a), id, b) == Goto(s, id, b)
  {
  }

  // From the user found: linked, unless the app and environment link the user to another external id.
  lemma JoinsAlone(f: Folding, s: State, id: nat, pick: nat, user: nat, created: bool, k: nat)
    requires id in s.calls && s.calls[id].phase == Join(user, created) && s.calls[id].key !in s.links && k >= 4
    ensures var key := s.calls[id].key;
      Steps(f, s, id, pick, k) ==
        if UserLinked(s, key, user) then Goto(s, id, Done(None))
        else
          Goto(s, id, Done(Some(user))).(
            links := s.links[key := user], provisioned := s.provisioned + if created then [user] else [])
  {
    hide Steps, UserLinked;
    var key, link := s.calls[id].key, Goto(s, id, Link(user, created));
    Moves(f, s, id, pick, k, Link(user, created));
    SameLinked(s, link, key, user);
    if UserLinked(s, key, user) {
      LinkTaken(f, link, id, pick, k - 1);
      GotoGoto(s, id, Link(user, created), Done(None));
    } else {
      LinkMade(f, link, id, pick, k - 1);
      GotoGoto(s, id, Link(user, created), Done(Some(user)));
    }
  }

  lemma SameLinked(s: State, t: State, key: Key, user: nat)
    requires t.links == s.links
    ensures UserLinked(s, key, user) == UserLinked(t, key, user)
  {
  }

  lemma LinkMade(f: Folding, s: State, id: nat, pick: nat, k: nat)
    requires id in s.calls && s.calls[id].phase.Link? && k >= 1
    requires var c := s.calls[id]; c.key !in s.links && !UserLinked(s, c.key, c.phase.user)
    ensures var c := s.calls[id];
      Steps(f, s, id, pick, k) == Goto(s, id, Done(Some(c.phase.user))).(
        links := s.links[c.key := c.phase.user],
        provisioned := s.provisioned + if c.phase.created then [c.phase.user] else [])
  {
    hide UserLinked;
    DoneStays(f, AdvanceCall(f, s, id, pick, false), id, pick, k - 1);
  }

  lemma LinkTaken(f: Folding, s: State, id: nat, pick: nat, k: nat)
    requires id in s.calls && s.calls[id].phase.Link? && k >= 3
    requires var c := s.calls[id]; c.key !in s.links && UserLinked(s, c.key, c.phase.user)
    ensures Steps(f, s, id, pick, k) == Goto(s, id, Done(None))
  {
    hide Steps, UserLinked;
    var c := s.calls[id];
    var user := c.phase.user;
    var s1 := Goto(s, id, LinkedByExternalID(user));
    var s2 := Goto(s1, id, LinkedByUser(user));
    Moves(f, s, id, pick, k, LinkedByExternalID(user));
    Moves(f, s1, id, pick, k - 1, LinkedByUser(user));
    SameLinked(s, s2, c.key, user);
    LinkRow(s2, c.key, user);
    Moves(f, s2, id, pick, k - 2, Done(None));
    DoneStays(f, Goto(s2, id, Done(None)), id, pick, k - 3);
    GotoGoto(s, id, LinkedByExternalID(user), LinkedByUser(user));
    GotoGoto(s, id, LinkedByUser(user), Done(None));
  }

  lemma OnlyEmailRow(s: State, t: State, user: nat)
    requires UsersUnique(s) && user in s.users && t.users == s.users
    ensures EmailTaken(t, s.users[user].email) && UserByEmail(t, s.users[user].email) == user
  {
    assert t.users[user].email == s.users[user].email;
    EmailRow(t, s.users[user].email);
  }

  // Up to the user that has the email.
  lemma EmailAlone(f: Folding, s: State, id: nat, pick: nat, user: nat, k: nat)
    requires id in s.calls && s.calls[id].phase == Lookup && s.calls[id].key !in s.links && k >= 2
    requires UsersUnique(s) && user in s.users && s.users[user].email == s.calls[id].email
    ensures Steps(f, s, id, pick, k) == Steps(f, Goto(s, id, Join(user, false)), id, pick, k - 2)
  {
    hide Steps, EmailTaken, UserByEmail;
    var s1 := Goto(s, id, ByEmail);
    Moves(f, s, id, pick, k, ByEmail);
    OnlyEmailRow(s, s1, user);
    Moves(f, s1, id, pick, k - 1, Join(user, false));
    GotoGoto(s, id, ByEmail, Join(user, false));
  }

  lemma SameUsers(s: State, t: State)
    requires t.users == s.users
    ensures forall email :: EmailTaken(t, email) == EmailTaken(s, email)
    ensures forall username :: UsernameTaken(t, username) == UsernameTaken(s, username)
  {
  }

  // Up to the insert of a user's row, with no user of the email.
  lemma NoEmailAlone(f: Folding, s: State, id: nat, pick: nat, k: nat)
    requires id in s.calls && s.calls[id].phase == Lookup && s.calls[id].key !in s.links && k >= 2
    requires !EmailTaken(s, s.calls[id].email)
    ensures Steps(f, s, id, pick, k) == Steps(f, Goto(s, id, Create), id, pick, k - 2)
  {
    hide Steps, EmailTaken, UsernameTaken;
    var s1 := Goto(s, id, ByEmail);
    Moves(f, s, id, pick, k, ByEmail);
    SameUsers(s, s1);
    Moves(f, s1, id, pick, k - 1, Create);
    GotoGoto(s, id, ByEmail, Create);
  }

  // Up to the user whose username stood in the way of the insert.
  lemma UsernameAlone(f: Folding, s: State, id: nat, pick: nat, k: nat)
    requires id in s.calls && s.calls[id].phase == Create && k >= 3
    requires !EmailTaken(s, s.calls[id].email) && UsernameTaken(s, s.calls[id].username)
    requires pick in s.users && f.lower(s.users[pick].username) == f.lower(s.calls[id].username)
    ensures Steps(f, s, id, pick, k) == Steps(f, Goto(s, id, Join(pick, false)), id, pick, k - 3)
  {
    hide Steps, EmailTaken, UsernameTaken;
    var s1 := Goto(s, id, ByEmailAgain);
    var s2 := Goto(s1, id, ByUsername);
    Moves(f, s, id, pick, k, ByEmailAgain);
    SameUsers(s, s1);
    Moves(f, s1, id, pick, k - 1, ByUsername);
    Moves(f, s2, id, pick, k - 2, Join(pick, false));
    GotoGoto(s, id, ByEmailAgain, ByUsername);
    GotoGoto(s, id, ByUsername, Join(pick, false));
  }

  lemma Uniques(f: Folding, run: seq<Action>)
    ensures UsersUnique(Exec(f, run))
    ensures forall k :: k in Exec(f, run).links ==> Exec(f, run).links[k] in Exec(f, run).users
  {
    Reachable(f, run);
    Named(f, run);
  }

  // A call that runs with nothing in between, in any reachable state, returns the user its key is linked
  // to, and changes no row.
  lemma LinkedAlone(f: Folding, s: State, id: nat, pick: nat)
    requires id in s.calls && s.calls[id].phase == Lookup && s.calls[id].key in s.links
    ensures Steps(f, s, id, pick, 9) == Goto(s, id, Done(Some(s.links[s.calls[id].key])))
  {
    hide Steps;
    Moves(f, s, id, pick, 9, Done(Some(s.links[s.calls[id].key])));
    DoneStays(f, Goto(s, id, Done(Some(s.links[s.calls[id].key]))), id, pick, 8);
  }

  // Without a link, it links its key to the user with its email or, with none and its username taken, to
  // one with that username, case aside; unless the app and environment link that user to another external
  // id: then it fails, and changes no row.
  lemma FoundAlone(f: Folding, run: seq<Action>, id: nat, pick: nat, user: nat)
    requires var s := Exec(f, run);
      && id in s.calls && s.calls[id].phase == Lookup && s.calls[id].key !in s.links && user in s.users
      && (|| s.users[user].email == s.calls[id].email
          || (&& pick == user && f.lower(s.users[user].username) == f.lower(s.calls[id].username)
              && (forall u :: u in s.users ==> s.users[u].email != s.calls[id].email)
              && exists u :: u in s.users && s.users[u].username == s.calls[id].username))
    ensures var s := Exec(f, run); var key := s.calls[id].key;
      Steps(f, s, id, pick, 9) ==
        if exists k :: k in s.links && k.app == key.app && k.environment == key.environment && s.links[k] == user
        then Goto(s, id, Done(None))
        else Goto(s, id, Done(Some(user))).(links := s.links[key := user])
  {
    Uniques(f, run);
    var s := Exec(f, run);
    hide Exec, Steps, UsersUnique;
    var at := Goto(s, id, Join(user, false));
    if s.users[user].email == s.calls[id].email {
      EmailAlone(f, s, id, pick, user, 9);
      JoinsAlone(f, at, id, pick, user, false, 7);
    } else {
      var inserts := Goto(s, id, Create);
      NoEmailAlone(f, s, id, pick, 9);
      UsernameAlone(f, inserts, id, pick, 7);
      GotoGoto(s, id, Create, Join(user, false));
      JoinsAlone(f, at, id, pick, user, false, 4);
    }
    SameLinked(s, at, s.calls[id].key, user);
    GotoGoto(s, id, Join(user, false), Done(None));
    GotoGoto(s, id, Join(user, false), Done(Some(user)));
    assert s.provisioned + [] == s.provisioned;
  }

  lemma MadeAlone(f: Folding, s: State, id: nat, pick: nat, k: nat)
    requires id in s.calls && s.calls[id].phase == Create && pick !in s.users && k > 0
    requires !EmailTaken(s, s.calls[id].email) && !UsernameTaken(s, s.calls[id].username)
    ensures var c := s.calls[id];
      Steps(f, s, id, pick, k) == Steps(f, Goto(s, id, Join(pick, true)).(
        users := s.users[pick := User(c.email, c.username)], creator := s.creator[pick := id]), id, pick, k - 1)
  {
    hide EmailTaken, UsernameTaken;
  }

  // With neither, it makes a user of its email and username, links its key to it, and announces it.
  lemma CreatedAlone(f: Folding, run: seq<Action>, id: nat, pick: nat)
    requires var s := Exec(f, run);
      && id in s.calls && s.calls[id].phase == Lookup && s.calls[id].key !in s.links && pick !in s.users
      && forall u :: u in s.users ==>
           s.users[u].email != s.calls[id].email && s.users[u].username != s.calls[id].username
    ensures var s := Exec(f, run); var c := s.calls[id];
      Steps(f, s, id, pick, 9) == Goto(s, id, Done(Some(pick))).(
        users := s.users[pick := User(c.email, c.username)], creator := s.creator[pick := id],
        links := s.links[c.key := pick], provisioned := s.provisioned + [pick])
  {
    Uniques(f, run);
    var s := Exec(f, run);
    hide Exec, Steps, UsersUnique;
    var c, inserts := s.calls[id], Goto(s, id, Create);
    NoEmailAlone(f, s, id, pick, 9);
    MadeAlone(f, inserts, id, pick, 7);
    GotoGoto(s, id, Create, Join(pick, true));
    var made := Goto(s, id, Join(pick, true)).(
      users := s.users[pick := User(c.email, c.username)], creator := s.creator[pick := id]);
    JoinsAlone(f, made, id, pick, pick, true, 6);
  }

  // Each user is announced as provisioned at most once.
  lemma ProvisionedOnce(f: Folding, run: seq<Action>)
    ensures var p := Exec(f, run).provisioned; forall i, j :: 0 <= i < j < |p| ==> p[i] != p[j]
  {
    Reachable(f, run);
  }
}
