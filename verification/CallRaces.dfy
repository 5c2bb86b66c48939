// The call operations of internal/calls/service.go as the separate queries they are, run by requests
// that overlap freely. Module Calls is about one method at a time.
module CallRaces {
  import opened Base

  datatype Status = Ringing | Active | Ended

  // A calls row with its participants: who is active, and how many rows there are. The last four
  // fields are bookkeeping: updates to ended that found the call ended, updates to active that found
  // it ended, and meterings that found two rows, or fewer.
  datatype Call = Call(
    channel: int64, status: Status, active: set<int64>, total: nat,
    misses: nat, revivals: nat, charged: nat, spared: nat)

  // The query a request is about to run.
  datatype Task =
    | Finding(channel: int64, user: int64)                       // GetActiveCallByChannel
    | Listing(channel: int64, user: int64, call: nat)            // ListActiveCallParticipants
    | Marking(channel: int64, user: int64, call: nat)            // MarkCallParticipantLeft
    | Ending(channel: int64, user: int64, call: nat)             // UpdateCallStatus ended
    | Metering(channel: int64, user: int64, call: nat)           // meterVideoCall
    | Creating(channel: int64, user: int64)                      // CreateCall
    | Seating(user: int64, call: nat)                            // AddCallParticipant
    | JoinReading(user: int64, call: nat)                        // GetCallByID
    | JoinLooking(user: int64, call: nat, ringing: bool)         // GetActiveCallParticipant, and the limit
    | JoinSeating(user: int64, call: nat, ringing: bool)         // AddCallParticipant
    | JoinCounting(call: nat, ringing: bool)                     // CountActiveCallParticipants
    | Activating(call: nat)                                      // UpdateCallStatus active
    | LeaveReading(user: int64, call: nat)                       // GetCallByID
    | LeaveLooking(user: int64, call: nat)                       // GetActiveCallParticipant
    | LeaveMarking(user: int64, call: nat)                       // MarkCallParticipantLeft
    | LeaveCounting(call: nat)                                   // CountActiveCallParticipants
    | LeaveListing(call: nat)                                    // ListActiveCallParticipants
    | LeaveClearing(call: nat, rest: set<int64>)                 // MarkCallParticipantLeft, each
    | LeaveEnding(call: nat)                                     // UpdateCallStatus ended
    | LeaveMetering(call: nat)                                   // meterVideoCall

  datatype State = State(calls: seq<Call>, tasks: map<nat, Task>)

  datatype Action =
    | Initiate(request: nat, channel: int64, user: int64)
    | Join(request: nat, user: int64, call: nat)
    | Leave(request: nat, user: int64, call: nat)
    // allowed is the outcome of the access, limit and plan checks that come with the query.
    | Query(request: nat, allowed: bool)

  const START := State([], map[])

  // ---- The rows ----

  function Fresh(channel: int64): Call {
    Call(channel, Ringing, {}, 0, 0, 0, 0, 0)
  }

  // The partial unique index: a user who is active is not inserted again.
  function Seated(c: Call, user: int64): Call {
    if user in c.active then c else c.(active := c.active + {user}, total := c.total + 1)
  }

  // UPDATE call_participants SET left_at; no row is no error for the requests that come here.
  function Left(c: Call, user: int64): Call {
    c.(active := c.active - {user})
  }

  // UPDATE calls SET status, with no condition on the status it replaces.
  function EndedNow(c: Call): Call {
    if c.status == Ended then c.(misses := c.misses + 1) else c.(status := Ended)
  }

  function Activated(c: Call): Call {
    if c.status == Ended then c.(status := Active, revivals := c.revivals + 1) else c.(status := Active)
  }

  // A metering charges when it finds two rows, for a call that is otherwise charged at all.
  function Metered(c: Call): Call {
    if c.total >= 2 then c.(charged := c.charged + 1) else c.(spared := c.spared + 1)
  }

  predicate LiveOn(c: Call, channel: int64) {
    c.channel == channel && c.status != Ended
  }

  // The newest live call of the channel.
  function Newest(calls: seq<Call>, channel: int64): Option<nat> {
    if calls == [] then None
    else if LiveOn(Last(calls), channel) then Some(|calls| - 1)
    else Newest(Front(calls), channel)
  }

  // ---- Steps ----

  predicate HasCall(t: Task) {
    !t.Finding? && !t.Creating?
  }

  // The calls after a query, and the request's next one.
  datatype Outcome = Outcome(calls: seq<Call>, next: Option<Task>)

  function Then(calls: seq<Call>, t: Task): Outcome {
    Outcome(calls, Some(t))
  }

  function Stop(calls: seq<Call>): Outcome {
    Outcome(calls, None)
  }

  ghost function Pick(users: set<int64>): int64
    requires users != {}
  {
    var u :| u in users;
    u
  }

  predicate Writes(t: Task) {
    || t.Marking? || t.Ending? || t.Metering? || t.Seating? || t.JoinSeating? || t.Activating?
    || t.LeaveMarking? || (t.LeaveClearing? && t.rest != {}) || t.LeaveEnding? || t.LeaveMetering?
  }

  // What a query makes of the call it names.
  ghost function Effect(t: Task, c: Call): Call {
    match t
    case Marking(_, u, _) => Left(c, u)
    case Ending(_, _, _) => EndedNow(c)
    case Metering(_, _, _) => Metered(c)
    case Seating(u, _) => Seated(c, u)
    case JoinSeating(u, _, _) => Seated(c, u)
    case Activating(_) => Activated(c)
    case LeaveMarking(u, _) => Left(c, u)
    case LeaveClearing(_, rest) => if rest == {} then c else Left(c, Pick(rest))
    case LeaveEnding(_) => EndedNow(c)
    case LeaveMetering(_) => Metered(c)
    case _ => c
  }

  // What the request does next, from the calls its query found.
  ghost function Follow(calls: seq<Call>, t: Task, allowed: bool): Option<Task>
    requires HasCall(t) ==> t.call < |calls|
  {
    match t
    case Finding(ch, u) =>
      if !allowed then None
      else
        (match Newest(calls, ch)
         case None => Some(Creating(ch, u))
         case Some(c) => Some(Listing(ch, u, c)))
    case Listing(ch, u, c) => if calls[c].active == {u} then Some(Marking(ch, u, c)) else None
    case Marking(ch, u, c) => Some(Ending(ch, u, c))
    case Ending(ch, u, c) => Some(Metering(ch, u, c))
    case Metering(ch, u, c) => Some(Creating(ch, u))
    case Creating(ch, u) => Some(Seating(u, |calls|))
    case Seating(_, _) => None
    case JoinReading(u, c) =>
      if calls[c].status == Ended || !allowed then None else Some(JoinLooking(u, c, calls[c].status == Ringing))
    case JoinLooking(u, c, ringing) =>
      if u in calls[c].active then Some(JoinCounting(c, ringing))
      else if !allowed then None
      else Some(JoinSeating(u, c, ringing))
    case JoinSeating(u, c, ringing) => if u in calls[c].active then None else Some(JoinCounting(c, ringing))
    case JoinCounting(c, ringing) => if ringing && |calls[c].active| >= 2 then Some(Activating(c)) else None
    case Activating(_) => None
    case LeaveReading(u, c) => if calls[c].status == Ended then None else Some(LeaveLooking(u, c))
    case LeaveLooking(u, c) => if u in calls[c].active then Some(LeaveMarking(u, c)) else None
    case LeaveMarking(u, c) => if u in calls[c].active then Some(LeaveCounting(c)) else None
    case LeaveCounting(c) =>
      if |calls[c].active| == 0 then Some(LeaveEnding(c))
      else if |calls[c].active| == 1 then Some(LeaveListing(c))
      else None
    case LeaveListing(c) => Some(LeaveClearing(c, calls[c].active))
    case LeaveClearing(c, rest) =>
      if rest == {} then Some(LeaveEnding(c)) else Some(LeaveClearing(c, rest - {Pick(rest)}))
    case LeaveEnding(c) => Some(LeaveMetering(c))
    case LeaveMetering(_) => None
  }

  ghost function Written(calls: seq<Call>, t: Task): seq<Call>
    requires HasCall(t) ==> t.call < |calls|
  {
    if t.Creating? then calls + [Fresh(t.channel)]
    else if Writes(t) then calls[t.call := Effect(t, calls[t.call])]
    else calls
  }

  ghost function Run(calls: seq<Call>, t: Task, allowed: bool): Outcome {
    if HasCall(t) && t.call >= |calls| then Stop(calls) else Outcome(Written(calls, t), Follow(calls, t, allowed))
  }

  ghost function Advance(s: State, id: nat, allowed: bool): State
    requires id in s.tasks
  {
    var o := Run(s.calls, s.tasks[id], allowed);
    match o.next
    case None => State(o.calls, s.tasks - {id})
    case Some(t) => State(o.calls, s.tasks[id := t])
  }

  function Start(s: State, id: nat, t: Task): State {
    if id in s.tasks then s else s.(tasks := s.tasks[id := t])
  }

  ghost function Next(s: State, a: Action): State {
    match a
    case Initiate(id, ch, u) => Start(s, id, Finding(ch, u))
    case Join(id, u, c) => Start(s, id, JoinReading(u, c))
    case Leave(id, u, c) => Start(s, id, LeaveReading(u, c))
    case Query(id, allowed) => if id in s.tasks then Advance(s, id, allowed) else s
  }

  ghost function Exec(run: seq<Action>): State {
    if run == [] then START else Next(Exec(Front(run)), Last(run))
  }

  // ---- One request with nothing in between ----

  function Stage(t: Task): nat {
    match t
    case Finding(_, _) => 7
    case Listing(_, _, _) => 6
    case Marking(_, _, _) => 5
    case Ending(_, _, _) => 4
    case Metering(_, _, _) => 3
    case Creating(_, _) => 2
    case Seating(_, _) => 1
    case JoinReading(_, _) => 5
    case JoinLooking(_, _, _) => 4
    case JoinSeating(_, _, _) => 3
    case JoinCounting(_, _) => 2
    case Activating(_) => 1
    case LeaveReading(_, _) => 8
    case LeaveLooking(_, _) => 7
    case LeaveMarking(_, _) => 6
    case LeaveCounting(_) => 5
    case LeaveListing(_) => 4
    case LeaveClearing(_, _) => 3
    case LeaveEnding(_) => 2
    case LeaveMetering(_) => 1
  }

  function Rest(t: Task): set<int64> {
    if t.LeaveClearing? then t.rest else {}
  }

  lemma FollowDescends(calls: seq<Call>, t: Task, allowed: bool)
    requires HasCall(t) ==> t.call < |calls|
    ensures match Follow(calls, t, allowed)
      case None => true
      case Some(next) => Stage(next) < Stage(t) || (Stage(next) == Stage(t) && |Rest(next)| < |Rest(t)|)
  {
    if t.LeaveClearing? && t.rest != {} {
      assert |t.rest - {Pick(t.rest)}| < |t.rest|;
    } else {
      hide Newest, Pick, Rest;
    }
  }

  // The calls once a request has run all its queries, none of them refused.
  ghost function Finish(calls: seq<Call>, t: Task): seq<Call>
    requires HasCall(t) ==> t.call < |calls|
    decreases Stage(t), |Rest(t)|
  {
    FollowDescends(calls, t, true);
    var after := Written(calls, t);
    match Follow(calls, t, true)
    case None => after
    case Some(next) => if HasCall(next) && next.call >= |after| then after else Finish(after, next)
  }

  lemma Goes(calls: seq<Call>, t: Task, after: seq<Call>, next: Task)
    requires (HasCall(t) ==> t.call < |calls|) && (HasCall(next) ==> next.call < |after|)
    requires Written(calls, t) == after && Follow(calls, t, true) == Some(next)
    ensures Finish(calls, t) == Finish(after, next)
  {
    hide Written, Follow;
  }

  lemma Halts(calls: seq<Call>, t: Task, after: seq<Call>)
    requires HasCall(t) ==> t.call < |calls|
    requires Written(calls, t) == after && Follow(calls, t, true) == None
    ensures Finish(calls, t) == after
  {
    hide Written, Follow;
  }

  // Leaving: with at most two in the call it ends, nobody is left in it, and it is metered; otherwise one
  // participant goes. Leaving an ended call, or one the user is not in, changes nothing.
  lemma LeaveAlone(calls: seq<Call>, user: int64, call: nat)
    requires call < |calls|
    ensures var c := calls[call];
      Finish(calls, LeaveReading(user, call)) ==
        if c.status == Ended || user !in c.active then calls
        else if |c.active| > 2 then calls[call := c.(active := c.active - {user})]
        else if c.total >= 2 then calls[call := c.(active := {}, status := Ended, charged := c.charged + 1)]
        else calls[call := c.(active := {}, status := Ended, spared := c.spared + 1)]
  {
    hide Finish;
    var c, look := calls[call], LeaveLooking(user, call);
    if c.status == Ended {
      Halts(calls, LeaveReading(user, call), calls);
    } else {
      Goes(calls, LeaveReading(user, call), calls, look);
      if user !in c.active {
        Halts(calls, look, calls);
      } else {
        var left := calls[call := Left(c, user)];
        Goes(calls, look, calls, LeaveMarking(user, call));
        Goes(calls, LeaveMarking(user, call), left, LeaveCounting(call));
        hide Written, Follow;
        assert |Left(c, user).active| == |c.active| - 1;
        CountAlone(left, call);
      }
    }
  }

  // From the count on.
  lemma CountAlone(calls: seq<Call>, call: nat)
    requires call < |calls| && calls[call].status != Ended
    ensures var c := calls[call];
      Finish(calls, LeaveCounting(call)) ==
        if |c.active| > 1 then calls else calls[call := Metered(c.(active := {}, status := Ended))]
  {
    hide Finish;
    var c, count := calls[call], LeaveCounting(call);
    if |c.active| == 0 {
      Goes(calls, count, calls, LeaveEnding(call));
      EndAlone(calls, call);
      assert c.active == {};
    } else if |c.active| == 1 {
      Goes(calls, count, calls, LeaveListing(call));
      Goes(calls, LeaveListing(call), calls, LeaveClearing(call, c.active));
      ClearAlone(calls, call, c.active);
      assert c.active - c.active == {};
      EndAlone(calls[call := c.(active := {})], call);
    } else {
      Halts(calls, count, calls);
    }
  }

  lemma {:induction false} ClearAlone(calls: seq<Call>, call: nat, rest: set<int64>)
    requires call < |calls|
    ensures Finish(calls, LeaveClearing(call, rest))
         == Finish(calls[call := calls[call].(active := calls[call].active - rest)], LeaveEnding(call))
    decreases |rest|
  {
    hide Finish;
    if rest == {} {
      Goes(calls, LeaveClearing(call, rest), calls, LeaveEnding(call));
      assert calls[call].active - {} == calls[call].active;
      assert calls[call := calls[call]] == calls;
    } else {
      var u := Pick(rest);
      var next := calls[call := Left(calls[call], u)];
      Goes(calls, LeaveClearing(call, rest), next, LeaveClearing(call, rest - {u}));
      hide Written, Follow;
      ClearAlone(next, call, rest - {u});
      var gone := calls[call].active - rest;
      assert next[call].active - (rest - {u}) == gone;
      assert next[call := next[call].(active := gone)] == calls[call := calls[call].(active := gone)];
    }
  }

  lemma EndAlone(calls: seq<Call>, call: nat)
    requires call < |calls| && calls[call].status != Ended
    ensures Finish(calls, LeaveEnding(call)) == calls[call := Metered(calls[call].(status := Ended))]
  {
    hide Finish, Metered;
    var ended := calls[call := calls[call].(status := Ended)];
    Goes(calls, LeaveEnding(call), ended, LeaveMetering(call));
    Halts(ended, LeaveMetering(call), ended[call := Metered(ended[call])]);
  }

  // Joining: a newcomer is seated, and a ringing call with two becomes active. Joining an ended call
  // changes nothing, nor does joining again.
  lemma JoinAlone(calls: seq<Call>, user: int64, call: nat)
    requires call < |calls| && (calls[call].status == Ringing ==> |calls[call].active| == 1)
    ensures var c := calls[call];
      Finish(calls, JoinReading(user, call)) ==
        if c.status == Ended || user in c.active then calls
        else calls[call := c.(active := c.active + {user}, total := c.total + 1, status := Active)]
  {
    hide Finish;
    var c := calls[call];
    var ringing := c.status == Ringing;
    var look, seat := JoinLooking(user, call, ringing), JoinSeating(user, call, ringing);
    var count := JoinCounting(call, ringing);
    if c.status == Ended {
      Halts(calls, JoinReading(user, call), calls);
    } else {
      Goes(calls, JoinReading(user, call), calls, look);
      if user in c.active {
        Goes(calls, look, calls, count);
        Halts(calls, count, calls);
      } else {
        var seated := calls[call := Seated(c, user)];
        Goes(calls, look, calls, seat);
        Goes(calls, seat, seated, count);
        hide Written, Follow;
        SeatedAlone(seated, call, ringing);
      }
    }
  }

  lemma SeatedAlone(calls: seq<Call>, call: nat, ringing: bool)
    requires call < |calls| && calls[call].status == (if ringing then Ringing else Active)
    requires ringing ==> |calls[call].active| == 2
    ensures Finish(calls, JoinCounting(call, ringing)) == calls[call := calls[call].(status := Active)]
  {
    hide Finish;
    if ringing {
      Goes(calls, JoinCounting(call, ringing), calls, Activating(call));
      Halts(calls, Activating(call), calls[call := calls[call].(status := Active)]);
    } else {
      Halts(calls, JoinCounting(call, ringing), calls);
      assert calls[call := calls[call]] == calls;
    }
  }

  lemma {:induction false} NewestIs(calls: seq<Call>, channel: int64, i: nat)
    requires i < |calls| && LiveOn(calls[i], channel) && forall j :: i < j < |calls| ==> !LiveOn(calls[j], channel)
    ensures Newest(calls, channel) == Some(i)
  {
    if i < |calls| - 1 {
      NewestIs(Front(calls), channel, i);
    }
  }

  lemma {:induction false} NoNewest(calls: seq<Call>, channel: int64)
    requires forall j :: 0 <= j < |calls| ==> !LiveOn(calls[j], channel)
    ensures Newest(calls, channel) == None
  {
    if calls != [] {
      NoNewest(Front(calls), channel);
    }
  }

  // Initiating with no live call on the channel: a new ringing one.
  lemma InitiateAlone(calls: seq<Call>, channel: int64, user: int64)
    requires forall j :: 0 <= j < |calls| ==> calls[j].channel != channel || calls[j].status == Ended
    ensures Finish(calls, Finding(channel, user)) == calls + [Call(channel, Ringing, {user}, 1, 0, 0, 0, 0)]
  {
    hide Finish, Newest;
    NoNewest(calls, channel);
    Goes(calls, Finding(channel, user), calls, Creating(channel, user));
    CreateAlone(calls, channel, user);
  }

  lemma CreateAlone(calls: seq<Call>, channel: int64, user: int64)
    ensures Finish(calls, Creating(channel, user)) == calls + [Call(channel, Ringing, {user}, 1, 0, 0, 0, 0)]
  {
    hide Finish, Newest;
    var ring := Fresh(channel);
    var seated := Seated(ring, user);
    assert seated.active == {user};
    Goes(calls, Creating(channel, user), calls + [ring], Seating(user, |calls|));
    assert (calls + [ring])[|calls| := seated] == calls + [seated];
    Halts(calls + [ring], Seating(user, |calls|), calls + [seated]);
  }

  // ... and with one: the newest is ended and metered first when the user is alone in it; otherwise
  // nothing happens.
  lemma InitiateOverAlone(calls: seq<Call>, channel: int64, user: int64, i: nat)
    requires i < |calls| && calls[i].channel == channel && calls[i].status != Ended
    requires forall j :: i < j < |calls| ==> calls[j].channel != channel || calls[j].status == Ended
    ensures var c := calls[i];
      var fee := if c.total >= 2 then 1 else 0;
      var ended := c.(active := {}, status := Ended, charged := c.charged + fee, spared := c.spared + 1 - fee);
      Finish(calls, Finding(channel, user)) ==
        if c.active == {user} then calls[i := ended] + [Call(channel, Ringing, {user}, 1, 0, 0, 0, 0)] else calls
  {
    hide Finish, Newest;
    NewestIs(calls, channel, i);
    var c := calls[i];
    Goes(calls, Finding(channel, user), calls, Listing(channel, user, i));
    if c.active == {user} {
      Goes(calls, Listing(channel, user, i), calls, Marking(channel, user, i));
      OverAlone(calls, channel, user, i);
    } else {
      Halts(calls, Listing(channel, user, i), calls);
    }
  }

  lemma OverAlone(calls: seq<Call>, channel: int64, user: int64, i: nat)
    requires i < |calls| && calls[i].status != Ended && calls[i].active == {user}
    ensures Finish(calls, Marking(channel, user, i)) == calls[i := Metered(calls[i].(active := {}, status := Ended))]
      + [Call(channel, Ringing, {user}, 1, 0, 0, 0, 0)]
  {
    hide Finish, Newest, Metered;
    var c := calls[i];
    assert {user} - {user} == {};
    var left, ended := calls[i := c.(active := {})], calls[i := c.(active := {}, status := Ended)];
    var metered := calls[i := Metered(ended[i])];
    Goes(calls, Marking(channel, user, i), left, Ending(channel, user, i));
    Goes(left, Ending(channel, user, i), ended, Metering(channel, user, i));
    Goes(ended, Metering(channel, user, i), metered, Creating(channel, user));
    CreateAlone(metered, channel, user);
  }

  // ---- Requests by what they are about to do ----

  datatype Kind =
    | MeteringOf(call: nat)           // has ended the call and not metered it yet
    | InsertingOn(channel: int64)     // initiates, and found no live call or has ended the one it found
    | InitiatingOn(channel: int64)    // initiates

  predicate Is(t: Task, kind: Kind) {
    match kind
    case MeteringOf(c) => (t.Metering? || t.LeaveMetering?) && t.call == c
    case InsertingOn(ch) => (t.Metering? || t.Creating?) && t.channel == ch
    case InitiatingOn(ch) =>
      (t.Finding? || t.Listing? || t.Marking? || t.Ending? || t.Metering? || t.Creating?) && t.channel == ch
  }

  function Requests(s: State, kind: Kind): set<nat> {
    set id | id in s.tasks && Is(s.tasks[id], kind)
  }

  function Bit(b: bool): nat {
    if b then 1 else 0
  }

  predicate Doing(s: State, id: nat, kind: Kind) {
    id in s.tasks && Is(s.tasks[id], kind)
  }

  // Between two states only request id has moved on.
  ghost predicate OnlyMoved(s: State, t: State, id: nat) {
    forall other :: other != id ==>
      (other in t.tasks <==> other in s.tasks) && (other in s.tasks ==> t.tasks[other] == s.tasks[other])
  }

  lemma InRequests(s: State, id: nat, kind: Kind)
    ensures id in Requests(s, kind) <==> Doing(s, id, kind)
  {
    hide Is;
  }

  lemma OthersStay(s: State, t: State, id: nat, kind: Kind)
    requires OnlyMoved(s, t, id)
    ensures Requests(t, kind) - {id} == Requests(s, kind) - {id}
  {
    forall other: nat | other != id
      ensures other in Requests(t, kind) <==> other in Requests(s, kind)
    {
      InRequests(s, other, kind);
      InRequests(t, other, kind);
    }
    hide OnlyMoved, Requests;
  }

  lemma RequestsStep(s: State, t: State, id: nat, kind: Kind)
    requires OnlyMoved(s, t, id)
    ensures |Requests(t, kind)| == |Requests(s, kind)| - Bit(Doing(s, id, kind)) + Bit(Doing(t, id, kind))
  {
    OthersStay(s, t, id, kind);
    InRequests(s, id, kind);
    InRequests(t, id, kind);
    hide OnlyMoved, Requests, Doing;
    SizeWith(Requests(s, kind), id);
    SizeWith(Requests(t, kind), id);
  }

  lemma SizeWith(a: set<nat>, x: nat)
    ensures |a| == |a - {x}| + Bit(x in a)
  {
    if x !in a {
      assert a - {x} == a;
    }
  }

  lemma OnlyOwnTask(s: State, a: Action)
    ensures OnlyMoved(s, Next(s, a), a.request)
  {
    if a.Query? && a.request in s.tasks {
      AdvanceMoves(s, a.request, a.allowed);
      hide Advance;
    }
  }

  lemma AdvanceMoves(s: State, id: nat, allowed: bool)
    requires id in s.tasks
    ensures var t := Advance(s, id, allowed);
      t.tasks == s.tasks - {id} || (id in t.tasks && t.tasks == s.tasks[id := t.tasks[id]])
  {
    hide Run;
  }

  // ---- How often a call is charged ----

  // Every metering belongs to an update to ended, of which all but the first follow another one, or
  // a revival.
  ghost predicate Accounted(s: State, call: nat)
    requires call < |s.calls|
  {
    var c := s.calls[call];
    c.charged + c.spared + |Requests(s, MeteringOf(call))| == c.misses + c.revivals + Bit(c.status == Ended)
  }

  ghost predicate Law(s: State) {
    && (forall c :: 0 <= c < |s.calls| ==> Accounted(s, c))
    && (forall id :: id in s.tasks && (s.tasks[id].Metering? || s.tasks[id].LeaveMetering?) ==>
          s.tasks[id].call < |s.calls|)
  }

  // A query that names a call touches that call only, one that does not may add a call.
  lemma OneCallTouched(s: State, id: nat, allowed: bool)
    requires id in s.tasks && HasCall(s.tasks[id]) && s.tasks[id].call < |s.calls|
    ensures var t, c := Advance(s, id, allowed), s.tasks[id].call;
      && |t.calls| == |s.calls| && t.calls == s.calls[c := t.calls[c]]
      && t.calls[c] == Effect(s.tasks[id], s.calls[c])
  {
    hide Effect, Follow;
    var k := s.tasks[id];
    assert !Writes(k) ==> Effect(k, s.calls[k.call]) == s.calls[k.call] by { NoEffect(k, s.calls[k.call]); }
  }

  lemma NoEffect(t: Task, c: Call)
    ensures !Writes(t) ==> Effect(t, c) == c
  {
  }

  lemma AddedCall(s: State, id: nat, allowed: bool)
    requires id in s.tasks
    ensures var t, k := Advance(s, id, allowed), s.tasks[id];
      |t.calls| == |s.calls| || (k.Creating? && t.calls == s.calls + [Fresh(k.channel)])
    ensures var t, k := Advance(s, id, allowed), s.tasks[id];
      !k.Creating? && !(HasCall(k) && k.call < |s.calls|) ==> t.calls == s.calls
  {
    hide Effect, Follow;
  }

  lemma EffectOnTally(t: Task, c: Call)
    ensures t.Ending? || t.LeaveEnding? || t.Metering? || t.LeaveMetering? || t.Activating?
         || SameTally(c, Effect(t, c))
  {
  }

  lemma CallsStep(s: State, id: nat, allowed: bool, call: nat)
    requires id in s.tasks && call < |s.calls|
    ensures var t, k := Advance(s, id, allowed), s.tasks[id];
      && |t.calls| >= |s.calls|
      && t.calls[call] == if HasCall(k) && k.call == call then Effect(k, s.calls[call]) else s.calls[call]
  {
    var k := s.tasks[id];
    AddedCall(s, id, allowed);
    if HasCall(k) && k.call < |s.calls| {
      OneCallTouched(s, id, allowed);
    }
    hide Advance, Effect;
  }

  predicate SameTally(c: Call, d: Call) {
    && d.channel == c.channel && d.status == c.status && d.total >= c.total
    && d.misses == c.misses && d.revivals == c.revivals && d.charged == c.charged && d.spared == c.spared
  }

  // A query leads to a metering of a call exactly when it ends the call.
  lemma MetersAfter(s: State, id: nat, allowed: bool, call: nat)
    requires id in s.tasks
    ensures var t, k := Advance(s, id, allowed), s.tasks[id];
      Doing(t, id, MeteringOf(call)) <==> (k.Ending? || k.LeaveEnding?) && k.call == call && call < |s.calls|
  {
    hide Written, Newest;
  }

  lemma QueryKeepsLaw(s: State, id: nat, allowed: bool, call: nat)
    requires id in s.tasks && call < |s.calls| && Accounted(s, call)
    ensures var t := Advance(s, id, allowed); call < |t.calls| && Accounted(t, call)
  {
    OnlyOwnTask(s, Query(id, allowed));
    CallsStep(s, id, allowed, call);
    MetersAfter(s, id, allowed, call);
    EffectOnTally(s.tasks[id], s.calls[call]);
    hide Advance, Requests;
    RequestsStep(s, Advance(s, id, allowed), id, MeteringOf(call));
  }

  // A call that a query adds has not been ended, and nobody is about to meter it.
  lemma NewCallLaw(s: State, id: nat, allowed: bool, call: nat)
    requires Law(s) && id in s.tasks && |s.calls| <= call < |Advance(s, id, allowed).calls|
    ensures Accounted(Advance(s, id, allowed), call)
  {
    MetersAfter(s, id, allowed, call);
    OnlyOwnTask(s, Query(id, allowed));
    assert Requests(s, MeteringOf(call)) == {};
    var t := Advance(s, id, allowed);
    assert t.calls[call].misses == t.calls[call].revivals == t.calls[call].charged == t.calls[call].spared == 0
      && t.calls[call].status == Ringing by {
      AddedCall(s, id, allowed);
    }
    hide Advance, Requests;
    RequestsStep(s, t, id, MeteringOf(call));
  }

  lemma MeteringKnown(s: State, id: nat, allowed: bool)
    requires Law(s) && id in s.tasks
    ensures var t := Advance(s, id, allowed);
      forall other :: other in t.tasks && (t.tasks[other].Metering? || t.tasks[other].LeaveMetering?) ==>
        t.tasks[other].call < |t.calls|
  {
    var t := Advance(s, id, allowed);
    OnlyOwnTask(s, Query(id, allowed));
    AddedCall(s, id, allowed);
    if id in t.tasks && (t.tasks[id].Metering? || t.tasks[id].LeaveMetering?) {
      MetersAfter(s, id, allowed, t.tasks[id].call);
    }
  }

  lemma {:induction false} LawHolds(run: seq<Action>)
    ensures Law(Exec(run))
  {
    if run != [] {
      LawHolds(Front(run));
      var s, a := Exec(Front(run)), Last(run);
      var t := Next(s, a);
      if a.Query? && a.request in s.tasks {
        forall c | 0 <= c < |t.calls|
          ensures Accounted(t, c)
        {
          if c < |s.calls| {
            QueryKeepsLaw(s, a.request, a.allowed, c);
          } else {
            NewCallLaw(s, a.request, a.allowed, c);
          }
        }
        MeteringKnown(s, a.request, a.allowed);
      } else {
        StartKeepsLaw(s, a);
      }
    }
  }

  lemma StartKeepsLaw(s: State, a: Action)
    requires Law(s) && (a.Query? ==> a.request !in s.tasks)
    ensures Law(Next(s, a))
  {
    var t := Next(s, a);
    OnlyOwnTask(s, a);
    forall c | 0 <= c < |t.calls|
      ensures Accounted(t, c)
    {
      assert Accounted(s, c);
      RequestsStep(s, t, a.request, MeteringOf(c));
    }
  }

  // How often a call has been set to ended: now, again while it was ended, and before each revival.
  function Ends(c: Call): nat {
    c.misses + c.revivals + Bit(c.status == Ended)
  }

  // Exactly, at every moment of every run: a call that is otherwise charged has been charged more than
  // once if and only if it was set to ended more than once, not counting the times that a metering
  // found fewer than two rows or is still to come.
  lemma ChargedMoreThanOnce(run: seq<Action>, call: nat)
    requires call < |Exec(run).calls|
    ensures var s := Exec(run); var c := s.calls[call];
      && c.charged + c.spared + |Requests(s, MeteringOf(call))| == Ends(c)
      && (c.charged > 1 <==> Ends(c) > 1 + c.spared + |Requests(s, MeteringOf(call))|)
  {
    LawHolds(run);
    assert Accounted(Exec(run), call);
  }

  // ---- How many live calls a channel has ----

  function Live(calls: seq<Call>, channel: int64): nat {
    if calls == [] then 0 else Live(Front(calls), channel) + Bit(LiveOn(Last(calls), channel))
  }

  // The updates on the channel that missed, and those that revived a call.
  function Lost(calls: seq<Call>, channel: int64): nat {
    if calls == [] then 0
    else
      var c := Last(calls);
      Lost(Front(calls), channel) + if c.channel == channel then c.misses + c.revivals else 0
  }

  function Worth(c: Call, channel: int64): int {
    if c.channel == channel then Bit(c.status != Ended) - c.misses - c.revivals else 0
  }

  function Excess(calls: seq<Call>, channel: int64): int {
    if calls == [] then 0 else Excess(Front(calls), channel) + Worth(Last(calls), channel)
  }

  lemma {:induction false} ExcessIs(calls: seq<Call>, channel: int64)
    ensures Excess(calls, channel) == Live(calls, channel) - Lost(calls, channel)
  {
    if calls != [] {
      ExcessIs(Front(calls), channel);
    }
  }

  lemma {:induction false} ExcessUpdate(calls: seq<Call>, i: nat, c: Call, channel: int64)
    requires i < |calls|
    ensures Excess(calls[i := c], channel) == Excess(calls, channel) - Worth(calls[i], channel) + Worth(c, channel)
  {
    if i == |calls| - 1 {
      assert Front(calls[i := c]) == Front(calls);
    } else {
      ExcessUpdate(Front(calls), i, c, channel);
      assert Front(calls[i := c]) == Front(calls)[i := c];
    }
  }

  lemma ExcessMore(calls: seq<Call>, c: Call, channel: int64)
    ensures Excess(calls + [c], channel) == Excess(calls, channel) + Worth(c, channel)
  {
    assert Front(calls + [c]) == calls;
  }

  lemma {:induction false} NoneLive(calls: seq<Call>, channel: int64)
    requires Newest(calls, channel) == None
    ensures Excess(calls, channel) <= 0
  {
    if calls != [] {
      NoneLive(Front(calls), channel);
    }
  }

  lemma {:induction false} NewestIsLive(calls: seq<Call>, channel: int64)
    ensures match Newest(calls, channel)
      case None => true
      case Some(i) => i < |calls| && LiveOn(calls[i], channel)
  {
    if calls != [] {
      NewestIsLive(Front(calls), channel);
    }
  }

  // An initiation works on calls of its own channel.
  predicate InitiateOk(s: State, t: Task) {
    (t.Listing? || t.Marking? || t.Ending? || t.Metering?) ==>
      t.call < |s.calls| && s.calls[t.call].channel == t.channel
  }

  ghost predicate InitiatesOk(s: State) {
    forall id :: id in s.tasks ==> InitiateOk(s, s.tasks[id])
  }

  lemma ChannelsStay(s: State, id: nat, allowed: bool)
    requires id in s.tasks
    ensures var t := Advance(s, id, allowed);
      |t.calls| >= |s.calls| && forall c :: 0 <= c < |s.calls| ==> t.calls[c].channel == s.calls[c].channel
  {
    hide Newest;
  }

  lemma OwnInitiate(s: State, id: nat, allowed: bool)
    requires InitiatesOk(s) && id in s.tasks
    ensures var t := Advance(s, id, allowed); id in t.tasks ==> InitiateOk(t, t.tasks[id])
  {
    var k := s.tasks[id];
    assert InitiateOk(s, k);
    if k.Finding? {
      NewestIsLive(s.calls, k.channel);
    }
  }

  lemma {:induction false} InitiatesHold(run: seq<Action>)
    ensures InitiatesOk(Exec(run))
  {
    if run != [] {
      InitiatesHold(Front(run));
      var s, a := Exec(Front(run)), Last(run);
      OnlyOwnTask(s, a);
      if a.Query? && a.request in s.tasks {
        ChannelsStay(s, a.request, a.allowed);
        OwnInitiate(s, a.request, a.allowed);
        hide Advance;
        forall other | other in Advance(s, a.request, a.allowed).tasks
          ensures InitiateOk(Advance(s, a.request, a.allowed), Advance(s, a.request, a.allowed).tasks[other])
        {
          assert other != a.request ==> InitiateOk(s, s.tasks[other]);
        }
      }
    }
  }

  // The kinds of queries that matter to a channel's live calls.
  lemma InsertsAfter(s: State, id: nat, allowed: bool, channel: int64)
    requires id in s.tasks && InitiateOk(s, s.tasks[id])
    ensures var t, k := Advance(s, id, allowed), s.tasks[id];
      Doing(t, id, InsertingOn(channel)) <==>
        || (k.Finding? && k.channel == channel && allowed && Newest(s.calls, channel) == None)
        || ((k.Ending? || k.Metering?) && k.channel == channel)
  {
    hide Written;
  }

  lemma WorthOfEffect(t: Task, c: Call, channel: int64)
    ensures Worth(Effect(t, c), channel)
         == Worth(c, channel) - Bit((t.Ending? || t.LeaveEnding?) && c.channel == channel)
  {
  }

  // How a query changes the excess: an insert adds one, an update to ended takes one, found live or not.
  lemma ExcessAfter(s: State, id: nat, allowed: bool, channel: int64)
    requires id in s.tasks && InitiateOk(s, s.tasks[id])
    ensures var t, k := Advance(s, id, allowed), s.tasks[id];
      Excess(t.calls, channel) == Excess(s.calls, channel)
        + Bit(k.Creating? && k.channel == channel)
        - Bit((k.Ending? || k.LeaveEnding?) && k.call < |s.calls| && s.calls[k.call].channel == channel)
  {
    var t, k := Advance(s, id, allowed), s.tasks[id];
    AddedCall(s, id, allowed);
    if k.Creating? {
      CreatedCall(s, id, allowed);
      ExcessMore(s.calls, Fresh(k.channel), channel);
    } else if HasCall(k) && k.call < |s.calls| {
      OneCallTouched(s, id, allowed);
      hide Advance, Excess, Effect, Worth;
      ExcessUpdate(s.calls, k.call, t.calls[k.call], channel);
      WorthOfEffect(k, s.calls[k.call], channel);
    }
  }

  lemma CreatedCall(s: State, id: nat, allowed: bool)
    requires id in s.tasks && s.tasks[id].Creating?
    ensures Advance(s, id, allowed).calls == s.calls + [Fresh(s.tasks[id].channel)]
  {
  }

  // At most n initiations of the channel are past their check, or past ending the call they found.
  ghost predicate Overlap(run: seq<Action>, kind: Kind, n: nat) {
    |Requests(Exec(run), kind)| <= n && (run == [] || Overlap(Front(run), kind, n))
  }

  lemma BoundStep(s: State, a: Action, channel: int64, n: nat)
    requires InitiatesOk(s)
    requires Excess(s.calls, channel) + |Requests(s, InsertingOn(channel))| <= n
    requires |Requests(Next(s, a), InsertingOn(channel))| <= n
    ensures Excess(Next(s, a).calls, channel) + |Requests(Next(s, a), InsertingOn(channel))| <= n
  {
    hide Requests, Excess;
    var id, t, kind := a.request, Next(s, a), InsertingOn(channel);
    OnlyOwnTask(s, a);
    RequestsStep(s, t, id, kind);
    if a.Query? && id in s.tasks {
      InsertsAfter(s, id, a.allowed, channel);
      ExcessAfter(s, id, a.allowed, channel);
      hide Advance;
      if s.tasks[id].Finding? && Newest(s.calls, s.tasks[id].channel) == None {
        NoneLive(s.calls, s.tasks[id].channel);
      }
    }
  }

  lemma {:induction false} ExcessBounded(run: seq<Action>, channel: int64, n: nat)
    requires Overlap(run, InsertingOn(channel), n)
    ensures Excess(Exec(run).calls, channel) + |Requests(Exec(run), InsertingOn(channel))| <= n
  {
    if run == [] {
      assert Requests(START, InsertingOn(channel)) == {};
    } else {
      ExcessBounded(Front(run), channel, n);
      InitiatesHold(Front(run));
      BoundStep(Exec(Front(run)), Last(run), channel, n);
    }
  }

  // On every run: a channel has at most n live calls, plus one for every update to ended that found the
  // call ended and one for every update to active that did, where n bounds the initiations of the
  // channel that are past their check, or past ending the call they found, at any one time.
  lemma LiveCallsBounded(run: seq<Action>, channel: int64, n: nat)
    requires Overlap(run, InsertingOn(channel), n)
    ensures var s := Exec(run);
      Live(s.calls, channel) + |Requests(s, InsertingOn(channel))| <= n + Lost(s.calls, channel)
  {
    ExcessBounded(run, channel, n);
    ExcessIs(Exec(run).calls, channel);
  }

  // ---- Runs, two requests side by side ----

  lemma Append(run: seq<Action>, a: Action)
    ensures Exec(run + [a]) == Next(Exec(run), a)
  {
    assert Front(run + [a]) == run;
  }

  // Requests 0 and 1 only.
  lemma TwoAtMost(run: seq<Action>, a: Action, kind: Kind)
    requires Overlap(run, kind, 2) && Next(Exec(run), a).tasks.Keys <= {0, 1}
    ensures Overlap(run + [a], kind, 2)
  {
    assert Front(run + [a]) == run;
    SubsetSize(Requests(Next(Exec(run), a), kind), {0, 1});
  }

  lemma Nothing(kind: Kind, n: nat)
    ensures Exec([]) == START && Overlap([], kind, n)
  {
    assert Requests(START, kind) == {};
  }

  // One request alone starts, runs a query, and is done.
  lemma OneStarts(run: seq<Action>, calls: seq<Call>, a: Action, t: Task, kind: Kind) returns (more: seq<Action>)
    requires Exec(run) == State(calls, map[]) && Overlap(run, kind, 2) && !a.Query? && a.request == 0
    requires Next(State(calls, map[]), a).tasks == map[0 := t]
    ensures Exec(more) == State(calls, map[0 := t]) && Overlap(more, kind, 2)
  {
    hide Overlap, Exec, Run;
    Append(run, a);
    TwoAtMost(run, a, kind);
    more := run + [a];
  }

  lemma Single(run: seq<Action>, calls: seq<Call>, a: Task, o: Outcome, kind: Kind) returns (more: seq<Action>)
    requires Exec(run) == State(calls, map[0 := a]) && Overlap(run, kind, 2)
    requires Run(calls, a, true) == o && o.next.Some?
    ensures Exec(more) == State(o.calls, map[0 := o.next.value]) && Overlap(more, kind, 2)
  {
    hide Overlap, Exec, Run;
    Append(run, Query(0, true));
    TwoAtMost(run, Query(0, true), kind);
    more := run + [Query(0, true)];
    assert map[0 := a][0 := o.next.value] == map[0 := o.next.value];
  }

  lemma LastSingle(run: seq<Action>, calls: seq<Call>, a: Task, o: Outcome, kind: Kind) returns (more: seq<Action>)
    requires Exec(run) == State(calls, map[0 := a]) && Overlap(run, kind, 2)
    requires Run(calls, a, true) == o && o.next == None
    ensures Exec(more) == State(o.calls, map[]) && Overlap(more, kind, 2)
  {
    hide Overlap, Exec, Run;
    Append(run, Query(0, true));
    TwoAtMost(run, Query(0, true), kind);
    more := run + [Query(0, true)];
    assert map[0 := a] - {0} == map[];
  }

  // Both requests run their next query, request 0 first.
  lemma Pair(run: seq<Action>, calls: seq<Call>, a: Task, b: Task, o: Outcome, p: Outcome, kind: Kind)
    returns (more: seq<Action>)
    requires Exec(run) == State(calls, map[0 := a, 1 := b]) && Overlap(run, kind, 2)
    requires Run(calls, a, true) == o && o.next.Some?
    requires Run(o.calls, b, true) == p && p.next.Some?
    ensures Exec(more) == State(p.calls, map[0 := o.next.value, 1 := p.next.value]) && Overlap(more, kind, 2)
  {
    hide Overlap, Exec, Run;
    Append(run, Query(0, true));
    TwoAtMost(run, Query(0, true), kind);
    var once := run + [Query(0, true)];
    assert map[0 := a, 1 := b][0 := o.next.value] == map[0 := o.next.value, 1 := b];
    Append(once, Query(1, true));
    TwoAtMost(once, Query(1, true), kind);
    more := once + [Query(1, true)];
    assert map[0 := o.next.value, 1 := b][1 := p.next.value] == map[0 := o.next.value, 1 := p.next.value];
  }

  // ... and both are done.
  lemma LastPair(run: seq<Action>, calls: seq<Call>, a: Task, b: Task, o: Outcome, p: Outcome, kind: Kind)
    returns (more: seq<Action>)
    requires Exec(run) == State(calls, map[0 := a, 1 := b]) && Overlap(run, kind, 2)
    requires Run(calls, a, true) == o && o.next == None
    requires Run(o.calls, b, true) == p && p.next == None
    ensures Exec(more) == State(p.calls, map[]) && Overlap(more, kind, 2)
  {
    hide Overlap, Exec, Run;
    Append(run, Query(0, true));
    TwoAtMost(run, Query(0, true), kind);
    var once := run + [Query(0, true)];
    assert map[0 := a, 1 := b] - {0} == map[1 := b];
    Append(once, Query(1, true));
    TwoAtMost(once, Query(1, true), kind);
    more := once + [Query(1, true)];
    assert map[1 := b] - {1} == map[];
  }

  // Both requests start.
  lemma BothStart(run: seq<Action>, calls: seq<Call>, a: Action, b: Action, t: Task, k: Task, kind: Kind)
    returns (more: seq<Action>)
    requires Exec(run) == State(calls, map[]) && Overlap(run, kind, 2)
    requires !a.Query? && !b.Query? && a.request == 0 && b.request == 1
    requires Next(State(calls, map[]), a).tasks == map[0 := t]
    requires Next(State(calls, map[0 := t]), b).tasks == map[0 := t, 1 := k]
    ensures Exec(more) == State(calls, map[0 := t, 1 := k]) && Overlap(more, kind, 2)
  {
    hide Overlap, Exec, Run;
    Append(run, a);
    TwoAtMost(run, a, kind);
    Append(run + [a], b);
    TwoAtMost(run + [a], b, kind);
    more := run + [a] + [b];
  }

  // ---- Two overlapping initiations at a time are enough for any number of live calls ----

  // The newest call is the user's own ringing one.
  predicate OwnNewest(calls: seq<Call>, channel: int64, user: int64) {
    calls != [] && LiveOn(Last(calls), channel) && Last(calls).active == {user}
  }

  // What the two make of the call they both find: ended twice.
  function EndedTwice(c: Call, user: int64): Call {
    Metered(Metered(EndedNow(EndedNow(Left(Left(c, user), user)))))
  }

  function AfterRound(calls: seq<Call>, channel: int64, user: int64): seq<Call>
    requires calls != []
  {
    calls[|calls| - 1 := EndedTwice(Last(calls), user)]
    + [Seated(Fresh(channel), user)] + [Seated(Fresh(channel), user)]
  }

  lemma {:induction false} LiveUpdate(calls: seq<Call>, i: nat, c: Call, channel: int64)
    requires i < |calls|
    ensures Live(calls[i := c], channel)
         == Live(calls, channel) - Bit(LiveOn(calls[i], channel)) + Bit(LiveOn(c, channel))
  {
    if i == |calls| - 1 {
      assert Front(calls[i := c]) == Front(calls);
    } else {
      LiveUpdate(Front(calls), i, c, channel);
      assert Front(calls[i := c]) == Front(calls)[i := c];
    }
  }

  lemma LiveMore(calls: seq<Call>, c: Call, channel: int64)
    ensures Live(calls + [c], channel) == Live(calls, channel) + Bit(LiveOn(c, channel))
  {
    assert Front(calls + [c]) == calls;
  }

  lemma RoundAddsOne(calls: seq<Call>, channel: int64, user: int64)
    requires OwnNewest(calls, channel, user)
    ensures Live(AfterRound(calls, channel, user), channel) == Live(calls, channel) + 1
    ensures OwnNewest(AfterRound(calls, channel, user), channel, user)
  {
    var i, mine := |calls| - 1, Seated(Fresh(channel), user);
    var ended := calls[i := EndedTwice(Last(calls), user)];
    assert mine.active == {user};
    LiveUpdate(calls, i, EndedTwice(Last(calls), user), channel);
    LiveMore(ended, mine, channel);
    LiveMore(ended + [mine], mine, channel);
  }

  lemma BothFind(run: seq<Action>, calls: seq<Call>, channel: int64, user: int64, kind: Kind)
    returns (more: seq<Action>)
    requires Exec(run) == State(calls, map[]) && Overlap(run, kind, 2) && OwnNewest(calls, channel, user)
    ensures var mark := Marking(channel, user, |calls| - 1);
      Exec(more) == State(calls, map[0 := mark, 1 := mark])
    ensures Overlap(more, kind, 2)
  {
    hide Overlap, Exec;
    var i := |calls| - 1;
    var find, list, mark := Finding(channel, user), Listing(channel, user, i), Marking(channel, user, i);
    more := BothStart(run, calls, Initiate(0, channel, user), Initiate(1, channel, user), find, find, kind);
    more := Pair(more, calls, find, find, Then(calls, list), Then(calls, list), kind);
    hide Newest;
    more := Pair(more, calls, list, list, Then(calls, mark), Then(calls, mark), kind);
  }

  // The queries of the round, up to both calls being created.
  lemma Clearing(run: seq<Action>, calls: seq<Call>, channel: int64, user: int64, kind: Kind)
    returns (more: seq<Action>)
    requires Exec(run) == State(calls, map[]) && Overlap(run, kind, 2) && OwnNewest(calls, channel, user)
    ensures var i := |calls| - 1;
      Exec(more) == State(calls[i := EndedTwice(calls[i], user)],
                          map[0 := Creating(channel, user), 1 := Creating(channel, user)])
    ensures Overlap(more, kind, 2)
  {
    hide Overlap, Exec;
    var i := |calls| - 1;
    var mark, end := Marking(channel, user, i), Ending(channel, user, i);
    var meter, create := Metering(channel, user, i), Creating(channel, user);
    more := BothFind(run, calls, channel, user, kind);
    hide Newest;
    var left := calls[i := Left(calls[i], user)];
    var left2 := left[i := Left(left[i], user)];
    more := Pair(more, calls, mark, mark, Then(left, end), Then(left2, end), kind);
    var ended := left2[i := EndedNow(left2[i])];
    var ended2 := ended[i := EndedNow(ended[i])];
    more := Pair(more, left2, end, end, Then(ended, meter), Then(ended2, meter), kind);
    var metered := ended2[i := Metered(ended2[i])];
    var metered2 := metered[i := Metered(metered[i])];
    more := Pair(more, ended2, meter, meter, Then(metered, create), Then(metered2, create), kind);
    assert metered2 == calls[i := EndedTwice(calls[i], user)];
  }

  lemma Round(run: seq<Action>, calls: seq<Call>, channel: int64, user: int64, kind: Kind)
    returns (more: seq<Action>)
    requires Exec(run) == State(calls, map[]) && Overlap(run, kind, 2) && OwnNewest(calls, channel, user)
    ensures Exec(more) == State(AfterRound(calls, channel, user), map[]) && Overlap(more, kind, 2)
  {
    hide Overlap, Exec, EndedTwice;
    more := Clearing(run, calls, channel, user, kind);
    var i, create, ring := |calls| - 1, Creating(channel, user), Fresh(channel);
    var ended := calls[i := EndedTwice(calls[i], user)];
    var seat, seat2 := Seating(user, |calls|), Seating(user, |calls| + 1);
    var one, two := ended + [ring], ended + [ring] + [ring];
    more := Pair(more, ended, create, create, Then(one, seat), Then(two, seat2), kind);
    var seated := two[|calls| := Seated(ring, user)];
    var seated2 := seated[|calls| + 1 := Seated(ring, user)];
    more := LastPair(more, two, seat, seat2, Stop(seated), Stop(seated2), kind);
    assert seated2 == AfterRound(calls, channel, user);
  }

  lemma NoneFound(channel: int64, user: int64, kind: Kind) returns (run: seq<Action>)
    ensures Exec(run) == State([], map[0 := Creating(channel, user)]) && Overlap(run, kind, 2)
  {
    Nothing(kind, 2);
    hide Overlap, Exec;
    run := OneStarts([], [], Initiate(0, channel, user), Finding(channel, user), kind);
    run := Single(run, [], Finding(channel, user), Then([], Creating(channel, user)), kind);
  }

  lemma FirstCall(channel: int64, user: int64, kind: Kind) returns (run: seq<Action>)
    ensures Exec(run) == State([Seated(Fresh(channel), user)], map[]) && Overlap(run, kind, 2)
  {
    hide Overlap, Exec, Newest, Seated;
    var calls := [Fresh(channel)];
    run := NoneFound(channel, user, kind);
    assert [] + [Fresh(channel)] == calls;
    run := Single(run, [], Creating(channel, user), Then(calls, Seating(user, 0)), kind);
    run := LastSingle(run, calls, Seating(user, 0), Stop(calls[0 := Seated(calls[0], user)]), kind);
  }

  // For every k, some run in which no more than two initiations of the channel are ever under way, all
  // by one user, ends with k live calls and no request left.
  lemma TwoAreEnough(channel: int64, user: int64, k: nat) returns (run: seq<Action>)
    requires k > 0
    ensures Overlap(run, InitiatingOn(channel), 2)
    ensures Live(Exec(run).calls, channel) == k && Exec(run).tasks == map[]
  {
    hide Overlap, Exec;
    var kind := InitiatingOn(channel);
    run := FirstCall(channel, user, kind);
    ghost var calls := [Seated(Fresh(channel), user)];
    assert calls == [] + [Seated(Fresh(channel), user)];
    LiveMore([], Seated(Fresh(channel), user), channel);
    for j := 1 to k
      invariant Exec(run) == State(calls, map[]) && Overlap(run, kind, 2)
      invariant OwnNewest(calls, channel, user) && Live(calls, channel) == j
    {
      run := Round(run, calls, channel, user, kind);
      RoundAddsOne(calls, channel, user);
      calls := AfterRound(calls, channel, user);
    }
  }

  // ---- n overlapping initiations reach n live calls, with no update lost ----

  // Requests 0 to w - 1 are about to create their calls.
  ghost predicate Queued(s: State, channel: int64, user: int64, r: nat, w: nat) {
    && Live(s.calls, channel) == r && Lost(s.calls, channel) == 0
    && (forall id: nat :: id in s.tasks <==> id < w)
    && (forall id :: id in s.tasks ==> s.tasks[id] == Creating(channel, user))
  }

  lemma {:induction false} FirstNumbers(numbers: set<nat>, n: nat)
    requires forall q :: q in numbers ==> q < n
    ensures |numbers| <= n
  {
    if n > 0 {
      FirstNumbers(numbers - {n - 1}, n - 1);
    }
  }

  lemma OverlapMore(run: seq<Action>, a: Action, kind: Kind, n: nat)
    requires Overlap(run, kind, n) && forall id :: id in Next(Exec(run), a).tasks ==> id < n
    ensures Exec(run + [a]) == Next(Exec(run), a) && Overlap(run + [a], kind, n)
  {
    assert Front(run + [a]) == run;
    FirstNumbers(Requests(Next(Exec(run), a), kind), n);
  }

  lemma LostMore(calls: seq<Call>, c: Call, channel: int64)
    requires c.misses == c.revivals == 0
    ensures Lost(calls + [c], channel) == Lost(calls, channel)
  {
    assert Front(calls + [c]) == calls;
  }

  // Request w finds no call.
  lemma Queue(run: seq<Action>, channel: int64, user: int64, w: nat, n: nat, kind: Kind) returns (more: seq<Action>)
    requires Exec(run).calls == [] && Queued(Exec(run), channel, user, 0, w) && Overlap(run, kind, n) && w < n
    ensures Exec(more).calls == [] && Queued(Exec(more), channel, user, 0, w + 1) && Overlap(more, kind, n)
  {
    hide Overlap, Exec;
    OverlapMore(run, Initiate(w, channel, user), kind, n);
    more := run + [Initiate(w, channel, user)];
    assert Exec(more).tasks[w] == Finding(channel, user);
    OverlapMore(more, Query(w, true), kind, n);
    more := more + [Query(w, true)];
  }

  // Request w - 1 creates its call and seats the user.
  lemma Open(run: seq<Action>, channel: int64, user: int64, r: nat, w: nat, n: nat, kind: Kind)
    returns (more: seq<Action>)
    requires Queued(Exec(run), channel, user, r, w) && Overlap(run, kind, n) && 0 < w <= n
    ensures Queued(Exec(more), channel, user, r + 1, w - 1) && Overlap(more, kind, n)
  {
    hide Overlap, Exec, Live, Lost;
    var calls, id := Exec(run).calls, w - 1;
    OverlapMore(run, Query(id, true), kind, n);
    more := run + [Query(id, true)];
    assert Exec(more).tasks[id] == Seating(user, |calls|) && Exec(more).calls == calls + [Fresh(channel)];
    OverlapMore(more, Query(id, true), kind, n);
    more := more + [Query(id, true)];
    var seated := Seated(Fresh(channel), user);
    assert Exec(more).calls == calls + [seated];
    LiveMore(calls, seated, channel);
    LostMore(calls, seated, channel);
  }

  lemma LiveCallsReached(channel: int64, user: int64, n: nat) returns (run: seq<Action>)
    ensures Overlap(run, InitiatingOn(channel), n)
    ensures Live(Exec(run).calls, channel) == n && Lost(Exec(run).calls, channel) == 0
  {
    hide Overlap, Exec;
    var kind := InitiatingOn(channel);
    Nothing(kind, n);
    run := [];
    for w := 0 to n
      invariant Exec(run).calls == [] && Queued(Exec(run), channel, user, 0, w) && Overlap(run, kind, n)
    {
      run := Queue(run, channel, user, w, n, kind);
    }
    for r := 0 to n
      invariant Queued(Exec(run), channel, user, r, n - r) && Overlap(run, kind, n)
    {
      run := Open(run, channel, user, r, n - r, n, kind);
    }
  }

  // ---- The last two leave at once, and a join that comes late ----

  // A call two users take part in.
  function Both(channel: int64): Call {
    Call(channel, Active, {1, 2}, 2, 0, 0, 0, 0)
  }

  // A channel's first call, by user 1, and user 2's join up to the insert.
  lemma Joining(channel: int64, kind: Kind) returns (run: seq<Action>)
    ensures Exec(run) == State([Seated(Fresh(channel), 1)], map[0 := JoinSeating(2, 0, true)]) && Overlap(run, kind, 2)
  {
    hide Overlap, Exec;
    run := FirstCall(channel, 1, kind);
    var one := [Seated(Fresh(channel), 1)];
    run := OneStarts(run, one, Join(0, 2, 0), JoinReading(2, 0), kind);
    run := Single(run, one, JoinReading(2, 0), Then(one, JoinLooking(2, 0, true)), kind);
    assert one[0].active == {1};
    run := Single(run, one, JoinLooking(2, 0, true), Then(one, JoinSeating(2, 0, true)), kind);
  }

  // ... and up to the update to active.
  lemma Joined(channel: int64, kind: Kind) returns (run: seq<Action>)
    ensures Exec(run) == State([Both(channel).(status := Ringing)], map[0 := Activating(0)]) && Overlap(run, kind, 2)
  {
    hide Overlap, Exec;
    run := Joining(channel, kind);
    var one, two := [Seated(Fresh(channel), 1)], [Both(channel).(status := Ringing)];
    assert one[0 := Seated(one[0], 2)] == two by { assert {} + {1} + {2} == {1, 2}; }
    run := Single(run, one, JoinSeating(2, 0, true), Then(two, JoinCounting(0, true)), kind);
    assert |two[0].active| == 2;
    run := Single(run, two, JoinCounting(0, true), Then(two, Activating(0)), kind);
  }

  // Both mark themselves as having left before either counts: both end the call, and both meter it.
  lemma ChargedTwice(channel: int64) returns (run: seq<Action>)
    ensures var s := Exec(run);
      && |s.calls| == 1 && s.tasks == map[] && s.calls[0].status == Ended
      && s.calls[0].charged == 2 && s.calls[0].misses == 1 && s.calls[0].revivals == 0
  {
    hide Overlap, Exec;
    var kind := InitiatingOn(channel);
    run := Joined(channel, kind);
    var two := [Both(channel)];
    run := LastSingle(run, [Both(channel).(status := Ringing)], Activating(0), Stop(two), kind);
    run := BothStart(run, two, Leave(0, 1, 0), Leave(1, 2, 0), LeaveReading(1, 0), LeaveReading(2, 0), kind);
    var look, look2 := LeaveLooking(1, 0), LeaveLooking(2, 0);
    run := Pair(run, two, LeaveReading(1, 0), LeaveReading(2, 0), Then(two, look), Then(two, look2), kind);
    run := Pair(run, two, look, look2, Then(two, LeaveMarking(1, 0)), Then(two, LeaveMarking(2, 0)), kind);
    run := BothGo(run, channel, kind);
  }

  lemma BothGo(run: seq<Action>, channel: int64, kind: Kind) returns (more: seq<Action>)
    requires Exec(run) == State([Both(channel)], map[0 := LeaveMarking(1, 0), 1 := LeaveMarking(2, 0)])
    requires Overlap(run, kind, 2)
    ensures Exec(more) == State([Both(channel).(active := {}, status := Ended, misses := 1, charged := 2)], map[])
  {
    hide Overlap, Exec, Run;
    more := MarkBoth(run, Both(channel), kind);
    more := EndTwice(more, Both(channel).(active := {}), kind);
  }

  lemma MarkBoth(run: seq<Action>, c: Call, kind: Kind) returns (more: seq<Action>)
    requires Exec(run) == State([c], map[0 := LeaveMarking(1, 0), 1 := LeaveMarking(2, 0)])
    requires Overlap(run, kind, 2) && c.active == {1, 2}
    ensures Exec(more) == State([c.(active := {})], map[0 := LeaveEnding(0), 1 := LeaveEnding(0)])
    ensures Overlap(more, kind, 2)
  {
    hide Overlap, Exec;
    assert {1, 2} - {1} == {2} && {2} - {2} == {};
    var alone, gone, count := [c.(active := {2})], [c.(active := {})], LeaveCounting(0);
    more := Pair(run, [c], LeaveMarking(1, 0), LeaveMarking(2, 0), Then(alone, count), Then(gone, count), kind);
    more := Pair(more, gone, count, count, Then(gone, LeaveEnding(0)), Then(gone, LeaveEnding(0)), kind);
  }

  lemma EndTwice(run: seq<Action>, c: Call, kind: Kind) returns (more: seq<Action>)
    requires Exec(run) == State([c], map[0 := LeaveEnding(0), 1 := LeaveEnding(0)]) && Overlap(run, kind, 2)
    ensures Exec(more) == State([Metered(Metered(EndedNow(EndedNow(c))))], map[])
  {
    hide Overlap, Exec, EndedNow, Metered;
    var end, meter := LeaveEnding(0), LeaveMetering(0);
    var ended, ended2 := [EndedNow(c)], [EndedNow(EndedNow(c))];
    more := Pair(run, [c], end, end, Then(ended, meter), Then(ended2, meter), kind);
    var metered, metered2 := [Metered(ended2[0])], [Metered(Metered(ended2[0]))];
    more := LastPair(more, ended2, meter, meter, Stop(metered), Stop(metered2), kind);
  }

  // A join counts two and is about to set the call to active; one of the two leaves, which ends the
  // call for both; then the join revives it, with nobody in it and no request left.
  lemma RevivedEmpty(channel: int64) returns (run: seq<Action>)
    ensures var s := Exec(run);
      && |s.calls| == 1 && s.tasks == map[] && s.calls[0].status == Active
      && s.calls[0].active == {} && s.calls[0].revivals == 1 && s.calls[0].charged == 1
  {
    hide Overlap, Exec;
    var kind := InitiatingOn(channel);
    run := Joined(channel, kind);
    var two := [Both(channel).(status := Ringing)];
    run := Beside(run, two, Leave(1, 1, 0), kind);
    run := Aside(run, two, LeaveReading(1, 0), Then(two, LeaveLooking(1, 0)), kind);
    run := Aside(run, two, LeaveLooking(1, 0), Then(two, LeaveMarking(1, 0)), kind);
    run := LastOfTwo(run, channel, kind);
    var ended := [two[0].(active := {}, status := Ended, charged := 1)];
    run := LastSingle(run, ended, Activating(0), Stop([ended[0].(status := Active, revivals := 1)]), kind);
  }

  // Request 1 starts, and runs its next query, while request 0 is about to set the call to active.
  lemma Beside(run: seq<Action>, calls: seq<Call>, a: Action, kind: Kind) returns (more: seq<Action>)
    requires Exec(run) == State(calls, map[0 := Activating(0)]) && Overlap(run, kind, 2)
    requires a.Leave? && a.request == 1
    ensures Exec(more) == State(calls, map[0 := Activating(0), 1 := LeaveReading(a.user, a.call)])
    ensures Overlap(more, kind, 2)
  {
    hide Overlap, Exec, Run;
    Append(run, a);
    TwoAtMost(run, a, kind);
    more := run + [a];
  }

  lemma Aside(run: seq<Action>, calls: seq<Call>, t: Task, o: Outcome, kind: Kind) returns (more: seq<Action>)
    requires Exec(run) == State(calls, map[0 := Activating(0), 1 := t]) && Overlap(run, kind, 2)
    requires Run(calls, t, true) == o
    ensures Overlap(more, kind, 2)
    ensures Exec(more) == match o.next
      case None => State(o.calls, map[0 := Activating(0)])
      case Some(k) => State(o.calls, map[0 := Activating(0), 1 := k])
  {
    hide Overlap, Exec, Run;
    Append(run, Query(1, true));
    TwoAtMost(run, Query(1, true), kind);
    more := run + [Query(1, true)];
    var tasks := map[0 := Activating(0), 1 := t];
    assert tasks - {1} == map[0 := Activating(0)];
    assert o.next.Some? ==> tasks[1 := o.next.value] == map[0 := Activating(0), 1 := o.next.value];
  }

  // User 1 leaves; user 2, the only one left, is marked too; the call ends and is metered.
  lemma LastOfTwo(run: seq<Action>, channel: int64, kind: Kind) returns (more: seq<Action>)
    requires Exec(run) == State([Both(channel).(status := Ringing)], map[0 := Activating(0), 1 := LeaveMarking(1, 0)])
    requires Overlap(run, kind, 2)
    ensures Overlap(more, kind, 2)
    ensures Exec(more) == State([Both(channel).(active := {}, status := Ended, charged := 1)], map[0 := Activating(0)])
  {
    hide Overlap, Exec, Run;
    var c := Both(channel).(status := Ringing);
    more := OneGoes(run, c, kind);
    more := OtherCleared(more, c.(active := {2}), kind);
    more := EndAside(more, c.(active := {}), kind);
  }

  lemma OneGoes(run: seq<Action>, c: Call, kind: Kind) returns (more: seq<Action>)
    requires Exec(run) == State([c], map[0 := Activating(0), 1 := LeaveMarking(1, 0)])
    requires Overlap(run, kind, 2) && c.active == {1, 2}
    ensures Overlap(more, kind, 2)
    ensures Exec(more) == State([c.(active := {2})], map[0 := Activating(0), 1 := LeaveListing(0)])
  {
    hide Overlap, Exec;
    assert {1, 2} - {1} == {2};
    var alone := [c.(active := {2})];
    more := Aside(run, [c], LeaveMarking(1, 0), Then(alone, LeaveCounting(0)), kind);
    more := Aside(more, alone, LeaveCounting(0), Then(alone, LeaveListing(0)), kind);
  }

  lemma OtherCleared(run: seq<Action>, c: Call, kind: Kind) returns (more: seq<Action>)
    requires Exec(run) == State([c], map[0 := Activating(0), 1 := LeaveListing(0)])
    requires Overlap(run, kind, 2) && c.active == {2}
    ensures Overlap(more, kind, 2)
    ensures Exec(more) == State([c.(active := {})], map[0 := Activating(0), 1 := LeaveEnding(0)])
  {
    hide Overlap, Exec;
    var gone := [c.(active := {})];
    more := Aside(run, [c], LeaveListing(0), Then([c], LeaveClearing(0, {2})), kind);
    ClearOne([c], gone);
    more := Aside(more, [c], LeaveClearing(0, {2}), Then(gone, LeaveClearing(0, {})), kind);
    more := Aside(more, gone, LeaveClearing(0, {}), Then(gone, LeaveEnding(0)), kind);
  }

  lemma EndAside(run: seq<Action>, c: Call, kind: Kind) returns (more: seq<Action>)
    requires Exec(run) == State([c], map[0 := Activating(0), 1 := LeaveEnding(0)]) && Overlap(run, kind, 2)
    ensures Exec(more) == State([Metered(EndedNow(c))], map[0 := Activating(0)]) && Overlap(more, kind, 2)
  {
    hide Overlap, Exec, EndedNow, Metered;
    var ended := [EndedNow(c)];
    more := Aside(run, [c], LeaveEnding(0), Then(ended, LeaveMetering(0)), kind);
    more := Aside(more, ended, LeaveMetering(0), Stop([Metered(ended[0])]), kind);
  }

  lemma ClearOne(calls: seq<Call>, gone: seq<Call>)
    requires |calls| == 1 && calls[0].active == {2} && gone == [calls[0].(active := {})]
    ensures Run(calls, LeaveClearing(0, {2}), true) == Then(gone, LeaveClearing(0, {}))
  {
    assert {2} - {2} == {};
  }
}
