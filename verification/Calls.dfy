// internal/calls/service.go over the calls, call_participants, call_recordings and usage_counters
// tables. Each method is one successful transaction, at the time it is given.
module Calls {
  import opened Base
  import opened CallRows
  import opened Sums

  datatype Error =
    | NotFound | NotMember | NotParticipant | CallEnded | CallAlreadyActive | CallFull
    | RecordingActive | RecordingNotFound | InvalidMode
    | VideoRefused  // any error of the plan and quota check

  datatype Result<+T> = Ok(value: T) | Err(error: Error)

  datatype Recording = Recording(call: nat, startedBy: int64, endedAt: Option<int>)

  // The apps row a workspace belongs to, as its live or its sandbox workspace.
  datatype App = App(id: int64, owner: int64, sandboxWorkspace: int64)

  // The answers of the services a call operation consults.
  datatype Checks = Checks(member: bool, videoAllowed: bool)

  datatype Billing = Billing(apps: map<int64, App>, monthOf: int -> int)

  type Usage = map<(int64, int), int>  // (app, month) -> video minutes

  function UsageAt(usage: Usage, app: int64, month: int): int {
    if (app, month) in usage then usage[(app, month)] else 0
  }

  function NormalizeMode(mode: string): Result<Mode> {
    if mode == "" || mode == "voice" then Ok(Voice)
    else if mode == "video" then Ok(Video)
    else Err(InvalidMode)
  }

  // ---- What a call costs, read off its final rows ----

  // A call is charged when it is a video call that ended later than it started, that was once
  // active, in the live workspace of an app.
  predicate Chargeable(b: Billing, call: Call, wasActive: bool) {
    && call.mode == Video
    && call.endedAt.Some?
    && call.endedAt.value > call.createdAt
    && wasActive
    && call.workspace in b.apps
    && call.workspace != b.apps[call.workspace].sandboxWorkspace
  }

  function Charge(b: Billing, call: Call, wasActive: bool, app: int64, month: int): int {
    if Chargeable(b, call, wasActive) && b.apps[call.workspace].id == app && b.monthOf(call.endedAt.value) == month
    then Minutes(call.endedAt.value - call.createdAt)
    else 0
  }

  function TotalCharge(b: Billing, calls: seq<Call>, wasActive: seq<bool>, app: int64, month: int): int
    requires |calls| == |wasActive|
  {
    if calls == [] then 0
    else
      TotalCharge(b, Front(calls), Front(wasActive), app, month) + Charge(b, Last(calls), Last(wasActive), app, month)
  }

  lemma {:induction false} TotalChargeUpdate(b: Billing, calls: seq<Call>, wasActive: seq<bool>, i: nat,
                                             call: Call, active: bool, app: int64, month: int)
    requires i < |calls| == |wasActive|
    ensures TotalCharge(b, calls[i := call], wasActive[i := active], app, month)
         == TotalCharge(b, calls, wasActive, app, month)
            - Charge(b, calls[i], wasActive[i], app, month) + Charge(b, call, active, app, month)
  {
    if i == |calls| - 1 {
      assert Front(calls[i := call]) == Front(calls) && Front(wasActive[i := active]) == Front(wasActive);
    } else {
      TotalChargeUpdate(b, Front(calls), Front(wasActive), i, call, active, app, month);
      assert Front(calls[i := call]) == Front(calls)[i := call];
      assert Front(wasActive[i := active]) == Front(wasActive)[i := active];
    }
  }

  // A call that has ended keeps its rows and its end time for ever.
  predicate EndedKept(calls: seq<Call>, rows: seq<Rows>, calls': seq<Call>, rows': seq<Rows>) {
    && |calls| <= |calls'| == |rows'|
    && forall i :: 0 <= i < |calls| && i < |rows| && calls[i].status == Ended ==>
         calls'[i] == calls[i] && rows'[i] == rows[i]
  }

  class Service {
    const billing: Option<Billing>
    const maxParticipants: int
    const planLimit: map<int64, int>  // workspace -> max_call_participants of the owner's plan

    var calls: seq<Call>              // indexed by call id
    var rows: seq<Rows>               // the participant rows of each call
    var recordings: seq<Recording>    // indexed by recording id
    var usage: Usage
    // Whether the call ever had status active.
    ghost var wasActive: seq<bool>

    ghost predicate TablesOk()
      reads this
    {
      && |calls| == |rows| == |wasActive|
      && (forall i :: 0 <= i < |calls| ==> CallOk(calls[i], rows[i]))
      && (forall i :: 0 <= i < |calls| ==> (wasActive[i] <==> |rows[i]| >= 2))
    }

    // A channel has at most one live call.
    ghost predicate OneLiveCall()
      reads this
    {
      forall i, j :: 0 <= i < j < |calls| && calls[i].status != Ended && calls[j].status != Ended ==>
        calls[i].channel != calls[j].channel
    }

    ghost predicate WithinLimit()
      reads this
      requires |calls| == |rows|
    {
      forall i :: 0 <= i < |calls| && ParticipantLimit(calls[i].workspace) > 0 ==>
        ActiveCount(rows[i]) <= ParticipantLimit(calls[i].workspace)
    }

    ghost predicate OneOpenRecording()
      reads this
    {
      && (forall i :: 0 <= i < |recordings| ==> recordings[i].call < |calls|)
      && forall i, j :: 0 <= i < j < |recordings| && recordings[i].endedAt == None && recordings[j].endedAt == None ==>
           recordings[i].call != recordings[j].call
    }

    // The counters hold the charges of the calls, and nothing else.
    ghost predicate UsageExact()
      reads this
      requires |calls| == |wasActive|
    {
      forall app: int64, month: int :: UsageAt(usage, app, month) ==
        if billing.Some? then TotalCharge(billing.value, calls, wasActive, app, month) else 0
    }

    ghost predicate Valid()
      reads this
    {
      TablesOk() && OneLiveCall() && WithinLimit() && OneOpenRecording() && UsageExact()
    }

    constructor (billing: Option<Billing>, maxParticipants: int, planLimit: map<int64, int>)
      ensures Valid() && calls == [] && recordings == [] && usage == map[]
      ensures this.billing == billing && this.maxParticipants == maxParticipants && this.planLimit == planLimit
    {
      this.billing, this.maxParticipants, this.planLimit := billing, maxParticipants, planLimit;
      calls, rows, recordings, usage, wasActive := [], [], [], map[], [];
    }

    // MaxCallParticipantsForWorkspace, when billing is set up.
    function PlanLimit(workspace: int64): int {
      if billing.Some? && workspace in planLimit then planLimit[workspace] else 0
    }

    // The smaller of the two limits that are set; zero or less means no limit.
    function ParticipantLimit(workspace: int64): (limit: int)
      ensures maxParticipants > 0 ==> 0 < limit <= maxParticipants
      ensures PlanLimit(workspace) > 0 ==> 0 < limit <= PlanLimit(workspace)
      ensures limit == maxParticipants || (limit == PlanLimit(workspace) && limit > 0)
    {
      var plan := PlanLimit(workspace);
      if plan > 0 && (maxParticipants <= 0 || plan < maxParticipants) then plan else maxParticipants
    }

    // At one of the limits that are set.
    function CallFullAt(workspace: int64, count: int): (full: bool)
      ensures full <==>
        || 0 < maxParticipants <= count
        || (billing.Some? && workspace in planLimit && 0 < planLimit[workspace] <= count)
    {
      ParticipantLimit(workspace) > 0 && count >= ParticipantLimit(workspace)
    }

    // ---- Metering ----

    // meterVideoCall on a call that has just ended, with RecordVideoMinutesByWorkspaceID.
    method Meter(call: Call, total: int)
      requires call.endedAt.Some?
      modifies this`usage
      ensures forall app: int64, month: int :: UsageAt(usage, app, month) == old(UsageAt(usage, app, month)) +
                if billing.Some? then Charge(billing.value, call, total >= 2, app, month) else 0
      ensures forall app: int64, month: int :: UsageAt(usage, app, month) == old(UsageAt(usage, app, month)) +
                if && billing.Some? && call.mode == Video && total >= 2 && call.endedAt.value > call.createdAt
                   && call.workspace in billing.value.apps
                   && call.workspace != billing.value.apps[call.workspace].sandboxWorkspace
                   && app == billing.value.apps[call.workspace].id
                   && month == billing.value.monthOf(call.endedAt.value)
                then
                  var d := call.endedAt.value - call.createdAt;
                  Ceiling(d) - if d >= MINUTE && 0 < d % MINUTE < SECOND then 1 else 0
                else 0
    {
      if call.endedAt.value > call.createdAt {
        MinutesAgainstCeiling(call.endedAt.value - call.createdAt);
      }
      hide Minutes, Ceiling;
      if billing == None || call.mode != Video {
        return;
      }
      if total < 2 {
        return;
      }
      var end := call.endedAt.value;
      if !(end > call.createdAt) {
        return;
      }
      var minutes := Minutes(end - call.createdAt);
      if call.workspace !in billing.value.apps {
        return;
      }
      var app := billing.value.apps[call.workspace];
      if call.workspace == app.sandboxWorkspace {
        return;
      }
      var key := (app.id, billing.value.monthOf(end));
      usage := usage[key := UsageAt(usage, key.0, key.1) + minutes];
    }

    // ---- Ending a call ----

    // UpdateCallStatus to ended, once everybody has left, and the metering that follows.
    method EndCall(id: nat, left: Rows, now: int)
      requires Valid() && id < |calls| && calls[id].status != Ended
      requires |left| == |rows[id]| && ActiveCount(left) == 0 && UniqueActive(left)
      requires forall k :: 0 <= k < |left| ==> left[k].user == rows[id][k].user
      modifies this`calls, this`rows, this`usage
      ensures Valid()
      ensures calls == old(calls)[id := old(calls[id]).(status := Ended, endedAt := Some(now))]
      ensures rows == old(rows)[id := left]
      ensures |left| < 2 ==> forall app: int64, month: int ::
                UsageAt(usage, app, month) == old(UsageAt(usage, app, month))
    {
      hide ActiveCount, UniqueActive, TotalCharge;
      var call := calls[id].(status := Ended, endedAt := Some(now));
      assert CallOk(calls[id], rows[id]);
      label before:
      Meter(call, |left|);
      calls, rows := calls[id := call], rows[id := left];
      assert wasActive[id := wasActive[id]] == wasActive;
      if billing.Some? {
        forall app: int64, month: int
          ensures UsageAt(usage, app, month) == TotalCharge(billing.value, calls, wasActive, app, month)
        {
          assert old(UsageAt(usage, app, month)) == old(TotalCharge(billing.value, calls, wasActive, app, month));
          TotalChargeUpdate(billing.value, old(calls), wasActive, id, call, wasActive[id], app, month);
        }
      }
      forall i | 0 <= i < |calls|
        ensures CallOk(calls[i], rows[i])
      {
        assert old(CallOk(calls[i], rows[i]));
      }
    }

    // A call with one active participant who is the caller is ended to make way for a new one. It
    // never had a second participant, so this never charges anything.
    method ClearStaleSoloCall(id: nat, user: int64, now: int) returns (cleared: bool)
      requires Valid() && id < |calls| && calls[id].status != Ended
      modifies this`calls, this`rows, this`usage
      ensures Valid()
      ensures cleared <==> Solo(old(rows[id]), user)
      ensures !cleared ==> unchanged(this)
      ensures cleared ==> calls == old(calls)[id := old(calls[id]).(status := Ended, endedAt := Some(now))]
      ensures cleared ==> rows == old(rows)[id := AllLeft(old(rows[id]), now)]
      ensures forall app: int64, month: int :: UsageAt(usage, app, month) == old(UsageAt(usage, app, month))
    {
      assert CallOk(calls[id], rows[id]);
      var participants := ListActive(rows[id]);
      SoloListed(rows[id], participants, user);
      if |participants| != 1 || participants[0] != user {
        return false;
      }
      var left := MarkLeft(rows[id], user, now);
      MarkLeftCount(rows[id], user, now);
      SoloAllLeft(rows[id], user, now);
      EndCall(id, left, now);
      return true;
    }

    // ---- Starting a call ----

    // GetActiveCallByChannel
    method FindLive(channel: int64) returns (found: Option<nat>)
      ensures found.Some? ==>
                found.value < |calls| && calls[found.value].channel == channel && calls[found.value].status != Ended
      ensures found == None ==> forall i :: 0 <= i < |calls| && calls[i].channel == channel ==> calls[i].status == Ended
    {
      var i := |calls|;
      while i > 0
        invariant 0 <= i <= |calls|
        invariant forall j :: i <= j < |calls| && calls[j].channel == channel ==> calls[j].status == Ended
      {
        i := i - 1;
        if calls[i].channel == channel && calls[i].status != Ended {
          return Some(i);
        }
      }
      return None;
    }

    // CreateCall and AddCallParticipant for the initiator.
    method CreateCall(workspace: int64, channel: int64, user: int64, mode: Mode, now: int) returns (id: nat)
      requires Valid()
      requires forall i :: 0 <= i < |calls| && calls[i].channel == channel ==> calls[i].status == Ended
      modifies this`calls, this`rows, this`wasActive
      ensures Valid() && id == |old(calls)|
      ensures calls == old(calls) + [Call(channel, workspace, user, Ringing, mode, now, None)]
      ensures rows == old(rows) + [[Participant(user, None)]]
    {
      hide TotalCharge, CallOk;
      var call := Call(channel, workspace, user, Ringing, mode, now, None);
      var first := [Participant(user, None)];
      assert CallOk(call, first) && ActiveCount(first) == 1 by { FirstRowOk(call, user); }
      id := |calls|;
      calls, rows, wasActive := calls + [call], rows + [first], wasActive + [false];
      forall i | 0 <= i < |calls|
        ensures CallOk(calls[i], rows[i])
      {
        assert i < id ==> old(CallOk(calls[i], rows[i]));
      }
      forall app: int64, month: int | billing.Some?
        ensures UsageAt(usage, app, month) == TotalCharge(billing.value, calls, wasActive, app, month)
      {
        TotalChargeAdd(billing.value, old(calls), old(wasActive), call, app, month);
      }
    }

    // Whether the channel had no live call, or only the user's own stale one, which is now ended.
    method ClearChannel(channel: int64, user: int64, now: int) returns (clear: bool)
      requires Valid()
      modifies this`calls, this`rows, this`usage
      ensures Valid() && clear == old(OnlyOwnStale(channel, user))
      ensures !clear ==> unchanged(this)
      ensures clear ==> |calls| == |rows| == |old(calls)|
      ensures clear ==> forall i :: 0 <= i < |calls| ==>
        if old(calls[i].channel == channel && calls[i].status != Ended) then
          && calls[i] == old(calls[i]).(status := Ended, endedAt := Some(now))
          && rows[i] == AllLeft(old(rows[i]), now)
        else
          calls[i] == old(calls[i]) && rows[i] == old(rows[i])
      ensures forall app: int64, month: int :: UsageAt(usage, app, month) == old(UsageAt(usage, app, month))
    {
      hide CallOk, Solo, TotalCharge;
      var existing := FindLive(channel);
      if existing == None {
        return true;
      }
      clear := ClearStaleSoloCall(existing.value, user, now);
    }

    // The call starts exactly when the caller may start it and every live call of the channel is the
    // caller's own stale solo call; the stale call is then ended, and nothing is ever charged.
    method InitiateCall(workspace: int64, channel: int64, user: int64, mode: string, checks: Checks, now: int)
      returns (r: Result<nat>)
      requires Valid()
      modifies this`calls, this`rows, this`usage, this`wasActive
      ensures Valid()
      ensures r.Err? ==> unchanged(this)
      ensures r.Ok? <==>
        && mode in {"", "voice", "video"}
        && checks.member
        && (mode == "video" && billing.Some? ==> checks.videoAllowed)
        && old(OnlyOwnStale(channel, user))
      ensures r.Ok? ==> r.value == |old(calls)| && |calls| == |rows| == |old(calls)| + 1
      ensures r.Ok? ==>
        calls[r.value] == Call(channel, workspace, user, Ringing, if mode == "video" then Video else Voice, now, None)
        && rows[r.value] == [Participant(user, None)]
      ensures r.Ok? ==> forall i :: 0 <= i < |old(calls)| ==>
        if old(calls[i].channel == channel && calls[i].status != Ended) then
          && calls[i] == old(calls[i]).(status := Ended, endedAt := Some(now))
          && rows[i] == AllLeft(old(rows[i]), now)
        else
          calls[i] == old(calls[i]) && rows[i] == old(rows[i])
      ensures EndedKept(old(calls), old(rows), calls, rows)
      ensures forall app: int64, month: int :: UsageAt(usage, app, month) == old(UsageAt(usage, app, month))
      ensures r == Err(CallAlreadyActive) <==>
        && mode in {"", "voice", "video"}
        && checks.member
        && (mode == "video" && billing.Some? ==> checks.videoAllowed)
        && !old(OnlyOwnStale(channel, user))
    {
      var normalized := NormalizeMode(mode);
      if normalized.Err? {
        return Err(normalized.error);
      }
      if !checks.member {
        return Err(NotMember);
      }
      if normalized.value == Video && billing.Some? {
        if !checks.videoAllowed {
          return Err(VideoRefused);
        }
      }
      if CallFullAt(workspace, 0) {
        return Err(CallFull);
      }
      hide *;
      var clear := ClearChannel(channel, user, now);
      if !clear {
        return Err(CallAlreadyActive);
      }
      var id := CreateCall(workspace, channel, user, normalized.value, now);
      r := Ok(id);
    }

    ghost predicate OnlyOwnStale(channel: int64, user: int64)
      reads this
    {
      forall i :: 0 <= i < |calls| && i < |rows| && calls[i].channel == channel && calls[i].status != Ended ==>
        Solo(rows[i], user)
    }

    // ---- Joining and leaving ----

    // GetActiveCallParticipant
    method FindActive(rows: Rows, user: int64) returns (found: bool)
      ensures found <==> IsActive(rows, user)
    {
      for i := 0 to |rows|
        invariant forall j :: 0 <= j < i ==> !(rows[j].user == user && rows[j].leftAt == None)
      {
        if rows[i].user == user && rows[i].leftAt == None {
          return true;
        }
      }
      return false;
    }

    // Joining again changes nothing; a newcomer is added, and the call becomes active.
    method JoinCall(id: int, user: int64, checks: Checks) returns (r: Result<Call>)
      requires Valid()
      modifies this`calls, this`rows, this`wasActive
      ensures Valid() && |calls| == |old(calls)|
      ensures r.Err? ==> unchanged(this)
      ensures r.Ok? <==>
        && 0 <= id < |old(calls)| && old(calls[id].status) != Ended && checks.member
        && (old(IsActive(rows[id], user)) ||
            (&& !old(CallFullAt(calls[id].workspace, ActiveCount(rows[id])))
             && (old(calls[id].mode) == Video && billing.Some? ==> checks.videoAllowed)))
      ensures r.Ok? ==>
        if old(IsActive(rows[id], user)) then calls == old(calls) && rows == old(rows)
        else
          && calls == old(calls)[id := old(calls[id]).(status := Active)]
          && rows == old(rows)[id := old(rows[id]) + [Participant(user, None)]]
      ensures r.Ok? ==> r.value == calls[id] && IsActive(rows[id], user)
      ensures EndedKept(old(calls), old(rows), calls, rows)
      ensures r == Err(NotFound) <==> !(0 <= id < |calls|)
      ensures r == Err(CallEnded) <==> 0 <= id < |calls| && old(calls[id].status) == Ended
      ensures r == Err(CallFull) <==>
        && 0 <= id < |calls| && old(calls[id].status) != Ended && checks.member
        && !old(IsActive(rows[id], user)) && old(CallFullAt(calls[id].workspace, ActiveCount(rows[id])))
      // Exactly when a newcomer gets in whom nothing else keeps out: below every limit that is set.
      ensures
        && 0 <= id < |calls| && old(calls[id].status) != Ended && checks.member && !old(IsActive(rows[id], user))
        && (old(calls[id].mode) == Video && billing.Some? ==> checks.videoAllowed)
        ==>
          var n, workspace := old(ActiveCount(rows[id])), old(calls[id].workspace);
          && (r.Ok? <==>
                && (maxParticipants <= 0 || n < maxParticipants)
                && (billing.Some? && workspace in planLimit && planLimit[workspace] > 0 ==> n < planLimit[workspace]))
          && (r.Err? ==> r == Err(CallFull))
    {
      if id < 0 || id >= |calls| {
        return Err(NotFound);
      }
      var call := calls[id];
      if call.status == Ended {
        return Err(CallEnded);
      }
      if !checks.member {
        return Err(NotMember);
      }
      assert CallOk(calls[id], rows[id]);
      var already := FindActive(rows[id], user);
      if !already {
        if CallFullAt(call.workspace, ActiveCount(rows[id])) {
          return Err(CallFull);
        }
        if call.mode == Video && billing.Some? {
          if !checks.videoAllowed {
            return Err(VideoRefused);
          }
        }
        AddParticipant(id, user);
      }
      r := Ok(calls[id]);
    }

    // AddCallParticipant, and UpdateCallStatus when the call was still ringing.
    method AddParticipant(id: nat, user: int64)
      requires Valid() && id < |calls| && calls[id].status != Ended && !IsActive(rows[id], user)
      requires !CallFullAt(calls[id].workspace, ActiveCount(rows[id]))
      modifies this`calls, this`rows, this`wasActive
      ensures Valid()
      ensures calls == old(calls)[id := old(calls[id]).(status := Active)]
      ensures rows == old(rows)[id := old(rows[id]) + [Participant(user, None)]]
      ensures IsActive(rows[id], user)
    {
      hide TotalCharge, CallOk;
      var call, joined := calls[id], rows[id] + [Participant(user, None)];
      assert CallOk(calls[id], rows[id]);
      JoinedOk(call, rows[id], user);
      rows := rows[id := joined];
      var count := ActiveCount(rows[id]);
      if call.status == Ringing && count >= 2 {
        calls := calls[id := call.(status := Active)];
      }
      wasActive := wasActive[id := wasActive[id] || calls[id].status == Active];
      assert calls == old(calls)[id := call.(status := Active)];
      assert old(calls)[id] == call;
      forall i | 0 <= i < |calls|
        ensures CallOk(calls[i], rows[i])
      {
        assert old(CallOk(calls[i], rows[i]));
      }
      forall app: int64, month: int | billing.Some?
        ensures UsageAt(usage, app, month) == TotalCharge(billing.value, calls, wasActive, app, month)
      {
        TotalChargeUpdate(billing.value, old(calls), old(wasActive), id, calls[id], true, app, month);
        NotEndedNoCharge(call, old(rows[id]));
      }
    }

    // The last two leave together: when at most one participant would remain, everybody has left
    // and the call is over. Leaving a call that is over changes nothing.
    method LeaveCall(id: int, user: int64, now: int) returns (r: Result<Call>)
      requires Valid()
      modifies this`calls, this`rows, this`usage
      ensures Valid() && |calls| == |rows| == |old(calls)|
      ensures r.Err? ==> unchanged(this)
      ensures r.Ok? <==> 0 <= id < |old(calls)| && (old(calls[id].status) == Ended || old(IsActive(rows[id], user)))
      ensures r.Ok? ==> r.value == calls[id]
      ensures r.Ok? && old(calls[id].status) == Ended ==> unchanged(this)
      ensures r.Ok? && old(calls[id].status) != Ended ==>
        if old(ActiveCount(rows[id])) <= 2 then
          && calls == old(calls)[id := old(calls[id]).(status := Ended, endedAt := Some(now))]
          && rows == old(rows)[id := AllLeft(old(rows[id]), now)]
        else
          && calls == old(calls) && usage == old(usage)
          && rows == old(rows)[id := MarkLeft(old(rows[id]), user, now)]
      ensures EndedKept(old(calls), old(rows), calls, rows)
      ensures r == Err(NotFound) <==> !(0 <= id < |calls|)
      ensures r.Err? ==> r.error == NotFound || r.error == NotParticipant
    {
      hide CallOk, ActiveCount;
      if id < 0 || id >= |calls| {
        return Err(NotFound);
      }
      if calls[id].status == Ended {
        return Ok(calls[id]);
      }
      LiveCallRows(calls[id], rows[id]);
      var active := FindActive(rows[id], user);
      if !active {
        return Err(NotParticipant);
      }
      var left := MarkLeft(rows[id], user, now);
      MarkLeftCount(rows[id], user, now);
      var count := ActiveCount(left);
      if count <= 1 {
        left := LeaveRemaining(rows[id], left, user, now);
        EndCall(id, left, now);
      } else {
        KeepCall(id, left);
      }
      r := Ok(calls[id]);
    }

    // The call goes on with its remaining participants.
    method KeepCall(id: nat, left: Rows)
      requires Valid() && id < |calls| && calls[id].status != Ended
      requires UniqueActive(left) && 2 <= ActiveCount(left) <= ActiveCount(rows[id]) && |left| == |rows[id]|
      requires forall k :: 0 <= k < |left| ==> left[k].user == rows[id][k].user
      modifies this`rows
      ensures Valid() && rows == old(rows)[id := left]
    {
      hide TotalCharge, ActiveCount, UniqueActive;
      assert CallOk(calls[id], rows[id]);
      rows := rows[id := left];
      forall i | 0 <= i < |calls|
        ensures CallOk(calls[i], rows[i])
      {
        assert old(CallOk(calls[i], rows[i]));
      }
    }

    // ---- Recordings ----

    method ValidateSignal(id: int, user: int64) returns (r: Result<Call>)
      requires Valid()
      ensures r.Ok? <==> 0 <= id < |calls| && calls[id].status != Ended && IsActive(rows[id], user)
      ensures r.Ok? ==> r.value == calls[id]
    {
      if id < 0 || id >= |calls| {
        return Err(NotFound);
      }
      if calls[id].status == Ended {
        return Err(CallEnded);
      }
      var active := FindActive(rows[id], user);
      if !active {
        return Err(NotParticipant);
      }
      return Ok(calls[id]);
    }

    predicate HasOpenRecording(id: int)
      reads this
    {
      exists i :: 0 <= i < |recordings| && recordings[i].call == id && recordings[i].endedAt == None
    }

    // A recording starts only by a participant of a live call that has none open.
    method StartRecording(id: int, user: int64) returns (r: Result<nat>)
      requires Valid()
      modifies this`recordings
      ensures Valid()
      ensures r.Ok? <==>
        && 0 <= id < |calls| && calls[id].status != Ended && IsActive(rows[id], user)
        && !old(HasOpenRecording(id))
      ensures recordings == old(recordings) + if r.Ok? then [Recording(id, user, None)] else []
      ensures r.Ok? ==> r.value == |old(recordings)| && HasOpenRecording(id)
    {
      var v := ValidateSignal(id, user);
      if v.Err? {
        return Err(v.error);
      }
      if HasOpenRecording(id) {
        return Err(RecordingActive);
      }
      r := Ok(|recordings|);
      recordings := recordings + [Recording(id, user, None)];
      assert Last(recordings).call == id;
    }

    method StopRecording(id: int, user: int64, recording: int, now: int) returns (r: Result<Recording>)
      requires Valid()
      modifies this`recordings
      ensures Valid()
      ensures r.Ok? <==>
        && 0 <= id < |calls| && calls[id].status != Ended && IsActive(rows[id], user)
        && 0 <= recording < |old(recordings)| && old(recordings[recording].call) == id
        && old(recordings[recording].endedAt) == None
      ensures r.Err? ==> recordings == old(recordings)
      ensures r.Ok? ==> recordings == old(recordings)[recording := old(recordings[recording]).(endedAt := Some(now))]
      ensures r.Ok? ==> r.value == recordings[recording] && !HasOpenRecording(id)
    {
      var v := ValidateSignal(id, user);
      if v.Err? {
        return Err(v.error);
      }
      if !(0 <= recording < |recordings| && recordings[recording].call == id && recordings[recording].endedAt == None) {
        return Err(RecordingNotFound);
      }
      recordings := recordings[recording := recordings[recording].(endedAt := Some(now))];
      r := Ok(recordings[recording]);
    }
  }

  // ListActiveCallParticipants
  method ListActive(rows: Rows) returns (users: seq<int64>)
    ensures |users| == ActiveCount(rows)
    ensures forall u :: u in users <==> IsActive(rows, u)
  {
    users := [];
    for i := 0 to |rows|
      invariant |users| == ActiveCount(rows[..i])
      invariant forall u :: u in users <==> IsActive(rows[..i], u)
    {
      assert rows[..i + 1] == rows[..i] + [rows[i]];
      ActiveCountAdd(rows[..i], rows[i]);
      IsActiveAdd(rows[..i], rows[i]);
      if rows[i].leftAt == None {
        users := users + [rows[i].user];
      }
    }
    assert rows[..|rows|] == rows;
  }

  lemma SoloListed(rows: Rows, users: seq<int64>, user: int64)
    requires |users| == ActiveCount(rows) && forall u :: u in users <==> IsActive(rows, u)
    ensures Solo(rows, user) <==> users == [user]
  {
    if Solo(rows, user) {
      assert users[0] in users && user in users;
    }
    if users == [user] {
      assert user in users;
    }
  }

  lemma SoloAllLeft(rows: Rows, user: int64, now: int)
    requires Solo(rows, user) && UniqueActive(rows)
    ensures MarkLeft(rows, user, now) == AllLeft(rows, now)
  {
    MarkLeftCount(rows, user, now);
    var left := MarkLeft(rows, user, now);
    ActiveCountPositive(left);
    forall i | 0 <= i < |rows|
      ensures left[i] == AllLeft(rows, now)[i]
    {
      assert left[i].leftAt != None;
    }
  }

  // The loop over the remaining participants leaves nobody active.
  method LeaveRemaining(rows: Rows, first: Rows, user: int64, now: int) returns (left: Rows)
    requires UniqueActive(rows) && first == MarkLeft(rows, user, now)
    ensures left == AllLeft(rows, now) && ActiveCount(left) == 0 && UniqueActive(left)
  {
    left := first;
    MarkLeftCount(rows, user, now);
    var remaining := ListActive(left);
    for k := 0 to |remaining|
      invariant |left| == |rows|
      invariant forall i :: 0 <= i < |rows| ==>
        left[i] == rows[i] || (rows[i].leftAt == None && left[i] == rows[i].(leftAt := Some(now)))
      invariant forall i :: 0 <= i < |rows| && left[i].leftAt == None ==> left[i].user in remaining[k..]
    {
      left := MarkLeft(left, remaining[k], now);
    }
    assert left == AllLeft(rows, now);
    AllLeftCount(rows, now);
  }

  lemma LiveCallRows(call: Call, rows: Rows)
    requires CallOk(call, rows)
    ensures UniqueActive(rows)
  {
  }

  lemma FirstRowOk(call: Call, user: int64)
    requires call.status == Ringing && call.endedAt == None
    ensures CallOk(call, [Participant(user, None)]) && ActiveCount([Participant(user, None)]) == 1
  {
    ActiveCountAdd([], Participant(user, None));
    assert [] + [Participant(user, None)] == [Participant(user, None)];
  }

  lemma JoinedOk(call: Call, rows: Rows, user: int64)
    requires CallOk(call, rows) && call.status != Ended && !IsActive(rows, user)
    ensures var joined := rows + [Participant(user, None)];
      && CallOk(call.(status := Active), joined)
      && ActiveCount(joined) == ActiveCount(rows) + 1 >= 2
      && IsActive(joined, user)
  {
    ActiveCountAdd(rows, Participant(user, None));
    IsActiveAdd(rows, Participant(user, None));
    ActiveCountPositive(rows);
    if |rows| == 1 {
      assert rows[0].leftAt == None;
    }
  }

  lemma NotEndedNoCharge(call: Call, rows: Rows)
    requires CallOk(call, rows) && call.status != Ended
    ensures call.endedAt == None
  {
  }

  lemma TotalChargeAdd(b: Billing, calls: seq<Call>, wasActive: seq<bool>, call: Call, app: int64, month: int)
    requires |calls| == |wasActive|
    ensures TotalCharge(b, calls + [call], wasActive + [false], app, month)
         == TotalCharge(b, calls, wasActive, app, month)
  {
    assert Front(calls + [call]) == calls && Front(wasActive + [false]) == wasActive;
  }

  // What holds of every call of a service, after whatever its methods have done so far: the status
  // is a function of the number of active rows; a call was once active exactly when it has two rows,
  // which is exactly when two different users took part; and a positive limit is kept.
  lemma EveryCall(s: Service, i: nat)
    requires s.Valid() && i < |s.calls|
    ensures |s.rows| == |s.wasActive| == |s.calls|
    ensures s.calls[i].status == Ringing <==> ActiveCount(s.rows[i]) == 1
    ensures s.calls[i].status == Active <==> ActiveCount(s.rows[i]) >= 2
    ensures s.calls[i].status == Ended <==> ActiveCount(s.rows[i]) == 0
    ensures s.calls[i].status == Ended <==> s.calls[i].endedAt.Some?
    ensures s.wasActive[i] <==> |s.rows[i]| >= 2
    ensures s.wasActive[i] <==> |Users(s.rows[i])| >= 2
    ensures s.ParticipantLimit(s.calls[i].workspace) > 0 ==>
      ActiveCount(s.rows[i]) <= s.ParticipantLimit(s.calls[i].workspace)
    ensures forall j :: 0 <= j < |s.calls| && j != i && s.calls[j].channel == s.calls[i].channel ==>
      s.calls[i].status == Ended || s.calls[j].status == Ended
  {
    hide TotalCharge;
    assert CallOk(s.calls[i], s.rows[i]);
    TwoRowsTwoUsers(s.calls[i], s.rows[i]);
  }

  // A call is the user's own stale one when its one active row is the user's.
  lemma OwnStaleCalls(s: Service, channel: int64, user: int64)
    requires s.Valid()
    ensures s.OnlyOwnStale(channel, user) <==>
      forall i :: 0 <= i < |s.calls| && s.calls[i].channel == channel && s.calls[i].status != Ended ==>
        exists k :: 0 <= k < |s.rows[i]| && OnlyActiveRow(s.rows[i], k) && s.rows[i][k].user == user
  {
    hide Solo, OnlyActiveRow, ActiveCount;
    forall i | 0 <= i < |s.calls|
      ensures Solo(s.rows[i], user) <==>
        exists k :: 0 <= k < |s.rows[i]| && OnlyActiveRow(s.rows[i], k) && s.rows[i][k].user == user
    {
      SoloIsOnlyRow(s.rows[i], user);
    }
  }

  // ---- The owner's monthly total ----

  // apps.id is the primary key, so the workspaces of one app name one row.
  predicate OneRowPerApp(b: Billing) {
    forall v, w :: v in b.apps && w in b.apps && b.apps[v].id == b.apps[w].id ==> b.apps[v] == b.apps[w]
  }

  function AppsOf(b: Billing, owner: int64): set<int64> {
    set w | w in b.apps && b.apps[w].owner == owner :: b.apps[w].id
  }

  // What one call costs an owner in a month.
  function OwnerCharge(b: Billing, call: Call, wasActive: bool, owner: int64, month: int): int {
    if Chargeable(b, call, wasActive) && b.apps[call.workspace].owner == owner && b.monthOf(call.endedAt.value) == month
    then Minutes(call.endedAt.value - call.createdAt)
    else 0
  }

  function OwnerTotal(b: Billing, calls: seq<Call>, wasActive: seq<bool>, owner: int64, month: int): int
    requires |calls| == |wasActive|
  {
    if calls == [] then 0
    else
      OwnerTotal(b, Front(calls), Front(wasActive), owner, month)
      + OwnerCharge(b, Last(calls), Last(wasActive), owner, month)
  }

  function Charged(b: Billing, calls: seq<Call>, wasActive: seq<bool>, month: int): int64 -> int
    requires |calls| == |wasActive|
  {
    (app: int64) => TotalCharge(b, calls, wasActive, app, month)
  }

  function Recorded(usage: Usage, month: int): int64 -> int {
    (app: int64) => UsageAt(usage, app, month)
  }

  lemma OneCallAgrees(b: Billing, call: Call, wasActive: bool, owner: int64, month: int)
    requires OneRowPerApp(b)
    ensures Sum(AppsOf(b, owner), (app: int64) => Charge(b, call, wasActive, app, month))
         == OwnerCharge(b, call, wasActive, owner, month)
  {
    var share := (app: int64) => Charge(b, call, wasActive, app, month);
    if Chargeable(b, call, wasActive) {
      var id := b.apps[call.workspace].id;
      SumOne(AppsOf(b, owner), share, id);
      assert id in AppsOf(b, owner) <==> b.apps[call.workspace].owner == owner;
    } else {
      SumOne(AppsOf(b, owner), share, 0);
    }
  }

  lemma {:induction false} TotalsAgree(b: Billing, calls: seq<Call>, wasActive: seq<bool>, owner: int64, month: int)
    requires |calls| == |wasActive| && OneRowPerApp(b)
    ensures Sum(AppsOf(b, owner), Charged(b, calls, wasActive, month)) == OwnerTotal(b, calls, wasActive, owner, month)
  {
    var all := Charged(b, calls, wasActive, month);
    if calls == [] {
      SumOne(AppsOf(b, owner), all, 0);
    } else {
      var last := (app: int64) => Charge(b, Last(calls), Last(wasActive), app, month);
      SumAdd(AppsOf(b, owner), all, Charged(b, Front(calls), Front(wasActive), month), last);
      TotalsAgree(b, Front(calls), Front(wasActive), owner, month);
      OneCallAgrees(b, Last(calls), Last(wasActive), owner, month);
      SumSame(AppsOf(b, owner), last, (app: int64) => Charge(b, Last(calls), Last(wasActive), app, month));
    }
  }

  // SumOwnerVideoMinutesUsage: over the owner's apps, the month's counters add up to the minutes of
  // the calls that ended in the month, each counted once.
  lemma OwnerTotalIsCharges(s: Service, owner: int64, month: int)
    requires s.Valid() && s.billing.Some? && OneRowPerApp(s.billing.value)
    ensures Sum(AppsOf(s.billing.value, owner), Recorded(s.usage, month))
         == OwnerTotal(s.billing.value, s.calls, s.wasActive, owner, month)
  {
    TotalsAgree(s.billing.value, s.calls, s.wasActive, owner, month);
    SumSame(AppsOf(s.billing.value, owner), Recorded(s.usage, month),
            Charged(s.billing.value, s.calls, s.wasActive, month));
  }
}
