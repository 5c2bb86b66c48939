// The rows of calls and call_participants, and what they mean for one call.
module CallRows {
  import opened Base

  datatype Status = Ringing | Active | Ended
  datatype Mode = Voice | Video

  datatype Call = Call(
    channel: int64, workspace: int64, initiator: int64,
    status: Status, mode: Mode, createdAt: int, endedAt: Option<int>)

  datatype Participant = Participant(user: int64, leftAt: Option<int>)

  // The participant rows of one call, in the order they were inserted.
  type Rows = seq<Participant>

  function ActiveCount(rows: Rows): nat {
    if rows == [] then 0
    else ActiveCount(Front(rows)) + if Last(rows).leftAt == None then 1 else 0
  }

  predicate IsActive(rows: Rows, user: int64) {
    exists i :: 0 <= i < |rows| && rows[i].user == user && rows[i].leftAt == None
  }

  // The unique index on active rows: a user takes part at most once at a time.
  predicate UniqueActive(rows: Rows) {
    forall i, j :: 0 <= i < j < |rows| && rows[i].leftAt == None && rows[j].leftAt == None ==>
      rows[i].user != rows[j].user
  }

  function Users(rows: Rows): set<int64> {
    set i | 0 <= i < |rows| :: rows[i].user
  }

  // UPDATE ... SET left_at WHERE user_id AND left_at IS NULL
  function MarkLeft(rows: Rows, user: int64, now: int): (r: Rows)
    ensures |r| == |rows|
    ensures forall i :: 0 <= i < |rows| ==>
              r[i] == if rows[i].user == user && rows[i].leftAt == None then rows[i].(leftAt := Some(now)) else rows[i]
  {
    seq(|rows|, i requires 0 <= i < |rows| =>
      if rows[i].user == user && rows[i].leftAt == None then rows[i].(leftAt := Some(now)) else rows[i])
  }

  // Everybody still there leaves.
  function AllLeft(rows: Rows, now: int): (r: Rows)
    ensures |r| == |rows|
    ensures forall i :: 0 <= i < |rows| ==>
              r[i] == if rows[i].leftAt == None then rows[i].(leftAt := Some(now)) else rows[i]
  {
    seq(|rows|, i requires 0 <= i < |rows| =>
      if rows[i].leftAt == None then rows[i].(leftAt := Some(now)) else rows[i])
  }

  lemma ActiveCountAdd(rows: Rows, p: Participant)
    ensures ActiveCount(rows + [p]) == ActiveCount(rows) + if p.leftAt == None then 1 else 0
  {
    assert Front(rows + [p]) == rows;
  }

  lemma IsActiveAdd(rows: Rows, p: Participant)
    ensures forall u :: IsActive(rows + [p], u) <==> IsActive(rows, u) || (p.user == u && p.leftAt == None)
  {
    forall u
      ensures IsActive(rows + [p], u) <==> IsActive(rows, u) || (p.user == u && p.leftAt == None)
    {
      var all := rows + [p];
      assert all[|rows|] == p;
      if i :| 0 <= i < |rows| && rows[i].user == u && rows[i].leftAt == None {
        assert all[i].user == u;
      }
    }
  }

  lemma {:induction false} ActiveCountPositive(rows: Rows)
    ensures ActiveCount(rows) <= |rows|
    ensures ActiveCount(rows) > 0 <==> exists i :: 0 <= i < |rows| && rows[i].leftAt == None
  {
    if rows != [] {
      var front := Front(rows);
      ActiveCountPositive(front);
      if i :| 0 <= i < |front| && front[i].leftAt == None {
        assert rows[i].leftAt == None;
      }
    }
  }

  // Marking a participant as left lowers the active count by exactly one.
  lemma {:induction false} MarkLeftCount(rows: Rows, user: int64, now: int)
    requires UniqueActive(rows)
    ensures UniqueActive(MarkLeft(rows, user, now)) && !IsActive(MarkLeft(rows, user, now), user)
    ensures ActiveCount(MarkLeft(rows, user, now)) == ActiveCount(rows) - if IsActive(rows, user) then 1 else 0
  {
    if rows != [] {
      var n, front, last := |rows| - 1, Front(rows), Last(rows);
      MarkLeftCount(front, user, now);
      assert forall i :: 0 <= i < n ==> front[i] == rows[i];
      assert Front(MarkLeft(rows, user, now)) == MarkLeft(front, user, now);
      assert IsActive(rows, user) <==> IsActive(front, user) || (last.user == user && last.leftAt == None) by {
        if i :| 0 <= i < n && front[i].user == user && front[i].leftAt == None {
          assert rows[i].user == user;
        }
        if i :| 0 <= i < |rows| && rows[i].user == user && rows[i].leftAt == None {
          assert i < n ==> front[i].user == user;
        }
      }
      if last.user == user && last.leftAt == None {
        forall i | 0 <= i < n
          ensures !(front[i].user == user && front[i].leftAt == None)
        {
          assert front[i] == rows[i];
        }
      }
    }
  }

  lemma {:induction false} AllLeftCount(rows: Rows, now: int)
    ensures ActiveCount(AllLeft(rows, now)) == 0 && UniqueActive(AllLeft(rows, now))
  {
    if rows != [] {
      AllLeftCount(Front(rows), now);
      assert Front(AllLeft(rows, now)) == AllLeft(Front(rows), now);
    }
  }

  // ---- One call ----

  // The status is an exact function of the number of active rows, the call ended exactly when it
  // has an end time, and its second row, if any, belongs to another user than its first.
  predicate CallOk(call: Call, rows: Rows) {
    && UniqueActive(rows)
    && |rows| >= 1
    && (call.status == Ringing ==> |rows| == 1 && ActiveCount(rows) == 1)
    && (call.status == Active ==> ActiveCount(rows) >= 2)
    && (call.status == Ended ==> ActiveCount(rows) == 0)
    && (call.endedAt.Some? <==> call.status == Ended)
    && (|rows| >= 2 ==> rows[0].user != rows[1].user)
  }

  // However often people left and came back, two rows mean two people.
  lemma TwoRowsTwoUsers(call: Call, rows: Rows)
    requires CallOk(call, rows)
    ensures |rows| >= 2 <==> |Users(rows)| >= 2
  {
    if |rows| >= 2 {
      assert {rows[0].user, rows[1].user} <= Users(rows);
      SubsetSize({rows[0].user, rows[1].user}, Users(rows));
    } else {
      assert Users(rows) == {rows[0].user};
    }
  }

  // The one participant of a ringing call is its only row.
  predicate Solo(rows: Rows, user: int64) {
    ActiveCount(rows) == 1 && IsActive(rows, user)
  }

  predicate OnlyActiveRow(rows: Rows, k: nat)
    requires k < |rows|
  {
    rows[k].leftAt == None && forall j :: 0 <= j < |rows| && j != k ==> rows[j].leftAt != None
  }

  lemma {:induction false} ActiveOnce(rows: Rows, k: nat)
    requires k < |rows| && rows[k].leftAt == None
    ensures ActiveCount(rows) >= 1
    ensures ActiveCount(rows) == 1 <==> OnlyActiveRow(rows, k)
  {
    var front := Front(rows);
    ActiveCountPositive(front);
    if k < |front| {
      ActiveOnce(front, k);
      assert OnlyActiveRow(rows, k) <==> OnlyActiveRow(front, k) && Last(rows).leftAt != None by {
        assert forall j :: 0 <= j < |front| ==> front[j] == rows[j];
        assert Last(rows) == rows[|front|];
      }
    } else {
      assert forall j :: 0 <= j < |front| ==> front[j] == rows[j];
    }
  }

  lemma SoloIsOnlyRow(rows: Rows, user: int64)
    ensures Solo(rows, user) <==> exists k :: 0 <= k < |rows| && OnlyActiveRow(rows, k) && rows[k].user == user
  {
    forall k | 0 <= k < |rows| && rows[k].leftAt == None
      ensures ActiveCount(rows) == 1 <==> OnlyActiveRow(rows, k)
    {
      ActiveOnce(rows, k);
    }
  }

  // ---- Metering ----

  const SECOND: int := 1_000_000_000
  const MINUTE: int := 60 * SECOND

  // int64((secs + 59) / 60), at least 1, over a positive duration in nanoseconds.
  function Minutes(duration: int): (m: int)
    requires duration > 0
    ensures m >= 1
  {
    var m := (duration + 59 * SECOND) / MINUTE;
    if m < 1 then 1 else m
  }

  // Whole minutes that cover the duration.
  function Ceiling(duration: int): (m: int)
    requires duration > 0
    ensures (m - 1) * MINUTE < duration <= m * MINUTE
  {
    (duration + MINUTE - 1) / MINUTE
  }

  // The charge is the ceiling, one minute short exactly when a call of at least a minute runs less
  // than one second into its last minute.
  lemma MinutesAgainstCeiling(duration: int)
    requires duration > 0
    ensures Minutes(duration) ==
            Ceiling(duration) - if duration >= MINUTE && 0 < duration % MINUTE < SECOND then 1 else 0
  {
    var q, r := duration / MINUTE, duration % MINUTE;
    assert duration == q * MINUTE + r;
    if r == 0 {
      assert (duration + 59 * SECOND) / MINUTE == q;
      assert (duration + MINUTE - 1) / MINUTE == q;
    } else if r < SECOND {
      assert (duration + 59 * SECOND) / MINUTE == q;
      assert (duration + MINUTE - 1) / MINUTE == q + 1;
    } else {
      assert (duration + 59 * SECOND) / MINUTE == q + 1;
      assert (duration + MINUTE - 1) / MINUTE == q + 1;
    }
  }
}
