// Limits that are checked against a row count in one query and used up by an insert in a later one:
// call participants and the sandbox caps. Requests overlap freely, and two of the tables have a second
// way in that checks nothing.
module Gate {
  import opened Base

  // What the rows are counted by.
  datatype Key =
    | Participants(call: int64)          // active call_participants
    | SandboxUsers(app: int64)           // app_users
    | SandboxChannels(workspace: int64)
    | SandboxMessages(workspace: int64)

  datatype Row = Row(key: Key, id: nat)

  // Limits of zero or less are no limits. A call's limit is the one of its workspace.
  datatype Config = Config(participants: map<int64, int>, maxUsers: int, maxChannels: int, maxMessages: int)

  datatype State = State(rows: set<Row>, waiting: map<nat, Key>)

  datatype Action =
    | Check(request: nat, key: Key)
    // The initiator of a call is a request of it from its creation on: its check, with no participant
    // yet, always passes.
    | Insert(request: nat, id: nat)
    | Fail(request: nat)
    | Delete(row: Row)                   // leaving, cleaning up
    // The chat service's messages and the channel service's channels, in the sandbox workspace too.
    | InsertUnchecked(row: Row)

  const START := State({}, map[])

  function LimitOf(config: Config, key: Key): int {
    match key
    case Participants(call) => if call in config.participants then config.participants[call] else 0
    case SandboxUsers(_) => config.maxUsers
    case SandboxChannels(_) => config.maxChannels
    case SandboxMessages(_) => config.maxMessages
  }

  function Rows(s: State, key: Key): set<Row> {
    set r | r in s.rows && r.key == key
  }

  function Requests(s: State, key: Key): set<nat> {
    set q | q in s.waiting && s.waiting[q] == key
  }

  predicate Admits(config: Config, s: State, key: Key) {
    LimitOf(config, key) > 0 ==> |Rows(s, key)| < LimitOf(config, key)
  }

  function Next(config: Config, s: State, a: Action): State {
    match a
    case Check(q, key) =>
      if q !in s.waiting && Admits(config, s, key) then s.(waiting := s.waiting[q := key]) else s
    case Insert(q, id) =>
      if q in s.waiting then State(s.rows + {Row(s.waiting[q], id)}, s.waiting - {q}) else s
    case Fail(q) => s.(waiting := s.waiting - {q})
    case Delete(row) => s.(rows := s.rows - {row})
    case InsertUnchecked(row) => if HasOtherWay(row.key) then s.(rows := s.rows + {row}) else s
  }

  predicate HasOtherWay(key: Key) {
    key.SandboxChannels? || key.SandboxMessages?
  }

  // A check passes exactly when the limit for its kind of rows is none, or there are fewer of them.
  lemma CheckPassesIff(config: Config, s: State, q: nat, key: Key)
    requires q !in s.waiting
    ensures var n := |set r | r in s.rows && r.key == key|;
      var passes := match key
        case Participants(call) =>
          call in config.participants && config.participants[call] > 0 ==> n < config.participants[call]
        case SandboxUsers(_) => config.maxUsers > 0 ==> n < config.maxUsers
        case SandboxChannels(_) => config.maxChannels > 0 ==> n < config.maxChannels
        case SandboxMessages(_) => config.maxMessages > 0 ==> n < config.maxMessages;
      Next(config, s, Check(q, key)) == if passes then s.(waiting := s.waiting[q := key]) else s
  {
    assert Rows(s, key) == set r | r in s.rows && r.key == key;
  }

  function Exec(config: Config, run: seq<Action>): State {
    if run == [] then START else Next(config, Exec(config, Front(run)), Last(run))
  }

  // At most n requests for the key are between check and insert at any time.
  predicate Overlap(config: Config, run: seq<Action>, key: Key, n: nat) {
    |Requests(Exec(config, run), key)| <= n && (run == [] || Overlap(config, Front(run), key, n))
  }

  // The unchecked inserts of the key so far.
  function Unchecked(run: seq<Action>, key: Key): nat {
    if run == [] then 0
    else
      var a := Last(run);
      Unchecked(Front(run), key) + if a.InsertUnchecked? && a.row.key == key && HasOtherWay(key) then 1 else 0
  }

  // ---- The bound ----

  // How a step changes the rows and the requests of one key.
  lemma RowsStep(config: Config, s: State, a: Action, key: Key)
    ensures var was, now := Rows(s, key), Rows(Next(config, s, a), key);
      match a
      case Check(_, _) => now == was
      case Fail(_) => now == was
      case Delete(row) => now == was - {row}
      case InsertUnchecked(row) => now == if row.key == key && HasOtherWay(key) then was + {row} else was
      case Insert(q, id) => now == if q in s.waiting && s.waiting[q] == key then was + {Row(key, id)} else was
  {
    hide Admits;
  }

  lemma RequestsStep(config: Config, s: State, a: Action, key: Key)
    ensures var was, now := Requests(s, key), Requests(Next(config, s, a), key);
      match a
      case Check(q, k) => now == was || (k == key && Admits(config, s, key) && now == was + {q} && q !in was)
      case Fail(q) => now == was - {q}
      case Delete(_) => now == was
      case InsertUnchecked(_) => now == was
      case Insert(q, _) => now == was - {q}
  {
    hide Admits;
  }

  lemma InRequests(s: State, q: nat, key: Key)
    ensures q in Requests(s, key) <==> q in s.waiting && s.waiting[q] == key
  {
  }

  lemma Fewer<T>(a: set<T>, x: T)
    ensures |a - {x}| == |a| - if x in a then 1 else 0
    ensures |a + {x}| == |a| + if x in a then 0 else 1
  {
    if x !in a {
      assert a - {x} == a;
    } else {
      assert a + {x} == a;
    }
  }

  lemma BoundStep(config: Config, s: State, a: Action, key: Key, n: nat, more: nat)
    requires LimitOf(config, key) > 0
    requires |Rows(s, key)| + |Requests(s, key)| <= LimitOf(config, key) + n - 1 + more
    requires |Requests(Next(config, s, a), key)| <= n
    ensures |Rows(Next(config, s, a), key)| + |Requests(Next(config, s, a), key)| <= LimitOf(config, key) + n - 1
      + more + if a.InsertUnchecked? && a.row.key == key && HasOtherWay(key) then 1 else 0
  {
    RowsStep(config, s, a, key);
    RequestsStep(config, s, a, key);
    match a
    case Check(q, _) =>
    case InsertUnchecked(row) => Fewer(Rows(s, key), row);
    case Insert(q, id) =>
      InRequests(s, q, key);
      Fewer(Rows(s, key), Row(key, id));
      Fewer(Requests(s, key), q);
    case Fail(q) => Fewer(Requests(s, key), q);
    case Delete(row) => Fewer(Rows(s, key), row);
  }

  lemma {:induction false} Bounded(config: Config, run: seq<Action>, key: Key, n: nat)
    requires LimitOf(config, key) > 0 && Overlap(config, run, key, n)
    ensures var s := Exec(config, run);
      |Rows(s, key)| + |Requests(s, key)| <= LimitOf(config, key) + n - 1 + Unchecked(run, key)
  {
    if run == [] {
      assert Rows(START, key) == {} && Requests(START, key) == {};
    } else {
      Bounded(config, Front(run), key, n);
      BoundStep(config, Exec(config, Front(run)), Last(run), key, n, Unchecked(Front(run), key));
    }
  }

  // With at most n requests of a key overlapping, its rows never exceed limit + n - 1 and the number
  // of unchecked inserts: channels or messages of a sandbox.
  lemma Overshoot(config: Config, run: seq<Action>, key: Key, n: nat)
    requires LimitOf(config, key) > 0 && Overlap(config, run, key, n)
    ensures |Rows(Exec(config, run), key)| <= LimitOf(config, key) + n - 1 + Unchecked(run, key)
  {
    Bounded(config, run, key, n);
  }

  lemma {:induction false} NoOtherWay(run: seq<Action>, key: Key)
    requires !HasOtherWay(key)
    ensures Unchecked(run, key) == 0
  {
    if run != [] {
      NoOtherWay(Front(run), key);
    }
  }

  // The tables with one way in: active participants of a call, plus joins between count and insert,
  // and users of a sandbox.
  lemma CheckedOnly(config: Config, run: seq<Action>, key: Key, n: nat)
    requires LimitOf(config, key) > 0 && Overlap(config, run, key, n) && (key.Participants? || key.SandboxUsers?)
    ensures var s := Exec(config, run); |Rows(s, key)| + |Requests(s, key)| <= LimitOf(config, key) + n - 1
  {
    Bounded(config, run, key, n);
    NoOtherWay(run, key);
  }

  // ---- ... is reached ----

  function UpTo(key: Key, r: nat): set<Row> {
    set i: nat | i < r :: Row(key, i)
  }

  lemma {:induction false} UpToSize(key: Key, r: nat)
    ensures |UpTo(key, r)| == r
  {
    if r > 0 {
      UpToSize(key, r - 1);
      UpToMore(key, r - 1);
    } else {
      assert UpTo(key, 0) == {};
    }
  }

  lemma UpToMore(key: Key, r: nat)
    ensures UpTo(key, r + 1) == UpTo(key, r) + {Row(key, r)} && Row(key, r) !in UpTo(key, r)
  {
  }

  // Rows 0 to r - 1 are there and requests 0 to w - 1 are past their checks.
  ghost predicate At(s: State, key: Key, r: nat, w: nat) {
    && s.rows == UpTo(key, r)
    && (forall q: nat :: q in s.waiting <==> q < w)
    && (forall q :: q in s.waiting ==> s.waiting[q] == key)
  }

  lemma {:induction false} FirstNumbers(numbers: set<nat>, n: nat)
    requires forall q :: q in numbers ==> q < n
    ensures |numbers| <= n
  {
    if n > 0 {
      FirstNumbers(numbers - {n - 1}, n - 1);
    }
  }

  lemma AllRows(s: State, key: Key, r: nat, w: nat)
    requires At(s, key, r, w)
    ensures Rows(s, key) == UpTo(key, r) && |Rows(s, key)| == r && |Requests(s, key)| <= w
  {
    UpToSize(key, r);
    FirstNumbers(Requests(s, key), w);
  }

  lemma Append(config: Config, run: seq<Action>, a: Action, key: Key, r: nat, w: nat, n: nat)
    requires Overlap(config, run, key, n) && w <= n && At(Next(config, Exec(config, run), a), key, r, w)
    ensures Overlap(config, run + [a], key, n) && At(Exec(config, run + [a]), key, r, w)
  {
    assert Front(run + [a]) == run;
    AllRows(Next(config, Exec(config, run), a), key, r, w);
  }

  lemma Enter(config: Config, run: seq<Action>, key: Key, r: nat, w: nat, n: nat) returns (more: seq<Action>)
    requires Overlap(config, run, key, n) && At(Exec(config, run), key, r, w) && w < n && r < LimitOf(config, key)
    ensures Overlap(config, more, key, n) && At(Exec(config, more), key, r, w + 1)
    ensures Unchecked(more, key) == Unchecked(run, key)
  {
    AllRows(Exec(config, run), key, r, w);
    assert Admits(config, Exec(config, run), key);
    hide Overlap, Exec, Rows, Admits, UpTo, LimitOf;
    Append(config, run, Check(w, key), key, r, w + 1, n);
    AppendUnchecked(run, Check(w, key), key);
    more := run + [Check(w, key)];
  }

  lemma Finish(config: Config, run: seq<Action>, key: Key, r: nat, w: nat, n: nat) returns (more: seq<Action>)
    requires Overlap(config, run, key, n) && At(Exec(config, run), key, r, w) && 0 < w <= n
    ensures Overlap(config, more, key, n) && At(Exec(config, more), key, r + 1, w - 1)
    ensures Unchecked(more, key) == Unchecked(run, key)
  {
    UpToMore(key, r);
    hide Overlap, Exec, UpTo;
    Append(config, run, Insert(w - 1, r), key, r + 1, w - 1, n);
    AppendUnchecked(run, Insert(w - 1, r), key);
    more := run + [Insert(w - 1, r)];
  }

  lemma Opening(config: Config, key: Key, n: nat)
    ensures Overlap(config, [], key, n) && At(Exec(config, []), key, 0, 0) && Unchecked([], key) == 0
  {
    assert Exec(config, []) == START;
    assert UpTo(key, 0) == {} && Requests(START, key) == {};
  }

  lemma AppendUnchecked(run: seq<Action>, a: Action, key: Key)
    ensures Unchecked(run + [a], key) ==
      Unchecked(run, key) + if a.InsertUnchecked? && a.row.key == key && HasOtherWay(key) then 1 else 0
  {
    assert Front(run + [a]) == run;
  }

  // One more row past the check.
  lemma Slip(config: Config, run: seq<Action>, key: Key, r: nat, n: nat) returns (more: seq<Action>)
    requires Overlap(config, run, key, n) && At(Exec(config, run), key, r, 0) && HasOtherWay(key)
    ensures Overlap(config, more, key, n) && At(Exec(config, more), key, r + 1, 0)
    ensures Unchecked(more, key) == Unchecked(run, key) + 1
  {
    UpToMore(key, r);
    hide Overlap, Exec, UpTo;
    Append(config, run, InsertUnchecked(Row(key, r)), key, r + 1, 0, n);
    AppendUnchecked(run, InsertUnchecked(Row(key, r)), key);
    more := run + [InsertUnchecked(Row(key, r))];
  }

  // limit - 1 requests one after the other, then n that all check before any inserts, then m unchecked
  // inserts: every excess is reached.
  lemma OvershootReached(config: Config, key: Key, n: nat, m: nat) returns (run: seq<Action>)
    requires LimitOf(config, key) > 0 && n > 0 && (HasOtherWay(key) || m == 0)
    ensures Overlap(config, run, key, n) && Unchecked(run, key) == m
    ensures |Rows(Exec(config, run), key)| == LimitOf(config, key) + n - 1 + m
  {
    hide Overlap, Exec, At, Rows, Requests, UpTo, Unchecked;
    var limit := LimitOf(config, key);
    run := [];
    Opening(config, key, n);
    for r := 0 to limit - 1
      invariant Overlap(config, run, key, n) && At(Exec(config, run), key, r, 0) && Unchecked(run, key) == 0
    {
      run := Enter(config, run, key, r, 0, n);
      run := Finish(config, run, key, r, 1, n);
    }
    for w := 0 to n
      invariant Overlap(config, run, key, n) && At(Exec(config, run), key, limit - 1, w) && Unchecked(run, key) == 0
    {
      run := Enter(config, run, key, limit - 1, w, n);
    }
    for done := 0 to n
      invariant Overlap(config, run, key, n) && At(Exec(config, run), key, limit - 1 + done, n - done)
      invariant Unchecked(run, key) == 0
    {
      run := Finish(config, run, key, limit - 1 + done, n - done, n);
    }
    for slipped := 0 to m
      invariant Overlap(config, run, key, n) && At(Exec(config, run), key, limit + n - 1 + slipped, 0)
      invariant Unchecked(run, key) == slipped
    {
      run := Slip(config, run, key, limit + n - 1 + slipped, n);
    }
    AllRows(Exec(config, run), key, limit + n - 1 + m, 0);
  }
}
