// The monthly message quota, checked and recorded in separate steps. Both send paths, the chat
// service's and the developer API's, do the same three steps: check the owner's total, save the
// message, count it. Senders overlap freely, and months pass.
module Quota {
  import opened Base
  import opened Sums

  // Who owns which app, and the message limit of each owner's plan; zero or less is no limit.
  datatype Plans = Plans(owners: map<int64, int64>, limits: map<int64, int>)

  datatype Phase = Checked(app: int64) | Saved(app: int64)

  datatype State = State(
    month: nat,
    counters: map<(int64, nat), nat>,  // usage_counters: (app, month) -> messages
    messages: map<int64, nat>,         // messages saved in each app's live workspace
    senders: map<nat, Phase>)

  datatype Action =
    | Check(sender: nat, app: int64)
    | Save(sender: nat)
    | Fail(sender: nat)
    | Record(sender: nat)
    | NextMonth

  const START := State(0, map[], map[], map[])

  function CounterAt(s: State, app: int64, month: nat): nat {
    if (app, month) in s.counters then s.counters[(app, month)] else 0
  }

  function MessagesOf(s: State, app: int64): nat {
    if app in s.messages then s.messages[app] else 0
  }

  function AppsOf(p: Plans, owner: int64): set<int64> {
    set a | a in p.owners && p.owners[a] == owner
  }

  function CountersIn(s: State, month: nat): int64 -> int {
    (app: int64) => CounterAt(s, app, month)
  }

  // SumOwnerMessageUsage for a month.
  ghost function OwnerTotal(p: Plans, s: State, owner: int64, month: nat): int {
    Sum(AppsOf(p, owner), CountersIn(s, month))
  }

  function LimitOf(p: Plans, owner: int64): int {
    if owner in p.limits then p.limits[owner] else 0
  }

  // checkOwnerMessageQuota
  ghost predicate Allowed(p: Plans, s: State, owner: int64) {
    LimitOf(p, owner) <= 0 || OwnerTotal(p, s, owner, s.month) < LimitOf(p, owner)
  }

  ghost function Next(p: Plans, s: State, a: Action): State {
    match a
    case Check(id, app) =>
      if id !in s.senders && app in p.owners && Allowed(p, s, p.owners[app]) then
        s.(senders := s.senders[id := Checked(app)])
      else s
    case Save(id) =>
      if id in s.senders && s.senders[id].Checked? then
        var app := s.senders[id].app;
        s.(senders := s.senders[id := Saved(app)], messages := s.messages[app := MessagesOf(s, app) + 1])
      else s
    case Fail(id) =>
      if id in s.senders && s.senders[id].Checked? then s.(senders := s.senders - {id}) else s
    case Record(id) =>
      if id in s.senders && s.senders[id].Saved? then
        var app := s.senders[id].app;
        s.(senders := s.senders - {id},
           counters := s.counters[(app, s.month) := CounterAt(s, app, s.month) + 1])
      else s
    case NextMonth => s.(month := s.month + 1)
  }

  ghost function Exec(p: Plans, run: seq<Action>): State {
    if run == [] then START else Next(p, Exec(p, Front(run)), Last(run))
  }

  // A check passes exactly when the owner has no positive limit, or the month's counters of all the
  // owner's apps add up to less.
  lemma CheckPassesIff(p: Plans, s: State, id: nat, app: int64)
    requires id !in s.senders && app in p.owners
    ensures var owner, t := p.owners[app], Next(p, s, Check(id, app));
      var apps := set a | a in p.owners && p.owners[a] == owner;
      var counted := (a: int64) => if (a, s.month) in s.counters then s.counters[(a, s.month)] as int else 0;
      var passes := owner !in p.limits || p.limits[owner] <= 0 || Sum(apps, counted) < p.limits[owner];
      t == if passes then s.(senders := s.senders[id := Checked(app)]) else s
  {
    var owner := p.owners[app];
    var counted := (a: int64) => if (a, s.month) in s.counters then s.counters[(a, s.month)] as int else 0;
    assert AppsOf(p, owner) == set a | a in p.owners && p.owners[a] == owner;
    SumSame(AppsOf(p, owner), CountersIn(s, s.month), counted);
  }

  // The senders of an owner's apps between check and record.
  function Between(p: Plans, s: State, owner: int64): set<nat> {
    set id | id in s.senders && s.senders[id].app in p.owners && p.owners[s.senders[id].app] == owner
  }

  ghost predicate Overlap(p: Plans, run: seq<Action>, owner: int64, n: nat) {
    |Between(p, Exec(p, run), owner)| <= n && (run == [] || Overlap(p, Front(run), owner, n))
  }

  // ---- The overshoot ----

  ghost predicate Bounded(p: Plans, s: State, owner: int64, bound: int) {
    && OwnerTotal(p, s, owner, s.month) + |Between(p, s, owner)| <= bound
    && (forall m: nat :: OwnerTotal(p, s, owner, m) <= bound)
    && (forall app: int64, m: nat :: m > s.month ==> CounterAt(s, app, m) == 0)
    && (forall id :: id in s.senders ==> s.senders[id].app in p.owners)
  }

  lemma NoCounters(p: Plans, s: State, owner: int64, month: nat)
    requires forall app: int64 :: CounterAt(s, app, month) == 0
    ensures OwnerTotal(p, s, owner, month) == 0
  {
    SumOne(AppsOf(p, owner), CountersIn(s, month), 0);
  }

  lemma SameCounters(p: Plans, s: State, t: State, owner: int64, month: nat)
    requires forall app: int64 :: CounterAt(s, app, month) == CounterAt(t, app, month)
    ensures OwnerTotal(p, s, owner, month) == OwnerTotal(p, t, owner, month)
  {
    SumSame(AppsOf(p, owner), CountersIn(s, month), CountersIn(t, month));
  }

  lemma RecordTotals(p: Plans, s: State, id: nat, owner: int64, month: nat)
    requires id in s.senders && s.senders[id].Saved? && s.senders[id].app in p.owners
    ensures OwnerTotal(p, Next(p, s, Record(id)), owner, month) == OwnerTotal(p, s, owner, month)
      + if month == s.month && p.owners[s.senders[id].app] == owner then 1 else 0
  {
    var app, t := s.senders[id].app, Next(p, s, Record(id));
    if month == s.month {
      SumBump(AppsOf(p, owner), CountersIn(s, month), CountersIn(t, month), app);
    } else {
      SameCounters(p, s, t, owner, month);
    }
  }

  // Steps that touch no counter.
  lemma QuietTotals(p: Plans, s: State, a: Action, owner: int64)
    requires !a.Record?
    ensures forall m: nat :: OwnerTotal(p, Next(p, s, a), owner, m) == OwnerTotal(p, s, owner, m)
    ensures forall app: int64, m: nat :: CounterAt(Next(p, s, a), app, m) == CounterAt(s, app, m)
  {
    hide Sum;
    forall m: nat
      ensures OwnerTotal(p, Next(p, s, a), owner, m) == OwnerTotal(p, s, owner, m)
    {
      SameCounters(p, s, Next(p, s, a), owner, m);
    }
  }

  // How a step changes the senders between check and record.
  lemma BetweenStep(p: Plans, s: State, a: Action, owner: int64)
    requires forall id :: id in s.senders ==> s.senders[id].app in p.owners
    ensures forall id :: id in Next(p, s, a).senders ==> Next(p, s, a).senders[id].app in p.owners
    ensures var was, now := Between(p, s, owner), Between(p, Next(p, s, a), owner);
      match a
      case Check(id, app) => now == was || (now == was + {id} && id !in was && app in p.owners
                                            && p.owners[app] == owner && Allowed(p, s, owner))
      case Fail(id) => now <= was
      case Record(id) =>
        now == if id in s.senders && s.senders[id].Saved? then was - {id} else was
      case _ => now == was
  {
    hide Allowed;
    var t := Next(p, s, a);
    if a.Check? && t != s {
      assert Between(p, t, owner) == Between(p, s, owner) + if p.owners[a.app] == owner then {a.sender} else {};
    }
  }

  lemma BoundedStep(p: Plans, s: State, a: Action, owner: int64, n: nat)
    requires LimitOf(p, owner) > 0 && Bounded(p, s, owner, LimitOf(p, owner) + n - 1)
    requires |Between(p, Next(p, s, a), owner)| <= n
    ensures Bounded(p, Next(p, s, a), owner, LimitOf(p, owner) + n - 1)
  {
    hide Sum, OwnerTotal, Between;
    BetweenStep(p, s, a, owner);
    match a
    case Record(id) =>
      if id in s.senders && s.senders[id].Saved? {
        forall m: nat
          ensures OwnerTotal(p, Next(p, s, a), owner, m) == OwnerTotal(p, s, owner, m)
            + if m == s.month && p.owners[s.senders[id].app] == owner then 1 else 0
        {
          RecordTotals(p, s, id, owner, m);
        }
        InBetween(p, s, id, owner);
        var was := Between(p, s, owner);
        assert id in was ==> |was| > 0 && |was - {id}| == |was| - 1;
        assert id !in was ==> was - {id} == was;
        assert forall app: int64, m: nat :: m > s.month ==>
          CounterAt(Next(p, s, a), app, m) == CounterAt(s, app, m);
      }
    case Fail(id) =>
      QuietTotals(p, s, a, owner);
      SubsetSize(Between(p, Next(p, s, a), owner), Between(p, s, owner));
    case NextMonth =>
      QuietTotals(p, s, a, owner);
      NoCounters(p, Next(p, s, a), owner, s.month + 1);
    case _ =>
      QuietTotals(p, s, a, owner);
  }

  lemma InBetween(p: Plans, s: State, id: nat, owner: int64)
    requires id in s.senders && s.senders[id].app in p.owners
    ensures id in Between(p, s, owner) <==> p.owners[s.senders[id].app] == owner
  {
  }

  lemma {:induction false} RunBounded(p: Plans, run: seq<Action>, owner: int64, n: nat)
    requires LimitOf(p, owner) > 0 && Overlap(p, run, owner, n)
    ensures Bounded(p, Exec(p, run), owner, LimitOf(p, owner) + n - 1)
  {
    if run == [] {
      forall m: nat { NoCounters(p, START, owner, m); }
      assert Between(p, START, owner) == {};
    } else {
      RunBounded(p, Front(run), owner, n);
      BoundedStep(p, Exec(p, Front(run)), Last(run), owner, n);
    }
  }

  // With at most n senders of an owner between check and record at any time, no monthly total of
  // the owner, over all apps together, ever exceeds limit + n - 1.
  lemma QuotaOvershoot(p: Plans, run: seq<Action>, owner: int64, n: nat, month: nat)
    requires LimitOf(p, owner) > 0 && Overlap(p, run, owner, n)
    ensures OwnerTotal(p, Exec(p, run), owner, month) <= LimitOf(p, owner) + n - 1
  {
    RunBounded(p, run, owner, n);
  }

  // ---- ... and the bound is reached ----

  // One owner with one app.
  function Single(limit: int): Plans {
    Plans(map[1 := 1], map[1 := limit])
  }

  // What matters of a state of that owner: the counted messages, and senders 0 to checked - 1
  // past their check.
  ghost predicate At(limit: int, s: State, counted: nat, checked: nat) {
    && s.month == 0 && CounterAt(s, 1, 0) == counted
    && (forall id: nat :: id in s.senders <==> id < checked)
    && (forall id :: id in s.senders ==> s.senders[id] == Checked(1))
  }

  lemma SingleTotal(limit: int, s: State)
    ensures OwnerTotal(Single(limit), s, 1, 0) == CounterAt(s, 1, 0)
  {
    assert AppsOf(Single(limit), 1) == {1};
    SumOne(AppsOf(Single(limit), 1), CountersIn(s, 0), 1);
  }

  lemma {:induction false} Initial(senders: set<nat>, n: nat)
    requires forall id :: id in senders ==> id < n
    ensures |senders| <= n
  {
    if n > 0 {
      Initial(senders - {n - 1}, n - 1);
    }
  }

  lemma Append(limit: int, run: seq<Action>, a: Action, n: nat)
    requires Overlap(Single(limit), run, 1, n)
    requires forall id :: id in Exec(Single(limit), run + [a]).senders ==> id < n
    ensures Exec(Single(limit), run + [a]) == Next(Single(limit), Exec(Single(limit), run), a)
    ensures Overlap(Single(limit), run + [a], 1, n)
  {
    assert Front(run + [a]) == run;
    Initial(Between(Single(limit), Exec(Single(limit), run + [a]), 1), n);
  }

  lemma Executes(p: Plans, run: seq<Action>, a: Action)
    ensures Exec(p, run + [a]) == Next(p, Exec(p, run), a)
  {
    assert Front(run + [a]) == run;
  }

  // A checked sender with the highest number saves and records.
  lemma Complete(limit: int, run: seq<Action>, counted: nat, checked: nat, n: nat) returns (more: seq<Action>)
    requires Overlap(Single(limit), run, 1, n) && checked < n
    requires At(limit, Exec(Single(limit), run), counted, checked + 1)
    ensures Overlap(Single(limit), more, 1, n) && At(limit, Exec(Single(limit), more), counted + 1, checked)
  {
    hide Overlap, Exec, OwnerTotal;
    Executes(Single(limit), run, Save(checked));
    Append(limit, run, Save(checked), n);
    more := run + [Save(checked)];
    Executes(Single(limit), more, Record(checked));
    Append(limit, more, Record(checked), n);
    more := more + [Record(checked)];
  }

  // The next sender passes its check while the counter is below the limit.
  lemma Enter(limit: int, run: seq<Action>, counted: nat, checked: nat, n: nat) returns (more: seq<Action>)
    requires Overlap(Single(limit), run, 1, n) && checked < n && counted < limit
    requires At(limit, Exec(Single(limit), run), counted, checked)
    ensures Overlap(Single(limit), more, 1, n) && At(limit, Exec(Single(limit), more), counted, checked + 1)
  {
    hide Overlap, Exec, OwnerTotal;
    SingleTotal(limit, Exec(Single(limit), run));
    Executes(Single(limit), run, Check(checked, 1));
    Append(limit, run, Check(checked, 1), n);
    more := run + [Check(checked, 1)];
  }

  // With n senders allowed to overlap, some run takes the total to limit + n - 1: limit - 1
  // messages one after the other, then n senders that all check before any of them records.
  lemma OvershootReached(limit: int, n: nat) returns (run: seq<Action>)
    requires limit > 0 && n > 0
    ensures Overlap(Single(limit), run, 1, n)
    ensures OwnerTotal(Single(limit), Exec(Single(limit), run), 1, 0) == limit + n - 1
  {
    hide Overlap, Exec, At, OwnerTotal, Between;
    run := [];
    Initially(limit, n);
    for sent := 0 to limit - 1
      invariant Overlap(Single(limit), run, 1, n) && At(limit, Exec(Single(limit), run), sent, 0)
    {
      run := Enter(limit, run, sent, 0, n);
      run := Complete(limit, run, sent, 0, n);
    }
    for checked := 0 to n
      invariant Overlap(Single(limit), run, 1, n) && At(limit, Exec(Single(limit), run), limit - 1, checked)
    {
      run := Enter(limit, run, limit - 1, checked, n);
    }
    for done := 0 to n
      invariant Overlap(Single(limit), run, 1, n) && At(limit, Exec(Single(limit), run), limit - 1 + done, n - done)
    {
      run := Complete(limit, run, limit - 1 + done, n - done - 1, n);
    }
    CountedAt(limit, Exec(Single(limit), run), limit + n - 1, 0);
  }

  lemma Initially(limit: int, n: nat)
    ensures Overlap(Single(limit), [], 1, n) && At(limit, Exec(Single(limit), []), 0, 0)
  {
    assert Between(Single(limit), START, 1) == {};
  }

  lemma CountedAt(limit: int, s: State, counted: nat, checked: nat)
    requires At(limit, s, counted, checked)
    ensures OwnerTotal(Single(limit), s, 1, 0) == counted
  {
    SingleTotal(limit, s);
  }

  // ---- Saved messages are counted messages plus those about to be counted ----

  function Recorded(s: State, app: int64, months: nat): nat {
    if months == 0 then 0 else Recorded(s, app, months - 1) + CounterAt(s, app, months - 1)
  }

  function Unrecorded(s: State, app: int64): set<nat> {
    set id | id in s.senders && s.senders[id] == Saved(app)
  }

  lemma {:induction false} RecordedBump(s: State, t: State, app: int64, months: nat, month: nat)
    requires forall m: nat :: CounterAt(t, app, m) == CounterAt(s, app, m) + if m == month then 1 else 0
    ensures Recorded(t, app, months) == Recorded(s, app, months) + if month < months then 1 else 0
  {
    if months > 0 {
      RecordedBump(s, t, app, months - 1, month);
    }
  }

  lemma {:induction false} RecordedSame(s: State, t: State, app: int64, months: nat)
    requires forall m: nat :: CounterAt(t, app, m) == CounterAt(s, app, m)
    ensures Recorded(t, app, months) == Recorded(s, app, months)
  {
    if months > 0 {
      RecordedSame(s, t, app, months - 1);
    }
  }

  ghost predicate Conserved(s: State, app: int64) {
    && MessagesOf(s, app) == Recorded(s, app, s.month + 1) + |Unrecorded(s, app)|
    && forall m: nat :: m > s.month ==> CounterAt(s, app, m) == 0
  }

  lemma UnrecordedStep(p: Plans, s: State, a: Action, app: int64)
    ensures var was, now := Unrecorded(s, app), Unrecorded(Next(p, s, a), app);
      match a
      case Save(id) =>
        if id in s.senders && s.senders[id] == Checked(app) then now == was + {id} && id !in was else now == was
      case Record(id) =>
        if id in s.senders && s.senders[id] == Saved(app) then now == was - {id} && id in was else now == was
      case _ => now == was
  {
    hide Allowed;
  }

  lemma CountersStep(p: Plans, s: State, a: Action, app: int64)
    ensures var counted := a.Record? && a.sender in s.senders && s.senders[a.sender] == Saved(app);
      forall m: nat :: CounterAt(Next(p, s, a), app, m) == CounterAt(s, app, m)
        + if counted && m == s.month then 1 else 0
  {
    hide Allowed;
  }

  lemma ConservedStep(p: Plans, s: State, a: Action, app: int64)
    requires Conserved(s, app)
    ensures Conserved(Next(p, s, a), app)
  {
    hide Allowed, Unrecorded;
    UnrecordedStep(p, s, a, app);
    var t := Next(p, s, a);
    CountersStep(p, s, a, app);
    hide CounterAt;
    if a.Record? && a.sender in s.senders && s.senders[a.sender] == Saved(app) {
      RecordedBump(s, t, app, s.month + 1, s.month);
    } else {
      RecordedSame(s, t, app, s.month + 1);
    }
    if a.NextMonth? {
      assert CounterAt(t, app, t.month) == 0;
    }
  }

  // In every reachable state each app's saved live messages are those counted, in whatever month,
  // plus those saved and not yet counted.
  lemma {:induction false} MessagesConserved(p: Plans, run: seq<Action>, app: int64)
    ensures Conserved(Exec(p, run), app)
  {
    if run == [] {
      assert Unrecorded(START, app) == {};
      assert Recorded(START, app, 1) == 0;
    } else {
      MessagesConserved(p, Front(run), app);
      ConservedStep(p, Exec(p, Front(run)), Last(run), app);
    }
  }
}
