// internal/presence/service.go: a script answers, and the notice it calls for is published in a later
// step of the same caller. Other callers run in between.
module Publishing {
  import opened Base
  import opened Presence

  // The scripts run so far, the notices on their way to the broadcaster, and those published.
  datatype Desk = Desk(ops: seq<Op>, waiting: seq<Notice>, out: seq<Notice>)

  datatype Move = Script(op: Op) | Publish(i: nat)

  const START := Desk([], [], [])

  function Without<T>(s: seq<T>, i: nat): seq<T>
    requires i < |s|
  {
    s[..i] + s[i + 1..]
  }

  function Published(d: Desk, i: nat): Desk
    requires i < |d.waiting|
  {
    Desk(d.ops, Without(d.waiting, i), d.out + [d.waiting[i]])
  }

  ghost function Next(kind: Kind, d: Desk, m: Move): Desk {
    match m
    case Script(op) => Desk(d.ops + [op], d.waiting + Notices(After(kind, d.ops), op), d.out)
    case Publish(i) => if i < |d.waiting| then Published(d, i) else d
  }

  ghost function Exec(kind: Kind, run: seq<Move>): Desk {
    if run == [] then START else Next(kind, Exec(kind, Front(run)), Last(run))
  }

  // ---- What is published, in turn or not ----

  // Online first, then strictly in turn.
  predicate Alternating(flags: seq<bool>) {
    forall i :: 0 <= i < |flags| ==> flags[i] == (i % 2 == 0)
  }

  ghost predicate InTurn(d: Desk) {
    forall u: int64 :: Alternating(Of(d.out, u))
  }

  // Also after whichever waiting notice is published next.
  ghost predicate InTurnNext(d: Desk) {
    InTurn(d) && forall i :: 0 <= i < |d.waiting| ==> InTurn(Published(d, i))
  }

  ghost predicate AlwaysInTurn(kind: Kind, run: seq<Move>) {
    InTurnNext(Exec(kind, run)) && (run == [] || AlwaysInTurn(kind, Front(run)))
  }

  ghost predicate NoneTogether(d: Desk) {
    forall u: int64 :: |Of(d.waiting, u)| <= 1
  }

  // No two notices of one user ever wait together.
  ghost predicate NeverTogether(kind: Kind, run: seq<Move>) {
    NoneTogether(Exec(kind, run)) && (run == [] || NeverTogether(kind, Front(run)))
  }

  // Published and then waiting: the answers about each user in the order of the scripts.
  ghost predicate InOrder(kind: Kind, d: Desk) {
    forall u: int64 :: Of(d.out, u) + Of(d.waiting, u) == Of(Log(kind, d.ops), u)
  }

  // ---- Lemmas ----

  lemma {:induction false} OfConcat(a: seq<Notice>, b: seq<Notice>, user: int64)
    ensures Of(a + b, user) == Of(a, user) + Of(b, user)
  {
    if b == [] {
      assert a + b == a;
    } else {
      OfConcat(a, Front(b), user);
      assert Front(a + b) == a + Front(b);
    }
  }

  lemma OfWithout(waiting: seq<Notice>, i: nat, user: int64)
    requires i < |waiting|
    ensures |Of(Without(waiting, i), user)| == |Of(waiting, user)| - Bit(waiting[i].user == user)
    ensures waiting[i].user != user ==> Of(Without(waiting, i), user) == Of(waiting, user)
    ensures waiting[i].user == user && |Of(waiting, user)| <= 1 ==>
      Of(waiting, user) == [waiting[i].online] && Of(Without(waiting, i), user) == []
  {
    hide Of;
    var before, n, after := waiting[..i], waiting[i], waiting[i + 1..];
    assert waiting == before + [n] + after;
    OfConcat(before + [n], after, user);
    OfConcat(before, [n], user);
    OfConcat(before, after, user);
    OfFew(user);
  }

  lemma PublishKeeps(kind: Kind, d: Desk, i: nat)
    requires InOrder(kind, d) && NoneTogether(d) && i < |d.waiting|
    ensures InOrder(kind, Published(d, i))
  {
    hide Of, Log;
    forall u: int64
      ensures Of(Published(d, i).out, u) + Of(Published(d, i).waiting, u) == Of(Log(kind, d.ops), u)
    {
      OfWithout(d.waiting, i, u);
      OfConcat(d.out, [d.waiting[i]], u);
      OfFew(u);
    }
  }

  lemma LogStep(kind: Kind, ops: seq<Op>, op: Op)
    ensures Log(kind, ops + [op]) == Log(kind, ops) + Notices(After(kind, ops), op)
    ensures MatchedRun(kind, ops + [op]) <==> MatchedRun(kind, ops) && Matched(After(kind, ops), op)
    ensures After(kind, ops + [op]) == Step(kind, After(kind, ops), op)
  {
    assert Front(ops + [op]) == ops;
  }

  lemma ScriptKeeps(kind: Kind, d: Desk, op: Op)
    requires InOrder(kind, d)
    ensures InOrder(kind, Next(kind, d, Script(op)))
  {
    hide Of, Log, Notices;
    LogStep(kind, d.ops, op);
    var more := Notices(After(kind, d.ops), op);
    forall u: int64
      ensures Of(d.out, u) + Of(d.waiting + more, u) == Of(Log(kind, d.ops + [op]), u)
    {
      OfConcat(d.waiting, more, u);
      OfConcat(Log(kind, d.ops), more, u);
    }
  }

  lemma {:induction false} StaysInOrder(kind: Kind, run: seq<Move>)
    requires NeverTogether(kind, run)
    ensures InOrder(kind, Exec(kind, run))
  {
    if run != [] {
      StaysInOrder(kind, Front(run));
      hide InOrder, NoneTogether, Published;
      var d, m := Exec(kind, Front(run)), Last(run);
      assert NoneTogether(d) by { assert NeverTogether(kind, Front(run)); }
      if m.Script? {
        ScriptKeeps(kind, d, m.op);
      } else if m.i < |d.waiting| {
        PublishKeeps(kind, d, m.i);
      }
    }
  }

  // In script order, what is published is a part of the alternating answers.
  lemma OrderIsTurn(kind: Kind, d: Desk)
    requires InOrder(kind, d) && MatchedRun(kind, d.ops)
    ensures InTurn(d)
  {
    forall u: int64
      ensures Alternating(Of(d.out, u))
    {
      NoticesAlternate(kind, d.ops, u);
      var all := Of(Log(kind, d.ops), u);
      assert Of(d.out, u) + Of(d.waiting, u) == all;
      hide Of;
      assert forall i :: 0 <= i < |Of(d.out, u)| ==> Of(d.out, u)[i] == all[i];
    }
  }

  lemma NoneTogetherInTurn(kind: Kind, d: Desk)
    requires InOrder(kind, d) && NoneTogether(d) && MatchedRun(kind, d.ops)
    ensures InTurnNext(d)
  {
    hide InOrder, NoneTogether, InTurn;
    OrderIsTurn(kind, d);
    forall i | 0 <= i < |d.waiting|
      ensures InTurn(Published(d, i))
    {
      PublishKeeps(kind, d, i);
      OrderIsTurn(kind, Published(d, i));
    }
  }

  // Two answers in a row differ, so the later one is out of turn when it comes first.
  lemma LaterFirst(all: seq<bool>, out: seq<bool>, first: bool, second: bool)
    requires Alternating(all) && all == out + [first, second]
    ensures !Alternating(out + [second])
  {
    var k := |out|;
    assert all[k] == first && all[k + 1] == second;
    assert (out + [second])[k] == second;
  }

  // When a script brings two notices of a user together, its own is the later one.
  lemma LastTogether(waiting: seq<Notice>, more: seq<Notice>, user: int64)
    requires |more| <= 1 && |Of(waiting, user)| <= 1 && |Of(waiting + more, user)| > 1
    ensures |more| == 1 && more[0].user == user && |Of(waiting, user)| == 1
    ensures Of(waiting + more, user) == Of(waiting, user) + [more[0].online]
  {
    OfConcat(waiting, more, user);
    OfFew(user);
    hide Of;
    if more != [] {
      assert more == [more[0]];
    }
  }

  // A publish never brings two together; a script may, and then publishing its notice first is out
  // of turn.
  lemma TogetherOutOfTurn(kind: Kind, d: Desk, op: Op)
    requires InOrder(kind, d) && NoneTogether(d) && MatchedRun(kind, d.ops + [op])
    requires !NoneTogether(Next(kind, d, Script(op)))
    ensures !InTurnNext(Next(kind, d, Script(op)))
  {
    hide Of, Log, After, MatchedRun;
    var t, more := Next(kind, d, Script(op)), Notices(After(kind, d.ops), op);
    ScriptKeeps(kind, d, op);
    var u: int64 :| |Of(t.waiting, u)| > 1;
    LastTogether(d.waiting, more, u);
    InTurnSoFar(kind, t, u);
    hide Notices;
    var i := |t.waiting| - 1;
    assert t.waiting[i] == more[0];
    OutMore(t, i, u);
    var first := Of(d.waiting, u)[0];
    assert Of(t.waiting, u) == [first, more[0].online];
    LaterFirst(Of(Log(kind, t.ops), u), Of(t.out, u), first, more[0].online);
  }

  lemma InTurnSoFar(kind: Kind, d: Desk, user: int64)
    requires InOrder(kind, d) && MatchedRun(kind, d.ops)
    ensures Alternating(Of(Log(kind, d.ops), user))
    ensures Of(d.out, user) + Of(d.waiting, user) == Of(Log(kind, d.ops), user)
  {
    NoticesAlternate(kind, d.ops, user);
  }

  lemma OutMore(d: Desk, i: nat, user: int64)
    requires i < |d.waiting| && d.waiting[i].user == user
    ensures Of(Published(d, i).out, user) == Of(d.out, user) + [d.waiting[i].online]
  {
    OfConcat(d.out, [d.waiting[i]], user);
    OfFew(user);
  }

  lemma PublishSeparates(d: Desk, i: nat)
    requires NoneTogether(d) && i < |d.waiting|
    ensures NoneTogether(Published(d, i))
  {
    forall u: int64
      ensures |Of(Published(d, i).waiting, u)| <= 1
    {
      OfWithout(d.waiting, i, u);
    }
  }

  lemma FrontMatched(kind: Kind, run: seq<Move>)
    requires run != [] && MatchedRun(kind, Exec(kind, run).ops)
    ensures MatchedRun(kind, Exec(kind, Front(run)).ops)
  {
    if Last(run).Script? {
      LogStep(kind, Exec(kind, Front(run)).ops, Last(run).op);
    }
  }

  // ---- Main result ----

  // On every matched run: at every moment, and whichever notice is published next, what has been
  // published about each user alternates, starting with online, if and only if no two notices of one
  // user ever wait together.
  lemma {:induction false} InTurnIffNeverTogether(kind: Kind, run: seq<Move>)
    requires MatchedRun(kind, Exec(kind, run).ops)
    ensures AlwaysInTurn(kind, run) <==> NeverTogether(kind, run)
  {
    if run == [] {
      NothingYet(kind);
    } else {
      FrontMatched(kind, run);
      InTurnIffNeverTogether(kind, Front(run));
      var d, m := Exec(kind, Front(run)), Last(run);
      hide InOrder, NoneTogether, InTurnNext, Published;
      if NeverTogether(kind, run) {
        StaysInOrder(kind, run);
        NoneTogetherInTurn(kind, Exec(kind, run));
      } else if NeverTogether(kind, Front(run)) {
        StaysInOrder(kind, Front(run));
        assert NoneTogether(d) by { assert NeverTogether(kind, Front(run)); }
        if m.Script? {
          TogetherOutOfTurn(kind, d, m.op);
        } else if m.i < |d.waiting| {
          PublishSeparates(d, m.i);
        }
      }
    }
  }

  lemma NothingYet(kind: Kind)
    ensures AlwaysInTurn(kind, []) && NeverTogether(kind, [])
  {
  }

  // One user's only client leaves a channel on one node while another of the user's arrives at the same
  // channel on a second node. The second node publishes first: online, online, offline, and the user is
  // connected.
  const CROSSING: seq<Op> := [Connect(Conn(1, 1, 1))] + [Disconnect(Conn(1, 1, 1))] + [Connect(Conn(1, 1, 1))]

  lemma Append(kind: Kind, run: seq<Move>, m: Move)
    ensures Exec(kind, run + [m]) == Next(kind, Exec(kind, run), m)
  {
    assert Front(run + [m]) == run;
  }

  // The counts of the crossing operations, and what their scripts answer.
  lemma CrossingScripts(kind: Kind)
    ensures var c := Conn(1, 1, 1);
      && Notices(After(kind, []), Connect(c)) == [Notice(1, true, ChannelRef(1, 1))]
      && Notices(After(kind, [Connect(c)]), Disconnect(c)) == [Notice(1, false, ChannelRef(1, 1))]
      && Notices(After(kind, [Connect(c)] + [Disconnect(c)]), Connect(c)) == [Notice(1, true, ChannelRef(1, 1))]
      && MatchedRun(kind, CROSSING)
      && Count(After(kind, CROSSING).conns, ByUser(1)) == 1
  {
    var c := Conn(1, 1, 1);
    var none: multiset<Conn> := multiset{};
    assert [] + [Connect(c)] == [Connect(c)];
    LogStep(kind, [], Connect(c));
    LogStep(kind, [Connect(c)], Disconnect(c));
    LogStep(kind, [Connect(c)] + [Disconnect(c)], Connect(c));
    assert After(kind, []) == EMPTY && MatchedRun(kind, []);
    hide After, MatchedRun, Log;
    assert none + multiset{c} == multiset{c} && multiset{c} - multiset{c} == none;
    CountPositive(none, ByUser(1));
    hide Count;
    CountAdd(none, c, ByUser(1));
    assert After(kind, [Connect(c)]).conns == multiset{c};
    assert After(kind, [Connect(c)] + [Disconnect(c)]).conns == none;
  }

  const ARRIVED := Notice(1, true, ChannelRef(1, 1))
  const LEFT := Notice(1, false, ChannelRef(1, 1))

  const BEFORE_CROSSING: seq<Move> :=
    [Script(Connect(Conn(1, 1, 1)))] + [Publish(0)] + [Script(Disconnect(Conn(1, 1, 1)))]
    + [Script(Connect(Conn(1, 1, 1)))]

  const CROSSED: seq<Move> := BEFORE_CROSSING + [Publish(1)] + [Publish(0)]

  // Both notices wait.
  lemma BeforeCrossing(kind: Kind)
    ensures Exec(kind, BEFORE_CROSSING) == Desk(CROSSING, [LEFT, ARRIVED], [ARRIVED])
  {
    CrossingScripts(kind);
    var c := Conn(1, 1, 1);
    var r1: seq<Move> := [Script(Connect(c))];
    var r2 := r1 + [Publish(0)];
    var r3 := r2 + [Script(Disconnect(c))];
    assert Exec(kind, []) == START;
    hide *;
    assert [] + r1 == r1 && [] + [Connect(c)] == [Connect(c)] && [] + [ARRIVED] == [ARRIVED] && [] + [LEFT] == [LEFT];
    AfterScript(kind, [], START, Connect(c));
    assert Exec(kind, r1) == Desk([Connect(c)], [ARRIVED], []);
    AfterPublish(kind, r1, ARRIVED);
    assert Exec(kind, r2) == Desk([Connect(c)], [], [ARRIVED]);
    AfterScript(kind, r2, Exec(kind, r2), Disconnect(c));
    assert Exec(kind, r3) == Desk([Connect(c)] + [Disconnect(c)], [LEFT], [ARRIVED]);
    AfterScript(kind, r3, Exec(kind, r3), Connect(c));
    assert [LEFT] + [ARRIVED] == [LEFT, ARRIVED];
  }

  lemma AfterScript(kind: Kind, run: seq<Move>, d: Desk, op: Op)
    requires Exec(kind, run) == d
    ensures Exec(kind, run + [Script(op)]) == Desk(d.ops + [op], d.waiting + Notices(After(kind, d.ops), op), d.out)
  {
    Append(kind, run, Script(op));
  }

  lemma AfterPublish(kind: Kind, run: seq<Move>, only: Notice)
    requires Exec(kind, run).waiting == [only]
    ensures var d := Exec(kind, run); Exec(kind, run + [Publish(0)]) == Desk(d.ops, [], d.out + [only])
  {
    Append(kind, run, Publish(0));
    assert Without([only], 0) == [];
  }

  lemma Crossed(kind: Kind)
    ensures var d := Exec(kind, CROSSED);
      && d.ops == CROSSING && d.waiting == [] && d.out == [ARRIVED] + [ARRIVED] + [LEFT]
      && Of(d.out, 1) == [true, true, false]
      && MatchedRun(kind, d.ops) && Count(After(kind, d.ops).conns, ByUser(1)) == 1
  {
    CrossingScripts(kind);
    BeforeCrossing(kind);
    hide Exec, Notices, After, Of, Count, MatchedRun;
    Append(kind, BEFORE_CROSSING, Publish(1));
    Append(kind, BEFORE_CROSSING + [Publish(1)], Publish(0));
    assert Without([LEFT, ARRIVED], 1) == [LEFT] && Without([LEFT], 0) == [];
    OfConcat([ARRIVED], [ARRIVED], 1);
    OfConcat([ARRIVED] + [ARRIVED], [LEFT], 1);
    OfFew(1);
  }

  // ---- What the audience of one channel is told ----

  // The answers about a user that are sent to one channel, in script order.
  function ToldAt(log: seq<Notice>, user: int64, place: ChannelRef): seq<bool> {
    if log == [] then []
    else
      ToldAt(Front(log), user, place)
      + (if Last(log).user == user && Last(log).place == place then [Last(log).online] else [])
  }

  ghost predicate Told(kind: Kind, ops: seq<Op>, user: int64, place: ChannelRef) {
    Truthful(ToldAt(Log(kind, ops), user, place), Count(After(kind, ops).conns, ByUser(user)) > 0)
  }

  // At every moment the channel has been told how things stand, in turn.
  ghost predicate AlwaysTold(kind: Kind, ops: seq<Op>, user: int64, place: ChannelRef) {
    Told(kind, ops, user, place) && (ops == [] || AlwaysTold(kind, Front(ops), user, place))
  }

  // Every first connection and every last disconnect of the user is on the channel.
  ghost predicate AllAt(kind: Kind, ops: seq<Op>, user: int64, place: ChannelRef) {
    Placed(Log(kind, ops), user, place)
  }

  predicate Placed(log: seq<Notice>, user: int64, place: ChannelRef) {
    forall i :: 0 <= i < |log| && log[i].user == user ==> log[i].place == place
  }

  lemma {:induction false} ToldAll(log: seq<Notice>, user: int64, place: ChannelRef)
    requires Placed(log, user, place)
    ensures ToldAt(log, user, place) == Of(log, user)
  {
    if log != [] {
      assert forall i :: 0 <= i < |log| - 1 ==> Front(log)[i] == log[i];
      ToldAll(Front(log), user, place);
    }
  }

  lemma ToldSkips(log: seq<Notice>, n: Notice, user: int64, place: ChannelRef)
    requires n.place != place
    ensures ToldAt(log + [n], user, place) == ToldAt(log, user, place)
  {
    assert Front(log + [n]) == log;
  }

  lemma PlacedMore(log: seq<Notice>, more: seq<Notice>, user: int64, place: ChannelRef)
    requires |more| <= 1 && Placed(log, user, place) && !Placed(log + more, user, place)
    ensures |more| == 1 && more[0].user == user && more[0].place != place
  {
    var all := log + more;
    assert forall i :: 0 <= i < |log| ==> all[i] == log[i];
    assert more == [] ==> all == log;
  }

  // It changes whether the user is online, and the channel is not told.
  lemma ToldElsewhere(kind: Kind, ops: seq<Op>, op: Op, user: int64, place: ChannelRef)
    requires MatchedRun(kind, ops + [op])
    requires AllAt(kind, ops, user, place) && !AllAt(kind, ops + [op], user, place)
    requires Told(kind, ops, user, place)
    ensures !Told(kind, ops + [op], user, place)
  {
    var more := Notices(After(kind, ops), op);
    assert |more| <= 1;
    hide Log, After, Notices, Of, Count, Step, Placed, ToldAt, MatchedRun;
    LogStep(kind, ops, op);
    PlacedMore(Log(kind, ops), more, user, place);
    NoticeStep(After(kind, ops), kind, op, user);
    OfFew(user);
    assert more == [more[0]];
    ToldSkips(Log(kind, ops), more[0], user, place);
  }

  // In script order: the answers for a channel say how things stand, in turn, if and only if every
  // answer about the user is for that channel.
  lemma {:induction false} ToldIffAllAt(kind: Kind, ops: seq<Op>, user: int64, place: ChannelRef)
    requires MatchedRun(kind, ops)
    ensures AlwaysTold(kind, ops, user, place) <==> AllAt(kind, ops, user, place)
  {
    hide Log, Notices, Of, AllAt, Told;
    if ops == [] {
      NoLog(kind, user, place);
      AllTold(kind, ops, user, place);
    } else {
      ToldIffAllAt(kind, Front(ops), user, place);
      assert ops == Front(ops) + [Last(ops)];
      if AllAt(kind, ops, user, place) {
        AllAtBefore(kind, Front(ops), Last(ops), user, place);
        AllTold(kind, ops, user, place);
      } else if AllAt(kind, Front(ops), user, place) {
        AllTold(kind, Front(ops), user, place);
        ToldElsewhere(kind, Front(ops), Last(ops), user, place);
      }
    }
  }

  lemma NoLog(kind: Kind, user: int64, place: ChannelRef)
    ensures AllAt(kind, [], user, place)
  {
  }

  lemma AllAtBefore(kind: Kind, ops: seq<Op>, op: Op, user: int64, place: ChannelRef)
    requires AllAt(kind, ops + [op], user, place) && MatchedRun(kind, ops + [op])
    ensures AllAt(kind, ops, user, place) && MatchedRun(kind, ops)
  {
    LogStep(kind, ops, op);
    hide Log, Notices, After, MatchedRun;
    var all := Log(kind, ops + [op]);
    assert forall i :: 0 <= i < |Log(kind, ops)| ==> all[i] == Log(kind, ops)[i];
  }

  lemma AllTold(kind: Kind, ops: seq<Op>, user: int64, place: ChannelRef)
    requires AllAt(kind, ops, user, place) && MatchedRun(kind, ops)
    ensures Told(kind, ops, user, place)
  {
    ToldAll(Log(kind, ops), user, place);
    NoticesAlternate(kind, ops, user);
  }

  // ---- ... by what is published ----

  // No notice about the user is on its way.
  ghost predicate Quiet(d: Desk, user: int64) {
    Of(d.waiting, user) == []
  }

  // What has been published to the channel tells how things stand, in turn.
  ghost predicate Informed(kind: Kind, d: Desk, user: int64, place: ChannelRef) {
    Truthful(ToldAt(d.out, user, place), Count(After(kind, d.ops).conns, ByUser(user)) > 0)
  }

  ghost predicate AlwaysInformed(kind: Kind, run: seq<Move>, user: int64, place: ChannelRef) {
    && (Quiet(Exec(kind, run), user) ==> Informed(kind, Exec(kind, run), user, place))
    && (run == [] || AlwaysInformed(kind, Front(run), user, place))
  }

  // With nothing on its way, what is published about the user says how things stand, in turn.
  lemma QuietTruth(kind: Kind, d: Desk, user: int64)
    requires InOrder(kind, d) && MatchedRun(kind, d.ops) && Quiet(d, user)
    ensures Truthful(Of(d.out, user), Count(After(kind, d.ops).conns, ByUser(user)) > 0)
  {
    NoticesAlternate(kind, d.ops, user);
    assert Of(d.out, user) + Of(d.waiting, user) == Of(Log(kind, d.ops), user);
    hide Of, Log, After, Count, InOrder, MatchedRun, Truthful;
    assert Of(d.out, user) + [] == Of(d.out, user);
  }

  lemma AllPublishedThere(kind: Kind, d: Desk, user: int64, place: ChannelRef)
    requires InOrder(kind, d) && MatchedRun(kind, d.ops) && Quiet(d, user) && Placed(d.out, user, place)
    ensures Informed(kind, d, user, place)
  {
    hide Of, Log, After, Count, ToldAt, Placed, InOrder, Quiet, MatchedRun, Truthful;
    QuietTruth(kind, d, user);
    ToldAll(d.out, user, place);
  }

  lemma OneTooFew(told: seq<bool>, all: seq<bool>, online: bool)
    requires Truthful(all, online) && |all| == |told| + 1
    ensures !Truthful(told, online)
  {
  }

  // The first notice of the user that is published elsewhere: then nothing about the user waits, and
  // the channel has been told one notice too few.
  lemma PublishedElsewhere(kind: Kind, d: Desk, i: nat, user: int64, place: ChannelRef)
    requires InOrder(kind, d) && NoneTogether(d) && MatchedRun(kind, d.ops) && i < |d.waiting|
    requires Placed(d.out, user, place) && !Placed(Published(d, i).out, user, place)
    ensures Quiet(Published(d, i), user) && !Informed(kind, Published(d, i), user, place)
  {
    hide Of, Log, After, Count, ToldAt, Placed, InOrder, MatchedRun, Truthful;
    var n, t := d.waiting[i], Published(d, i);
    PlacedMore(d.out, [n], user, place);
    OfWithout(d.waiting, i, user);
    PublishKeeps(kind, d, i);
    QuietTruth(kind, t, user);
    ToldAll(d.out, user, place);
    OutMore(d, i, user);
    ToldSkips(d.out, n, user, place);
    OneTooFew(ToldAt(t.out, user, place), Of(t.out, user), Count(After(kind, t.ops).conns, ByUser(user)) > 0);
  }

  lemma FewerPlaced(out: seq<Notice>, n: Notice, user: int64, place: ChannelRef)
    requires Placed(out + [n], user, place)
    ensures Placed(out, user, place)
  {
    assert forall i :: 0 <= i < |out| ==> (out + [n])[i] == out[i];
  }

  // On every matched run in which no two notices of one user ever wait together: whenever no notice about
  // the user waits, what has been published to a channel tells whether the user is online, in turn, if
  // and only if every notice about the user published so far went to that channel.
  lemma {:induction false} InformedIffPublishedThere(kind: Kind, run: seq<Move>, user: int64, place: ChannelRef)
    requires MatchedRun(kind, Exec(kind, run).ops) && NeverTogether(kind, run)
    ensures AlwaysInformed(kind, run, user, place) <==> Placed(Exec(kind, run).out, user, place)
  {
    StaysInOrder(kind, run);
    hide InOrder, NoneTogether, Informed, Placed, Quiet;
    if Quiet(Exec(kind, run), user) && Placed(Exec(kind, run).out, user, place) {
      AllPublishedThere(kind, Exec(kind, run), user, place);
    }
    if run == [] {
      NonePlaced(user, place);
    } else {
      FrontMatched(kind, run);
      InformedIffPublishedThere(kind, Front(run), user, place);
      var d, m := Exec(kind, Front(run)), Last(run);
      if m.Publish? && m.i < |d.waiting| {
        if Placed(Exec(kind, run).out, user, place) {
          FewerPlaced(d.out, d.waiting[m.i], user, place);
        } else if Placed(d.out, user, place) {
          StaysInOrder(kind, Front(run));
          assert NoneTogether(d) by { assert NeverTogether(kind, Front(run)); }
          PublishedElsewhere(kind, d, m.i, user, place);
        }
      }
    }
  }

  lemma NonePlaced(user: int64, place: ChannelRef)
    ensures Placed([], user, place)
  {
  }

  // Without that condition a channel that gets every notice can be told out of turn: the crossing run.
  lemma CrossedThere(kind: Kind)
    ensures var d := Exec(kind, CROSSED); var place := ChannelRef(1, 1);
      && MatchedRun(kind, d.ops) && Quiet(d, 1) && Placed(d.out, 1, place)
      && ToldAt(d.out, 1, place) == [true, true, false] && !Informed(kind, d, 1, place)
  {
    Crossed(kind);
    hide Exec, After, Of, Count, MatchedRun, ToldAt;
    var d, place := Exec(kind, CROSSED), ChannelRef(1, 1);
    ToldAll(d.out, 1, place);
    OfFew(1);
    assert ToldAt(d.out, 1, place)[1];
  }
}
