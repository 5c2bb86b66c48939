// The two presence stores side by side: one run of operations, both implementations.
module StoreAgreement {
  import opened Presence
  import opened Base
  import MemoryStore
  import RedisStore

  // One operation on both stores: do the answers agree, and do both then show the same status?
  method StepBoth(mem: MemoryStore.Store, redis: RedisStore.Store, op: Op, ghost s: State, ghost t: State)
    returns (sameAnswer: bool, sameStatus: bool)
    requires mem.Represents(s) && redis.Represents(t) && s.conns == t.conns && Matched(s, op)
    modifies mem, redis
    ensures mem.Represents(Step(Memory, s, op)) && redis.Represents(Step(Redis, t, op))
    ensures sameAnswer
    ensures sameStatus == (Step(Memory, s, op).Shown(Acted(op)) == Step(Redis, t, op).Shown(Acted(op)))
  {
    hide Count, Step;
    match op {
      case Connect(c) =>
        var a := mem.Connect(c, s);
        var b := redis.Connect(c, t);
        sameAnswer := a == b;
      case Disconnect(c) =>
        var a := mem.Disconnect(c, s);
        var b := redis.Disconnect(c, t);
        sameAnswer := a == b;
      case SetStatus(u, wanted) =>
        var a := mem.SetStatus(u, wanted, s);
        var b := redis.SetStatus(u, wanted, t);
        SetStatusShown(s, t, u, wanted);
        sameAnswer := a == b;
    }
    mem.GetShows(Acted(op), Step(Memory, s, op));
    redis.GetShows(Acted(op), Step(Redis, t, op));
    sameStatus := mem.Get(Acted(op)).status == redis.Get(Acted(op)).status;
  }

  lemma SetStatusShown(s: State, t: State, user: int64, wanted: Status)
    requires s.conns == t.conns
    ensures PresenceOf(Step(Memory, s, SetStatus(user, wanted)), user)
         == PresenceOf(Step(Redis, t, SetStatus(user, wanted)), user)
  {
  }

  // Drives both stores through the same run. Every answer agrees; the status of the user just acted
  // on agrees at every step exactly when no user connects afresh with a stored away status.
  method Lockstep(mem: MemoryStore.Store, redis: RedisStore.Store, ops: seq<Op>)
    returns (sameAnswers: bool, sameStatus: bool)
    requires mem.Represents(EMPTY) && redis.Represents(EMPTY)
    requires MatchedRun(Memory, ops)
    modifies mem, redis
    ensures sameAnswers
    ensures sameStatus <==> NoFreshAway(ops)
    ensures mem.Represents(After(Memory, ops)) && redis.Represents(After(Redis, ops))
  {
    hide Count, Step;
    sameAnswers, sameStatus := true, true;
    for i := 0 to |ops|
      invariant mem.Represents(After(Memory, ops[..i])) && redis.Represents(After(Redis, ops[..i]))
      invariant sameAnswers
      invariant sameStatus <==> NoFreshAway(ops[..i])
    {
      PrefixMatched(ops, i + 1);
      assert Front(ops[..i + 1]) == ops[..i] && Last(ops[..i + 1]) == ops[i];
      SameConnections(ops[..i]);
      var answer, status := StepBoth(mem, redis, ops[i], After(Memory, ops[..i]), After(Redis, ops[..i]));
      StatusOfActed(ops[..i + 1]);
      sameAnswers, sameStatus := sameAnswers && answer, sameStatus && status;
    }
    assert ops[..|ops|] == ops;
  }

  function Acted(op: Op): int64 {
    match op
    case Connect(c) => c.user
    case Disconnect(c) => c.user
    case SetStatus(u, _) => u
  }

  lemma {:induction false} PrefixMatched(ops: seq<Op>, k: nat)
    requires MatchedRun(Memory, ops) && k <= |ops|
    ensures MatchedRun(Memory, ops[..k])
    decreases |ops|
  {
    if k == |ops| {
      assert ops[..k] == ops;
    } else {
      PrefixMatched(Front(ops), k);
      assert Front(ops)[..k] == ops[..k];
    }
  }

  // The step that first breaks agreement is visible at the user it acts on.
  lemma StatusOfActed(ops: seq<Op>)
    requires ops != [] && MatchedRun(Memory, ops)
    ensures NoFreshAway(Front(ops)) ==>
              (NoFreshAway(ops) <==>
               After(Memory, ops).Shown(Acted(Last(ops))) == After(Redis, ops).Shown(Acted(Last(ops))))
  {
    hide Count;
    if NoFreshAway(Front(ops)) {
      var u := Acted(Last(ops));
      SameConnections(ops);
      if NoFreshAway(ops) {
        SameStoredUnlessFreshAway(ops);
        assert After(Memory, ops).StatusOf(u) == After(Redis, ops).StatusOf(u);
      } else {
        FreshAwayShown(ops);
      }
    }
  }
}
