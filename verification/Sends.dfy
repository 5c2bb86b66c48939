// Sending on a closed channel panics. A delivery copies its targets under the hub's lock and sends to
// them one by one after releasing it; unregisters and shutdowns close send channels meanwhile.
module Sends {
  import opened Base
  import opened Clients

  datatype State = State(
    registered: set<Client>,
    closing: set<Client>,               // removed from the map, the channel not closed yet
    closed: set<Client>,
    copies: map<nat, set<Client>>,      // the targets each delivery has still to serve
    panicked: bool)

  datatype Action =
    | Register(client: Client)
    | Remove(client: Client)
    | Close(client: Client)
    // deliver or notifyUserLocal: the clients meant, among those registered.
    | Copy(delivery: nat, meant: set<Client>)
    | Serve(delivery: nat, client: Client)

  const START := State({}, {}, {}, map[], false)

  function Next(s: State, a: Action): State {
    match a
    case Register(c) =>
      // Each client object registers once.
      if c in s.registered + s.closing + s.closed then s else s.(registered := s.registered + {c})
    case Remove(c) =>
      if c in s.registered then s.(registered := s.registered - {c}, closing := s.closing + {c}) else s
    case Close(c) =>
      if c in s.closing then s.(closing := s.closing - {c}, closed := s.closed + {c}) else s
    case Copy(d, meant) =>
      if d in s.copies then s else s.(copies := s.copies[d := meant * s.registered])
    case Serve(d, c) =>
      if d in s.copies && c in s.copies[d] then
        s.(copies := s.copies[d := s.copies[d] - {c}], panicked := s.panicked || c in s.closed)
      else s
  }

  function Exec(run: seq<Action>): State {
    if run == [] then START else Next(Exec(Front(run)), Last(run))
  }

  // ---- What happens at step i of a run ----

  predicate CopiesAt(run: seq<Action>, i: nat, d: nat, c: Client) {
    && i < |run| && run[i].Copy? && run[i].delivery == d
    && d !in Exec(run[..i]).copies && c in run[i].meant * Exec(run[..i]).registered
  }

  predicate ClosesAt(run: seq<Action>, i: nat, c: Client) {
    i < |run| && run[i] == Close(c) && c in Exec(run[..i]).closing
  }

  predicate ServesAt(run: seq<Action>, i: nat, d: nat, c: Client) {
    && i < |run| && run[i] == Serve(d, c)
    && d in Exec(run[..i]).copies && c in Exec(run[..i]).copies[d]
  }

  // A client copied into a delivery, then closed, then served by that delivery.
  ghost predicate Late(run: seq<Action>, i: nat, j: nat, k: nat, d: nat, c: Client) {
    i < j < k && CopiesAt(run, i, d, c) && ClosesAt(run, j, c) && ServesAt(run, k, d, c)
  }

  // ---- Proof ----

  predicate Inv(s: State) {
    s.registered !! s.closing && s.registered !! s.closed && s.closing !! s.closed
  }

  lemma {:induction false} Reachable(run: seq<Action>)
    ensures Inv(Exec(run))
  {
    if run != [] {
      Reachable(Front(run));
    }
  }

  // What happened at a step stays so as the run goes on.
  lemma Earlier(run: seq<Action>, i: nat)
    requires run != [] && i < |run| - 1
    ensures run[..i] == Front(run)[..i] && run[i] == Front(run)[i]
  {
  }

  lemma {:induction false} CopiedBefore(run: seq<Action>, d: nat, c: Client) returns (i: nat)
    requires d in Exec(run).copies && c in Exec(run).copies[d]
    ensures CopiesAt(run, i, d, c)
  {
    var s := Exec(Front(run));
    if d in s.copies {
      i := CopiedBefore(Front(run), d, c);
      Earlier(run, i);
    } else {
      i := |run| - 1;
      assert run[..i] == Front(run);
    }
  }

  lemma {:induction false} ClosedBefore(run: seq<Action>, c: Client) returns (j: nat)
    requires c in Exec(run).closed
    ensures ClosesAt(run, j, c)
  {
    if c in Exec(Front(run)).closed {
      j := ClosedBefore(Front(run), c);
      Earlier(run, j);
    } else {
      j := |run| - 1;
      assert run[..j] == Front(run);
    }
  }

  // Closed or on the way to it, for good.
  lemma {:induction false} StaysOut(run: seq<Action>, i: nat, c: Client)
    requires i <= |run| && c in Exec(run[..i]).closing + Exec(run[..i]).closed
    ensures c in Exec(run).closing + Exec(run).closed
    ensures c in Exec(run[..i]).closed ==> c in Exec(run).closed
  {
    if i == |run| {
      assert run[..i] == run;
    } else {
      assert run[..i] == Front(run)[..i];
      StaysOut(Front(run), i, c);
    }
  }

  // A closed client was not registered afterwards, so it was copied before its close.
  lemma CopyPrecedesClose(run: seq<Action>, i: nat, j: nat, d: nat, c: Client)
    requires CopiesAt(run, i, d, c) && ClosesAt(run, j, c)
    ensures i < j
  {
    if j <= i {
      assert run[..i][..j] == run[..j];
      StaysOut(run[..i], j, c);
      Reachable(run[..i]);
    }
  }

  lemma {:induction false} PanicIsLate(run: seq<Action>) returns (i: nat, j: nat, k: nat, d: nat, c: Client)
    requires Exec(run).panicked
    ensures Late(run, i, j, k, d, c)
  {
    var f := Front(run);
    if Exec(f).panicked {
      i, j, k, d, c := PanicIsLate(f);
      Earlier(run, i);
      Earlier(run, j);
      Earlier(run, k);
    } else {
      k, d, c := |run| - 1, Last(run).delivery, Last(run).client;
      assert run[..k] == f;
      i := CopiedBefore(f, d, c);
      j := ClosedBefore(f, c);
      CopyPrecedesClose(f, i, j, d, c);
      Earlier(run, i);
      Earlier(run, j);
    }
  }

  lemma {:induction false} PanicStays(run: seq<Action>, k: nat)
    requires k <= |run| && Exec(run[..k]).panicked
    ensures Exec(run).panicked
  {
    if k == |run| {
      assert run[..k] == run;
    } else {
      assert run[..k] == Front(run)[..k];
      PanicStays(Front(run), k);
    }
  }

  lemma ClosedAfter(run: seq<Action>, j: nat, c: Client)
    requires ClosesAt(run, j, c)
    ensures c in Exec(run[..j + 1]).closed
  {
    assert Front(run[..j + 1]) == run[..j] && Last(run[..j + 1]) == run[j];
  }

  lemma PanicsAfter(run: seq<Action>, k: nat, d: nat, c: Client)
    requires ServesAt(run, k, d, c) && c in Exec(run[..k]).closed
    ensures Exec(run[..k + 1]).panicked
  {
    assert Front(run[..k + 1]) == run[..k] && Last(run[..k + 1]) == run[k];
  }

  lemma LatePanics(run: seq<Action>, i: nat, j: nat, k: nat, d: nat, c: Client)
    requires Late(run, i, j, k, d, c)
    ensures Exec(run).panicked
  {
    hide Exec, Next;
    ClosedAfter(run, j, c);
    assert run[..k][..j + 1] == run[..j + 1];
    StaysOut(run[..k], j + 1, c);
    PanicsAfter(run, k, d, c);
    PanicStays(run, k + 1);
  }

  // ---- Main result ----

  // Some delivery sends on a closed channel if and only if a client is copied by it before the
  // client's close and served by it after.
  lemma PanicIffLate(run: seq<Action>)
    ensures Exec(run).panicked <==> exists i, j, k, d, c :: Late(run, i, j, k, d, c)
  {
    if Exec(run).panicked {
      var i, j, k, d, c := PanicIsLate(run);
    }
    forall i, j, k, d, c | Late(run, i, j, k, d, c)
      ensures Exec(run).panicked
    {
      LatePanics(run, i, j, k, d, c);
    }
  }

  // No close falls into a delivery.
  predicate Serial(run: seq<Action>) {
    run == [] || (Serial(Front(run)) &&
                  (Last(run).Close? ==> forall d :: d in Exec(Front(run)).copies ==> Exec(Front(run)).copies[d] == {}))
  }

  lemma {:induction false} SerialNeverPanics(run: seq<Action>)
    requires Serial(run)
    ensures var s := Exec(run); !s.panicked && forall d :: d in s.copies ==> s.copies[d] !! s.closed
  {
    if run != [] {
      SerialNeverPanics(Front(run));
      Reachable(Front(run));
    }
  }

  // ---- The witness ----

  lemma Append(run: seq<Action>, a: Action)
    ensures Exec(run + [a]) == Next(Exec(run), a)
  {
    assert Front(run + [a]) == run;
  }

  // Five steps. On one node deliver and unregister share the hub's loop, so a close between a copy and a
  // serve comes from Shutdown, or the copy from notifyUserLocal, which runs in the broker's goroutine.
  lemma Panics(c: Client)
    ensures Exec([Register(c)] + [Copy(0, {c})] + [Remove(c)] + [Close(c)] + [Serve(0, c)]).panicked
  {
    var r1: seq<Action> := [Register(c)];
    var r2 := r1 + [Copy(0, {c})];
    var r3 := r2 + [Remove(c)];
    var r4 := r3 + [Close(c)];
    assert [] + r1 == r1 && Exec([]) == START;
    hide Exec;
    Append([], Register(c));
    Append(r1, Copy(0, {c}));
    Append(r2, Remove(c));
    Append(r3, Close(c));
    Append(r4, Serve(0, c));
    assert Exec(r1) == State({c}, {}, {}, map[], false);
    assert {c} * {c} == {c};
    assert Exec(r2) == State({c}, {}, {}, map[0 := {c}], false);
    assert Exec(r3).closing == {c} && Exec(r3).copies == map[0 := {c}];
    assert Exec(r4).closed == {c} && Exec(r4).copies == map[0 := {c}];
  }
}
