// internal/ratelimit/limiter.go: the in-memory sliding window and the fixed window kept in Redis.
module Limiter {
  import opened Base

  // ---- The sliding window as it should be ----

  // The times later than the cutoff, in order.
  function After(times: seq<int>, cutoff: int): seq<int> {
    if times == [] then []
    else After(Front(times), cutoff) + if Last(times) > cutoff then [Last(times)] else []
  }

  // Whether a request at now is accepted, given the times of all requests accepted before it.
  predicate Accepts(accepted: seq<int>, limit: int, window: int, now: int) {
    |After(accepted, now - window)| < limit
  }

  // All accepted requests of one key, when requests arrive at the given times.
  function History(requests: seq<int>, limit: int, window: int): seq<int> {
    if requests == [] then []
    else
      var before := History(Front(requests), limit, window);
      var now := Last(requests);
      before + if Accepts(before, limit, window, now) then [now] else []
  }

  predicate Nondecreasing(times: seq<int>) {
    forall i, j :: 0 <= i < j < |times| ==> times[i] <= times[j]
  }

  // How many of the times lie in (low, low + window].
  function InWindow(times: seq<int>, low: int, window: int): nat {
    if times == [] then 0
    else InWindow(Front(times), low, window)
         + if low < Last(times) <= low + window then 1 else 0
  }

  lemma {:induction false} AfterMembers(times: seq<int>, cutoff: int)
    ensures forall t :: t in After(times, cutoff) ==> t in times && t > cutoff
    ensures |After(times, cutoff)| <= |times|
  {
    if times != [] {
      AfterMembers(Front(times), cutoff);
    }
  }

  lemma AfterAdd(times: seq<int>, t: int, cutoff: int)
    ensures After(times + [t], cutoff) == After(times, cutoff) + if t > cutoff then [t] else []
  {
    assert Front(times + [t]) == times;
  }

  // Dropping old times first does not change what a later cutoff keeps.
  lemma {:induction false} AfterTwice(times: seq<int>, early: int, late: int)
    requires early <= late
    ensures After(After(times, early), late) == After(times, late)
  {
    if times != [] {
      var front, t := Front(times), Last(times);
      AfterTwice(front, early, late);
      if t > early {
        AfterAdd(After(front, early), t, late);
      } else {
        assert After(front, early) + [] == After(front, early);
      }
    }
  }

  // Times not later than now are counted by the cutoff alone.
  lemma {:induction false} AfterCounts(times: seq<int>, low: int, window: int)
    requires forall i :: 0 <= i < |times| ==> times[i] <= low + window
    ensures |After(times, low)| == InWindow(times, low, window)
  {
    if times != [] {
      AfterCounts(Front(times), low, window);
    }
  }

  lemma {:induction false} HistoryMembers(requests: seq<int>, limit: int, window: int, bound: int)
    requires forall i :: 0 <= i < |requests| ==> requests[i] <= bound
    ensures forall i :: 0 <= i < |History(requests, limit, window)| ==> History(requests, limit, window)[i] <= bound
  {
    if requests != [] {
      HistoryMembers(Front(requests), limit, window, bound);
    }
  }

  // An accepted request finds room in every window that reaches back from it.
  lemma RoomLeft(front: seq<int>, limit: int, window: int, low: int, now: int)
    requires now <= low + window && forall i :: 0 <= i < |front| ==> front[i] <= now
    requires Accepts(History(front, limit, window), limit, window, now)
    ensures InWindow(History(front, limit, window), low, window) < limit
  {
    hide History, After, InWindow;
    HistoryMembers(front, limit, window, now);
    LaterWindow(History(front, limit, window), low, window, now);
  }

  // With times that never go back, a request is accepted exactly when fewer than limit accepted
  // requests lie in (now - window, now].
  lemma AcceptsByWindow(requests: seq<int>, limit: int, window: int, now: int)
    requires Nondecreasing(requests + [now])
    ensures Accepts(History(requests, limit, window), limit, window, now) <==>
            InWindow(History(requests, limit, window), now - window, window) < limit
  {
    hide History, After, InWindow;
    var all := requests + [now];
    assert forall i :: 0 <= i < |requests| ==> all[i] == requests[i] && all[i] <= all[|requests|];
    HistoryMembers(requests, limit, window, now);
    AfterCounts(History(requests, limit, window), now - window, window);
  }

  // With times that never go back, no half-open interval as long as the window holds more than
  // limit accepted requests.
  lemma {:induction false} NeverOverLimit(requests: seq<int>, limit: int, window: int, low: int)
    requires Nondecreasing(requests) && limit > 0 && window > 0
    ensures InWindow(History(requests, limit, window), low, window) <= limit
  {
    if requests != [] {
      var front, now := Front(requests), Last(requests);
      var before := History(front, limit, window);
      NeverOverLimit(front, limit, window, low);
      hide After, InWindow;
      if Accepts(before, limit, window, now) {
        InWindowAdd(before, now, low, window);
        if low < now <= low + window {
          RoomLeft(front, limit, window, low, now);
        }
      } else {
        assert before + [] == before;
      }
    }
  }

  // Every time is at most now, so what lies in (low, low + window] lies in (now - window, now].
  lemma {:induction false} LaterWindow(times: seq<int>, low: int, window: int, now: int)
    requires now <= low + window && forall i :: 0 <= i < |times| ==> times[i] <= now
    ensures InWindow(times, low, window) <= |After(times, now - window)|
  {
    if times != [] {
      LaterWindow(Front(times), low, window, now);
    }
  }

  // ---- The sliding window as it is stored ----

  // The slice kept for a key, and the accepted requests, when only the slice is consulted.
  datatype Slot = Slot(slice: seq<int>, accepted: seq<int>)

  function Request(slot: Slot, limit: int, window: int, now: int): Slot {
    var kept := After(slot.slice, now - window);
    if |kept| >= limit then Slot(kept, slot.accepted) else Slot(kept + [now], slot.accepted + [now])
  }

  function Stored(requests: seq<int>, limit: int, window: int): Slot {
    if requests == [] then Slot([], [])
    else Request(Stored(Front(requests), limit, window), limit, window, Last(requests))
  }

  lemma StoredAdd(requests: seq<int>, now: int, limit: int, window: int)
    ensures Stored(requests + [now], limit, window) == Request(Stored(requests, limit, window), limit, window, now)
  {
    assert Front(requests + [now]) == requests;
  }

  // The slice is what a cutoff not later than the next one keeps of the accepted requests.
  predicate Enough(slot: Slot, limit: int, cutoff: int) {
    && |slot.slice| <= limit
    && slot.slice == After(slot.accepted, cutoff)
  }

  lemma RequestEnough(slot: Slot, limit: int, window: int, cutoff: int, now: int)
    requires Enough(slot, limit, cutoff) && cutoff <= now - window && window > 0 && limit > 0
    ensures Enough(Request(slot, limit, window, now), limit, now - window)
    ensures Request(slot, limit, window, now).accepted
         == slot.accepted + if Accepts(slot.accepted, limit, window, now) then [now] else []
  {
    hide After;
    AfterTwice(slot.accepted, cutoff, now - window);
    AfterMembers(slot.slice, now - window);
    AfterAdd(slot.accepted, now, now - window);
    assert slot.accepted + [] == slot.accepted;
  }

  lemma NothingStored(limit: int, window: int, cutoff: int)
    requires limit > 0
    ensures Enough(Stored([], limit, window), limit, cutoff)
  {
  }

  // With times that never go back, consulting the slice decides as the full history would, and the
  // slice never holds more than limit times.
  lemma {:induction false} SliceIsEnough(requests: seq<int>, limit: int, window: int)
    requires Nondecreasing(requests) && limit > 0 && window > 0
    ensures Stored(requests, limit, window).accepted == History(requests, limit, window)
    ensures Enough(Stored(requests, limit, window), limit,
                   if requests == [] then 0 else Last(requests) - window)
  {
    hide After, Request, Accepts, Enough;
    if requests == [] {
      NothingStored(limit, window, 0);
    } else {
      var front, now := Front(requests), Last(requests);
      SliceIsEnough(front, limit, window);
      var slot, cutoff := Stored(front, limit, window), if front == [] then 0 else Last(front) - window;
      if front == [] {
        NothingStored(limit, window, now - window);
        RequestEnough(slot, limit, window, now - window, now);
      } else {
        RequestEnough(slot, limit, window, cutoff, now);
      }
    }
  }

  // ---- Times in any order ----

  // The clock is read before the lock, so requests can be served with times that go back, and a
  // late request can forget newer history.

  // Accepted times at least a window apart, in the order they were accepted.
  predicate Apart(times: seq<int>, window: int) {
    forall i, j :: 0 <= i < j < |times| ==> times[i] + window <= times[j]
  }

  // With a limit of one the slice is the last accepted time.
  predicate OneAndApart(slot: Slot, window: int) {
    && slot.slice == (if slot.accepted == [] then [] else [Last(slot.accepted)])
    && Apart(slot.accepted, window)
  }

  lemma ApartMore(times: seq<int>, window: int, now: int)
    requires Apart(times, window) && window > 0 && (times != [] ==> Last(times) + window <= now)
    ensures Apart(times + [now], window)
  {
    var more := times + [now];
    forall i, j | 0 <= i < j < |more|
      ensures more[i] + window <= more[j]
    {
      if j == |times| && i < |times| - 1 {
        assert times[i] + window <= times[|times| - 1];
      }
    }
  }

  lemma OneRequest(slot: Slot, window: int, now: int)
    requires OneAndApart(slot, window) && window > 0
    ensures OneAndApart(Request(slot, 1, window, now), window)
  {
    hide After, Apart;
    AfterNone(now - window);
    if slot.accepted != [] {
      var last := Last(slot.accepted);
      AfterAdd([], last, now - window);
      assert [] + [last] == slot.slice;
      if last <= now - window {
        ApartMore(slot.accepted, window, now);
      }
    } else {
      ApartMore(slot.accepted, window, now);
    }
  }

  lemma {:induction false} OneIsApart(requests: seq<int>, window: int)
    requires window > 0
    ensures OneAndApart(Stored(requests, 1, window), window)
  {
    if requests != [] {
      OneIsApart(Front(requests), window);
      OneRequest(Stored(Front(requests), 1, window), window, Last(requests));
    }
  }

  lemma AfterNone(cutoff: int)
    ensures After([], cutoff) == []
  {
  }

  lemma {:induction false} InWindowNone(times: seq<int>, low: int, window: int)
    requires forall i :: 0 <= i < |times| ==> times[i] <= low
    ensures InWindow(times, low, window) == 0
  {
    if times != [] {
      InWindowNone(Front(times), low, window);
    }
  }

  lemma {:induction false} ApartInWindow(times: seq<int>, low: int, window: int)
    requires Apart(times, window) && window > 0
    ensures InWindow(times, low, window) <= 1
  {
    if times != [] {
      ApartInWindow(Front(times), low, window);
      if Last(times) <= low + window {
        InWindowNone(Front(times), low, window);
      }
    }
  }

  function Repeat(t: int, n: nat): (r: seq<int>)
    ensures |r| == n
  {
    seq(n, _ => t)
  }

  lemma RepeatAdd(t: int, n: nat)
    ensures Repeat(t, n + 1) == Repeat(t, n) + [t]
  {
  }

  lemma {:induction false} RepeatedTimes(n: nat, window: int)
    requires window > 0
    ensures InWindow(Repeat(0, n), -1, window) == n
    ensures After(Repeat(0, n), -window) == Repeat(0, n) && After(Repeat(0, n), 0) == []
  {
    if n > 0 {
      RepeatedTimes(n - 1, window);
      RepeatAdd(0, n - 1);
      hide After, InWindow, Repeat;
      AfterAdd(Repeat(0, n - 1), 0, -window);
      AfterAdd(Repeat(0, n - 1), 0, 0);
      InWindowAdd(Repeat(0, n - 1), 0, -1, window);
    }
  }

  // Requests at one time, up to the limit, are all kept and all accepted.
  lemma {:induction false} Burst(n: nat, limit: int, window: int)
    requires n <= limit && window > 0
    ensures Stored(Repeat(0, n), limit, window) == Slot(Repeat(0, n), Repeat(0, n))
  {
    if n > 0 {
      Burst(n - 1, limit, window);
      RepeatAdd(0, n - 1);
      hide Stored, After, Repeat;
      RepeatedTimes(n - 1, window);
      StoredAdd(Repeat(0, n - 1), 0, limit, window);
    }
  }

  // A full burst, then one window later, then one tick earlier than that: the last request finds
  // the burst forgotten.
  function LateRun(limit: nat, window: int): seq<int> {
    Repeat(0, limit) + [window] + [window - 1]
  }

  lemma LateRunExceeds(limit: nat, window: int)
    requires limit > 1 && window > 0
    ensures InWindow(Stored(LateRun(limit, window), limit, window).accepted, -1, window) == limit + 1
  {
    hide Stored, After, InWindow;
    var burst := Repeat(0, limit);
    Burst(limit, limit, window);
    RepeatedTimes(limit, window);
    StoredAdd(burst, window, limit, window);
    assert Stored(burst + [window], limit, window) == Slot([window], burst + [window]);
    AfterNone(-1);
    AfterAdd([], window, -1);
    assert [] + [window] == [window];
    StoredAdd(burst + [window], window - 1, limit, window);
    InWindowAdd(burst, window, -1, window);
    InWindowAdd(burst + [window], window - 1, -1, window);
  }

  ghost predicate BoundInAnyOrder(limit: int, window: int) {
    forall requests, low :: InWindow(Stored(requests, limit, window).accepted, low, window) <= limit
  }

  // The bound survives every order of the times if and only if the limit is one.
  lemma AnyOrderIffLimitOne(limit: int, window: int)
    requires limit > 0 && window > 0
    ensures BoundInAnyOrder(limit, window) <==> limit == 1
  {
    if limit == 1 {
      forall requests, low
        ensures InWindow(Stored(requests, limit, window).accepted, low, window) <= limit
      {
        OneIsApart(requests, window);
        ApartInWindow(Stored(requests, limit, window).accepted, low, window);
      }
    } else {
      LateRunExceeds(limit, window);
    }
  }

  lemma InWindowAdd(times: seq<int>, t: int, low: int, window: int)
    ensures InWindow(times + [t], low, window)
         == InWindow(times, low, window) + if low < t <= low + window then 1 else 0
  {
    assert Front(times + [t]) == times;
  }

  // ---- allowMemory, on reused backing arrays ----

  datatype Slice = Slice(backing: array<int>, len: nat)

  class Limiter {
    const limit: int
    const window: int
    var count: map<string, Slice>
    // The times of all requests made for a key.
    ghost var requests: map<string, seq<int>>

    ghost function Backings(): set<array<int>>
      reads this
    {
      set key | key in count :: count[key].backing
    }

    // No two keys share a backing array, so filtering one in place cannot disturb another.
    ghost predicate Valid()
      reads this, Backings()
    {
      && limit > 0
      && (forall key :: key in count ==> count[key].len <= count[key].backing.Length)
      && (forall k, l :: k in count && l in count && k != l ==> count[k].backing != count[l].backing)
      && (forall key :: Times(key) == Stored(Requests(key), limit, window).slice)
    }

    ghost function Times(key: string): seq<int>
      reads this, Backings()
    {
      if key in count && count[key].len <= count[key].backing.Length
      then count[key].backing[..count[key].len] else []
    }

    ghost function Requests(key: string): seq<int>
      reads this
    {
      if key in requests then requests[key] else []
    }

    // A limit that is not positive is replaced by 120.
    constructor (requestsPerMinute: int, window: int)
      ensures Valid() && count == map[] && requests == map[]
      ensures limit == (if requestsPerMinute <= 0 then 120 else requestsPerMinute) && this.window == window
    {
      limit := if requestsPerMinute <= 0 then 120 else requestsPerMinute;
      this.window := window;
      count, requests := map[], map[];
    }

    // filtered := times[:0], then append what is later than the cutoff: the same array is read and
    // written, never overtaking itself.
    method Filter(times: Slice, cutoff: int) returns (len: nat)
      requires times.len <= times.backing.Length
      modifies times.backing
      ensures len <= times.len && times.backing[..len] == After(old(times.backing[..times.len]), cutoff)
    {
      var a := times.backing;
      len := 0;
      for i := 0 to times.len
        invariant len <= i
        invariant a[..len] == After(old(a[..i]), cutoff)
        invariant forall k :: i <= k < a.Length ==> a[k] == old(a[k])
      {
        assert old(a[..i + 1]) == old(a[..i]) + [old(a[i])];
        AfterAdd(old(a[..i]), old(a[i]), cutoff);
        if a[i] > cutoff {
          a[len] := a[i];
          len := len + 1;
        }
      }
    }

    // append: in place when there is room, in a larger copy otherwise.
    method Append(times: Slice, now: int) returns (r: Slice)
      requires times.len <= times.backing.Length
      modifies times.backing
      ensures r.len == times.len + 1 <= r.backing.Length
      ensures r.backing[..r.len] == old(times.backing[..times.len]) + [now]
      ensures r.backing == times.backing || fresh(r.backing)
    {
      var a := times.backing;
      if times.len == a.Length {
        a := new int[2 * times.len + 1];
        for i := 0 to times.len
          invariant a[..i] == times.backing[..i]
          invariant times.backing[..] == old(times.backing[..])
        {
          a[i] := times.backing[i];
        }
      }
      a[times.len] := now;
      r := Slice(a, times.len + 1);
    }

    // Filter, test against the limit, and append when there is room.
    method Update(times: Slice, now: int, ghost before: Slot) returns (r: Slice, ok: bool)
      requires times.len <= times.backing.Length && times.backing[..times.len] == before.slice
      modifies times.backing
      ensures r.len <= r.backing.Length
      ensures r.backing[..r.len] == Request(before, limit, window, now).slice
      ensures Request(before, limit, window, now).accepted == before.accepted + if ok then [now] else []
      ensures r.backing == times.backing || fresh(r.backing)
    {
      hide After;
      var cutoff := now - window;
      var len := Filter(times, cutoff);
      r := Slice(times.backing, len);
      assert before.accepted + [] == before.accepted;
      ok := r.len < limit;
      if ok {
        r := Append(r, now);
      }
    }

    // l.count[key], where an absent key reads as an empty slice.
    method TimesOf(key: string) returns (times: Slice)
      requires Valid()
      ensures times.len <= times.backing.Length && times.backing[..times.len] == Times(key)
      ensures if key in count then times == count[key] else fresh(times.backing)
    {
      if key in count {
        times := count[key];
      } else {
        var empty := new int[0];
        times := Slice(empty, 0);
      }
    }

    method AllowMemory(key: string, now: int) returns (ok: bool)
      requires Valid()
      modifies this`count, this`requests, Backings()
      ensures Valid()
      ensures Requests(key) == old(Requests(key)) + [now]
      ensures forall other :: other != key ==>
                Times(other) == old(Times(other)) && Requests(other) == old(Requests(other))
      ensures Stored(Requests(key), limit, window).accepted ==
              Stored(old(Requests(key)), limit, window).accepted + if ok then [now] else []
    {
      hide Stored, Request, After;
      var times := TimesOf(key);
      ghost var before := Stored(Requests(key), limit, window);
      assert Times(key) == before.slice;
      StoredAdd(Requests(key), now, limit, window);
      var updated;
      updated, ok := Update(times, now, before);
      count := count[key := updated];
      requests := requests[key := Requests(key) + [now]];
      forall other | other != key
        ensures Times(other) == old(Times(other)) && Requests(other) == old(Requests(other))
      {
        if other in count {
          assert count[other] == old(count[other]) && count[other].backing != times.backing;
        }
      }
      forall other
        ensures Times(other) == Stored(Requests(other), limit, window).slice
      {
        if other != key {
          assert old(Times(other)) == Stored(old(Requests(other)), limit, window).slice;
        }
      }
      forall k, l | k in count && l in count && k != l
        ensures count[k].backing != count[l].backing
      {
        assert k != key ==> count[k] == old(count[k]);
        assert l != key ==> count[l] == old(count[l]);
      }
    }
  }

  // ---- allowRedis: a counter that expires a window after its first hit ----

  datatype Window = NoKey | Window(start: int, count: nat)

  datatype Hit = Hit(time: int, start: int)

  // INCR, and EXPIRE on the first hit; an expired key counts from nothing.
  function Incr(w: Window, window: int, now: int): Window {
    if w.NoKey? || now >= w.start + window then Window(now, 1) else Window(w.start, w.count + 1)
  }

  datatype Fixed = Fixed(current: Window, accepted: seq<Hit>)

  function AllowRedis(f: Fixed, limit: int, window: int, now: int): Fixed {
    var w := Incr(f.current, window, now);
    Fixed(w, f.accepted + if w.Window? && w.count <= limit then [Hit(now, w.start)] else [])
  }

  function FixedRun(requests: seq<int>, limit: int, window: int): Fixed {
    if requests == [] then Fixed(NoKey, [])
    else AllowRedis(FixedRun(Front(requests), limit, window), limit, window, Last(requests))
  }

  // Accepted hits with a property: of one window, of one window after its first instant, in an interval.
  datatype Which = OfWindow(start: int) | LateIn(start: int) | Within(low: int, window: int)

  predicate Is(h: Hit, which: Which) {
    match which
    case OfWindow(s) => h.start == s
    case LateIn(s) => h.start == s && h.time > s
    case Within(low, window) => low < h.time <= low + window
  }

  function HitCount(hits: seq<Hit>, which: Which): nat {
    if hits == [] then 0
    else HitCount(Front(hits), which) + if Is(Last(hits), which) then 1 else 0
  }

  lemma HitCountAdd(hits: seq<Hit>, h: Hit, which: Which)
    ensures HitCount(hits + [h], which) == HitCount(hits, which) + if Is(h, which) then 1 else 0
  {
    assert Front(hits + [h]) == hits;
  }

  lemma {:induction false} HitCountZero(hits: seq<Hit>, which: Which)
    requires forall i :: 0 <= i < |hits| ==> !Is(hits[i], which)
    ensures HitCount(hits, which) == 0
  {
    if hits != [] {
      HitCountZero(Front(hits), which);
    }
  }

  ghost predicate FixedOk(f: Fixed, limit: int, window: int) {
    && (forall i :: 0 <= i < |f.accepted| ==>
          var h := f.accepted[i];
          && h.start <= h.time < h.start + window
          && f.current.Window? && (h.start == f.current.start || h.start + window <= f.current.start))
    && (forall i, j :: 0 <= i < |f.accepted| && 0 <= j < |f.accepted| ==>
          var h, k := f.accepted[i], f.accepted[j];
          h.start == k.start || h.start + window <= k.start || k.start + window <= h.start)
    && (forall s :: HitCount(f.accepted, OfWindow(s)) <= limit && HitCount(f.accepted, LateIn(s)) <= limit - 1)
    && (f.current.Window? ==>
          && 1 <= f.current.count
          && HitCount(f.accepted, OfWindow(f.current.start)) <= f.current.count
          && HitCount(f.accepted, LateIn(f.current.start)) <= f.current.count - 1)
  }

  lemma AllowRedisOk(f: Fixed, limit: int, window: int, now: int)
    requires FixedOk(f, limit, window) && limit > 0 && window > 0
    requires f.current.Window? ==> f.current.start <= now
    ensures FixedOk(AllowRedis(f, limit, window, now), limit, window)
  {
    hide HitCount;
    var g := AllowRedis(f, limit, window, now);
    if g.current.count == 1 {
      HitCountZero(f.accepted, OfWindow(now));
      HitCountZero(f.accepted, LateIn(now));
    }
    if g.current.count <= limit {
      var h := Hit(now, g.current.start);
      forall s
        ensures HitCount(g.accepted, OfWindow(s)) <= limit && HitCount(g.accepted, LateIn(s)) <= limit - 1
      {
        HitCountAdd(f.accepted, h, OfWindow(s));
        HitCountAdd(f.accepted, h, LateIn(s));
      }
      HitCountAdd(f.accepted, h, OfWindow(g.current.start));
      HitCountAdd(f.accepted, h, LateIn(g.current.start));
    } else {
      assert g.accepted == f.accepted;
    }
  }

  lemma {:induction false} FixedRunOk(requests: seq<int>, limit: int, window: int)
    requires Nondecreasing(requests) && limit > 0 && window > 0
    ensures FixedOk(FixedRun(requests, limit, window), limit, window)
    ensures requests != [] ==>
      && FixedRun(requests, limit, window).current.Window?
      && FixedRun(requests, limit, window).current.start <= Last(requests)
  {
    if requests != [] {
      FixedRunOk(Front(requests), limit, window);
      AllowRedisOk(FixedRun(Front(requests), limit, window), limit, window, Last(requests));
    } else {
      assert forall which :: HitCount([], which) == 0;
    }
  }

  lemma {:induction false} CoverBy(hits: seq<Hit>, whole: Which, a: Which, b: Which)
    requires forall i :: 0 <= i < |hits| && Is(hits[i], whole) ==> Is(hits[i], a) || Is(hits[i], b)
    ensures HitCount(hits, whole) <= HitCount(hits, a) + HitCount(hits, b)
  {
    if hits != [] {
      CoverBy(Front(hits), whole, a, b);
    }
  }

  // An interval (low, low + window] meets at most two windows, and when it meets two it misses the
  // first hit of the earlier one: it holds at most 2 * limit - 1 accepted requests.
  lemma FixedWindowBound(requests: seq<int>, limit: int, window: int, low: int)
    requires Nondecreasing(requests) && limit > 0 && window > 0
    ensures HitCount(FixedRun(requests, limit, window).accepted, Within(low, window)) <= 2 * limit - 1
  {
    var hits := FixedRun(requests, limit, window).accepted;
    var whole := Within(low, window);
    FixedRunOk(requests, limit, window);
    if i :| 0 <= i < |hits| && Is(hits[i], whole) {
      var s := hits[i].start;
      if j :| 0 <= j < |hits| && Is(hits[j], whole) && hits[j].start != s {
        var early := if s < hits[j].start then s else hits[j].start;
        var late := if s < hits[j].start then hits[j].start else s;
        CoverBy(hits, whole, LateIn(early), OfWindow(late));
      } else {
        CoverByOne(hits, whole, OfWindow(s));
      }
    } else {
      HitCountZero(hits, whole);
    }
  }

  lemma {:induction false} CoverByOne(hits: seq<Hit>, whole: Which, a: Which)
    requires forall i :: 0 <= i < |hits| && Is(hits[i], whole) ==> Is(hits[i], a)
    ensures HitCount(hits, whole) <= HitCount(hits, a)
  {
    if hits != [] {
      CoverByOne(Front(hits), whole, a);
    }
  }

  // The request that opened the current window; every later one fell into it and was counted.
  lemma {:induction false} WindowOpened(requests: seq<int>, limit: int, window: int) returns (k: nat)
    requires requests != [] && window > 0
    ensures k < |requests| && FixedRun(requests, limit, window).current == Window(requests[k], |requests| - k)
    ensures forall i :: k <= i < |requests| ==> requests[i] < requests[k] + window
  {
    var front := Front(requests);
    if front == [] {
      k := 0;
    } else {
      k := WindowOpened(front, limit, window);
      if Last(requests) >= front[k] + window {
        k := |front|;
      }
    }
  }

  // A request is accepted exactly when it opens a window or fewer than limit requests, accepted or not,
  // have been made since the one that opened its window.
  lemma FixedAcceptsIff(requests: seq<int>, now: int, limit: int, window: int) returns (k: nat)
    requires requests != [] && limit > 0 && window > 0
    ensures k < |requests| && forall i :: k <= i < |requests| ==> requests[i] < requests[k] + window
    ensures FixedRun(requests + [now], limit, window).accepted == FixedRun(requests, limit, window).accepted
      + if now >= requests[k] + window then [Hit(now, now)]
        else if |requests| - k < limit then [Hit(now, requests[k])]
        else []
  {
    k := WindowOpened(requests, limit, window);
    FixedRunAdd(requests, now, limit, window);
  }

  // ---- The bound is reached ----

  // n hits at one time, all within the limit of the current window.
  lemma {:induction false} RepeatHits(requests: seq<int>, t: int, n: nat, limit: int, window: int, low: int)
    requires var w := FixedRun(requests, limit, window).current;
      w.Window? && t < w.start + window && w.count + n <= limit
    ensures var before, f := FixedRun(requests, limit, window), FixedRun(requests + Repeat(t, n), limit, window);
      && f.current == Window(before.current.start, before.current.count + n)
      && HitCount(f.accepted, Within(low, window)) ==
         HitCount(before.accepted, Within(low, window)) + if low < t <= low + window then n else 0
  {
    hide HitCount;
    if n == 0 {
      assert requests + Repeat(t, n) == requests;
    } else {
      RepeatHits(requests, t, n - 1, limit, window, low);
      var fewer := requests + Repeat(t, n - 1);
      assert requests + Repeat(t, n) == fewer + [t];
      FixedRunAdd(fewer, t, limit, window);
      var f := FixedRun(fewer, limit, window);
      HitCountAdd(f.accepted, Hit(t, f.current.start), Within(low, window));
    }
  }

  lemma FixedRunAdd(requests: seq<int>, now: int, limit: int, window: int)
    ensures FixedRun(requests + [now], limit, window)
         == AllowRedis(FixedRun(requests, limit, window), limit, window, now)
  {
    assert Front(requests + [now]) == requests;
  }

  // A hit that opens a new window.
  lemma OpeningHit(requests: seq<int>, t: int, limit: int, window: int, low: int)
    requires var w := FixedRun(requests, limit, window).current; w.NoKey? || t >= w.start + window
    requires limit > 0
    ensures FixedRun(requests + [t], limit, window).current == Window(t, 1)
    ensures HitCount(FixedRun(requests + [t], limit, window).accepted, Within(low, window)) ==
            HitCount(FixedRun(requests, limit, window).accepted, Within(low, window))
            + if low < t <= low + window then 1 else 0
  {
    FixedRunAdd(requests, t, limit, window);
    HitCountAdd(FixedRun(requests, limit, window).accepted, Hit(t, t), Within(low, window));
  }

  lemma NondecreasingAppend(xs: seq<int>, ys: seq<int>, bound: int)
    requires Nondecreasing(xs) && Nondecreasing(ys)
    requires forall i :: 0 <= i < |xs| ==> xs[i] <= bound
    requires forall i :: 0 <= i < |ys| ==> bound <= ys[i]
    ensures Nondecreasing(xs + ys)
  {
  }

  // One hit at 0, limit - 1 just before the window ends and limit when the next one opens: the
  // interval (0, window] holds 2 * limit - 1 accepted requests.
  lemma FixedWindowBoundReached(limit: int, window: int)
    requires limit > 0 && window > 1
    ensures exists requests :: Nondecreasing(requests) &&
              HitCount(FixedRun(requests, limit, window).accepted, Within(0, window)) == 2 * limit - 1
  {
    hide FixedRun, HitCount;
    var first := [] + [0];
    var second := first + Repeat(window - 1, limit - 1);
    var third := second + [window];
    var all := third + Repeat(window, limit - 1);
    NondecreasingAppend(first, Repeat(window - 1, limit - 1), 0);
    NondecreasingAppend(second, [window], window);
    NondecreasingAppend(third, Repeat(window, limit - 1), window);
    NoHits(limit, window);
    OpeningHit([], 0, limit, window, 0);
    RepeatHits(first, window - 1, limit - 1, limit, window, 0);
    OpeningHit(second, window, limit, window, 0);
    RepeatHits(third, window, limit - 1, limit, window, 0);
    assert Nondecreasing(all) &&
           HitCount(FixedRun(all, limit, window).accepted, Within(0, window)) == 2 * limit - 1;
  }

  lemma NoHits(limit: int, window: int)
    ensures FixedRun([], limit, window).current == NoKey
    ensures HitCount(FixedRun([], limit, window).accepted, Within(0, window)) == 0
  {
  }
}
