// Allowed origins: the cached checker (internal/origins/checker.go) and the update that
// invalidates it (internal/apps/service.go).
module Origins {
  import opened Base
  import opened Text

  // A row of ListAppOriginEntries.
  datatype Row = Row(id: int64, workspace: int64, sandbox: int64, origins: seq<string>)

  datatype Hints = Hints(app: int64, workspace: int64, preflight: bool)

  datatype Snapshot = Snapshot(byApp: map<int64, seq<string>>, byWorkspace: map<int64, seq<string>>, union: seq<string>)

  const TTL: int := 60_000_000_000     // nanoseconds
  const MAX_ORIGINS_PER_APP := 20

  predicate IsSlash(c: char) {
    c == '/'
  }

  function Normalize(origin: string): string {
    TrimRight(TrimSpace(origin), IsSlash)
  }

  // Normalizing takes away white space around, and then the slashes at the end; nothing else.
  lemma NormalizeSplit(origin: string) returns (before: string, slashes: string, after: string)
    ensures var o := Normalize(origin);
      && origin == before + o + slashes + after
      && All(before, IsSpace) && All(after, IsSpace) && (forall i :: 0 <= i < |slashes| ==> slashes[i] == '/')
      && (o != "" ==> !IsSpace(o[0]) && Last(o) != '/')
      && (o != "" && slashes == "" ==> !IsSpace(Last(o)))
  {
    hide IsSpace;
    before := TrimLeftSplit(origin, IsSpace);
    after := TrimRightSplit(TrimLeft(origin, IsSpace), IsSpace);
    slashes := TrimRightSplit(TrimSpace(origin), IsSlash);
    hide TrimLeft, TrimRight;
    assert TrimSpace(origin) == Normalize(origin) + slashes;
  }

  // ---- The direct decision ----

  predicate Has(origins: seq<string>, origin: string) {
    exists i :: 0 <= i < |origins| && Normalize(origins[i]) == origin
  }

  predicate Lists(r: Row, origin: string) {
    origin != "" && Has(r.origins, origin)
  }

  predicate AppLists(rows: seq<Row>, app: int64, origin: string) {
    exists i :: 0 <= i < |rows| && rows[i].id == app && Lists(rows[i], origin)
  }

  predicate HasWorkspace(r: Row, workspace: int64) {
    r.workspace == workspace || r.sandbox == workspace
  }

  // The live or the sandbox workspace of an app that lists the origin.
  predicate WorkspaceLists(rows: seq<Row>, workspace: int64, origin: string) {
    exists i :: 0 <= i < |rows| && HasWorkspace(rows[i], workspace) && Lists(rows[i], origin)
  }

  predicate SomeLists(rows: seq<Row>, origin: string) {
    exists i :: 0 <= i < |rows| && Lists(rows[i], origin)
  }

  // What the decision should be, given the rows of the apps table.
  predicate Direct(platform: seq<string>, rows: seq<Row>, origin: string, hints: Hints) {
    var o := Normalize(origin);
    || o == ""
    || o in platform
    || (if hints.app > 0 then AppLists(rows, hints.app, o)
        else if hints.workspace > 0 then WorkspaceLists(rows, hints.workspace, o)
        else hints.preflight && SomeLists(rows, o))
  }

  // An origin is let through exactly when it is blank, one of the platform's, or listed by a row: that of
  // the app when there is one, else that of the workspace, else any, for a preflight only.
  lemma DirectMeans(platform: seq<string>, rows: seq<Row>, origin: string, hints: Hints)
    ensures var o := Normalize(origin);
      Direct(platform, rows, origin, hints) <==>
        || o == "" || o in platform
        || exists i, j :: 0 <= i < |rows| && 0 <= j < |rows[i].origins| && Normalize(rows[i].origins[j]) == o
             && if hints.app > 0 then rows[i].id == hints.app
                else if hints.workspace > 0 then
                  rows[i].workspace == hints.workspace || rows[i].sandbox == hints.workspace
                else hints.preflight
  {
    hide Normalize;
    var o := Normalize(origin);
    forall i, j | 0 <= i < |rows| && 0 <= j < |rows[i].origins| && Normalize(rows[i].origins[j]) == o && o != ""
      ensures Lists(rows[i], o)
    {
    }
  }

  // apps.id is the primary key; workspace_id and sandbox_workspace_id are unique, and no
  // workspace is the live one of one app and the sandbox of another.
  predicate Unique(rows: seq<Row>) {
    forall i, j :: 0 <= i < j < |rows| ==>
      && rows[i].id != rows[j].id
      && rows[i].workspace != rows[j].workspace && rows[i].sandbox != rows[j].sandbox
      && rows[i].workspace != rows[j].sandbox && rows[i].sandbox != rows[j].workspace
  }

  // ---- The indexes ----

  function Stored(origins: seq<string>): seq<string> {
    if origins == [] then []
    else
      var o := Normalize(Last(origins));
      Stored(Front(origins)) + if o != "" then [o] else []
  }

  function ByApp(rows: seq<Row>): map<int64, seq<string>> {
    if rows == [] then map[] else ByApp(Front(rows))[Last(rows).id := Stored(Last(rows).origins)]
  }

  function ByWorkspace(rows: seq<Row>): map<int64, seq<string>> {
    if rows == [] then map[]
    else
      var r := Last(rows);
      var live := ByWorkspace(Front(rows))[r.workspace := Stored(r.origins)];
      if r.sandbox > 0 then live[r.sandbox := Stored(r.origins)] else live
  }

  // Reading a Go map of slices: an absent key reads as an empty slice.
  function At(m: map<int64, seq<string>>, key: int64): seq<string> {
    if key in m then m[key] else []
  }

  lemma HasMore(origins: seq<string>, origin: string)
    requires origins != []
    ensures Has(origins, origin) <==> Has(Front(origins), origin) || Normalize(Last(origins)) == origin
  {
    hide Normalize;
    assert forall i :: 0 <= i < |origins| - 1 ==> Front(origins)[i] == origins[i];
    assert Last(origins) == origins[|origins| - 1];
  }

  lemma {:induction false} StoredMeans(origins: seq<string>, origin: string)
    ensures origin in Stored(origins) <==> origin != "" && Has(origins, origin)
  {
    if origins != [] {
      StoredMeans(Front(origins), origin);
      HasMore(origins, origin);
    }
  }

  lemma ListsStored(r: Row, origin: string)
    ensures origin in Stored(r.origins) <==> Lists(r, origin)
  {
    StoredMeans(r.origins, origin);
  }

  lemma AppListsMore(rows: seq<Row>, app: int64, origin: string)
    requires rows != [] && Unique(rows)
    ensures Unique(Front(rows))
    ensures AppLists(rows, app, origin) <==>
      if Last(rows).id == app then Lists(Last(rows), origin) else AppLists(Front(rows), app, origin)
  {
    hide Lists;
    if AppLists(rows, app, origin) {
      var i :| 0 <= i < |rows| && rows[i].id == app && Lists(rows[i], origin);
      assert i < |rows| - 1 ==> Front(rows)[i] == rows[i];
    }
    if Last(rows).id == app {
      assert Lists(Last(rows), origin) ==> Lists(rows[|rows| - 1], origin);
    } else if AppLists(Front(rows), app, origin) {
      var i :| 0 <= i < |rows| - 1 && Front(rows)[i].id == app && Lists(Front(rows)[i], origin);
      assert rows[i] == Front(rows)[i];
    }
  }

  lemma {:induction false} ByAppMeans(rows: seq<Row>, app: int64, origin: string)
    requires Unique(rows)
    ensures origin in At(ByApp(rows), app) <==> AppLists(rows, app, origin)
  {
    if rows != [] {
      StoredMeans(Last(rows).origins, origin);
      AppListsMore(rows, app, origin);
      hide AppLists, Stored, Unique, Has;
      ByAppMeans(Front(rows), app, origin);
    }
  }

  lemma WorkspaceListsMore(rows: seq<Row>, workspace: int64, origin: string)
    requires rows != [] && Unique(rows)
    ensures Unique(Front(rows))
    ensures WorkspaceLists(rows, workspace, origin) <==>
      if HasWorkspace(Last(rows), workspace) then Lists(Last(rows), origin)
      else WorkspaceLists(Front(rows), workspace, origin)
  {
    hide Lists;
    if WorkspaceLists(rows, workspace, origin) {
      var i :| 0 <= i < |rows| && HasWorkspace(rows[i], workspace) && Lists(rows[i], origin);
      assert i < |rows| - 1 ==> Front(rows)[i] == rows[i];
    }
    if HasWorkspace(Last(rows), workspace) {
      assert Lists(Last(rows), origin) ==> Lists(rows[|rows| - 1], origin);
    } else if WorkspaceLists(Front(rows), workspace, origin) {
      var f := Front(rows);
      var i :| 0 <= i < |f| && HasWorkspace(f[i], workspace) && Lists(f[i], origin);
      assert rows[i] == f[i];
    }
  }

  lemma {:induction false} ByWorkspaceMeans(rows: seq<Row>, workspace: int64, origin: string)
    requires Unique(rows) && workspace > 0
    ensures origin in At(ByWorkspace(rows), workspace) <==> WorkspaceLists(rows, workspace, origin)
  {
    if rows != [] {
      StoredMeans(Last(rows).origins, origin);
      WorkspaceListsMore(rows, workspace, origin);
      hide WorkspaceLists, Stored, Unique, Has;
      ByWorkspaceMeans(Front(rows), workspace, origin);
    }
  }

  // The three indexes are what the loop below makes of the rows, in whatever order the union is.
  ghost predicate Indexes(s: Snapshot, rows: seq<Row>) {
    && s.byApp == ByApp(rows)
    && s.byWorkspace == ByWorkspace(rows)
    && forall o :: o in s.union <==> SomeLists(rows, o)
  }

  // The decision IsAllowed takes on a snapshot.
  predicate Decide(platform: seq<string>, s: Snapshot, origin: string, hints: Hints) {
    var o := Normalize(origin);
    || o == ""
    || o in platform
    || (if hints.app > 0 then o in At(s.byApp, hints.app)
        else if hints.workspace > 0 then o in At(s.byWorkspace, hints.workspace)
        else hints.preflight && o in s.union)
  }

  // Deciding on the indexes is deciding on the rows.
  lemma DecideIsDirect(platform: seq<string>, s: Snapshot, rows: seq<Row>, origin: string, hints: Hints)
    requires Unique(rows) && Indexes(s, rows)
    ensures Decide(platform, s, origin, hints) == Direct(platform, rows, origin, hints)
  {
    ByAppMeans(rows, hints.app, Normalize(origin));
    if hints.workspace > 0 {
      ByWorkspaceMeans(rows, hints.workspace, Normalize(origin));
    }
  }

  // ---- The cache over whole runs ----

  // The rows of the last successful reload, and its time unless it has been invalidated since.
  datatype Cache = Cache(rows: Option<seq<Row>>, loadedAt: Option<int>)

  datatype Event =
    | Write(rows: seq<Row>)          // the apps table changes, on this node or another
    | Invalidate
    | Ask(now: int, works: bool)     // a decision; works says that a reload query would succeed

  datatype State = State(db: seq<Row>, cache: Cache)

  function Refreshed(c: Cache, db: seq<Row>, now: int, works: bool): Cache {
    if c.rows.Some? && c.loadedAt.Some? && now - c.loadedAt.value < TTL then c
    else if works then Cache(Some(db), Some(now))
    else c
  }

  function Next(s: State, e: Event): State {
    match e
    case Write(rows) => s.(db := rows)
    case Invalidate => s.(cache := s.cache.(loadedAt := None))
    case Ask(now, works) => s.(cache := Refreshed(s.cache, s.db, now, works))
  }

  function Exec(run: seq<Event>): State {
    if run == [] then State([], Cache(None, None)) else Next(Exec(Front(run)), Last(run))
  }

  // The query runs exactly when nothing is cached, the cache has been invalidated, or it is 60 seconds
  // old; one that fails leaves the cache as it was.
  lemma ReloadIff(s: State, now: int, works: bool)
    ensures var c, t := s.cache, Next(s, Ask(now, works));
      var current := c.rows.Some? && c.loadedAt.Some? && now - c.loadedAt.value < 60_000_000_000;
      && t.db == s.db
      && t.cache == if works && !current then Cache(Some(s.db), Some(now)) else c
  {
  }

  // The cache holds the table as it was at the decision with index k, and is valid since.
  predicate LoadedAt(run: seq<Event>, k: nat) {
    && k < |run| && run[k].Ask?
    && Exec(run).cache == Cache(Some(Exec(run[..k]).db), Some(run[k].now))
    && Invalidate !in run[k..]
  }

  lemma {:induction false} SomeLoad(run: seq<Event>) returns (k: nat)
    requires Exec(run).cache.loadedAt.Some?
    ensures LoadedAt(run, k)
  {
    var e, s := Last(run), Exec(Front(run));
    if e.Ask? && Exec(run).cache != s.cache {
      k := |run| - 1;
      assert run[..k] == Front(run);
      assert run[k..] == [e];
    } else {
      k := SomeLoad(Front(run));
      assert run[..k] == Front(run)[..k];
      assert run[k..] == Front(run)[k..] + [e];
    }
  }

  predicate Ordered(run: seq<Event>) {
    forall i, j :: 0 <= i < j < |run| && run[i].Ask? && run[j].Ask? ==> run[i].now <= run[j].now
  }

  // A decision is the direct decision on the table as it stood at some moment less than a minute
  // before, and not before any invalidation that came earlier. It is enough that the one reload
  // query this decision may need works.
  lemma DecisionIsRecent(run: seq<Event>, now: int) returns (k: nat)
    requires Ordered(run + [Ask(now, true)])
    ensures var all := run + [Ask(now, true)];
      && k <= |run| && all[k].Ask? && 0 <= now - all[k].now < TTL
      && Invalidate !in all[k..]
      && Exec(all).cache.rows == Some(Exec(all[..k]).db)
  {
    var all := run + [Ask(now, true)];
    assert Front(all) == run;
    k := SomeLoad(all);
    assert all[k].now <= now by {
      if k < |run| { assert all[|run|] == Ask(now, true); }
    }
  }

  lemma {:induction false} NoWrite(run: seq<Event>, k: nat)
    requires k <= |run| && forall i :: k <= i < |run| ==> !run[i].Write?
    ensures Exec(run).db == Exec(run[..k]).db
  {
    if k < |run| {
      NoWrite(Front(run), k);
      assert Front(run)[..k] == run[..k];
    } else {
      assert run[..k] == run;
    }
  }

  // After an update has been written and invalidated, every later decision on the node is the
  // direct decision on the updated table, until the table changes again.
  lemma UpdateIsReflected(run: seq<Event>, i: nat, now: int)
    requires Ordered(run + [Ask(now, true)])
    requires i < |run| && run[i] == Invalidate && forall j :: i <= j < |run| ==> !run[j].Write?
    ensures Exec(run + [Ask(now, true)]).cache.rows == Some(Exec(run).db)
  {
    var all := run + [Ask(now, true)];
    var k := DecisionIsRecent(run, now);
    forall j | k <= j < |all|
      ensures all[j] != Invalidate
    {
      assert all[j] == all[k..][j - k];
    }
    assert all[..k] == run[..k];
    assert forall j :: k <= j < |run| ==> !run[j].Write?;
    NoWrite(run, k);
  }

  // ---- The checker ----

  method Contains(list: seq<string>, origin: string) returns (found: bool)
    ensures found == (origin in list)
  {
    for i := 0 to |list|
      invariant origin !in list[..i]
    {
      if list[i] == origin {
        return true;
      }
    }
    return false;
  }

  method NormalizeStored(origins: seq<string>) returns (out: seq<string>)
    ensures out == Stored(origins)
  {
    out := [];
    for i := 0 to |origins|
      invariant out == Stored(origins[..i])
    {
      assert Front(origins[..i + 1]) == origins[..i];
      var normalized := Normalize(origins[i]);
      if normalized != "" {
        out := out + [normalized];
      }
    }
    assert origins[..|origins|] == origins;
  }

  // The members of a set in some order.
  method Keys(all: set<string>) returns (out: seq<string>)
    ensures forall o :: o in out <==> o in all
  {
    out := [];
    var rest := all;
    while rest != {}
      invariant rest <= all && forall o :: o in out <==> o in all - rest
    {
      var o :| o in rest;
      out := out + [o];
      rest := rest - {o};
    }
  }

  // The loop over the rows.
  method Build(rows: seq<Row>) returns (s: Snapshot)
    ensures Indexes(s, rows)
  {
    hide SomeLists, Lists, Has, Normalize;
    var byApp: map<int64, seq<string>>, byWorkspace: map<int64, seq<string>>, unionSet: set<string> := map[], map[], {};
    NoneLists();
    for i := 0 to |rows|
      invariant byApp == ByApp(rows[..i]) && byWorkspace == ByWorkspace(rows[..i])
      invariant forall o :: o in unionSet <==> SomeLists(rows[..i], o)
    {
      assert Front(rows[..i + 1]) == rows[..i];
      var row := rows[i];
      var origins := NormalizeStored(row.origins);
      byApp := byApp[row.id := origins];
      byWorkspace := byWorkspace[row.workspace := origins];
      if row.sandbox > 0 {
        byWorkspace := byWorkspace[row.sandbox := origins];
      }
      ghost var before := unionSet;
      for j := 0 to |origins|
        invariant forall o :: o in unionSet <==> o in before || o in origins[..j]
      {
        unionSet := unionSet + {origins[j]};
      }
      assert origins[..|origins|] == origins;
      assert rows[..i + 1] == rows[..i] + [row];
      forall o
        ensures o in unionSet <==> SomeLists(rows[..i + 1], o)
      {
        SomeListsMore(rows[..i], row, o);
      }
    }
    assert rows[..|rows|] == rows;
    var union := Keys(unionSet);
    s := Snapshot(byApp, byWorkspace, union);
  }

  lemma NoneLists()
    ensures forall o :: !SomeLists([], o)
  {
  }

  lemma SomeListsMore(rows: seq<Row>, r: Row, o: string)
    ensures SomeLists(rows + [r], o) <==> SomeLists(rows, o) || o in Stored(r.origins)
  {
    hide Lists, Stored;
    assert o in Stored(r.origins) <==> Lists(r, o) by { ListsStored(r, o); }
    var more := rows + [r];
    assert more[|rows|] == r;
    if SomeLists(rows, o) {
      var i :| 0 <= i < |rows| && Lists(rows[i], o);
      assert more[i] == rows[i];
    }
  }

  // The decision is the direct one on the table as it stood at decision k, less than a minute
  // before, with no invalidation since.
  ghost predicate DecidedAt(platform: seq<string>, run: seq<Event>, k: nat, now: int,
                            origin: string, hints: Hints, allowed: bool) {
    && k < |run| && run[k].Ask? && 0 <= now - run[k].now < TTL
    && Invalidate !in run[k..]
    && allowed == Direct(platform, Exec(run[..k]).db, origin, hints)
  }

  // The table has been invalidated for since it last changed.
  predicate Settled(run: seq<Event>) {
    exists i :: 0 <= i < |run| && run[i] == Invalidate && forall j :: i <= j < |run| ==> !run[j].Write?
  }

  class Checker {
    const platform: seq<string>
    var cache: Option<Snapshot>       // none while byApp is nil
    var loadedAt: Option<int>         // none for the zero time
    ghost var run: seq<Event>         // what happened so far, writes to the table included

    ghost predicate Valid()
      reads this
    {
      var c := Exec(run).cache;
      && loadedAt == c.loadedAt
      && (cache.Some? <==> c.rows.Some?)
      && (c.rows.Some? ==> Unique(c.rows.value) && Indexes(cache.value, c.rows.value))
    }

    constructor (platform: seq<string>)
      ensures Valid() && this.platform == platform && run == []
    {
      this.platform := platform;
      cache, loadedAt, run := None, None, [];
    }

    // The apps table changes, by this node or another.
    ghost method TableChanges(rows: seq<Row>)
      requires Valid()
      modifies this`run
      ensures Valid() && run == old(run) + [Write(rows)]
    {
      run := run + [Write(rows)];
      assert Front(run) == old(run);
    }

    method InvalidateCache()
      requires Valid()
      modifies this
      ensures Valid() && run == old(run) + [Invalidate]
    {
      loadedAt := None;
      run := run + [Invalidate];
      assert Front(run) == old(run);
    }

    // db is what the query finds in the table, works whether it succeeds.
    method TakeSnapshot(db: seq<Row>, works: bool, now: int)
      requires Valid() && db == Exec(run).db && Unique(db)
      modifies this
      ensures Valid() && run == old(run) + [Ask(now, works)]
    {
      run := run + [Ask(now, works)];
      assert Front(run) == old(run);
      if loadedAt.Some? && now - loadedAt.value < TTL && cache.Some? {
        return;
      }
      if !works {
        return;
      }
      var next := Build(db);
      cache := Some(next);
      loadedAt := Some(now);
    }

    // A platform origin, or none, is let through without the cache. Otherwise, when a reload this
    // decision may need works, the decision is the direct one on the table less than a minute ago,
    // and on the table as it is when the node has been told of its last change.
    method IsAllowed(raw: string, hints: Hints, db: seq<Row>, works: bool, now: int) returns (allowed: bool)
      requires Valid() && db == Exec(run).db && Unique(db) && Ordered(run + [Ask(now, works)])
      modifies this
      ensures Valid()
      ensures run == old(run) + if OnPlatform(raw) then [] else [Ask(now, works)]
      ensures OnPlatform(raw) ==> allowed
      ensures !OnPlatform(raw) ==> allowed == Direct(platform, Exec(run).cache.rows.GetOr([]), raw, hints)
      ensures !OnPlatform(raw) && works ==> exists k :: DecidedAt(platform, run, k, now, raw, hints, allowed)
      ensures !OnPlatform(raw) && works && Settled(old(run)) ==> allowed == Direct(platform, db, raw, hints)
    {
      var origin := Normalize(raw);
      if origin == "" {
        return true;
      }
      var onPlatform := Contains(platform, origin);
      if onPlatform {
        return true;
      }
      TakeSnapshot(db, works, now);
      var snap := cache.GetOr(Snapshot(map[], map[], []));
      ghost var rows := Exec(run).cache.rows.GetOr([]);
      assert Indexes(snap, rows);
      DecideIsDirect(platform, snap, rows, raw, hints);
      if hints.app > 0 {
        allowed := Contains(At(snap.byApp, hints.app), origin);
      } else if hints.workspace > 0 {
        allowed := Contains(At(snap.byWorkspace, hints.workspace), origin);
      } else if hints.preflight {
        allowed := Contains(snap.union, origin);
      } else {
        allowed := false;
      }
      assert allowed == Direct(platform, rows, raw, hints);
      hide Direct, Exec, Normalize, Indexes;
      if works {
        Recent(old(run), now, platform, raw, hints, allowed);
      }
    }

    predicate OnPlatform(raw: string) {
      Normalize(raw) == "" || Normalize(raw) in platform
    }
  }

  lemma Recent(run: seq<Event>, now: int, platform: seq<string>, origin: string, hints: Hints, allowed: bool)
    requires Ordered(run + [Ask(now, true)])
    requires allowed == Direct(platform, Exec(run + [Ask(now, true)]).cache.rows.GetOr([]), origin, hints)
    ensures exists k :: DecidedAt(platform, run + [Ask(now, true)], k, now, origin, hints, allowed)
    ensures Settled(run) ==> allowed == Direct(platform, Exec(run).db, origin, hints)
  {
    hide Direct, Exec;
    var k := DecisionIsRecent(run, now);
    assert DecidedAt(platform, run + [Ask(now, true)], k, now, origin, hints, allowed);
    if Settled(run) {
      var i :| 0 <= i < |run| && run[i] == Invalidate && forall j :: i <= j < |run| ==> !run[j].Write?;
      UpdateIsReflected(run, i, now);
    }
  }

  // ---- The list an update stores ----

  datatype ListResult = Ok(origins: seq<string>) | TooMany | Refused(origin: string)

  // The normalized origins, each once, in the order of first occurrence.
  function Distinct(origins: seq<string>): seq<string> {
    if origins == [] then []
    else
      var done, o := Distinct(Front(origins)), Normalize(Last(origins));
      if o in done then done else done + [o]
  }

  lemma {:induction false} DistinctMeans(origins: seq<string>)
    ensures forall o :: o in Distinct(origins) <==> Has(origins, o)
    ensures NoDuplicates(Distinct(origins))
  {
    if origins != [] {
      DistinctMeans(Front(origins));
      if Normalize(Last(origins)) !in Distinct(Front(origins)) {
        NoDuplicatesAppend(Distinct(Front(origins)), [Normalize(Last(origins))]);
      }
      hide Has, Normalize, NoDuplicates;
      forall o
        ensures o in Distinct(origins) <==> Has(origins, o)
      {
        HasMore(origins, o);
      }
    }
  }

  predicate FirstRefused(origins: seq<string>, valid: string -> bool, i: nat)
    requires i < |origins|
  {
    !valid(Normalize(origins[i])) && forall j :: 0 <= j < i ==> valid(Normalize(origins[j]))
  }

  // NormalizeList. Whether a normalized origin is a valid URL is a foreign call.
  method NormalizeList(origins: seq<string>, valid: string -> bool) returns (r: ListResult)
    ensures r.TooMany? <==> |origins| > MAX_ORIGINS_PER_APP
    ensures r.Ok? ==> r.origins == Distinct(origins) && forall i :: 0 <= i < |origins| ==> valid(Normalize(origins[i]))
    ensures r.Refused? ==>
      exists i :: 0 <= i < |origins| && FirstRefused(origins, valid, i) && r.origin == Normalize(origins[i])
  {
    hide Normalize;
    if |origins| > MAX_ORIGINS_PER_APP {
      return TooMany;
    }
    var seen: set<string>, out: seq<string> := {}, [];
    for i := 0 to |origins|
      invariant out == Distinct(origins[..i])
      invariant forall o :: o in seen <==> o in out
      invariant forall j :: 0 <= j < i ==> valid(Normalize(origins[j]))
    {
      assert Front(origins[..i + 1]) == origins[..i];
      var normalized := Normalize(origins[i]);
      if !valid(normalized) {
        assert FirstRefused(origins, valid, i);
        return Refused(normalized);
      }
      if normalized in seen {
        continue;
      }
      seen := seen + {normalized};
      out := out + [normalized];
    }
    assert origins[..|origins|] == origins;
    return Ok(out);
  }
}
