/** The library scan: batched row writes, the second walk, and the final commit. */
module Scanner {
  import opened Basics
  import opened Paths
  import opened Leaves
  import opened Snapshots

  const BATCH := 500

  /** A scan's working state. healthy counts the database calls that still succeed before one fails,
      so any single failure point is some value of it; tx holds the open transaction's view of the rows. */
  datatype Work = Work(db: Tables, tx: Option<Items>, batch: nat, lastSeries: string, lastSeason: string, healthy: nat)
  {
    function View(): Items { if tx.Some? then tx.value else db.items }
  }

  datatype Step = Step(ok: bool, w: Work)

  /** A file met by the second walk, and the disk at that moment. */
  datatype Sighting = Sighting(path: string, disk: Disk)

  datatype Job = Job(incremental: bool, allowEmpty: bool, scopes: seq<string>, rootsOk: bool,
                     walked: seq<(string, Stamp)>, visits: seq<Sighting>, seen: string)
  {
    predicate Reuse() { incremental || scopes != [] }
  }

  predicate Candidate(cfg: Config, path: string) {
    Visible(cfg, path) && Absolute(path) && IsStrm(path)
  }

  // ---- database steps

  function Named(names: map<string, string>, p: string, x: Row): Row {
    if p in names then x.(name := names[p]) else x
  }

  /** INSERT ... ON CONFLICT(path) DO UPDATE: an existing row keeps its user-given name. */
  function Upsert(items: Items, names: map<string, string>, p: string, x: Row): Items {
    items[p := if p in items then Named(names, p, x) else x]
  }

  function Flush(w: Work): Step {
    if w.tx.None? then Step(true, w)
    else if w.healthy == 0 then Step(false, w.(tx := None, batch := 0))
    else Step(true, w.(db := w.db.(items := w.tx.value), tx := None, batch := 0, healthy := w.healthy - 1))
  }

  function Write(w: Work, p: string, x: Row): Step
    requires w.tx.Some?
  {
    if w.healthy == 0 then Step(false, w)
    else
      var v := w.(tx := Some(Upsert(w.tx.value, w.db.names, p, x)), batch := w.batch + 1, healthy := w.healthy - 1);
      if v.batch >= BATCH then Flush(v) else Step(true, v)
  }

  function Save(w: Work, p: string, x: Row): Step {
    if w.tx.Some? then Write(w, p, x)
    else if w.healthy == 0 then Step(false, w)
    else Write(w.(tx := Some(w.db.items), healthy := w.healthy - 1), p, x)
  }

  // ---- one file of the second walk

  function SaveSeries(disk: Disk, series: string, seen: string, w: Work): Step {
    if w.lastSeries == series then Step(true, w)
    else
      var s := Save(w, series, SeriesRow(disk, series, seen));
      if s.ok then Step(true, s.w.(lastSeries := series)) else s
  }

  function SaveSeason(cfg: Config, disk: Disk, path: string, series: string, season: string, seen: string, w: Work): Step {
    if w.lastSeason == season then Step(true, w)
    else
      var s := Save(w, season, SeasonRow(cfg, disk, path, series, season, seen));
      if s.ok then Step(true, s.w.(lastSeason := season)) else s
  }

  function SaveFolders(cfg: Config, disk: Disk, path: string, place: Place, seen: string, w: Work): Step {
    match place
    case InRoot => Step(true, w)
    case InSeries(series) => SaveSeries(disk, series, seen, w)
    case InSeason(series, season) =>
      var s := SaveSeries(disk, series, seen, w);
      if s.ok then SaveSeason(cfg, disk, path, series, season, seen, s.w) else s
  }

  /** Read the file again and write its rows. */
  function Refresh(cfg: Config, disk: Disk, path: string, seen: string, w: Work): Step
    requires Candidate(cfg, path) && path in disk
  {
    var s := SaveFolders(cfg, disk, path, PlaceOf(cfg, disk, path), seen, w);
    if !s.ok then s
    else if !disk[path].text.Lines? then Step(false, s.w)
    else Save(s.w, path, LeafRow(cfg, disk, path, seen))
  }

  function Visit(cfg: Config, reuse: bool, prev: Snapshot, current: Snapshot, v: Sighting, seen: string, w: Work): Step
    requires Candidate(cfg, v.path)
  {
    if v.path !in v.disk then Step(false, w)
    else if reuse && SkipTest(prev, current, v.path) then
      if w.healthy == 0 then Step(false, w)
      else if v.path in w.db.items then Step(true, w.(healthy := w.healthy - 1))
      else Refresh(cfg, v.disk, v.path, seen, w.(healthy := w.healthy - 1))
    else Refresh(cfg, v.disk, v.path, seen, w)
  }

  predicate Candidates(cfg: Config, visits: seq<Sighting>) {
    forall i :: 0 <= i < |visits| ==> Candidate(cfg, visits[i].path)
  }

  function VisitAll(cfg: Config, reuse: bool, prev: Snapshot, current: Snapshot, visits: seq<Sighting>, seen: string, w: Work): Step
    requires Candidates(cfg, visits)
  {
    if visits == [] then Step(true, w)
    else
      var s := Visit(cfg, reuse, prev, current, visits[0], seen, w);
      if s.ok then VisitAll(cfg, reuse, prev, current, visits[1..], seen, s.w) else s
  }

  // ---- the whole scan

  function Inventory(walked: seq<(string, Stamp)>): Snapshot {
    if walked == [] then map[] else Inventory(walked[..|walked| - 1])[walked[|walked| - 1].0 := walked[|walked| - 1].1]
  }

  function CommitSnapshot(w: Work, current: Snapshot, allowEmpty: bool, scopes: seq<string>): Step {
    if w.healthy == 0 || !CommitAllowed(w.db.items, current, allowEmpty) then Step(false, w)
    else Step(true, w.(db := Committed(w.db, current, scopes), healthy := w.healthy - 1))
  }

  function Opened(w: Work): Work { w.(tx := None, batch := 0, lastSeries := "", lastSeason := "") }

  function Finish(w: Work, current: Snapshot, allowEmpty: bool, scopes: seq<string>): Step {
    var f := Flush(w);
    if !f.ok then f
    else if f.w.healthy == 0 then Step(false, f.w)
    else CommitSnapshot(f.w.(healthy := f.w.healthy - 1), current, allowEmpty, scopes)
  }

  function Scan(cfg: Config, job: Job, w: Work): Step
    requires Candidates(cfg, job.visits)
  {
    var o := Opened(w);
    if o.healthy == 0 || !job.rootsOk then Step(false, o)
    else
      var prev := w.db.snap;
      var current := Current(prev, Inventory(job.walked), job.scopes);
      var s := VisitAll(cfg, job.Reuse(), prev, current, job.visits, job.seen, o.(healthy := o.healthy - 1));
      if !s.ok then Step(false, s.w.(tx := None)) else Finish(s.w, current, job.allowEmpty, job.scopes)
  }

  /** The scanner's mutable state: three tables, the open transaction and the walk's cursors. */
  class LibraryIndex {
    var items: Items
    var names: map<string, string>
    var snapshot: Snapshot
    var tx: Option<Items>
    var batch: nat
    var lastSeries: string
    var lastSeason: string
    var healthy: nat

    function W(): Work
      reads this
    {
      Work(Tables(items, names, snapshot), tx, batch, lastSeries, lastSeason, healthy)
    }

    constructor (items: Items, names: map<string, string>, snapshot: Snapshot, healthy: nat)
      ensures W() == Work(Tables(items, names, snapshot), None, 0, "", "", healthy)
    {
      this.items, this.names, this.snapshot, this.healthy := items, names, snapshot, healthy;
      tx, batch, lastSeries, lastSeason := None, 0, "", "";
    }

    /** One database call: it fails when the budget is spent. */
    method Call() returns (ok: bool)
      modifies this`healthy
      ensures ok == (old(healthy) > 0)
      ensures healthy == if ok then old(healthy) - 1 else old(healthy)
    {
      ok := healthy > 0;
      if ok { healthy := healthy - 1; }
    }

    method FlushTx() returns (ok: bool)
      modifies this
      ensures Step(ok, W()) == Flush(old(W()))
    {
      if tx.None? { return true; }
      ok := Call();
      if ok { items := tx.value; }
      tx := None;
      batch := 0;
    }

    method SaveRow(p: string, x: Row) returns (ok: bool)
      modifies this
      ensures Step(ok, W()) == Save(old(W()), p, x)
    {
      if tx.None? {
        ok := Call();
        if !ok { return; }
        tx := Some(items);
      }
      ok := Call();
      if !ok { return; }
      tx := Some(tx.value[p := if p in tx.value then Named(names, p, x) else x]);
      batch := batch + 1;
      if batch >= BATCH { ok := FlushTx(); }
    }

    method SaveFolderRows(cfg: Config, disk: Disk, path: string, place: Place, seen: string) returns (ok: bool)
      modifies this
      ensures Step(ok, W()) == SaveFolders(cfg, disk, path, place, seen, old(W()))
    {
      hide SeriesRow, SeasonRow, Save;
      if place.InRoot? { return true; }
      if lastSeries != place.series {
        ok := SaveRow(place.series, SeriesRow(disk, place.series, seen));
        if !ok { return; }
        lastSeries := place.series;
      }
      if place.InSeason? && lastSeason != place.season {
        ok := SaveRow(place.season, SeasonRow(cfg, disk, path, place.series, place.season, seen));
        if !ok { return; }
        lastSeason := place.season;
      }
      ok := true;
    }

    method RefreshFile(cfg: Config, disk: Disk, path: string, seen: string) returns (ok: bool)
      requires Candidate(cfg, path) && path in disk
      modifies this
      ensures Step(ok, W()) == Refresh(cfg, disk, path, seen, old(W()))
    {
      ok := SaveFolderRows(cfg, disk, path, PlaceOf(cfg, disk, path), seen);
      if !ok { return; }
      if !disk[path].text.Lines? { return false; }
      ok := SaveRow(path, LeafRow(cfg, disk, path, seen));
    }

    method VisitFile(cfg: Config, reuse: bool, prev: Snapshot, current: Snapshot, dirty: set<string>, v: Sighting, seen: string)
      returns (ok: bool)
      requires Candidate(cfg, v.path) && dirty == ChangedDirs(prev, current)
      modifies this
      ensures Step(ok, W()) == Visit(cfg, reuse, prev, current, v, seen, old(W()))
    {
      hide Refresh, Visible, IsStrm, AnyAbove, ChangedDirs;
      if v.path !in v.disk { return false; }
      if reuse && Get(prev, v.path) == Get(current, v.path) {
        var changed := DependencyChangedLoop(v.path, dirty);
        if !changed {
          ok := Call();
          if !ok || v.path in items { return; }
        }
      }
      ok := RefreshFile(cfg, v.disk, v.path, seen);
    }

    method VisitFiles(cfg: Config, reuse: bool, prev: Snapshot, current: Snapshot, visits: seq<Sighting>, seen: string)
      returns (ok: bool)
      requires Candidates(cfg, visits)
      modifies this
      ensures Step(ok, W()) == VisitAll(cfg, reuse, prev, current, visits, seen, old(W()))
    {
      var dirty := ChangedSidecars(prev, current);
      ghost var all := VisitAll(cfg, reuse, prev, current, visits, seen, W());
      assert visits[0..] == visits;
      for i := 0 to |visits|
        invariant all == VisitAll(cfg, reuse, prev, current, visits[i..], seen, W())
      {
        ghost var rest := visits[i..];
        assert rest[0] == visits[i] && rest[1..] == visits[i + 1..];
        ok := VisitFile(cfg, reuse, prev, current, dirty, visits[i], seen);
        if !ok { return; }
      }
      ok := true;
    }

    method Commit(current: Snapshot, allowEmpty: bool, scopes: seq<string>) returns (ok: bool)
      modifies this
      ensures Step(ok, W()) == CommitSnapshot(old(W()), current, allowEmpty, scopes)
    {
      ghost var before := W();
      var present: set<string>, count := {}, 0;
      var todo := current.Keys;
      while todo != {}
        invariant todo <= current.Keys
        invariant present == set p | p in current && p !in todo && IsStrm(p)
        invariant (count == 0) == (present == {})
        decreases todo
      {
        var p :| p in todo;
        if IsStrm(p) {
          present := present + {p};
          count := count + 1;
        }
        todo := todo - {p};
      }
      assert present == Present(current);
      if healthy == 0 || (count == 0 && !allowEmpty && items != map[]) { return false; }
      healthy := healthy - 1;
      items := DropMissing(items, present, scopes);
      items := DropChildless(items, Season);
      items := DropChildless(items, Series);
      names := map p | p in names && p in items :: names[p];
      snapshot := current;
      return true;
    }

    method FinishScan(current: Snapshot, allowEmpty: bool, scopes: seq<string>) returns (ok: bool)
      modifies this
      ensures Step(ok, W()) == Finish(old(W()), current, allowEmpty, scopes)
    {
      ok := FlushTx();
      if !ok { return; }
      ok := Call();
      if !ok { return; }
      ok := Commit(current, allowEmpty, scopes);
    }

    method ScanLibrary(cfg: Config, job: Job) returns (ok: bool)
      requires Candidates(cfg, job.visits)
      modifies this
      ensures Step(ok, W()) == Scan(cfg, job, old(W()))
    {
      hide VisitAll, Finish, Inventory, Current;
      tx, batch, lastSeries, lastSeason := None, 0, "", "";
      if !job.rootsOk { return false; }
      ok := Call();
      if !ok { return; }
      var prev := snapshot;
      var walked := TakeInventory(job.walked);
      var current := Current(prev, walked, job.scopes);
      ok := VisitFiles(cfg, job.Reuse(), prev, current, job.visits, job.seen);
      if !ok {
        tx := None;
        return;
      }
      ok := FinishScan(current, job.allowEmpty, job.scopes);
    }
  }

  /** The first walk: stamp every file it meets. */
  method TakeInventory(walked: seq<(string, Stamp)>) returns (current: Snapshot)
    ensures current == Inventory(walked)
  {
    current := map[];
    for i := 0 to |walked|
      invariant current == Inventory(walked[..i])
    {
      current := current[walked[i].0 := walked[i].1];
      assert walked[..i + 1][..i] == walked[..i];
    }
    assert walked[..|walked|] == walked;
  }
}
