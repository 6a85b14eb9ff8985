/** Any history of scans, failures, renames, deletions and disk edits, and what every reachable state keeps. */
module ScanHistory {
  import opened Basics
  import opened Paths
  import opened Leaves
  import opened Snapshots
  import opened Scanner
  import opened ScanSteps
  import opened ScanExact
  import opened ScanTheorems

  /** A stamp identifies the content of a file, on every disk there ever is. */
  type Files = (string, Stamp) -> File

  ghost predicate Possible(files: Files, disk: Disk) {
    Proper(disk) && forall q :: q in disk ==> disk[q] == files(q, disk[q].stamp)
  }

  /** A scan between its first walk and its end. read holds the files whose rows it wrote itself, stale those
      of them that an edit has since taken back to the state of the first walk. */
  datatype Pass = Pass(reuse: bool, allowEmpty: bool, scopes: seq<string>, current: Snapshot, visited: set<string>,
                       read: set<string>, stale: set<string>, seen: string)

  /** dirty holds the rows written by a scan that no commit has confirmed since. lost holds the rows that may be
      wrong although the record describes their files: nothing else ever keeps an incremental scan from being exact. */
  datatype World = World(disk: Disk, w: Work, pass: Option<Pass>, dirty: set<string>, lost: set<string>)

  datatype Event =
    | Edit(disk: Disk)
    | Rename(path: string, name: string)
    | Remove(paths: set<string>)
    | Budget(healthy: nat)
    | Start(incremental: bool, allowEmpty: bool, scopes: seq<string>, walked: Snapshot, seen: string)
    | VisitOne(path: string)
    | FinishPass
    | Abort

  /** Going from disk a to disk b takes some input of the file p back to the state the snapshot records. */
  ghost predicate Reverts(cfg: Config, snap: Snapshot, a: Disk, b: Disk, p: string) {
    p in b && exists q :: Input(cfg, p, q) && At(a, q) != At(b, q) && StampOf(b, q) == Recorded(snap, q)
  }

  /** The rows among some whose files an edit takes back to the record. */
  ghost function Reverted(cfg: Config, snap: Snapshot, a: Disk, b: Disk, rows: set<string>): set<string> {
    set p | p in rows && Candidate(cfg, p) && Reverts(cfg, snap, a, b, p)
  }

  /** Scopes are directories or .strm files: none is a sidecar file on record, whatever its name. */
  predicate ScopesOk(scopes: seq<string>, prev: Snapshot, current: Snapshot) {
    forall i :: 0 <= i < |scopes| ==>
      |scopes[i]| > 0 && (SidecarFile(scopes[i]) ==> scopes[i] !in prev && scopes[i] !in current)
  }

  ghost predicate Legal(cfg: Config, files: Files, s: World, e: Event) {
    match e
    case Edit(disk) => Possible(files, disk)
    case Rename(path, _) => path in s.w.db.items && Find(s.w.View(), path) == Find(s.w.db.items, path)
    case Remove(paths) => forall p :: p in paths ==> Find(s.w.View(), p) == Find(s.w.db.items, p)
    case Budget(_) => true
    case Start(_, _, scopes, walked, _) =>
      s.pass.None? && ScopesOk(scopes, s.w.db.snap, walked) && AllAbsolute(walked) && forall q :: q in walked ==> InScope(q, scopes)
    case VisitOne(path) => s.pass.Some? && Candidate(cfg, path) && InScope(path, s.pass.value.scopes)
    case FinishPass => s.pass.Some?
    case Abort => true
  }

  /** Paths where a table of after holds a row that no table of before held. */
  function Written(before: Work, after: Work): set<string> {
    set q | q in after.View().Keys + after.db.items.Keys
            && ((Find(after.View(), q) != Find(before.View(), q) && Find(after.View(), q) != Find(before.db.items, q))
                || (Find(after.db.items, q) != Find(before.View(), q) && Find(after.db.items, q) != Find(before.db.items, q)))
  }

  /** Rows the commit does not confirm: neither as recorded now, nor left clean by the comparison. */
  ghost function Unconfirmed(cfg: Config, s: World, p: Pass, items: Items): set<string> {
    set q | q in items && Candidate(cfg, q) && !Settled(cfg, p.current, s.disk, q)
            && (q in s.dirty || q in s.lost || (InScope(q, p.scopes) && !SkipTest(s.w.db.snap, p.current, q)))
  }

  /** Rows the commit leaves possibly wrong: as recorded now, and either lost before and not read again, or read
      before an edit took the file back to the record, or rows of files that the second walk missed. */
  ghost function Lost(cfg: Config, s: World, p: Pass, items: Items): set<string> {
    set q | q in items && Candidate(cfg, q) && Settled(cfg, p.current, s.disk, q)
            && (|| (q in s.lost && q !in p.read)
                || q in p.stale
                || (q !in p.visited && InScope(q, p.scopes) && !SkipTest(s.w.db.snap, p.current, q)))
  }

  ghost function Edited(cfg: Config, s: World, disk: Disk): World {
    s.(disk := disk,
       lost := s.lost + Reverted(cfg, s.w.db.snap, s.disk, disk, s.dirty),
       pass := if s.pass.None? then None
               else var p := s.pass.value; Some(p.(stale := p.stale + Reverted(cfg, p.current, s.disk, disk, p.read))))
  }

  function Given(items: Items, path: string, name: string): Items
    requires path in items
  {
    items[path := items[path].(name := name)]
  }

  /** A rename waits for a transaction that has written its row, and shows in one that has not. */
  function Renamed(w: Work, path: string, name: string): Work
    requires path in w.db.items && Find(w.View(), path) == Find(w.db.items, path)
  {
    w.(db := w.db.(items := Given(w.db.items, path, name), names := w.db.names[path := name]),
       tx := if w.tx.None? then None else Some(Given(w.tx.value, path, name)))
  }

  /** A deletion waits for a transaction that has written one of its rows, too. A deleted row is no longer lost. */
  function Removed(w: Work, paths: set<string>): Work {
    w.(db := w.db.(items := w.db.items - paths, names := w.db.names - paths),
       tx := if w.tx.None? then None else Some(w.tx.value - paths))
  }

  ghost function Next(cfg: Config, s: World, e: Event): World
    requires e.Rename? ==> e.path in s.w.db.items && Find(s.w.View(), e.path) == Find(s.w.db.items, e.path)
    requires e.VisitOne? ==> s.pass.Some? && Candidate(cfg, e.path)
    requires e.FinishPass? ==> s.pass.Some?
  {
    match e
    case Edit(disk) => Edited(cfg, s, disk)
    case Rename(path, name) => s.(w := Renamed(s.w, path, name))
    case Remove(paths) => s.(w := Removed(s.w, paths), lost := s.lost - paths)
    case Budget(n) => s.(w := s.w.(healthy := n))
    case Start(incremental, allowEmpty, scopes, walked, seen) =>
      s.(w := Opened(s.w),
         pass := Some(Pass(incremental || scopes != [], allowEmpty, scopes, Current(s.w.db.snap, walked, scopes), {}, {}, {}, seen)))
    case VisitOne(path) => NextVisit(cfg, s, path, s.pass.value)
    case FinishPass => NextFinish(cfg, s, s.pass.value)
    case Abort => s.(w := s.w.(tx := None), pass := None)
  }

  /** What one visit adds to the pass. */
  ghost function Passed(p: Pass, path: string, skipped: bool): Pass {
    if skipped then p.(visited := p.visited + {path})
    else p.(visited := p.visited + {path}, read := p.read + {path}, stale := p.stale - {path})
  }

  ghost function NextVisit(cfg: Config, s: World, path: string, p: Pass): World
    requires Candidate(cfg, path)
  {
    var v := Visit(cfg, p.reuse, s.w.db.snap, p.current, Sighting(path, s.disk), p.seen, s.w);
    var dirty := s.dirty + Written(s.w, v.w);
    var skipped := p.reuse && SkipTest(s.w.db.snap, p.current, path) && path in s.w.db.items;
    if v.ok then
      s.(w := v.w, dirty := dirty,
         pass := Some(Passed(p, path, skipped)))
    else s.(w := v.w.(tx := None), dirty := dirty, pass := None)
  }

  ghost function NextFinish(cfg: Config, s: World, p: Pass): World {
    var f := Finish(s.w, p.current, p.allowEmpty, p.scopes);
    s.(w := f.w.(tx := None), pass := None,
       dirty := if f.ok then Unconfirmed(cfg, s, p, f.w.db.items) else s.dirty,
       lost := if f.ok then Lost(cfg, s, p, f.w.db.items) else s.lost)
  }

  // ---- the invariant

  /** The row at p is right on every possible disk that the snapshot describes at p. */
  ghost predicate Firm(cfg: Config, files: Files, db: Tables, p: string) {
    forall d: Disk :: Possible(files, d) ==> TrustAt(cfg, db.names, db.snap, d, db.items, p)
  }

  ghost predicate PassOk(cfg: Config, s: World, p: Pass) {
    && AllAbsolute(p.current) && ScopesOk(p.scopes, s.w.db.snap, p.current)
    && (forall q :: !InScope(q, p.scopes) ==> Recorded(p.current, q) == Recorded(s.w.db.snap, q))
    && (forall q :: q in p.read && q !in p.stale ==> TrustAt(cfg, s.w.db.names, p.current, s.disk, s.w.View(), q))
    && (forall q :: q in p.visited && q !in p.read ==> Candidate(cfg, q) && SkipTest(s.w.db.snap, p.current, q))
  }

  predicate AllStrm(rows: set<string>) { forall p :: p in rows ==> IsStrm(p) }

  /** Leaving some rows out of the record leaves exactly their trust open. */
  lemma {:induction false} TrustExcept(cfg: Config, names: map<string, string>, snap: Snapshot, lost: set<string>, disk: Disk, items: Items, p: string)
    requires AllStrm(lost)
    ensures TrustAt(cfg, names, snap - lost, disk, items, p) <==>
              p in lost || TrustAt(cfg, names, snap, disk, items, p)
  {
    hide Visible, Right;
    assert Input(cfg, p, p);
    if p !in lost {
      forall q | Input(cfg, p, q)
        ensures Recorded(snap - lost, q) == Recorded(snap, q)
      {
      }
    }
  }

  ghost predicate Inv(cfg: Config, files: Files, s: World) {
    && ValidConfig(cfg) && Possible(files, s.disk) && AllAbsolute(s.w.db.snap)
    && Sound(cfg, s.w.db.snap - s.lost, s.disk, s.w) && AllStrm(s.lost)
    && (forall p :: p !in s.dirty + s.lost ==> Firm(cfg, files, s.w.db, p) && Firm(cfg, files, s.w.db.(items := s.w.View()), p))
    && (s.pass.None? ==> s.w.tx.None?)
    && (s.pass.Some? ==> PassOk(cfg, s, s.pass.value))
  }

  /** Before anything has happened. */
  ghost function Empty(disk: Disk, healthy: nat): World {
    World(disk, Work(Tables(map[], map[], map[]), None, 0, "", "", healthy), None, {}, {})
  }

  lemma {:induction false} InitInv(cfg: Config, files: Files, disk: Disk, healthy: nat)
    requires ValidConfig(cfg) && Possible(files, disk)
    ensures Inv(cfg, files, Empty(disk, healthy))
  {
    hide Visible, IsStrm, Right, Settled, Possible;
  }

  // ---- edits

  lemma {:induction false} EditTrustAt(cfg: Config, names: map<string, string>, snap: Snapshot, a: Disk, b: Disk, items: Items, p: string)
    requires ValidConfig(cfg) && TrustAt(cfg, names, snap, a, items, p) && !Reverts(cfg, snap, a, b, p)
    ensures TrustAt(cfg, names, snap, b, items, p)
  {
    hide Visible, IsStrm, Right, Input;
    if p in items && Candidate(cfg, p) && Settled(cfg, snap, b, p) {
      assert SameInputs(cfg, a, b, p);
      RightOfSameInputs(cfg, names, a, b, items, p) by { assert p in b; }
    }
  }

  lemma {:induction false} EditSound(cfg: Config, files: Files, s: World, disk: Disk)
    requires Inv(cfg, files, s) && Possible(files, disk)
    ensures var t := Edited(cfg, s, disk); Sound(cfg, t.w.db.snap - t.lost, disk, t.w) && AllStrm(t.lost)
  {
    hide Reverts, TrustAt, NamesKept, Possible, ValidConfig, Visible, IsStrm;
    var t := Edited(cfg, s, disk);
    assert AllStrm(t.lost);
    forall p
      ensures TrustAt(cfg, s.w.db.names, s.w.db.snap - t.lost, disk, s.w.db.items, p)
      ensures TrustAt(cfg, s.w.db.names, s.w.db.snap - t.lost, disk, s.w.View(), p)
    {
      EditedTrustAt(cfg, files, s, disk, s.w.db.items, p);
      EditedTrustAt(cfg, files, s, disk, s.w.View(), p);
    }
  }

  lemma {:induction false} EditedTrustAt(cfg: Config, files: Files, s: World, disk: Disk, items: Items, p: string)
    requires ValidConfig(cfg) && Possible(files, disk) && AllStrm(s.lost) && (items == s.w.db.items || items == s.w.View())
    requires TrustAt(cfg, s.w.db.names, s.w.db.snap - s.lost, s.disk, items, p)
    requires p !in s.dirty + s.lost ==> Firm(cfg, files, s.w.db.(items := items), p)
    ensures TrustAt(cfg, s.w.db.names, s.w.db.snap - Edited(cfg, s, disk).lost, disk, items, p)
  {
    hide Reverts, TrustAt, Possible, ValidConfig, Visible, IsStrm;
    var lost := Edited(cfg, s, disk).lost;
    TrustExcept(cfg, s.w.db.names, s.w.db.snap, s.lost, s.disk, items, p);
    TrustExcept(cfg, s.w.db.names, s.w.db.snap, lost, disk, items, p);
    if p !in lost && p in s.dirty {
      if Candidate(cfg, p) {
        EditTrustAt(cfg, s.w.db.names, s.w.db.snap, s.disk, disk, items, p);
      } else {
        NotCandidate(cfg, s.w.db.names, s.w.db.snap, disk, items, p);
      }
    }
  }

  lemma {:induction false} NotCandidate(cfg: Config, names: map<string, string>, snap: Snapshot, disk: Disk, items: Items, p: string)
    requires !Candidate(cfg, p)
    ensures TrustAt(cfg, names, snap, disk, items, p)
  {
    hide Visible, IsStrm;
  }

  /** Any edit at any moment is allowed; the rows whose files it takes back to the record are given up. */
  lemma {:induction false} EditKeeps(cfg: Config, files: Files, s: World, disk: Disk)
    requires Inv(cfg, files, s) && Possible(files, disk)
    ensures Inv(cfg, files, Edited(cfg, s, disk))
  {
    EditSound(cfg, files, s, disk);
    hide Reverts, TrustAt, Possible, Firm, Sound, SkipTest, Visible, IsStrm, InScope, ScopesOk, AllAbsolute, ValidConfig, Reverted, Candidate;
    if s.pass.Some? {
      var p, t := s.pass.value, Edited(cfg, s, disk).pass.value;
      forall q | q in t.read && q !in t.stale
        ensures TrustAt(cfg, s.w.db.names, p.current, disk, s.w.View(), q)
      {
        EditedRead(cfg, s, p, disk, q);
      }
    }
  }

  lemma {:induction false} EditedRead(cfg: Config, s: World, p: Pass, disk: Disk, q: string)
    requires ValidConfig(cfg) && q in p.read && q !in Reverted(cfg, p.current, s.disk, disk, p.read)
    requires TrustAt(cfg, s.w.db.names, p.current, s.disk, s.w.View(), q)
    ensures TrustAt(cfg, s.w.db.names, p.current, disk, s.w.View(), q)
  {
    hide Reverts, TrustAt, Candidate, ValidConfig;
    if Candidate(cfg, q) {
      EditTrustAt(cfg, s.w.db.names, p.current, s.disk, disk, s.w.View(), q);
    } else {
      NotCandidate(cfg, s.w.db.names, p.current, disk, s.w.View(), q);
    }
  }

  // ---- renames and deletions

  lemma {:induction false} RenameTrustAt(cfg: Config, names: map<string, string>, snap: Snapshot, d: Disk, items: Items,
                                         path: string, name: string, p: string)
    requires path in items && TrustAt(cfg, names, snap, d, items, p)
    ensures TrustAt(cfg, names[path := name], snap, d, Given(items, path, name), p)
  {
    hide Visible, IsStrm, LeafRow, Settled;
  }

  lemma {:induction false} RemoveTrustAt(cfg: Config, names: map<string, string>, snap: Snapshot, d: Disk, items: Items,
                                         paths: set<string>, p: string)
    requires p in paths || TrustAt(cfg, names, snap, d, items, p)
    ensures TrustAt(cfg, names - paths, snap, d, items - paths, p)
  {
    hide Visible, IsStrm, LeafRow, Settled;
  }

  lemma {:induction false} RenameKeeps(cfg: Config, files: Files, s: World, path: string, name: string)
    requires Inv(cfg, files, s) && Legal(cfg, files, s, Rename(path, name))
    ensures Inv(cfg, files, Next(cfg, s, Rename(path, name)))
  {
    hide TrustAt, Possible, SkipTest, Visible, IsStrm, InScope, AllAbsolute, ScopesOk, ValidConfig;
    var t := Next(cfg, s, Rename(path, name));
    assert t.w.View() == Given(s.w.View(), path, name);
    forall items: Items, p, d: Disk, snap: Snapshot | path in items && TrustAt(cfg, s.w.db.names, snap, d, items, p)
      ensures TrustAt(cfg, t.w.db.names, snap, d, Given(items, path, name), p)
    {
      RenameTrustAt(cfg, s.w.db.names, snap, d, items, path, name, p);
    }
    assert NamesKept(t.w.db) && NamesKept(t.w.db.(items := t.w.View()));
  }

  lemma {:induction false} RemoveKeeps(cfg: Config, files: Files, s: World, paths: set<string>)
    requires Inv(cfg, files, s) && Legal(cfg, files, s, Remove(paths))
    ensures Inv(cfg, files, Next(cfg, s, Remove(paths)))
  {
    hide TrustAt, Possible, SkipTest, Visible, IsStrm, InScope, AllAbsolute, ScopesOk, ValidConfig;
    var t := Next(cfg, s, Remove(paths));
    assert t.w.View() == s.w.View() - paths;
    forall p
      ensures p !in t.dirty + t.lost ==> Firm(cfg, files, t.w.db, p) && Firm(cfg, files, t.w.db.(items := t.w.View()), p)
    {
      if p !in t.dirty + t.lost {
        RemovedFirm(cfg, files, s.w.db, paths, p);
        RemovedFirm(cfg, files, s.w.db.(items := s.w.View()), paths, p);
      }
    }
    forall items: Items, p | TrustAt(cfg, s.w.db.names, s.w.db.snap - s.lost, s.disk, items, p)
      ensures TrustAt(cfg, t.w.db.names, s.w.db.snap - t.lost, s.disk, items - paths, p)
    {
      TrustExcept(cfg, t.w.db.names, s.w.db.snap, t.lost, s.disk, items - paths, p);
      TrustExcept(cfg, s.w.db.names, s.w.db.snap, s.lost, s.disk, items, p);
      if p in paths || TrustAt(cfg, s.w.db.names, s.w.db.snap, s.disk, items, p) {
        RemoveTrustAt(cfg, s.w.db.names, s.w.db.snap, s.disk, items, paths, p);
      }
    }
    if s.pass.Some? {
      forall q | q in s.pass.value.read && q !in s.pass.value.stale
        ensures TrustAt(cfg, t.w.db.names, s.pass.value.current, s.disk, t.w.View(), q)
      {
        RemoveTrustAt(cfg, s.w.db.names, s.pass.value.current, s.disk, s.w.View(), paths, q);
      }
    }
    hide Firm;
    assert NamesKept(t.w.db) && NamesKept(t.w.db.(items := t.w.View()));
  }

  lemma {:induction false} RemovedFirm(cfg: Config, files: Files, db: Tables, paths: set<string>, p: string)
    requires p in paths || Firm(cfg, files, db, p)
    ensures Firm(cfg, files, db.(items := db.items - paths, names := db.names - paths), p)
  {
    hide TrustAt, Possible;
    forall d: Disk | Possible(files, d)
      ensures TrustAt(cfg, db.names - paths, db.snap, d, db.items - paths, p)
    {
      RemoveTrustAt(cfg, db.names, db.snap, d, db.items, paths, p);
    }
  }

  // ---- the start of a scan

  lemma {:induction false} StartKeeps(cfg: Config, files: Files, s: World, e: Event)
    requires e.Start? && Inv(cfg, files, s) && Legal(cfg, files, s, e)
    ensures Inv(cfg, files, Next(cfg, s, e))
  {
    StartScopes(e.scopes, s.w.db.snap, e.walked);
    StartSnapshot(e.scopes, s.w.db.snap, e.walked);
    RollbackSound(cfg, s.w.db.snap - s.lost, s.disk, s.w);
    hide Firm, Trust, NamesKept, TrustAt, Possible, SkipTest, Visible, IsStrm, ScopesOk, ValidConfig, InScope, Current, AllAbsolute;
  }

  lemma {:induction false} StartSnapshot(scopes: seq<string>, prev: Snapshot, walked: Snapshot)
    requires AllAbsolute(prev) && AllAbsolute(walked) && forall q :: q in walked ==> InScope(q, scopes)
    ensures AllAbsolute(Current(prev, walked, scopes))
    ensures forall q :: !InScope(q, scopes) ==> Recorded(Current(prev, walked, scopes), q) == Recorded(prev, q)
  {
    hide WithinScopes, Absolute;
  }

  lemma {:induction false} StartScopes(scopes: seq<string>, prev: Snapshot, walked: Snapshot)
    requires ScopesOk(scopes, prev, walked)
    ensures ScopesOk(scopes, prev, Current(prev, walked, scopes))
  {
    hide SidecarFile, WithinScopes;
  }

  // ---- one file

  lemma {:induction false} TrustAtFind(cfg: Config, names: map<string, string>, snap: Snapshot, d: Disk, a: Items, b: Items, p: string)
    requires TrustAt(cfg, names, snap, d, a, p) && Find(a, p) == Find(b, p)
    ensures TrustAt(cfg, names, snap, d, b, p)
  {
    hide Visible, IsStrm, LeafRow, Settled;
  }

  lemma {:induction false} FirmFind(cfg: Config, files: Files, a: Tables, b: Tables, p: string)
    requires Firm(cfg, files, a, p) && a.names == b.names && a.snap == b.snap && Find(a.items, p) == Find(b.items, p)
    ensures Firm(cfg, files, b, p)
  {
    hide TrustAt, Possible;
    forall d: Disk | Possible(files, d)
      ensures TrustAt(cfg, b.names, b.snap, d, b.items, p)
    {
      TrustAtFind(cfg, a.names, a.snap, d, a.items, b.items, p);
    }
  }

  lemma {:induction false} UnwrittenFirm(cfg: Config, files: Files, before: Work, after: Work, p: string)
    requires after.db.names == before.db.names && after.db.snap == before.db.snap
    requires p !in Written(before, after)
    requires Firm(cfg, files, before.db, p) && Firm(cfg, files, before.db.(items := before.View()), p)
    ensures Firm(cfg, files, after.db, p) && Firm(cfg, files, after.db.(items := after.View()), p)
  {
    hide Firm;
    if Find(after.View(), p) == Find(before.db.items, p) {
      FirmFind(cfg, files, before.db, after.db.(items := after.View()), p);
    } else if Find(after.View(), p) == Find(before.View(), p) {
      FirmFind(cfg, files, before.db.(items := before.View()), after.db.(items := after.View()), p);
    } else {
      Missing(cfg, files, after.db.(items := after.View()), p);
    }
    if Find(after.db.items, p) == Find(before.db.items, p) {
      FirmFind(cfg, files, before.db, after.db, p);
    } else if Find(after.db.items, p) == Find(before.View(), p) {
      FirmFind(cfg, files, before.db.(items := before.View()), after.db, p);
    } else {
      Missing(cfg, files, after.db, p);
    }
  }

  lemma {:induction false} Missing(cfg: Config, files: Files, db: Tables, p: string)
    requires p !in db.items
    ensures Firm(cfg, files, db, p)
  {
    hide Visible, IsStrm, LeafRow, Settled, Possible;
  }

  lemma {:induction false} WrittenFirm(cfg: Config, files: Files, s: World, after: Work)
    requires after.db.names == s.w.db.names && after.db.snap == s.w.db.snap
    requires forall p :: p !in s.dirty + s.lost ==> Firm(cfg, files, s.w.db, p) && Firm(cfg, files, s.w.db.(items := s.w.View()), p)
    ensures forall p :: p !in s.dirty + Written(s.w, after) + s.lost ==> Firm(cfg, files, after.db, p) && Firm(cfg, files, after.db.(items := after.View()), p)
  {
    hide Firm, Written;
    forall q | q !in s.dirty + Written(s.w, after) + s.lost
      ensures Firm(cfg, files, after.db, q) && Firm(cfg, files, after.db.(items := after.View()), q)
    {
      UnwrittenFirm(cfg, files, s.w, after, q);
    }
  }

  lemma {:induction false} VisitedPassOk(cfg: Config, s: World, p: Pass, after: Work, path: string, skipped: bool)
    requires PassOk(cfg, s, p) && after.db.names == s.w.db.names && after.db.snap == s.w.db.snap && Candidate(cfg, path)
    requires Visited(cfg, s.disk, p.reuse && SkipTest(s.w.db.snap, p.current, path), s.w, after, path)
    requires forall q :: q in s.disk && q != path ==> Quiet(s.w, after, q)
    requires skipped == (p.reuse && SkipTest(s.w.db.snap, p.current, path) && path in s.w.db.items)
    ensures PassOk(cfg, s.(w := after), Passed(p, path, skipped))
  {
    hide Visible, IsStrm, SkipTest, TrustAt, ScopesOk, InScope, AllAbsolute, Visited, Quiet;
    var t := Passed(p, path, skipped);
    forall q | q in t.read && q !in t.stale
      ensures TrustAt(cfg, after.db.names, p.current, s.disk, after.View(), q)
    {
      ReadStaysTrusted(cfg, s, p, after, path, q, skipped);
    }
  }

  /** What holds of a working state reached from s by one visit, whether it succeeded or not. */
  ghost predicate After(cfg: Config, files: Files, s: World, after: Work, dirty: set<string>) {
    && Sound(cfg, s.w.db.snap - s.lost, s.disk, after)
    && after.db.names == s.w.db.names && after.db.snap == s.w.db.snap
    && forall p :: p !in dirty ==> Firm(cfg, files, after.db, p) && Firm(cfg, files, after.db.(items := after.View()), p)
  }

  lemma {:induction false} VisitAfter(cfg: Config, files: Files, s: World, path: string)
    requires Inv(cfg, files, s) && s.pass.Some? && Candidate(cfg, path)
    ensures var p := s.pass.value;
            var v := Visit(cfg, p.reuse, s.w.db.snap, p.current, Sighting(path, s.disk), p.seen, s.w);
            After(cfg, files, s, v.w, s.dirty + Written(s.w, v.w) + s.lost)
  {
    var p := s.pass.value;
    var v := Visit(cfg, p.reuse, s.w.db.snap, p.current, Sighting(path, s.disk), p.seen, s.w);
    hide Visit, Visible, IsStrm, SkipTest, Firm, Written, Sound, PassOk, AllAbsolute, Visited, Quiet, ValidConfig, Proper, InScope;
    VisitEffect(cfg, s.w.db.snap - s.lost, s.disk, p.reuse, s.w.db.snap, p.current, path, p.seen, s.w);
    WrittenFirm(cfg, files, s, v.w);
  }

  lemma {:induction false} VisitPass(cfg: Config, files: Files, s: World, path: string, p: Pass)
    requires Inv(cfg, files, s) && s.pass == Some(p) && Candidate(cfg, path)
    requires Visit(cfg, p.reuse, s.w.db.snap, p.current, Sighting(path, s.disk), p.seen, s.w).ok
    ensures var skipped := p.reuse && SkipTest(s.w.db.snap, p.current, path) && path in s.w.db.items;
            PassOk(cfg, s.(w := Visit(cfg, p.reuse, s.w.db.snap, p.current, Sighting(path, s.disk), p.seen, s.w).w),
                   Passed(p, path, skipped))
  {
    hide Visit, Visible, IsStrm, SkipTest, Firm, Sound, PassOk, AllAbsolute, Visited, Quiet, ValidConfig, Proper, InScope;
    var v := Visit(cfg, p.reuse, s.w.db.snap, p.current, Sighting(path, s.disk), p.seen, s.w);
    VisitEffect(cfg, s.w.db.snap - s.lost, s.disk, p.reuse, s.w.db.snap, p.current, path, p.seen, s.w);
    var skipped := p.reuse && SkipTest(s.w.db.snap, p.current, path) && path in s.w.db.items;
    VisitedPassOk(cfg, s, p, v.w, path, skipped);
  }

  lemma {:induction false} VisitKeeps(cfg: Config, files: Files, s: World, path: string)
    requires Inv(cfg, files, s) && s.pass.Some? && Candidate(cfg, path)
    ensures Inv(cfg, files, NextVisit(cfg, s, path, s.pass.value))
  {
    hide Visit, Visible, IsStrm, SkipTest, Firm, Written, Sound, PassOk, AllAbsolute, ValidConfig, Possible, InScope;
    var p := s.pass.value;
    var v := Visit(cfg, p.reuse, s.w.db.snap, p.current, Sighting(path, s.disk), p.seen, s.w);
    VisitAfter(cfg, files, s, path);
    if v.ok {
      VisitPass(cfg, files, s, path, p);
      var t := NextVisit(cfg, s, path, p);
      PassOkWorld(cfg, s.(w := v.w), t, t.pass.value);
    } else {
      RollbackSound(cfg, s.w.db.snap - s.lost, s.disk, v.w);
    }
  }

  lemma {:induction false} PassOkWorld(cfg: Config, s: World, t: World, p: Pass)
    requires PassOk(cfg, s, p) && t.w == s.w && t.disk == s.disk
    ensures PassOk(cfg, t, p)
  {
    hide TrustAt, AllAbsolute, ScopesOk, InScope, SkipTest, Candidate;
  }

  lemma {:induction false} ReadStaysTrusted(cfg: Config, s: World, p: Pass, after: Work, path: string, q: string, skipped: bool)
    requires PassOk(cfg, s, p) && after.db.names == s.w.db.names && Candidate(cfg, path)
    requires Visited(cfg, s.disk, p.reuse && SkipTest(s.w.db.snap, p.current, path), s.w, after, path)
    requires forall q :: q in s.disk && q != path ==> Quiet(s.w, after, q)
    requires skipped == (p.reuse && SkipTest(s.w.db.snap, p.current, path) && path in s.w.db.items)
    requires q in Passed(p, path, skipped).read && q !in Passed(p, path, skipped).stale
    ensures TrustAt(cfg, after.db.names, p.current, s.disk, after.View(), q)
  {
    hide Visible, IsStrm, SkipTest, ScopesOk, InScope, AllAbsolute, LeafRow, Input;
    if q in s.disk {
      if q != path || (q in p.read && q !in p.stale && Find(after.View(), q) == Find(s.w.View(), q)) {
        TrustAtFind(cfg, after.db.names, p.current, s.disk, s.w.View(), after.View(), q);
      }
    }
  }

  lemma {:induction false} RollbackSound(cfg: Config, snap: Snapshot, disk: Disk, w: Work)
    requires Sound(cfg, snap, disk, w)
    ensures Sound(cfg, snap, disk, w.(tx := None))
  {
    hide Trust, NamesKept;
    assert w.db.(items := w.db.items) == w.db;
  }

  // ---- the end of a scan

  lemma {:induction false} OutOfScopeInput(cfg: Config, scopes: seq<string>, p: string, q: string)
    requires (forall i :: 0 <= i < |scopes| ==> |scopes[i]| > 0) && !InScope(p, scopes) && Input(cfg, p, q)
    ensures InScope(q, scopes) ==> q in scopes && SidecarFile(q)
  {
    if q != p {
      forall i | 0 <= i < |scopes| && Below(q, scopes[i])
        ensures false
      {
        DirIsNearest(q, scopes[i]);
        UnderTransitive(p, Dir(q), scopes[i]);
      }
    }
  }

  /** Where the comparison left a row clean, what the new snapshot describes the old one described too. */
  lemma {:induction false} StillDescribed(cfg: Config, prev: Snapshot, p: Pass, d: Disk, q: string)
    requires ValidConfig(cfg) && Proper(d) && Candidate(cfg, q) && AllAbsolute(prev) && AllAbsolute(p.current)
    requires ScopesOk(p.scopes, prev, p.current)
    requires forall x :: !InScope(x, p.scopes) ==> Recorded(p.current, x) == Recorded(prev, x)
    requires Settled(cfg, p.current, d, q)
    requires !InScope(q, p.scopes) || SkipTest(prev, p.current, q)
    ensures Settled(cfg, prev, d, q)
  {
    hide Visible, IsStrm, SkipTest, InScope, Input, SidecarFile;
    if InScope(q, p.scopes) {
      SkipSound(cfg, prev, p.current, d, q);
    } else {
      forall x | Input(cfg, q, x)
        ensures Recorded(prev, x) == StampOf(d, x)
      {
        OutOfScopeInput(cfg, p.scopes, q, x);
      }
    }
  }

  /** At the end of a scan, a file recorded as it stands has the right row, unless it is lost. */
  lemma {:induction false} SettledIsRight(cfg: Config, s: World, p: Pass, items: Items, q: string)
    requires ValidConfig(cfg) && Proper(s.disk) && AllAbsolute(s.w.db.snap)
    requires Sound(cfg, s.w.db.snap - s.lost, s.disk, s.w) && AllStrm(s.lost) && PassOk(cfg, s, p)
    requires Candidate(cfg, q) && q in items && q in s.w.View() && Settled(cfg, p.current, s.disk, q) && q !in Lost(cfg, s, p, items)
    ensures Right(cfg, s.w.db.names, s.disk, s.w.View(), q)
  {
    hide Visible, IsStrm, SkipTest, InScope, ScopesOk, Right, NamesKept, Settled;
    assert q in s.disk by { SettledPresent(cfg, p.current, s.disk, q); }
    if q in p.read {
      assert TrustAt(cfg, s.w.db.names, p.current, s.disk, s.w.View(), q);
    } else {
      StillDescribed(cfg, s.w.db.snap, p, s.disk, q);
      TrustExcept(cfg, s.w.db.names, s.w.db.snap, s.lost, s.disk, s.w.View(), q);
    }
  }

  lemma {:induction false} PossibleSame(cfg: Config, files: Files, snap: Snapshot, a: Disk, b: Disk, p: string)
    requires Possible(files, a) && Possible(files, b) && Settled(cfg, snap, a, p) && Settled(cfg, snap, b, p)
    ensures SameInputs(cfg, a, b, p)
  {
    hide Input, Proper;
    forall q | Input(cfg, p, q)
      ensures At(a, q) == At(b, q)
    {
      assert StampOf(a, q) == Recorded(snap, q) == StampOf(b, q);
    }
  }

  /** After a commit, rows outside the unconfirmed set are right on every disk the new snapshot describes. */
  lemma {:induction false} CommitFirm(cfg: Config, files: Files, s: World, p: Pass, items: Items, d: Disk, q: string)
    requires Inv(cfg, files, s) && s.pass == Some(p) && q in items && q !in Lost(cfg, s, p, items)
    requires Possible(files, d) && Candidate(cfg, q) && q in s.w.View() && Settled(cfg, p.current, d, q)
    requires Settled(cfg, p.current, s.disk, q) || (q !in s.dirty + s.lost && (!InScope(q, p.scopes) || SkipTest(s.w.db.snap, p.current, q)))
    ensures Right(cfg, s.w.db.names, d, s.w.View(), q)
  {
    hide Visible, IsStrm, SkipTest, InScope, ScopesOk, Right, NamesKept, Settled, Proper, Lost;
    if Settled(cfg, p.current, s.disk, q) {
      SettledIsRight(cfg, s, p, items, q);
      PossibleSame(cfg, files, p.current, s.disk, d, q);
      RightOfSameInputs(cfg, s.w.db.names, s.disk, d, s.w.View(), q) by { assert q in d by { SettledPresent(cfg, p.current, d, q); } }
    } else {
      StillDescribed(cfg, s.w.db.snap, p, d, q);
      assert Firm(cfg, files, s.w.db.(items := s.w.View()), q);
      assert TrustAt(cfg, s.w.db.names, s.w.db.snap, d, s.w.View(), q);
    }
  }

  lemma {:induction false} SettledPresent(cfg: Config, snap: Snapshot, d: Disk, q: string)
    requires Settled(cfg, snap, d, q)
    ensures q in d
  {
    hide Input;
  }

  lemma {:induction false} FinishCases(w: Work, current: Snapshot, allowEmpty: bool, scopes: seq<string>)
    ensures var r := Finish(w, current, allowEmpty, scopes);
            && r.w.tx.None?
            && (r.ok ==> r.w.db == Committed(w.db.(items := w.View()), current, scopes))
            && (!r.ok ==> r.w.db == w.db || r.w.db == w.db.(items := w.View()))
  {
    hide CommitAllowed, Committed;
  }

  lemma {:induction false} CommitKeepsRight(cfg: Config, db: Tables, current: Snapshot, scopes: seq<string>, d: Disk, q: string)
    requires Candidate(cfg, q) && q in d && Right(cfg, db.names, d, db.items, q)
    requires q in Committed(db, current, scopes).items
    ensures var done := Committed(db, current, scopes); Right(cfg, done.names, d, done.items, q)
  {
    hide Visible, IsStrm, Right, Prune;
    PruneKeepsLeaf(db.items, Present(current), scopes, q);
    RightStays(cfg, db.names, Committed(db, current, scopes).names, d, db.items, Committed(db, current, scopes).items, q);
  }

  lemma {:induction false} CommitNames(db: Tables, current: Snapshot, scopes: seq<string>)
    requires NamesKept(db)
    ensures NamesKept(Committed(db, current, scopes))
  {
    hide Prune;
    forall p | p in Prune(db.items, Present(current), scopes)
      ensures p in db.items && Prune(db.items, Present(current), scopes)[p] == db.items[p]
    {
      PruneKeepsLeaf(db.items, Present(current), scopes, p);
    }
  }

  lemma {:induction false} CommittedSubset(db: Tables, current: Snapshot, scopes: seq<string>, q: string)
    requires q in Committed(db, current, scopes).items
    ensures q in db.items
  {
    hide Prune;
    PruneKeepsLeaf(db.items, Present(current), scopes, q);
  }

  lemma {:induction false} CommitSound(cfg: Config, files: Files, s: World, p: Pass, done: Tables)
    requires Inv(cfg, files, s) && s.pass == Some(p)
    requires done == Committed(s.w.db.(items := s.w.View()), p.current, p.scopes)
    ensures var lost := Lost(cfg, s, p, done.items);
            Trust(cfg, done.names, p.current - lost, s.disk, done.items) && AllStrm(lost)
    ensures forall q :: q !in Unconfirmed(cfg, s, p, done.items) + Lost(cfg, s, p, done.items) ==> Firm(cfg, files, done, q)
  {
    hide Committed, Right, Visible, IsStrm, SkipTest, Settled, InScope, Sound, PassOk, Firm;
    assert done.snap == p.current by { CommittedSnap(s.w.db.(items := s.w.View()), p.current, p.scopes); }
    var lost := Lost(cfg, s, p, done.items);
    assert AllStrm(lost);
    forall q
      ensures TrustAt(cfg, done.names, p.current - lost, s.disk, done.items, q)
    {
      TrustExcept(cfg, done.names, p.current, lost, s.disk, done.items, q);
      if q !in lost && q in done.items && Candidate(cfg, q) && Settled(cfg, p.current, s.disk, q) {
        CommittedSubset(s.w.db.(items := s.w.View()), p.current, p.scopes, q);
        SettledIsRight(cfg, s, p, done.items, q);
        SettledPresent(cfg, p.current, s.disk, q);
        CommitKeepsRight(cfg, s.w.db.(items := s.w.View()), p.current, p.scopes, s.disk, q);
      }
    }
    forall q | q !in Unconfirmed(cfg, s, p, done.items) + lost
      ensures Firm(cfg, files, done, q)
    {
      CommittedFirm(cfg, files, s, p, done, q);
    }
  }

  lemma {:induction false} CommittedSnap(db: Tables, current: Snapshot, scopes: seq<string>)
    ensures Committed(db, current, scopes).snap == current
  {
  }

  lemma {:induction false} CommittedFirm(cfg: Config, files: Files, s: World, p: Pass, done: Tables, q: string)
    requires Inv(cfg, files, s) && s.pass == Some(p)
    requires done == Committed(s.w.db.(items := s.w.View()), p.current, p.scopes)
    requires q !in Unconfirmed(cfg, s, p, done.items) + Lost(cfg, s, p, done.items)
    ensures Firm(cfg, files, done, q)
  {
    CommittedSnap(s.w.db.(items := s.w.View()), p.current, p.scopes);
    hide Committed, Right, Visible, IsStrm, SkipTest, Settled, InScope, Sound, PassOk, Possible, ValidConfig;
    forall d: Disk | Possible(files, d)
      ensures TrustAt(cfg, done.names, done.snap, d, done.items, q)
    {
      if q in done.items && Candidate(cfg, q) && Settled(cfg, p.current, d, q) {
        CommittedSubset(s.w.db.(items := s.w.View()), p.current, p.scopes, q);
        CommitFirm(cfg, files, s, p, done.items, d, q);
        SettledPresent(cfg, p.current, d, q);
        CommitKeepsRight(cfg, s.w.db.(items := s.w.View()), p.current, p.scopes, d, q);
      }
    }
  }

  lemma {:induction false} EitherTable(cfg: Config, files: Files, s: World, db: Tables)
    requires Inv(cfg, files, s) && (db == s.w.db || db == s.w.db.(items := s.w.View()))
    ensures Trust(cfg, db.names, s.w.db.snap - s.lost, s.disk, db.items) && NamesKept(db)
    ensures forall p :: p !in s.dirty + s.lost ==> Firm(cfg, files, db, p)
  {
    hide Trust, NamesKept, Firm, PassOk, Possible, ValidConfig, AllAbsolute;
  }

  lemma {:induction false} SettledTables(cfg: Config, files: Files, t: World)
    requires t.pass.None? && t.w.tx.None? && ValidConfig(cfg) && Possible(files, t.disk) && AllAbsolute(t.w.db.snap)
    requires Trust(cfg, t.w.db.names, t.w.db.snap - t.lost, t.disk, t.w.db.items) && NamesKept(t.w.db) && AllStrm(t.lost)
    requires forall p :: p !in t.dirty + t.lost ==> Firm(cfg, files, t.w.db, p)
    ensures Inv(cfg, files, t)
  {
    hide Trust, NamesKept, Firm, Possible, ValidConfig, AllAbsolute;
    assert t.w.db.(items := t.w.View()) == t.w.db;
  }

  lemma {:induction false} FinishKeeps(cfg: Config, files: Files, s: World)
    requires Inv(cfg, files, s) && s.pass.Some?
    ensures Inv(cfg, files, NextFinish(cfg, s, s.pass.value))
  {
    var p := s.pass.value;
    var f := Finish(s.w, p.current, p.allowEmpty, p.scopes);
    FinishCases(s.w, p.current, p.allowEmpty, p.scopes);
    hide Trust, Firm, Possible, ValidConfig, Finish, Committed, NamesKept, Unconfirmed, Lost, InScope, AllAbsolute, Visible, IsStrm, SkipTest;
    if f.ok {
      CommitSound(cfg, files, s, p, f.w.db);
      CommitNames(s.w.db.(items := s.w.View()), p.current, p.scopes);
      CommittedSnap(s.w.db.(items := s.w.View()), p.current, p.scopes);
    } else {
      EitherTable(cfg, files, s, f.w.db);
    }
    SettledTables(cfg, files, NextFinish(cfg, s, p));
  }

  lemma {:induction false} AbortKeeps(cfg: Config, files: Files, s: World)
    requires Inv(cfg, files, s)
    ensures Inv(cfg, files, Next(cfg, s, Abort))
  {
    hide Trust, Firm, Possible, ValidConfig, NamesKept, AllAbsolute, PassOk, Visible, IsStrm;
    EitherTable(cfg, files, s, s.w.db);
    SettledTables(cfg, files, Next(cfg, s, Abort));
  }

  lemma {:induction false} BudgetKeeps(cfg: Config, files: Files, s: World, n: nat)
    requires Inv(cfg, files, s)
    ensures Inv(cfg, files, Next(cfg, s, Budget(n)))
  {
    hide Trust, TrustAt, Firm, Possible, ValidConfig, NamesKept, AllAbsolute, SkipTest, ScopesOk, InScope, Visible, IsStrm;
  }

  // ---- every history

  lemma {:induction false} StepKeeps(cfg: Config, files: Files, s: World, e: Event)
    requires Inv(cfg, files, s) && Legal(cfg, files, s, e)
    ensures Inv(cfg, files, Next(cfg, s, e))
  {
    hide Inv, NextVisit, NextFinish, Possible, InScope, AllAbsolute, Visible, IsStrm;
    match e
    case Edit(disk) => EditKeeps(cfg, files, s, disk);
    case Rename(path, name) => RenameKeeps(cfg, files, s, path, name);
    case Remove(paths) => RemoveKeeps(cfg, files, s, paths);
    case Budget(n) => BudgetKeeps(cfg, files, s, n);
    case Start(_, _, _, _, _) => StartKeeps(cfg, files, s, e);
    case VisitOne(path) => VisitKeeps(cfg, files, s, path);
    case FinishPass => FinishKeeps(cfg, files, s);
    case Abort => AbortKeeps(cfg, files, s);
  }

  ghost predicate LegalRun(cfg: Config, files: Files, s: World, events: seq<Event>)
    decreases |events|
  {
    events == [] || (Legal(cfg, files, s, events[0]) && LegalRun(cfg, files, Next(cfg, s, events[0]), events[1..]))
  }

  ghost function Run(cfg: Config, files: Files, s: World, events: seq<Event>): World
    requires LegalRun(cfg, files, s, events)
    decreases |events|
  {
    if events == [] then s else Run(cfg, files, Next(cfg, s, events[0]), events[1..])
  }

  lemma {:induction false} RunKeeps(cfg: Config, files: Files, s: World, events: seq<Event>)
    requires Inv(cfg, files, s) && LegalRun(cfg, files, s, events)
    ensures Inv(cfg, files, Run(cfg, files, s, events))
    decreases |events|
  {
    hide Inv, Next, Possible, InScope, AllAbsolute, Visible, IsStrm;
    if events != [] {
      StepKeeps(cfg, files, s, events[0]);
      RunKeeps(cfg, files, Next(cfg, s, events[0]), events[1..]);
    }
  }

  /** After any history of full, incremental, scoped, failed and aborted scans, renames, deletions and disk edits
      at any moment, the next successful incremental scan of a still disk gives every file the right row, unless
      that row was lost; it is exact, and so equal to a full scan, if and only if every lost row that it skips
      happens to be right. */
  lemma {:induction false} FastScanAfterAnyHistory(cfg: Config, files: Files, disk: Disk, healthy: nat, events: seq<Event>, fast: Job, slow: Job)
    requires ValidConfig(cfg) && Possible(files, disk) && LegalRun(cfg, files, Empty(disk, healthy), events)
    requires var s := Run(cfg, files, Empty(disk, healthy), events);
             && s.pass.None? && StillJob(cfg, s.disk, fast) && StillJob(cfg, s.disk, slow)
             && fast.scopes == slow.scopes == [] && fast.incremental && !slow.incremental
             && Scan(cfg, fast, s.w).ok && Scan(cfg, slow, s.w).ok
    ensures var s := Run(cfg, files, Empty(disk, healthy), events);
            var done, full := Scan(cfg, fast, s.w).w.db, Scan(cfg, slow, s.w).w.db;
            && (forall p :: p in s.disk && Candidate(cfg, p) && p !in s.lost ==> Right(cfg, done.names, s.disk, done.items, p))
            && (Exact(cfg, done, s.disk) <==> LostAreRight(cfg, fast, s, done.snap))
            && (Exact(cfg, done, s.disk) <==> SameLeaves(done.items, full.items))
            && done.snap == full.snap && Exact(cfg, full, s.disk)
  {
    hide Inv, LegalRun, Run, Scan, Exact, SameLeaves, Visible, IsStrm, Inventory, Proper, Possible, Right, LostAreRight;
    InitInv(cfg, files, disk, healthy);
    RunKeeps(cfg, files, Empty(disk, healthy), events);
    FastScanFrom(cfg, files, Run(cfg, files, Empty(disk, healthy), events), fast, slow);
  }

  /** Every lost row that an incremental scan would leave alone is right all the same. */
  ghost predicate LostAreRight(cfg: Config, job: Job, s: World, current: Snapshot) {
    forall p :: p in s.lost && p in s.disk && Candidate(cfg, p) && Skipped(job, s.w.db, current, p)
      ==> Right(cfg, s.w.db.names, s.disk, s.w.db.items, p)
  }

  lemma {:induction false} FastScanFrom(cfg: Config, files: Files, s: World, fast: Job, slow: Job)
    requires Inv(cfg, files, s) && s.pass.None? && StillJob(cfg, s.disk, fast) && StillJob(cfg, s.disk, slow)
    requires fast.scopes == slow.scopes == [] && fast.incremental && !slow.incremental
    requires Scan(cfg, fast, s.w).ok && Scan(cfg, slow, s.w).ok
    ensures var done, full := Scan(cfg, fast, s.w).w.db, Scan(cfg, slow, s.w).w.db;
            && (forall p :: p in s.disk && Candidate(cfg, p) && p !in s.lost ==> Right(cfg, done.names, s.disk, done.items, p))
            && (Exact(cfg, done, s.disk) <==> LostAreRight(cfg, fast, s, done.snap))
            && (Exact(cfg, done, s.disk) <==> SameLeaves(done.items, full.items))
            && done.snap == full.snap && Exact(cfg, full, s.disk)
  {
    InvIdle(cfg, files, s);
    hide Inv, Scan, SameLeaves, Visible, IsStrm, Inventory, Proper, Possible, Right, NoGhosts, NamesKept, SkipTest, AllAbsolute, AllStrm;
    SoundWhenIdle(cfg, s.w.db.snap - s.lost, s.disk, s.w);
    WholeScan(cfg, s.w.db.snap - s.lost, s.disk, fast, s.w);
    FullScanExact(cfg, s.disk, slow, s.w);
    var done, full := Scan(cfg, fast, s.w).w.db, Scan(cfg, slow, s.w).w.db;
    StampsAbsolute(cfg, s.disk);
    forall p | p in s.disk && Candidate(cfg, p) && p !in s.lost && Skipped(fast, s.w.db, done.snap, p)
      ensures Right(cfg, s.w.db.names, s.disk, s.w.db.items, p)
    {
      StampsSettle(cfg, s.disk, p);
      SkipSound(cfg, s.w.db.snap, done.snap, s.disk, p);
      TrustExcept(cfg, s.w.db.names, s.w.db.snap, s.lost, s.disk, s.w.db.items, p);
    }
    if Exact(cfg, done, s.disk) { ExactAgree(cfg, s.disk, s.w.db.names, done, full); }
    if SameLeaves(done.items, full.items) { AgreeExact(cfg, s.disk, s.w.db.names, done, full); }
  }

  lemma {:induction false} InvIdle(cfg: Config, files: Files, s: World)
    requires Inv(cfg, files, s) && s.pass.None?
    ensures s.w.tx.None? && Proper(s.disk) && NamesKept(s.w.db) && AllAbsolute(s.w.db.snap) && AllStrm(s.lost)
    ensures Trust(cfg, s.w.db.names, s.w.db.snap - s.lost, s.disk, s.w.db.items)
  {
    hide Trust, Firm, ValidConfig, NamesKept, AllAbsolute, AllStrm;
  }

  // ---- histories that lose nothing

  /** The second walk has met every recorded file in scope that still is as recorded. */
  ghost predicate WalkComplete(cfg: Config, s: World, p: Pass) {
    forall q :: q in p.current && Candidate(cfg, q) && InScope(q, p.scopes) && StampOf(s.disk, q) == Recorded(p.current, q)
      ==> q in p.visited
  }

  /** An edit that takes no input of the file of an unconfirmed row back to the record; an end without a missed file. */
  ghost predicate Calm(cfg: Config, s: World, e: Event) {
    match e
    case Edit(disk) =>
      && Reverted(cfg, s.w.db.snap, s.disk, disk, s.dirty) == {}
      && (s.pass.Some? ==> Reverted(cfg, s.pass.value.current, s.disk, disk, s.pass.value.read) == {})
    case FinishPass => s.pass.Some? ==> WalkComplete(cfg, s, s.pass.value)
    case _ => true
  }

  ghost predicate CalmRun(cfg: Config, files: Files, s: World, events: seq<Event>)
    requires LegalRun(cfg, files, s, events)
    decreases |events|
  {
    events == [] || (Calm(cfg, s, events[0]) && CalmRun(cfg, files, Next(cfg, s, events[0]), events[1..]))
  }

  ghost predicate Intact(s: World) { s.lost == {} && (s.pass.Some? ==> s.pass.value.stale == {}) }

  lemma {:induction false} CalmStep(cfg: Config, files: Files, s: World, e: Event)
    requires Legal(cfg, files, s, e) && Calm(cfg, s, e) && Intact(s)
    ensures Intact(Next(cfg, s, e))
  {
    hide Visit, Finish, SkipTest, Visible, IsStrm, Written, Unconfirmed, InScope, Possible, Reverts, Input;
    if e.FinishPass? {
      var p := s.pass.value;
      forall q, items | q in Lost(cfg, s, p, items)
        ensures false
      {
        assert StampOf(s.disk, q) == Recorded(p.current, q) by { assert Input(cfg, q, q) by { SelfInput(cfg, q); } }
        SettledPresent(cfg, p.current, s.disk, q);
      }
    }
  }

  lemma {:induction false} SelfInput(cfg: Config, q: string)
    ensures Input(cfg, q, q)
  {
  }

  /** A history whose edits leave unconfirmed rows' inputs away from the record, and whose walks miss no file that
      stays, loses no row. */
  lemma {:induction false} CalmHistoryLosesNothing(cfg: Config, files: Files, s: World, events: seq<Event>)
    requires LegalRun(cfg, files, s, events) && CalmRun(cfg, files, s, events) && Intact(s)
    ensures Intact(Run(cfg, files, s, events))
    decreases |events|
  {
    hide Calm, Next, Intact, Possible, Visible, IsStrm, ScopesOk, AllAbsolute, InScope;
    if events != [] {
      CalmStep(cfg, files, s, events[0]);
      CalmHistoryLosesNothing(cfg, files, Next(cfg, s, events[0]), events[1..]);
    }
  }

  /** So after a calm history from an empty index the incremental scan equals the full one. */
  lemma {:induction false} CalmFastScanEqualsFull(cfg: Config, files: Files, disk: Disk, healthy: nat, events: seq<Event>, fast: Job, slow: Job)
    requires ValidConfig(cfg) && Possible(files, disk) && LegalRun(cfg, files, Empty(disk, healthy), events)
    requires CalmRun(cfg, files, Empty(disk, healthy), events)
    requires var s := Run(cfg, files, Empty(disk, healthy), events);
             && s.pass.None? && StillJob(cfg, s.disk, fast) && StillJob(cfg, s.disk, slow)
             && fast.scopes == slow.scopes == [] && fast.incremental && !slow.incremental
             && Scan(cfg, fast, s.w).ok && Scan(cfg, slow, s.w).ok
    ensures var s := Run(cfg, files, Empty(disk, healthy), events);
            var done, full := Scan(cfg, fast, s.w).w.db, Scan(cfg, slow, s.w).w.db;
            SameLeaves(done.items, full.items) && done.snap == full.snap && Exact(cfg, done, s.disk)
  {
    hide LegalRun, CalmRun, Run, Scan, Exact, SameLeaves, Visible, IsStrm, Inventory, Proper, Possible, Right, Skipped;
    CalmHistoryLosesNothing(cfg, files, Empty(disk, healthy), events);
    FastScanAfterAnyHistory(cfg, files, disk, healthy, events, fast, slow);
  }

  // ---- when stamps do not come back

  /** No file that an edit writes has the stamp on record. */
  ghost predicate StampsNew(snap: Snapshot, a: Disk, b: Disk) {
    forall q :: q in b && At(a, q) != At(b, q) ==> Recorded(snap, q) != Some(b[q].stamp)
  }

  /** An edit takes away a sidecar of the file p that is not on record. */
  ghost predicate DropsNewSidecar(cfg: Config, snap: Snapshot, a: Disk, b: Disk, p: string) {
    p in b && exists q :: Input(cfg, p, q) && SidecarFile(q) && q in a && q !in b && q !in snap
  }

  /** With new stamps an edit takes a file back to the record only by taking away an unrecorded sidecar. */
  lemma {:induction false} RevertsMeaning(cfg: Config, snap: Snapshot, a: Disk, b: Disk, p: string)
    requires StampsNew(snap, a, b)
    ensures Reverts(cfg, snap, a, b, p) <==> DropsNewSidecar(cfg, snap, a, b, p)
  {
    hide SidecarFile, Visible;
    if Reverts(cfg, snap, a, b, p) {
      var q :| Input(cfg, p, q) && At(a, q) != At(b, q) && StampOf(b, q) == Recorded(snap, q);
      assert q !in b;
    }
  }

  /** Among edits with new stamps the calm ones are those that take no unrecorded sidecar from an unconfirmed row's file. */
  lemma {:induction false} CalmEditIff(cfg: Config, s: World, disk: Disk)
    requires StampsNew(s.w.db.snap, s.disk, disk) && (s.pass.Some? ==> StampsNew(s.pass.value.current, s.disk, disk))
    ensures Calm(cfg, s, Edit(disk)) <==>
              && (forall p :: p in s.dirty && Candidate(cfg, p) ==> !DropsNewSidecar(cfg, s.w.db.snap, s.disk, disk, p))
              && (s.pass.Some? ==> forall p :: p in s.pass.value.read && Candidate(cfg, p) ==>
                                     !DropsNewSidecar(cfg, s.pass.value.current, s.disk, disk, p))
  {
    hide Reverts, DropsNewSidecar, StampsNew, Visible, IsStrm;
    NoneReverted(cfg, s.w.db.snap, s.disk, disk, s.dirty);
    if s.pass.Some? { NoneReverted(cfg, s.pass.value.current, s.disk, disk, s.pass.value.read); }
  }

  lemma {:induction false} NoneReverted(cfg: Config, snap: Snapshot, a: Disk, b: Disk, rows: set<string>)
    requires StampsNew(snap, a, b)
    ensures Reverted(cfg, snap, a, b, rows) == {} <==>
              forall p :: p in rows && Candidate(cfg, p) ==> !DropsNewSidecar(cfg, snap, a, b, p)
  {
    hide Reverts, DropsNewSidecar, StampsNew, Candidate;
    forall p
      ensures Reverts(cfg, snap, a, b, p) <==> DropsNewSidecar(cfg, snap, a, b, p)
    {
      RevertsMeaning(cfg, snap, a, b, p);
    }
    forall p | p in rows && Candidate(cfg, p) && Reverts(cfg, snap, a, b, p)
      ensures p in Reverted(cfg, snap, a, b, rows)
    {
    }
  }
}
