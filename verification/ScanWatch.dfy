/** Scoped scans of watched changes: when the scopes cover what changed, such a scan is as good as a full one. */
module ScanWatch {
  import opened Basics
  import opened Paths
  import opened Leaves
  import opened Snapshots
  import opened Scanner
  import opened ScanSteps
  import opened ScanExact
  import opened ScanTheorems
  import opened ScanTree
  import Watcher

  // ---- leaf rows outside the scopes

  /** A leaf row at q, committed or not, is the one that was there at first. */
  ghost predicate Origin(base: Items, w: Work, q: string) {
    && (q in w.db.items && IsLeaf(w.db.items[q]) ==> Find(base, q) == Some(w.db.items[q]))
    && (q in w.View() && IsLeaf(w.View()[q]) ==> Find(base, q) == Some(w.View()[q]))
  }

  lemma {:induction false} SaveOrigin(base: Items, w: Work, p: string, x: Row, q: string)
    requires Origin(base, w, q) && (p == q ==> !IsLeaf(x))
    ensures Origin(base, Save(w, p, x).w, q)
  {
    hide Save;
    SaveCases(w, p, x);
  }

  lemma {:induction false} SaveFoldersOrigin(base: Items, cfg: Config, disk: Disk, path: string, place: Place, seen: string, w: Work, q: string)
    requires Origin(base, w, q)
    ensures Origin(base, SaveFolders(cfg, disk, path, place, seen, w).w, q)
  {
    hide Save, SeriesRow, SeasonRow;
    if !place.InRoot? {
      SeriesRowShape(disk, place.series, seen);
      SaveOrigin(base, w, place.series, SeriesRow(disk, place.series, seen), q);
      if place.InSeason? {
        SeasonRowShape(cfg, disk, path, place.series, place.season, seen);
        SaveOrigin(base, SaveSeries(disk, place.series, seen, w).w, place.season,
                   SeasonRow(cfg, disk, path, place.series, place.season, seen), q);
      }
    }
  }

  lemma {:induction false} VisitOrigin(base: Items, cfg: Config, reuse: bool, prev: Snapshot, current: Snapshot, v: Sighting, seen: string, w: Work, q: string)
    requires Candidate(cfg, v.path) && v.path != q && Origin(base, w, q)
    ensures Origin(base, Visit(cfg, reuse, prev, current, v, seen, w).w, q)
  {
    hide SaveFolders, Save, LeafRow, SkipTest, Visible, IsStrm, PlaceOf;
    var place := PlaceOf(cfg, v.disk, v.path);
    var w1 := if reuse && SkipTest(prev, current, v.path) && w.healthy > 0 then w.(healthy := w.healthy - 1) else w;
    SaveFoldersOrigin(base, cfg, v.disk, v.path, place, seen, w1, q);
    if v.path in v.disk && v.disk[v.path].text.Lines? {
      SaveOrigin(base, SaveFolders(cfg, v.disk, v.path, place, seen, w1).w, v.path, LeafRow(cfg, v.disk, v.path, seen), q);
    }
  }

  lemma {:induction false} VisitAllOrigin(base: Items, cfg: Config, reuse: bool, prev: Snapshot, current: Snapshot, visits: seq<Sighting>, seen: string, w: Work, q: string)
    requires Candidates(cfg, visits) && Origin(base, w, q) && forall i :: 0 <= i < |visits| ==> visits[i].path != q
    ensures Origin(base, VisitAll(cfg, reuse, prev, current, visits, seen, w).w, q)
  {
    hide Visit, Visible, IsStrm, Origin;
    if visits != [] {
      VisitOrigin(base, cfg, reuse, prev, current, visits[0], seen, w, q);
      var v := Visit(cfg, reuse, prev, current, visits[0], seen, w);
      if v.ok { VisitAllOrigin(base, cfg, reuse, prev, current, visits[1..], seen, v.w, q); }
    }
  }

  /** A successful scan makes no leaf row at a path that it does not visit. */
  lemma {:induction false} UnvisitedLeaf(cfg: Config, job: Job, w: Work, q: string)
    requires Candidates(cfg, job.visits) && Scan(cfg, job, w).ok && forall i :: 0 <= i < |job.visits| ==> job.visits[i].path != q
    ensures var done := Scan(cfg, job, w).w.db.items; q in done && IsLeaf(done[q]) ==> Find(w.db.items, q) == Some(done[q])
  {
    hide VisitAll, Visible, IsStrm, Inventory, Current, Flush, CommitAllowed, Prune, Present;
    var current := Current(w.db.snap, Inventory(job.walked), job.scopes);
    var o := Opened(w).(healthy := w.healthy - 1);
    VisitAllOrigin(w.db.items, cfg, job.Reuse(), w.db.snap, current, job.visits, job.seen, o, q);
    var s := VisitAll(cfg, job.Reuse(), w.db.snap, current, job.visits, job.seen, o);
    FlushCases(s.w);
    PruneKeepsLeaf(s.w.View(), Present(current), job.scopes, q);
  }

  // ---- what a scoped scan has to cover

  /** Each changed .strm file lies in a scope, and so does the directory of each changed sidecar. */
  ghost predicate Covering(cfg: Config, was: Disk, disk: Disk, scopes: seq<string>) {
    forall q :: Visible(cfg, q) && At(was, q) != At(disk, q) ==>
      && (IsStrm(q) ==> WithinScopes(q, scopes))
      && (SidecarFile(q) ==> WithinScopes(Dir(q), scopes))
  }

  lemma {:induction false} WithinBelow(p: string, d: string, scopes: seq<string>)
    requires Under(p, d) && WithinScopes(d, scopes)
    ensures WithinScopes(p, scopes)
  {
    var i :| 0 <= i < |scopes| && Under(d, scopes[i]);
    UnderTransitive(p, d, scopes[i]);
  }

  /** An input of a file that lies outside the scopes, or whose file does, has not changed. */
  lemma {:induction false} OutsideUnchanged(cfg: Config, was: Disk, disk: Disk, scopes: seq<string>, p: string, q: string)
    requires ValidConfig(cfg) && Covering(cfg, was, disk, scopes) && Candidate(cfg, p) && Input(cfg, p, q)
    requires !WithinScopes(p, scopes) || !WithinScopes(q, scopes)
    ensures At(was, q) == At(disk, q)
  {
    InputsVisible(cfg, p, q);
    if q != p {
      hide Visible, IsStrm, SidecarFile, WithinScopes;
      VisibleAbsolute(cfg, q);
      BelowDir(q);
      if WithinScopes(Dir(q), scopes) {
        WithinBelow(q, Dir(q), scopes);
        WithinBelow(p, Dir(q), scopes);
      }
    }
  }

  lemma {:induction false} SettledInScope(cfg: Config, was: Disk, disk: Disk, job: Job, current: Snapshot, p: string)
    requires ValidConfig(cfg) && Covering(cfg, was, disk, job.scopes) && Candidate(cfg, p) && p in disk && job.scopes != []
    requires current == Current(Stamps(cfg, was), map q | q in disk && Visible(cfg, q) && InScope(q, job.scopes) :: disk[q].stamp, job.scopes)
    ensures Settled(cfg, current, disk, p)
  {
    hide Visible, IsStrm, WithinScopes, Covering, Input;
    forall q | Input(cfg, p, q)
      ensures Recorded(current, q) == StampOf(disk, q)
    {
      InputsVisible(cfg, p, q);
      if !WithinScopes(q, job.scopes) { OutsideUnchanged(cfg, was, disk, job.scopes, p, q); }
    }
  }

  /** A file in scope has the right row after the scan. */
  lemma {:induction false} InsideRight(cfg: Config, was: Disk, disk: Disk, job: Job, w: Work, p: string)
    requires ValidConfig(cfg) && Proper(disk) && StampsIdentify(was, disk) && StillJob(cfg, disk, job) && job.scopes != []
    requires w.tx.None? && NamesKept(w.db) && w.db.snap == Stamps(cfg, was) && Exact(cfg, w.db, was)
    requires Covering(cfg, was, disk, job.scopes) && Scan(cfg, job, w).ok
    requires p in disk && Candidate(cfg, p) && WithinScopes(p, job.scopes)
    ensures var done := Scan(cfg, job, w).w.db; Right(cfg, done.names, disk, done.items, p)
  {
    hide Scan, Visible, IsStrm, SkipTest, Right, Proper, NamesKept, AllAbsolute, Exact, Inventory, WithinScopes, Covering, NoGhosts, StampsIdentify, Settled;
    ExactStaysTrusted(cfg, was, disk, w);
    SoundWhenIdle(cfg, w.db.snap, disk, w);
    StillScan(cfg, w.db.snap, disk, job, w);
    var done := Scan(cfg, job, w).w.db;
    if Skipped(job, w.db, done.snap, p) {
      SettledInScope(cfg, was, disk, job, done.snap, p);
      CurrentAbsolute(cfg, was, disk, job.scopes);
      SkipSound(cfg, w.db.snap, done.snap, disk, p);
      assert TrustAt(cfg, w.db.names, w.db.snap, disk, w.db.items, p);
    }
  }

  lemma {:induction false} CurrentAbsolute(cfg: Config, was: Disk, disk: Disk, scopes: seq<string>)
    requires ValidConfig(cfg)
    ensures AllAbsolute(Current(Stamps(cfg, was), map q | q in disk && Visible(cfg, q) && InScope(q, scopes) :: disk[q].stamp, scopes))
  {
    StampsAbsolute(cfg, was);
    StampsAbsolute(cfg, disk);
    hide WithinScopes, Absolute, Visible;
    assert forall q :: q in disk && Visible(cfg, q) ==> q in Stamps(cfg, disk);
  }

  /** A file outside the scopes keeps its row, and that is still the right one. */
  lemma {:induction false} OutsideRight(cfg: Config, was: Disk, disk: Disk, job: Job, w: Work, p: string)
    requires ValidConfig(cfg) && Proper(disk) && StillJob(cfg, disk, job) && job.scopes != [] && Exact(cfg, w.db, was)
    requires Covering(cfg, was, disk, job.scopes)
    requires var done := Scan(cfg, job, w).w.db; done.names == map p | p in w.db.names && p in done.items :: w.db.names[p]
    requires p in disk && Candidate(cfg, p) && !WithinScopes(p, job.scopes)
    ensures var done := Scan(cfg, job, w).w.db; Right(cfg, done.names, disk, done.items, p)
  {
    hide Scan, Visible, IsStrm, Right, Inventory, WithinScopes, Covering, NoGhosts, Input;
    forall q | Input(cfg, p, q)
      ensures At(was, q) == At(disk, q)
    {
      OutsideUnchanged(cfg, was, disk, job.scopes, p, q);
    }
    assert SameInputs(cfg, was, disk, p);
    RightOfSameInputs(cfg, w.db.names, was, disk, w.db.items, p);
    RightIsLeaf(cfg, w.db.names, disk, w.db.items, p);
    assert Proper(disk);
    ScopedFrame(cfg, job, w, p);
    var done := Scan(cfg, job, w).w.db;
    RightStays(cfg, w.db.names, done.names, disk, w.db.items, done.items, p);
  }

  /** From rows exact for one disk, a successful scoped scan of the next, standing still, whose scopes cover what
      changed leaves rows exact for that disk, as a full scan would. */
  lemma {:induction false} ScopedScanCatchesUp(cfg: Config, was: Disk, disk: Disk, job: Job, w: Work)
    requires ValidConfig(cfg) && Proper(disk) && StampsIdentify(was, disk) && StillJob(cfg, disk, job) && job.scopes != []
    requires w.tx.None? && NamesKept(w.db) && w.db.snap == Stamps(cfg, was) && Exact(cfg, w.db, was)
    requires Covering(cfg, was, disk, job.scopes) && Scan(cfg, job, w).ok
    ensures Exact(cfg, Scan(cfg, job, w).w.db, disk)
  {
    hide Scan, Visible, IsStrm, SkipTest, Right, Proper, NamesKept, AllAbsolute, Inventory, WithinScopes, Covering, StampsIdentify, Settled, Still, Distinct;
    ExactStaysTrusted(cfg, was, disk, w);
    SoundWhenIdle(cfg, w.db.snap, disk, w);
    StillScan(cfg, w.db.snap, disk, job, w);
    var done := Scan(cfg, job, w).w.db;
    forall p | p in disk && Candidate(cfg, p)
      ensures Right(cfg, done.names, disk, done.items, p)
    {
      if WithinScopes(p, job.scopes) { InsideRight(cfg, was, disk, job, w, p); } else { OutsideRight(cfg, was, disk, job, w, p); }
    }
    forall p | p in done.items && IsLeaf(done.items[p])
      ensures p in disk && Candidate(cfg, p)
    {
      if !WithinScopes(p, job.scopes) {
        UnvisitedLeaf(cfg, job, w, p);
        assert Find(w.db.items, p) == Some(done.items[p]);
        assert p in was && Candidate(cfg, p);
        OutsideUnchanged(cfg, was, disk, job.scopes, p, p) by { assert Input(cfg, p, p); }
      }
    }
  }

  // ---- what the watcher makes of the changes

  /** A notification about the file q itself, or about a directory above it. */
  predicate Reports(watched: set<string>, n: Watcher.Notice, q: string) {
    || (n.name == q && !n.isDir && q !in watched)
    || (Below(q, n.name) && n.name != "" && (n.isDir || n.name in watched))
  }

  /** The target of a notification covers the file it is about, and for a sidecar its whole directory. */
  lemma {:induction false} TargetCovers(watched: set<string>, n: Watcher.Notice, q: string)
    requires Reports(watched, n, q)
    ensures Under(if IsStrm(q) then q else Dir(q), Watcher.Target(watched, n))
  {
    hide IsStrm;
    if n.name != q { DirIsNearest(q, n.name); }
  }

  /** Every changed .strm file and sidecar had a notification, whose target was recorded. */
  ghost predicate AllReported(cfg: Config, was: Disk, disk: Disk, changed: set<string>) {
    forall q :: Visible(cfg, q) && At(was, q) != At(disk, q) && (IsStrm(q) || SidecarFile(q)) ==>
      exists watched, n :: Reports(watched, n, q) && Watcher.Target(watched, n) in changed
  }

  lemma {:induction false} ReportedIsCovered(cfg: Config, was: Disk, disk: Disk, changed: set<string>, scopes: seq<string>)
    requires AllReported(cfg, was, disk, changed) && forall s :: s in scopes <==> s in Watcher.Scopes(changed)
    ensures Covering(cfg, was, disk, scopes)
  {
    hide Visible, Watcher.Scopes, Reports, Watcher.Target;
    forall q | Visible(cfg, q) && At(was, q) != At(disk, q) && (IsStrm(q) || SidecarFile(q))
      ensures WithinScopes(if IsStrm(q) then q else Dir(q), scopes)
    {
      var watched, n :| Reports(watched, n, q) && Watcher.Target(watched, n) in changed;
      TargetCovers(watched, n, q);
      var s := Watcher.ScopesCover(changed, Watcher.Target(watched, n));
      UnderTransitive(if IsStrm(q) then q else Dir(q), Watcher.Target(watched, n), s);
      var i :| 0 <= i < |scopes| && scopes[i] == s;
    }
  }

  /** So the watcher's targets and scopes are enough: once every change has been reported, the scan it launches for
      the recorded changes makes the rows exact. */
  lemma {:induction false} WatchedScanCatchesUp(cfg: Config, was: Disk, disk: Disk, changed: set<string>, job: Job, w: Work)
    requires ValidConfig(cfg) && Proper(disk) && StampsIdentify(was, disk) && StillJob(cfg, disk, job) && job.scopes != []
    requires w.tx.None? && NamesKept(w.db) && w.db.snap == Stamps(cfg, was) && Exact(cfg, w.db, was)
    requires AllReported(cfg, was, disk, changed) && (forall s :: s in job.scopes <==> s in Watcher.Scopes(changed))
    requires Scan(cfg, job, w).ok
    ensures Exact(cfg, Scan(cfg, job, w).w.db, disk)
  {
    hide Scan, Proper, NamesKept, StampsIdentify, Exact, AllReported, Watcher.Scopes, StillJob;
    ReportedIsCovered(cfg, was, disk, changed, job.scopes);
    ScopedScanCatchesUp(cfg, was, disk, job, w);
  }
}
