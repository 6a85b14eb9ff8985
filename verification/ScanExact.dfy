/** Scans of a disk that stands still: the incremental scan, the full scan, and when they agree. */
module ScanExact {
  import opened Basics
  import opened Paths
  import opened Leaves
  import opened Snapshots
  import opened Scanner
  import opened ScanSteps

  // ---- the skip test is sound

  lemma {:induction false} InputWatched(cfg: Config, path: string, q: string)
    requires ValidConfig(cfg) && Visible(cfg, path) && Input(cfg, path, q)
    ensures Watched(path, q) && Absolute(q)
  {
    InputsVisible(cfg, path, q);
    RootFacts(cfg, q);
    assert Absolute(q) by { assert q[..|Root(cfg, q)|][0] == q[0]; }
  }

  /** A skipped file that is recorded as it stands was already recorded so before. */
  lemma {:induction false} SkipSound(cfg: Config, prev: Snapshot, current: Snapshot, disk: Disk, path: string)
    requires ValidConfig(cfg) && Proper(disk) && Candidate(cfg, path)
    requires AllAbsolute(prev) && AllAbsolute(current)
    requires SkipTest(prev, current, path) && Settled(cfg, current, disk, path)
    ensures Settled(cfg, prev, disk, path)
  {
    assert Input(cfg, path, path);
    SkipTestExact(prev, current, path);
    hide SkipTest, Visible, IsStrm;
    forall q | Input(cfg, path, q)
      ensures Recorded(prev, q) == StampOf(disk, q)
    {
      InputWatched(cfg, path, q);
      assert Unchanged(prev, current, q);
      assert Recorded(current, q) == StampOf(disk, q);
    }
  }

  /** When both snapshots are true to their disks, the skip test holds exactly when no input changed its stamp. */
  lemma {:induction false} SkipTestMeaning(cfg: Config, prev: Snapshot, current: Snapshot, path: string)
    requires ValidConfig(cfg) && Candidate(cfg, path) && path in current
    requires AllAbsolute(prev) && AllAbsolute(current)
    requires forall q :: q in prev || q in current ==> Visible(cfg, q)
    requires forall q :: q in current ==> current[q] != ZERO
    ensures SkipTest(prev, current, path) <==> forall q :: Input(cfg, path, q) ==> Recorded(prev, q) == Recorded(current, q)
  {
    SkipTestExact(prev, current, path);
    hide SkipTest;
    if forall q :: Input(cfg, path, q) ==> Recorded(prev, q) == Recorded(current, q) {
      forall q | Watched(path, q)
        ensures Unchanged(prev, current, q)
      {
        if q in prev || q in current { WatchedInput(cfg, path, q); }
      }
    }
    forall q | Input(cfg, path, q)
      ensures Watched(path, q)
    {
      InputWatched(cfg, path, q);
    }
  }

  lemma {:induction false} WatchedInput(cfg: Config, path: string, q: string)
    requires ValidConfig(cfg) && Visible(cfg, path) && Visible(cfg, q) && Watched(path, q)
    ensures Input(cfg, path, q)
  {
    if q != path {
      RootFacts(cfg, q);
      UnderTransitive(path, Dir(q), Root(cfg, q));
      RootIsUnique(cfg, path, Root(cfg, q));
    }
  }

  // ---- one visit

  /** What a successful visit leaves at its file: the old row if it was skipped, the right row otherwise. */
  ghost predicate Visited(cfg: Config, disk: Disk, skipped: bool, before: Work, after: Work, path: string) {
    && Candidate(cfg, path) && path in disk
    && (if skipped && path in before.db.items then Find(after.View(), path) == Find(before.View(), path)
        else Right(cfg, after.db.names, disk, after.View(), path))
  }

  lemma {:induction false} VisitEffect(cfg: Config, snap: Snapshot, disk: Disk, reuse: bool, prev: Snapshot, current: Snapshot,
                                       path: string, seen: string, w: Work)
    requires ValidConfig(cfg) && Proper(disk) && Candidate(cfg, path) && Sound(cfg, snap, disk, w)
    ensures var s := Visit(cfg, reuse, prev, current, Sighting(path, disk), seen, w);
            && Sound(cfg, snap, disk, s.w)
            && s.w.db.names == w.db.names && s.w.db.snap == w.db.snap
            && (s.ok ==> Visited(cfg, disk, reuse && SkipTest(prev, current, path), w, s.w, path))
            && (s.ok ==> forall q :: q in disk && q != path ==> Quiet(w, s.w, q))
  {
    hide Refresh, Sound, SkipTest, Visible, IsStrm, Proper, Right;
    if path in disk {
      var skip := reuse && SkipTest(prev, current, path);
      if skip {
        CursorSound(cfg, snap, disk, w, "");
        if w.healthy > 0 { RefreshEffect(cfg, snap, disk, path, seen, w.(healthy := w.healthy - 1)); }
      } else {
        RefreshEffect(cfg, snap, disk, path, seen, w);
      }
    }
  }

  // ---- the second walk of a still disk

  ghost predicate Still(visits: seq<Sighting>, disk: Disk) {
    forall i :: 0 <= i < |visits| ==> visits[i].disk == disk && visits[i].path in disk
  }

  predicate Distinct(visits: seq<Sighting>) {
    forall i, j :: 0 <= i < j < |visits| ==> visits[i].path != visits[j].path
  }

  /** Nothing uncommitted is known about the files still to be visited. */
  ghost predicate Fresh(visits: seq<Sighting>, w: Work) {
    forall i :: 0 <= i < |visits| ==> Find(w.View(), visits[i].path) == Find(w.db.items, visits[i].path)
  }

  lemma {:induction false} VisitAllStill(cfg: Config, snap: Snapshot, disk: Disk, reuse: bool, prev: Snapshot, current: Snapshot,
                                         visits: seq<Sighting>, seen: string, w: Work)
    requires ValidConfig(cfg) && Proper(disk) && Candidates(cfg, visits) && Sound(cfg, snap, disk, w)
    requires Still(visits, disk) && Distinct(visits) && Fresh(visits, w)
    ensures var s := VisitAll(cfg, reuse, prev, current, visits, seen, w);
            && Sound(cfg, snap, disk, s.w)
            && s.w.db.names == w.db.names && s.w.db.snap == w.db.snap
            && (s.ok ==> forall i :: 0 <= i < |visits| ==>
                  Visited(cfg, disk, reuse && SkipTest(prev, current, visits[i].path), w, s.w, visits[i].path))
            && (s.ok ==> forall q :: q in disk && (forall i :: 0 <= i < |visits| ==> visits[i].path != q) ==> Quiet(w, s.w, q))
  {
    hide Visit, Sound, SkipTest, Visible, IsStrm, Proper, Right;
    if visits != [] {
      var path := visits[0].path;
      assert visits[0] == Sighting(path, disk);
      VisitEffect(cfg, snap, disk, reuse, prev, current, path, seen, w);
      var v := Visit(cfg, reuse, prev, current, visits[0], seen, w);
      if v.ok {
        var rest := visits[1..];
        assert forall i :: 0 <= i < |rest| ==> Quiet(w, v.w, rest[i].path);
        VisitAllStill(cfg, snap, disk, reuse, prev, current, rest, seen, v.w);
        var s := VisitAll(cfg, reuse, prev, current, rest, seen, v.w);
        if s.ok {
          assert forall i :: 0 <= i < |rest| ==> rest[i].path != path;
          VisitedThenQuiet(cfg, disk, reuse && SkipTest(prev, current, path), w, v.w, s.w, path);
          forall i | 0 < i < |visits|
            ensures Visited(cfg, disk, reuse && SkipTest(prev, current, visits[i].path), w, s.w, visits[i].path)
          {
            assert visits[i] == rest[i - 1];
            QuietThenVisited(cfg, disk, reuse && SkipTest(prev, current, visits[i].path), w, v.w, s.w, visits[i].path);
          }
          forall q | q in disk && forall i :: 0 <= i < |visits| ==> visits[i].path != q
            ensures Quiet(w, s.w, q)
          {
            assert forall i :: 0 <= i < |rest| ==> rest[i].path == visits[i + 1].path;
            assert Quiet(v.w, s.w, q);
          }
        }
      }
    }
  }

  lemma {:induction false} VisitedThenQuiet(cfg: Config, disk: Disk, skipped: bool, w: Work, v: Work, s: Work, path: string)
    requires Visited(cfg, disk, skipped, w, v, path) && Quiet(v, s, path)
    ensures Visited(cfg, disk, skipped, w, s, path)
  {
    hide Candidate, Same, Expected;
  }

  lemma {:induction false} QuietThenVisited(cfg: Config, disk: Disk, skipped: bool, w: Work, v: Work, s: Work, path: string)
    requires Quiet(w, v, path) && Find(w.View(), path) == Find(w.db.items, path)
    requires Visited(cfg, disk, skipped, v, s, path)
    ensures Visited(cfg, disk, skipped, w, s, path)
  {
    hide Candidate, Right;
  }

  // ---- the whole scan of a still disk

  /** The job of a scan that finds the disk standing still: both walks report exactly the files in scope. */
  ghost predicate StillJob(cfg: Config, disk: Disk, job: Job) {
    && Inventory(job.walked) == (map q | q in disk && Visible(cfg, q) && InScope(q, job.scopes) :: disk[q].stamp)
    && Candidates(cfg, job.visits) && Still(job.visits, disk) && Distinct(job.visits)
    && (forall i :: 0 <= i < |job.visits| ==> InScope(job.visits[i].path, job.scopes))
    && (forall p :: p in disk && Candidate(cfg, p) && InScope(p, job.scopes)
          ==> exists i :: 0 <= i < |job.visits| && job.visits[i].path == p)
  }

  /** No leaf row in scope without its file. */
  ghost predicate NoGhosts(cfg: Config, items: Items, disk: Disk, scopes: seq<string>) {
    forall p :: p in items && IsLeaf(items[p]) && InScope(p, scopes) ==> p in disk && Candidate(cfg, p)
  }

  /** The leaf rows are exactly those a scan that reads everything gives. */
  ghost predicate Exact(cfg: Config, db: Tables, disk: Disk) {
    && NoGhosts(cfg, db.items, disk, [])
    && (forall p :: p in disk && Candidate(cfg, p) ==> Right(cfg, db.names, disk, db.items, p))
  }

  /** Every file's row in the view is right, or is one the scan skipped and the table already held. */
  ghost predicate Walked(cfg: Config, disk: Disk, job: Job, prev: Snapshot, current: Snapshot, before: Tables, after: Work) {
    forall p :: p in disk && Candidate(cfg, p) && InScope(p, job.scopes) ==>
      if job.Reuse() && SkipTest(prev, current, p) && p in before.items then Find(after.View(), p) == Some(before.items[p])
      else Right(cfg, after.db.names, disk, after.View(), p)
  }

  lemma {:induction false} StillWalk(cfg: Config, snap: Snapshot, disk: Disk, job: Job, w: Work)
    requires ValidConfig(cfg) && Proper(disk) && StillJob(cfg, disk, job) && Sound(cfg, snap, disk, Opened(w))
    requires w.healthy > 0
    ensures var prev, current := w.db.snap, Current(w.db.snap, Inventory(job.walked), job.scopes);
            var s := VisitAll(cfg, job.Reuse(), prev, current, job.visits, job.seen, Opened(w).(healthy := w.healthy - 1));
            && s.w.db.names == w.db.names && s.w.db.snap == w.db.snap
            && Sound(cfg, snap, disk, s.w)
            && (s.ok ==> Walked(cfg, disk, job, prev, current, w.db, s.w))
  {
    hide VisitAll, SkipTest, Right, Sound, Candidate, Proper, Current, Inventory;
    CursorSound(cfg, snap, disk, Opened(w), "");
    VisitAllStill(cfg, snap, disk, job.Reuse(), w.db.snap, Current(w.db.snap, Inventory(job.walked), job.scopes),
                  job.visits, job.seen, Opened(w).(healthy := w.healthy - 1));
  }

  /** A whole-library scan whose walk succeeds is that walk and its end. */
  lemma {:induction false} WholeUnfolded(cfg: Config, job: Job, w: Work)
    requires Candidates(cfg, job.visits) && job.rootsOk && job.scopes == [] && w.healthy > 0
    ensures var s := VisitAll(cfg, job.Reuse(), w.db.snap, Inventory(job.walked), job.visits, job.seen, Opened(w).(healthy := w.healthy - 1));
            s.ok ==> Scan(cfg, job, w) == Finish(s.w, Inventory(job.walked), job.allowEmpty, [])
  {
    hide VisitAll, Inventory, Visible, IsStrm, Absolute, Finish;
  }

  // ---- the commit after a still walk

  lemma {:induction false} RightIsLeaf(cfg: Config, names: map<string, string>, disk: Disk, items: Items, p: string)
    requires Candidate(cfg, p) && p in disk && Right(cfg, names, disk, items, p)
    ensures p in items && IsLeaf(items[p])
  {
    LeafRowIsLeaf(cfg, disk, p, "");
    hide LeafRow, Visible, IsStrm;
  }

  lemma {:induction false} PruneKeepsLeaf(items: Items, present: set<string>, scopes: seq<string>, p: string)
    ensures p in Prune(items, present, scopes) ==> p in items && Prune(items, present, scopes)[p] == items[p]
    ensures p in items && IsLeaf(items[p]) ==>
              (p in Prune(items, present, scopes) <==> p in present || !InScope(p, scopes))
  {
    hide IsStrm, InScope, HasChild;
  }

  /** The file at p was left alone by the scan. */
  predicate Skipped(job: Job, before: Tables, current: Snapshot, p: string)
    requires Absolute(p)
  {
    job.Reuse() && SkipTest(before.snap, current, p) && p in before.items
  }

  lemma {:induction false} CommittedLeaf(cfg: Config, disk: Disk, current: Snapshot, scopes: seq<string>, db: Tables, p: string)
    requires Candidate(cfg, p) && p in disk && p in current
    ensures var done := Committed(db, current, scopes); Right(cfg, done.names, disk, done.items, p) <==> Right(cfg, db.names, disk, db.items, p)
  {
    hide Visible, Right, Prune, InScope;
    var done := Committed(db, current, scopes);
    PruneKeepsLeaf(db.items, Present(current), scopes, p);
    assert p in Present(current);
    if Right(cfg, db.names, disk, db.items, p) {
      RightIsLeaf(cfg, db.names, disk, db.items, p);
      RightStays(cfg, db.names, done.names, disk, db.items, done.items, p);
    }
    if Right(cfg, done.names, disk, done.items, p) {
      RightIsLeaf(cfg, done.names, disk, done.items, p);
      RightStays(cfg, done.names, db.names, disk, done.items, db.items, p);
    }
  }

  lemma {:induction false} CommittedNoGhosts(cfg: Config, disk: Disk, walked: Snapshot, prev: Snapshot, scopes: seq<string>, db: Tables)
    requires walked == map q | q in disk && Visible(cfg, q) && InScope(q, scopes) :: disk[q].stamp
    requires forall q :: Visible(cfg, q) ==> Absolute(q)
    ensures NoGhosts(cfg, Committed(db, Current(prev, walked, scopes), scopes).items, disk, scopes)
  {
    hide Visible, Prune, WithinScopes;
    var current := Current(prev, walked, scopes);
    var done := Committed(db, current, scopes);
    forall p | p in done.items && IsLeaf(done.items[p]) && InScope(p, scopes)
      ensures p in disk && Candidate(cfg, p)
    {
      PruneKeepsLeaf(db.items, Present(current), scopes, p);
    }
  }

  lemma {:induction false} RightStays(cfg: Config, names: map<string, string>, names': map<string, string>, disk: Disk,
                                      items: Items, items': Items, p: string)
    requires Candidate(cfg, p) && p in disk && Right(cfg, names, disk, items, p)
    requires Find(items', p) == Find(items, p)
    requires p in names <==> p in names'
    requires p in names ==> names'[p] == names[p]
    ensures Right(cfg, names', disk, items', p)
  {
    hide LeafRow, Visible, IsStrm;
  }

  lemma {:induction false} VisibleAbsolute(cfg: Config, q: string)
    requires ValidConfig(cfg) && Visible(cfg, q)
    ensures Absolute(q) && LastSlash(q) > 0
  {
    RootFacts(cfg, q);
    assert q[..|Root(cfg, q)|][0] == q[0];
  }

  /** A successful scan over a still disk records exactly that disk in its scopes and leaves no row there without
      a file; and row by row, it leaves the right row if and only if it did not skip a row that was wrong. */
  lemma {:induction false} StillScan(cfg: Config, snap: Snapshot, disk: Disk, job: Job, w: Work)
    requires ValidConfig(cfg) && Proper(disk) && StillJob(cfg, disk, job)
    requires Sound(cfg, snap, disk, Opened(w)) && Scan(cfg, job, w).ok
    ensures var done := Scan(cfg, job, w).w.db;
            && done.snap == Current(w.db.snap, map q | q in disk && Visible(cfg, q) && InScope(q, job.scopes) :: disk[q].stamp, job.scopes)
            && done.names == (map p | p in w.db.names && p in done.items :: w.db.names[p])
            && NoGhosts(cfg, done.items, disk, job.scopes)
            && forall p :: p in disk && Candidate(cfg, p) && InScope(p, job.scopes) ==>
                 (Right(cfg, done.names, disk, done.items, p)
                  <==> (Skipped(job, w.db, done.snap, p) ==> Right(cfg, w.db.names, disk, w.db.items, p)))
  {
    hide VisitAll, SkipTest, Right, Visible, IsStrm, Proper, Inventory, Prune, Flush, Sound, NoGhosts, WithinScopes;
    StillWalk(cfg, snap, disk, job, w);
    var current := Current(w.db.snap, Inventory(job.walked), job.scopes);
    var s := VisitAll(cfg, job.Reuse(), w.db.snap, current, job.visits, job.seen, Opened(w).(healthy := w.healthy - 1));
    FlushCases(s.w);
    var db := Flush(s.w).w.db;
    assert Scan(cfg, job, w).w.db == Committed(db, current, job.scopes);
    forall q | Visible(cfg, q)
      ensures Absolute(q)
    {
      VisibleAbsolute(cfg, q);
    }
    CommittedNoGhosts(cfg, disk, Inventory(job.walked), w.db.snap, job.scopes, db);
    forall p | p in disk && Candidate(cfg, p) && InScope(p, job.scopes)
      ensures Right(cfg, Committed(db, current, job.scopes).names, disk, Committed(db, current, job.scopes).items, p)
              <==> (Skipped(job, w.db, current, p) ==> Right(cfg, w.db.names, disk, w.db.items, p))
    {
      StillOutcome(cfg, disk, job, w.db, s.w, current, db, p);
    }
  }

  lemma {:induction false} StillOutcome(cfg: Config, disk: Disk, job: Job, before: Tables, after: Work, current: Snapshot, db: Tables, p: string)
    requires p in disk && Candidate(cfg, p) && p in current && InScope(p, job.scopes)
    requires Walked(cfg, disk, job, before.snap, current, before, after)
    requires db.items == after.View() && db.names == after.db.names == before.names
    ensures var done := Committed(db, current, job.scopes);
            Right(cfg, done.names, disk, done.items, p)
            <==> (Skipped(job, before, current, p) ==> Right(cfg, before.names, disk, before.items, p))
  {
    hide SkipTest, Right, Visible, IsStrm, Committed, InScope;
    CommittedLeaf(cfg, disk, current, job.scopes, db, p);
    if Skipped(job, before, current, p) {
      if Right(cfg, before.names, disk, before.items, p) {
        RightStays(cfg, before.names, db.names, disk, before.items, db.items, p);
      }
      if Right(cfg, db.names, disk, db.items, p) {
        RightStays(cfg, db.names, before.names, disk, db.items, before.items, p);
      }
    }
  }
}
