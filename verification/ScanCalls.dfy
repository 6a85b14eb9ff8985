/** One call of the scanner as a piece of history, and what a failed or empty scan leaves behind. */
module ScanCalls {
  import opened Basics
  import opened Paths
  import opened Leaves
  import opened Snapshots
  import opened Scanner
  import opened ScanSteps
  import opened ScanExact
  import opened ScanHistory

  /** The visits of a scan up to the first failure, and its end when there is none. */
  ghost function VisitEvents(cfg: Config, s: World, visits: seq<Sighting>): seq<Event>
    requires s.pass.Some? && Candidates(cfg, visits)
    decreases |visits|
  {
    if visits == [] then [FinishPass]
    else
      var t := NextVisit(cfg, s, visits[0].path, s.pass.value);
      [VisitOne(visits[0].path)] + (if t.pass.Some? then VisitEvents(cfg, t, visits[1..]) else [])
  }

  ghost function Started(s: World, job: Job): World
    requires s.w.healthy > 0
  {
    s.(w := Opened(s.w).(healthy := s.w.healthy - 1),
       pass := Some(Pass(job.Reuse(), job.allowEmpty, job.scopes, Current(s.w.db.snap, Inventory(job.walked), job.scopes), {}, {}, {}, job.seen)))
  }

  ghost function ScanEvents(cfg: Config, s: World, job: Job): seq<Event>
    requires Candidates(cfg, job.visits) && s.w.healthy > 0
  {
    [Budget(s.w.healthy - 1), StartOf(job)]
    + VisitEvents(cfg, Started(s, job), job.visits)
  }

  /** The files still to be visited, with those visited already, are all the current ones. */
  ghost predicate Covers(cfg: Config, s: World, p: Pass, visits: seq<Sighting>) {
    forall q :: q in p.current && Candidate(cfg, q) && InScope(q, p.scopes) && StampOf(s.disk, q) == Recorded(p.current, q)
      ==> q in p.visited || exists i :: 0 <= i < |visits| && visits[i].path == q
  }

  lemma {:induction false} VisitEventsRun(cfg: Config, files: Files, s: World, visits: seq<Sighting>)
    requires s.pass.Some? && Candidates(cfg, visits) && Still(visits, s.disk)
    requires forall i :: 0 <= i < |visits| ==> InScope(visits[i].path, s.pass.value.scopes)
    requires Covers(cfg, s, s.pass.value, visits)
    ensures var events := VisitEvents(cfg, s, visits);
            var p := s.pass.value;
            var v := VisitAll(cfg, p.reuse, s.w.db.snap, p.current, visits, p.seen, s.w);
            && LegalRun(cfg, files, s, events)
            && Run(cfg, files, s, events).disk == s.disk && Run(cfg, files, s, events).pass.None?
            && (p.stale == {} ==> Run(cfg, files, s, events).lost <= s.lost)
            && Run(cfg, files, s, events).w
               == if v.ok then Finish(v.w, p.current, p.allowEmpty, p.scopes).w.(tx := None) else v.w.(tx := None)
    decreases |visits|
  {
    hide Visit, Finish, SkipTest, Visible, IsStrm, Written, Unconfirmed, Lost, InScope;
    var p := s.pass.value;
    var events := VisitEvents(cfg, s, visits);
    if visits == [] {
      assert events == [FinishPass] && events[1..] == [];
      LosesNothing(cfg, s, p, Finish(s.w, p.current, p.allowEmpty, p.scopes).w.db.items);
    } else {
      var path := visits[0].path;
      assert visits[0] == Sighting(path, s.disk);
      var v := Visit(cfg, p.reuse, s.w.db.snap, p.current, visits[0], p.seen, s.w);
      var t := NextVisit(cfg, s, path, p);
      assert events[0] == VisitOne(path) && events[1..] == if t.pass.Some? then VisitEvents(cfg, t, visits[1..]) else [];
      VisitTables(cfg, p.reuse, s.w.db.snap, p.current, visits[0], p.seen, s.w);
      if v.ok {
        StillCovered(cfg, s, t, visits);
        VisitEventsRun(cfg, files, t, visits[1..]);
      }
    }
  }

  lemma {:induction false} LosesNothing(cfg: Config, s: World, p: Pass, items: Items)
    requires Covers(cfg, s, p, [])
    ensures p.stale == {} ==> Lost(cfg, s, p, items) <= s.lost
  {
    hide SkipTest, Visible, IsStrm, InScope, Input;
    forall q | q in Lost(cfg, s, p, items) && p.stale == {}
      ensures q in s.lost
    {
      SelfInput(cfg, q);
      SettledPresent(cfg, p.current, s.disk, q);
      assert StampOf(s.disk, q) == Recorded(p.current, q);
    }
  }

  lemma {:induction false} StillCovered(cfg: Config, s: World, t: World, visits: seq<Sighting>)
    requires visits != [] && s.pass.Some? && Covers(cfg, s, s.pass.value, visits)
    requires t.disk == s.disk && t.pass.Some? && t.pass.value.current == s.pass.value.current && t.pass.value.scopes == s.pass.value.scopes
    requires t.pass.value.visited == s.pass.value.visited + {visits[0].path}
    ensures Covers(cfg, t, t.pass.value, visits[1..])
  {
    hide Candidate, InScope;
    forall q | q in t.pass.value.current && Candidate(cfg, q) && InScope(q, t.pass.value.scopes)
               && StampOf(t.disk, q) == Recorded(t.pass.value.current, q) && q !in t.pass.value.visited
      ensures exists i :: 0 <= i < |visits[1..]| && visits[1..][i].path == q
    {
      var i :| 0 <= i < |visits| && visits[i].path == q;
      assert visits[1..][i - 1].path == q;
    }
  }

  /** A visit leaves the committed snapshot and the given names alone. */
  lemma {:induction false} VisitTables(cfg: Config, reuse: bool, prev: Snapshot, current: Snapshot, v: Sighting, seen: string, w: Work)
    requires Candidate(cfg, v.path)
    ensures var s := Visit(cfg, reuse, prev, current, v, seen, w).w; s.db.snap == w.db.snap && s.db.names == w.db.names
  {
    hide SaveFolders, Save, LeafRow, SkipTest, Visible, IsStrm, PlaceOf;
    if v.path in v.disk {
      var w1 := if reuse && SkipTest(prev, current, v.path) && w.healthy > 0 then w.(healthy := w.healthy - 1) else w;
      var place := PlaceOf(cfg, v.disk, v.path);
      SaveFoldersTables(cfg, v.disk, v.path, place, seen, w1);
      if v.disk[v.path].text.Lines? {
        SaveCases(SaveFolders(cfg, v.disk, v.path, place, seen, w1).w, v.path, LeafRow(cfg, v.disk, v.path, seen));
      }
    }
  }

  lemma {:induction false} VisitAllTables(cfg: Config, reuse: bool, prev: Snapshot, current: Snapshot, visits: seq<Sighting>, seen: string, w: Work)
    requires Candidates(cfg, visits)
    ensures var s := VisitAll(cfg, reuse, prev, current, visits, seen, w).w; s.db.snap == w.db.snap && s.db.names == w.db.names
  {
    hide Visit, Visible, IsStrm;
    if visits != [] {
      VisitTables(cfg, reuse, prev, current, visits[0], seen, w);
      var v := Visit(cfg, reuse, prev, current, visits[0], seen, w);
      if v.ok { VisitAllTables(cfg, reuse, prev, current, visits[1..], seen, v.w); }
    }
  }

  /** A call of the scanner on a still disk, in any mode and whether it succeeds or fails, is a legal run of
      events that ends in the state the call leaves and loses no row; so every reachable invariant holds after it. */
  lemma {:induction false} ScanIsRun(cfg: Config, files: Files, s: World, job: Job)
    requires Inv(cfg, files, s) && s.pass.None? && StillJob(cfg, s.disk, job) && job.rootsOk && s.w.healthy > 0
    requires ScopesOk(job.scopes, s.w.db.snap, Inventory(job.walked))
    ensures var events := ScanEvents(cfg, s, job);
            && LegalRun(cfg, files, s, events)
            && Run(cfg, files, s, events).w.db == Scan(cfg, job, s.w).w.db
            && Inv(cfg, files, Run(cfg, files, s, events)) && Run(cfg, files, s, events).pass.None?
            && Run(cfg, files, s, events).lost <= s.lost
  {
    var events := ScanEvents(cfg, s, job);
    assert ValidConfig(cfg);
    StillWalked(cfg, files, s, job);
    StartsLegally(cfg, files, s, job);
    hide Inv, VisitAll, Finish, VisitEvents, Visible, IsStrm, Inventory, Current, InScope, Covers, Distinct, Legal, Next, ValidConfig;
    assert events[0] == Budget(s.w.healthy - 1) && events[1] == StartOf(job) && events[2..] == VisitEvents(cfg, Started(s, job), job.visits);
    VisitEventsRun(cfg, files, Started(s, job), job.visits);
    LegalTwice(cfg, files, s, events);
    FinishIdle(cfg, s, job);
    RunKeeps(cfg, files, s, events);
  }

  function StartOf(job: Job): Event {
    Start(job.incremental, job.allowEmpty, job.scopes, Inventory(job.walked), job.seen)
  }

  lemma {:induction false} StartsLegally(cfg: Config, files: Files, s: World, job: Job)
    requires s.pass.None? && s.w.healthy > 0 && ScopesOk(job.scopes, s.w.db.snap, Inventory(job.walked))
    requires AllAbsolute(Inventory(job.walked)) && forall q :: q in Inventory(job.walked) ==> InScope(q, job.scopes)
    ensures Legal(cfg, files, s, Budget(s.w.healthy - 1))
    ensures var b := Next(cfg, s, Budget(s.w.healthy - 1)); Legal(cfg, files, b, StartOf(job)) && Next(cfg, b, StartOf(job)) == Started(s, job)
  {
    hide Inventory, Current, InScope, AllAbsolute, ScopesOk;
  }

  lemma {:induction false} StillWalked(cfg: Config, files: Files, s: World, job: Job)
    requires ValidConfig(cfg) && StillJob(cfg, s.disk, job) && s.w.healthy > 0
    ensures AllAbsolute(Inventory(job.walked)) && forall q :: q in Inventory(job.walked) ==> InScope(q, job.scopes)
    ensures Covers(cfg, Started(s, job), Started(s, job).pass.value, job.visits)
  {
    hide IsStrm, Inventory, WithinScopes;
    forall q | q in Inventory(job.walked)
      ensures Absolute(q) && LastSlash(q) > 0
    {
      VisibleAbsolute(cfg, q);
    }
    hide Visible;
  }

  lemma {:induction false} LegalTwice(cfg: Config, files: Files, s: World, events: seq<Event>)
    requires |events| >= 2 && Legal(cfg, files, s, events[0]) && Legal(cfg, files, Next(cfg, s, events[0]), events[1])
    requires LegalRun(cfg, files, Next(cfg, Next(cfg, s, events[0]), events[1]), events[2..])
    ensures LegalRun(cfg, files, s, events)
    ensures Run(cfg, files, s, events) == Run(cfg, files, Next(cfg, Next(cfg, s, events[0]), events[1]), events[2..])
  {
    hide Next, Legal;
    assert events[1..][0] == events[1] && events[1..][1..] == events[2..];
  }

  lemma {:induction false} FinishIdle(cfg: Config, s: World, job: Job)
    requires Candidates(cfg, job.visits) && job.rootsOk && s.w.healthy > 0
    ensures var p := Started(s, job).pass.value;
            var v := VisitAll(cfg, p.reuse, s.w.db.snap, p.current, job.visits, p.seen, Started(s, job).w);
            Scan(cfg, job, s.w).w.db == if v.ok then Finish(v.w, p.current, p.allowEmpty, p.scopes).w.db else v.w.db
  {
    hide VisitAll, Finish, Inventory, Current, Visible, IsStrm;
  }

  /** The last stamp with which a path was met, looking from the front. */
  function LastStamp(walked: seq<(string, Stamp)>, p: string): Option<Stamp> {
    if walked == [] then None
    else
      var later := LastStamp(walked[1..], p);
      if later.Some? then later else if walked[0].0 == p then Some(walked[0].1) else None
  }

  lemma {:induction false} LastStampSnoc(walked: seq<(string, Stamp)>, x: (string, Stamp), p: string)
    ensures LastStamp(walked + [x], p) == if x.0 == p then Some(x.1) else LastStamp(walked, p)
  {
    if walked == [] {
      assert walked + [x] == [x];
    } else {
      LastStampSnoc(walked[1..], x, p);
      assert (walked + [x])[1..] == walked[1..] + [x];
    }
  }

  /** The first walk's map holds exactly the paths met, each with the last stamp met for it. */
  lemma {:induction false} InventoryIs(walked: seq<(string, Stamp)>, p: string)
    ensures Recorded(Inventory(walked), p) == LastStamp(walked, p)
  {
    if walked != [] {
      var n := |walked| - 1;
      InventoryIs(walked[..n], p);
      LastStampSnoc(walked[..n], walked[n], p);
      assert walked[..n] + [walked[n]] == walked;
    }
  }

  // ---- scans that do not finish

  /** A failed scan never touches the snapshot or the given names. */
  lemma {:induction false} FailedScanKeepsSnapshot(cfg: Config, job: Job, w: Work)
    requires Candidates(cfg, job.visits) && !Scan(cfg, job, w).ok
    ensures Scan(cfg, job, w).w.db.snap == w.db.snap && Scan(cfg, job, w).w.db.names == w.db.names
  {
    hide VisitAll, Inventory, Current, Visible, IsStrm, Committed;
    if w.healthy > 0 && job.rootsOk {
      VisitAllTables(cfg, job.Reuse(), w.db.snap, Current(w.db.snap, Inventory(job.walked), job.scopes), job.visits, job.seen,
                     Opened(w).(healthy := w.healthy - 1));
    }
  }

  /** A walk that finds no .strm file at all, as when a mount is gone, changes nothing unless the caller allows it. */
  lemma {:induction false} EmptyWalkRefused(cfg: Config, job: Job, w: Work)
    requires job.visits == [] && !job.allowEmpty && w.db.items != map[]
    requires forall p :: p in Current(w.db.snap, Inventory(job.walked), job.scopes) ==> !IsStrm(p)
    ensures !Scan(cfg, job, w).ok && Scan(cfg, job, w).w.db == w.db
  {
    hide Inventory, Current, IsStrm, Visible, Committed;
  }

  /** Such a walk commits if and only if the caller allows it or there is nothing to lose; and then no leaf row is
      left in scope and the record is that of the walk. The three calls come before the walks, after them, and last. */
  lemma {:induction false} EmptyWalkIff(cfg: Config, job: Job, w: Work)
    requires job.visits == [] && job.rootsOk && w.healthy >= 3
    requires forall p :: p in Current(w.db.snap, Inventory(job.walked), job.scopes) ==> !IsStrm(p)
    ensures var s := Scan(cfg, job, w);
            && (s.ok <==> job.allowEmpty || w.db.items == map[])
            && (s.ok ==> s.w.db.snap == Current(w.db.snap, Inventory(job.walked), job.scopes)
                         && forall p :: p in s.w.db.items && IsLeaf(s.w.db.items[p]) ==> p in w.db.items && !InScope(p, job.scopes))
  {
    hide Inventory, Current, IsStrm, Visible, Prune, InScope;
    var current := Current(w.db.snap, Inventory(job.walked), job.scopes);
    assert Present(current) == {};
    forall p
      ensures p in Prune(w.db.items, {}, job.scopes) ==> p in w.db.items && Prune(w.db.items, {}, job.scopes)[p] == w.db.items[p]
      ensures p in w.db.items && IsLeaf(w.db.items[p]) ==> (p in Prune(w.db.items, {}, job.scopes) <==> !InScope(p, job.scopes))
    {
      PruneKeepsLeaf(w.db.items, {}, job.scopes, p);
    }
  }

  /** A scan whose directories are not all there fails and changes no table. */
  lemma {:induction false} MissingRootRefused(cfg: Config, job: Job, w: Work)
    requires Candidates(cfg, job.visits) && !job.rootsOk
    ensures !Scan(cfg, job, w).ok && Scan(cfg, job, w).w.db == w.db
  {
    hide VisitAll, Inventory, Current, Visible, IsStrm;
  }

  /** An incremental or scoped scan leaves an indexed file alone that the comparison finds unchanged, and a full scan
      never does: there the file is read again. */
  lemma {:induction false} WhatIsReread(cfg: Config, job: Job, prev: Snapshot, current: Snapshot, v: Sighting, w: Work)
    requires Candidate(cfg, v.path) && v.path in v.disk && w.healthy > 0
    ensures var s := Visit(cfg, job.Reuse(), prev, current, v, job.seen, w);
            var same := (job.incremental || job.scopes != []) && SkipTest(prev, current, v.path);
            && (same && v.path in w.db.items ==> s == Step(true, w.(healthy := w.healthy - 1)))
            && (same && v.path !in w.db.items ==> s == Refresh(cfg, v.disk, v.path, job.seen, w.(healthy := w.healthy - 1)))
            && (!same ==> s == Refresh(cfg, v.disk, v.path, job.seen, w))
  {
    hide Refresh, SkipTest, Visible, IsStrm;
  }

  /** After a file has been read again its folder rows are there: each has just been written from the disk, or was
      written by this scan before and is the folder the scan still stands in. */
  lemma {:induction false} FoldersWritten(cfg: Config, disk: Disk, path: string, place: Place, seen: string, w: Work)
    requires SaveFolders(cfg, disk, path, place, seen, w).ok
    requires place.InSeason? ==> place.season != place.series
    ensures var t := SaveFolders(cfg, disk, path, place, seen, w).w;
            && (place.InRoot? ==> t == w)
            && (!place.InRoot? ==>
                  && t.lastSeries == place.series
                  && (w.lastSeries != place.series ==> place.series in t.View() && IsWritten(w, t, place.series, SeriesRow(disk, place.series, seen))))
            && (place.InSeason? ==>
                  && t.lastSeason == place.season
                  && (w.lastSeason != place.season ==>
                        place.season in t.View() && IsWritten(w, t, place.season, SeasonRow(cfg, disk, path, place.series, place.season, seen))))
  {
    hide SeriesRow, SeasonRow, Save;
    if !place.InRoot? {
      var x := SeriesRow(disk, place.series, seen);
      SaveCases(w, place.series, x);
      var v := SaveSeries(disk, place.series, seen, w).w;
      if place.InSeason? { SaveCases(v, place.season, SeasonRow(cfg, disk, path, place.series, place.season, seen)); }
    }
  }

  /** The row at p is the one to be written, but for a name the user gave. */
  ghost predicate IsWritten(before: Work, after: Work, p: string, x: Row)
    requires p in after.View()
  {
    after.View()[p] == x || after.View()[p] == Named(before.db.names, p, x)
  }

  lemma {:induction false} SaveSucceeds(w: Work, p: string, x: Row)
    requires w.healthy >= 3
    ensures Save(w, p, x).ok && Save(w, p, x).w.healthy >= w.healthy - 3 && p in Save(w, p, x).w.View()
  {
  }

  lemma {:induction false} FoldersSucceed(cfg: Config, disk: Disk, path: string, place: Place, seen: string, w: Work)
    requires w.healthy >= 6
    ensures var s := SaveFolders(cfg, disk, path, place, seen, w); s.ok && s.w.healthy >= w.healthy - 6
  {
    hide Save, SeriesRow, SeasonRow;
    if !place.InRoot? {
      SaveSucceeds(w, place.series, SeriesRow(disk, place.series, seen));
      if place.InSeason? {
        SaveSucceeds(SaveSeries(disk, place.series, seen, w).w, place.season, SeasonRow(cfg, disk, path, place.series, place.season, seen));
      }
    }
  }

  /** With calls to spare, a file of a full scan fails if and only if it is gone or cannot be read; and if not, it has a row then. */
  lemma {:induction false} VisitSucceedsIff(cfg: Config, prev: Snapshot, current: Snapshot, v: Sighting, seen: string, w: Work)
    requires Candidate(cfg, v.path) && w.healthy >= 9
    ensures var s := Visit(cfg, false, prev, current, v, seen, w);
            && (s.ok <==> v.path in v.disk && v.disk[v.path].text.Lines?)
            && (s.ok ==> s.w.healthy >= w.healthy - 9 && v.path in s.w.View())
  {
    hide SaveFolders, Save, LeafRow, SkipTest, Visible, IsStrm, PlaceOf, Absolute;
    if v.path in v.disk {
      var place := PlaceOf(cfg, v.disk, v.path);
      FoldersSucceed(cfg, v.disk, v.path, place, seen, w);
      if v.disk[v.path].text.Lines? {
        SaveSucceeds(SaveFolders(cfg, v.disk, v.path, place, seen, w).w, v.path, LeafRow(cfg, v.disk, v.path, seen));
      }
    }
  }

  lemma {:induction false} WalkSucceedsIff(cfg: Config, prev: Snapshot, current: Snapshot, visits: seq<Sighting>, seen: string, w: Work, calls: nat)
    requires Candidates(cfg, visits) && w.healthy >= 9 * |visits| + calls
    ensures var s := VisitAll(cfg, false, prev, current, visits, seen, w);
            && (s.ok <==> forall i :: 0 <= i < |visits| ==> visits[i].path in visits[i].disk && visits[i].disk[visits[i].path].text.Lines?)
            && (s.ok ==> s.w.healthy >= calls)
  {
    hide Visit, Visible, IsStrm, Absolute;
    if visits != [] {
      VisitSucceedsIff(cfg, prev, current, visits[0], seen, w);
      var v := Visit(cfg, false, prev, current, visits[0], seen, w);
      if v.ok {
        WalkSucceedsIff(cfg, prev, current, visits[1..], seen, v.w, calls);
        assert forall i :: 1 <= i < |visits| ==> visits[i] == visits[1..][i - 1];
      }
    }
  }

  /** A full scan that finds a .strm file, with calls to spare, succeeds if and only if its directories are there and every
      file it visits is still there and can be read. */
  lemma {:induction false} FullScanSucceedsIff(cfg: Config, job: Job, w: Work)
    requires Candidates(cfg, job.visits) && !job.incremental && job.scopes == [] && w.healthy >= 9 * |job.visits| + 4
    requires exists p :: p in Inventory(job.walked) && IsStrm(p)
    ensures Scan(cfg, job, w).ok <==>
              job.rootsOk && forall i :: 0 <= i < |job.visits| ==>
                job.visits[i].path in job.visits[i].disk && job.visits[i].disk[job.visits[i].path].text.Lines?
  {
    hide VisitAll, Inventory, Visible, IsStrm, Absolute, Finish;
    if job.rootsOk {
      assert Opened(w).healthy == w.healthy;
      WholeUnfolded(cfg, job, w);
      WalkSucceedsIff(cfg, w.db.snap, Inventory(job.walked), job.visits, job.seen, Opened(w).(healthy := w.healthy - 1), 3);
      var s := VisitAll(cfg, false, w.db.snap, Inventory(job.walked), job.visits, job.seen, Opened(w).(healthy := w.healthy - 1));
      if s.ok { FinishSucceeds(s.w, Inventory(job.walked), job.allowEmpty); }
    }
  }

  lemma {:induction false} FinishSucceeds(w: Work, current: Snapshot, allowEmpty: bool)
    requires w.healthy >= 3 && exists p :: p in current && IsStrm(p)
    ensures Finish(w, current, allowEmpty, []).ok
  {
    hide Committed, IsStrm;
    var p :| p in current && IsStrm(p);
    assert p in Present(current);
  }

  /** No transaction ever holds 500 rows: the write that would make it so commits it. */
  lemma {:induction false} BatchesAreBounded(w: Work, p: string, x: Row)
    requires w.batch < 500 && (w.tx.None? ==> w.batch == 0) && Save(w, p, x).ok
    ensures var s := Save(w, p, x).w;
            && s.batch < 500 && (s.tx.None? ==> s.batch == 0)
            && (s.tx.None? <==> w.batch == 499) && (s.tx.None? ==> s.db.items == Upsert(w.View(), w.db.names, p, x))
  {
  }
}
