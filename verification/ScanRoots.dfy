/** Histories in which the library's directories change as well. */
module ScanRoots {
  import opened Basics
  import opened Paths
  import opened Leaves
  import opened Snapshots
  import opened Scanner
  import opened ScanSteps
  import opened ScanExact
  import opened ScanTheorems
  import opened ScanTree
  import opened ScanHistory

  // ---- every row has a root

  predicate HasRoot(cfg: Config, p: string) { exists r :: r in cfg.roots && Under(p, r) }

  /** No table and no open transaction holds a row outside the library's directories. */
  ghost predicate Rooted(cfg: Config, w: Work) {
    forall p :: !HasRoot(cfg, p) ==> Kept(w, p, None)
  }

  lemma {:induction false} VisitRooted(cfg: Config, reuse: bool, prev: Snapshot, current: Snapshot, v: Sighting, seen: string, w: Work)
    requires ValidConfig(cfg) && Candidate(cfg, v.path) && Rooted(cfg, w)
    ensures Rooted(cfg, Visit(cfg, reuse, prev, current, v, seen, w).w)
  {
    hide Visit, Kept, IsStrm, HiddenDir;
    forall q | !HasRoot(cfg, q)
      ensures Kept(Visit(cfg, reuse, prev, current, v, seen, w).w, q, None)
    {
      VisitKept(cfg, reuse, prev, current, v, seen, w, q, None);
    }
  }

  lemma {:induction false} FinishRooted(cfg: Config, w: Work, current: Snapshot, allowEmpty: bool, scopes: seq<string>)
    requires Rooted(cfg, w)
    ensures Rooted(cfg, Finish(w, current, allowEmpty, scopes).w)
  {
    FinishCases(w, current, allowEmpty, scopes);
    var f := Finish(w, current, allowEmpty, scopes).w;
    hide Finish, Committed, HasRoot;
    forall q | !HasRoot(cfg, q)
      ensures Kept(f, q, None)
    {
      assert Kept(w, q, None);
      if q in f.db.items && f.db == Committed(w.db.(items := w.View()), current, scopes) {
        CommittedSubset(w.db.(items := w.View()), current, scopes, q);
      }
    }
  }

  lemma {:induction false} StepRooted(cfg: Config, files: Files, s: World, e: Event)
    requires ValidConfig(cfg) && Legal(cfg, files, s, e) && Rooted(cfg, s.w)
    ensures Rooted(cfg, Next(cfg, s, e).w)
  {
    hide Visit, Finish, HasRoot, Visible, IsStrm, SkipTest, InScope, Written, Unconfirmed, Lost, Reverted, ValidConfig, Possible;
    match e
    case VisitOne(path) =>
      VisitRooted(cfg, s.pass.value.reuse, s.w.db.snap, s.pass.value.current, Sighting(path, s.disk), s.pass.value.seen, s.w);
    case FinishPass => FinishRooted(cfg, s.w, s.pass.value.current, s.pass.value.allowEmpty, s.pass.value.scopes);
    case _ =>
  }

  lemma {:induction false} RunRooted(cfg: Config, files: Files, s: World, events: seq<Event>)
    requires ValidConfig(cfg) && LegalRun(cfg, files, s, events) && Rooted(cfg, s.w)
    ensures Rooted(cfg, Run(cfg, files, s, events).w)
    decreases |events|
  {
    hide Next, ValidConfig, Rooted, Possible, Visible, IsStrm, ScopesOk, AllAbsolute, InScope;
    if events != [] {
      StepRooted(cfg, files, s, events[0]);
      RunRooted(cfg, files, Next(cfg, s, events[0]), events[1..]);
    }
  }

  // ---- other directories

  /** Adding directories leaves the rows alone; taking one away deletes the rows at or below it. */
  predicate Dropped(before: Config, after: Config, p: string) {
    exists r :: r in before.roots && r !in after.roots && Under(p, r)
  }

  function Rerooted(s: World, cfg: Config, cfg': Config): World {
    s.(w := s.w.(db := s.w.db.(items := map p | p in s.w.db.items && !Dropped(cfg, cfg', p) :: s.w.db.items[p],
                               names := map p | p in s.w.db.names && !Dropped(cfg, cfg', p) :: s.w.db.names[p])))
  }

  ghost predicate Change(cfg: Config, cfg': Config) {
    ValidConfig(cfg) && ValidConfig(cfg') && cfg.tv == cfg'.tv
  }

  lemma {:induction false} SameRoot(cfg: Config, cfg': Config, p: string)
    requires Change(cfg, cfg') && HasRoot(cfg, p) && !Dropped(cfg, cfg', p)
    ensures Root(cfg, p) == Root(cfg', p) && Root(cfg, p) in cfg.roots && Root(cfg, p) in cfg'.roots
  {
    var r :| r in cfg.roots && Under(p, r);
    RootIsUnique(cfg, p, r);
    RootIsUnique(cfg', p, r);
  }

  lemma {:induction false} SamePlace(cfg: Config, cfg': Config, disk: Disk, p: string)
    requires Change(cfg, cfg') && HasRoot(cfg, p) && !Dropped(cfg, cfg', p)
    ensures Candidate(cfg, p) == Candidate(cfg', p)
    ensures forall q :: Input(cfg, p, q) == Input(cfg', p, q)
    ensures Candidate(cfg, p) && p in disk && disk[p].text.Lines? ==> LeafRow(cfg, disk, p, "") == LeafRow(cfg', disk, p, "")
  {
    SameRoot(cfg, cfg', p);
    hide IsStrm, Root, HiddenDir, LeafRow;
    if Candidate(cfg, p) && p in disk && disk[p].text.Lines? { SameRow(cfg, cfg', disk, p); }
  }

  lemma {:induction false} SameRow(cfg: Config, cfg': Config, disk: Disk, p: string)
    requires cfg.tv == cfg'.tv && Visible(cfg, p) && Visible(cfg', p) && Root(cfg, p) == Root(cfg', p)
    requires p in disk && disk[p].text.Lines?
    ensures LeafRow(cfg, disk, p, "") == LeafRow(cfg', disk, p, "")
  {
    assert PlaceOf(cfg, disk, p) == PlaceOf(cfg', disk, p) by { hide SeriesDirectory, HiddenDir, Dir; }
    hide LocalInfo, Visible, PlaceOf, EpisodeTag, Stem, Base, SeasonNumber, FirstUrl;
  }

  lemma {:induction false} RerootedTrustAt(cfg: Config, cfg': Config, db: Tables, snap: Snapshot, disk: Disk, t: Tables, p: string)
    requires Change(cfg, cfg') && (p in db.items ==> HasRoot(cfg, p))
    requires t.items == map p | p in db.items && !Dropped(cfg, cfg', p) :: db.items[p]
    requires t.names == map p | p in db.names && !Dropped(cfg, cfg', p) :: db.names[p]
    requires TrustAt(cfg, db.names, snap, disk, db.items, p)
    ensures TrustAt(cfg', t.names, snap, disk, t.items, p)
  {
    hide Dropped, HasRoot, Visible, IsStrm, LeafRow, Input;
    if p in t.items && Candidate(cfg', p) && Settled(cfg', snap, disk, p) {
      SamePlace(cfg, cfg', disk, p);
      assert Settled(cfg, snap, disk, p);
    }
  }

  /** A change of directories between scans keeps the invariant, for the new configuration. */
  lemma {:induction false} RootsKeep(cfg: Config, cfg': Config, files: Files, s: World)
    requires Inv(cfg, files, s) && s.pass.None? && Rooted(cfg, s.w) && Change(cfg, cfg')
    ensures Inv(cfg', files, Rerooted(s, cfg, cfg')) && Rooted(cfg', Rerooted(s, cfg, cfg').w)
  {
    hide TrustAt, Dropped, HasRoot, Possible, ValidConfig, AllAbsolute, IsStrm, PassOk;
    var t := Rerooted(s, cfg, cfg');
    assert s.w.tx.None? && s.w.View() == s.w.db.items && s.w.db.(items := s.w.View()) == s.w.db;
    assert t.w.View() == t.w.db.items && t.w.db.(items := t.w.View()) == t.w.db;
    forall p | p in s.w.db.items
      ensures HasRoot(cfg, p)
    {
      assert !HasRoot(cfg, p) ==> Kept(s.w, p, None);
    }
    forall p, snap: Snapshot, d: Disk | TrustAt(cfg, s.w.db.names, snap, d, s.w.db.items, p)
      ensures TrustAt(cfg', t.w.db.names, snap, d, t.w.db.items, p)
    {
      RerootedTrustAt(cfg, cfg', s.w.db, snap, d, t.w.db, p);
    }
    assert ValidConfig(cfg');
    forall p | !HasRoot(cfg', p)
      ensures Kept(t.w, p, None)
    {
      if p in t.w.db.items {
        SameRoot(cfg, cfg', p);
        StillRooted(cfg, cfg', p);
      }
    }
  }

  lemma {:induction false} StillRooted(cfg: Config, cfg': Config, p: string)
    requires HasRoot(cfg, p) && !Dropped(cfg, cfg', p)
    ensures HasRoot(cfg', p)
  {
    var r :| r in cfg.roots && Under(p, r);
  }

  // ---- histories

  /** What happens while the library's directories stay the same. */
  datatype Epoch = Epoch(cfg: Config, events: seq<Event>)

  ghost predicate LegalHistory(files: Files, s: World, epochs: seq<Epoch>)
    requires epochs != []
    decreases |epochs|
  {
    && LegalRun(epochs[0].cfg, files, s, epochs[0].events)
    && (|epochs| > 1 ==>
          var t := Run(epochs[0].cfg, files, s, epochs[0].events);
          && t.pass.None? && Change(epochs[0].cfg, epochs[1].cfg)
          && LegalHistory(files, Rerooted(t, epochs[0].cfg, epochs[1].cfg), epochs[1..]))
  }

  ghost function Outcome(files: Files, s: World, epochs: seq<Epoch>): World
    requires epochs != [] && LegalHistory(files, s, epochs)
    decreases |epochs|
  {
    var t := Run(epochs[0].cfg, files, s, epochs[0].events);
    if |epochs| == 1 then t else Outcome(files, Rerooted(t, epochs[0].cfg, epochs[1].cfg), epochs[1..])
  }

  lemma {:induction false} InvConfig(cfg: Config, files: Files, s: World)
    requires Inv(cfg, files, s)
    ensures ValidConfig(cfg)
  {
    hide ValidConfig, Possible, Sound, Firm, PassOk, AllAbsolute, AllStrm;
  }

  lemma {:induction false} EpochKeeps(files: Files, s: World, e: Epoch)
    requires Inv(e.cfg, files, s) && Rooted(e.cfg, s.w) && LegalRun(e.cfg, files, s, e.events)
    ensures Inv(e.cfg, files, Run(e.cfg, files, s, e.events)) && Rooted(e.cfg, Run(e.cfg, files, s, e.events).w)
  {
    hide Inv, Rooted, LegalRun, Run, ValidConfig;
    InvConfig(e.cfg, files, s);
    RunKeeps(e.cfg, files, s, e.events);
    RunRooted(e.cfg, files, s, e.events);
  }

  lemma {:induction false} HistoryKeeps(files: Files, s: World, epochs: seq<Epoch>)
    requires epochs != [] && LegalHistory(files, s, epochs)
    requires Inv(epochs[0].cfg, files, s) && Rooted(epochs[0].cfg, s.w)
    ensures var cfg := epochs[|epochs| - 1].cfg; Inv(cfg, files, Outcome(files, s, epochs)) && Rooted(cfg, Outcome(files, s, epochs).w)
    decreases |epochs|
  {
    hide Inv, Rooted, LegalRun, Run, Change, Rerooted;
    EpochKeeps(files, s, epochs[0]);
    if |epochs| > 1 {
      var t := Run(epochs[0].cfg, files, s, epochs[0].events);
      var rest := epochs[1..];
      assert rest[0] == epochs[1] && rest[|rest| - 1] == epochs[|epochs| - 1];
      RootsKeep(epochs[0].cfg, rest[0].cfg, files, t);
      HistoryKeeps(files, Rerooted(t, epochs[0].cfg, rest[0].cfg), rest);
    }
  }

  /** The incremental scan after a history in which directories were added, replaced and removed between scans. */
  lemma {:induction false} FastScanAcrossRootChanges(files: Files, disk: Disk, healthy: nat, epochs: seq<Epoch>, fast: Job, slow: Job)
    requires epochs != [] && ValidConfig(epochs[0].cfg) && Possible(files, disk) && LegalHistory(files, Empty(disk, healthy), epochs)
    requires var s, cfg := Outcome(files, Empty(disk, healthy), epochs), epochs[|epochs| - 1].cfg;
             && s.pass.None? && StillJob(cfg, s.disk, fast) && StillJob(cfg, s.disk, slow)
             && fast.scopes == slow.scopes == [] && fast.incremental && !slow.incremental
             && Scan(cfg, fast, s.w).ok && Scan(cfg, slow, s.w).ok
    ensures var s, cfg := Outcome(files, Empty(disk, healthy), epochs), epochs[|epochs| - 1].cfg;
            var done, full := Scan(cfg, fast, s.w).w.db, Scan(cfg, slow, s.w).w.db;
            && (forall p :: p in s.disk && Candidate(cfg, p) && p !in s.lost ==> Right(cfg, done.names, s.disk, done.items, p))
            && (Exact(cfg, done, s.disk) <==> LostAreRight(cfg, fast, s, done.snap))
            && (Exact(cfg, done, s.disk) <==> SameLeaves(done.items, full.items))
            && done.snap == full.snap && Exact(cfg, full, s.disk)
  {
    InitInv(epochs[0].cfg, files, disk, healthy);
    assert Rooted(epochs[0].cfg, Empty(disk, healthy).w);
    hide Inv, LegalHistory, Outcome, Scan, Exact, SameLeaves, Visible, IsStrm, Inventory, Proper, Possible, Right, LostAreRight, Rooted;
    HistoryKeeps(files, Empty(disk, healthy), epochs);
    FastScanFrom(epochs[|epochs| - 1].cfg, files, Outcome(files, Empty(disk, healthy), epochs), fast, slow);
  }
}
