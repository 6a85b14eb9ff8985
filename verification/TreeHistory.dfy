/** The folder tree over whole histories, and the deletion during a scan that breaks it. */
module TreeHistory {
  import opened Basics
  import opened Paths
  import opened Leaves
  import opened Snapshots
  import opened Scanner
  import opened ScanSteps
  import opened ScanTree
  import opened ScanHistory

  /** Committed rows and open transaction form trees, and a running scan's cursors name rows that are there. */
  ghost predicate TreeOk(role: Role, s: World) {
    TreeWork(role, s.w) && (if s.pass.Some? then Cursors(s.w) else s.w.tx.None?)
  }

  /** A deletion leaves no row whose parent it takes. */
  ghost predicate KeepsParents(items: Items, paths: set<string>) {
    forall p :: p in items && p !in paths && items[p].parent.Folder? ==> items[p].parent.path !in paths
  }

  /** Files fit the roles; a deletion takes folders with their children, in an open transaction too, and not the
      folders that a running scan stands in. */
  ghost predicate Fits(role: Role, cfg: Config, s: World, e: Event) {
    match e
    case VisitOne(path) => Candidate(cfg, path) ==> VisitFits(role, cfg, Sighting(path, s.disk))
    case Remove(paths) =>
      && KeepsParents(s.w.db.items, paths) && KeepsParents(s.w.View(), paths)
      && (s.pass.Some? ==> s.w.lastSeries !in paths && s.w.lastSeason !in paths)
    case _ => true
  }

  /** A deletion leaves a tree if and only if it leaves no row whose parent it takes. */
  lemma {:induction false} RemovalLeavesTreeIff(role: Role, items: Items, paths: set<string>)
    requires Tree(role, items)
    ensures Tree(role, items - paths) <==> KeepsParents(items, paths)
  {
    var d := items - paths;
    if KeepsParents(items, paths) {
      forall p | p in d
        ensures d[p].kind in role(p) && ParentFits(role, d, p, d[p])
      {
        assert ParentFits(role, items, p, items[p]);
      }
    }
    if Tree(role, d) {
      forall p | p in items && p !in paths && items[p].parent.Folder?
        ensures items[p].parent.path !in paths
      {
        assert p in d && ParentFits(role, d, p, d[p]);
      }
    }
  }

  lemma {:induction false} GivenTree(role: Role, items: Items, path: string, name: string)
    requires Tree(role, items) && path in items
    ensures Tree(role, Given(items, path, name))
  {
    var d := Given(items, path, name);
    forall p | p in d
      ensures d[p].kind in role(p) && ParentFits(role, d, p, d[p])
    {
      assert ParentFits(role, items, p, items[p]);
    }
  }

  lemma {:induction false} FinishTree(role: Role, w: Work, current: Snapshot, allowEmpty: bool, scopes: seq<string>)
    requires TreeWork(role, w)
    ensures Tree(role, Finish(w, current, allowEmpty, scopes).w.db.items)
  {
    hide Tree, Finish, Prune, Present, Populated, SeasonsHold, DropMissing;
    FinishCases(w, current, allowEmpty, scopes);
    PrunePopulates(role, w.View(), Present(current), scopes);
  }

  /** Every event that fits keeps the tree. */
  lemma {:induction false} StepKeepsTree(role: Role, cfg: Config, files: Files, s: World, e: Event)
    requires ValidConfig(cfg) && Legal(cfg, files, s, e) && Fits(role, cfg, s, e) && TreeOk(role, s)
    ensures TreeOk(role, Next(cfg, s, e))
  {
    hide Visit, Finish, Tree, Visible, IsStrm, SkipTest, InScope, Written, Unconfirmed, Lost, Reverted, ValidConfig, Possible, KeepsParents, VisitFits, ScopesOk, AllAbsolute;
    match e
    case Rename(path, name) =>
      GivenTree(role, s.w.db.items, path, name);
      GivenTree(role, s.w.View(), path, name);
      assert Next(cfg, s, e).w.View() == Given(s.w.View(), path, name);
    case Remove(paths) =>
      RemovalLeavesTreeIff(role, s.w.db.items, paths);
      RemovalLeavesTreeIff(role, s.w.View(), paths);
      assert Next(cfg, s, e).w.View() == s.w.View() - paths;
    case VisitOne(path) =>
      var p := s.pass.value;
      VisitTree(role, cfg, p.reuse, s.w.db.snap, p.current, Sighting(path, s.disk), p.seen, s.w);
    case FinishPass => FinishTree(role, s.w, s.pass.value.current, s.pass.value.allowEmpty, s.pass.value.scopes);
    case _ =>
  }

  ghost predicate FittingRun(role: Role, cfg: Config, files: Files, s: World, events: seq<Event>)
    requires LegalRun(cfg, files, s, events)
    decreases |events|
  {
    events == [] || (Fits(role, cfg, s, events[0]) && FittingRun(role, cfg, files, Next(cfg, s, events[0]), events[1..]))
  }

  lemma {:induction false} RunKeepsTree(role: Role, cfg: Config, files: Files, s: World, events: seq<Event>)
    requires ValidConfig(cfg) && LegalRun(cfg, files, s, events) && FittingRun(role, cfg, files, s, events) && TreeOk(role, s)
    ensures TreeOk(role, Run(cfg, files, s, events))
    decreases |events|
  {
    hide Next, Fits, ValidConfig, TreeOk, Possible, Visible, IsStrm, ScopesOk, AllAbsolute, InScope;
    if events != [] {
      StepKeepsTree(role, cfg, files, s, events[0]);
      RunKeepsTree(role, cfg, files, Next(cfg, s, events[0]), events[1..]);
    }
  }

  /** At every moment of every fitting history from an empty index, each row of the committed table and of an open
      transaction hangs below the library through folder rows that are there and lie above it. */
  lemma {:induction false} TreeAfterAnyHistory(role: Role, cfg: Config, files: Files, disk: Disk, healthy: nat, events: seq<Event>)
    requires ValidConfig(cfg) && LegalRun(cfg, files, Empty(disk, healthy), events)
    requires FittingRun(role, cfg, files, Empty(disk, healthy), events)
    ensures var s := Run(cfg, files, Empty(disk, healthy), events); Tree(role, s.w.db.items) && Tree(role, s.w.View())
  {
    assert TreeOk(role, Empty(disk, healthy));
    hide LegalRun, FittingRun, Run, ValidConfig, Tree;
    RunKeepsTree(role, cfg, files, Empty(disk, healthy), events);
  }

  // ---- a folder deleted under a running scan

  /** A user deletes the series that a running full scan stands in: the next file of that series is saved below a
      row that is no longer there, so the tree is broken whatever the roles. */
  lemma {:induction false} DeletedSeriesOrphans(role: Role, cfg: Config, files: Files, s: World, paths: set<string>, path: string)
    requires s.pass.Some? && !s.pass.value.reuse && Legal(cfg, files, s, Remove(paths)) && s.w.lastSeries in paths
    requires Candidate(cfg, path) && path in s.disk && PlaceOf(cfg, s.disk, path) == InSeries(s.w.lastSeries) && path != s.w.lastSeries
    requires NextVisit(cfg, Next(cfg, s, Remove(paths)), path, s.pass.value).pass.Some?
    ensures var t := NextVisit(cfg, Next(cfg, s, Remove(paths)), path, s.pass.value).w.View();
            && path in t && t[path].parent == Folder(s.w.lastSeries) && s.w.lastSeries !in t
            && !Tree(role, t)
  {
    hide Visible, IsStrm, PlaceOf, LeafRow, SkipTest, Written, Save, Possible, InScope, Absolute;
    var r := Next(cfg, s, Remove(paths));
    var p := s.pass.value;
    assert r.w.View() == s.w.View() - paths;
    var x := LeafRow(cfg, s.disk, path, p.seen);
    LeafRowShape(cfg, s.disk, path, p.seen);
    assert Visit(cfg, p.reuse, r.w.db.snap, p.current, Sighting(path, r.disk), p.seen, r.w) == Save(r.w, path, x);
    SaveCases(r.w, path, x);
    var t := Save(r.w, path, x).w.View();
    assert ParentFits(role, t, path, t[path]) ==> s.w.lastSeries in t;
  }
}
