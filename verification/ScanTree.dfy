/** The shape of the index: what scoped scans leave alone, and the folder tree at every commit. */
module ScanTree {
  import opened Basics
  import opened Paths
  import opened Leaves
  import opened Snapshots
  import opened Scanner
  import opened ScanSteps
  import opened ScanExact

  // ---- rows a scan does not touch

  /** Committed or not, the row at q is r. */
  predicate Kept(w: Work, q: string, r: Option<Row>) {
    Find(w.db.items, q) == r && Find(w.View(), q) == r
  }

  lemma {:induction false} SaveKept(w: Work, p: string, x: Row, q: string, r: Option<Row>)
    requires q != p && Kept(w, q, r)
    ensures Kept(Save(w, p, x).w, q, r) && Save(w, p, x).w.db.snap == w.db.snap
  {
    hide Save;
    SaveCases(w, p, x);
  }

  lemma {:induction false} SaveFoldersKept(cfg: Config, disk: Disk, path: string, place: Place, seen: string, w: Work, q: string, r: Option<Row>)
    requires Kept(w, q, r)
    requires match place
             case InRoot => true
             case InSeries(s) => q != s
             case InSeason(s, n) => q != s && q != n
    ensures var s := SaveFolders(cfg, disk, path, place, seen, w).w; Kept(s, q, r) && s.db.snap == w.db.snap
  {
    hide Save, SeriesRow, SeasonRow;
    if !place.InRoot? {
      SaveKept(w, place.series, SeriesRow(disk, place.series, seen), q, r);
      if place.InSeason? {
        SaveKept(SaveSeries(disk, place.series, seen, w).w, place.season,
                 SeasonRow(cfg, disk, path, place.series, place.season, seen), q, r);
      }
    }
  }

  /** A visit touches only its file and folders above it, none of them above the root. */
  lemma {:induction false} VisitKept(cfg: Config, reuse: bool, prev: Snapshot, current: Snapshot, v: Sighting, seen: string, w: Work, q: string, r: Option<Row>)
    requires ValidConfig(cfg) && Candidate(cfg, v.path) && Kept(w, q, r)
    requires !Under(v.path, q) || !Under(q, Root(cfg, v.path))
    ensures var s := Visit(cfg, reuse, prev, current, v, seen, w).w; Kept(s, q, r) && s.db.snap == w.db.snap
  {
    hide SaveFolders, Save, LeafRow, SkipTest, Visible, IsStrm, PlaceOf, ValidConfig, Root;
    var place := PlaceOf(cfg, v.disk, v.path);
    FoldersAreAbove(cfg, v.disk, v.path);
    SeasonUnderRoot(cfg, v.disk, v.path);
    var w1 := if reuse && SkipTest(prev, current, v.path) && w.healthy > 0 then w.(healthy := w.healthy - 1) else w;
    SaveFoldersKept(cfg, v.disk, v.path, place, seen, w1, q, r);
    if v.path in v.disk && v.disk[v.path].text.Lines? {
      var f := SaveFolders(cfg, v.disk, v.path, place, seen, w1);
      SaveKept(f.w, v.path, LeafRow(cfg, v.disk, v.path, seen), q, r);
    }
  }

  lemma {:induction false} SeasonUnderRoot(cfg: Config, disk: Disk, path: string)
    requires ValidConfig(cfg) && Visible(cfg, path)
    ensures Under(path, Root(cfg, path))
    ensures var place := PlaceOf(cfg, disk, path); place.InSeason? ==> Under(place.season, Root(cfg, path))
  {
    RootFacts(cfg, path);
  }

  lemma {:induction false} VisitAllKept(cfg: Config, reuse: bool, prev: Snapshot, current: Snapshot, visits: seq<Sighting>, seen: string, w: Work, q: string, r: Option<Row>)
    requires ValidConfig(cfg) && Candidates(cfg, visits) && Kept(w, q, r)
    requires forall i :: 0 <= i < |visits| ==> !Under(visits[i].path, q)
    ensures var s := VisitAll(cfg, reuse, prev, current, visits, seen, w).w; Kept(s, q, r) && s.db.snap == w.db.snap
  {
    hide Visit, Visible, IsStrm, ValidConfig, Kept;
    if visits != [] {
      VisitKept(cfg, reuse, prev, current, visits[0], seen, w, q, r);
      var v := Visit(cfg, reuse, prev, current, visits[0], seen, w);
      if v.ok { VisitAllKept(cfg, reuse, prev, current, visits[1..], seen, v.w, q, r); }
    }
  }

  lemma {:induction false} FinishKept(w: Work, current: Snapshot, allowEmpty: bool, scopes: seq<string>, q: string, r: Option<Row>)
    requires Kept(w, q, r) && !InScope(q, scopes) && (r.Some? ==> IsLeaf(r.value))
    requires Recorded(current, q) == Recorded(w.db.snap, q)
    ensures var s := Finish(w, current, allowEmpty, scopes).w;
            Find(s.db.items, q) == r && Recorded(s.db.snap, q) == Recorded(w.db.snap, q)
  {
    hide Prune, InScope, CommitAllowed;
    PruneKeepsLeaf(w.View(), Present(current), scopes, q);
  }

  /** A scoped scan, finished or failed, over a still or a changing disk, changes no leaf row and no snapshot
      entry outside its scopes, unless a file it visits lies below the place of that row. */
  lemma {:induction false} ScopedFrame(cfg: Config, job: Job, w: Work, q: string)
    requires ValidConfig(cfg) && Candidates(cfg, job.visits) && job.scopes != [] && !WithinScopes(q, job.scopes)
    requires q in w.db.items ==> IsLeaf(w.db.items[q])
    requires forall i :: 0 <= i < |job.visits| ==> !Under(job.visits[i].path, q)
    requires forall x :: x in Inventory(job.walked) ==> WithinScopes(x, job.scopes)
    ensures var done := Scan(cfg, job, w).w.db;
            Find(done.items, q) == Find(w.db.items, q) && Recorded(done.snap, q) == Recorded(w.db.snap, q)
  {
    hide VisitAll, Finish, Visible, IsStrm, Inventory, WithinScopes;
    var r := Find(w.db.items, q);
    var current := Current(w.db.snap, Inventory(job.walked), job.scopes);
    if w.healthy > 0 && job.rootsOk {
      VisitAllKept(cfg, job.Reuse(), w.db.snap, current, job.visits, job.seen, Opened(w).(healthy := w.healthy - 1), q, r);
      var s := VisitAll(cfg, job.Reuse(), w.db.snap, current, job.visits, job.seen, Opened(w).(healthy := w.healthy - 1));
      FinishKept(s.w, current, job.allowEmpty, job.scopes, q, r);
    }
  }

  // ---- the folder tree

  /** The kinds a path may have: a directory is a series, a season, or each at times, but never also a file. */
  type Role = string -> set<Kind>

  const FOLDER := {Series, Season}

  ghost predicate ParentFits(role: Role, items: Items, p: string, x: Row) {
    match x.parent
    case Library => x.kind != Season
    case Folder(f) => f in items && Below(p, f) && x.kind != Series
                      && role(f) <= FOLDER && (x.kind == Season ==> Series in role(f))
  }

  /** Every row has a kind its path may have, and its parent is the library or a row above it that may hold it. */
  ghost predicate Tree(role: Role, items: Items) {
    forall p :: p in items ==> items[p].kind in role(p) && ParentFits(role, items, p, items[p])
  }

  ghost predicate TreeWork(role: Role, w: Work) {
    Tree(role, w.db.items) && Tree(role, w.View()) && w.db.items.Keys <= w.View().Keys
  }

  lemma {:induction false} UpsertTree(role: Role, items: Items, names: map<string, string>, p: string, x: Row)
    requires Tree(role, items) && x.kind in role(p) && ParentFits(role, items, p, x)
    ensures Tree(role, Upsert(items, names, p, x))
  {
    var u := Upsert(items, names, p, x);
    forall q | q in u
      ensures u[q].kind in role(q) && ParentFits(role, u, q, u[q])
    {
      if q != p { assert ParentFits(role, items, q, items[q]); }
    }
  }

  lemma {:induction false} SaveTree(role: Role, w: Work, p: string, x: Row)
    requires TreeWork(role, w) && x.kind in role(p) && ParentFits(role, w.View(), p, x)
    ensures var s := Save(w, p, x);
            && TreeWork(role, s.w) && s.w.db.snap == w.db.snap
            && (s.ok ==> w.View().Keys + {p} <= s.w.View().Keys)
            && s.w.lastSeries == w.lastSeries && s.w.lastSeason == w.lastSeason
  {
    hide Save, Tree, ParentFits;
    SaveCases(w, p, x);
    UpsertTree(role, w.View(), w.db.names, p, x);
  }

  /** The walk's cursors name folder rows it has written itself. */
  ghost predicate Cursors(w: Work) {
    && (w.lastSeries != "" ==> w.lastSeries in w.View())
    && (w.lastSeason != "" ==> w.lastSeason in w.View())
  }

  ghost predicate PlaceFits(role: Role, path: string, place: Place) {
    match place
    case InRoot => true
    case InSeries(s) => Series in role(s) && role(s) <= FOLDER && Below(path, s) && s != ""
    case InSeason(s, n) => Series in role(s) && Season in role(n) && role(s) + role(n) <= FOLDER && Below(n, s) && Below(path, n) && s != "" && n != ""
  }

  lemma {:induction false} SeriesRowShape(disk: Disk, series: string, seen: string)
    ensures SeriesRow(disk, series, seen).kind == Series && SeriesRow(disk, series, seen).parent == Library
  {
    hide FirstNfo, FirstPresent, NfoNames, PosterNames;
  }

  lemma {:induction false} SeasonRowShape(cfg: Config, disk: Disk, path: string, series: string, season: string, seen: string)
    ensures var x := SeasonRow(cfg, disk, path, series, season, seen); x.kind == Season && x.parent == Folder(series)
  {
    hide FirstNfo, FirstPresent, NfoNames, PosterNames, SeasonNumber, FileSeason;
  }

  lemma {:induction false} LeafRowShape(cfg: Config, disk: Disk, path: string, seen: string)
    requires Candidate(cfg, path) && path in disk && disk[path].text.Lines?
    ensures var x := LeafRow(cfg, disk, path, seen);
            x.kind == (if cfg.tv then Episode else Movie) && x.parent == ParentOf(PlaceOf(cfg, disk, path))
  {
    hide FirstNfo, FirstPresent, NfoNames, PosterNames, SeasonNumber, FileSeason, Visible, PlaceOf, EpisodeTag, IsStrm, Base, Stem;
  }

  lemma {:induction false} SaveFoldersTree(role: Role, cfg: Config, disk: Disk, path: string, place: Place, seen: string, w: Work)
    requires TreeWork(role, w) && Cursors(w) && PlaceFits(role, path, place)
    ensures var s := SaveFolders(cfg, disk, path, place, seen, w);
            && TreeWork(role, s.w) && s.w.db.snap == w.db.snap
            && (s.ok ==> Cursors(s.w) && match place
                                        case InRoot => true
                                        case InSeries(f) => f in s.w.View()
                                        case InSeason(_, f) => f in s.w.View())
  {
    hide Save, SeriesRow, SeasonRow, Tree;
    if !place.InRoot? {
      var x := SeriesRow(disk, place.series, seen);
      SeriesRowShape(disk, place.series, seen);
      SaveTree(role, w, place.series, x);
      var v := SaveSeries(disk, place.series, seen, w);
      assert TreeWork(role, v.w) && (v.ok ==> Cursors(v.w) && place.series in v.w.View());
      if v.ok && place.InSeason? {
        var y := SeasonRow(cfg, disk, path, place.series, place.season, seen);
        SeasonRowShape(cfg, disk, path, place.series, place.season, seen);
        SaveTree(role, v.w, place.season, y);
      }
    }
  }

  /** What a file's visit asks of the roles: its own, its series directory's and its season directory's. */
  ghost predicate VisitFits(role: Role, cfg: Config, v: Sighting)
    requires Candidate(cfg, v.path)
  {
    && (if cfg.tv then Episode else Movie) in role(v.path)
    && match PlaceOf(cfg, v.disk, v.path)
       case InRoot => true
       case InSeries(s) => Series in role(s) && role(s) <= FOLDER
       case InSeason(s, n) => Series in role(s) && Season in role(n) && role(s) + role(n) <= FOLDER
  }

  lemma {:induction false} PlaceFitsVisit(role: Role, cfg: Config, v: Sighting)
    requires ValidConfig(cfg) && Candidate(cfg, v.path) && VisitFits(role, cfg, v)
    ensures PlaceFits(role, v.path, PlaceOf(cfg, v.disk, v.path))
  {
    hide Visible, IsStrm, PlaceOf;
    FoldersAreAbove(cfg, v.disk, v.path);
    FoldersAreNamed(cfg, v.disk, v.path);
  }

  lemma {:induction false} FoldersAreNamed(cfg: Config, disk: Disk, path: string)
    requires ValidConfig(cfg) && Visible(cfg, path)
    ensures match PlaceOf(cfg, disk, path)
            case InRoot => true
            case InSeries(s) => s != ""
            case InSeason(s, n) => s != "" && n != ""
  {
    if !PlaceOf(cfg, disk, path).InRoot? {
      RootFacts(cfg, path);
      SeriesFromNamed(disk, Root(cfg, path), Dir(path));
    }
  }

  lemma {:induction false} SeriesFromNamed(disk: Disk, root: string, p: string)
    ensures SeriesFrom(disk, root, p).Some? ==> SeriesFrom(disk, root, p).value != ""
    decreases |p|
  {
    if p != root && LastSlash(p) > 0 { SeriesFromNamed(disk, root, Dir(p)); }
  }

  lemma {:induction false} VisitTree(role: Role, cfg: Config, reuse: bool, prev: Snapshot, current: Snapshot, v: Sighting, seen: string, w: Work)
    requires ValidConfig(cfg) && Candidate(cfg, v.path) && VisitFits(role, cfg, v) && TreeWork(role, w) && Cursors(w)
    ensures var s := Visit(cfg, reuse, prev, current, v, seen, w);
            TreeWork(role, s.w) && s.w.db.snap == w.db.snap && (s.ok ==> Cursors(s.w))
  {
    hide SaveFolders, Save, LeafRow, SkipTest, Visible, IsStrm, PlaceOf, ValidConfig, Tree;
    PlaceFitsVisit(role, cfg, v);
    var place := PlaceOf(cfg, v.disk, v.path);
    var w1 := if reuse && SkipTest(prev, current, v.path) && w.healthy > 0 then w.(healthy := w.healthy - 1) else w;
    SaveFoldersTree(role, cfg, v.disk, v.path, place, seen, w1);
    var f := SaveFolders(cfg, v.disk, v.path, place, seen, w1);
    if f.ok && v.path in v.disk && v.disk[v.path].text.Lines? {
      LeafRowShape(cfg, v.disk, v.path, seen);
      SaveTree(role, f.w, v.path, LeafRow(cfg, v.disk, v.path, seen));
    }
  }

  lemma {:induction false} VisitAllTree(role: Role, cfg: Config, reuse: bool, prev: Snapshot, current: Snapshot, visits: seq<Sighting>, seen: string, w: Work)
    requires ValidConfig(cfg) && Candidates(cfg, visits) && TreeWork(role, w) && Cursors(w)
    requires forall i :: 0 <= i < |visits| ==> VisitFits(role, cfg, visits[i])
    ensures TreeWork(role, VisitAll(cfg, reuse, prev, current, visits, seen, w).w)
  {
    hide Visit, Visible, IsStrm, ValidConfig, TreeWork, Cursors, VisitFits;
    if visits != [] {
      VisitTree(role, cfg, reuse, prev, current, visits[0], seen, w);
      var v := Visit(cfg, reuse, prev, current, visits[0], seen, w);
      if v.ok { VisitAllTree(role, cfg, reuse, prev, current, visits[1..], seen, v.w); }
    }
  }

  // ---- pruning the tree

  lemma {:induction false} DropMissingTree(role: Role, items: Items, present: set<string>, scopes: seq<string>)
    requires Tree(role, items)
    ensures Tree(role, DropMissing(items, present, scopes))
  {
    hide InScope;
    var d := DropMissing(items, present, scopes);
    forall p | p in d
      ensures d[p].kind in role(p) && ParentFits(role, d, p, d[p])
    {
      assert ParentFits(role, items, p, items[p]);
    }
  }

  lemma {:induction false} DropChildlessTree(role: Role, items: Items, kind: Kind)
    requires Tree(role, items)
    ensures Tree(role, DropChildless(items, kind))
  {
    var d := DropChildless(items, kind);
    forall p | p in d
      ensures d[p].kind in role(p) && ParentFits(role, d, p, d[p])
    {
      assert ParentFits(role, items, p, items[p]);
      if items[p].parent.Folder? { assert HasChild(items, items[p].parent.path); }
    }
  }

  /** No folder row without a child, and a leaf row below every folder row. */
  ghost predicate Populated(items: Items) {
    forall f :: f in items && !IsLeaf(items[f]) ==>
      HasChild(items, f) && exists e :: e in items && IsLeaf(items[e]) && Below(e, f)
  }

  /** Every season that has a child has one that is not itself an empty season. */
  ghost predicate SeasonsHold(items: Items) {
    forall f :: f in items && items[f].kind == Season && HasChild(items, f) ==> exists k :: Holds(items, f, k)
  }

  predicate Holds(items: Items, f: string, k: string) {
    k in items && items[k].parent == Folder(f) && !(items[k].kind == Season && !HasChild(items, k))
  }

  ghost predicate SeriesOnTop(items: Items) {
    forall p :: p in items && items[p].kind == Series ==> items[p].parent == Library
  }

  ghost predicate NoEmptyFolder(items: Items) {
    forall f :: f in items && !IsLeaf(items[f]) ==> HasChild(items, f)
  }

  lemma {:induction false} SurvivingChild(a: Items, f: string, k: string)
    requires SeriesOnTop(a)
    ensures var b := DropChildless(a, Season);
            var c := DropChildless(b, Series);
            && (Holds(a, f, k) <==> k in b && b[k].parent == Folder(f))
            && (k in b && b[k].parent == Folder(f) <==> k in c && c[k].parent == Folder(f))
  {
  }

  lemma {:induction false} SeasonsHoldEnough(a: Items)
    requires SeriesOnTop(a) && SeasonsHold(a)
    ensures NoEmptyFolder(DropChildless(DropChildless(a, Season), Series))
  {
    var b := DropChildless(a, Season);
    var c := DropChildless(b, Series);
    forall f | f in c && !IsLeaf(c[f])
      ensures HasChild(c, f)
    {
      if c[f].kind == Season {
        assert HasChild(a, f);
        var k :| Holds(a, f, k);
        SurvivingChild(a, f, k);
      } else {
        var k :| k in b && b[k].parent == Folder(f);
        SurvivingChild(a, f, k);
      }
    }
  }

  lemma {:induction false} SeasonsHoldNeeded(a: Items)
    requires SeriesOnTop(a) && NoEmptyFolder(DropChildless(DropChildless(a, Season), Series))
    ensures SeasonsHold(a)
  {
    var c := DropChildless(DropChildless(a, Season), Series);
    forall f | f in a && a[f].kind == Season && HasChild(a, f)
      ensures exists k :: Holds(a, f, k)
    {
      assert f in c && c[f] == a[f];
      var k :| k in c && c[k].parent == Folder(f);
      SurvivingChild(a, f, k);
    }
  }

  /** Pruning seasons and then series, once each, leaves no empty folder if and only if every season that has a
      child after the missing files are gone has one that is not an empty season. */
  lemma {:induction false} PruneLeavesNoEmptyFolder(items: Items, present: set<string>, scopes: seq<string>)
    requires SeriesOnTop(items)
    ensures NoEmptyFolder(Prune(items, present, scopes)) <==> SeasonsHold(DropMissing(items, present, scopes))
  {
    var a := DropMissing(items, present, scopes);
    assert SeriesOnTop(a) by { hide InScope; }
    hide DropMissing, DropChildless, NoEmptyFolder, SeasonsHold, SeriesOnTop;
    if SeasonsHold(a) { SeasonsHoldEnough(a); }
    if NoEmptyFolder(Prune(items, present, scopes)) { SeasonsHoldNeeded(a); }
  }

  /** Below a folder of a tree without empty folders lies a leaf row. */
  lemma {:induction false} LeafBelow(role: Role, items: Items, f: string, left: set<string>) returns (e: string)
    requires Tree(role, items) && NoEmptyFolder(items) && f in items && !IsLeaf(items[f])
    requires left == set x | x in items && |x| > |f|
    ensures e in items && IsLeaf(items[e]) && Below(e, f)
    decreases |left|
  {
    e :| e in items && items[e].parent == Folder(f);
    assert ParentFits(role, items, e, items[e]);
    if !IsLeaf(items[e]) {
      var k, rest := e, set x | x in items && |x| > |e|;
      assert rest <= left && e in left && e !in rest;
      SubsetSize(rest, left - {e});
      e := LeafBelow(role, items, k, rest);
      BelowTransitive(e, k, f);
    }
  }

  /** So a commit leaves a tree, and leaves no folder empty, with a leaf below each, exactly on that condition. */
  lemma {:induction false} PrunePopulates(role: Role, items: Items, present: set<string>, scopes: seq<string>)
    requires Tree(role, items)
    ensures Tree(role, Prune(items, present, scopes))
    ensures Populated(Prune(items, present, scopes)) <==> SeasonsHold(DropMissing(items, present, scopes))
  {
    var a := DropMissing(items, present, scopes);
    var b := DropChildless(a, Season);
    var c := DropChildless(b, Series);
    DropMissingTree(role, items, present, scopes);
    DropChildlessTree(role, a, Season);
    DropChildlessTree(role, b, Series);
    hide DropMissing, DropChildless, SeasonsHold;
    forall p | p in items && items[p].kind == Series
      ensures items[p].parent == Library
    {
      assert ParentFits(role, items, p, items[p]);
    }
    PruneLeavesNoEmptyFolder(items, present, scopes);
    if NoEmptyFolder(c) {
      forall f | f in c && !IsLeaf(c[f])
        ensures HasChild(c, f) && exists e :: e in c && IsLeaf(c[e]) && Below(e, f)
      {
        var e := LeafBelow(role, c, f, set x | x in c && |x| > |f|);
      }
    }
  }

  /** No directory serves both as a series and as a season. */
  ghost predicate OneRole(role: Role) { forall d :: !(Series in role(d) && Season in role(d)) }

  /** Where each directory has one role for all time the condition holds. */
  lemma {:induction false} OneRoleSuffices(role: Role, items: Items)
    requires Tree(role, items) && OneRole(role)
    ensures SeasonsHold(items)
  {
    forall f | f in items && items[f].kind == Season && HasChild(items, f)
      ensures exists k :: Holds(items, f, k)
    {
      var k :| k in items && items[k].parent == Folder(f);
      assert ParentFits(role, items, k, items[k]);
      assert Holds(items, f, k);
    }
  }

  /** The rows a scan hands to its commit, without those of missing files. */
  function Remaining(cfg: Config, job: Job, w: Work): Items
    requires Candidates(cfg, job.visits) && w.healthy > 0
  {
    var current := Current(w.db.snap, Inventory(job.walked), job.scopes);
    var s := VisitAll(cfg, job.Reuse(), w.db.snap, current, job.visits, job.seen, Opened(w).(healthy := w.healthy - 1));
    DropMissing(s.w.View(), Present(current), job.scopes)
  }

  /** Whenever a scan stops, every committed row hangs below the library through committed folder rows above
      it. When it finishes, no folder is empty and each has a leaf below it if and only if, among the remaining
      rows, every season with a child has one that is not an empty season; one role for each directory suffices.
      The call budget makes "whenever" every batch boundary. */
  lemma {:induction false} ScanKeepsTree(role: Role, cfg: Config, job: Job, w: Work)
    requires ValidConfig(cfg) && Candidates(cfg, job.visits) && Tree(role, w.db.items)
    requires forall i :: 0 <= i < |job.visits| ==> VisitFits(role, cfg, job.visits[i])
    ensures Tree(role, Scan(cfg, job, w).w.db.items)
    ensures Scan(cfg, job, w).ok ==> (Populated(Scan(cfg, job, w).w.db.items) <==> SeasonsHold(Remaining(cfg, job, w)))
    ensures Scan(cfg, job, w).ok && OneRole(role) ==> Populated(Scan(cfg, job, w).w.db.items)
  {
    hide VisitAll, Prune, Tree, Populated, Visible, IsStrm, Inventory, Current, VisitFits, Flush, CommitAllowed, Present, DropMissing, SeasonsHold, OneRole;
    if w.healthy > 0 && job.rootsOk {
      var current := Current(w.db.snap, Inventory(job.walked), job.scopes);
      var o := Opened(w).(healthy := w.healthy - 1);
      VisitAllTree(role, cfg, job.Reuse(), w.db.snap, current, job.visits, job.seen, o);
      var s := VisitAll(cfg, job.Reuse(), w.db.snap, current, job.visits, job.seen, o);
      FlushCases(s.w);
      PrunePopulates(role, s.w.View(), Present(current), job.scopes);
      DropMissingTree(role, s.w.View(), Present(current), job.scopes);
      if OneRole(role) { OneRoleSuffices(role, DropMissing(s.w.View(), Present(current), job.scopes)); }
    }
  }
}
