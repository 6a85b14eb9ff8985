/** Two scans that leave an empty season: a directory that is a series for one file and a season for another. */
module SeasonExample {
  import opened Basics
  import opened Paths
  import opened Leaves
  import opened Snapshots
  import opened Scanner
  import opened ScanExact
  import opened ScanTree

  const SHOWS := Config(true, ["/m"])
  const OUTER := "/m/Season 1"
  const INNER := "/m/Season 1/Season 2"
  const DEEP := "/m/Season 1/Season 2/b.strm"
  const FLAT := "/m/Season 1/a.strm"
  const LOOSE := "/m/c.strm"
  const STAMP := Stamp(1, 1)
  const FILE := File(STAMP, Lines([]), None)
  const ALL: Disk := map[DEEP := FILE, FLAT := FILE, LOOSE := FILE]
  const LEFT: Disk := map[LOOSE := FILE]

  function ScanAll(): Job {
    Job(false, false, [], true, [(DEEP, STAMP), (FLAT, STAMP), (LOOSE, STAMP)],
        [Sighting(DEEP, ALL), Sighting(FLAT, ALL), Sighting(LOOSE, ALL)], "")
  }

  function ScanLeft(): Job {
    Job(false, false, [], true, [(LOOSE, STAMP)], [Sighting(LOOSE, LEFT)], "")
  }

  // ---- paths

  lemma {:induction false} NameIn(dir: string, name: string, path: string)
    requires |dir| > 0 && path == Join(dir, name) && forall i :: 0 <= i < |name| ==> name[i] != '/'
    ensures Dir(path) == dir && Base(path) == name && LastSlash(path) == |dir| && Below(path, dir)
  {
    DirOfJoin(dir, name);
    assert path == (dir + "/") + name;
    LastSlashAppend(dir + "/", name);
  }

  lemma {:induction false} SeasonNamed(name: string, digit: char)
    requires name == "Season " + [digit] && IsDigit(digit)
    ensures SeasonNumber(name).Some?
  {
    assert name[..6] == "Season" && Lower("Season") == "season";
    assert name[6..] == " " + [digit];
    var rest := name[6..];
    assert rest[1..] == [digit];
    assert SkipSeparators(rest) == SkipSeparators([digit]) == [digit];
  }

  lemma {:induction false} FolderFacts()
    ensures Dir(OUTER) == "/m" && Dir(INNER) == OUTER && Below(OUTER, "/m") && Below(INNER, OUTER) && Below(INNER, "/m")
    ensures LastSlash(OUTER) > 0 && LastSlash(INNER) > 0
    ensures Base(OUTER) == "Season 1" && Base(INNER) == "Season 2"
    ensures SeasonNumber(Base(OUTER)).Some? && SeasonNumber(Base(INNER)).Some?
  {
    hide Dir, Base;
    NameIn("/m", "Season 1", OUTER);
    NameIn(OUTER, "Season 2", INNER);
    BelowTransitive(INNER, OUTER, "/m");
    SeasonNamed("Season 1", '1');
    SeasonNamed("Season 2", '2');
  }

  lemma {:induction false} NothingHidden()
    ensures !HiddenDir("/m", "/m") && !HiddenDir("/m", OUTER) && !HiddenDir("/m", INNER)
  {
    FolderFacts();
    hide Dir, Base;
    assert "Season 1"[0] == 'S' && "Season 2"[0] == 'S';
    assert !HiddenDir("/m", "/m");
  }

  lemma {:induction false} Strm(base: string)
    ensures IsStrm(base + ".strm")
  {
    ExtOfWord(base, "strm");
    assert base + ".strm" == base + "." + "strm" && "." + "strm" == ".strm";
    assert Lower(".strm") == ".strm";
  }

  lemma {:induction false} InShows(dir: string, path: string)
    requires !HiddenDir("/m", dir) && Under(dir, "/m") && Below(path, dir) && Dir(path) == dir
    ensures Visible(SHOWS, path) && Absolute(path) && Root(SHOWS, path) == "/m"
  {
    hide HiddenDir, Dir;
    if dir != "/m" { BelowTransitive(path, dir, "/m"); }
    assert path[..2][0] == '/';
    assert SHOWS.roots[0] == "/m";
  }

  lemma {:induction false} FileIn(dir: string, name: string, path: string)
    requires dir == "/m" || dir == OUTER || dir == INNER
    requires path == Join(dir, name + ".strm") && (forall i :: 0 <= i < |name| ==> name[i] != '/')
    ensures Candidate(SHOWS, path) && Root(SHOWS, path) == "/m" && Dir(path) == dir
  {
    NothingHidden();
    FolderFacts();
    hide Dir, Base, Ext, HiddenDir, Root, Visible, IsStrm, SeasonNumber, LastSlash;
    NameIn(dir, name + ".strm", path);
    InShows(dir, path);
    Strm(Join(dir, name));
    assert path == Join(dir, name) + ".strm";
  }

  lemma {:induction false} Files()
    ensures Candidate(SHOWS, DEEP) && Candidate(SHOWS, FLAT) && Candidate(SHOWS, LOOSE)
    ensures Root(SHOWS, DEEP) == Root(SHOWS, FLAT) == Root(SHOWS, LOOSE) == "/m"
    ensures Dir(DEEP) == INNER && Dir(FLAT) == OUTER && Dir(LOOSE) == "/m"
  {
    hide Candidate, Root, Dir;
    FileIn(INNER, "b", DEEP);
    FileIn(OUTER, "a", FLAT);
    FileIn("/m", "c", LOOSE);
  }

  /** The same directory is the series of one file and the season of another. */
  lemma {:induction false} Places(disk: Disk)
    ensures Candidate(SHOWS, DEEP) && Candidate(SHOWS, FLAT) && Candidate(SHOWS, LOOSE)
    ensures PlaceOf(SHOWS, disk, DEEP) == InSeason(OUTER, INNER)
    ensures PlaceOf(SHOWS, disk, FLAT) == InSeason("/m", OUTER)
    ensures PlaceOf(SHOWS, disk, LOOSE) == InRoot
  {
    Files();
    FolderFacts();
    hide Dir, Base, Root, Visible, IsStrm, SeasonNumber, Absolute;
    assert SeriesFrom(disk, "/m", INNER) == Some(OUTER);
    assert SeriesFrom(disk, "/m", OUTER) == Some("/m");
  }

  // ---- saves and visits that succeed

  /** No given names, an open batch with room, and calls to spare. */
  predicate Ready(w: Work, calls: nat) {
    w.db.names == map[] && w.batch < 100 && (w.tx.None? ==> w.batch == 0) && w.healthy >= calls
  }

  lemma {:induction false} Saved(w: Work, p: string, x: Row, calls: nat)
    requires Ready(w, calls + 2) && w.batch < 99
    ensures var s := Save(w, p, x);
            && s.ok && Ready(s.w, calls) && s.w.View() == w.View()[p := x] && s.w.db == w.db && s.w.batch == w.batch + 1
            && s.w.lastSeries == w.lastSeries && s.w.lastSeason == w.lastSeason
  {
    assert p in w.View() ==> Named(w.db.names, p, x) == x;
  }

  lemma {:induction false} SeasonVisit(cfg: Config, disk: Disk, prev: Snapshot, current: Snapshot, p: string, series: string, season: string,
                                       seen: string, w: Work, calls: nat)
    requires Candidate(cfg, p) && p in disk && disk[p].text.Lines? && PlaceOf(cfg, disk, p) == InSeason(series, season)
    requires Ready(w, calls + 6) && w.batch < 90 && w.lastSeries != series && w.lastSeason != season
    ensures var s := Visit(cfg, false, prev, current, Sighting(p, disk), seen, w);
            && s.ok && Ready(s.w, calls) && s.w.db == w.db && s.w.batch == w.batch + 3
            && s.w.lastSeries == series && s.w.lastSeason == season
            && s.w.View() == w.View()[series := SeriesRow(disk, series, seen)][season := SeasonRow(cfg, disk, p, series, season, seen)]
                                    [p := LeafRow(cfg, disk, p, seen)]
  {
    hide SeriesRow, SeasonRow, LeafRow, Visible, IsStrm, PlaceOf, Save, SkipTest, Absolute;
    var x := SeriesRow(disk, series, seen);
    Saved(w, series, x, calls + 4);
    var a := Save(w, series, x).w.(lastSeries := series);
    var y := SeasonRow(cfg, disk, p, series, season, seen);
    Saved(a, season, y, calls + 2);
    var b := Save(a, season, y).w.(lastSeason := season);
    Saved(b, p, LeafRow(cfg, disk, p, seen), calls);
    assert SaveFolders(cfg, disk, p, PlaceOf(cfg, disk, p), seen, w) == Step(true, b);
  }

  lemma {:induction false} LooseVisit(cfg: Config, disk: Disk, prev: Snapshot, current: Snapshot, p: string, seen: string, w: Work, calls: nat)
    requires Candidate(cfg, p) && p in disk && disk[p].text.Lines? && PlaceOf(cfg, disk, p) == InRoot
    requires Ready(w, calls + 2) && w.batch < 90
    ensures var s := Visit(cfg, false, prev, current, Sighting(p, disk), seen, w);
            && s.ok && Ready(s.w, calls) && s.w.db == w.db && s.w.View() == w.View()[p := LeafRow(cfg, disk, p, seen)]
  {
    hide LeafRow, Visible, IsStrm, PlaceOf, Save, SkipTest, Absolute;
    Saved(w, p, LeafRow(cfg, disk, p, seen), calls);
  }

  // ---- the tables

  datatype Names = Names(root: string, outer: string, inner: string, deep: string, flat: string, loose: string)
  {
    predicate Distinct() {
      && root != outer && root != inner && root != deep && root != flat && root != loose
      && outer != inner && outer != deep && outer != flat && outer != loose
      && inner != deep && inner != flat && inner != loose && deep != flat && deep != loose && flat != loose
    }
  }

  predicate Shape(items: Items, p: string, kind: Kind, parent: Parent) {
    p in items && items[p].kind == kind && items[p].parent == parent
  }

  /** After the first scan: the outer directory was a series and has become a season. */
  predicate Full(n: Names, items: Items) {
    && items.Keys == {n.root, n.outer, n.inner, n.deep, n.flat, n.loose}
    && Shape(items, n.root, Series, Library) && Shape(items, n.outer, Season, Folder(n.root))
    && Shape(items, n.inner, Season, Folder(n.outer)) && Shape(items, n.deep, Episode, Folder(n.inner))
    && Shape(items, n.flat, Episode, Folder(n.outer)) && Shape(items, n.loose, Episode, Library)
  }

  lemma {:induction false} FirstPrune(n: Names, items: Items)
    requires n.Distinct() && Full(n, items)
    ensures Prune(items, {n.deep, n.flat, n.loose}, []) == items
  {
    assert items[n.deep].parent == Folder(n.inner) && items[n.flat].parent == Folder(n.outer);
    assert HasChild(items, n.inner) && HasChild(items, n.outer) && HasChild(items, n.root);
    hide HasChild;
    assert DropMissing(items, {n.deep, n.flat, n.loose}, []) == items;
    assert DropChildless(items, Season) == items;
    assert DropChildless(items, Series) == items;
  }

  lemma {:induction false} SecondPrune(n: Names, items: Items)
    requires n.Distinct() && Full(n, items)
    ensures var done := Prune(items, {n.loose}, []);
            done.Keys == {n.root, n.outer, n.loose} && done[n.outer] == items[n.outer] && !HasChild(done, n.outer)
  {
    var a := DropMissing(items, {n.loose}, []);
    assert a.Keys == {n.root, n.outer, n.inner, n.loose};
    assert HasChild(a, n.outer) by { assert a[n.inner].parent == Folder(n.outer); }
    assert !HasChild(a, n.inner);
    var b := DropChildless(a, Season);
    assert b.Keys == {n.root, n.outer, n.loose};
    assert HasChild(b, n.root) by { assert b[n.outer].parent == Folder(n.root); }
    assert DropChildless(b, Series) == b;
  }

  // ---- the two scans

  function Six(): Names { Names("/m", OUTER, INNER, DEEP, FLAT, LOOSE) }

  lemma {:induction false} SixDistinct()
    ensures Six().Distinct()
  {
    assert |"/m"| == 2 && |OUTER| == 11 && |INNER| == 20 && |DEEP| == 27 && |FLAT| == 18 && |LOOSE| == 9;
  }

  /** Placements of the three files of a disk that holds them. */
  predicate Placed(cfg: Config, disk: Disk, n: Names) {
    && Candidate(cfg, n.deep) && Candidate(cfg, n.flat) && Candidate(cfg, n.loose)
    && (n.deep in disk ==> disk[n.deep].text.Lines? && PlaceOf(cfg, disk, n.deep) == InSeason(n.outer, n.inner))
    && (n.flat in disk ==> disk[n.flat].text.Lines? && PlaceOf(cfg, disk, n.flat) == InSeason(n.root, n.outer))
    && (n.loose in disk ==> disk[n.loose].text.Lines? && PlaceOf(cfg, disk, n.loose) == InRoot)
  }

  lemma {:induction false} VisitFirst(cfg: Config, prev: Snapshot, current: Snapshot, visits: seq<Sighting>, w: Work)
    requires Candidates(cfg, visits)
    ensures visits == [] ==> VisitAll(cfg, false, prev, current, visits, "", w) == Step(true, w)
    ensures visits != [] && Visit(cfg, false, prev, current, visits[0], "", w).ok ==>
              VisitAll(cfg, false, prev, current, visits, "", w)
              == VisitAll(cfg, false, prev, current, visits[1..], "", Visit(cfg, false, prev, current, visits[0], "", w).w)
  {
    hide Visit, Visible, IsStrm, Absolute;
  }

  lemma {:induction false} ThreeVisits(cfg: Config, disk: Disk, prev: Snapshot, current: Snapshot, n: Names, visits: seq<Sighting>, w: Work)
    requires cfg.tv && n.Distinct() && Placed(cfg, disk, n) && n.deep in disk && n.flat in disk && n.loose in disk
    requires n.outer != "" && n.inner != "" && n.root != ""
    requires visits == [Sighting(n.deep, disk), Sighting(n.flat, disk), Sighting(n.loose, disk)]
    requires Ready(w, 20) && w.batch == 0 && w.View() == map[] && w.lastSeries == w.lastSeason == ""
    ensures Candidates(cfg, visits)
    ensures var s := VisitAll(cfg, false, prev, current, visits, "", w);
            s.ok && Ready(s.w, 6) && s.w.db == w.db && Full(n, s.w.View())
  {
    hide SeriesRow, SeasonRow, LeafRow, Visible, IsStrm, PlaceOf, Visit, VisitAll, SkipTest, Absolute;
    SeriesRowShape(disk, n.outer, "");
    SeriesRowShape(disk, n.root, "");
    SeasonRowShape(cfg, disk, n.deep, n.outer, n.inner, "");
    SeasonRowShape(cfg, disk, n.flat, n.root, n.outer, "");
    LeafRowShape(cfg, disk, n.deep, "");
    LeafRowShape(cfg, disk, n.flat, "");
    LeafRowShape(cfg, disk, n.loose, "");
    SeasonVisit(cfg, disk, prev, current, n.deep, n.outer, n.inner, "", w, 14);
    var a := Visit(cfg, false, prev, current, visits[0], "", w).w;
    SeasonVisit(cfg, disk, prev, current, n.flat, n.root, n.outer, "", a, 8);
    var b := Visit(cfg, false, prev, current, visits[1], "", a).w;
    LooseVisit(cfg, disk, prev, current, n.loose, "", b, 6);
    var c := Visit(cfg, false, prev, current, visits[2], "", b).w;
    assert visits[1..][0] == visits[1] && visits[1..][1..] == [visits[2]] && [visits[2]][1..] == [];
    VisitFirst(cfg, prev, current, visits, w);
    VisitFirst(cfg, prev, current, visits[1..], a);
    VisitFirst(cfg, prev, current, [visits[2]], b);
    VisitFirst(cfg, prev, current, [], c);
  }

  lemma {:induction false} OneVisit(cfg: Config, disk: Disk, prev: Snapshot, current: Snapshot, n: Names, visits: seq<Sighting>, w: Work)
    requires cfg.tv && n.Distinct() && Placed(cfg, disk, n) && n.loose in disk && visits == [Sighting(n.loose, disk)]
    requires Ready(w, 10) && w.batch == 0 && Full(n, w.View())
    ensures Candidates(cfg, visits)
    ensures var s := VisitAll(cfg, false, prev, current, visits, "", w);
            s.ok && Ready(s.w, 6) && s.w.db == w.db && Full(n, s.w.View())
  {
    hide LeafRow, Visible, IsStrm, PlaceOf, Visit, SkipTest, Absolute;
    LeafRowShape(cfg, disk, n.loose, "");
    LooseVisit(cfg, disk, prev, current, n.loose, "", w, 6);
    assert visits[1..] == [];
  }

  lemma {:induction false} Finished(w: Work, current: Snapshot)
    requires Ready(w, 6) && Present(current) != {}
    ensures var s := Finish(w, current, false, []);
            && s.ok && s.w.tx.None? && s.w.db.items == Prune(w.View(), Present(current), []) && s.w.db.names == map[]
  {
    hide Prune, Present;
  }

  /** In any library: a scan of the three files, and after two of them are gone another. */
  lemma {:induction false} EmptySeasonStays(cfg: Config, all: Disk, left: Disk, n: Names, first: Job, second: Job, w: Work, healthy: nat)
    requires cfg.tv && n.Distinct() && Placed(cfg, all, n) && Placed(cfg, left, n)
    requires n.outer != "" && n.inner != "" && n.root != ""
    requires n.deep in all && n.flat in all && n.loose in all && n.loose in left
    requires first.visits == [Sighting(n.deep, all), Sighting(n.flat, all), Sighting(n.loose, all)] && second.visits == [Sighting(n.loose, left)]
    requires first.scopes == second.scopes == [] && first.rootsOk && second.rootsOk && first.seen == second.seen == ""
    requires !first.incremental && !second.incremental && !first.allowEmpty && !second.allowEmpty
    requires Present(Inventory(first.walked)) == {n.deep, n.flat, n.loose} && Present(Inventory(second.walked)) == {n.loose}
    requires w.db == Tables(map[], map[], map[]) && w.healthy > 20 && healthy > 10
    ensures Candidates(cfg, first.visits) && Candidates(cfg, second.visits)
    ensures var one := Scan(cfg, first, w);
            var two := Scan(cfg, second, one.w.(healthy := healthy));
            && one.ok && two.ok && Shape(two.w.db.items, n.outer, Season, Folder(n.root)) && !HasChild(two.w.db.items, n.outer)
            && two.w.db.items.Keys == {n.root, n.outer, n.loose}
  {
    hide VisitAll, Inventory, Finish, Scan, Placed, Present, Prune, Full, HasChild, Names.Distinct;
    ThreeVisits(cfg, all, w.db.snap, Inventory(first.walked), n, first.visits, Opened(w).(healthy := w.healthy - 1));
    WholeUnfolded(cfg, first, w);
    var a := VisitAll(cfg, false, w.db.snap, Inventory(first.walked), first.visits, "", Opened(w).(healthy := w.healthy - 1)).w;
    Finished(a, Inventory(first.walked));
    FirstPrune(n, a.View());
    var one := Scan(cfg, first, w).w.(healthy := healthy);
    OneVisit(cfg, left, one.db.snap, Inventory(second.walked), n, second.visits, Opened(one).(healthy := healthy - 1));
    WholeUnfolded(cfg, second, one);
    var b := VisitAll(cfg, false, one.db.snap, Inventory(second.walked), second.visits, "", Opened(one).(healthy := healthy - 1)).w;
    Finished(b, Inventory(second.walked));
    SecondPrune(n, b.View());
    OuterShape(n, b.View());
  }

  lemma {:induction false} OuterShape(n: Names, items: Items)
    requires Full(n, items)
    ensures Shape(items, n.outer, Season, Folder(n.root))
  {
  }

  lemma {:induction false} Inventories()
    ensures Present(Inventory(ScanAll().walked)) == {DEEP, FLAT, LOOSE} && Present(Inventory(ScanLeft().walked)) == {LOOSE}
  {
    Files();
    hide Absolute, Visible, IsStrm;
    var a, b, c := (DEEP, STAMP), (FLAT, STAMP), (LOOSE, STAMP);
    assert [a][..0] == [] && [a, b][..1] == [a] && [a, b, c][..2] == [a, b] && [c][..0] == [];
    assert Inventory([a]) == map[DEEP := STAMP];
    assert Inventory([a, b]) == map[DEEP := STAMP, FLAT := STAMP];
    assert Inventory([a, b, c]) == map[DEEP := STAMP, FLAT := STAMP, LOOSE := STAMP];
    assert Inventory([c]) == map[LOOSE := STAMP];
  }

  /** Two successful full scans from an empty index: Season 1 is the series of Season 1/Season 2/b.strm and the
      season of Season 1/a.strm; both files go, another stays, and the second scan leaves Season 1 empty. */
  lemma {:induction false} NestedSeasonsStay()
    ensures Candidates(SHOWS, ScanAll().visits) && Candidates(SHOWS, ScanLeft().visits)
    ensures var one := Scan(SHOWS, ScanAll(), Work(Tables(map[], map[], map[]), None, 0, "", "", 100));
            var two := Scan(SHOWS, ScanLeft(), one.w.(healthy := 100));
            && one.ok && two.ok && Shape(two.w.db.items, OUTER, Season, Folder("/m")) && !HasChild(two.w.db.items, OUTER)
  {
    Places(ALL);
    Places(LEFT);
    SixDistinct();
    Inventories();
    hide Scan, PlaceOf, Visible, IsStrm, Absolute, Inventory, Present, HasChild, Names.Distinct;
    assert Placed(SHOWS, ALL, Six()) && Placed(SHOWS, LEFT, Six());
    EmptySeasonStays(SHOWS, ALL, LEFT, Six(), ScanAll(), ScanLeft(), Work(Tables(map[], map[], map[]), None, 0, "", "", 100), 100);
  }
}
