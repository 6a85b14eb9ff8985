/** The smallest run that defeats the incremental scan: one film, and a sidecar that comes and goes. */
module ScanExample {
  import opened Basics
  import opened Paths
  import opened Leaves
  import opened Snapshots
  import opened Scanner
  import opened ScanExact

  const LIBRARY := Config(false, ["/m"])
  const FILM := "/m/a.strm"
  const SIDECAR := "/m/a.nfo"
  const STAMP := Stamp(1, 1)
  const WITHOUT: Disk := map[FILM := File(STAMP, Lines([]), None)]
  const WITH: Disk := map[FILM := File(STAMP, Lines([]), None), SIDECAR := File(STAMP, Unreadable, Some(Nfo("T", "", 0, 0, 0)))]

  function Film(name: string): Row { Row(Library, name, Movie, "", "", "", 0, 0, 0, 1, 1, "") }

  /** A scan of the whole library over one of the two disks. */
  function JobOn(disk: Disk, incremental: bool): Job {
    Job(incremental, false, [], true, if SIDECAR in disk then [(FILM, STAMP), (SIDECAR, STAMP)] else [(FILM, STAMP)],
        [Sighting(FILM, disk)], "")
  }

  function Record(disk: Disk): Snapshot {
    if SIDECAR in disk then map[FILM := STAMP, SIDECAR := STAMP] else map[FILM := STAMP]
  }

  lemma {:induction false} InFolderM(name: string)
    requires forall i :: 0 <= i < |name| ==> name[i] != '/'
    ensures Dir("/m/" + name) == "/m" && Base("/m/" + name) == name && LastSlash("/m/" + name) == 2
  {
    LastSlashAppend("/m/", name);
    assert LastSlash("/m/") == 2;
    assert ("/m/" + name)[..2] == "/m";
  }

  lemma {:induction false} VisibleInM(name: string)
    requires name != "" && forall i :: 0 <= i < |name| ==> name[i] != '/'
    ensures Visible(LIBRARY, "/m/" + name) && Absolute("/m/" + name) && Root(LIBRARY, "/m/" + name) == "/m"
  {
    InFolderM(name);
    var p := "/m/" + name;
    assert p[..2] == "/m" && p[2] == '/';
    assert Below(p, "/m");
  }

  lemma {:induction false} PathFacts()
    ensures Dir(FILM) == "/m" && Stem(FILM) == "/m/a" && Stem(Base(FILM)) == "a" && Root(LIBRARY, FILM) == "/m"
    ensures IsStrm(FILM) && !IsStrm(SIDECAR) && Visible(LIBRARY, SIDECAR) && Candidate(LIBRARY, FILM)
  {
    hide Ext, Stem, Visible, Dir, Base, Root, Absolute;
    InFolderM("a.strm");
    VisibleInM("a.strm");
    VisibleInM("a.nfo");
    ExtOfWord("/m/a", "strm");
    ExtOfWord("a", "strm");
    ExtOfWord("/m/a", "nfo");
    assert "/m/a" + "." + "strm" == FILM == "/m/" + "a.strm" && "a" + "." + "strm" == "a.strm";
    assert "/m/a" + "." + "nfo" == SIDECAR == "/m/" + "a.nfo";
    assert Lower(".strm") == ".strm" && |Lower(".nfo")| == 4;
    assert "." + "strm" == ".strm" && "." + "nfo" == ".nfo";
  }

  lemma {:induction false} Consulted()
    ensures NfoNames(FILM) == [SIDECAR, "/m/movie.nfo", "/m/tvshow.nfo"]
    ensures PosterNames(FILM) == ["/m/a-poster.jpg", "/m/a.jpg", "/m/poster.jpg", "/m/folder.jpg", "/m/poster.png"]
  {
    PathFacts();
    hide Visible, IsStrm, Stem, Base, Dir, Root;
    assert "/m/a" + ".nfo" == SIDECAR;
    assert Join("/m", "movie.nfo") == "/m/movie.nfo" && Join("/m", "tvshow.nfo") == "/m/tvshow.nfo";
    assert "/m/a" + "-poster.jpg" == "/m/a-poster.jpg" && "/m/a" + ".jpg" == "/m/a.jpg";
    assert Join("/m", "poster.jpg") == "/m/poster.jpg" && Join("/m", "folder.jpg") == "/m/folder.jpg";
    assert Join("/m", "poster.png") == "/m/poster.png";
  }

  lemma {:induction false} BareFilm(disk: Disk)
    requires disk == WITH || disk == WITHOUT
    ensures Candidate(LIBRARY, FILM) && PlaceOf(LIBRARY, disk, FILM) == InRoot
    ensures BareLeaf(LIBRARY, disk[FILM], FILM, InRoot, "") == Film("a")
  {
    PathFacts();
    hide Visible, IsStrm, Stem, Base, Dir, Root, EpisodeTag;
  }

  lemma {:induction false} RowFacts()
    ensures Candidate(LIBRARY, FILM) && PlaceOf(LIBRARY, WITHOUT, FILM) == PlaceOf(LIBRARY, WITH, FILM) == InRoot
    ensures LeafRow(LIBRARY, WITHOUT, FILM, "") == Film("a") && LeafRow(LIBRARY, WITH, FILM, "") == Film("T")
  {
    Consulted();
    BareFilm(WITH);
    BareFilm(WITHOUT);
    hide Visible, IsStrm, PlaceOf, BareLeaf, NfoNames, PosterNames;
    NoNames(WITHOUT, NfoNames(FILM));
    NoPosters(WITHOUT, PosterNames(FILM));
    NoPosters(WITH, PosterNames(FILM));
  }

  lemma {:induction false} NoNames(disk: Disk, names: seq<string>)
    requires forall i :: 0 <= i < |names| ==> names[i] !in disk
    ensures FirstNfo(disk, names).None?
  {
    if names != [] { NoNames(disk, names[1..]); }
  }

  lemma {:induction false} NoPosters(disk: Disk, names: seq<string>)
    requires forall i :: 0 <= i < |names| ==> names[i] !in disk
    ensures FirstPresent(disk, names).None?
  {
    if names != [] { NoPosters(disk, names[1..]); }
  }

  // ---- one scan

  function Tables1(name: string, disk: Disk): Tables {
    Tables(map[FILM := Film(name)], map[], Record(disk))
  }

  lemma {:induction false} InventoryFacts(disk: Disk, incremental: bool)
    requires disk == WITH || disk == WITHOUT
    ensures Inventory(JobOn(disk, incremental).walked) == Record(disk)
    ensures Present(Record(disk)) == {FILM}
  {
    PathFacts();
    var a, b := (FILM, STAMP), (SIDECAR, STAMP);
    assert [a][..0] == [] && Inventory([a][..0]) == map[];
    assert Inventory([a]) == map[FILM := STAMP];
    assert [a, b][..1] == [a];
    assert Inventory([a, b]) == map[FILM := STAMP][SIDECAR := STAMP];
    hide IsStrm;
  }

  lemma {:induction false} OneVisit(disk: Disk, db: Tables, reuse: bool, prev: Snapshot, current: Snapshot, healthy: nat)
    requires (disk == WITH || disk == WITHOUT) && healthy >= 2
    requires db.names == map[] && db.items.Keys <= {FILM} && !reuse
    ensures Candidate(LIBRARY, FILM)
    ensures var name := if disk == WITH then "T" else "a";
            VisitAll(LIBRARY, reuse, prev, current, [Sighting(FILM, disk)], "", Work(db, None, 0, "", "", healthy))
            == Step(true, Work(db, Some(map[FILM := Film(name)]), 1, "", "", healthy - 2))
  {
    RowFacts();
    PathFacts();
    hide Visible, IsStrm, LeafRow, Absolute, SkipTest, Root, Dir;
    var v, w := Sighting(FILM, disk), Work(db, None, 0, "", "", healthy);
    var name := if disk == WITH then "T" else "a";
    assert PlaceOf(LIBRARY, disk, FILM) == InRoot;
    assert Upsert(db.items, db.names, FILM, Film(name)) == map[FILM := Film(name)];
    assert Visit(LIBRARY, reuse, prev, current, v, "", w) == Save(w, FILM, Film(name));
    assert [v][1..] == [];
  }

  /** A full scan writes the film's row; with four calls it fails after the last batch, with six it commits. */
  lemma {:induction false} FullScan(disk: Disk, job: Job, db: Tables, healthy: nat)
    requires (disk == WITH || disk == WITHOUT) && job == JobOn(disk, false) && Candidates(LIBRARY, job.visits)
    requires db.names == map[] && db.items.Keys <= {FILM} && (healthy == 4 || healthy >= 6)
    ensures var name := if disk == WITH then "T" else "a";
            var s := Scan(LIBRARY, job, Work(db, None, 0, "", "", healthy));
            && s.w.tx.None? && s.ok == (healthy >= 6)
            && s.w.db == if s.ok then Tables1(name, disk) else db.(items := map[FILM := Film(name)])
  {
    hide VisitAll, Inventory, Visible, IsStrm, Absolute, Finish, Film, Scan, Candidate, Present, Record, Candidates;
    var name := if disk == WITH then "T" else "a";
    InventoryFacts(disk, false);
    OneVisit(disk, db, false, db.snap, Record(disk), healthy - 1);
    OneFinish(name, db, Record(disk), healthy - 3);
    WholeUnfolded(LIBRARY, job, Work(db, None, 0, "", "", healthy));
  }

  lemma {:induction false} OneFinish(name: string, db: Tables, current: Snapshot, healthy: nat)
    requires db.names == map[] && Present(current) == {FILM} && (healthy == 1 || healthy >= 3)
    ensures var s := Finish(Work(db, Some(map[FILM := Film(name)]), 1, "", "", healthy), current, false, []);
            && s.w.tx.None? && s.ok == (healthy >= 3)
            && s.w.db == if s.ok then Tables(map[FILM := Film(name)], map[], current) else db.(items := map[FILM := Film(name)])
  {
    FilmKept(name, current);
    hide Present, Prune, Film;
  }

  lemma {:induction false} FilmKept(name: string, current: Snapshot)
    requires Present(current) == {FILM}
    ensures Prune(map[FILM := Film(name)], Present(current), []) == map[FILM := Film(name)]
  {
    hide Present;
  }

  /** An incremental scan that finds the film's stamp on record and its row in the table leaves the row alone. */
  lemma {:induction false} FastScan(name: string, healthy: nat)
    requires healthy >= 4
    ensures Candidate(LIBRARY, FILM)
    ensures var s := Scan(LIBRARY, JobOn(WITHOUT, true), Work(Tables1(name, WITHOUT), None, 0, "", "", healthy));
            s.ok && s.w.db == Tables1(name, WITHOUT)
  {
    PathFacts();
    InventoryFacts(WITHOUT, true);
    FilmKept(name, Record(WITHOUT));
    NothingChanged(Record(WITHOUT));
    hide Inventory, Visible, IsStrm, Absolute, Present, Prune, SkipTest, LeafRow;
    var v, w := Sighting(FILM, WITHOUT), Work(Tables1(name, WITHOUT), None, 0, "", "", healthy - 1);
    assert Visit(LIBRARY, true, Record(WITHOUT), Record(WITHOUT), v, "", w) == Step(true, w.(healthy := healthy - 2));
    assert [v][1..] == [];
    assert VisitAll(LIBRARY, true, Record(WITHOUT), Record(WITHOUT), [v], "", w) == Step(true, w.(healthy := healthy - 2));
  }

  lemma {:induction false} NothingChanged(s: Snapshot)
    ensures SkipTest(s, s, FILM)
  {
    PathFacts();
    hide IsStrm, Visible, Stem, Base, SidecarFile, Root;
    assert ChangedDirs(s, s) == {};
    AnyAboveMeaning(Dir(FILM), ChangedDirs(s, s));
  }

  /** Four scans from an empty index: a full one; a sidecar with a title appears, and a full one fails after
      its last batch; the sidecar goes, and then an incremental scan and a full one, both successful, disagree. */
  lemma {:induction false} FastAndSlowDisagree()
    ensures Candidate(LIBRARY, FILM)
    ensures var none := Tables(map[], map[], map[]);
            var first := Scan(LIBRARY, JobOn(WITHOUT, false), Work(none, None, 0, "", "", 6));
            var failed := Scan(LIBRARY, JobOn(WITH, false), first.w.(healthy := 4));
            var fast := Scan(LIBRARY, JobOn(WITHOUT, true), failed.w.(healthy := 6));
            var slow := Scan(LIBRARY, JobOn(WITHOUT, false), failed.w.(healthy := 6));
            && first.ok && !failed.ok && fast.ok && slow.ok
            && first.w.db.items == slow.w.db.items == map[FILM := Film("a")]
            && fast.w.db.items == map[FILM := Film("T")]
  {
    hide Scan, Visible, IsStrm, Absolute;
    PathFacts();
    var none := Tables(map[], map[], map[]);
    FullScan(WITHOUT, JobOn(WITHOUT, false), none, 6);
    var first := Scan(LIBRARY, JobOn(WITHOUT, false), Work(none, None, 0, "", "", 6)).w;
    Reopened(JobOn(WITH, false), first.(healthy := 4));
    FullScan(WITH, JobOn(WITH, false), first.db, 4);
    var failed := Scan(LIBRARY, JobOn(WITH, false), first.(healthy := 4)).w;
    assert failed.db == Tables1("T", WITHOUT);
    Reopened(JobOn(WITHOUT, true), failed.(healthy := 6));
    FastScan("T", 6);
    Reopened(JobOn(WITHOUT, false), failed.(healthy := 6));
    FullScan(WITHOUT, JobOn(WITHOUT, false), failed.db, 6);
  }

  /** A scan forgets where an earlier one stood. */
  lemma {:induction false} Reopened(job: Job, w: Work)
    requires Candidates(LIBRARY, job.visits)
    ensures Scan(LIBRARY, job, w) == Scan(LIBRARY, job, Work(w.db, None, 0, "", "", w.healthy))
  {
    hide VisitAll, Finish, Current, Inventory, Visible, IsStrm, Absolute;
  }
}
