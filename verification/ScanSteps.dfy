/** What single scan steps keep: rows that match the files they were read from. */
module ScanSteps {
  import opened Basics
  import opened Paths
  import opened Leaves
  import opened Snapshots
  import opened Scanner

  /** Equal in every column but seen. */
  predicate Same(a: Row, b: Row) {
    a.(seen := "") == b.(seen := "")
  }

  /** The disk holds files only at leaves of the tree, and no file has the zero stamp. */
  ghost predicate Proper(disk: Disk) {
    && (forall p, q :: p in disk && q in disk ==> !Below(p, q))
    && (forall p :: p in disk ==> disk[p].stamp != ZERO)
  }

  /** The row a scan that reads everything gives the file at p. */
  function Expected(cfg: Config, names: map<string, string>, disk: Disk, p: string): Row
    requires Candidate(cfg, p) && p in disk && disk[p].text.Lines?
  {
    Named(names, p, LeafRow(cfg, disk, p, ""))
  }

  ghost predicate Right(cfg: Config, names: map<string, string>, disk: Disk, items: Items, p: string)
    requires Candidate(cfg, p) && p in disk
  {
    p in items && disk[p].text.Lines? && Same(items[p], Expected(cfg, names, disk, p))
  }

  /** The snapshot records exactly the present state of the file at p and of all its sidecars. */
  ghost predicate Settled(cfg: Config, snap: Snapshot, disk: Disk, p: string) {
    p in disk && forall q :: Input(cfg, p, q) ==> Recorded(snap, q) == StampOf(disk, q)
  }

  ghost predicate TrustAt(cfg: Config, names: map<string, string>, snap: Snapshot, disk: Disk, items: Items, p: string) {
    p in items && Candidate(cfg, p) && Settled(cfg, snap, disk, p) ==> Right(cfg, names, disk, items, p)
  }

  /** A row may be stale only where the snapshot shows it. */
  ghost predicate Trust(cfg: Config, names: map<string, string>, snap: Snapshot, disk: Disk, items: Items) {
    forall p :: TrustAt(cfg, names, snap, disk, items, p)
  }

  ghost predicate NamesKept(db: Tables) {
    forall p :: p in db.names ==> p in db.items && db.items[p].name == db.names[p]
  }

  /** Both the committed rows and the open transaction's rows can be trusted against snap, and keep their given names. */
  ghost predicate Sound(cfg: Config, snap: Snapshot, disk: Disk, w: Work) {
    && Trust(cfg, w.db.names, snap, disk, w.db.items)
    && Trust(cfg, w.db.names, snap, disk, w.View())
    && NamesKept(w.db)
    && NamesKept(w.db.(items := w.View()))
    && w.db.items.Keys <= w.View().Keys
  }

  // ---- seen does not matter

  lemma {:induction false} LocalInfoSeen(disk: Disk, path: string, x: Row, seen: string)
    ensures LocalInfo(disk, path, x.(seen := seen)) == LocalInfo(disk, path, x).(seen := seen)
  {
  }

  lemma {:induction false} LeafRowSeen(cfg: Config, disk: Disk, p: string, seen: string)
    requires Candidate(cfg, p) && p in disk && disk[p].text.Lines?
    ensures LeafRow(cfg, disk, p, seen) == LeafRow(cfg, disk, p, "").(seen := seen)
  {
    hide LocalInfo, Visible, PlaceOf, Stem, Base, EpisodeTag, IsStrm;
    LocalInfoSeen(disk, p, BareLeaf(cfg, disk[p], p, PlaceOf(cfg, disk, p), ""), seen);
  }

  lemma {:induction false} LeafRowIsLeaf(cfg: Config, disk: Disk, p: string, seen: string)
    requires Candidate(cfg, p) && p in disk && disk[p].text.Lines?
    ensures IsLeaf(LeafRow(cfg, disk, p, seen))
  {
    hide Visible, PlaceOf, Stem, Base, EpisodeTag, IsStrm, FirstNfo, FirstPresent;
  }

  // ---- database steps

  /** A save either changes nothing, adds its row to the open transaction, commits the batch with it, or loses the batch. */
  lemma {:induction false} SaveCases(w: Work, p: string, x: Row)
    ensures var s, u := Save(w, p, x).w, Upsert(w.View(), w.db.names, p, x);
            && s.db.names == w.db.names && s.db.snap == w.db.snap
            && s.lastSeries == w.lastSeries && s.lastSeason == w.lastSeason
            && (|| (s.db.items == w.db.items && (s.View() == w.View() || s.View() == u || s.View() == w.db.items))
                || (s.db.items == u && s.View() == u))
    ensures Save(w, p, x).ok ==> Save(w, p, x).w.View() == Upsert(w.View(), w.db.names, p, x)
  {
  }

  lemma {:induction false} FlushCases(w: Work)
    ensures var s := Flush(w).w;
            && s.db.names == w.db.names && s.db.snap == w.db.snap && s.tx.None?
            && (s.db.items == w.db.items || s.db.items == w.View())
    ensures Flush(w).ok ==> Flush(w).w.db.items == w.View()
  {
  }

  /** A row that may be stored at p: a folder where no file is, or the right leaf row. */
  ghost predicate Storable(cfg: Config, names: map<string, string>, disk: Disk, p: string, x: Row) {
    p in disk ==> Candidate(cfg, p) && disk[p].text.Lines? && Same(x, LeafRow(cfg, disk, p, ""))
  }

  lemma {:induction false} UpsertTrustAt(cfg: Config, names: map<string, string>, snap: Snapshot, disk: Disk, items: Items, p: string, x: Row, q: string)
    requires Storable(cfg, names, disk, p, x) && (p in names ==> p in items)
    requires q != p ==> TrustAt(cfg, names, snap, disk, items, q)
    ensures TrustAt(cfg, names, snap, disk, Upsert(items, names, p, x), q)
    ensures q == p && p in disk ==> Right(cfg, names, disk, Upsert(items, names, p, x), p)
  {
    hide LeafRow, Visible, IsStrm, Input;
  }

  lemma {:induction false} UpsertSound(cfg: Config, snap: Snapshot, disk: Disk, w: Work, p: string, x: Row)
    requires Sound(cfg, snap, disk, w) && Storable(cfg, w.db.names, disk, p, x)
    ensures var u := Upsert(w.View(), w.db.names, p, x);
            Trust(cfg, w.db.names, snap, disk, u) && NamesKept(w.db.(items := u)) && w.db.items.Keys <= u.Keys
  {
    hide TrustAt, Storable;
    forall q
      ensures TrustAt(cfg, w.db.names, snap, disk, Upsert(w.View(), w.db.names, p, x), q)
    {
      UpsertTrustAt(cfg, w.db.names, snap, disk, w.View(), p, x, q);
    }
  }

  lemma {:induction false} SaveSound(cfg: Config, snap: Snapshot, disk: Disk, w: Work, p: string, x: Row)
    requires Sound(cfg, snap, disk, w) && Storable(cfg, w.db.names, disk, p, x)
    ensures Sound(cfg, snap, disk, Save(w, p, x).w)
  {
    hide Save, Storable, Trust, Upsert;
    SaveCases(w, p, x);
    UpsertSound(cfg, snap, disk, w, p, x);
  }

  // ---- visiting a file

  /** The folder rows a file needs lie above it and at or below its root, the season inside its series. */
  lemma {:induction false} FoldersAreAbove(cfg: Config, disk: Disk, path: string)
    requires ValidConfig(cfg) && Visible(cfg, path)
    ensures match PlaceOf(cfg, disk, path)
            case InRoot => true
            case InSeries(s) => Below(path, s) && Under(s, Root(cfg, path))
            case InSeason(s, n) => Below(n, s) && Below(path, n) && Below(path, s) && Under(s, Root(cfg, path))
  {
    var place := PlaceOf(cfg, disk, path);
    if !place.InRoot? {
      RootFacts(cfg, path);
      SeriesIsAbove(cfg, disk, path);
      if place.InSeason? { BelowTransitive(path, place.season, place.series); }
    }
  }

  /** Every folder row a file needs sits where the disk has no file. */
  lemma {:induction false} FoldersAreNotFiles(cfg: Config, disk: Disk, path: string)
    requires ValidConfig(cfg) && Proper(disk) && Visible(cfg, path) && path in disk
    ensures match PlaceOf(cfg, disk, path)
            case InRoot => true
            case InSeries(s) => s !in disk
            case InSeason(s, n) => s !in disk && n !in disk
  {
    hide PlaceOf, Visible;
    FoldersAreAbove(cfg, disk, path);
  }

  lemma {:induction false} SeriesFromIsAbove(disk: Disk, root: string, p: string)
    requires |root| > 0 && Below(p, root) && SeriesFrom(disk, root, p).Some?
    ensures Under(p, SeriesFrom(disk, root, p).value) && Under(SeriesFrom(disk, root, p).value, root)
    decreases |p|
  {
    DirIsNearest(p, root);
    if SeasonNumber(Base(p)).None? && Join(p, "tvshow.nfo") !in disk {
      SeriesFromIsAbove(disk, root, Dir(p));
      UnderTransitive(p, Dir(p), SeriesFrom(disk, root, p).value);
    }
  }

  lemma {:induction false} TopFolderIsAbove(root: string, dir: string)
    requires Below(dir, root)
    ensures Under(dir, TopFolder(root, dir)) && Under(TopFolder(root, dir), root)
  {
    var rest := dir[|root| + 1..];
    var e := FirstElement(rest);
    assert dir == root + "/" + rest;
    assert dir[..|root| + 1 + |e|] == Join(root, e);
    if |e| < |rest| { assert dir[|root| + 1 + |e|] == rest[|e|]; }
  }

  lemma {:induction false} SeriesIsAbove(cfg: Config, disk: Disk, path: string)
    requires ValidConfig(cfg) && Visible(cfg, path) && Below(Dir(path), Root(cfg, path))
    ensures var s := SeriesDirectory(disk, Root(cfg, path), path); Under(Dir(path), s) && Under(s, Root(cfg, path))
  {
    if SeriesFrom(disk, Root(cfg, path), Dir(path)).Some? {
      SeriesFromIsAbove(disk, Root(cfg, path), Dir(path));
    } else {
      TopFolderIsAbove(Root(cfg, path), Dir(path));
    }
  }

  function Find(items: Items, q: string): Option<Row> {
    if q in items then Some(items[q]) else None
  }

  /** The row at q is left alone; at most an uncommitted state of it becomes committed. */
  predicate Quiet(before: Work, after: Work, q: string) {
    && after.db.names == before.db.names && after.db.snap == before.db.snap
    && Find(after.View(), q) == Find(before.View(), q)
    && (Find(after.db.items, q) == Find(before.db.items, q) || Find(after.db.items, q) == Find(before.View(), q))
  }

  lemma {:induction false} SaveQuiet(w: Work, p: string, x: Row, q: string)
    requires q != p && Save(w, p, x).ok
    ensures Quiet(w, Save(w, p, x).w, q)
  {
    hide Save;
    SaveCases(w, p, x);
  }

  lemma {:induction false} SaveFoldersSound(cfg: Config, snap: Snapshot, disk: Disk, path: string, place: Place, seen: string, w: Work)
    requires Sound(cfg, snap, disk, w)
    requires match place
             case InRoot => true
             case InSeries(s) => s !in disk
             case InSeason(s, n) => s !in disk && n !in disk
    ensures Sound(cfg, snap, disk, SaveFolders(cfg, disk, path, place, seen, w).w)
  {
    hide Save, SeriesRow, SeasonRow, Sound;
    if !place.InRoot? {
      var x := SeriesRow(disk, place.series, seen);
      SaveSound(cfg, snap, disk, w, place.series, x);
      CursorSound(cfg, snap, disk, Save(w, place.series, x).w, place.series);
      var v := SaveSeries(disk, place.series, seen, w).w;
      if place.InSeason? {
        var y := SeasonRow(cfg, disk, path, place.series, place.season, seen);
        SaveSound(cfg, snap, disk, v, place.season, y);
        CursorSound(cfg, snap, disk, Save(v, place.season, y).w, place.season);
      }
    }
  }

  /** The walk's cursors and the call budget play no part in soundness. */
  lemma {:induction false} CursorSound(cfg: Config, snap: Snapshot, disk: Disk, w: Work, cursor: string)
    requires Sound(cfg, snap, disk, w)
    ensures Sound(cfg, snap, disk, w.(lastSeries := cursor)) && Sound(cfg, snap, disk, w.(lastSeason := cursor))
    ensures w.healthy > 0 ==> Sound(cfg, snap, disk, w.(healthy := w.healthy - 1))
  {
    hide Trust, NamesKept;
  }

  lemma {:induction false} SaveFoldersQuiet(cfg: Config, disk: Disk, path: string, place: Place, seen: string, w: Work, q: string)
    requires match place
             case InRoot => true
             case InSeries(s) => q != s
             case InSeason(s, n) => q != s && q != n
    requires SaveFolders(cfg, disk, path, place, seen, w).ok
    ensures Quiet(w, SaveFolders(cfg, disk, path, place, seen, w).w, q)
  {
    hide Save, SeriesRow, SeasonRow;
    if !place.InRoot? {
      var x := SeriesRow(disk, place.series, seen);
      if w.lastSeries != place.series { SaveQuiet(w, place.series, x, q); }
      if place.InSeason? {
        var v := SaveSeries(disk, place.series, seen, w).w;
        if v.lastSeason != place.season {
          SaveQuiet(v, place.season, SeasonRow(cfg, disk, path, place.series, place.season, seen), q);
        }
      }
    }
  }

  /** Refreshing a file leaves its row right and every other file's row alone. */
  lemma {:induction false} RefreshEffect(cfg: Config, snap: Snapshot, disk: Disk, path: string, seen: string, w: Work)
    requires ValidConfig(cfg) && Proper(disk) && Candidate(cfg, path) && path in disk && Sound(cfg, snap, disk, w)
    ensures var s := Refresh(cfg, disk, path, seen, w);
            && Sound(cfg, snap, disk, s.w)
            && s.w.db.names == w.db.names && s.w.db.snap == w.db.snap
            && (s.ok ==> Right(cfg, w.db.names, disk, s.w.View(), path))
            && (s.ok ==> forall q :: q in disk && q != path ==> Quiet(w, s.w, q))
  {
    hide Save, SaveFolders, LeafRow, Sound, Visible, IsStrm, PlaceOf, Proper, Trust, Upsert, Same, Expected;
    var place := PlaceOf(cfg, disk, path);
    FoldersAreNotFiles(cfg, disk, path);
    SaveFoldersSound(cfg, snap, disk, path, place, seen, w);
    SaveFoldersTables(cfg, disk, path, place, seen, w);
    var v := SaveFolders(cfg, disk, path, place, seen, w);
    if v.ok && disk[path].text.Lines? {
      var x := LeafRow(cfg, disk, path, seen);
      LeafStorable(cfg, w.db.names, disk, path, seen);
      SaveSound(cfg, snap, disk, v.w, path, x);
      SaveCases(v.w, path, x);
      SoundKeepsNames(cfg, snap, disk, v.w);
      UpsertTrustAt(cfg, w.db.names, snap, disk, v.w.View(), path, x, path);
      if Save(v.w, path, x).ok {
        forall q | q in disk && q != path
          ensures Quiet(w, Save(v.w, path, x).w, q)
        {
          SaveFoldersQuiet(cfg, disk, path, place, seen, w, q);
          SaveQuiet(v.w, path, x, q);
        }
      }
    }
  }

  lemma {:induction false} SoundKeepsNames(cfg: Config, snap: Snapshot, disk: Disk, w: Work)
    requires Sound(cfg, snap, disk, w)
    ensures forall p :: p in w.db.names ==> p in w.View() && p in w.db.items
  {
    hide Trust;
  }

  lemma {:induction false} LeafStorable(cfg: Config, names: map<string, string>, disk: Disk, path: string, seen: string)
    requires Candidate(cfg, path) && path in disk && disk[path].text.Lines?
    ensures Storable(cfg, names, disk, path, LeafRow(cfg, disk, path, seen))
  {
    LeafRowSeen(cfg, disk, path, seen);
    hide LeafRow, Visible, IsStrm;
  }

  lemma {:induction false} SaveFoldersTables(cfg: Config, disk: Disk, path: string, place: Place, seen: string, w: Work)
    ensures var s := SaveFolders(cfg, disk, path, place, seen, w).w;
            s.db.names == w.db.names && s.db.snap == w.db.snap
  {
    hide Save, SeriesRow, SeasonRow;
    if !place.InRoot? {
      SaveCases(w, place.series, SeriesRow(disk, place.series, seen));
      if place.InSeason? {
        SaveCases(SaveSeries(disk, place.series, seen, w).w, place.season,
                  SeasonRow(cfg, disk, path, place.series, place.season, seen));
      }
    }
  }
}
