/** File snapshots, the skip test of an incremental scan, and the commit that prunes the index. */
module Snapshots {
  import opened Basics
  import opened Paths
  import opened Leaves

  type Snapshot = map<string, Stamp>
  type Items = map<string, Row>

  /** The tables of one library: rows and user-given names by path, and the last committed snapshot. */
  datatype Tables = Tables(items: Items, names: map<string, string>, snap: Snapshot)

  /** Reading a missing key of a Go map gives the zero stamp. */
  function Get(s: Snapshot, p: string): Stamp {
    if p in s then s[p] else ZERO
  }

  function Recorded(s: Snapshot, p: string): Option<Stamp> {
    if p in s then Some(s[p]) else None
  }

  function StampOf(disk: Disk, p: string): Option<Stamp> {
    if p in disk then Some(disk[p].stamp) else None
  }

  // ---- scan scopes

  predicate WithinScopes(path: string, scopes: seq<string>) {
    exists i :: 0 <= i < |scopes| && Under(path, scopes[i])
  }

  predicate InScope(path: string, scopes: seq<string>) {
    scopes == [] || WithinScopes(path, scopes)
  }

  method WithinScanScopes(path: string, scopes: seq<string>) returns (found: bool)
    ensures found == WithinScopes(path, scopes)
  {
    for i := 0 to |scopes|
      invariant forall j :: 0 <= j < i ==> !Under(path, scopes[j])
    {
      if Under(path, scopes[i]) { return true; }
    }
    return false;
  }

  /** What a scan compares with: the files it walked, and the old record outside its scopes. */
  function Current(prev: Snapshot, walked: Snapshot, scopes: seq<string>): Snapshot {
    if scopes == [] then walked
    else walked + (map p | p in prev && !WithinScopes(p, scopes) :: prev[p])
  }

  // ---- dirty directories

  function ChangedDirs(prev: Snapshot, current: Snapshot): set<string> {
    (set p | p in current && SidecarFile(p) && Get(prev, p) != current[p] :: Dir(p))
    + (set p | p in prev && SidecarFile(p) && p !in current :: Dir(p))
  }

  method ChangedSidecars(prev: Snapshot, current: Snapshot) returns (dirs: set<string>)
    ensures dirs == ChangedDirs(prev, current)
  {
    dirs := {};
    var todo := current.Keys;
    while todo != {}
      invariant todo <= current.Keys
      invariant dirs == set p | p in current && p !in todo && SidecarFile(p) && Get(prev, p) != current[p] :: Dir(p)
      decreases todo
    {
      var p :| p in todo;
      if SidecarFile(p) && Get(prev, p) != current[p] {
        dirs := dirs + {Dir(p)};
      }
      todo := todo - {p};
    }
    ghost var changed := dirs;
    todo := prev.Keys;
    while todo != {}
      invariant todo <= prev.Keys
      invariant dirs == changed + set p | p in prev && p !in todo && SidecarFile(p) && p !in current :: Dir(p)
      decreases todo
    {
      var p :| p in todo;
      if SidecarFile(p) && p !in current {
        dirs := dirs + {Dir(p)};
      }
      todo := todo - {p};
    }
  }

  /** d or a directory above it, short of "/", is dirty. */
  predicate AnyAbove(d: string, dirs: set<string>)
    requires Absolute(d)
    decreases |d|
  {
    d != "/" && (d in dirs || AnyAbove(Dir(d), dirs))
  }

  predicate DependencyChanged(path: string, dirs: set<string>)
    requires Absolute(path)
  {
    AnyAbove(Dir(path), dirs)
  }

  method DependencyChangedLoop(path: string, dirs: set<string>) returns (changed: bool)
    requires Absolute(path)
    ensures changed == DependencyChanged(path, dirs)
  {
    var d := Dir(path);
    while d != "/" && d != "."
      invariant Absolute(d)
      invariant DependencyChanged(path, dirs) == AnyAbove(d, dirs)
      decreases |d|
    {
      if d in dirs { return true; }
      d := Dir(d);
    }
    return false;
  }

  lemma {:induction false} AnyAboveMeaning(d: string, dirs: set<string>)
    requires Absolute(d)
    ensures AnyAbove(d, dirs) <==> exists e :: e in dirs && Absolute(e) && e != "/" && Under(d, e)
    decreases |d|
  {
    if d != "/" && d !in dirs {
      AnyAboveMeaning(Dir(d), dirs);
      forall e | e in dirs && Absolute(e) && e != "/" && Under(d, e)
        ensures Under(Dir(d), e)
      {
        DirIsNearest(d, e);
      }
      forall e | e in dirs && Absolute(e) && e != "/" && Under(Dir(d), e)
        ensures Under(d, e)
      {
        BelowDir(d);
        UnderTransitive(d, Dir(d), e);
      }
    }
  }

  // ---- the skip test

  predicate SkipTest(prev: Snapshot, current: Snapshot, path: string)
    requires Absolute(path)
  {
    Get(prev, path) == Get(current, path) && !DependencyChanged(path, ChangedDirs(prev, current))
  }

  /** q is the file itself or a sidecar in a directory above it. */
  predicate Watched(path: string, q: string) {
    q == path || (SidecarFile(q) && Absolute(q) && Dir(q) != "/" && Below(path, Dir(q)))
  }

  /** The two snapshots agree on q, or q is new with the zero stamp. */
  predicate Unchanged(prev: Snapshot, current: Snapshot, q: string) {
    Recorded(prev, q) == Recorded(current, q) || (q !in prev && q in current && current[q] == ZERO)
  }

  predicate AllAbsolute(s: Snapshot) { forall p :: p in s ==> Absolute(p) && LastSlash(p) > 0 }

  lemma {:induction false} DirtyDirectory(prev: Snapshot, current: Snapshot, q: string)
    requires SidecarFile(q) && !Unchanged(prev, current, q)
    ensures Dir(q) in ChangedDirs(prev, current)
  {
  }

  lemma {:induction false} DirtyWitness(prev: Snapshot, current: Snapshot, d: string) returns (q: string)
    requires d in ChangedDirs(prev, current)
    ensures (q in prev || q in current) && SidecarFile(q) && Dir(q) == d && !Unchanged(prev, current, q)
  {
    if p :| p in current && SidecarFile(p) && Get(prev, p) != current[p] && Dir(p) == d {
      q := p;
    } else {
      q :| q in prev && SidecarFile(q) && q !in current && Dir(q) == d;
    }
  }

  /** A file is skipped exactly when neither it nor any sidecar above it changed, zero-stamped newcomers aside. */
  lemma {:induction false} SkipTestExact(prev: Snapshot, current: Snapshot, path: string)
    requires AllAbsolute(prev) && AllAbsolute(current)
    requires path in current
    ensures SkipTest(prev, current, path) <==> forall q :: Watched(path, q) ==> Unchanged(prev, current, q)
  {
    var dirs := ChangedDirs(prev, current);
    BelowDir(path);
    AnyAboveMeaning(Dir(path), dirs);
    assert Watched(path, path);
    if SkipTest(prev, current, path) {
      forall q | Watched(path, q)
        ensures Unchanged(prev, current, q)
      {
        if q != path && !Unchanged(prev, current, q) {
          DirtyDirectory(prev, current, q);
          DirIsNearest(path, Dir(q));
        }
      }
    } else if Unchanged(prev, current, path) {
      var e :| e in dirs && Absolute(e) && e != "/" && Under(Dir(path), e);
      var q := DirtyWitness(prev, current, e);
      UnderTransitive(path, Dir(path), e);
      assert Below(path, e);
      assert Watched(path, q);
    }
  }

  // ---- pruning

  predicate HasChild(items: Items, p: string) {
    exists c :: c in items && items[c].parent == Folder(p)
  }

  /** DELETE ... WHERE kind=? AND NOT EXISTS (child): decided on the table as the statement finds it. */
  function DropChildless(items: Items, kind: Kind): Items {
    map p | p in items && (items[p].kind == kind ==> HasChild(items, p)) :: items[p]
  }

  function DropMissing(items: Items, present: set<string>, scopes: seq<string>): Items {
    map p | p in items && !(IsLeaf(items[p]) && p !in present && InScope(p, scopes)) :: items[p]
  }

  function Present(current: Snapshot): set<string> {
    set p | p in current && IsStrm(p)
  }

  function Prune(items: Items, present: set<string>, scopes: seq<string>): Items {
    DropChildless(DropChildless(DropMissing(items, present, scopes), Season), Series)
  }

  /** An empty inventory is refused while the library still has rows, unless the caller allows it. */
  predicate CommitAllowed(items: Items, current: Snapshot, allowEmpty: bool) {
    Present(current) != {} || allowEmpty || items == map[]
  }

  /** Rows and snapshot change together; a user-given name goes with its row. */
  function Committed(db: Tables, current: Snapshot, scopes: seq<string>): Tables {
    var items := Prune(db.items, Present(current), scopes);
    Tables(items, map p | p in db.names && p in items :: db.names[p], current)
  }
}
