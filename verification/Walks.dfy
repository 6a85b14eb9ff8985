/** The directory walk of a scan, and the job it gives when the disk stands still. */
module Walks {
  import opened Basics
  import opened Paths
  import opened Leaves
  import opened Snapshots
  import opened Scanner
  import opened ScanExact

  datatype Child = Child(name: string, entry: Entry)

  /** What a directory entry is; broken says that reading the directory fails after these children. */
  datatype Entry = Regular(file: File) | Link | Folder(children: seq<Child>, broken: bool)

  /** A file met by a walk: its path and what the disk holds there. */
  type Met = (string, File)

  const CHUNK := 256

  predicate GoodName(s: string) { |s| > 0 && forall i :: 0 <= i < |s| ==> s[i] != '/' }

  predicate WellFormed(e: Entry) {
    e.Folder? ==> WellFormedIn(e.children)
  }

  predicate WellFormedIn(cs: seq<Child>) {
    && (forall i :: 0 <= i < |cs| ==> GoodName(cs[i].name) && WellFormed(cs[i].entry))
    && (forall i, j :: 0 <= i < j < |cs| ==> cs[i].name != cs[j].name)
  }

  // ---- every regular file of a tree, and those a walk reports

  function Files(path: string, e: Entry): seq<Met>
    decreases e
  {
    match e
    case Regular(f) => [(path, f)]
    case Link => []
    case Folder(cs, _) => FilesIn(path, cs)
  }

  function FilesIn(path: string, cs: seq<Child>): seq<Met>
    decreases cs
  {
    if cs == [] then [] else Files(Join(path, cs[0].name), cs[0].entry) + FilesIn(path, cs[1..])
  }

  predicate SkipDir(root: string, path: string) { path != root && "." <= Base(path) }

  function Reported(root: string, path: string, e: Entry): seq<Met>
    decreases e
  {
    match e
    case Regular(f) => [(path, f)]
    case Link => []
    case Folder(cs, _) => if SkipDir(root, path) then [] else ReportedIn(root, path, cs)
  }

  function ReportedIn(root: string, path: string, cs: seq<Child>): seq<Met>
    decreases cs
  {
    if cs == [] then []
    else Reported(root, Join(path, cs[0].name), cs[0].entry) + ReportedIn(root, path, cs[1..])
  }

  /** No directory the walk enters is broken. */
  predicate Reads(root: string, path: string, e: Entry)
    decreases e
  {
    e.Folder? && !SkipDir(root, path) ==> !e.broken && ReadsIn(root, path, e.children)
  }

  predicate ReadsIn(root: string, path: string, cs: seq<Child>)
    decreases cs
  {
    cs == [] || (Reads(root, Join(path, cs[0].name), cs[0].entry) && ReadsIn(root, path, cs[1..]))
  }

  /** A walk of some children has met, up to the next one, what leaves the rest of all to come. */
  ghost predicate ToCome(all: seq<Met>, whole: bool, met: seq<Met>, root: string, path: string, cs: seq<Child>, next: nat) {
    next <= |cs| && all == met + ReportedIn(root, path, cs[next..]) && whole == ReadsIn(root, path, cs[next..])
  }

  lemma {:induction false} ToComeFirst(met: seq<Met>, root: string, path: string, cs: seq<Child>)
    ensures ToCome(met + ReportedIn(root, path, cs), ReadsIn(root, path, cs), met, root, path, cs, 0)
  {
    assert cs[0..] == cs;
  }

  lemma {:induction false} ToComeStep(all: seq<Met>, whole: bool, met: seq<Met>, root: string, path: string, cs: seq<Child>, next: nat)
    requires next < |cs| && ToCome(all, whole, met, root, path, cs, next)
    ensures var p := Join(path, cs[next].name);
            if Reads(root, p, cs[next].entry) then ToCome(all, whole, met + Reported(root, p, cs[next].entry), root, path, cs, next + 1) else !whole
  {
    var rest := cs[next..];
    assert rest[0] == cs[next] && rest[1..] == cs[next + 1..];
    hide Reported, Reads;
    var a, b := Reported(root, Join(path, cs[next].name), cs[next].entry), ReportedIn(root, path, cs[next + 1..]);
    assert met + (a + b) == (met + a) + b;
  }

  lemma {:induction false} ToComeLast(all: seq<Met>, whole: bool, met: seq<Met>, root: string, path: string, cs: seq<Child>)
    requires ToCome(all, whole, met, root, path, cs, |cs|)
    ensures all == met && whole
  {
  }

  class Walker {
    var met: seq<Met>

    constructor ()
      ensures met == []
    {
      met := [];
    }

    /** Depth first, reading each directory in chunks; an unreadable directory stops the walk. */
    method BoundedWalk(root: string, path: string, e: Entry) returns (ok: bool)
      modifies this
      ensures ok == Reads(root, path, e)
      ensures ok ==> met == old(met) + Reported(root, path, e)
      decreases e
    {
      if e.Link? { return true; }
      if e.Regular? {
        met := met + [(path, e.file)];
        return true;
      }
      if SkipDir(root, path) { return true; }
      var cs, next := e.children, 0;
      ghost var all, whole := met + ReportedIn(root, path, cs), ReadsIn(root, path, cs);
      ToComeFirst(met, root, path, cs);
      hide ToCome;
      while next < |cs|
        invariant next <= |cs| && ToCome(all, whole, met, root, path, cs, next)
      {
        var stop := if next + CHUNK < |cs| then next + CHUNK else |cs|;
        while next < stop
          invariant next <= stop <= |cs| && ToCome(all, whole, met, root, path, cs, next)
        {
          ToComeStep(all, whole, met, root, path, cs, next);
          ok := BoundedWalk(root, Join(path, cs[next].name), cs[next].entry);
          if !ok { return; }
          next := next + 1;
        }
      }
      ToComeLast(all, whole, met, root, path, cs);
      ok := !e.broken;
    }
  }

  // ---- where files lie

  lemma {:induction false} ChildPath(path: string, name: string)
    ensures Below(Join(path, name), path)
  {
  }

  lemma {:induction false} FirstElementIs(a: string, rest: string)
    requires (forall i :: 0 <= i < |a| ==> a[i] != '/') && (|rest| > 0 ==> rest[0] == '/')
    ensures FirstElement(a + rest) == a
  {
    if a != [] {
      FirstElementIs(a[1..], rest);
      assert (a + rest)[1..] == a[1..] + rest;
    } else {
      assert a + rest == rest;
    }
  }

  lemma {:induction false} ElementBelow(path: string, a: string, x: string)
    requires GoodName(a) && Under(x, Join(path, a))
    ensures |x| > |path| && FirstElement(x[|path| + 1..]) == a
  {
    var n := |path| + 1 + |a|;
    assert x[..n] == Join(path, a);
    assert x[|path| + 1..n] == x[..n][|path| + 1..] == a;
    assert x[|path| + 1..] == a + x[n..];
    FirstElementIs(a, x[n..]);
  }

  /** Two names of one directory have nothing below both. */
  lemma {:induction false} OneChild(path: string, a: string, b: string, x: string)
    requires GoodName(a) && GoodName(b)
    requires Under(x, Join(path, a)) && Under(x, Join(path, b))
    ensures a == b
  {
    ElementBelow(path, a, x);
    ElementBelow(path, b, x);
  }

  lemma {:induction false} NothingBetween(path: string, name: string, target: string)
    requires GoodName(name) && Below(target, path)
    ensures !Below(Join(path, name), target)
  {
    var p := Join(path, name);
    assert forall i :: |path| < i < |p| ==> p[i] == name[i - |path| - 1];
  }

  lemma {:induction false} FilesUnder(path: string, e: Entry, x: Met)
    requires x in Files(path, e)
    ensures Under(x.0, path)
    ensures e.Folder? ==> Below(x.0, path)
    decreases e
  {
    if e.Folder? {
      var c := FilesInUnder(path, e.children, x);
      ChildPath(path, c.name);
      if x.0 != Join(path, c.name) { BelowTransitive(x.0, Join(path, c.name), path); }
    }
  }

  lemma {:induction false} FilesInUnder(path: string, cs: seq<Child>, x: Met) returns (c: Child)
    requires x in FilesIn(path, cs)
    ensures c in cs && Under(x.0, Join(path, c.name)) && x in Files(Join(path, c.name), c.entry)
    decreases cs
  {
    if x in Files(Join(path, cs[0].name), cs[0].entry) {
      FilesUnder(Join(path, cs[0].name), cs[0].entry, x);
      c := cs[0];
    } else {
      c := FilesInUnder(path, cs[1..], x);
    }
  }

  /** A walk reports exactly the regular files that no hidden directory separates from the root. */
  lemma {:induction false} ReportedExact(root: string, path: string, e: Entry, x: Met)
    requires |root| > 1 && Under(path, root) && WellFormed(e)
    requires if path == root then !e.Regular? else !HiddenDir(root, Dir(path))
    ensures x in Reported(root, path, e) <==> x in Files(path, e) && !HiddenDir(root, Dir(x.0))
    decreases e
  {
    if e.Folder? {
      if SkipDir(root, path) {
        DirIsNearest(path, root);
        assert HiddenDir(root, path);
        if x in Files(path, e) {
          FilesUnder(path, e, x);
          DirIsNearest(x.0, path);
          HiddenBelow(root, path, Dir(x.0));
        }
      } else {
        ReportedInExact(root, path, e.children, x);
      }
    }
  }

  lemma {:induction false} ReportedInExact(root: string, path: string, cs: seq<Child>, x: Met)
    requires |root| > 1 && Under(path, root) && WellFormedIn(cs) && !HiddenDir(root, path)
    ensures x in ReportedIn(root, path, cs) <==> x in FilesIn(path, cs) && !HiddenDir(root, Dir(x.0))
    decreases cs
  {
    if cs != [] {
      var p := Join(path, cs[0].name);
      DirOfJoin(path, cs[0].name);
      ChildPath(path, cs[0].name);
      UnderTransitive(p, path, root);
      ReportedExact(root, p, cs[0].entry, x);
      ReportedInExact(root, path, cs[1..], x);
    }
  }

  ghost predicate Once(met: seq<Met>) {
    forall i, j :: 0 <= i < j < |met| ==> met[i].0 != met[j].0
  }

  lemma {:induction false} OnceAppend(a: seq<Met>, b: seq<Met>)
    requires Once(a) && Once(b) && forall x, y :: x in a && y in b ==> x.0 != y.0
    ensures Once(a + b)
  {
    forall i, j | 0 <= i < j < |a + b|
      ensures (a + b)[i].0 != (a + b)[j].0
    {
      if i < |a| <= j { assert (a + b)[i] in a && (a + b)[j] in b; }
    }
  }

  lemma {:induction false} FilesOnce(path: string, e: Entry)
    requires WellFormed(e)
    ensures Once(Files(path, e))
    decreases e
  {
    if e.Folder? { FilesInOnce(path, e.children); }
  }

  lemma {:induction false} FilesInOnce(path: string, cs: seq<Child>)
    requires WellFormedIn(cs)
    ensures Once(FilesIn(path, cs))
    decreases cs
  {
    if cs != [] {
      var p := Join(path, cs[0].name);
      FilesOnce(p, cs[0].entry);
      FilesInOnce(path, cs[1..]);
      forall x, y | x in Files(p, cs[0].entry) && y in FilesIn(path, cs[1..])
        ensures x.0 != y.0
      {
        FilesUnder(p, cs[0].entry, x);
        var c := FilesInUnder(path, cs[1..], y);
        if x.0 == y.0 { OneChild(path, cs[0].name, c.name, x.0); }
      }
      OnceAppend(Files(p, cs[0].entry), FilesIn(path, cs[1..]));
    }
  }

  /** A walk reports nothing twice. */
  lemma {:induction false} ReportedOnce(root: string, path: string, e: Entry)
    requires WellFormed(e)
    ensures Once(Reported(root, path, e))
    ensures forall x :: x in Reported(root, path, e) ==> x in Files(path, e)
    decreases e
  {
    if e.Folder? && !SkipDir(root, path) { ReportedInOnce(root, path, e.children); }
  }

  lemma {:induction false} ReportedInOnce(root: string, path: string, cs: seq<Child>)
    requires WellFormedIn(cs)
    ensures Once(ReportedIn(root, path, cs))
    ensures forall x :: x in ReportedIn(root, path, cs) ==> x in FilesIn(path, cs)
    decreases cs
  {
    if cs != [] {
      var p := Join(path, cs[0].name);
      ReportedOnce(root, p, cs[0].entry);
      ReportedInOnce(root, path, cs[1..]);
      forall x, y | x in Files(p, cs[0].entry) && y in FilesIn(path, cs[1..])
        ensures x.0 != y.0
      {
        FilesUnder(p, cs[0].entry, x);
        var c := FilesInUnder(path, cs[1..], y);
        if x.0 == y.0 { OneChild(path, cs[0].name, c.name, x.0); }
      }
      OnceAppend(Reported(root, p, cs[0].entry), ReportedIn(root, path, cs[1..]));
    }
  }

  /** No file of a tree lies below another. */
  lemma {:induction false} FilesUnnested(path: string, e: Entry, x: Met, y: Met)
    requires WellFormed(e) && x in Files(path, e) && y in Files(path, e)
    ensures !Below(x.0, y.0)
    decreases e
  {
    if e.Folder? && Below(x.0, y.0) {
      var c := FilesInUnder(path, e.children, x);
      var d := FilesInUnder(path, e.children, y);
      BelowTransitive(x.0, y.0, Join(path, d.name));
      OneChild(path, c.name, d.name, x.0);
      FilesUnnested(Join(path, c.name), c.entry, x, y);
    }
  }

  // ---- the targets of a scoped walk

  /** The entry at a path of the tree. Symbolic links are not followed. */
  function Locate(path: string, e: Entry, target: string): Option<Entry>
    decreases e
  {
    if target == path then Some(e)
    else if e.Folder? then LocateIn(path, e.children, target)
    else None
  }

  function LocateIn(path: string, cs: seq<Child>, target: string): Option<Entry>
    decreases cs
  {
    if cs == [] then None
    else if Under(target, Join(path, cs[0].name)) then Locate(Join(path, cs[0].name), cs[0].entry, target)
    else LocateIn(path, cs[1..], target)
  }

  /** The files at or below a target are those of the entry found there. */
  lemma {:induction false} LocateFiles(path: string, e: Entry, target: string, x: Met)
    requires WellFormed(e) && Under(target, path)
    ensures var t := Locate(path, e, target);
            && (t.Some? ==> WellFormed(t.value))
            && (x in Files(path, e) && Under(x.0, target) <==> t.Some? && x in Files(target, t.value))
    decreases e
  {
    if target == path {
      if x in Files(path, e) { FilesUnder(path, e, x); }
    } else if e.Folder? {
      LocateInFiles(path, e.children, target, x);
    }
  }

  lemma {:induction false} LocateInFiles(path: string, cs: seq<Child>, target: string, x: Met)
    requires WellFormedIn(cs) && Below(target, path)
    ensures var t := LocateIn(path, cs, target);
            && (t.Some? ==> WellFormed(t.value))
            && (x in FilesIn(path, cs) && Under(x.0, target) <==> t.Some? && x in Files(target, t.value))
    decreases cs
  {
    if cs != [] {
      var p := Join(path, cs[0].name);
      LocateInFiles(path, cs[1..], target, x);
      if Under(target, p) {
        LocateFiles(p, cs[0].entry, target, x);
        if x in FilesIn(path, cs[1..]) && Under(x.0, target) {
          var c := FilesInUnder(path, cs[1..], x);
          UnderTransitive(x.0, target, p);
          OneChild(path, cs[0].name, c.name, x.0);
        }
      } else if x in Files(p, cs[0].entry) && Under(x.0, target) {
        FilesUnder(p, cs[0].entry, x);
        Comparable(x.0, p, target);
        NothingBetween(path, cs[0].name, target);
      }
    }
  }

  type Trees = map<string, Entry>

  /** The part of a root that a walk starts from: all of it, or the scopes it holds. */
  function Targets(root: string, scopes: seq<string>): seq<string> {
    if scopes == [] then []
    else (if Under(scopes[0], root) then [scopes[0]] else []) + Targets(root, scopes[1..])
  }

  function WalkTargets(root: string, e: Entry, targets: seq<string>): seq<Met> {
    if targets == [] then []
    else
      var t := Locate(root, e, targets[0]);
      (if t.Some? then Reported(root, targets[0], t.value) else []) + WalkTargets(root, e, targets[1..])
  }

  function WalkRoot(root: string, e: Entry, scopes: seq<string>): seq<Met> {
    WalkTargets(root, e, if scopes == [] then [root] else Targets(root, scopes))
  }

  function WalkRoots(roots: seq<string>, trees: Trees, scopes: seq<string>): seq<Met>
    requires forall r :: r in roots ==> r in trees
  {
    if roots == [] then [] else WalkRoot(roots[0], trees[roots[0]], scopes) + WalkRoots(roots[1..], trees, scopes)
  }

  // ---- the job of a scan over a still disk

  ghost predicate Mounted(cfg: Config, trees: Trees) {
    && (forall r :: r in cfg.roots ==> r in trees && WellFormed(trees[r]) && !trees[r].Regular?)
    && Unrepeated(cfg.roots)
  }

  /** The map view of the trees below a library's roots. */
  ghost predicate Shows(cfg: Config, trees: Trees, disk: Disk)
    requires Mounted(cfg, trees)
  {
    && (forall r, x :: r in cfg.roots && x in Files(r, trees[r]) ==> x.0 in disk && disk[x.0] == x.1)
    && (forall q :: q in disk ==> exists r :: r in cfg.roots && (q, disk[q]) in Files(r, trees[r]))
  }

  /** Scopes lie below the roots, outside hidden directories, and not below each other. */
  ghost predicate ScopesFit(cfg: Config, scopes: seq<string>) {
    && (forall s :: s in scopes ==> exists r :: r in cfg.roots && Under(s, r))
    && (forall s, r :: s in scopes && r in cfg.roots && Below(s, r) ==> !HiddenDir(r, Dir(s)))
    && (forall i, j :: 0 <= i < j < |scopes| ==> !Under(scopes[i], scopes[j]) && !Under(scopes[j], scopes[i]))
  }

  function Stamped(met: seq<Met>): seq<(string, Stamp)> {
    if met == [] then [] else Stamped(met[..|met| - 1]) + [(met[|met| - 1].0, met[|met| - 1].1.stamp)]
  }

  function Sightings(met: seq<Met>, disk: Disk): seq<Sighting> {
    if met == [] then []
    else Sightings(met[..|met| - 1], disk)
         + (if IsStrm(met[|met| - 1].0) then [Sighting(met[|met| - 1].0, disk)] else [])
  }

  lemma {:induction false} TargetsExact(root: string, scopes: seq<string>, t: string)
    ensures t in Targets(root, scopes) <==> t in scopes && Under(t, root)
  {
    if scopes != [] { TargetsExact(root, scopes[1..], t); }
  }

  /** Targets a walk may start from. */
  ghost predicate Startable(root: string, targets: seq<string>) {
    && (forall t :: t in targets ==> Under(t, root) && (t != root ==> !HiddenDir(root, Dir(t))))
    && (forall i, j :: 0 <= i < j < |targets| ==> !Under(targets[i], targets[j]) && !Under(targets[j], targets[i]))
  }

  lemma {:induction false} WalkTargetsExact(root: string, e: Entry, targets: seq<string>, x: Met)
    requires |root| > 1 && WellFormed(e) && !e.Regular? && Startable(root, targets)
    ensures x in WalkTargets(root, e, targets)
            <==> x in Files(root, e) && !HiddenDir(root, Dir(x.0)) && exists t :: t in targets && Under(x.0, t)
  {
    hide WellFormed, HiddenDir, Locate, Files, Reported;
    if targets != [] {
      WalkTargetsExact(root, e, targets[1..], x);
      LocateFiles(root, e, targets[0], x);
      var t := Locate(root, e, targets[0]);
      if t.Some? {
        if targets[0] == root { LocateRoot(root, e); }
        ReportedExact(root, targets[0], t.value, x);
      }
      assert forall u :: u in targets <==> u == targets[0] || u in targets[1..];
    }
  }

  lemma {:induction false} LocateRoot(root: string, e: Entry)
    ensures Locate(root, e, root) == Some(e)
  {
  }

  lemma {:induction false} WalkTargetsOnce(root: string, e: Entry, targets: seq<string>)
    requires |root| > 1 && WellFormed(e) && !e.Regular? && Startable(root, targets)
    ensures Once(WalkTargets(root, e, targets))
  {
    hide WellFormed, HiddenDir, Locate, Files, Reported;
    if targets != [] {
      WalkTargetsOnce(root, e, targets[1..]);
      var t := Locate(root, e, targets[0]);
      if t.Some? {
        LocateFiles(root, e, targets[0], ("", File(ZERO, Unreadable, None)));
        ReportedOnce(root, targets[0], t.value);
        forall x, y | x in Reported(root, targets[0], t.value) && y in WalkTargets(root, e, targets[1..])
          ensures x.0 != y.0
        {
          FilesUnder(targets[0], t.value, x);
          WalkTargetsExact(root, e, targets[1..], y);
          var u :| u in targets[1..] && Under(y.0, u);
          if x.0 == y.0 { Comparable(x.0, targets[0], u); }
        }
        OnceAppend(Reported(root, targets[0], t.value), WalkTargets(root, e, targets[1..]));
      }
    }
  }

  lemma {:induction false} TargetsUnnested(root: string, scopes: seq<string>)
    requires forall i, j :: 0 <= i < j < |scopes| ==> !Under(scopes[i], scopes[j]) && !Under(scopes[j], scopes[i])
    ensures var ts := Targets(root, scopes); forall i, j :: 0 <= i < j < |ts| ==> !Under(ts[i], ts[j]) && !Under(ts[j], ts[i])
  {
    if scopes != [] {
      TargetsUnnested(root, scopes[1..]);
      var rest := Targets(root, scopes[1..]);
      forall j | 0 <= j < |rest|
        ensures !Under(scopes[0], rest[j]) && !Under(rest[j], scopes[0])
      {
        TargetsExact(root, scopes[1..], rest[j]);
      }
    }
  }

  lemma {:induction false} ScopesStartable(cfg: Config, root: string, scopes: seq<string>)
    requires root in cfg.roots && ScopesFit(cfg, scopes)
    ensures Startable(root, if scopes == [] then [root] else Targets(root, scopes))
  {
    hide HiddenDir;
    var ts := Targets(root, scopes);
    forall t | t in ts
      ensures t in scopes && Under(t, root) && (t != root ==> !HiddenDir(root, Dir(t)))
    {
      TargetsExact(root, scopes, t);
    }
    TargetsUnnested(root, scopes);
  }

  lemma {:induction false} WalkRootExact(cfg: Config, root: string, e: Entry, scopes: seq<string>, x: Met)
    requires ValidConfig(cfg) && root in cfg.roots && WellFormed(e) && !e.Regular? && ScopesFit(cfg, scopes)
    ensures x in WalkRoot(root, e, scopes) <==> x in Files(root, e) && Visible(cfg, x.0) && InScope(x.0, scopes)
    ensures Once(WalkRoot(root, e, scopes))
  {
    hide WellFormed, HiddenDir, Files, WalkTargets;
    var ts := if scopes == [] then [root] else Targets(root, scopes);
    forall t
      ensures t in Targets(root, scopes) <==> t in scopes && Under(t, root)
    {
      TargetsExact(root, scopes, t);
    }
    ScopesStartable(cfg, root, scopes);
    WalkTargetsExact(root, e, ts, x);
    WalkTargetsOnce(root, e, ts);
    if x in Files(root, e) {
      RootFile(root, e, x);
      RootIsUnique(cfg, x.0, root);
      forall s | s in scopes && Under(x.0, s)
        ensures s in Targets(root, scopes)
      {
        var r :| r in cfg.roots && Under(s, r);
        UnderTransitive(x.0, s, r);
        RootIsUnique(cfg, x.0, r);
      }
    }
  }

  lemma {:induction false} RootFile(root: string, e: Entry, x: Met)
    requires x in Files(root, e) && !e.Regular?
    ensures Below(x.0, root)
  {
    FilesUnder(root, e, x);
  }

  ghost predicate Unrepeated(roots: seq<string>) {
    forall i, j :: 0 <= i < j < |roots| ==> roots[i] != roots[j]
  }

  lemma {:induction false} WalkRootsExact(cfg: Config, roots: seq<string>, trees: Trees, scopes: seq<string>, x: Met)
    requires ValidConfig(cfg) && Mounted(cfg, trees) && ScopesFit(cfg, scopes)
    requires (forall r :: r in roots ==> r in cfg.roots)
    ensures x in WalkRoots(roots, trees, scopes)
            <==> Visible(cfg, x.0) && InScope(x.0, scopes) && exists r :: r in roots && x in Files(r, trees[r])
  {
    hide ValidConfig, ScopesFit, Visible, WalkRoot, Files, WellFormed, InScope;
    if roots != [] {
      WalkRootExact(cfg, roots[0], trees[roots[0]], scopes, x);
      WalkRootsExact(cfg, roots[1..], trees, scopes, x);
      assert forall r :: r in roots <==> r == roots[0] || r in roots[1..];
    }
  }

  lemma {:induction false} WalkRootsOnce(cfg: Config, roots: seq<string>, trees: Trees, scopes: seq<string>)
    requires ValidConfig(cfg) && Mounted(cfg, trees) && ScopesFit(cfg, scopes)
    requires (forall r :: r in roots ==> r in cfg.roots) && Unrepeated(roots)
    ensures Once(WalkRoots(roots, trees, scopes))
  {
    hide ValidConfig, ScopesFit, Visible, WalkRoot, Files, WellFormed, InScope;
    if roots != [] {
      var a, b := WalkRoot(roots[0], trees[roots[0]], scopes), WalkRoots(roots[1..], trees, scopes);
      WalkRootExact(cfg, roots[0], trees[roots[0]], scopes, ("", File(ZERO, Unreadable, None)));
      WalkRootsOnce(cfg, roots[1..], trees, scopes);
      forall x, y | x in a && y in b
        ensures x.0 != y.0
      {
        WalkRootExact(cfg, roots[0], trees[roots[0]], scopes, x);
        WalkRootsExact(cfg, roots[1..], trees, scopes, y);
        var r :| r in roots[1..] && y in Files(r, trees[r]);
        RootFile(roots[0], trees[roots[0]], x);
        RootFile(r, trees[r], y);
        if x.0 == y.0 {
          RootIsUnique(cfg, x.0, roots[0]);
          RootIsUnique(cfg, x.0, r);
        }
      }
      OnceAppend(a, b);
    }
  }

  /** On a still disk the walk reports every visible file in scope, once, and nothing else. */
  lemma {:induction false} WalkExact(cfg: Config, trees: Trees, disk: Disk, scopes: seq<string>, x: Met)
    requires ValidConfig(cfg) && Mounted(cfg, trees) && Shows(cfg, trees, disk) && ScopesFit(cfg, scopes)
    ensures x in WalkRoots(cfg.roots, trees, scopes)
            <==> x.0 in disk && disk[x.0] == x.1 && Visible(cfg, x.0) && InScope(x.0, scopes)
    ensures Once(WalkRoots(cfg.roots, trees, scopes))
  {
    hide ValidConfig, ScopesFit, Visible, WalkRoots, Files, WellFormed, InScope;
    WalkRootsExact(cfg, cfg.roots, trees, scopes, x);
    WalkRootsOnce(cfg, cfg.roots, trees, scopes);
  }

  // ---- any scopes, nested or inside hidden directories

  /** A walk that starts at t and reaches d skips d or a directory on the way. */
  predicate Cut(root: string, t: string, d: string)
    decreases |d|
  {
    Under(d, t) && d != root && ("." <= Base(d) || (d != t && LastSlash(d) > 0 && Cut(root, t, Dir(d))))
  }

  lemma {:induction false} CutBelow(root: string, t: string, d: string, e: string)
    requires |root| > 1 && |t| > 0 && Under(e, d) && Cut(root, t, d) && Under(t, root)
    ensures Cut(root, t, e)
    decreases |e|
  {
    if e != d {
      DirIsNearest(e, d);
      UnderTransitive(e, d, t);
      CutBelow(root, t, d, Dir(e));
    }
  }

  /** The file at p is met by a walk that starts at t. */
  predicate Meets(root: string, t: string, p: string) { Under(p, t) && (p == t || !Cut(root, t, Dir(p))) }

  lemma {:induction false} ReportedFrom(root: string, t: string, path: string, e: Entry, x: Met)
    requires |root| > 1 && Under(t, root) && Under(path, t) && WellFormed(e)
    requires path != t ==> !Cut(root, t, Dir(path))
    ensures x in Reported(root, path, e) <==> x in Files(path, e) && Meets(root, t, x.0)
    decreases e
  {
    if e.Folder? {
      if SkipDir(root, path) {
        if x in Files(path, e) {
          FilesUnder(path, e, x);
          DirIsNearest(x.0, path);
          CutBelow(root, t, path, Dir(x.0));
          assert x.0 != t;
        }
      } else {
        assert !Cut(root, t, path);
        ReportedInFrom(root, t, path, e.children, x);
      }
    }
  }

  lemma {:induction false} ReportedInFrom(root: string, t: string, path: string, cs: seq<Child>, x: Met)
    requires |root| > 1 && Under(t, root) && Under(path, t) && WellFormedIn(cs) && !Cut(root, t, path)
    ensures x in ReportedIn(root, path, cs) <==> x in FilesIn(path, cs) && Meets(root, t, x.0)
    decreases cs
  {
    if cs != [] {
      var p := Join(path, cs[0].name);
      DirOfJoin(path, cs[0].name);
      ChildPath(path, cs[0].name);
      UnderTransitive(p, path, t);
      ReportedFrom(root, t, p, cs[0].entry, x);
      ReportedInFrom(root, t, path, cs[1..], x);
    }
  }

  lemma {:induction false} WalkTargetsMeet(root: string, e: Entry, targets: seq<string>, x: Met)
    requires |root| > 1 && WellFormed(e) && forall t :: t in targets ==> Under(t, root)
    ensures x in WalkTargets(root, e, targets) <==> x in Files(root, e) && exists t :: t in targets && Meets(root, t, x.0)
  {
    hide WellFormed, Locate, Files, Reported, Cut;
    if targets != [] {
      WalkTargetsMeet(root, e, targets[1..], x);
      LocateFiles(root, e, targets[0], x);
      var t := Locate(root, e, targets[0]);
      if t.Some? { ReportedFrom(root, targets[0], targets[0], t.value, x); }
      assert forall u :: u in targets <==> u == targets[0] || u in targets[1..];
    }
  }

  /** Where a walk of one root starts. */
  function Starts(root: string, scopes: seq<string>): seq<string> { if scopes == [] then [root] else Targets(root, scopes) }

  /** For any scopes whatever, a walk reports a file if and only if it meets it from the root, or from a scope below it. */
  lemma {:induction false} WalkReports(roots: seq<string>, trees: Trees, scopes: seq<string>, x: Met)
    requires forall r :: r in roots ==> |r| > 1 && r in trees && WellFormed(trees[r])
    ensures x in WalkRoots(roots, trees, scopes)
            <==> exists r, t :: r in roots && x in Files(r, trees[r]) && t in Starts(r, scopes) && Meets(r, t, x.0)
  {
    hide WellFormed, Files, WalkTargets, Meets;
    if roots != [] {
      var r := roots[0];
      WalkReports(roots[1..], trees, scopes, x);
      forall t | t in Starts(r, scopes)
        ensures Under(t, r)
      {
        if scopes != [] { TargetsExact(r, scopes, t); }
      }
      WalkTargetsMeet(r, trees[r], Starts(r, scopes), x);
      assert forall q :: q in roots <==> q == r || q in roots[1..];
    }
  }

  // ---- the job

  lemma {:induction false} InventoryOfStamped(met: seq<Met>)
    requires Once(met)
    ensures forall q :: q in Inventory(Stamped(met)) <==> exists i :: 0 <= i < |met| && met[i].0 == q
    ensures forall i :: 0 <= i < |met| ==> met[i].0 in Inventory(Stamped(met)) && Inventory(Stamped(met))[met[i].0] == met[i].1.stamp
  {
    if met != [] {
      var n := |met| - 1;
      InventoryOfStamped(met[..n]);
      assert Stamped(met)[..|Stamped(met)| - 1] == Stamped(met[..n]);
      forall q | q in Inventory(Stamped(met))
        ensures exists i :: 0 <= i < |met| && met[i].0 == q
      {
        if q == met[n].0 { assert met[n].0 == q; }
        else {
          var i :| 0 <= i < |met[..n]| && met[..n][i].0 == q;
          assert met[i].0 == q;
        }
      }
      forall i | 0 <= i < |met|
        ensures met[i].0 in Inventory(Stamped(met)) && Inventory(Stamped(met))[met[i].0] == met[i].1.stamp
      {
        if i < n { assert met[..n][i] == met[i] && met[i].0 != met[n].0; }
      }
    }
  }

  lemma {:induction false} SightingsExact(met: seq<Met>, disk: Disk)
    ensures forall v :: v in Sightings(met, disk) <==> v.disk == disk && IsStrm(v.path) && v.path in PathsOf(met)
  {
    hide IsStrm;
    if met != [] {
      SightingsExact(met[..|met| - 1], disk);
      PathsOfSnoc(met);
    }
  }

  function PathsOf(met: seq<Met>): set<string> { set x | x in met :: x.0 }

  lemma {:induction false} PathsOfSnoc(met: seq<Met>)
    requires met != []
    ensures PathsOf(met) == PathsOf(met[..|met| - 1]) + {met[|met| - 1].0}
    ensures Once(met) ==> met[|met| - 1].0 !in PathsOf(met[..|met| - 1])
  {
    assert met == met[..|met| - 1] + [met[|met| - 1]];
    assert forall x :: x in met <==> x in met[..|met| - 1] || x == met[|met| - 1];
  }

  lemma {:induction false} SightingsDistinct(met: seq<Met>, disk: Disk)
    requires Once(met)
    ensures Distinct(Sightings(met, disk))
  {
    hide IsStrm;
    if met != [] {
      var n := |met| - 1;
      SightingsDistinct(met[..n], disk);
      SightingsExact(met[..n], disk);
      PathsOfSnoc(met);
      var vs := Sightings(met[..n], disk);
      forall i | 0 <= i < |vs|
        ensures vs[i].path != met[n].0
      {
        assert vs[i] in vs;
      }
    }
  }

  /** Two walks over a disk that does not change give a scan exactly the job the exactness theorems ask for. */
  lemma {:induction false} WalksGiveStillJob(cfg: Config, trees: Trees, disk: Disk, job: Job)
    requires ValidConfig(cfg) && Mounted(cfg, trees) && Shows(cfg, trees, disk) && ScopesFit(cfg, job.scopes)
    requires job.walked == Stamped(WalkRoots(cfg.roots, trees, job.scopes))
    requires job.visits == Sightings(WalkRoots(cfg.roots, trees, job.scopes), disk)
    ensures StillJob(cfg, disk, job)
    ensures forall p, q :: p in disk && q in disk ==> !Below(p, q)
  {
    hide ValidConfig, ScopesFit, Visible, WalkRoots, Files, WellFormed, InScope, IsStrm, Sightings, Stamped, Inventory, Absolute;
    var met := WalkRoots(cfg.roots, trees, job.scopes);
    forall x: Met
      ensures x in met <==> x.0 in disk && disk[x.0] == x.1 && Visible(cfg, x.0) && InScope(x.0, job.scopes)
    {
      WalkExact(cfg, trees, disk, job.scopes, x);
    }
    WalkExact(cfg, trees, disk, job.scopes, ("", File(ZERO, Unreadable, None)));
    InventoryOfStamped(met);
    SightingsExact(met, disk);
    SightingsDistinct(met, disk);
    forall p, q | p in disk && q in disk
      ensures !Below(p, q)
    {
      DiskUnnested(cfg, trees, disk, p, q);
    }
    InventoryIs(cfg, disk, job.scopes, met);
    forall q | Visible(cfg, q)
      ensures Absolute(q)
    {
      VisibleAbsolute(cfg, q);
    }
    forall p | p in disk && Candidate(cfg, p) && InScope(p, job.scopes)
      ensures exists i :: 0 <= i < |job.visits| && job.visits[i].path == p
    {
      assert (p, disk[p]) in met;
      assert Sighting(p, disk) in job.visits;
    }
    forall i | 0 <= i < |job.visits|
      ensures Candidate(cfg, job.visits[i].path) && job.visits[i].path in disk && InScope(job.visits[i].path, job.scopes)
    {
      assert job.visits[i] in job.visits;
      assert job.visits[i].disk == disk;
    }
  }

  lemma {:induction false} Position(met: seq<Met>, x: Met) returns (i: nat)
    requires x in met
    ensures i < |met| && met[i] == x
  {
    i :| 0 <= i < |met| && met[i] == x;
  }

  lemma {:induction false} InventoryIs(cfg: Config, disk: Disk, scopes: seq<string>, met: seq<Met>)
    requires Once(met)
    requires forall x: Met :: x in met <==> x.0 in disk && disk[x.0] == x.1 && Visible(cfg, x.0) && InScope(x.0, scopes)
    ensures Inventory(Stamped(met)) == map q | q in disk && Visible(cfg, q) && InScope(q, scopes) :: disk[q].stamp
  {
    hide Visible, InScope, Inventory, Stamped;
    InventoryOfStamped(met);
    forall q
      ensures q in Inventory(Stamped(met)) <==> q in disk && Visible(cfg, q) && InScope(q, scopes)
      ensures q in Inventory(Stamped(met)) ==> Inventory(Stamped(met))[q] == disk[q].stamp
    {
      if q in Inventory(Stamped(met)) {
        var i :| 0 <= i < |met| && met[i].0 == q;
        assert met[i] in met;
      }
      if q in disk && Visible(cfg, q) && InScope(q, scopes) {
        assert (q, disk[q]) in met;
        var i := Position(met, (q, disk[q]));
      }
    }
  }

  lemma {:induction false} DiskUnnested(cfg: Config, trees: Trees, disk: Disk, p: string, q: string)
    requires ValidConfig(cfg) && Mounted(cfg, trees) && Shows(cfg, trees, disk) && p in disk && q in disk
    ensures !Below(p, q)
  {
    hide Files, WellFormed;
    var r :| r in cfg.roots && (p, disk[p]) in Files(r, trees[r]);
    var s :| s in cfg.roots && (q, disk[q]) in Files(s, trees[s]);
    RootFile(r, trees[r], (p, disk[p]));
    RootFile(s, trees[s], (q, disk[q]));
    if Below(p, q) {
      BelowTransitive(p, q, s);
      RootIsUnique(cfg, p, r);
      RootIsUnique(cfg, p, s);
      FilesUnnested(r, trees[r], (p, disk[p]), (q, disk[q]));
    }
  }
}
