/** Library roots: creating libraries and adding, replacing and removing their directories. */
module LibraryPaths {
  import opened Basics
  import opened Paths
  import Leaves

  /** stored is the explicit directory list; without one the library has its primary path only. */
  datatype Lib = Lib(primary: string, stored: Option<seq<string>>)

  function Locations(l: Lib): seq<string> {
    match l.stored case Some(paths) => paths case None => [l.primary]
  }

  /** The libraries by id, and the library of every indexed row by path. */
  datatype Catalog = Catalog(libs: map<string, Lib>, rows: map<string, string>)

  datatype Verb = Post | Put | Delete

  datatype Outcome = Done | BadRequest | Busy | NoLibrary | NoSuchRoot | BadPath | Conflict

  /** A directory named by a request, after links are resolved; None when it does not exist or is no directory. */
  type Resolved = Option<string>

  predicate PathsOverlap(a: string, b: string) {
    a == b || Below(a, b) || Below(b, a)
  }

  predicate Allowed(media: seq<string>, p: string) {
    exists i :: 0 <= i < |media| && Under(p, media[i])
  }

  /** mediaRoots keeps absolute directories other than "/". */
  predicate MediaRootsOk(media: seq<string>) {
    forall i :: 0 <= i < |media| ==> Absolute(media[i]) && |media[i]| > 1
  }

  /** Some root overlaps p, other than the root except of library id. */
  predicate Taken(libs: map<string, Lib>, p: string, id: string, except: Option<string>) {
    exists l, i :: l in libs && 0 <= i < |Locations(libs[l])| && !(l == id && except == Some(Locations(libs[l])[i]))
                   && PathsOverlap(Locations(libs[l])[i], p)
  }

  function Without(paths: seq<string>, x: string): seq<string> {
    if paths == [] then []
    else Without(paths[..|paths| - 1], x) + (if paths[|paths| - 1] == x then [] else [paths[|paths| - 1]])
  }

  function EmptyPrimary(id: string): string { "/media/.go-emby-empty-" + id }

  function Stored(c: Catalog, id: string, paths: seq<string>, removed: Option<string>): Catalog {
    Catalog(c.libs[id := Lib(if paths == [] then EmptyPrimary(id) else paths[0], Some(paths))],
            if removed.Some? then map p | p in c.rows && !(c.rows[p] == id && Under(p, removed.value)) :: c.rows[p] else c.rows)
  }

  /** scanning says that some scan runs: then directories can only be added. */
  function Folders(c: Catalog, media: seq<string>, scanning: bool, verb: Verb, id: string, former: string, path: string, found: Resolved): (Outcome, Catalog) {
    if !verb.Post? && scanning then (Busy, c)
    else if id !in c.libs then (NoLibrary, c)
    else
      var all := Locations(c.libs[id]);
      if verb.Put? && former !in all then (NoSuchRoot, c)
      else if verb.Delete? then
        if path !in all then (NoSuchRoot, c) else (Done, Stored(c, id, Without(all, path), Some(path)))
      else if found.None? || !Allowed(media, found.value) then (BadPath, c)
      else if Taken(c.libs, found.value, id, if verb.Put? then Some(former) else None) then (Conflict, c)
      else (Done, Stored(c, id, (if verb.Put? then Without(all, former) else all) + [found.value], if verb.Put? then Some(former) else None))
  }

  /** The first directory that cannot be accepted decides; validated holds those accepted so far. */
  function Validate(libs: map<string, Lib>, media: seq<string>, paths: seq<Resolved>, validated: seq<string>): (Outcome, seq<string>)
    decreases |paths|
  {
    if paths == [] then (Done, validated)
    else if paths[0].None? || !Allowed(media, paths[0].value) then (BadPath, validated)
    else if exists i :: 0 <= i < |validated| && PathsOverlap(paths[0].value, validated[i]) then (Conflict, validated)
    else if Taken(libs, paths[0].value, "", None) then (Conflict, validated)
    else Validate(libs, media, paths[1..], validated + [paths[0].value])
  }

  function Create(c: Catalog, media: seq<string>, id: string, named: bool, paths: seq<Resolved>): (Outcome, Catalog) {
    if !named || paths == [] || |paths| > 100 then (BadRequest, c)
    else
      var v := Validate(c.libs, media, paths, []);
      if v.0 != Done then (v.0, c)
      else (Done, Stored(c, id, v.1, None))
  }

  class Libraries {
    var libs: map<string, Lib>
    var rows: map<string, string>

    function C(): Catalog
      reads this
    {
      Catalog(libs, rows)
    }

    constructor ()
      ensures C() == Catalog(map[], map[])
    {
      libs, rows := map[], map[];
    }

    method OverlapsAny(p: string, id: string, except: Option<string>) returns (taken: bool)
      ensures taken == Taken(libs, p, id, except)
    {
      var todo := libs.Keys;
      while todo != {}
        invariant todo <= libs.Keys
        invariant forall l, i ::
                    l in libs && l !in todo && 0 <= i < |Locations(libs[l])| && !(l == id && except == Some(Locations(libs[l])[i]))
                    ==> !PathsOverlap(Locations(libs[l])[i], p)
        decreases todo
      {
        var l :| l in todo;
        var paths := Locations(libs[l]);
        for i := 0 to |paths|
          invariant forall j :: 0 <= j < i && !(l == id && except == Some(paths[j])) ==> !PathsOverlap(paths[j], p)
        {
          if !(l == id && except == Some(paths[i])) && PathsOverlap(paths[i], p) { return true; }
        }
        todo := todo - {l};
      }
      return false;
    }

    method LibraryFolders(media: seq<string>, scanning: bool, verb: Verb, id: string, former: string, path: string, found: Resolved) returns (outcome: Outcome)
      modifies this
      ensures (outcome, C()) == Folders(old(C()), media, scanning, verb, id, former, path, found)
    {
      if !verb.Post? && scanning { return Busy; }
      if id !in libs { return NoLibrary; }
      var paths := Locations(libs[id]);
      var removed := None;
      if verb.Put? {
        var hit, kept := TakeOut(paths, former);
        if !hit { return NoSuchRoot; }
        paths, removed := kept, Some(former);
      }
      if !verb.Delete? {
        if found.None? || !Allowed(media, found.value) { return BadPath; }
        var taken := OverlapsAny(found.value, id, removed);
        if taken { return Conflict; }
        paths := paths + [found.value];
      } else {
        var hit, kept := TakeOut(paths, path);
        if !hit { return NoSuchRoot; }
        paths, removed := kept, Some(path);
      }
      if removed.Some? { rows := map p | p in rows && !(rows[p] == id && Under(p, removed.value)) :: rows[p]; }
      libs := libs[id := Lib(if |paths| > 0 then paths[0] else EmptyPrimary(id), Some(paths))];
      outcome := Done;
    }

    method CreateLibrary(media: seq<string>, id: string, named: bool, paths: seq<Resolved>) returns (outcome: Outcome)
      modifies this
      ensures (outcome, C()) == Create(old(C()), media, id, named, paths)
    {
      if !named || |paths| == 0 || |paths| > 100 { return BadRequest; }
      var validated: seq<string> := [];
      ghost var all := Validate(libs, media, paths, []);
      assert paths[0..] == paths;
      for n := 0 to |paths|
        invariant C() == old(C())
        invariant Validate(libs, media, paths[n..], validated) == all
      {
        ghost var rest := paths[n..];
        assert rest[0] == paths[n] && rest[1..] == paths[n + 1..];
        if paths[n].None? || !Allowed(media, paths[n].value) { return BadPath; }
        for i := 0 to |validated|
          invariant forall j :: 0 <= j < i ==> !PathsOverlap(paths[n].value, validated[j])
        {
          if PathsOverlap(paths[n].value, validated[i]) { return Conflict; }
        }
        var taken := OverlapsAny(paths[n].value, "", None);
        if taken { return Conflict; }
        validated := validated + [paths[n].value];
      }
      libs := libs[id := Lib(if validated == [] then EmptyPrimary(id) else validated[0], Some(validated))];
      outcome := Done;
    }
  }

  /** The loop that looks for a path in a list and keeps the others. */
  method TakeOut(paths: seq<string>, x: string) returns (found: bool, kept: seq<string>)
    ensures found == (x in paths) && kept == Without(paths, x)
  {
    found, kept := false, [];
    for i := 0 to |paths|
      invariant found == (x in paths[..i]) && kept == Without(paths[..i], x)
    {
      assert paths[..i + 1][..i] == paths[..i];
      if paths[i] == x { found := true; } else { kept := kept + [paths[i]]; }
    }
    assert paths[..|paths|] == paths;
  }

  // ---- what every catalog keeps

  predicate IsRoot(libs: map<string, Lib>, id: string, i: int) {
    id in libs && 0 <= i < |Locations(libs[id])|
  }

  /** All roots of all libraries, each listed once, are pairwise apart, absolute and not "/". */
  ghost predicate Separate(libs: map<string, Lib>) {
    && (forall a, i, b, j :: IsRoot(libs, a, i) && IsRoot(libs, b, j) && (a != b || i != j)
          ==> !PathsOverlap(Locations(libs[a])[i], Locations(libs[b])[j]))
    && (forall a, i :: IsRoot(libs, a, i) ==> Absolute(Locations(libs[a])[i]) && |Locations(libs[a])[i]| > 1)
  }

  /** Every row lies at or below a root of its own library. */
  ghost predicate RowsRooted(c: Catalog) {
    forall p :: p in c.rows ==> exists i :: IsRoot(c.libs, c.rows[p], i) && Under(p, Locations(c.libs[c.rows[p]])[i])
  }

  ghost predicate Good(c: Catalog) { Separate(c.libs) && RowsRooted(c) }

  /** A path lies at or below at most one root. */
  lemma {:induction false} OneRoot(libs: map<string, Lib>, p: string, a: string, i: int, b: string, j: int)
    requires Separate(libs) && IsRoot(libs, a, i) && IsRoot(libs, b, j)
    requires Under(p, Locations(libs[a])[i]) && Under(p, Locations(libs[b])[j])
    ensures a == b && i == j
  {
    Comparable(p, Locations(libs[a])[i], Locations(libs[b])[j]);
  }

  /** The directories of one library make a valid scan configuration. */
  lemma {:induction false} RootsScannable(libs: map<string, Lib>, id: string, tv: bool)
    requires Separate(libs) && id in libs
    ensures Leaves.ValidConfig(Leaves.Config(tv, Locations(libs[id])))
    ensures forall i, j :: 0 <= i < j < |Locations(libs[id])| ==> Locations(libs[id])[i] != Locations(libs[id])[j]
  {
    var roots := Locations(libs[id]);
    forall r, s | r in roots && s in roots && Under(r, s)
      ensures r == s
    {
      var i :| 0 <= i < |roots| && roots[i] == r;
      var j :| 0 <= j < |roots| && roots[j] == s;
      assert IsRoot(libs, id, i) && IsRoot(libs, id, j);
    }
    forall r | r in roots
      ensures Absolute(r) && |r| > 1
    {
      var i :| 0 <= i < |roots| && roots[i] == r;
      assert IsRoot(libs, id, i);
    }
    forall i, j | 0 <= i < j < |roots|
      ensures roots[i] != roots[j]
    {
      assert IsRoot(libs, id, i) && IsRoot(libs, id, j);
    }
  }

  /** Apart: pairwise, and from p. */
  ghost predicate Apart(paths: seq<string>) {
    forall i, j :: 0 <= i < j < |paths| ==> !PathsOverlap(paths[i], paths[j])
  }

  lemma {:induction false} WithoutFacts(paths: seq<string>, x: string)
    requires Apart(paths)
    ensures Apart(Without(paths, x))
    ensures forall p :: p in Without(paths, x) <==> p in paths && p != x
  {
    if paths != [] {
      var init, last := paths[..|paths| - 1], paths[|paths| - 1];
      WithoutFacts(init, x);
      assert paths == init + [last];
      forall i | 0 <= i < |Without(init, x)|
        ensures !PathsOverlap(Without(init, x)[i], last)
      {
        assert Without(init, x)[i] in init;
        var k :| 0 <= k < |init| && init[k] == Without(init, x)[i];
        assert paths[k] == init[k];
      }
    }
  }

  lemma {:induction false} OverlapSymmetric(a: string, b: string)
    ensures PathsOverlap(a, b) == PathsOverlap(b, a)
  {
  }

  /** A new directory list for one library keeps the roots apart when it is apart itself and each member is an
      old root of that library or was checked against all others. */
  lemma {:induction false} StoredSeparate(c: Catalog, id: string, paths: seq<string>, removed: Option<string>)
    requires Separate(c.libs) && Apart(paths)
    requires forall p :: p in paths ==> Absolute(p) && |p| > 1
    requires forall p, l, j :: p in paths && l != id && IsRoot(c.libs, l, j) ==> !PathsOverlap(Locations(c.libs[l])[j], p)
    ensures Separate(Stored(c, id, paths, removed).libs)
  {
    var libs := Stored(c, id, paths, removed).libs;
    assert Locations(libs[id]) == paths;
    hide PathsOverlap, Locations, Absolute;
    forall a, i | IsRoot(libs, a, i)
      ensures if a == id then Locations(libs[a])[i] in paths
              else IsRoot(c.libs, a, i) && Locations(libs[a]) == Locations(c.libs[a])
    {
    }
    forall a, i, b, j | IsRoot(libs, a, i) && IsRoot(libs, b, j) && (a != b || i != j)
      ensures !PathsOverlap(Locations(libs[a])[i], Locations(libs[b])[j])
    {
      OverlapSymmetric(Locations(libs[a])[i], Locations(libs[b])[j]);
    }
  }

  lemma {:induction false} LocationsApart(libs: map<string, Lib>, id: string)
    requires Separate(libs) && id in libs
    ensures Apart(Locations(libs[id]))
    ensures forall p :: p in Locations(libs[id]) ==> Absolute(p) && |p| > 1
    ensures forall p, l, j :: p in Locations(libs[id]) && l != id && IsRoot(libs, l, j) ==> !PathsOverlap(Locations(libs[l])[j], p)
  {
    var paths := Locations(libs[id]);
    forall i, j | 0 <= i < j < |paths|
      ensures !PathsOverlap(paths[i], paths[j])
    {
      assert IsRoot(libs, id, i) && IsRoot(libs, id, j);
    }
    forall p | p in paths
      ensures Absolute(p) && |p| > 1
      ensures forall l, j :: l != id && IsRoot(libs, l, j) ==> !PathsOverlap(Locations(libs[l])[j], p)
    {
      var i :| 0 <= i < |paths| && paths[i] == p;
      assert IsRoot(libs, id, i);
    }
  }

  lemma {:induction false} AllowedIsAbsolute(media: seq<string>, p: string)
    requires MediaRootsOk(media) && Allowed(media, p)
    ensures Absolute(p) && |p| > 1
  {
    var i :| 0 <= i < |media| && Under(p, media[i]);
    if p != media[i] { assert p[..|media[i]|][0] == p[0]; }
  }

  lemma {:induction false} NotTaken(libs: map<string, Lib>, p: string, id: string, except: Option<string>, l: string, j: int)
    requires !Taken(libs, p, id, except) && IsRoot(libs, l, j) && !(l == id && except == Some(Locations(libs[l])[j]))
    ensures !PathsOverlap(Locations(libs[l])[j], p)
  {
  }

  /** Rows stay rooted when the roots that remain are those of before, but for a removed one whose rows go. */
  lemma {:induction false} StoredRooted(c: Catalog, id: string, paths: seq<string>, removed: Option<string>)
    requires RowsRooted(c) && id in c.libs
    requires forall p :: p in Locations(c.libs[id]) && removed != Some(p) ==> p in paths
    ensures RowsRooted(Stored(c, id, paths, removed))
  {
    var d := Stored(c, id, paths, removed);
    forall p | p in d.rows
      ensures exists i :: IsRoot(d.libs, d.rows[p], i) && Under(p, Locations(d.libs[d.rows[p]])[i])
    {
      var i :| IsRoot(c.libs, c.rows[p], i) && Under(p, Locations(c.libs[c.rows[p]])[i]);
      if d.rows[p] == id {
        var root := Locations(c.libs[id])[i];
        assert root in paths;
        var k :| 0 <= k < |paths| && paths[k] == root;
        assert IsRoot(d.libs, id, k) && Locations(d.libs[id])[k] == root;
      } else {
        assert IsRoot(d.libs, d.rows[p], i);
      }
    }
  }

  /** Adding, replacing and removing a root keep all roots apart and every row under one of them. */
  lemma {:induction false} FoldersKeep(c: Catalog, media: seq<string>, scanning: bool, verb: Verb, id: string, former: string, path: string, found: Resolved)
    requires Good(c) && MediaRootsOk(media)
    ensures Good(Folders(c, media, scanning, verb, id, former, path, found).1)
  {
    hide Separate, RowsRooted, Stored, Taken, Allowed;
    if Folders(c, media, scanning, verb, id, former, path, found).0 == Done {
      var all := Locations(c.libs[id]);
      LocationsApart(c.libs, id);
      if verb.Delete? {
        WithoutFacts(all, path);
        StoredSeparate(c, id, Without(all, path), Some(path));
        StoredRooted(c, id, Without(all, path), Some(path));
      } else {
        var removed := if verb.Put? then Some(former) else None;
        var kept := if verb.Put? then Without(all, former) else all;
        if verb.Put? { WithoutFacts(all, former); }
        AllowedIsAbsolute(media, found.value);
        AddedApart(c.libs, id, kept, found.value, removed);
        StoredSeparate(c, id, kept + [found.value], removed);
        StoredRooted(c, id, kept + [found.value], removed);
      }
    }
  }

  lemma {:induction false} AddedApart(libs: map<string, Lib>, id: string, kept: seq<string>, p: string, removed: Option<string>)
    requires Separate(libs) && id in libs && Apart(kept) && !Taken(libs, p, id, removed)
    requires forall x :: x in kept ==> x in Locations(libs[id]) && removed != Some(x)
    ensures Apart(kept + [p])
    ensures forall l, j :: l != id && IsRoot(libs, l, j) ==> !PathsOverlap(Locations(libs[l])[j], p)
  {
    hide Separate, Taken;
    forall i | 0 <= i < |kept|
      ensures !PathsOverlap(kept[i], p)
    {
      assert kept[i] in kept;
      var j :| 0 <= j < |Locations(libs[id])| && Locations(libs[id])[j] == kept[i];
      NotTaken(libs, p, id, removed, id, j);
    }
    forall l, j | l != id && IsRoot(libs, l, j)
      ensures !PathsOverlap(Locations(libs[l])[j], p)
    {
      NotTaken(libs, p, id, removed, l, j);
    }
  }

  lemma {:induction false} ValidateFacts(libs: map<string, Lib>, media: seq<string>, paths: seq<Resolved>, validated: seq<string>)
    requires Separate(libs) && MediaRootsOk(media) && Apart(validated)
    requires forall p :: p in validated ==> Absolute(p) && |p| > 1
    requires forall p, l, j :: p in validated && IsRoot(libs, l, j) ==> !PathsOverlap(Locations(libs[l])[j], p)
    ensures var v := Validate(libs, media, paths, validated).1;
            && Apart(v) && (forall p :: p in v ==> Absolute(p) && |p| > 1)
            && (forall p, l, j :: p in v && IsRoot(libs, l, j) ==> !PathsOverlap(Locations(libs[l])[j], p))
    decreases |paths|
  {
    hide Separate, Allowed, Taken;
    if paths != [] && paths[0].Some? && Allowed(media, paths[0].value) && !Taken(libs, paths[0].value, "", None)
       && !(exists i :: 0 <= i < |validated| && PathsOverlap(paths[0].value, validated[i])) {
      var p := paths[0].value;
      AllowedIsAbsolute(media, p);
      forall l, j | IsRoot(libs, l, j)
        ensures !PathsOverlap(Locations(libs[l])[j], p)
      {
        NotTaken(libs, p, "", None, l, j);
      }
      ValidateFacts(libs, media, paths[1..], validated + [p]);
    }
  }

  /** A new library's roots are apart from each other and from all that exist. */
  lemma {:induction false} CreateKeeps(c: Catalog, media: seq<string>, id: string, named: bool, paths: seq<Resolved>)
    requires Good(c) && MediaRootsOk(media) && id !in c.libs
    ensures Good(Create(c, media, id, named, paths).1)
  {
    hide Separate, Validate, Taken, Allowed, RowsRooted, Stored;
    if Create(c, media, id, named, paths).0 == Done {
      ValidateFacts(c.libs, media, paths, []);
      var v := Validate(c.libs, media, paths, []).1;
      StoredSeparate(c, id, v, None);
      NewLibraryRooted(c, id, v);
    }
  }

  lemma {:induction false} NewLibraryRooted(c: Catalog, id: string, paths: seq<string>)
    requires RowsRooted(c) && id !in c.libs
    ensures RowsRooted(Stored(c, id, paths, None))
  {
    var d := Stored(c, id, paths, None);
    forall p | p in d.rows
      ensures exists i :: IsRoot(d.libs, d.rows[p], i) && Under(p, Locations(d.libs[d.rows[p]])[i])
    {
      var i :| IsRoot(c.libs, c.rows[p], i) && Under(p, Locations(c.libs[c.rows[p]])[i]);
      assert IsRoot(d.libs, d.rows[p], i);
    }
  }

  lemma {:induction false} RowOfRoot(c: Catalog, id: string, k: int, p: string)
    requires Good(c) && IsRoot(c.libs, id, k) && p in c.rows && Under(p, Locations(c.libs[id])[k])
    ensures c.rows[p] == id
  {
    hide Separate, Under, Locations;
    var i :| IsRoot(c.libs, c.rows[p], i) && Under(p, Locations(c.libs[c.rows[p]])[i]);
    OneRoot(c.libs, p, c.rows[p], i, id, k);
  }

  /** Removing a root deletes exactly the rows at or below it, although the statement names the library too. */
  lemma {:induction false} RemovalExact(c: Catalog, media: seq<string>, scanning: bool, id: string, path: string)
    requires Good(c) && Folders(c, media, scanning, Delete, id, "", path, None).0 == Done
    ensures Folders(c, media, scanning, Delete, id, "", path, None).1.rows == map p | p in c.rows && !Under(p, path) :: c.rows[p]
  {
    hide Good, Locations, Under, Taken, Without;
    var k :| 0 <= k < |Locations(c.libs[id])| && Locations(c.libs[id])[k] == path;
    forall p | p in c.rows && Under(p, path)
      ensures c.rows[p] == id
    {
      RowOfRoot(c, id, k, p);
    }
  }

  // ---- what a request does and when it is refused

  /** Some directory of some library overlaps p, the directory except of library id aside. */
  ghost predicate Crowded(libs: map<string, Lib>, p: string, id: string, except: Option<string>) {
    exists l, i :: IsRoot(libs, l, i) && (l == id ==> except != Some(Locations(libs[l])[i])) && PathsOverlap(Locations(libs[l])[i], p)
  }

  lemma {:induction false} CrowdedIsTaken(libs: map<string, Lib>, p: string, id: string, except: Option<string>)
    ensures Taken(libs, p, id, except) <==> Crowded(libs, p, id, except)
  {
    hide PathsOverlap, Locations;
    if Taken(libs, p, id, except) {
      var l, i :| l in libs && 0 <= i < |Locations(libs[l])| && !(l == id && except == Some(Locations(libs[l])[i]))
                  && PathsOverlap(Locations(libs[l])[i], p);
      assert IsRoot(libs, l, i);
    }
  }

  /** A path is allowed when it is a media root or its text starts with one and a slash. */
  lemma {:induction false} AllowedIs(media: seq<string>, p: string)
    ensures Allowed(media, p) <==> exists m :: m in media && (p == m || m + "/" <= p)
  {
    forall m
      ensures Below(p, m) <==> m + "/" <= p
    {
      if Below(p, m) { assert p[..|m| + 1] == m + "/"; }
      if m + "/" <= p { assert p[..|m|] == (m + "/")[..|m|] && p[|m|] == (m + "/")[|m|]; }
    }
    hide Below;
    if Allowed(media, p) {
      var i :| 0 <= i < |media| && Under(p, media[i]);
      assert media[i] in media;
    }
  }

  /** The others in a list, in order. */
  lemma {:induction false} WithoutKeepsOrder(a: seq<string>, b: seq<string>, x: string)
    ensures Without(a + b, x) == Without(a, x) + Without(b, x)
    ensures x !in Without(a, x) && forall y :: y in a && y != x ==> y in Without(a, x)
    decreases |a| + |b|
  {
    if b == [] {
      assert a + b == a;
      if a != [] {
        WithoutKeepsOrder(a[..|a| - 1], [], x);
        assert a == a[..|a| - 1] + [a[|a| - 1]];
        assert a[..|a| - 1] + [] == a[..|a| - 1];
      }
    } else {
      WithoutKeepsOrder(a, b[..|b| - 1], x);
      assert (a + b)[..|a + b| - 1] == a + b[..|b| - 1];
    }
  }

  /** A request is answered as done exactly when it may be: a directory to be taken away or replaced belongs to the
      library, and one to be added exists, lies in a media root and overlaps no directory but the one it replaces;
      and nothing is taken away while a scan runs. Then the library lists the directory added after those kept, the first is its
      primary one or a placeholder when none is left, other libraries are as before, and only rows under the one taken away go. Otherwise nothing changes. */
  lemma {:induction false} FoldersMeaning(c: Catalog, media: seq<string>, scanning: bool, verb: Verb, id: string, former: string, path: string, found: Resolved)
    ensures var r := Folders(c, media, scanning, verb, id, former, path, found);
            var adds, gone := !verb.Delete?, if verb.Put? then Some(former) else if verb.Delete? then Some(path) else None;
            && (r.0 == Done <==>
                  && id in c.libs && (scanning ==> verb.Post?)
                  && (gone.Some? ==> gone.value in Locations(c.libs[id]))
                  && (adds ==> found.Some? && Allowed(media, found.value)
                               && !Crowded(c.libs, found.value, id, if verb.Put? then Some(former) else None)))
            && (r.0 != Done ==> r.1 == c)
            && (r.0 == Done ==>
                  var kept := if gone.Some? then Without(Locations(c.libs[id]), gone.value) else Locations(c.libs[id]);
                  var paths := Locations(r.1.libs[id]);
                  && id in r.1.libs && paths == kept + (if adds then [found.value] else [])
                  && r.1.libs[id].primary == (if paths != [] then paths[0] else "/media/.go-emby-empty-" + id)
                  && (forall l :: l != id ==> (l in r.1.libs <==> l in c.libs) && (l in c.libs ==> r.1.libs[l] == c.libs[l]))
                  && (forall p :: p in r.1.rows <==> p in c.rows && !(gone.Some? && c.rows[p] == id && Under(p, gone.value)))
                  && (forall p :: p in r.1.rows ==> r.1.rows[p] == c.rows[p]))
  {
    if found.Some? { CrowdedIsTaken(c.libs, found.value, id, if verb.Put? then Some(former) else None); }
    hide Taken, Crowded, Allowed, Under, Without;
  }

  /** A library is created exactly when it has a name, one to a hundred directories, and each exists, lies in a
      media root, overlaps no directory of a library and none before it in the list. It then lists them all. */
  lemma {:induction false} CreateMeaning(c: Catalog, media: seq<string>, id: string, named: bool, paths: seq<Resolved>)
    ensures var r := Create(c, media, id, named, paths);
            && (r.0 == Done <==>
                  && named && 1 <= |paths| <= 100 && Acceptable(c.libs, media, paths)
                  && forall i, j :: 0 <= i < j < |paths| ==> !PathsOverlap(paths[j].value, paths[i].value))
            && (r.0 != Done ==> r.1 == c)
            && (r.0 == Done ==>
                  && id in r.1.libs && |Locations(r.1.libs[id])| == |paths|
                  && (forall i :: 0 <= i < |paths| ==> Some(Locations(r.1.libs[id])[i]) == paths[i])
                  && r.1.libs[id].primary == paths[0].value && r.1.rows == c.rows
                  && forall l :: l != id ==> (l in r.1.libs <==> l in c.libs) && (l in c.libs ==> r.1.libs[l] == c.libs[l]))
  {
    if named && paths != [] && |paths| <= 100 { ValidateMeaning(c.libs, media, paths, []); }
    hide Validate, PathsOverlap, Allowed, Crowded;
  }

  ghost predicate Acceptable(libs: map<string, Lib>, media: seq<string>, paths: seq<Resolved>) {
    forall i :: 0 <= i < |paths| ==> paths[i].Some? && Allowed(media, paths[i].value) && !Crowded(libs, paths[i].value, "", None)
  }

  ghost predicate Clear(paths: seq<Resolved>, validated: seq<string>) {
    && (forall i :: 0 <= i < |paths| ==> paths[i].Some?)
    && (forall i, k :: 0 <= i < |paths| && 0 <= k < |validated| ==> !PathsOverlap(paths[i].value, validated[k]))
    && (forall i, j :: 0 <= i < j < |paths| ==> !PathsOverlap(paths[j].value, paths[i].value))
  }

  lemma {:induction false} ValidateMeaning(libs: map<string, Lib>, media: seq<string>, paths: seq<Resolved>, validated: seq<string>)
    ensures var v := Validate(libs, media, paths, validated);
            && (v.0 == Done <==> Acceptable(libs, media, paths) && Clear(paths, validated))
            && (v.0 == Done ==>
                  |v.1| == |validated| + |paths| && v.1[..|validated|] == validated
                  && forall i :: 0 <= i < |paths| ==> Some(v.1[|validated| + i]) == paths[i])
    decreases |paths|
  {
    hide Allowed, PathsOverlap, Taken, Crowded;
    if paths != [] && paths[0].Some? {
      var p := paths[0].value;
      CrowdedIsTaken(libs, p, "", None);
      ValidateMeaning(libs, media, paths[1..], validated + [p]);
      ClearStep(paths, validated);
      AcceptableStep(libs, media, paths);
    }
  }

  lemma {:induction false} AcceptableStep(libs: map<string, Lib>, media: seq<string>, paths: seq<Resolved>)
    requires paths != [] && paths[0].Some?
    ensures Acceptable(libs, media, paths) <==>
              Allowed(media, paths[0].value) && !Crowded(libs, paths[0].value, "", None) && Acceptable(libs, media, paths[1..])
  {
    hide Allowed, Crowded;
    if Acceptable(libs, media, paths[1..]) { assert forall i :: 1 <= i < |paths| ==> paths[i] == paths[1..][i - 1]; }
  }

  lemma {:induction false} ClearStep(paths: seq<Resolved>, validated: seq<string>)
    requires paths != [] && paths[0].Some?
    ensures Clear(paths, validated) <==>
              && (forall k :: 0 <= k < |validated| ==> !PathsOverlap(paths[0].value, validated[k]))
              && Clear(paths[1..], validated + [paths[0].value])
  {
    hide PathsOverlap;
    var rest, more := paths[1..], validated + [paths[0].value];
    assert forall i :: 1 <= i < |paths| ==> paths[i] == rest[i - 1];
    if Clear(rest, more) {
      forall i, k | 0 <= i < |paths| && 0 <= k < |validated| && i > 0
        ensures !PathsOverlap(paths[i].value, validated[k])
      {
        assert more[k] == validated[k] && !PathsOverlap(rest[i - 1].value, more[k]);
      }
      forall i, j | 0 <= i < j < |paths|
        ensures !PathsOverlap(paths[j].value, paths[i].value)
      {
        if i == 0 { assert !PathsOverlap(rest[j - 1].value, more[|validated|]); } else { assert !PathsOverlap(rest[j - 1].value, rest[i - 1].value); }
      }
    }
  }

  // ---- every sequence of requests

  /** Rows come and go by scans, but only at or below the roots of their library. */
  datatype Request =
    | NewLibrary(id: string, named: bool, paths: seq<Resolved>)
    | ChangeFolders(scanning: bool, verb: Verb, id: string, former: string, path: string, found: Resolved)
    | Indexed(rows: map<string, string>)

  ghost predicate Possible(c: Catalog, r: Request) {
    match r
    case NewLibrary(id, _, _) => id !in c.libs
    case ChangeFolders(_, _, _, _, _, _) => true
    case Indexed(rows) => RowsRooted(Catalog(c.libs, rows))
  }

  function Answer(c: Catalog, media: seq<string>, r: Request): Catalog {
    match r
    case NewLibrary(id, named, paths) => Create(c, media, id, named, paths).1
    case ChangeFolders(scanning, verb, id, former, path, found) => Folders(c, media, scanning, verb, id, former, path, found).1
    case Indexed(rows) => Catalog(c.libs, rows)
  }

  ghost predicate LegalRun(c: Catalog, media: seq<string>, requests: seq<Request>)
    decreases |requests|
  {
    requests == [] || (Possible(c, requests[0]) && LegalRun(Answer(c, media, requests[0]), media, requests[1..]))
  }

  function Run(c: Catalog, media: seq<string>, requests: seq<Request>): Catalog
    decreases |requests|
  {
    if requests == [] then c else Run(Answer(c, media, requests[0]), media, requests[1..])
  }

  lemma {:induction false} RunKeeps(c: Catalog, media: seq<string>, requests: seq<Request>)
    requires Good(c) && MediaRootsOk(media) && LegalRun(c, media, requests)
    ensures Good(Run(c, media, requests))
    decreases |requests|
  {
    if requests != [] {
      var d := Answer(c, media, requests[0]);
      assert Good(d) by {
        hide Separate, RowsRooted, Folders, Create;
        match requests[0]
        case NewLibrary(id, named, paths) => CreateKeeps(c, media, id, named, paths);
        case ChangeFolders(scanning, verb, id, former, path, found) => FoldersKeep(c, media, scanning, verb, id, former, path, found);
        case Indexed(_) =>
      }
      hide Good, Answer, Possible;
      RunKeeps(d, media, requests[1..]);
    }
  }

  /** However libraries are created and their directories added, replaced and removed, from an empty server on,
      all roots of all libraries are apart and every row lies under a root of its library. */
  lemma {:induction false} EveryReachableCatalog(media: seq<string>, requests: seq<Request>)
    requires MediaRootsOk(media) && LegalRun(Catalog(map[], map[]), media, requests)
    ensures Good(Run(Catalog(map[], map[]), media, requests))
  {
    assert Good(Catalog(map[], map[]));
    hide Good, LegalRun, Run;
    RunKeeps(Catalog(map[], map[]), media, requests);
  }
}
