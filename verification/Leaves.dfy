/** What one .strm file becomes in the index: sidecar reading, series and season folders. */
module Leaves {
  import opened Basics
  import opened Paths

  datatype Stamp = Stamp(size: int, mtime: int)

  const ZERO := Stamp(0, 0)

  datatype Nfo = Nfo(title: string, plot: string, year: int, season: int, episode: int)

  /** What reading a .strm file gives: its trimmed lines, or the reason it cannot be used. */
  datatype Text = Unreadable | TooLong | Lines(lines: seq<string>)

  /** A regular file. nfo is None when the file cannot be opened or decoded as XML. */
  datatype File = File(stamp: Stamp, text: Text, nfo: Option<Nfo>)

  type Disk = map<string, File>

  datatype Kind = Movie | Episode | Series | Season

  /** Ids are digests of paths, taken as injective, so a folder's id is its path. */
  datatype Parent = Library | Folder(path: string)

  datatype Row = Row(parent: Parent, name: string, kind: Kind, url: string, overview: string, poster: string,
                     year: int, season: int, episode: int, mtime: int, size: int, seen: string)

  /** A library: whether it holds shows, and its root directories. */
  datatype Config = Config(tv: bool, roots: seq<string>)

  ghost predicate ValidConfig(cfg: Config) {
    && (forall r :: r in cfg.roots ==> Absolute(r) && |r| > 1)
    && (forall r, s :: r in cfg.roots && s in cfg.roots && Under(r, s) ==> r == s)
  }

  predicate IsLeaf(r: Row) { r.kind == Movie || r.kind == Episode }

  // ---- file classes

  predicate IsStrm(p: string) { Lower(Ext(p)) == ".strm" }

  predicate SidecarExt(e: string) {
    e == ".nfo" || e == ".jpg" || e == ".jpeg" || e == ".png" || e == ".webp"
  }

  predicate SidecarFile(p: string) { SidecarExt(Lower(Ext(p))) }

  function At(disk: Disk, p: string): Option<File> {
    if p in disk then Some(disk[p]) else None
  }

  // ---- which files a walk reaches

  /** The root whose walk reaches a path; roots do not overlap, so the first one is the only one. */
  function RootOf(roots: seq<string>, p: string): string {
    if roots == [] then "/" else if Under(p, roots[0]) then roots[0] else RootOf(roots[1..], p)
  }

  function Root(cfg: Config, p: string): string { RootOf(cfg.roots, p) }

  /** A directory the walk skips, or one below such a directory. */
  predicate HiddenDir(root: string, d: string)
    decreases |d|
  {
    d != root && LastSlash(d) > 0 && ("." <= Base(d) || HiddenDir(root, Dir(d)))
  }

  /** The walk of the whole library reports the file at p when it exists. */
  predicate Visible(cfg: Config, p: string) {
    var root := Root(cfg, p);
    root in cfg.roots && Below(p, root) && !HiddenDir(root, Dir(p))
  }

  // ---- sidecars

  function FirstNfo(disk: Disk, candidates: seq<string>): Option<Nfo> {
    if candidates == [] then None
    else if candidates[0] in disk && disk[candidates[0]].nfo.Some? then disk[candidates[0]].nfo
    else FirstNfo(disk, candidates[1..])
  }

  function FirstPresent(disk: Disk, candidates: seq<string>): Option<string> {
    if candidates == [] then None
    else if candidates[0] in disk then Some(candidates[0])
    else FirstPresent(disk, candidates[1..])
  }

  function NfoNames(path: string): seq<string> {
    [Stem(path) + ".nfo", Join(Dir(path), "movie.nfo"), Join(Dir(path), "tvshow.nfo")]
  }

  function PosterNames(path: string): seq<string> {
    [Stem(path) + "-poster.jpg", Stem(path) + ".jpg", Join(Dir(path), "poster.jpg"),
     Join(Dir(path), "folder.jpg"), Join(Dir(path), "poster.png")]
  }

  function WithNfo(x: Row, n: Nfo): Row {
    x.(name := if n.title != "" then n.title else x.name,
       overview := n.plot,
       year := n.year,
       season := if n.season > 0 then n.season else x.season,
       episode := if n.episode > 0 then n.episode else x.episode)
  }

  function LocalInfo(disk: Disk, path: string, x: Row): Row {
    var n := FirstNfo(disk, NfoNames(path));
    var y := if n.Some? then WithNfo(x, n.value) else x;
    var p := FirstPresent(disk, PosterNames(path));
    if p.Some? then y.(poster := p.value) else y
  }

  // ---- names

  function DigitRun(s: string): (n: nat)
    ensures n <= |s| && AllDigits(s[..n])
  {
    if |s| > 0 && IsDigit(s[0]) then
      var n := DigitRun(s[1..]);
      assert s[..n + 1] == [s[0]] + s[1..][..n];
      n + 1
    else 0
  }

  /** (?i)S(\d{1,3})E(\d{1,4}) at the start of s. */
  function TagAt(s: string): Option<(nat, nat)> {
    if |s| == 0 || LowerChar(s[0]) != 's' then None
    else
      var n := DigitRun(s[1..]);
      if !(1 <= n <= 3) || |s| == n + 1 || LowerChar(s[n + 1]) != 'e' then None
      else
        var m := DigitRun(s[n + 2..]);
        if m == 0 then None
        else
          var k := if m > 4 then 4 else m;
          assert s[n + 2..][..k] == s[n + 2..][..m][..k];
          Some((Number(s[1..][..n]), Number(s[n + 2..][..k])))
  }

  /** The leftmost match of the episode pattern. */
  function EpisodeTag(s: string): Option<(nat, nat)> {
    if |s| == 0 then None
    else if TagAt(s).Some? then TagAt(s)
    else EpisodeTag(s[1..])
  }

  function SkipSeparators(s: string): string {
    if |s| > 0 && s[0] in " _.-" then SkipSeparators(s[1..]) else s
  }

  /** (?i)^season[ _.-]*0*(\d+)$ */
  function SeasonNumber(name: string): Option<nat> {
    if |name| < 6 || Lower(name[..6]) != "season" then None
    else
      var rest := SkipSeparators(name[6..]);
      if |rest| > 0 && AllDigits(rest) then Some(Number(rest)) else None
  }

  // ---- series and season folders

  function SeriesFrom(disk: Disk, root: string, p: string): Option<string>
    decreases |p|
  {
    if p == root || LastSlash(p) <= 0 then None
    else if SeasonNumber(Base(p)).Some? then Some(Dir(p))
    else if Join(p, "tvshow.nfo") in disk then Some(p)
    else SeriesFrom(disk, root, Dir(p))
  }

  function FirstElement(s: string): (e: string)
    ensures e <= s
    ensures |e| < |s| ==> s[|e|] == '/'
  {
    if |s| == 0 || s[0] == '/' then "" else [s[0]] + FirstElement(s[1..])
  }

  /** filepath.Join(root, first element of the path from root to dir). */
  function TopFolder(root: string, dir: string): string
    requires Below(dir, root)
  {
    Join(root, FirstElement(dir[|root| + 1..]))
  }

  function SeriesDirectory(disk: Disk, root: string, path: string): string
    requires Below(Dir(path), root)
  {
    var s := SeriesFrom(disk, root, Dir(path));
    if s.Some? then s.value else TopFolder(root, Dir(path))
  }

  /** The folder rows a file needs, outermost first. */
  datatype Place = InRoot | InSeries(series: string) | InSeason(series: string, season: string)

  function PlaceOf(cfg: Config, disk: Disk, path: string): Place
    requires Visible(cfg, path)
  {
    var root := Root(cfg, path);
    if !cfg.tv || Dir(path) == root || !Below(Dir(path), root) then InRoot
    else
      var series := SeriesDirectory(disk, root, path);
      if Dir(path) == series then InSeries(series) else InSeason(series, Dir(path))
  }

  function ParentOf(place: Place): Parent {
    match place
    case InRoot => Library
    case InSeries(s) => Folder(s)
    case InSeason(_, s) => Folder(s)
  }

  // ---- rows

  function FirstUrl(lines: seq<string>): string {
    if lines == [] then ""
    else if lines[0] != "" && lines[0][0] != '#' then lines[0]
    else FirstUrl(lines[1..])
  }

  function FolderRow(parent: Parent, kind: Kind, path: string, season: int, episode: int, seen: string): Row {
    Row(parent, Base(path), kind, "", "", "", 0, season, episode, 0, 0, seen)
  }

  // ---- artwork of folder rows

  /** fmt's %02d. */
  function TwoDigits(n: int): string { if 0 <= n < 10 then "0" + Itoa(n) else Itoa(n) }

  function PostersWith(season: string, n: int, ext: string): seq<string> {
    [Join(season, "poster" + ext), Join(season, "folder" + ext),
     Join(Dir(season), "season" + TwoDigits(n) + "-poster" + ext), Join(Dir(season), "season" + Itoa(n) + "-poster" + ext)]
  }

  function SeasonPosterNames(season: string, n: int): seq<string> {
    PostersWith(season, n, ".jpg") + PostersWith(season, n, ".png") + PostersWith(season, n, ".webp") + PostersWith(season, n, ".jpeg")
  }

  function SeasonPoster(disk: Disk, season: string, n: int): string {
    var p := FirstPresent(disk, SeasonPosterNames(season, n));
    if p.Some? then p.value else ""
  }

  /** The names of the directories in a directory that hold some file. */
  function SubFolders(disk: Disk, dir: string): set<string> {
    set q | q in disk && Below(q, dir) && |FirstElement(q[|dir| + 1..])| < |q| - |dir| - 1 :: FirstElement(q[|dir| + 1..])
  }

  /** The poster of a directory's entry, when it is named as a season. */
  function EntryPoster(disk: Disk, series: string, name: string): string {
    var n := SeasonNumber(name);
    if n.Some? then SeasonPoster(disk, Join(series, name), n.value) else ""
  }

  /** The entries are read in byte order, and the first season with a poster lends it to its series. */
  function FallbackPoster(disk: Disk, series: string, names: set<string>): string
    decreases |names|
  {
    if names == {} then ""
    else
      var name := Least(names);
      var p := EntryPoster(disk, series, name);
      if p != "" then p else FallbackPoster(disk, series, names - {name})
  }

  function SeriesRow(disk: Disk, series: string, seen: string): Row {
    var x := LocalInfo(disk, Join(series, "tvshow.strm"), FolderRow(Library, Series, series, 0, 0, seen));
    if x.poster == "" then x.(poster := FallbackPoster(disk, series, SubFolders(disk, series))) else x
  }

  function FileSeason(cfg: Config, path: string): int {
    var tag := EpisodeTag(Stem(Base(path)));
    if cfg.tv && tag.Some? then tag.value.0 else 0
  }

  function SeasonRow(cfg: Config, disk: Disk, path: string, series: string, season: string, seen: string): Row {
    var n := SeasonNumber(Base(season));
    var number := if n.Some? then n.value else FileSeason(cfg, path);
    var x := LocalInfo(disk, Join(season, "season.strm"), FolderRow(Folder(series), Season, season, number, number, seen));
    x.(poster := SeasonPoster(disk, season, x.season))
  }

  /** A leaf before its sidecars are read. */
  function BareLeaf(cfg: Config, f: File, path: string, place: Place, seen: string): Row
    requires f.text.Lines?
  {
    var tag := EpisodeTag(Stem(Base(path)));
    var n := if place.InSeason? then SeasonNumber(Base(place.season)) else None;
    var season := if FileSeason(cfg, path) == 0 && n.Some? then n.value else FileSeason(cfg, path);
    var episode := if cfg.tv && tag.Some? then tag.value.1 else 0;
    Row(ParentOf(place), Stem(Base(path)), if cfg.tv then Episode else Movie, FirstUrl(f.text.lines),
        "", "", 0, season, episode, f.stamp.mtime, f.stamp.size, seen)
  }

  /** The Movie or Episode row of the file at path. */
  function LeafRow(cfg: Config, disk: Disk, path: string, seen: string): Row
    requires Visible(cfg, path) && path in disk && disk[path].text.Lines?
  {
    LocalInfo(disk, path, BareLeaf(cfg, disk[path], path, PlaceOf(cfg, disk, path), seen))
  }

  // ---- what the searches find

  function Decoded(disk: Disk, p: string): Option<Nfo> {
    if p in disk then disk[p].nfo else None
  }

  /** Whether p is the first of some candidates that satisfies found. */
  ghost predicate IsFirst(candidates: seq<string>, found: string -> bool, i: int) {
    0 <= i < |candidates| && found(candidates[i]) && forall j :: 0 <= j < i ==> !found(candidates[j])
  }

  /** Metadata comes from the first candidate that decodes; one that is absent or broken does not stop the search. */
  lemma {:induction false} FirstNfoWins(disk: Disk, cs: seq<string>)
    ensures FirstNfo(disk, cs).None? <==> forall i :: 0 <= i < |cs| ==> Decoded(disk, cs[i]).None?
    ensures forall i :: IsFirst(cs, p => Decoded(disk, p).Some?, i) ==> FirstNfo(disk, cs) == Decoded(disk, cs[i])
  {
    if cs != [] && Decoded(disk, cs[0]).None? {
      FirstNfoWins(disk, cs[1..]);
      forall i | IsFirst(cs, p => Decoded(disk, p).Some?, i)
        ensures FirstNfo(disk, cs) == Decoded(disk, cs[i])
      {
        assert IsFirst(cs[1..], p => Decoded(disk, p).Some?, i - 1);
      }
      assert FirstNfo(disk, cs) == FirstNfo(disk, cs[1..]);
      assert forall i :: 1 <= i < |cs| ==> cs[i] == cs[1..][i - 1];
    }
  }

  /** A series without a poster of its own has that of its first season in name order that has one, or none. */
  lemma {:induction false} FallbackIsFirst(disk: Disk, series: string, names: set<string>)
    ensures var p := FallbackPoster(disk, series, names);
            if forall n :: n in names ==> EntryPoster(disk, series, n) == "" then p == ""
            else exists n :: n in names && p == EntryPoster(disk, series, n) != "" &&
                   forall m :: m in names && TextLess(m, n) ==> EntryPoster(disk, series, m) == ""
    decreases |names|
  {
    hide EntryPoster, TextLess;
    if names != {} {
      var first := Least(names);
      if EntryPoster(disk, series, first) == "" {
        FallbackIsFirst(disk, series, names - {first});
        assert forall n :: n in names <==> n == first || n in names - {first};
      }
    }
  }

  /** What marks a directory as belonging to a series: being named as a season, or holding a tvshow.nfo. */
  function Marked(disk: Disk, d: string): Option<string> {
    if SeasonNumber(Base(d)).Some? then Some(Dir(d))
    else if Join(d, "tvshow.nfo") in disk then Some(d)
    else None
  }

  /** d is the nearest marked directory at or above p and strictly below the root. */
  ghost predicate NearestMark(disk: Disk, root: string, p: string, d: string) {
    && Under(p, d) && Below(d, root) && Marked(disk, d).Some?
    && forall e :: Under(p, e) && Below(e, d) ==> Marked(disk, e).None?
  }

  /** The search for a series finds the nearest marked directory, whatever lies above it. */
  lemma {:induction false} SeriesFromNearest(disk: Disk, root: string, p: string)
    requires |root| > 1 && Under(p, root)
    ensures SeriesFrom(disk, root, p).None? <==> forall d :: Under(p, d) && Below(d, root) ==> Marked(disk, d).None?
    ensures forall d :: NearestMark(disk, root, p, d) ==> SeriesFrom(disk, root, p) == Marked(disk, d)
    decreases |p|
  {
    hide SeasonNumber, Base;
    if p != root {
      DirIsNearest(p, root);
      assert LastSlash(p) > 0;
      if Marked(disk, p).None? {
        assert SeriesFrom(disk, root, p) == SeriesFrom(disk, root, Dir(p));
        SeriesFromNearest(disk, root, Dir(p));
        forall d | Under(p, d) && Below(d, root)
          ensures d == p || Under(Dir(p), d)
        {
          if d != p { DirIsNearest(p, d); }
        }
        forall d | Under(Dir(p), d)
          ensures Below(p, d)
        {
          BelowTransitive(p, Dir(p), d);
        }
        forall d | NearestMark(disk, root, p, d)
          ensures NearestMark(disk, root, Dir(p), d)
        {
        }
      } else {
        assert SeriesFrom(disk, root, p) == Marked(disk, p);
      }
    }
  }

  // ---- what a leaf row depends on

  /** The files whose state decides the leaf row of path: itself, and the sidecars of its ancestor directories. */
  predicate Input(cfg: Config, path: string, q: string) {
    q == path || (SidecarFile(q) && Below(path, Dir(q)) && Under(Dir(q), Root(cfg, path)))
  }

  ghost predicate SameInputs(cfg: Config, d1: Disk, d2: Disk, path: string) {
    forall q :: Input(cfg, path, q) ==> At(d1, q) == At(d2, q)
  }

  lemma {:induction false} RootFacts(cfg: Config, p: string)
    requires ValidConfig(cfg) && Visible(cfg, p)
    ensures |Root(cfg, p)| > 1
    ensures Below(p, Dir(p)) && Under(Dir(p), Root(cfg, p))
  {
    DirIsNearest(p, Root(cfg, p));
  }

  /** s + "." + three letters has that extension. */
  lemma {:induction false} ExtOfThree(s: string, a: char, b: char, c: char)
    requires a != '/' && a != '.' && b != '/' && b != '.' && c != '/' && c != '.'
    ensures Ext(s + ['.', a, b, c]) == ['.', a, b, c]
  {
    var p := s + ".";
    ExtDot(s);
    ExtSnoc(p, a);
    ExtSnoc(p + [a], b);
    ExtSnoc(p + [a] + [b], c);
    ThreeLetters(p, a, b, c);
    ThreeLetters(".", a, b, c);
    assert p + [a, b, c] == s + ['.', a, b, c];
  }

  lemma {:induction false} ThreeLetters(p: string, a: char, b: char, c: char)
    ensures p + [a] + [b] + [c] == p + [a, b, c]
  {
  }

  lemma {:induction false} NfoIsSidecar(s: string)
    ensures SidecarFile(s + ".nfo")
  {
    ExtOfThree(s, 'n', 'f', 'o');
    assert Lower(".nfo") == ".nfo";
  }

  lemma {:induction false} JpgIsSidecar(s: string)
    ensures SidecarFile(s + ".jpg")
  {
    ExtOfThree(s, 'j', 'p', 'g');
    assert Lower(".jpg") == ".jpg";
  }

  lemma {:induction false} PngIsSidecar(s: string)
    ensures SidecarFile(s + ".png")
  {
    ExtOfThree(s, 'p', 'n', 'g');
    assert Lower(".png") == ".png";
  }

  predicate Sibling(path: string, q: string) {
    SidecarFile(q) && Dir(q) == Dir(path)
  }

  lemma {:induction false} BesideStem(path: string, suffix: string)
    requires SidecarFile(Stem(path) + suffix)
    requires forall i :: 0 <= i < |suffix| ==> suffix[i] != '/'
    ensures Sibling(path, Stem(path) + suffix)
  {
    DirOfSibling(path, suffix);
  }

  lemma {:induction false} InFolder(path: string, name: string)
    requires SidecarFile(Join(Dir(path), name)) && |Dir(path)| > 0
    requires forall i :: 0 <= i < |name| ==> name[i] != '/'
    ensures Sibling(path, Join(Dir(path), name))
  {
    DirOfJoin(Dir(path), name);
  }

  lemma {:induction false} StemNfoSibling(path: string)
    ensures Sibling(path, Stem(path) + ".nfo")
  {
    NfoIsSidecar(Stem(path));
    BesideStem(path, ".nfo");
  }

  lemma {:induction false} MovieNfoSibling(path: string)
    requires |Dir(path)| > 0
    ensures Sibling(path, Join(Dir(path), "movie.nfo"))
  {
    NfoIsSidecar(Dir(path) + "/movie");
    assert Join(Dir(path), "movie.nfo") == Dir(path) + "/movie" + ".nfo";
    InFolder(path, "movie.nfo");
  }

  lemma {:induction false} TvshowNfoIsSidecar(dir: string)
    ensures SidecarFile(Join(dir, "tvshow.nfo"))
  {
    NfoIsSidecar(dir + "/tvshow");
    assert Join(dir, "tvshow.nfo") == dir + "/tvshow" + ".nfo";
  }

  lemma {:induction false} TvshowNfoSibling(path: string)
    requires |Dir(path)| > 0
    ensures Sibling(path, Join(Dir(path), "tvshow.nfo"))
  {
    TvshowNfoIsSidecar(Dir(path));
    InFolder(path, "tvshow.nfo");
  }

  lemma {:induction false} StemPosterSibling(path: string)
    ensures Sibling(path, Stem(path) + "-poster.jpg")
  {
    JpgIsSidecar(Stem(path) + "-poster");
    assert Stem(path) + "-poster.jpg" == Stem(path) + "-poster" + ".jpg";
    BesideStem(path, "-poster.jpg");
  }

  lemma {:induction false} StemJpgSibling(path: string)
    ensures Sibling(path, Stem(path) + ".jpg")
  {
    JpgIsSidecar(Stem(path));
    BesideStem(path, ".jpg");
  }

  lemma {:induction false} PosterJpgSibling(path: string)
    requires |Dir(path)| > 0
    ensures Sibling(path, Join(Dir(path), "poster.jpg"))
  {
    JpgIsSidecar(Dir(path) + "/poster");
    assert Join(Dir(path), "poster.jpg") == Dir(path) + "/poster" + ".jpg";
    InFolder(path, "poster.jpg");
  }

  lemma {:induction false} FolderJpgSibling(path: string)
    requires |Dir(path)| > 0
    ensures Sibling(path, Join(Dir(path), "folder.jpg"))
  {
    JpgIsSidecar(Dir(path) + "/folder");
    assert Join(Dir(path), "folder.jpg") == Dir(path) + "/folder" + ".jpg";
    InFolder(path, "folder.jpg");
  }

  lemma {:induction false} PosterPngSibling(path: string)
    requires |Dir(path)| > 0
    ensures Sibling(path, Join(Dir(path), "poster.png"))
  {
    PngIsSidecar(Dir(path) + "/poster");
    assert Join(Dir(path), "poster.png") == Dir(path) + "/poster" + ".png";
    InFolder(path, "poster.png");
  }

  ghost predicate AllSiblings(path: string, names: seq<string>) {
    forall i :: 0 <= i < |names| ==> Sibling(path, names[i])
  }

  lemma {:induction false} ThreeSiblings(path: string, a: string, b: string, c: string)
    requires Sibling(path, a) && Sibling(path, b) && Sibling(path, c)
    ensures AllSiblings(path, [a, b, c])
  {
  }

  lemma {:induction false} FiveSiblings(path: string, a: string, b: string, c: string, d: string, e: string)
    requires Sibling(path, a) && Sibling(path, b) && Sibling(path, c) && Sibling(path, d) && Sibling(path, e)
    ensures AllSiblings(path, [a, b, c, d, e])
  {
  }

  /** Every sidecar consulted for the file at path is a sidecar file of path's own directory. */
  lemma {:induction false} ConsultedAreSiblings(path: string)
    requires |Dir(path)| > 0
    ensures AllSiblings(path, NfoNames(path)) && AllSiblings(path, PosterNames(path))
  {
    var s, d := Stem(path), Dir(path);
    StemNfoSibling(path);
    MovieNfoSibling(path);
    TvshowNfoSibling(path);
    ThreeSiblings(path, s + ".nfo", Join(d, "movie.nfo"), Join(d, "tvshow.nfo"));
    StemPosterSibling(path);
    StemJpgSibling(path);
    PosterJpgSibling(path);
    FolderJpgSibling(path);
    PosterPngSibling(path);
    FiveSiblings(path, s + "-poster.jpg", s + ".jpg", Join(d, "poster.jpg"), Join(d, "folder.jpg"), Join(d, "poster.png"));
  }

  ghost predicate SameFiles(d1: Disk, d2: Disk, names: seq<string>) {
    forall q :: q in names ==> At(d1, q) == At(d2, q)
  }

  lemma {:induction false} FirstNfoSame(d1: Disk, d2: Disk, names: seq<string>)
    requires SameFiles(d1, d2, names)
    ensures FirstNfo(d1, names) == FirstNfo(d2, names)
  {
    if names != [] {
      assert names[0] in names;
      assert At(d1, names[0]) == At(d2, names[0]);
      FirstNfoSame(d1, d2, names[1..]);
    }
  }

  lemma {:induction false} FirstPresentSame(d1: Disk, d2: Disk, names: seq<string>)
    requires SameFiles(d1, d2, names)
    ensures FirstPresent(d1, names) == FirstPresent(d2, names)
  {
    if names != [] {
      assert names[0] in names;
      assert At(d1, names[0]) == At(d2, names[0]);
      FirstPresentSame(d1, d2, names[1..]);
    }
  }

  lemma {:induction false} SiblingsAreInputs(cfg: Config, d1: Disk, d2: Disk, path: string, names: seq<string>)
    requires SameInputs(cfg, d1, d2, path)
    requires Below(path, Dir(path)) && Under(Dir(path), Root(cfg, path))
    requires AllSiblings(path, names)
    ensures SameFiles(d1, d2, names)
  {
    forall q | q in names
      ensures At(d1, q) == At(d2, q)
    {
      assert Input(cfg, path, q);
    }
  }

  lemma {:induction false} LocalInfoInputs(cfg: Config, d1: Disk, d2: Disk, path: string, x: Row)
    requires ValidConfig(cfg) && Visible(cfg, path) && SameInputs(cfg, d1, d2, path)
    ensures LocalInfo(d1, path, x) == LocalInfo(d2, path, x)
  {
    RootFacts(cfg, path);
    ConsultedAreSiblings(path);
    SiblingsAreInputs(cfg, d1, d2, path, NfoNames(path));
    FirstNfoSame(d1, d2, NfoNames(path));
    SiblingsAreInputs(cfg, d1, d2, path, PosterNames(path));
    FirstPresentSame(d1, d2, PosterNames(path));
  }

  lemma {:induction false} TvshowIsInput(cfg: Config, path: string, p: string)
    requires |p| > 0 && Below(path, p) && Under(p, Root(cfg, path))
    ensures Input(cfg, path, Join(p, "tvshow.nfo"))
  {
    DirOfJoin(p, "tvshow.nfo");
    TvshowNfoIsSidecar(p);
  }

  lemma {:induction false} SeriesInputs(cfg: Config, d1: Disk, d2: Disk, path: string, p: string)
    requires |Root(cfg, path)| > 0 && SameInputs(cfg, d1, d2, path)
    requires Below(path, p) && Under(p, Root(cfg, path))
    ensures SeriesFrom(d1, Root(cfg, path), p) == SeriesFrom(d2, Root(cfg, path), p)
    decreases |p|
  {
    if p != Root(cfg, path) {
      TvshowIsInput(cfg, path, p);
      assert At(d1, Join(p, "tvshow.nfo")) == At(d2, Join(p, "tvshow.nfo"));
      DirIsNearest(p, Root(cfg, path));
      BelowTransitive(path, p, Dir(p));
      SeriesInputs(cfg, d1, d2, path, Dir(p));
    }
  }

  lemma {:induction false} PlaceInputs(cfg: Config, d1: Disk, d2: Disk, path: string)
    requires ValidConfig(cfg) && Visible(cfg, path) && SameInputs(cfg, d1, d2, path)
    ensures PlaceOf(cfg, d1, path) == PlaceOf(cfg, d2, path)
  {
    RootFacts(cfg, path);
    SeriesInputs(cfg, d1, d2, path, Dir(path));
  }

  /** A leaf row is a function of its inputs: disks that agree on them give the same row. */
  lemma {:induction false} LeafRowInputs(cfg: Config, d1: Disk, d2: Disk, path: string, seen: string)
    requires ValidConfig(cfg) && Visible(cfg, path) && SameInputs(cfg, d1, d2, path)
    requires path in d1 && d1[path].text.Lines?
    ensures path in d2 && d2[path].text.Lines?
    ensures LeafRow(cfg, d1, path, seen) == LeafRow(cfg, d2, path, seen)
  {
    assert Input(cfg, path, path);
    assert At(d1, path) == At(d2, path);
    PlaceInputs(cfg, d1, d2, path);
    LocalInfoInputs(cfg, d1, d2, path, BareLeaf(cfg, d1[path], path, PlaceOf(cfg, d1, path), seen));
  }

  lemma {:induction false} HiddenBelow(root: string, d: string, e: string)
    requires |root| > 1 && Under(e, d) && Under(d, root) && HiddenDir(root, d)
    ensures HiddenDir(root, e)
    decreases |e|
  {
    if e != d {
      DirIsNearest(e, d);
      HiddenBelow(root, d, Dir(e));
    }
  }

  lemma {:induction false} RootOfIsFirst(roots: seq<string>, p: string, r: string)
    requires r in roots && Under(p, r)
    ensures RootOf(roots, p) in roots && Under(p, RootOf(roots, p))
  {
    if !Under(p, roots[0]) { RootOfIsFirst(roots[1..], p, r); }
  }

  /** Roots do not nest, so whatever lies below a root belongs to it. */
  lemma {:induction false} RootIsUnique(cfg: Config, p: string, r: string)
    requires ValidConfig(cfg) && r in cfg.roots && Under(p, r)
    ensures Root(cfg, p) == r
  {
    RootOfIsFirst(cfg.roots, p, r);
    Comparable(p, r, Root(cfg, p));
  }

  /** The walk that reaches a file also reaches every sidecar that could change its row. */
  lemma {:induction false} InputsVisible(cfg: Config, path: string, q: string)
    requires ValidConfig(cfg) && Visible(cfg, path) && Input(cfg, path, q)
    ensures Visible(cfg, q)
  {
    if q != path {
      var root := Root(cfg, path);
      RootFacts(cfg, path);
      assert LastSlash(q) > 0;
      BelowDir(q);
      BelowTransitive(q, Dir(q), root);
      RootIsUnique(cfg, q, root);
      DirIsNearest(path, Dir(q));
      if HiddenDir(root, Dir(q)) { HiddenBelow(root, Dir(q), Dir(path)); }
    }
  }
}
