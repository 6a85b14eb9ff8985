/** What a row says: the numbers in a file's name, its address, its metadata and its artwork. */
module LeafMeaning {
  import opened Basics
  import opened Paths
  import opened Leaves

  // ---- the numbers in a name

  predicate EitherCase(c: char, lower: char, upper: char) { c == lower || c == upper }

  /** At i stand an S, n digits, an E and m digits: one to three, and up to four, all there are if fewer. */
  predicate Tagged(s: string, i: nat, n: nat, m: nat) {
    && 1 <= n <= 3 && 1 <= m <= 4 && i + n + m + 2 <= |s|
    && EitherCase(s[i], 's', 'S') && AllDigits(s[i + 1..i + 1 + n])
    && EitherCase(s[i + n + 1], 'e', 'E') && AllDigits(s[i + n + 2..i + n + 2 + m])
    && (m == 4 || i + n + m + 2 == |s| || !IsDigit(s[i + n + m + 2]))
  }

  function FirstNumber(s: string, i: nat, n: nat, m: nat): nat
    requires Tagged(s, i, n, m)
  {
    Number(s[i + 1..i + 1 + n])
  }

  function SecondNumber(s: string, i: nat, n: nat, m: nat): nat
    requires Tagged(s, i, n, m)
  {
    Number(s[i + n + 2..i + n + 2 + m])
  }

  /** The first place where a tag stands. */
  ghost predicate FirstTag(s: string, i: nat, n: nat, m: nat) {
    Tagged(s, i, n, m) && forall j: nat, k: nat, l: nat :: j < i ==> !Tagged(s, j, k, l)
  }

  lemma {:induction false} DigitRunMaximal(s: string)
    ensures DigitRun(s) < |s| ==> !IsDigit(s[DigitRun(s)])
  {
    if |s| > 0 && IsDigit(s[0]) { DigitRunMaximal(s[1..]); }
  }

  /** A run of digits that something else ends is the maximal one. */
  lemma {:induction false} DigitRunIs(s: string, n: nat)
    requires n <= |s| && AllDigits(s[..n]) && (n == |s| || !IsDigit(s[n]))
    ensures DigitRun(s) == n
  {
    DigitRunMaximal(s);
    var d := DigitRun(s);
    assert forall i :: 0 <= i < n ==> s[..n][i] == s[i];
    assert forall i :: 0 <= i < d ==> s[..d][i] == s[i];
  }

  lemma {:induction false} DigitRunAtLeast(s: string, n: nat)
    requires n <= |s| && AllDigits(s[..n])
    ensures n <= DigitRun(s)
  {
    DigitRunMaximal(s);
    assert forall i :: 0 <= i < n ==> s[..n][i] == s[i];
  }

  lemma {:induction false} SliceOfTail(s: string, i: nat, n: nat)
    requires i + n <= |s|
    ensures s[i..][..n] == s[i..i + n]
  {
  }

  lemma {:induction false} LowerCharIs(c: char)
    ensures LowerChar(c) == 's' <==> EitherCase(c, 's', 'S')
    ensures LowerChar(c) == 'e' <==> EitherCase(c, 'e', 'E')
  {
  }

  /** The test at one place accepts only a tag that stands there. */
  lemma {:induction false} TagAtSound(s: string)
    requires TagAt(s).Some?
    ensures exists n: nat, m: nat :: Tagged(s, 0, n, m) && TagAt(s) == Some((FirstNumber(s, 0, n, m), SecondNumber(s, 0, n, m)))
  {
    forall c { LowerCharIs(c); }
    hide LowerChar;
    var n := DigitRun(s[1..]);
    var d := DigitRun(s[n + 2..]);
    var m := if d > 4 then 4 else d;
    DigitRunMaximal(s[n + 2..]);
    SliceOfTail(s, 1, n);
    SliceOfTail(s, n + 2, m);
    assert s[n + 2..][..m] == s[n + 2..][..d][..m];
    assert Tagged(s, 0, n, m);
  }

  /** It accepts every such tag, and reads its two numbers in order. */
  lemma {:induction false} TagAtReads(s: string, n: nat, m: nat)
    requires Tagged(s, 0, n, m)
    ensures TagAt(s) == Some((FirstNumber(s, 0, n, m), SecondNumber(s, 0, n, m)))
  {
    LowerCharIs(s[0]);
    LowerCharIs(s[n + 1]);
    hide LowerChar;
    SliceOfTail(s, 1, n);
    SliceOfTail(s, n + 2, m);
    DigitRunIs(s[1..], n);
    DigitRunAtLeast(s[n + 2..], m);
    if m < 4 { DigitRunIs(s[n + 2..], m); }
  }

  lemma {:induction false} ShiftedSlice(s: string, a: nat, b: nat)
    requires 1 <= a <= b <= |s|
    ensures s[1..][a - 1..b - 1] == s[a..b]
  {
    var t := s[1..];
    assert forall k :: a <= k < b ==> t[k - 1] == s[k];
  }

  lemma {:induction false} TaggedTail(s: string, i: nat, n: nat, m: nat)
    requires s != "" && i > 0
    ensures Tagged(s, i, n, m) <==> Tagged(s[1..], i - 1, n, m)
    ensures Tagged(s, i, n, m) ==>
              FirstNumber(s, i, n, m) == FirstNumber(s[1..], i - 1, n, m) && SecondNumber(s, i, n, m) == SecondNumber(s[1..], i - 1, n, m)
  {
    if n <= 3 && m <= 4 && i + n + m + 2 <= |s| {
      ShiftedSlice(s, i + 1, i + 1 + n);
      ShiftedSlice(s, i + n + 2, i + n + 2 + m);
      hide AllDigits;
    }
  }

  /** The numbers found in a name are those of its leftmost tag, season before episode; none without a tag. */
  lemma {:induction false} EpisodeTagIs(s: string)
    ensures EpisodeTag(s).None? <==> forall i: nat, n: nat, m: nat :: !Tagged(s, i, n, m)
    ensures forall i: nat, n: nat, m: nat :: FirstTag(s, i, n, m) ==> EpisodeTag(s) == Some((FirstNumber(s, i, n, m), SecondNumber(s, i, n, m)))
    ensures EpisodeTag(s).Some? ==> exists i: nat, n: nat, m: nat :: FirstTag(s, i, n, m)
  {
    hide TagAt, FirstNumber, SecondNumber;
    if s != "" {
      if TagAt(s).Some? { TagAtSound(s); }
      forall n: nat, m: nat | Tagged(s, 0, n, m)
        ensures TagAt(s) == Some((FirstNumber(s, 0, n, m), SecondNumber(s, 0, n, m)))
      {
        TagAtReads(s, n, m);
      }
      EpisodeTagIs(s[1..]);
      hide Tagged;
      forall i: nat, n: nat, m: nat | i > 0
        ensures Tagged(s, i, n, m) <==> Tagged(s[1..], i - 1, n, m)
        ensures Tagged(s, i, n, m) ==>
                  FirstNumber(s, i, n, m) == FirstNumber(s[1..], i - 1, n, m) && SecondNumber(s, i, n, m) == SecondNumber(s[1..], i - 1, n, m)
      {
        TaggedTail(s, i, n, m);
      }
      if TagAt(s).Some? {
        var n: nat, m: nat :| Tagged(s, 0, n, m);
        assert FirstTag(s, 0, n, m);
      } else {
        forall i: nat, n: nat, m: nat | FirstTag(s, i, n, m)
          ensures i > 0 && FirstTag(s[1..], i - 1, n, m)
        {
          forall j: nat, k: nat, l: nat | j < i - 1
            ensures !Tagged(s[1..], j, k, l)
          {
            assert !Tagged(s, j + 1, k, l);
          }
        }
        if EpisodeTag(s[1..]).Some? {
          var i: nat, n: nat, m: nat :| FirstTag(s[1..], i, n, m);
          assert Tagged(s, i + 1, n, m);
          assert FirstTag(s, i + 1, n, m);
        }
      }
    }
  }

  predicate Separator(c: char) { c == ' ' || c == '_' || c == '.' || c == '-' }

  /** The word season, separators up to k, and from there digits to the end. */
  predicate SeasonText(name: string, k: nat) {
    && 6 <= k < |name| && Lower(name[..6]) == "season"
    && (forall i :: 6 <= i < k ==> Separator(name[i]))
    && AllDigits(name[k..])
  }

  lemma {:induction false} SeparatorsSkipped(s: string) returns (k: nat)
    ensures k <= |s| && SkipSeparators(s) == s[k..]
    ensures (forall i :: 0 <= i < k ==> Separator(s[i])) && (k < |s| ==> !Separator(s[k]))
  {
    if |s| > 0 && s[0] in " _.-" {
      k := SeparatorsSkipped(s[1..]);
      k := k + 1;
    } else {
      k := 0;
    }
  }

  /** A directory's name gives a season number exactly when it is so built, and the number is that of its digits. */
  lemma {:induction false} SeasonNumberIs(name: string)
    ensures SeasonNumber(name).Some? ==> exists k: nat :: SeasonText(name, k)
    ensures forall k: nat :: SeasonText(name, k) ==> SeasonNumber(name) == Some(Number(name[k..]))
  {
    if |name| >= 6 {
      var j := SeparatorsSkipped(name[6..]);
      assert name[6..][j..] == name[j + 6..];
      assert forall i :: 6 <= i < |name| ==> name[i] == name[6..][i - 6];
      if SeasonNumber(name).Some? { assert SeasonText(name, j + 6); }
      forall k: nat | SeasonText(name, k)
        ensures k == j + 6
      {
        assert name[k] == name[k..][0];
        assert j + 6 < |name| ==> !Separator(name[j + 6]);
      }
    }
  }

  // ---- addresses and posters

  /** The address is the first line that is neither empty nor a comment; a file without one has none. */
  lemma {:induction false} FirstUrlIs(lines: seq<string>)
    ensures (forall i :: 0 <= i < |lines| ==> lines[i] == "" || lines[i][0] == '#') ==> FirstUrl(lines) == ""
    ensures forall i :: IsFirst(lines, l => l != "" && l[0] != '#', i) ==> FirstUrl(lines) == lines[i]
  {
    if lines != [] && (lines[0] == "" || lines[0][0] == '#') {
      FirstUrlIs(lines[1..]);
      forall i | IsFirst(lines, l => l != "" && l[0] != '#', i)
        ensures FirstUrl(lines) == lines[i]
      {
        assert IsFirst(lines[1..], l => l != "" && l[0] != '#', i - 1);
      }
    }
  }

  /** A picture is the first candidate that exists. */
  lemma {:induction false} FirstPresentIs(disk: Disk, names: seq<string>)
    ensures (forall i :: 0 <= i < |names| ==> names[i] !in disk) ==> FirstPresent(disk, names).None?
    ensures forall i :: IsFirst(names, p => p in disk, i) ==> FirstPresent(disk, names) == Some(names[i])
  {
    if names != [] && names[0] !in disk {
      FirstPresentIs(disk, names[1..]);
      forall i | IsFirst(names, p => p in disk, i)
        ensures FirstPresent(disk, names) == Some(names[i])
      {
        assert IsFirst(names[1..], p => p in disk, i - 1);
      }
    }
  }

  function Picture(disk: Disk, names: seq<string>): string {
    var p := FirstPresent(disk, names);
    if p.Some? then p.value else ""
  }

  /** The names tried for a file's metadata and picture, given its directory and the name before its extension. */
  lemma {:induction false} CandidatesFor(dir: string, base: string)
    requires |dir| > 0 && forall i :: 0 <= i < |base| ==> base[i] != '/'
    ensures var path := dir + "/" + base + ".strm";
            && Dir(path) == dir && Stem(Base(path)) == base && IsStrm(path)
            && NfoNames(path) == [dir + "/" + base + ".nfo", dir + "/" + "movie.nfo", dir + "/" + "tvshow.nfo"]
            && PosterNames(path) == [dir + "/" + base + "-poster.jpg", dir + "/" + base + ".jpg", dir + "/" + "poster.jpg",
                                     dir + "/" + "folder.jpg", dir + "/" + "poster.png"]
  {
    StrmPath(dir, base);
    hide Dir, Base, Stem, IsStrm;
  }

  lemma {:induction false} StrmPath(dir: string, base: string)
    requires |dir| > 0 && forall i :: 0 <= i < |base| ==> base[i] != '/'
    ensures var path := dir + "/" + base + ".strm";
            Dir(path) == dir && Base(path) == base + ".strm" && Stem(path) == dir + "/" + base && Stem(Base(path)) == base && IsStrm(path)
  {
    hide Dir, Base, Stem, IsStrm;
    assert forall i :: 0 <= i < 5 ==> ".strm"[i] != '/';
    InDirectory(dir, base + ".strm");
    assert dir + "/" + base + ".strm" == Join(dir, base + ".strm");
    StrmStem(base);
    StrmStem(dir + "/" + base);
  }

  lemma {:induction false} InDirectory(dir: string, file: string)
    requires |dir| > 0 && forall i :: 0 <= i < |file| ==> file[i] != '/'
    ensures Dir(Join(dir, file)) == dir && Base(Join(dir, file)) == file
  {
    DirOfJoin(dir, file);
    LastSlashAppend(dir + "/", file);
    assert Join(dir, file) == (dir + "/") + file;
  }

  lemma {:induction false} StrmStem(base: string)
    ensures Stem(base + ".strm") == base && IsStrm(base + ".strm")
  {
    ExtOfWord(base, "strm");
    assert "." + "strm" == ".strm" && base + "." + "strm" == base + ".strm";
    assert Lower(".strm") == ".strm";
    hide Ext, Lower;
  }

  /** The kinds of files that count as sidecars. */
  lemma {:induction false} SidecarExtensions(s: string)
    ensures SidecarFile(s + ".nfo") && SidecarFile(s + ".jpg") && SidecarFile(s + ".jpeg") && SidecarFile(s + ".png") && SidecarFile(s + ".webp")
    ensures !SidecarFile(s + ".strm")
  {
    ExtensionOf(s, "nfo");
    ExtensionOf(s, "jpg");
    ExtensionOf(s, "jpeg");
    ExtensionOf(s, "png");
    ExtensionOf(s, "webp");
    ExtensionOf(s, "strm");
    hide Lower, Ext;
    assert "." + "nfo" == ".nfo" && "." + "jpg" == ".jpg" && "." + "jpeg" == ".jpeg" && "." + "png" == ".png";
    assert "." + "webp" == ".webp" && "." + "strm" == ".strm";
  }

  lemma {:induction false} ExtensionOf(s: string, e: string)
    requires forall i :: 0 <= i < |e| ==> 'a' <= e[i] <= 'z'
    ensures Lower(Ext(s + ("." + e))) == "." + e
  {
    ExtOfWord(s, e);
    assert s + ("." + e) == s + "." + e;
    assert Lower("." + e) == "." + e;
  }

  // ---- series and season of a file

  lemma {:induction false} ElementHasNoSlash(s: string)
    ensures forall i :: 0 <= i < |FirstElement(s)| ==> FirstElement(s)[i] != '/'
  {
    if |s| > 0 && s[0] != '/' { ElementHasNoSlash(s[1..]); }
  }

  /** d lies directly below the root, at or above dir. */
  predicate TopOf(root: string, dir: string, d: string) { Dir(d) == root && Under(dir, d) && Below(d, root) }

  /** Only a show in a folder below the root has folder rows. Its series is what its nearest mark says, or the top
      folder when nothing on the way is marked; its own folder is a season when it is not that series. */
  lemma {:induction false} PlaceMeaning(cfg: Config, disk: Disk, path: string)
    requires ValidConfig(cfg) && Visible(cfg, path)
    ensures var root, dir, place := Root(cfg, path), Dir(path), PlaceOf(cfg, disk, path);
            && (place.InRoot? <==> !cfg.tv || dir == root)
            && (place.InSeries? ==> place.series == dir)
            && (place.InSeason? ==> place.season == dir && place.series != dir)
            && (!place.InRoot? ==>
                  if forall d :: Under(dir, d) && Below(d, root) ==> Marked(disk, d).None? then TopOf(root, dir, place.series)
                  else exists d :: NearestMark(disk, root, dir, d) && Some(place.series) == Marked(disk, d))
  {
    RootFacts(cfg, path);
    var root, dir := Root(cfg, path), Dir(path);
    SeriesFromNearest(disk, root, dir);
    hide Root, Visible, Dir, Marked;
    if cfg.tv && dir != root {
      if SeriesFrom(disk, root, dir).None? {
        var e := FirstElement(dir[|root| + 1..]);
        ElementHasNoSlash(dir[|root| + 1..]);
        DirOfJoin(root, e);
        TopFolderAbove(root, dir);
      } else {
        var d := NearestExists(disk, root, dir);
      }
    }
  }

  lemma {:induction false} TopFolderAbove(root: string, dir: string)
    requires Below(dir, root)
    ensures Under(dir, TopFolder(root, dir)) && Below(TopFolder(root, dir), root)
  {
    var rest := dir[|root| + 1..];
    var e := FirstElement(rest);
    assert dir == root + "/" + rest;
    assert dir[..|root| + 1 + |e|] == Join(root, e);
    if |e| < |rest| { assert dir[|root| + 1 + |e|] == rest[|e|]; }
  }

  lemma {:induction false} NearestExists(disk: Disk, root: string, p: string) returns (d: string)
    requires |root| > 1 && Under(p, root) && SeriesFrom(disk, root, p).Some?
    ensures NearestMark(disk, root, p, d)
    decreases |p|
  {
    DirIsNearest(p, root);
    if Marked(disk, p).Some? {
      d := p;
    } else {
      hide Marked;
      d := NearestExists(disk, root, Dir(p));
      UnderTransitive(p, Dir(p), d);
      forall e | Under(p, e) && Below(e, d)
        ensures Marked(disk, e).None?
      {
        if e != p { DirIsNearest(p, e); }
      }
    }
  }

  // ---- the leaf row

  /** The season a file's name gives, or failing that its season folder's. */
  function NameSeason(cfg: Config, path: string): int {
    var tag := EpisodeTag(Stem(Base(path)));
    var folder := SeasonNumber(Base(Dir(path)));
    if !cfg.tv then 0
    else if tag.Some? && tag.value.0 != 0 then tag.value.0
    else if Dir(path) != Root(cfg, path) && folder.Some? then folder.value
    else 0
  }

  function NameEpisode(cfg: Config, path: string): int {
    var tag := EpisodeTag(Stem(Base(path)));
    if cfg.tv && tag.Some? then tag.value.1 else 0
  }

  lemma {:induction false} SeasonFolderIsNoSeries(cfg: Config, disk: Disk, path: string)
    requires ValidConfig(cfg) && Visible(cfg, path) && cfg.tv && Dir(path) != Root(cfg, path) && SeasonNumber(Base(Dir(path))).Some?
    ensures PlaceOf(cfg, disk, path).InSeason?
  {
    RootFacts(cfg, path);
    hide SeasonNumber, Base, Root, Visible;
    var dir := Dir(path);
    DirIsNearest(dir, Root(cfg, path));
    assert SeriesFrom(disk, Root(cfg, path), dir) == Some(Dir(dir));
  }

  /** Every column of a Movie or Episode row. */
  lemma {:induction false} LeafRowMeaning(cfg: Config, disk: Disk, path: string, seen: string)
    requires ValidConfig(cfg) && Visible(cfg, path) && path in disk && disk[path].text.Lines?
    ensures var x, nfo := LeafRow(cfg, disk, path, seen), FirstNfo(disk, NfoNames(path));
            && x.kind == (if cfg.tv then Episode else Movie) && x.seen == seen
            && x.parent == (if cfg.tv && Dir(path) != Root(cfg, path) then Folder(Dir(path)) else Library)
            && x.url == FirstUrl(disk[path].text.lines) && x.poster == Picture(disk, PosterNames(path))
            && x.mtime == disk[path].stamp.mtime && x.size == disk[path].stamp.size
            && x.name == (if nfo.Some? && nfo.value.title != "" then nfo.value.title else Stem(Base(path)))
            && x.overview == (if nfo.Some? then nfo.value.plot else "") && x.year == (if nfo.Some? then nfo.value.year else 0)
            && x.season == (if nfo.Some? && nfo.value.season > 0 then nfo.value.season else NameSeason(cfg, path))
            && x.episode == (if nfo.Some? && nfo.value.episode > 0 then nfo.value.episode else NameEpisode(cfg, path))
  {
    BareLeafMeaning(cfg, disk, path, seen);
    LocalInfoMeaning(disk, path, BareLeaf(cfg, disk[path], path, PlaceOf(cfg, disk, path), seen));
    hide Visible, PlaceOf, BareLeaf, LocalInfo, NameSeason, NameEpisode, Stem, Base, Dir, Root, FirstNfo, NfoNames, PosterNames, FirstUrl, Picture;
  }

  lemma {:induction false} BareLeafMeaning(cfg: Config, disk: Disk, path: string, seen: string)
    requires ValidConfig(cfg) && Visible(cfg, path) && path in disk && disk[path].text.Lines?
    ensures var x := BareLeaf(cfg, disk[path], path, PlaceOf(cfg, disk, path), seen);
            && x.kind == (if cfg.tv then Episode else Movie) && x.seen == seen && x.name == Stem(Base(path))
            && x.parent == (if cfg.tv && Dir(path) != Root(cfg, path) then Folder(Dir(path)) else Library)
            && x.url == FirstUrl(disk[path].text.lines) && x.overview == "" && x.poster == "" && x.year == 0
            && x.mtime == disk[path].stamp.mtime && x.size == disk[path].stamp.size
            && x.season == NameSeason(cfg, path) && x.episode == NameEpisode(cfg, path)
  {
    PlaceMeaning(cfg, disk, path);
    if cfg.tv && Dir(path) != Root(cfg, path) && SeasonNumber(Base(Dir(path))).Some? { SeasonFolderIsNoSeries(cfg, disk, path); }
    hide Visible, PlaceOf, EpisodeTag, Stem, Base, Dir, Root, SeasonNumber, FirstUrl, NearestMark, TopOf, Marked, Under, Below, ValidConfig;
  }

  /** What sidecars change in a row. */
  lemma {:induction false} LocalInfoMeaning(disk: Disk, path: string, x: Row)
    ensures var y, nfo, poster := LocalInfo(disk, path, x), FirstNfo(disk, NfoNames(path)), Picture(disk, PosterNames(path));
            && y.kind == x.kind && y.parent == x.parent && y.seen == x.seen && y.url == x.url && y.mtime == x.mtime && y.size == x.size
            && y.name == (if nfo.Some? && nfo.value.title != "" then nfo.value.title else x.name)
            && y.overview == (if nfo.Some? then nfo.value.plot else x.overview) && y.year == (if nfo.Some? then nfo.value.year else x.year)
            && y.season == (if nfo.Some? && nfo.value.season > 0 then nfo.value.season else x.season)
            && y.episode == (if nfo.Some? && nfo.value.episode > 0 then nfo.value.episode else x.episode)
            && (x.poster == "" ==> y.poster == poster)
  {
    hide FirstNfo, FirstPresent, NfoNames, PosterNames;
  }

  /** A file whose name carries a tag, without numbers from an NFO: the first number is the season, or when it is 0
      the season folder's, and the second is the episode. */
  lemma {:induction false} TaggedLeaf(cfg: Config, disk: Disk, path: string, seen: string, i: nat, n: nat, m: nat)
    requires ValidConfig(cfg) && Visible(cfg, path) && path in disk && disk[path].text.Lines? && cfg.tv
    requires FirstTag(Stem(Base(path)), i, n, m)
    requires var nfo := FirstNfo(disk, NfoNames(path)); nfo.Some? ==> nfo.value.season <= 0 && nfo.value.episode <= 0
    ensures var x, name := LeafRow(cfg, disk, path, seen), Stem(Base(path));
            && x.episode == SecondNumber(name, i, n, m)
            && (FirstNumber(name, i, n, m) != 0 ==> x.season == FirstNumber(name, i, n, m))
            && (FirstNumber(name, i, n, m) == 0 ==>
                  forall k: nat :: Dir(path) != Root(cfg, path) && SeasonText(Base(Dir(path)), k) ==> x.season == Number(Base(Dir(path))[k..]))
  {
    EpisodeTagIs(Stem(Base(path)));
    SeasonNumberIs(Base(Dir(path)));
    LeafRowMeaning(cfg, disk, path, seen);
    hide LeafRow, Visible, EpisodeTag, Stem, Base, Dir, Root, SeasonNumber, FirstNfo, NfoNames, FirstNumber, SecondNumber, Tagged, SeasonText;
  }

  // ---- folder rows

  /** A series row: its folder's NFO, and for want of a poster of its own that of a season. */
  lemma {:induction false} SeriesRowMeaning(disk: Disk, series: string, seen: string)
    ensures var x, nfo, own := SeriesRow(disk, series, seen), FirstNfo(disk, NfoNames(Join(series, "tvshow.strm"))), Picture(disk, PosterNames(Join(series, "tvshow.strm")));
            && x.kind == Series && x.parent == Library && x.seen == seen && x.url == "" && x.mtime == 0 && x.size == 0
            && x.name == (if nfo.Some? && nfo.value.title != "" then nfo.value.title else Base(series))
            && x.overview == (if nfo.Some? then nfo.value.plot else "") && x.year == (if nfo.Some? then nfo.value.year else 0)
            && x.season == (if nfo.Some? && nfo.value.season > 0 then nfo.value.season else 0)
            && x.poster == (if own != "" then own else FallbackPoster(disk, series, SubFolders(disk, series)))
  {
    hide FirstNfo, FirstPresent, NfoNames, PosterNames, Base, FallbackPoster, SubFolders;
  }

  /** A season row: the number of its folder's name, or failing that the tag's of the file, unless an NFO gives one;
      and the poster for that number. */
  lemma {:induction false} SeasonRowMeaning(cfg: Config, disk: Disk, path: string, series: string, season: string, seen: string)
    ensures var x, nfo := SeasonRow(cfg, disk, path, series, season, seen), FirstNfo(disk, NfoNames(Join(season, "season.strm")));
            var folder, tag := SeasonNumber(Base(season)), EpisodeTag(Stem(Base(path)));
            var number := if folder.Some? then folder.value else if cfg.tv && tag.Some? then tag.value.0 else 0;
            && x.kind == Season && x.parent == Folder(series) && x.seen == seen && x.url == "" && x.mtime == 0 && x.size == 0
            && x.name == (if nfo.Some? && nfo.value.title != "" then nfo.value.title else Base(season))
            && x.season == (if nfo.Some? && nfo.value.season > 0 then nfo.value.season else number)
            && x.episode == (if nfo.Some? && nfo.value.episode > 0 then nfo.value.episode else number)
            && x.poster == Picture(disk, SeasonPosterNames(season, x.season))
  {
    hide FirstNfo, FirstPresent, NfoNames, PosterNames, Base, SeasonNumber, EpisodeTag, Stem, SeasonPosterNames;
  }

  /** The names tried for a season's poster: jpg, png, webp, jpeg, and for each the folder's own two before the two
      beside it, the padded number first. */
  lemma {:induction false} SeasonPosterOrder(season: string, n: int)
    ensures var names := SeasonPosterNames(season, n);
            && |names| == 16
            && forall i :: 0 <= i < 4 ==>
                 var ext := [".jpg", ".png", ".webp", ".jpeg"][i];
                 && names[4 * i] == season + "/poster" + ext && names[4 * i + 1] == season + "/folder" + ext
                 && names[4 * i + 2] == Dir(season) + "/season" + TwoDigits(n) + "-poster" + ext
                 && names[4 * i + 3] == Dir(season) + "/season" + Itoa(n) + "-poster" + ext
  {
    hide Dir, TwoDigits, Itoa;
    PostersWithAre(season, n, ".jpg");
    PostersWithAre(season, n, ".png");
    PostersWithAre(season, n, ".webp");
    PostersWithAre(season, n, ".jpeg");
    hide PostersWith;
  }

  lemma {:induction false} PostersWithAre(season: string, n: int, ext: string)
    ensures PostersWith(season, n, ext) == [season + "/poster" + ext, season + "/folder" + ext,
              Dir(season) + "/season" + TwoDigits(n) + "-poster" + ext, Dir(season) + "/season" + Itoa(n) + "-poster" + ext]
  {
    JoinWord(season, "poster", ext);
    JoinWord(season, "folder", ext);
    JoinNumbered(Dir(season), TwoDigits(n), ext);
    JoinNumbered(Dir(season), Itoa(n), ext);
    assert "/" + "poster" == "/poster" && "/" + "folder" == "/folder";
    hide Dir, TwoDigits, Itoa, Join;
  }

  lemma {:induction false} JoinWord(d: string, word: string, ext: string)
    ensures Join(d, word + ext) == d + ("/" + word) + ext
  {
  }

  lemma {:induction false} JoinNumbered(d: string, number: string, ext: string)
    ensures Join(d, "season" + number + "-poster" + ext) == d + "/season" + number + "-poster" + ext
  {
    var rest := number + "-poster" + ext;
    assert "season" + number + "-poster" + ext == "season" + rest;
    assert "/" + "season" == "/season";
    JoinWord(d, "season", rest);
    assert d + "/season" + rest == d + "/season" + number + "-poster" + ext;
  }
}
