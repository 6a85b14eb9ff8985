/** What version keys and groups are made of. */
module VersionMeaning {
  import opened Basics
  import opened Paths
  import opened SortKeys
  import opened Pages
  import opened Versions

  // ---- the number in a path

  predicate NumberText(d: string) { d != "" && AllDigits(d) }

  /** At i the path has the digits d between the opening of a tag, with id or without, and a closing brace. */
  predicate TmdbHere(path: string, i: nat, d: string) {
    i <= |path| && NumberText(d) && ("{tmdb-" + d + "}" <= path[i..] || "{tmdbid-" + d + "}" <= path[i..])
  }

  lemma {:induction false} DigitCountMaximal(s: string)
    ensures DigitCount(s) < |s| ==> !IsDigit(s[DigitCount(s)])
  {
    if |s| > 0 && IsDigit(s[0]) { DigitCountMaximal(s[1..]); }
  }

  lemma {:induction false} DigitCountIs(s: string, d: string)
    requires NumberText(d) && d + "}" <= s
    ensures DigitCount(s) == |d| && s[..|d|] == d && s[|d|] == '}'
  {
    DigitCountMaximal(s);
    DigitCountDigits(s);
    assert (d + "}")[..|d|] == d && s[..|d|] == (d + "}")[..|d|];
    assert s[|d|] == (d + "}")[|d|];
    var n := DigitCount(s);
    assert forall i :: 0 <= i < n ==> s[..n][i] == s[i];
    assert forall i :: 0 <= i < |d| ==> s[i] == d[i];
  }

  lemma {:induction false} AfterPrefix(prefix: string, rest: string, s: string)
    ensures prefix + rest <= s <==> prefix <= s && rest <= s[|prefix|..]
  {
    var whole := prefix + rest;
    if whole <= s {
      assert s[..|whole|] == whole;
      assert s[|prefix|..][..|rest|] == s[..|whole|][|prefix|..];
    }
    if prefix <= s && rest <= s[|prefix|..] {
      assert s == prefix + s[|prefix|..];
      assert s[..|whole|] == prefix + s[|prefix|..][..|rest|];
    }
  }

  lemma {:induction false} TmdbAtIs(s: string, d: string)
    ensures TmdbAt(s) == Some(d) <==> TmdbHere(s, 0, d)
  {
    assert s[0..] == s;
    assert "{tmdb-" + d + "}" == "{tmdb-" + (d + "}") && "{tmdbid-" + d + "}" == "{tmdbid-" + (d + "}");
    AfterPrefix("{tmdb-", d + "}", s);
    AfterPrefix("{tmdbid-", d + "}", s);
    assert "{tmdb-" <= s ==> s[5] == '-';
    assert "{tmdbid-" <= s ==> s[5] == 'i';
    if NumberText(d) {
      if "{tmdb-" <= s && d + "}" <= s[6..] { DigitCountIs(s[6..], d); }
      if "{tmdbid-" <= s && d + "}" <= s[8..] { DigitCountIs(s[8..], d); }
    }
    if TmdbAt(s) == Some(d) {
      var rest := if "{tmdbid-" <= s then s[8..] else s[6..];
      DigitCountDigits(rest);
      assert rest[..|d| + 1] == d + "}";
    }
  }

  ghost predicate FirstTmdb(path: string, i: nat, d: string) {
    TmdbHere(path, i, d) && forall j: nat, e :: j < i ==> !TmdbHere(path, j, e)
  }

  lemma {:induction false} TmdbTail(path: string, i: nat, e: string)
    requires path != "" && i > 0
    ensures TmdbHere(path, i, e) <==> TmdbHere(path[1..], i - 1, e)
  {
    if i <= |path| { assert path[1..][i - 1..] == path[i..]; }
    hide NumberText;
  }

  /** The number is that of the leftmost tag in the path; there is none without a tag. */
  lemma {:induction false} TmdbIs(path: string)
    ensures Tmdb(path).None? <==> forall i: nat, e :: !TmdbHere(path, i, e)
    ensures forall i: nat, e :: FirstTmdb(path, i, e) ==> Tmdb(path) == Some(e)
    ensures Tmdb(path).Some? ==> exists i: nat :: FirstTmdb(path, i, Tmdb(path).value)
  {
    forall e { TmdbAtIs(path, e); }
    hide TmdbAt, TmdbHere;
    if path == "" {
      forall i: nat, e
        ensures !TmdbHere("", i, e)
      {
        NothingInEmpty(i, e);
      }
    } else {
      TmdbIs(path[1..]);
      forall i: nat, e | i > 0
        ensures TmdbHere(path, i, e) <==> TmdbHere(path[1..], i - 1, e)
      {
        TmdbTail(path, i, e);
      }
      if TmdbAt(path).Some? {
        assert FirstTmdb(path, 0, TmdbAt(path).value);
      } else {
        forall i: nat, e | FirstTmdb(path, i, e)
          ensures i > 0 && FirstTmdb(path[1..], i - 1, e)
        {
          forall j: nat, k | j < i - 1
            ensures !TmdbHere(path[1..], j, k)
          {
            assert !TmdbHere(path, j + 1, k);
          }
        }
        if Tmdb(path[1..]).Some? {
          var i: nat :| FirstTmdb(path[1..], i, Tmdb(path[1..]).value);
          assert TmdbHere(path, i + 1, Tmdb(path[1..]).value);
          assert FirstTmdb(path, i + 1, Tmdb(path[1..]).value);
        }
      }
    }
  }

  lemma {:induction false} NothingInEmpty(i: nat, e: string)
    ensures !TmdbHere("", i, e)
  {
  }

  // ---- plain names

  predicate Blank(s: string) { forall i :: 0 <= i < |s| ==> s[i] == ' ' }

  predicate Bare(s: string) { s != "" ==> s[0] != ' ' && s[|s| - 1] != ' ' }

  lemma {:induction false} TrimLeftIs(s: string) returns (a: string)
    ensures s == a + TrimLeft(s) && Blank(a) && (TrimLeft(s) != "" ==> TrimLeft(s)[0] != ' ')
  {
    if s != "" && s[0] == ' ' {
      a := TrimLeftIs(s[1..]);
      a := " " + a;
    } else {
      a := "";
    }
  }

  lemma {:induction false} TrimRightIs(s: string) returns (b: string)
    ensures s == TrimRight(s) + b && Blank(b) && (TrimRight(s) != "" ==> TrimRight(s)[|TrimRight(s)| - 1] != ' ')
  {
    if s != "" && s[|s| - 1] == ' ' {
      b := TrimRightIs(s[..|s| - 1]);
      b := b + " ";
    } else {
      b := "";
    }
  }

  /** A plain name is the name in lower case without the blanks around it. */
  lemma {:induction false} PlainNameIs(name: string) returns (a: string, middle: string, b: string)
    ensures name == a + middle + b && Blank(a) && Blank(b) && Bare(middle) && PlainName(name) == Lower(middle)
  {
    a := TrimLeftIs(name);
    b := TrimRightIs(TrimLeft(name));
    middle := TrimRight(TrimLeft(name));
    if middle != "" { assert middle[0] == TrimLeft(name)[0]; }
    hide TrimLeft, TrimRight;
  }

  // ---- groups

  /** The folder that merging within folders goes by. */
  function FolderOf(x: Item): string { if x.kind == "Series" then x.path else ParentFolder(x.path) }

  /** Merging across libraries groups versions of the same thing, and merging off nothing at all. Merging within
      folders groups them when they lie in the same folder of the same library; and groups nothing else as long as
      library ids and folders have no colon. */
  lemma {:induction false} GroupMeaning(m: Merging, x: Item, y: Item)
    requires x.id != y.id
    ensures m.AcrossLibraries? ==> (GroupOf(m, x) == GroupOf(m, y) <==> SameVersion(x, y))
    ensures m.Off? ==> GroupOf(m, x) != GroupOf(m, y)
    ensures m.WithinFolder? && SameVersion(x, y) && x.lib == y.lib && FolderOf(x) == FolderOf(y) ==> GroupOf(m, x) == GroupOf(m, y)
    ensures m.WithinFolder? && Colonless(x.lib) && Colonless(y.lib) && Colonless(FolderOf(x)) && Colonless(FolderOf(y)) ==>
              (GroupOf(m, x) == GroupOf(m, y) <==> SameVersion(x, y) && x.lib == y.lib && FolderOf(x) == FolderOf(y))
  {
    VersionKeyMeaning(x, y);
    hide VersionKey, SameVersion, ParentFolder;
    if m.WithinFolder? && Colonless(x.lib) && Colonless(y.lib) && Colonless(FolderOf(x)) && Colonless(FolderOf(y))
       && GroupOf(m, x) == GroupOf(m, y) {
      SplitLast(VersionKey(x) + ":" + x.lib, FolderOf(x), VersionKey(y) + ":" + y.lib, FolderOf(y));
      SplitLast(VersionKey(x), x.lib, VersionKey(y), y.lib);
    }
  }

  /** Without merging a listing's condition is left as it is. */
  lemma {:induction false} OffLeavesCondition(t: Table, keep: Where)
    ensures MergeWhere(t, keep, Off) == keep
  {
  }

  lemma {:induction false} StartsAlike(prefix: string, s: string)
    requires prefix != ""
    ensures prefix <= s ==> s != "" && s[0] == prefix[0]
  {
  }

  lemma {:induction false} NoBraceNoNumber(path: string)
    requires forall i :: 0 <= i < |path| ==> path[i] != '{'
    ensures Tmdb(path).None?
  {
    if path != "" {
      NoBraceNoNumber(path[1..]);
      StartsAlike("{tmdb-", path);
      StartsAlike("{tmdbid-", path);
    }
  }

  lemma {:induction false} GroupText(x: Item, year: string, folder: string)
    requires x.kind == "Movie" && Tmdb(x.path).None? && 0 < x.year < 10 && year == [Digit(x.year)]
    requires Bare(x.name) && Lower(x.name) == x.name && x.path == folder + "/f.strm"
    ensures GroupOf(WithinFolder, x) == ("Movie:" + ("name:" + x.name + ":" + year)) + ":" + x.lib + ":" + folder && FolderOf(x) == folder
  {
    FolderAbove(x.path, folder);
    KeyOfNamed(x, year, x.name);
    hide Tmdb, VersionKey, ParentFolder;
  }

  /** A name and a folder with colons can stand for each other: two films with different names, years and folders
      that merging within folders takes for versions of one thing. */
  lemma {:induction false} NamesCollide(x: Item, y: Item, f: string, g: string)
    requires x.kind == y.kind == "Movie" && x.lib == y.lib && x.year == 1 && y.year == 2
    requires Bare(x.name) && Lower(x.name) == x.name && Bare(y.name) && Lower(y.name) == y.name
    requires Tmdb(x.path).None? && Tmdb(y.path).None?
    requires y.name == x.name + ":" + "1" + ":" + x.lib + ":" + f
    requires x.path == (f + ":" + "2" + ":" + x.lib + ":" + g) + "/f.strm" && y.path == g + "/f.strm"
    ensures GroupOf(WithinFolder, x) == GroupOf(WithinFolder, y) && !SameVersion(x, y) && FolderOf(x) != FolderOf(y)
  {
    GroupText(x, "1", f + ":" + "2" + ":" + x.lib + ":" + g);
    GroupText(y, "2", g);
    Regroup("Movie:", x.name, "1", x.lib, f, "2", g);
    hide Tmdb, VersionKey, ParentFolder, Bare, Lower, GroupOf;
    assert |FolderOf(x)| > |FolderOf(y)|;
  }

  /** No brace, and no capital letter. */
  predicate Small(s: string) { forall i :: 0 <= i < |s| ==> s[i] != '{' && !('A' <= s[i] <= 'Z') }

  lemma {:induction false} SmallJoin(a: string, b: string)
    requires Small(a) && Small(b)
    ensures Small(a + b)
  {
  }

  lemma {:induction false} SmallIsLower(s: string)
    requires Small(s)
    ensures Lower(s) == s && forall i :: 0 <= i < |s| ==> s[i] != '{'
  {
  }

  lemma {:induction false} FiveSmall(a: string, lib: string, year: string, b: string) returns (s: string)
    requires Small(a) && Small(lib) && Small(year) && Small(b)
    ensures s == a + ":" + year + ":" + lib + ":" + b && Small(s)
  {
    assert Small(":");
    hide Small;
    s := a + ":" + year + ":" + lib + ":" + b;
    SmallJoin(a, ":");
    SmallJoin(a + ":", year);
    SmallJoin(a + ":" + year, ":");
    SmallJoin(a + ":" + year + ":", lib);
    SmallJoin(a + ":" + year + ":" + lib, ":");
    SmallJoin(a + ":" + year + ":" + lib + ":", b);
  }

  /** Such films exist: n of year 1 in /m/a:2:l:/m/b, and n:1:l:/m/a of year 2 in /m/b. */
  lemma {:induction false} ColonsCollide() returns (x: Item, y: Item)
    ensures x.name == "n" && FolderOf(y) == "/m/b" && x.year == 1 && y.year == 2 && x.lib == y.lib
    ensures GroupOf(WithinFolder, x) == GroupOf(WithinFolder, y) && !SameVersion(x, y) && FolderOf(x) != FolderOf(y)
  {
    var a, b, file, lib := "/m/a", "/m/b", "/f.strm", "l";
    assert Small("n") && Small("1") && Small("2") && Small(a) && Small(b) && Small(file) && Small(lib);
    var name := FiveSmall("n", lib, "1", a);
    var folder := FiveSmall(a, lib, "2", b);
    SmallJoin(folder, file);
    SmallJoin(b, file);
    SmallIsLower("n");
    SmallIsLower(name);
    SmallIsLower(folder + file);
    SmallIsLower(b + file);
    x := Item("1", lib, "Movie", folder + file, "n", 1, 0, 0, 0, 0);
    y := Item("2", lib, "Movie", b + file, name, 2, 0, 0, 0, 0);
    NoBraceNoNumber(x.path);
    NoBraceNoNumber(y.path);
    hide Tmdb, GroupOf, SameVersion, Lower, Small, ParentFolder;
    assert name[0] == 'n' && name[|name| - 1] == 'a';
    NamesCollide(x, y, a, b);
    FolderAbove(y.path, b);
  }

  /** The text of a group does not tell where the name in it ends and the folder begins. */
  lemma {:induction false} Regroup(kind: string, name: string, year: string, lib: string, f: string, later: string, g: string)
    ensures (kind + ("name:" + name + ":" + year)) + ":" + lib + ":" + (f + ":" + later + ":" + lib + ":" + g)
         == (kind + ("name:" + (name + ":" + year + ":" + lib + ":" + f) + ":" + later)) + ":" + lib + ":" + g
  {
    var head := kind + "name:" + name + ":" + year + ":" + lib + ":" + f;
    assert (kind + ("name:" + name + ":" + year)) + ":" + lib + ":" + (f + ":" + later + ":" + lib + ":" + g)
        == head + ":" + later + ":" + lib + ":" + g;
    assert (kind + ("name:" + (name + ":" + year + ":" + lib + ":" + f) + ":" + later)) == head + ":" + later;
  }

  lemma {:induction false} FolderAbove(path: string, folder: string)
    requires path == folder + "/f.strm"
    ensures ParentFolder(path) == folder
  {
    assert path == (folder + "/") + "f.strm";
    LastSlashAppend(folder + "/", "f.strm");
  }

  lemma {:induction false} KeyOfNamed(x: Item, year: string, plain: string)
    requires x.kind == "Movie" && Tmdb(x.path).None? && 0 < x.year < 10 && year == [Digit(x.year)] && x.name == plain
    requires Bare(plain) && Lower(plain) == plain
    ensures VersionKey(x) == "Movie:" + ("name:" + plain + ":" + year)
  {
    hide Tmdb;
    assert TrimLeft(plain) == plain && TrimRight(plain) == plain;
    assert Itoa(x.year) == year;
    assert "name:" + plain + ":" + year + "" == "name:" + plain + ":" + year;
  }
}
