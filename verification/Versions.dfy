/** Version keys, grouping, and listings that show one representative per version group. */
module Versions {
  import opened Basics
  import opened Paths
  import opened SortKeys
  import opened Pages
  import opened PageServer
  import opened PageTheorems

  // ---- the key

  function DigitCount(s: string): (n: nat)
    ensures n <= |s|
  {
    if |s| > 0 && IsDigit(s[0]) then 1 + DigitCount(s[1..]) else 0
  }

  /** [{]tmdb(?:id)?-([0-9]+)[}] at the start of s: the digits. */
  function TmdbAt(s: string): Option<string> {
    var rest := if "{tmdbid-" <= s then s[8..] else if "{tmdb-" <= s then s[6..] else "";
    var n := DigitCount(rest);
    if n > 0 && n < |rest| && rest[n] == '}' then Some(rest[..n]) else None
  }

  /** The leftmost match in a path. */
  function Tmdb(path: string): Option<string> {
    if path == "" then None
    else if TmdbAt(path).Some? then TmdbAt(path)
    else Tmdb(path[1..])
  }

  function TrimLeft(s: string): string {
    if s != "" && s[0] == ' ' then TrimLeft(s[1..]) else s
  }

  function TrimRight(s: string): string {
    if s != "" && s[|s| - 1] == ' ' then TrimRight(s[..|s| - 1]) else s
  }

  function PlainName(name: string): string { Lower(TrimRight(TrimLeft(name))) }

  predicate KnownKind(k: string) { k == "Movie" || k == "Episode" || k == "Series" || k == "Season" }

  predicate Alone(x: Item) {
    !KnownKind(x.kind)
    || ((x.kind == "Episode" || x.kind == "Season") && ((x.kind == "Episode" && x.episode <= 0) || Tmdb(x.path).None?))
  }

  function Core(x: Item): string {
    match Tmdb(x.path)
    case Some(n) => "tmdb:" + n
    case None => if x.year > 0 then "name:" + PlainName(x.name) + ":" + Itoa(x.year) else "id:" + x.id
  }

  function Suffix(x: Item): string {
    if x.kind == "Episode" then ":" + Itoa(x.season) + ":" + Itoa(x.episode)
    else if x.kind == "Season" then ":" + Itoa(x.season)
    else ""
  }

  /** media_version_key_v2. */
  function VersionKey(x: Item): string {
    if Alone(x) then "id:" + x.id else x.kind + ":" + (Core(x) + Suffix(x))
  }

  /** The same film, show, season or episode: same tmdb number, or failing that same plain name and year. */
  predicate SameVersion(x: Item, y: Item) {
    x.kind == y.kind && (SameNumber(x, y) || SameName(x, y))
  }

  predicate SameNumber(x: Item, y: Item) {
    && (x.kind == "Movie" || x.kind == "Episode" || x.kind == "Series" || x.kind == "Season") && Tmdb(x.path).Some? && Tmdb(x.path) == Tmdb(y.path)
    && (x.kind == "Season" || x.kind == "Episode" ==> x.season == y.season)
    && (x.kind == "Episode" ==> x.episode == y.episode > 0)
  }

  predicate SameName(x: Item, y: Item) {
    && (x.kind == "Movie" || x.kind == "Series") && Tmdb(x.path).None? && Tmdb(y.path).None?
    && x.year == y.year > 0 && PlainName(x.name) == PlainName(y.name)
  }

  // ---- reading keys back

  predicate Colonless(s: string) { forall i :: 0 <= i < |s| ==> s[i] != ':' }

  lemma {:induction false} SplitFirst(a: string, b: string, c: string, d: string)
    requires Colonless(a) && Colonless(c) && a + ":" + b == c + ":" + d
    ensures a == c && b == d
  {
    var s := a + ":" + b;
    assert s[|a|] == ':' && s[|c|] == ':';
    assert forall i :: 0 <= i < |a| ==> s[i] == a[i];
    assert forall i :: 0 <= i < |c| ==> s[i] == c[i];
    assert a == s[..|a|] && c == s[..|c|];
    assert b == s[|a| + 1..] && d == s[|c| + 1..];
  }

  lemma {:induction false} SplitLast(a: string, b: string, c: string, d: string)
    requires Colonless(b) && Colonless(d) && a + ":" + b == c + ":" + d
    ensures a == c && b == d
  {
    var s := a + ":" + b;
    assert s[|a|] == ':' && s[|c|] == ':';
    assert forall i :: |a| < i < |s| ==> s[i] == b[i - |a| - 1];
    assert forall i :: |c| < i < |s| ==> s[i] == d[i - |c| - 1];
    assert a == s[..|a|] && c == s[..|c|];
    assert b == s[|a| + 1..] && d == s[|c| + 1..];
  }

  lemma {:induction false} ItoaColonless(n: int)
    ensures Colonless(Itoa(n))
  {
  }

  lemma {:induction false} ItoaInjective(m: int, n: int)
    requires Itoa(m) == Itoa(n)
    ensures m == n
  {
    ItoaRoundTrip(m);
    ItoaRoundTrip(n);
  }

  lemma {:induction false} DigitCountDigits(s: string)
    ensures AllDigits(s[..DigitCount(s)])
  {
    if |s| > 0 && IsDigit(s[0]) {
      DigitCountDigits(s[1..]);
      assert s[..DigitCount(s)] == [s[0]] + s[1..][..DigitCount(s[1..])];
    }
  }

  lemma {:induction false} TmdbColonless(path: string)
    ensures Tmdb(path).Some? ==> Colonless(Tmdb(path).value)
  {
    if path != "" {
      if TmdbAt(path).Some? {
        DigitCountDigits(if "{tmdbid-" <= path then path[8..] else path[6..]);
      } else {
        TmdbColonless(path[1..]);
      }
    }
  }

  /** Dropping a common start. */
  lemma {:induction false} DropCommon(p: string, a: string, b: string)
    requires p + a == p + b
    ensures a == b
  {
    assert a == (p + a)[|p|..] && b == (p + b)[|p|..];
  }

  lemma {:induction false} CoreMeaning(x: Item, y: Item)
    requires x.id != y.id && Core(x) == Core(y)
    ensures (Tmdb(x.path).Some? && Tmdb(x.path) == Tmdb(y.path))
         || (Tmdb(x.path).None? && Tmdb(y.path).None? && x.year == y.year > 0 && PlainName(x.name) == PlainName(y.name))
  {
    hide Tmdb, PlainName, Itoa;
    assert Core(x)[0] == Core(y)[0];
    if Tmdb(x.path).Some? {
      DropCommon("tmdb:", Tmdb(x.path).value, Tmdb(y.path).value);
    } else if x.year > 0 {
      var a, b := PlainName(x.name), PlainName(y.name);
      var u, v := Itoa(x.year), Itoa(y.year);
      assert "name:" + a + ":" + u == "name:" + (a + ":" + u) && "name:" + b + ":" + v == "name:" + (b + ":" + v);
      DropCommon("name:", a + ":" + u, b + ":" + v);
      ItoaColonless(x.year);
      ItoaColonless(y.year);
      SplitLast(a, u, b, v);
      ItoaInjective(x.year, y.year);
    } else {
      DropCommon("id:", x.id, y.id);
    }
  }

  lemma {:induction false} NumberedMeaning(m: string, s: string, n: string, t: string)
    requires Colonless(m) && Colonless(n) && "tmdb:" + m + (":" + s) == "tmdb:" + n + (":" + t)
    ensures m == n && s == t
  {
    assert "tmdb:" + m + (":" + s) == "tmdb:" + (m + ":" + s) && "tmdb:" + n + (":" + t) == "tmdb:" + (n + ":" + t);
    DropCommon("tmdb:", m + ":" + s, n + ":" + t);
    SplitFirst(m, s, n, t);
  }

  lemma {:induction false} TailMeaning(x: Item, y: Item)
    requires x.id != y.id && x.kind == y.kind && !Alone(x) && !Alone(y)
    requires Core(x) + Suffix(x) == Core(y) + Suffix(y)
    ensures SameVersion(x, y)
  {
    hide Tmdb, PlainName, Itoa;
    if x.kind == "Movie" || x.kind == "Series" {
      assert Core(x) + "" == Core(x) && Core(y) + "" == Core(y);
      CoreMeaning(x, y);
    } else {
      TmdbColonless(x.path);
      TmdbColonless(y.path);
      var m, n := Tmdb(x.path).value, Tmdb(y.path).value;
      hide Colonless;
      if x.kind == "Season" {
        NumberedMeaning(m, Itoa(x.season), n, Itoa(y.season));
        ItoaInjective(x.season, y.season);
      } else {
        EpisodeTail(m, x.season, x.episode, n, y.season, y.episode);
      }
    }
  }

  lemma {:induction false} EpisodeTail(m: string, season: int, episode: int, n: string, season': int, episode': int)
    requires Colonless(m) && Colonless(n)
    requires "tmdb:" + m + (":" + Itoa(season) + ":" + Itoa(episode)) == "tmdb:" + n + (":" + Itoa(season') + ":" + Itoa(episode'))
    ensures m == n && season == season' && episode == episode'
  {
    hide Itoa, Colonless;
    var s, t, e, f := Itoa(season), Itoa(season'), Itoa(episode), Itoa(episode');
    assert ":" + s + ":" + e == ":" + (s + ":" + e) && ":" + t + ":" + f == ":" + (t + ":" + f);
    NumberedMeaning(m, s + ":" + e, n, t + ":" + f);
    ItoaColonless(season);
    ItoaColonless(season');
    SplitFirst(s, e, t, f);
    ItoaInjective(season, season');
    ItoaInjective(episode, episode');
  }

  /** Two rows share a version key exactly when they are versions of the same thing. */
  lemma {:induction false} VersionKeyMeaning(x: Item, y: Item)
    requires x.id != y.id
    ensures VersionKey(x) == VersionKey(y) <==> SameVersion(x, y)
  {
    if VersionKey(x) == VersionKey(y) {
      KeysEqual(x, y);
    }
    hide Tmdb, PlainName, Itoa;
  }

  lemma {:induction false} KeysEqual(x: Item, y: Item)
    requires x.id != y.id && VersionKey(x) == VersionKey(y)
    ensures SameVersion(x, y)
  {
    hide Tmdb, PlainName, Itoa, Core, Suffix, SameVersion;
    if Alone(x) && Alone(y) {
      DropCommon("id:", x.id, y.id);
    } else {
      assert VersionKey(x)[0] == VersionKey(y)[0];
      SplitFirst(x.kind, Core(x) + Suffix(x), y.kind, Core(y) + Suffix(y));
      TailMeaning(x, y);
    }
  }

  // ---- merged listings

  datatype Merging = AcrossLibraries | WithinFolder | Off

  /** regexp_replace(path, '/[^/]*$', ''). */
  function ParentFolder(path: string): string {
    var i := LastSlash(path);
    if i < 0 then path else path[..i]
  }

  /** versionGrouping. */
  function GroupOf(m: Merging, x: Item): string {
    match m
    case AcrossLibraries => VersionKey(x)
    case WithinFolder => VersionKey(x) + ":" + x.lib + ":" + (if x.kind == "Series" then x.path else ParentFolder(x.path))
    case Off => x.id
  }

  /** x is the first of its group in SELECT DISTINCT ON (group) id ... WHERE keep ORDER BY group, id. */
  predicate Represents(t: Table, keep: Where, m: Merging, x: Item) {
    x in t && keep(x) && forall i :: 0 <= i < |t| && keep(t[i]) && GroupOf(m, t[i]) == GroupOf(m, x) ==> !TextLess(t[i].id, x.id)
  }

  /** mergeWhere: without merging the condition is left as it is. */
  function MergeWhere(t: Table, keep: Where, m: Merging): Where {
    if m.Off? then keep else x => Represents(t, keep, m, x)
  }

  lemma {:induction false} SmallestIn(t: Table, keep: Where, m: Merging, y: Item) returns (x: Item)
    requires y in t && keep(y)
    ensures Represents(t, keep, m, x) && GroupOf(m, x) == GroupOf(m, y)
  {
    hide GroupOf;
    x := y;
    var i := 0;
    while i < |t|
      invariant 0 <= i <= |t|
      invariant x in t && keep(x) && GroupOf(m, x) == GroupOf(m, y)
      invariant forall j :: 0 <= j < i && keep(t[j]) && GroupOf(m, t[j]) == GroupOf(m, x) ==> !TextLess(t[j].id, x.id)
    {
      if keep(t[i]) && GroupOf(m, t[i]) == GroupOf(m, x) && TextLess(t[i].id, x.id) {
        forall j | 0 <= j < i && keep(t[j]) && GroupOf(m, t[j]) == GroupOf(m, x)
          ensures !TextLess(t[j].id, t[i].id)
        {
          if TextLess(t[j].id, t[i].id) { TextTransitive(t[j].id, t[i].id, x.id); }
        }
        TextTotal(t[i].id, t[i].id);
        x := t[i];
      } else {
        TextTotal(x.id, x.id);
      }
      i := i + 1;
    }
  }

  lemma {:induction false} OneRepresentative(t: Table, keep: Where, m: Merging, x: Item, y: Item)
    requires UniqueIds(t) && Represents(t, keep, m, x) && Represents(t, keep, m, y) && GroupOf(m, x) == GroupOf(m, y)
    ensures x == y
  {
    hide GroupOf;
    var i :| 0 <= i < |t| && t[i] == x;
    var j :| 0 <= j < |t| && t[j] == y;
    TextTotal(x.id, y.id);
  }

  /** A merged listing, read page by page on a fixed catalog, shows each version group that the filter meets
      exactly once, by its member with the smallest id. */
  lemma {:induction false} MergedListing(t: Table, mean: Meaning, q: Query, keep: Where, m: Merging, limit: nat, now: nat)
    requires UniqueIds(t) && GoodPlan(q.plan) && limit > 0 && !m.Off? && mean(q) == MergeWhere(t, keep, m)
    ensures Good(t, mean, Fresh(q, 0, now))
    ensures var rows := Chain(t, mean, Fresh(q, 0, now), limit, now);
            && (forall x :: x in rows <==> Represents(t, keep, m, x))
            && (forall y :: y in t && keep(y) ==> exists i :: 0 <= i < |rows| && GroupOf(m, rows[i]) == GroupOf(m, y))
            && (forall i, j :: 0 <= i < j < |rows| ==> GroupOf(m, rows[i]) != GroupOf(m, rows[j]))
  {
    var tok := Fresh(q, 0, now);
    ChainIsRest(t, mean, tok, limit, now);
    ListFacts(q.plan, t, mean(q));
    var rows := Chain(t, mean, tok, limit, now);
    assert rows == Listing(t, mean, q);
    hide Chain, List, GroupOf, UniqueIds, Listed, Represents, GoodPlan;
    assert forall x :: x in rows <==> Represents(t, keep, m, x) by { RepresentsIn(t, keep, m); }
    forall y | y in t && keep(y)
      ensures exists i :: 0 <= i < |rows| && GroupOf(m, rows[i]) == GroupOf(m, y)
    {
      var x := SmallestIn(t, keep, m, y);
      var i :| 0 <= i < |rows| && rows[i] == x;
    }
    forall i, j | 0 <= i < j < |rows|
      ensures GroupOf(m, rows[i]) != GroupOf(m, rows[j])
    {
      if GroupOf(m, rows[i]) == GroupOf(m, rows[j]) {
        assert rows[i] in rows && rows[j] in rows;
        OneRepresentative(t, keep, m, rows[i], rows[j]);
        ListedDistinct(q.plan, rows, i, j);
      }
    }
  }

  lemma {:induction false} RepresentsIn(t: Table, keep: Where, m: Merging)
    ensures forall x :: Represents(t, keep, m, x) ==> x in t
  {
  }

  lemma {:induction false} ListedDistinct(p: Plan, rows: seq<Item>, i: nat, j: nat)
    requires GoodPlan(p) && Listed(p, rows) && i < j < |rows|
    ensures rows[i] != rows[j]
  {
    hide Before;
    BeforeTotal(p, rows[i], rows[i]);
  }

  /** The cursor condition stands outside the choice of representatives: what remains after a cursor are
      representatives of the whole filtered set, the same ones as on the first page. */
  lemma {:induction false} CursorKeepsRepresentatives(p: Plan, t: Table, keep: Where, m: Merging, c: Item, x: Item)
    requires GoodPlan(p) && UniqueIds(t) && !m.Off?
    ensures x in Remaining(p, t, MergeWhere(t, keep, m), Some(c)) <==> Represents(t, keep, m, x) && Before(p, c, x)
  {
    RemainingFacts(p, t, MergeWhere(t, keep, m), Some(c));
    RepresentsIn(t, keep, m);
    hide Remaining, Before, Represents, UniqueIds;
  }

  /** Inside the choice it would not do: a group already listed by its smallest id would come again. */
  lemma {:induction false} CursorInsideWouldRepeat(p: Plan, t: Table, keep: Where, m: Merging, c: Item, x: Item, y: Item)
    requires GoodPlan(p) && UniqueIds(t) && !m.Off?
    requires Represents(t, keep, m, x) && !Before(p, c, x)
    requires y in t && keep(y) && GroupOf(m, y) == GroupOf(m, x) && Before(p, c, y)
    ensures exists z :: z in List(p, t, MergeWhere(t, After(p, keep, Some(Key(p, c))), m)) && GroupOf(m, z) == GroupOf(m, x) && z != x
  {
    var inside := After(p, keep, Some(Key(p, c)));
    assert inside(y) by { hide Key, GroupOf; }
    var z := SmallestIn(t, inside, m, y);
    ListFacts(p, t, MergeWhere(t, inside, m));
    assert inside(z) && Before(p, c, z);
    hide List, GroupOf, UniqueIds;
  }
}
