/** What page by page listing promises: over a fixed catalog, over a changing one, and with versions merged. */
module PageTheorems {
  import opened Basics
  import opened SortKeys
  import opened Pages
  import opened PageServer

  // ---- a fixed catalog

  /** Which rows a query asks for. */
  type Meaning = Query -> Where

  function Listing(t: Table, mean: Meaning, q: Query): seq<Item> {
    List(q.plan, t, mean(q))
  }

  /** A token says how many rows have been passed and names the last of them. */
  ghost predicate Good(t: Table, mean: Meaning, tok: Token) {
    var l := Listing(t, mean, tok.query);
    && GoodPlan(tok.query.plan)
    && (tok.values != [] ==> 0 < tok.position <= |l| && tok.values == Texts(tok.query.plan, l[tok.position - 1]))
    && (tok.count == -1 || tok.count == |l|)
  }

  lemma {:induction false} SliceOfSuffix(l: seq<Item>, k: nat, n: nat)
    requires k <= |l|
    ensures Slice(l[k..], 0, n) == Slice(l, k, n)
  {
  }

  /** Asking for one row more tells whether the page is the last. */
  lemma {:induction false} SliceMore(l: seq<Item>, k: nat, limit: nat)
    ensures |Slice(l, k, limit + 1)| > limit <==> k + limit < |l|
    ensures k + limit < |l| ==> Slice(l, k, limit + 1)[..limit] == Slice(l, k, limit) && |Slice(l, k, limit)| == limit
    ensures 0 < limit && k + limit < |l| ==> Slice(l, k, limit)[limit - 1] == l[k + limit - 1]
    ensures k + limit >= |l| ==> Slice(l, k, limit + 1) == Slice(l, k, limit)
  {
  }

  lemma {:induction false} FetchGood(t: Table, mean: Meaning, tok: Token, limit: nat)
    requires UniqueIds(t) && Good(t, mean, tok)
    ensures Fetch(t, mean(tok.query), tok, limit) == Ok(Slice(Listing(t, mean, tok.query), tok.position, limit + 1))
  {
    hide UniqueIds, Sort, Filter, Texts, Slice, ReadValues, Key, After, GoodPlan;
    var p, keep, l := tok.query.plan, mean(tok.query), Listing(t, mean, tok.query);
    if tok.values == [] {
      NoCursorCondition(p, t, keep);
    } else {
      var x := l[tok.position - 1];
      ReadTexts(p, x);
      TextsLength(p, x);
      CursorIsSuffix(p, t, keep, tok.position);
      assert Sort(p, Filter(t, After(p, keep, Some(Key(p, x))))) == l[tok.position..];
      SliceOfSuffix(l, tok.position, limit + 1);
    }
  }

  lemma {:induction false} TextsLength(p: Plan, x: Item)
    ensures |Texts(p, x)| == |p.cols|
  {
  }

  lemma {:induction false} NoCursorCondition(p: Plan, t: Table, keep: Where)
    ensures Filter(t, After(p, keep, None)) == Filter(t, keep)
  {
    if t != [] { NoCursorCondition(p, t[1..], keep); }
  }

  lemma {:induction false} GoodNext(t: Table, mean: Meaning, tok: Token, limit: nat, now: nat)
    requires Good(t, mean, tok) && limit > 0 && tok.position + limit < |Listing(t, mean, tok.query)|
    ensures var rows := Slice(Listing(t, mean, tok.query), tok.position, limit);
            rows != [] && Good(t, mean, NextToken(tok, rows, now)) && NextToken(tok, rows, now).values != []
  {
    hide Listing, GoodPlan, Texts;
    SliceMore(Listing(t, mean, tok.query), tok.position, limit);
    TextsLength(tok.query.plan, Listing(t, mean, tok.query)[tok.position + limit - 1]);
    assert GoodPlan(tok.query.plan) ==> |tok.query.plan.cols| > 0 by { GoodPlanColumns(tok.query.plan); }
  }

  lemma {:induction false} GoodPlanColumns(p: Plan)
    requires GoodPlan(p)
    ensures |p.cols| > 0
  {
  }

  /** The page of a good token is the next limit rows of the listing, and its successor is good. */
  lemma {:induction false} GoodPage(t: Table, mean: Meaning, tok: Token, limit: nat, now: nat)
    requires UniqueIds(t) && Good(t, mean, tok) && limit > 0
    ensures var l := Listing(t, mean, tok.query);
            var r := PageAt(t, mean(tok.query), tok, limit, now);
            && r.Ok? && r.value.rows == Slice(l, tok.position, limit)
            && (r.value.next.Some? <==> tok.position + limit < |l|)
            && (r.value.next.Some? ==>
                  Good(t, mean, r.value.next.value) && r.value.next.value.query == tok.query && r.value.next.value.values != []
                  && r.value.next.value.position == tok.position + limit)
  {
    var l, keep := Listing(t, mean, tok.query), mean(tok.query);
    var c := Counted(t, keep, tok);
    ListFacts(tok.query.plan, t, keep);
    assert Good(t, mean, c);
    FetchGood(t, mean, c, limit);
    SliceMore(l, tok.position, limit);
    hide Listing, Fetch, UniqueIds, Filter, Slice, Good, NextToken;
    if tok.position + limit < |l| { GoodNext(t, mean, c, limit, now); }
    assert tok.position + limit < |l| ==> NextToken(c, Slice(l, tok.position, limit), now).query == tok.query;
  }

  /** All rows from a token to the end of its chain. */
  ghost function Chain(t: Table, mean: Meaning, tok: Token, limit: nat, now: nat): seq<Item>
    requires UniqueIds(t) && Good(t, mean, tok) && limit > 0
    decreases |Listing(t, mean, tok.query)| - tok.position
  {
    GoodPage(t, mean, tok, limit, now);
    var page := PageAt(t, mean(tok.query), tok, limit, now).value;
    page.rows + (if page.next.Some? then Chain(t, mean, page.next.value, limit, now) else [])
  }

  /** The pages of a chain concatenate to the rest of the sorted listing. */
  lemma {:induction false} ChainIsRest(t: Table, mean: Meaning, tok: Token, limit: nat, now: nat)
    requires UniqueIds(t) && Good(t, mean, tok) && limit > 0
    ensures var l := Listing(t, mean, tok.query);
            Chain(t, mean, tok, limit, now) == (if tok.position <= |l| then l[tok.position..] else [])
    decreases |Listing(t, mean, tok.query)| - tok.position
  {
    hide Listing, PageAt, Good, UniqueIds, Slice;
    var l := Listing(t, mean, tok.query);
    GoodPage(t, mean, tok, limit, now);
    SliceThenRest(l, tok.position, limit);
    var page := PageAt(t, mean(tok.query), tok, limit, now).value;
    if page.next.Some? { ChainIsRest(t, mean, page.next.value, limit, now); }
  }

  lemma {:induction false} SliceThenRest(l: seq<Item>, k: nat, limit: nat)
    ensures Slice(l, k, limit) + (if k + limit < |l| then l[k + limit..] else []) == if k <= |l| then l[k..] else []
  {
  }

  // ---- the cursor cache

  /** Every cached token is good and filed under its own query and position. */
  ghost predicate GoodCache(t: Table, mean: Meaning, entries: Cache) {
    forall k :: k in entries ==>
      && Good(t, mean, entries[k].token) && entries[k].token.query == k.0 && entries[k].token.position == k.1
      && entries[k].until == entries[k].token.expires * SECOND
  }

  /** A cached cursor that was found in time and is out of date when it is checked. */
  predicate RunsOut(entries: Cache, q: Query, start: nat, clock: Clock) {
    && start > 0 && (q, start) in entries && clock.lookup < entries[(q, start)].until
    && entries[(q, start)].token.expires < Unix(clock.check)
  }

  /** A start index gives the page that OFFSET gives, whether or not a cached cursor answers it. It never fails on
      a position; it fails on expiry if and only if the cached cursor runs out between the two readings of the
      clock, which takes a second or more. */
  lemma {:induction false} StartIndexIsOffset(t: Table, mean: Meaning, entries: Cache, q: Query, start: nat, limit: nat, clock: Clock)
    requires UniqueIds(t) && GoodPlan(q.plan) && GoodCache(t, mean, entries) && limit > 0
    ensures var tok := PageStart(entries, Request(Itoa(start), NoCursor), q, clock);
            && tok.Err? == RunsOut(entries, q, start, clock) && (tok.Err? ==> tok.error == Expired)
            && (tok.Err? ==> clock.check >= clock.lookup + SECOND)
            && (tok.Ok? ==>
                  && Good(t, mean, tok.value) && tok.value.query == q && tok.value.position == start
                  && PageAt(t, mean(q), tok.value, limit, clock.issue).Ok?
                  && PageAt(t, mean(q), tok.value, limit, clock.issue).value.rows == Slice(Listing(t, mean, q), start, limit))
            && PageAt(t, mean(q), Fresh(q, start, clock.check), limit, clock.issue).value.rows == Slice(Listing(t, mean, q), start, limit)
  {
    ItoaRoundTrip(start);
    ItoaNotEmpty(start);
    hide Itoa, Listing, PageAt, UniqueIds;
    assert Good(t, mean, Fresh(q, start, clock.check));
    GoodPage(t, mean, Fresh(q, start, clock.check), limit, clock.issue);
    var tok := PageStart(entries, Request(Itoa(start), NoCursor), q, clock);
    if start > 0 && (q, start) in entries && clock.lookup < entries[(q, start)].until {
      if clock.check < clock.lookup + SECOND { NotExpired(clock, entries[(q, start)].token.expires); }
    }
    if tok.Ok? { GoodPage(t, mean, tok.value, limit, clock.issue); }
  }

  lemma {:induction false} ItoaNotEmpty(n: int)
    ensures Itoa(n) != ""
  {
  }

  /** Less than a second after a reading before the end of second expires, that second has not passed. */
  lemma {:induction false} NotExpired(clock: Clock, expires: int)
    requires clock.lookup < expires * SECOND && clock.check < clock.lookup + SECOND
    ensures Unix(clock.check) <= expires
  {
  }

  /** A request keeps the cache good, when it comes with no cursor or with one that was issued for this catalog. */
  lemma {:induction false} RequestKeepsCache(t: Table, mean: Meaning, before: Cache, after: Cache, r: Request, q: Query, limit: nat, clock: Clock, page: Result<Page>)
    requires UniqueIds(t) && GoodPlan(q.plan) && GoodCache(t, mean, before) && limit > 0
    requires r.cursor.Signed? ==> Good(t, mean, r.cursor.token)
    requires var start := PageStart(before, r, q, clock);
             page == if start.Err? then Err(start.error) else PageAt(t, mean(q), start.value, limit, clock.issue)
    requires page.Err? || page.value.next.None? ==> after == before
    requires page.Ok? && page.value.next.Some? ==>
               forall k :: k in after ==>
                 || (k in before && after[k] == before[k])
                 || (k == (page.value.next.value.query, page.value.next.value.position)
                     && after[k] == Entry(page.value.next.value, page.value.next.value.expires * SECOND))
    ensures GoodCache(t, mean, after)
    ensures page.Ok? && page.value.next.Some? ==> Good(t, mean, page.value.next.value)
  {
    hide Listing, PageAt, UniqueIds;
    var start := PageStart(before, r, q, clock);
    if start.Ok? {
      assert Good(t, mean, start.value) && start.value.query == q;
      GoodPage(t, mean, start.value, limit, clock.issue);
    }
  }

  // ---- a catalog that changes between pages

  /** The catalogs and clocks a walk meets, one per page. */
  type Moments = seq<(Table, nat)>

  datatype Trip = Trip(rows: seq<Item>, finished: bool)

  function Walk(moments: Moments, keep: Where, tok: Token, limit: nat): Trip
    requires limit > 0
  {
    if moments == [] then Trip([], false)
    else
      match PageAt(moments[0].0, keep, tok, limit, moments[0].1)
      case Err(_) => Trip([], false)
      case Ok(page) =>
        if page.next.None? then Trip(page.rows, true)
        else
          var rest := Walk(moments[1..], keep, page.next.value, limit);
          Trip(page.rows + rest.rows, rest.finished)
  }

  /** A row's sort key never changes. */
  ghost predicate KeysFixed(p: Plan, moments: Moments) {
    forall i, j, x, y :: 0 <= i < |moments| && 0 <= j < |moments| && x in moments[i].0 && y in moments[j].0 && x.id == y.id
      ==> Key(p, x) == Key(p, y)
  }

  ghost predicate Tables(moments: Moments) {
    forall i :: 0 <= i < |moments| ==> UniqueIds(moments[i].0)
  }

  /** A token at the start of the listing, or after the row c. */
  ghost predicate At(tok: Token, c: Option<Item>) {
    && GoodPlan(tok.query.plan)
    && match c
       case None => tok.values == [] && tok.position == 0
       case Some(x) => tok.values == Texts(tok.query.plan, x)
  }

  predicate Beyond(p: Plan, c: Option<Item>, x: Item) { c.Some? ==> Before(p, c.value, x) }

  /** The rows of one catalog from the cursor on. */
  ghost function Remaining(p: Plan, t: Table, keep: Where, c: Option<Item>): seq<Item> {
    List(p, t, After(p, keep, match c case None => None case Some(x) => Some(Key(p, x))))
  }

  lemma {:induction false} RemainingFacts(p: Plan, t: Table, keep: Where, c: Option<Item>)
    requires GoodPlan(p) && UniqueIds(t)
    ensures Listed(p, Remaining(p, t, keep, c))
    ensures forall x :: x in Remaining(p, t, keep, c) <==> x in t && keep(x) && Beyond(p, c, x)
  {
    ListFacts(p, t, After(p, keep, match c case None => None case Some(x) => Some(Key(p, x))));
    hide List, UniqueIds, Key, KeyBefore;
  }

  lemma {:induction false} PageOfRemaining(t: Table, keep: Where, tok: Token, c: Option<Item>, limit: nat, now: nat)
    requires UniqueIds(t) && At(tok, c) && limit > 0
    ensures var s := Remaining(tok.query.plan, t, keep, c);
            var r := PageAt(t, keep, tok, limit, now);
            && r.Ok? && r.value.rows == Slice(s, 0, limit)
            && (r.value.next.Some? <==> |s| > limit)
            && (r.value.next.Some? ==> r.value.next.value.query == tok.query && At(r.value.next.value, Some(s[limit - 1])))
  {
    var p := tok.query.plan;
    var s := Remaining(p, t, keep, c);
    if c.Some? {
      ReadTexts(p, c.value);
      TextsLength(p, c.value);
    }
    SliceMore(s, 0, limit);
    hide Filter, Sort, UniqueIds, ReadValues, Key, After, Slice;
  }

  /** The rows of a walk come in listing order, each from some catalog it met and wanted by the query. */
  lemma {:induction false} WalkListed(moments: Moments, keep: Where, tok: Token, c: Option<Item>, limit: nat)
    requires Tables(moments) && At(tok, c) && limit > 0
    ensures var rows := Walk(moments, keep, tok, limit).rows;
            && Listed(tok.query.plan, rows)
            && forall x :: x in rows ==> Beyond(tok.query.plan, c, x) && keep(x) && exists i :: 0 <= i < |moments| && x in moments[i].0
  {
    hide PageAt, Remaining, Before, Key, Texts, GoodPlan, UniqueIds;
    if moments != [] {
      var p, t := tok.query.plan, moments[0].0;
      var s := Remaining(p, t, keep, c);
      RemainingFacts(p, t, keep, c);
      PageOfRemaining(t, keep, tok, c, limit, moments[0].1);
      var page := PageAt(t, keep, tok, limit, moments[0].1).value;
      assert forall x :: x in page.rows ==> x in s;
      if page.next.Some? {
        WalkListed(moments[1..], keep, page.next.value, Some(s[limit - 1]), limit);
        var rest := Walk(moments[1..], keep, page.next.value, limit).rows;
        JoinListed(p, c, page.rows, rest, s[limit - 1]);
        forall x | x in rest
          ensures exists i :: 0 <= i < |moments| && x in moments[i].0
        {
          var i :| 0 <= i < |moments[1..]| && x in moments[1..][i].0;
          assert x in moments[i + 1].0;
        }
      }
    }
  }

  lemma {:induction false} JoinListed(p: Plan, c: Option<Item>, a: seq<Item>, b: seq<Item>, last: Item)
    requires Listed(p, a) && Listed(p, b) && a != [] && a[|a| - 1] == last
    requires Beyond(p, c, last) && forall x :: x in b ==> Beyond(p, Some(last), x)
    ensures Listed(p, a + b)
    ensures forall x :: x in b ==> Beyond(p, c, x)
  {
    hide Before;
    forall i, j | 0 <= i < |a| && 0 <= j < |b|
      ensures Before(p, a[i], b[j])
    {
      assert b[j] in b;
      if i < |a| - 1 { BeforeTransitive(p, a[i], last, b[j]); }
    }
    forall x | x in b
      ensures Beyond(p, c, x)
    {
      if c.Some? { BeforeTransitive(p, c.value, last, x); }
    }
  }

  /** Rows may come, go and change between pages: while their keys stay, no id is listed twice. */
  lemma {:induction false} NoRowTwice(moments: Moments, keep: Where, tok: Token, limit: nat, i: nat, j: nat)
    requires Tables(moments) && At(tok, None) && limit > 0 && KeysFixed(tok.query.plan, moments)
    requires i < j < |Walk(moments, keep, tok, limit).rows|
    ensures Walk(moments, keep, tok, limit).rows[i].id != Walk(moments, keep, tok, limit).rows[j].id
  {
    WalkListed(moments, keep, tok, None, limit);
    hide Walk, KeysFixed, Before, Tables, GoodPlan;
    var rows := Walk(moments, keep, tok, limit).rows;
    assert rows[i] in rows && rows[j] in rows;
    DifferentIds(tok.query.plan, moments, rows[i], rows[j]);
  }

  /** Rows of a listing, from whatever catalogs, have different ids while keys stay. */
  lemma {:induction false} DifferentIds(p: Plan, moments: Moments, x: Item, y: Item)
    requires GoodPlan(p) && KeysFixed(p, moments) && Before(p, x, y)
    requires exists k :: 0 <= k < |moments| && x in moments[k].0
    requires exists l :: 0 <= l < |moments| && y in moments[l].0
    ensures x.id != y.id
  {
    hide KeysFixed, Before, GoodPlan;
    if x.id == y.id {
      var k :| 0 <= k < |moments| && x in moments[k].0;
      var l :| 0 <= l < |moments| && y in moments[l].0;
      FixedKey(p, moments, k, l, x, y);
      SelfBefore(p, x, y);
    }
  }

  lemma {:induction false} FixedKey(p: Plan, moments: Moments, k: nat, l: nat, x: Item, y: Item)
    requires KeysFixed(p, moments) && k < |moments| && l < |moments| && x in moments[k].0 && y in moments[l].0 && x.id == y.id
    ensures Key(p, x) == Key(p, y)
  {
    hide Key;
  }

  lemma {:induction false} SelfBefore(p: Plan, x: Item, y: Item)
    requires GoodPlan(p) && Key(p, x) == Key(p, y)
    ensures !Before(p, x, y)
  {
    RowTotal(Key(p, x), Key(p, x));
  }

  /** The row with this id is wanted in every catalog of the walk. */
  ghost predicate Throughout(moments: Moments, keep: Where, id: string) {
    forall i :: 0 <= i < |moments| ==> exists x :: x in moments[i].0 && x.id == id && keep(x)
  }

  lemma {:induction false} PresentIn(moments: Moments, keep: Where, id: string, k: nat) returns (x: Item)
    requires Throughout(moments, keep, id) && k < |moments|
    ensures x in moments[k].0 && x.id == id && keep(x)
  {
    var t := moments[k].0;
    x :| x in t && x.id == id && keep(x);
  }

  /** A row wanted throughout, and beyond the cursor at the start, is listed by a finished walk. */
  lemma {:induction false} NoRowMissed(moments: Moments, keep: Where, tok: Token, c: Option<Item>, limit: nat, x: Item)
    requires Tables(moments) && At(tok, c) && limit > 0 && KeysFixed(tok.query.plan, moments)
    requires moments != [] && Throughout(moments, keep, x.id) && x in moments[0].0 && keep(x) && Beyond(tok.query.plan, c, x)
    requires Walk(moments, keep, tok, limit).finished
    ensures exists y :: y in Walk(moments, keep, tok, limit).rows && y.id == x.id
  {
    hide PageAt, Remaining, Before, Key, UniqueIds, GoodPlan, Texts;
    var p, t := tok.query.plan, moments[0].0;
    var s := Remaining(p, t, keep, c);
    RemainingFacts(p, t, keep, c);
    PageOfRemaining(t, keep, tok, c, limit, moments[0].1);
    var page := PageAt(t, keep, tok, limit, moments[0].1).value;
    var i :| 0 <= i < |s| && s[i] == x;
    if i < limit {
      assert page.rows[i] == x;
    } else {
      assert Before(p, s[limit - 1], x);
      assert moments[1..] != [];
      var y := Successor(moments, keep, p, s[limit - 1], x);
      NoRowMissed(moments[1..], keep, page.next.value, Some(s[limit - 1]), limit, y);
    }
  }

  /** The same row in the next catalog, still beyond the cursor. */
  lemma {:induction false} Successor(moments: Moments, keep: Where, p: Plan, last: Item, x: Item) returns (y: Item)
    requires |moments| > 1 && KeysFixed(p, moments) && Tables(moments) && Throughout(moments, keep, x.id)
    requires x in moments[0].0 && Before(p, last, x)
    ensures y in moments[1].0 && y.id == x.id && keep(y) && Before(p, last, y)
    ensures KeysFixed(p, moments[1..]) && Tables(moments[1..]) && Throughout(moments[1..], keep, y.id)
  {
    hide Before, Key, UniqueIds;
    y := PresentIn(moments, keep, x.id, 1);
    FixedKey(p, moments, 0, 1, x, y);
    SameKeyBefore(p, last, x, y);
    var rest := moments[1..];
    assert forall k :: 0 <= k < |rest| ==> rest[k] == moments[k + 1];
  }

  lemma {:induction false} SameKeyBefore(p: Plan, a: Item, x: Item, y: Item)
    requires Before(p, a, x) && Key(p, x) == Key(p, y)
    ensures Before(p, a, y)
  {
  }

  /** A finished walk over a changing catalog lists every row present throughout exactly once. */
  lemma {:induction false} ExactlyOnce(moments: Moments, keep: Where, tok: Token, limit: nat, id: string)
    requires Tables(moments) && At(tok, None) && limit > 0 && KeysFixed(tok.query.plan, moments)
    requires moments != [] && Throughout(moments, keep, id) && Walk(moments, keep, tok, limit).finished
    ensures var rows := Walk(moments, keep, tok, limit).rows;
            exists i :: 0 <= i < |rows| && rows[i].id == id && forall j :: 0 <= j < |rows| && rows[j].id == id ==> j == i
  {
    hide Walk, KeysFixed, Tables;
    var rows := Walk(moments, keep, tok, limit).rows;
    var x := PresentIn(moments, keep, id, 0);
    hide Throughout;
    NoRowMissed(moments, keep, tok, None, limit, x);
    var y :| y in rows && y.id == id;
    var i :| 0 <= i < |rows| && rows[i] == y;
    forall j | 0 <= j < |rows| && rows[j].id == id
      ensures j == i
    {
      if j < i { NoRowTwice(moments, keep, tok, limit, j, i); }
      if i < j { NoRowTwice(moments, keep, tok, limit, i, j); }
    }
  }
}
