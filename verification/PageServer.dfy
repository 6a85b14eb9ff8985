/** Cursor tokens, the bounded cache that turns start indexes into cursors, and pageItems. */
module PageServer {
  import opened Basics
  import opened SortKeys
  import opened Pages

  /** What the page signature covers. Digests are taken as injective, so a signature is the query itself. */
  datatype Query = Query(where: string, plan: Plan, args: seq<string>, viewer: string, limit: nat, total: bool)

  /** expires is in seconds; count is -1 until the total is known. */
  datatype Token = Token(query: Query, values: seq<string>, position: nat, expires: int, count: int)

  /** A cursor parameter: none, one the server signed, or one whose signature does not match. */
  datatype Cursor = NoCursor | Signed(token: Token) | Forged

  datatype Request = Request(start: string, cursor: Cursor)

  datatype Error = InvalidStart | InvalidCursor | Expired | PositionMismatch | InvalidKeys | QueryFailed

  datatype Result<T> = Ok(value: T) | Err(error: Error)

  datatype Entry = Entry(token: Token, until: int)

  type Cache = map<(Query, nat), Entry>

  const CAPACITY := 2048
  const LIFETIME := 900
  const SECOND := 1_000_000_000

  /** Seconds of a clock reading in nanoseconds. */
  function Unix(now: nat): nat { now / SECOND }

  function DecodePage(cursor: Cursor, q: Query, now: nat): Result<Token>
    requires !cursor.NoCursor?
  {
    if cursor.Forged? then Err(InvalidCursor)
    else if cursor.token.query != q || cursor.token.expires < Unix(now) then Err(Expired)
    else Ok(cursor.token)
  }

  function StartOf(r: Request): Option<nat> {
    if r.start == "" then Some(0)
    else match Atoi(r.start) case Some(n) => if n < 0 then None else Some(n) case None => None
  }

  function Fresh(q: Query, position: nat, now: nat): Token {
    Token(q, [], position, Unix(now) + LIFETIME, -1)
  }

  /** The cached cursor for a start index, while it lasts. */
  function Cached(entries: Cache, q: Query, start: nat, now: nat): Cursor {
    if (q, start) in entries && now < entries[(q, start)].until then Signed(entries[(q, start)].token) else NoCursor
  }

  /** The readings of the clock that one request makes, in nanoseconds and in this order: to look into the cache,
      to check a cursor or date a fresh token, and to date the next one. */
  datatype Clock = Clock(lookup: nat, check: nat, issue: nat)

  function PageStart(entries: Cache, r: Request, q: Query, clock: Clock): Result<Token> {
    match StartOf(r)
    case None => Err(InvalidStart)
    case Some(start) =>
      var cursor := if r.cursor.NoCursor? && start > 0 then Cached(entries, q, start, clock.lookup) else r.cursor;
      if cursor.NoCursor? then Ok(Fresh(q, start, clock.check))
      else
        match DecodePage(cursor, q, clock.check)
        case Err(e) => Err(e)
        case Ok(t) => if start != 0 && start != t.position then Err(PositionMismatch) else Ok(t)
  }

  /** The cursor values as the database reads them. */
  function ReadValues(p: Plan, values: seq<string>): Option<seq<Val>>
    requires |values| == |p.cols|
    ensures ReadValues(p, values).Some? ==> |ReadValues(p, values).value| == |values|
  {
    if forall i :: 0 <= i < |values| ==> ReadText(p.cols[i], values[i]).Some?
    then Some(seq(|values|, i requires 0 <= i < |values| => ReadText(p.cols[i], values[i]).value))
    else None
  }

  lemma {:induction false} ReadTexts(p: Plan, x: Item)
    ensures ReadValues(p, Texts(p, x)) == Some(Key(p, x))
  {
    hide SortText, ReadText, ValueOf;
    forall i | 0 <= i < |p.cols|
      ensures ReadText(p.cols[i], Texts(p, x)[i]) == Some(Key(p, x)[i])
    {
      SortTextRoundTrip(x, p.cols[i]);
    }
    assert ReadValues(p, Texts(p, x)).Some?;
    assert ReadValues(p, Texts(p, x)).value == Key(p, x);
  }

  /** Up to limit + 1 rows from a token's place on. */
  function Fetch(t: Table, keep: Where, tok: Token, limit: nat): Result<seq<Item>> {
    var p := tok.query.plan;
    if tok.values == [] then Ok(Select(p, t, keep, None, tok.position, limit + 1))
    else if |tok.values| != |p.cols| then Err(InvalidKeys)
    else
      match ReadValues(p, tok.values)
      case None => Err(QueryFailed)
      case Some(v) => Ok(Select(p, t, keep, Some(v), 0, limit + 1))
  }

  function Counted(t: Table, keep: Where, tok: Token): Token {
    if tok.count < 0 && tok.query.total then tok.(count := |Filter(t, keep)|) else tok
  }

  function NextToken(tok: Token, loaded: seq<Item>, now: nat): Token
    requires loaded != []
  {
    tok.(expires := Unix(now) + LIFETIME, position := tok.position + |loaded|,
         values := Texts(tok.query.plan, loaded[|loaded| - 1]))
  }

  datatype Page = Page(rows: seq<Item>, token: Token, next: Option<Token>)

  /** The page a token selects. */
  function PageAt(t: Table, keep: Where, tok: Token, limit: nat, now: nat): Result<Page>
    requires limit > 0
  {
    var c := Counted(t, keep, tok);
    match Fetch(t, keep, c, limit)
    case Err(e) => Err(e)
    case Ok(rows) =>
      if |rows| > limit then Ok(Page(rows[..limit], c, Some(NextToken(c, rows[..limit], now)))) else Ok(Page(rows, c, None))
  }

  function Live(entries: Cache, now: nat): Cache {
    map k | k in entries && entries[k].until >= now :: entries[k]
  }

  method DropExpired(entries: Cache, now: nat) returns (kept: Cache)
    ensures kept == Live(entries, now)
  {
    kept := entries;
    var todo := entries.Keys;
    while todo != {}
      invariant todo <= entries.Keys
      invariant kept == map k | k in entries && (k in todo || entries[k].until >= now) :: entries[k]
      decreases todo
    {
      var k :| k in todo;
      if kept[k].until < now { kept := kept - {k}; }
      todo := todo - {k};
    }
  }

  /** Drops every expired entry, and one more of any kind if that makes no room. */
  method Evict(entries: Cache, now: nat) returns (kept: Cache)
    requires |entries| >= CAPACITY
    ensures |kept| < |entries|
    ensures kept == Live(entries, now) || exists v :: v in Live(entries, now) && kept == Live(entries, now) - {v}
  {
    kept := DropExpired(entries, now);
    if |kept| >= CAPACITY {
      SubsetSize(kept.Keys, entries.Keys);
      assert kept.Keys != {};
      var v :| v in kept.Keys;
      var left := kept - {v};
      assert left.Keys == kept.Keys - {v};
      kept := left;
    }
  }

  /** Of the entries whose time has not passed only the one at v may be missing. */
  ghost predicate KeepsOthers(entries: Cache, kept: Cache, now: nat, v: (Query, nat)) {
    forall k :: k in entries && now <= entries[k].until && k != v ==> k in kept
  }

  lemma {:induction false} EvictKeeps(entries: Cache, kept: Cache, now: nat)
    requires kept == Live(entries, now) || exists v :: v in Live(entries, now) && kept == Live(entries, now) - {v}
    ensures exists v :: KeepsOthers(entries, kept, now, v)
  {
    if kept == Live(entries, now) {
      var any: (Query, nat) :| true;
      assert KeepsOthers(entries, kept, now, any);
    } else {
      var v :| v in Live(entries, now) && kept == Live(entries, now) - {v};
      assert KeepsOthers(entries, kept, now, v);
    }
  }

  class Server {
    var entries: Cache

    constructor ()
      ensures entries == map[]
    {
      entries := map[];
    }

    /** Stores a token under its query and position, making room first when the cache is full. */
    method SavePage(tok: Token, now: nat)
      modifies this
      ensures (tok.query, tok.position) in entries
      ensures entries[(tok.query, tok.position)] == Entry(tok, tok.expires * SECOND)
      ensures forall k :: k in entries && k != (tok.query, tok.position) ==> k in old(entries) && entries[k] == old(entries)[k]
      ensures |old(entries)| <= 2048 ==> |entries| <= 2048
      ensures |old(entries)| < 2048 ==> forall k :: k in old(entries) ==> k in entries
      // a full cache loses the entries whose time has passed, and of the others at most one
      ensures exists v :: KeepsOthers(old(entries), entries, now, v)
      ensures |old(entries)| >= 2048 ==> forall k :: k in entries && k != (tok.query, tok.position) ==> now <= entries[k].until
    {
      var k := (tok.query, tok.position);
      var kept := entries;
      if |entries| >= CAPACITY { kept := Evict(entries, now); }
      assert exists v :: KeepsOthers(entries, kept, now, v) by {
        if |entries| < CAPACITY { assert KeepsOthers(entries, kept, now, k); } else { EvictKeeps(entries, kept, now); }
      }
      entries := kept[k := Entry(tok, tok.expires * SECOND)];
      assert entries.Keys == kept.Keys + {k};
      ghost var v :| KeepsOthers(old(entries), kept, now, v);
      assert KeepsOthers(old(entries), entries, now, v);
    }

    method PageItems(r: Request, q: Query, t: Table, keep: Where, limit: nat, clock: Clock) returns (page: Result<Page>)
      requires limit > 0
      modifies this
      ensures var start := PageStart(old(entries), r, q, clock);
              page == if start.Err? then Err(start.error) else PageAt(t, keep, start.value, limit, clock.issue)
      ensures page.Err? || page.value.next.None? ==> entries == old(entries)
      ensures page.Ok? && page.value.next.Some? ==>
                forall k :: k in entries ==>
                  || (k in old(entries) && entries[k] == old(entries)[k])
                  || (k == (page.value.next.value.query, page.value.next.value.position)
                      && entries[k] == Entry(page.value.next.value, page.value.next.value.expires * SECOND))
      ensures |old(entries)| <= 2048 ==> |entries| <= 2048
    {
      hide KeepsOthers, PageStart, Unix, Counted, Fetch, SortText;
      var start := PageStart(entries, r, q, clock);
      if start.Err? { return Err(start.error); }
      var p := Counted(t, keep, start.value);
      var rows := Fetch(t, keep, p, limit);
      if rows.Err? { return Err(rows.error); }
      var loaded := rows.value;
      var more := |loaded| > limit;
      if !more { return Ok(Page(loaded, p, None)); }
      loaded := loaded[..limit];
      var last := loaded[|loaded| - 1];
      var values: seq<string> := [];
      var cols := p.query.plan.cols;
      for i := 0 to |cols|
        invariant values == Texts(p.query.plan, last)[..i]
      {
        values := values + [SortText(last, cols[i])];
      }
      assert values == Texts(p.query.plan, last);
      var n := p.(expires := Unix(clock.issue) + LIFETIME, position := p.position + |loaded|, values := values);
      SavePage(n, clock.issue);
      return Ok(Page(loaded, p, Some(n)));
    }
  }
}
