/** What a client's own requests get: cursors that are honoured or refused, and listings read by following them. */
module PageRequests {
  import opened Basics
  import opened SortKeys
  import opened Pages
  import opened PageServer
  import opened PageTheorems

  // ---- one request

  /** The start index a request states: none counts as 0. */
  predicate States(r: Request, start: nat) { r.start == Itoa(start) || (r.start == "" && start == 0) }

  lemma {:induction false} StartStated(r: Request, start: nat)
    requires States(r, start)
    ensures StartOf(r) == Some(start)
  {
    ItoaRoundTrip(start);
    ItoaNotEmpty(start);
  }

  /** A cursor of this query that has not expired is taken up where it stands, at its own position or without one;
      whatever the cache holds. Otherwise it is refused, each case with its own error. */
  lemma {:induction false} CursorHonoured(entries: Cache, r: Request, q: Query, start: nat, clock: Clock)
    requires States(r, start) && !r.cursor.NoCursor?
    ensures var answer := PageStart(entries, r, q, clock);
            && (r.cursor.Forged? ==> answer == Err(InvalidCursor))
            && (r.cursor.Signed? ==>
                  var t := r.cursor.token;
                  && (t.query == q && Unix(clock.check) <= t.expires && (start == 0 || start == t.position) ==> answer == Ok(t))
                  && (t.query != q || t.expires < Unix(clock.check) ==> answer == Err(Expired))
                  && (t.query == q && Unix(clock.check) <= t.expires && start != 0 && start != t.position ==> answer == Err(PositionMismatch)))
  {
    StartStated(r, start);
  }

  /** A start index that is not a number from 0 up is refused, with or without a cursor. */
  lemma {:induction false} BadStartRefused(entries: Cache, r: Request, q: Query, clock: Clock)
    requires r.start != "" && (Atoi(r.start).None? || Atoi(r.start).value < 0)
    ensures PageStart(entries, r, q, clock) == Err(InvalidStart)
  {
  }

  /** Tokens count in seconds, the clock in nanoseconds. */
  lemma {:induction false} SecondsOf(seconds: nat, rest: nat)
    requires rest < 1_000_000_000
    ensures Unix(seconds * 1_000_000_000 + rest) == seconds
  {
  }

  /** A request without start and cursor begins at the front, and its token lasts a quarter of an hour. */
  lemma {:induction false} PlainRequest(entries: Cache, q: Query, clock: Clock)
    ensures var answer := PageStart(entries, Request("", NoCursor), q, clock);
            answer == Ok(Token(q, [], 0, Unix(clock.check) + 900, -1))
  {
  }

  /** A total that the query wants is counted once, with the first page, and travels with the tokens; one that it
      does not want is never counted. */
  lemma {:induction false} TotalCounted(t: Table, mean: Meaning, tok: Token, limit: nat, now: nat)
    requires UniqueIds(t) && Good(t, mean, tok) && limit > 0
    ensures var page := PageAt(t, mean(tok.query), tok, limit, now).value;
            && page.token.count == (if tok.count >= 0 then tok.count else if tok.query.total then |Listing(t, mean, tok.query)| else -1)
            && (page.next.Some? ==> page.next.value.count == page.token.count && page.next.value.expires == Unix(now) + 900)
  {
    GoodPage(t, mean, tok, limit, now);
    ListFacts(tok.query.plan, t, mean(tok.query));
    hide List, Fetch, UniqueIds;
  }

  // ---- following cursors

  /** What a request meets: the catalog, the cache and the clock. */
  datatype Meeting = Meeting(table: Table, cache: Cache, clock: Clock)

  /** The client sends each page's cursor back for the next page. */
  function Follow(meetings: seq<Meeting>, keep: Where, q: Query, r: Request, limit: nat): Trip
    requires limit > 0
    decreases |meetings|
  {
    if meetings == [] then Trip([], false)
    else
      match PageStart(meetings[0].cache, r, q, meetings[0].clock)
      case Err(_) => Trip([], false)
      case Ok(tok) =>
        match PageAt(meetings[0].table, keep, tok, limit, meetings[0].clock.issue)
        case Err(_) => Trip([], false)
        case Ok(page) =>
          if page.next.None? then Trip(page.rows, true)
          else
            var rest := Follow(meetings[1..], keep, q, Request("", Signed(page.next.value)), limit);
            Trip(page.rows + rest.rows, rest.finished)
  }

  /** Each request comes within a quarter of an hour of the page before it. */
  predicate Punctual(meetings: seq<Meeting>, expires: int)
    decreases |meetings|
  {
    meetings == []
    || (Unix(meetings[0].clock.check) <= expires && Punctual(meetings[1..], Unix(meetings[0].clock.issue) + 900))
  }

  function Moment(m: Meeting): (Table, nat) { (m.table, m.clock.issue) }

  function MomentsOf(meetings: seq<Meeting>): Moments {
    seq(|meetings|, i requires 0 <= i < |meetings| => Moment(meetings[i]))
  }

  lemma {:induction false} MomentsTail(meetings: seq<Meeting>)
    ensures |MomentsOf(meetings)| == |meetings|
    ensures meetings != [] ==> MomentsOf(meetings)[0] == Moment(meetings[0]) && MomentsOf(meetings)[1..] == MomentsOf(meetings[1..])
  {
  }

  lemma {:induction false} NextLasts(t: Table, keep: Where, tok: Token, limit: nat, now: nat)
    requires limit > 0 && PageAt(t, keep, tok, limit, now).Ok? && PageAt(t, keep, tok, limit, now).value.next.Some?
    ensures var n := PageAt(t, keep, tok, limit, now).value.next.value; n.query == tok.query && n.expires == Unix(now) + 900
  {
    hide Fetch;
  }

  /** Once a request has been given its token, punctual requests with the cursors that follow make exactly the walk
      from token to token. */
  lemma {:induction false} FollowFrom(meetings: seq<Meeting>, keep: Where, q: Query, r: Request, tok: Token, limit: nat)
    requires limit > 0 && tok.query == q
    requires meetings != [] ==>
               && PageStart(meetings[0].cache, r, q, meetings[0].clock) == Ok(tok)
               && Punctual(meetings[1..], Unix(meetings[0].clock.issue) + 900)
    ensures Follow(meetings, keep, q, r, limit) == Walk(MomentsOf(meetings), keep, tok, limit)
    decreases |meetings|
  {
    MomentsTail(meetings);
    if meetings != [] {
      var m, rest := meetings[0], meetings[1..];
      hide PageAt, MomentsOf;
      var page := PageAt(m.table, keep, tok, limit, m.clock.issue);
      if page.Ok? && page.value.next.Some? {
        var next := page.value.next.value;
        NextLasts(m.table, keep, tok, limit, m.clock.issue);
        if rest != [] { CursorHonoured(rest[0].cache, Request("", Signed(next)), q, 0, rest[0].clock); }
        hide PageStart;
        FollowFrom(rest, keep, q, Request("", Signed(next)), next, limit);
      }
    }
  }

  /** The token that a first request without start and cursor works with. */
  function FirstToken(q: Query, m: Meeting): Token { Token(q, [], 0, Unix(m.clock.check) + 900, -1) }

  lemma {:induction false} FirstIsWalk(meetings: seq<Meeting>, keep: Where, q: Query, limit: nat)
    requires limit > 0 && meetings != [] && Punctual(meetings, Unix(meetings[0].clock.check))
    ensures Follow(meetings, keep, q, Request("", NoCursor), limit) == Walk(MomentsOf(meetings), keep, FirstToken(q, meetings[0]), limit)
  {
    PlainRequest(meetings[0].cache, q, meetings[0].clock);
    hide PageStart, Follow, Walk, MomentsOf;
    FollowFrom(meetings, keep, q, Request("", NoCursor), FirstToken(q, meetings[0]), limit);
  }

  /** A client that follows the cursors of a changing catalog to the end sees every row that is there throughout,
      and no row twice. */
  lemma {:induction false} FollowedExactlyOnce(meetings: seq<Meeting>, keep: Where, q: Query, limit: nat, id: string)
    requires limit > 0 && meetings != [] && Punctual(meetings, Unix(meetings[0].clock.check)) && GoodPlan(q.plan)
    requires var ms := MomentsOf(meetings); Tables(ms) && KeysFixed(q.plan, ms) && Throughout(ms, keep, id)
    requires Follow(meetings, keep, q, Request("", NoCursor), limit).finished
    ensures var rows := Follow(meetings, keep, q, Request("", NoCursor), limit).rows;
            exists i :: 0 <= i < |rows| && rows[i].id == id && forall j :: 0 <= j < |rows| && rows[j].id == id ==> j == i
  {
    FirstIsWalk(meetings, keep, q, limit);
    hide Follow, Walk, KeysFixed, Throughout, Tables, GoodPlan;
    var tok := FirstToken(q, meetings[0]);
    assert At(tok, None);
    ExactlyOnce(MomentsOf(meetings), keep, tok, limit, id);
  }

  /** On a fixed catalog enough walks from token to token give the rest of the listing. */
  lemma {:induction false} FixedWalk(t: Table, mean: Meaning, moments: Moments, tok: Token, limit: nat)
    requires UniqueIds(t) && Good(t, mean, tok) && limit > 0 && tok.position <= |Listing(t, mean, tok.query)|
    requires (forall i :: 0 <= i < |moments| ==> moments[i].0 == t) && |moments| * limit > |Listing(t, mean, tok.query)| - tok.position
    ensures Walk(moments, mean(tok.query), tok, limit) == Trip(Listing(t, mean, tok.query)[tok.position..], true)
    decreases |moments|
  {
    hide Listing, PageAt, Good, UniqueIds, Slice;
    var l := Listing(t, mean, tok.query);
    if moments != [] {
      GoodPage(t, mean, tok, limit, moments[0].1);
      SliceThenRest(l, tok.position, limit);
      var page := PageAt(t, mean(tok.query), tok, limit, moments[0].1).value;
      if page.next.Some? {
        assert |moments[1..]| * limit == |moments| * limit - limit;
        FixedWalk(t, mean, moments[1..], page.next.value, limit);
      }
    }
  }

  /** On a fixed catalog a client that follows the cursors, often enough, gets the whole sorted listing. */
  lemma {:induction false} FollowedListing(t: Table, mean: Meaning, meetings: seq<Meeting>, q: Query, limit: nat)
    requires UniqueIds(t) && GoodPlan(q.plan) && limit > 0 && meetings != [] && Punctual(meetings, Unix(meetings[0].clock.check))
    requires (forall i :: 0 <= i < |meetings| ==> meetings[i].table == t) && |meetings| * limit > |Listing(t, mean, q)|
    ensures Follow(meetings, mean(q), q, Request("", NoCursor), limit) == Trip(Listing(t, mean, q), true)
  {
    FirstIsWalk(meetings, mean(q), q, limit);
    var tok := FirstToken(q, meetings[0]);
    hide Follow, Walk, Listing, UniqueIds, GoodPlan;
    assert Good(t, mean, tok);
    FixedWalk(t, mean, MomentsOf(meetings), tok, limit);
  }
}
