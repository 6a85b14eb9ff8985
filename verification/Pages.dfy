/** Sorted listings and the page a cursor or an offset selects from them. */
module Pages {
  import opened Basics
  import opened SortKeys

  /** The items table in no particular order, one row per id. */
  type Table = seq<Item>

  ghost predicate UniqueIds(t: Table) {
    forall i, j :: 0 <= i < j < |t| ==> t[i].id != t[j].id
  }

  type Where = Item -> bool

  function Filter(t: Table, keep: Where): Table {
    if t == [] then []
    else (if keep(t[0]) then [t[0]] else []) + Filter(t[1..], keep)
  }

  function Insert(p: Plan, x: Item, s: seq<Item>): seq<Item> {
    if s == [] || Before(p, x, s[0]) then [x] + s else [s[0]] + Insert(p, x, s[1..])
  }

  /** ORDER BY. */
  function Sort(p: Plan, t: Table): seq<Item> {
    if t == [] then [] else Insert(p, t[0], Sort(p, t[1..]))
  }

  /** Strictly in listing order. */
  ghost predicate Listed(p: Plan, s: seq<Item>) {
    forall i, j :: 0 <= i < j < |s| ==> Before(p, s[i], s[j])
  }

  lemma {:induction false} FilterIn(t: Table, keep: Where, x: Item)
    ensures x in Filter(t, keep) <==> x in t && keep(x)
  {
    if t != [] {
      FilterIn(t[1..], keep, x);
      assert t == [t[0]] + t[1..];
    }
  }

  lemma {:induction false} FilterUnique(t: Table, keep: Where)
    requires UniqueIds(t)
    ensures UniqueIds(Filter(t, keep))
  {
    if t != [] {
      var rest := Filter(t[1..], keep);
      FilterUnique(t[1..], keep);
      forall j | 0 <= j < |rest|
        ensures rest[j].id != t[0].id
      {
        FilterIn(t[1..], keep, rest[j]);
      }
    }
  }

  lemma {:induction false} InsertIn(p: Plan, x: Item, s: seq<Item>, y: Item)
    ensures y in Insert(p, x, s) <==> y == x || y in s
    ensures |Insert(p, x, s)| == |s| + 1
  {
    if s != [] && !Before(p, x, s[0]) {
      InsertIn(p, x, s[1..], y);
      assert s == [s[0]] + s[1..];
    }
  }

  lemma {:induction false} InsertListed(p: Plan, x: Item, s: seq<Item>)
    requires GoodPlan(p) && Listed(p, s) && forall i :: 0 <= i < |s| ==> s[i].id != x.id
    ensures Listed(p, Insert(p, x, s))
  {
    hide Before;
    if s != [] {
      BeforeTotal(p, x, s[0]);
      if Before(p, x, s[0]) {
        forall j | 0 <= j < |s|
          ensures Before(p, x, s[j])
        {
          if j > 0 { BeforeTransitive(p, x, s[0], s[j]); }
        }
      } else {
        InsertListed(p, x, s[1..]);
        var r := Insert(p, x, s[1..]);
        forall j | 0 <= j < |r|
          ensures Before(p, s[0], r[j])
        {
          InsertIn(p, x, s[1..], r[j]);
          if r[j] != x { var k :| 0 <= k < |s[1..]| && s[1..][k] == r[j]; }
        }
      }
    }
  }

  lemma {:induction false} SortIn(p: Plan, t: Table, x: Item)
    ensures x in Sort(p, t) <==> x in t
    ensures |Sort(p, t)| == |t|
  {
    if t != [] {
      SortIn(p, t[1..], x);
      InsertIn(p, t[0], Sort(p, t[1..]), x);
      assert t == [t[0]] + t[1..];
    }
  }

  lemma {:induction false} SortListed(p: Plan, t: Table)
    requires GoodPlan(p) && UniqueIds(t)
    ensures Listed(p, Sort(p, t))
  {
    if t != [] {
      SortListed(p, t[1..]);
      var s := Sort(p, t[1..]);
      forall i | 0 <= i < |s|
        ensures s[i].id != t[0].id
      {
        SortIn(p, t[1..], s[i]);
      }
      InsertListed(p, t[0], s);
    }
  }

  /** Two listings of the same rows are the same sequence. */
  lemma {:induction false} ListedUnique(p: Plan, a: seq<Item>, b: seq<Item>)
    requires GoodPlan(p) && Listed(p, a) && Listed(p, b) && forall x :: x in a <==> x in b
    ensures a == b
  {
    hide Before;
    assert (a != [] ==> a[0] in a) && (b != [] ==> b[0] in b);
    if a != [] {
      var i :| 0 <= i < |b| && b[i] == a[0];
      var j :| 0 <= j < |a| && a[j] == b[0];
      BeforeTotal(p, a[0], b[0]);
      assert a[0] == b[0];
      forall x
        ensures x in a[1..] <==> x in b[1..]
      {
        TailIn(p, a, x);
        TailIn(p, b, x);
      }
      ListedUnique(p, a[1..], b[1..]);
      assert a == [a[0]] + a[1..] && b == [b[0]] + b[1..];
    }
  }

  lemma {:induction false} TailIn(p: Plan, a: seq<Item>, x: Item)
    requires GoodPlan(p) && Listed(p, a) && a != []
    ensures x in a[1..] <==> x in a && x != a[0]
  {
    hide Before;
    assert a == [a[0]] + a[1..];
    BeforeTotal(p, a[0], a[0]);
    if x in a[1..] {
      var i :| 0 <= i < |a[1..]| && a[1..][i] == x;
      assert Before(p, a[0], a[i + 1]);
    }
  }

  // ---- what a page query returns

  function Min(a: int, b: int): int { if a < b then a else b }

  /** The cursor condition, or none. */
  function After(p: Plan, keep: Where, values: Option<seq<Val>>): Where {
    x => keep(x) && (values.Some? && |values.value| == |p.cols| ==> KeyBefore(p, values.value, Key(p, x)))
  }

  /** LIMIT n OFFSET k. */
  function Slice(l: seq<Item>, k: nat, n: nat): seq<Item> {
    if k >= |l| then [] else l[k..Min(k + n, |l|)]
  }

  /** SELECT ... WHERE ... ORDER BY ... LIMIT n OFFSET k. */
  function Select(p: Plan, t: Table, keep: Where, values: Option<seq<Val>>, offset: nat, n: nat): seq<Item> {
    Slice(Sort(p, Filter(t, After(p, keep, values))), offset, n)
  }

  function List(p: Plan, t: Table, keep: Where): seq<Item> {
    Sort(p, Filter(t, keep))
  }

  lemma {:induction false} ListFacts(p: Plan, t: Table, keep: Where)
    requires GoodPlan(p) && UniqueIds(t)
    ensures Listed(p, List(p, t, keep))
    ensures forall x :: x in List(p, t, keep) <==> x in t && keep(x)
    ensures |List(p, t, keep)| == |Filter(t, keep)|
  {
    FilterUnique(t, keep);
    SortListed(p, Filter(t, keep));
    forall x
      ensures x in List(p, t, keep) <==> x in t && keep(x)
      ensures |List(p, t, keep)| == |Filter(t, keep)|
    {
      FilterIn(t, keep, x);
      SortIn(p, Filter(t, keep), x);
    }
  }

  /** On a fixed table the rows after the k-th row's key are the rest of the listing. */
  lemma {:induction false} CursorIsSuffix(p: Plan, t: Table, keep: Where, k: nat)
    requires GoodPlan(p) && UniqueIds(t) && 0 < k <= |List(p, t, keep)|
    ensures List(p, t, After(p, keep, Some(Key(p, List(p, t, keep)[k - 1])))) == List(p, t, keep)[k..]
  {
    var l := List(p, t, keep);
    var after := After(p, keep, Some(Key(p, l[k - 1])));
    ListFacts(p, t, keep);
    ListFacts(p, t, after);
    hide List, KeyBefore, Key;
    forall x
      ensures x in List(p, t, after) <==> x in l[k..]
    {
      SuffixIn(p, l, k, x);
    }
    ListedUnique(p, List(p, t, after), l[k..]);
  }

  lemma {:induction false} SuffixIn(p: Plan, l: seq<Item>, k: nat, x: Item)
    requires GoodPlan(p) && Listed(p, l) && 0 < k <= |l|
    ensures x in l[k..] <==> x in l && Before(p, l[k - 1], x)
  {
    hide Before;
    if x in l[k..] {
      var i :| 0 <= i < |l[k..]| && l[k..][i] == x;
      assert l[k + i] == x;
    }
    if x in l && Before(p, l[k - 1], x) {
      var i :| 0 <= i < |l| && l[i] == x;
      BeforeTotal(p, l[k - 1], x);
      assert i > k - 1;
      assert l[k..][i - k] == x;
    }
  }
}
