/** What the sort keys of a request mean for the items listed. */
module OrderMeaning {
  import opened Basics
  import opened SortKeys

  /** a and b agree up to i, where a ends or has the smaller byte. */
  predicate SmallerAt(a: string, b: string, i: nat) {
    i <= |a| && i < |b| && a[..i] == b[..i] && (i == |a| || a[i] < b[i])
  }

  /** Texts are ordered byte by byte, a start before what continues it. */
  lemma {:induction false} TextLessMeaning(a: string, b: string)
    ensures TextLess(a, b) <==> exists i: nat :: SmallerAt(a, b, i)
  {
    if a != [] && b != [] && a[0] == b[0] {
      TextLessMeaning(a[1..], b[1..]);
      forall i: nat | SmallerAt(a[1..], b[1..], i)
        ensures SmallerAt(a, b, i + 1)
      {
        assert a[..i + 1] == [a[0]] + a[1..][..i] && b[..i + 1] == [b[0]] + b[1..][..i];
      }
      forall i: nat | SmallerAt(a, b, i)
        ensures i > 0 && SmallerAt(a[1..], b[1..], i - 1)
      {
        if i > 0 { assert a[1..][..i - 1] == a[..i][1..] && b[1..][..i - 1] == b[..i][1..]; }
      }
    } else {
      assert forall i :: 0 < i <= |a| ==> a[..i][0] == a[0];
      assert forall i :: 0 < i <= |b| ==> b[..i][0] == b[0];
      if b != [] && (a == [] || a[0] < b[0]) { assert SmallerAt(a, b, 0); }
    }
  }

  /** Rows are compared by the first column in which they differ. */
  predicate FirstDifference(a: seq<Val>, b: seq<Val>, i: nat) {
    i < |a| == |b| && a[..i] == b[..i] && ValLess(a[i], b[i])
  }

  lemma {:induction false} RowLessMeaning(a: seq<Val>, b: seq<Val>)
    requires |a| == |b|
    ensures RowLess(a, b) <==> exists i: nat :: FirstDifference(a, b, i)
  {
    hide ValLess;
    if a != [] {
      RowLessMeaning(a[1..], b[1..]);
      if ValLess(a[0], b[0]) { assert FirstDifference(a, b, 0); }
      forall i: nat | a[0] == b[0] && FirstDifference(a[1..], b[1..], i)
        ensures FirstDifference(a, b, i + 1)
      {
        assert a[..i + 1] == [a[0]] + a[1..][..i] && b[..i + 1] == [b[0]] + b[1..][..i];
      }
      forall i: nat | FirstDifference(a, b, i) && i > 0
        ensures a[0] == b[0] && FirstDifference(a[1..], b[1..], i - 1)
      {
        assert a[..i][0] == b[..i][0];
        assert a[1..][..i - 1] == a[..i][1..] && b[1..][..i - 1] == b[..i][1..];
      }
    }
  }

  // ---- the keys of a request

  /** The plan of a listing sorted by one key. */
  function OneKey(key: string, descending: bool): Plan { PlanOf(Wanted([key], descending) + [Part(Id, descending)]) }

  /** In the wanted direction by a number, and among equals by id. */
  predicate ByNumber(descending: bool, m: int, n: int, x: Item, y: Item) {
    if descending then m > n || (m == n && TextLess(y.id, x.id)) else m < n || (m == n && TextLess(x.id, y.id))
  }

  predicate ByText(descending: bool, s: string, t: string, x: Item, y: Item) {
    if descending then TextLess(t, s) || (s == t && TextLess(y.id, x.id)) else TextLess(s, t) || (s == t && TextLess(x.id, y.id))
  }

  lemma {:induction false} WantedOne(key: string, descending: bool)
    ensures Wanted([key], descending) == if SortColumn(key).Some? then [Part(SortColumn(key).value, descending)] else []
  {
    hide SortColumn;
    assert [key][..0] == [];
  }

  lemma {:induction false} TwoColumns(c: Column, descending: bool, x: Item, y: Item)
    ensures var p := PlanOf([Part(c, descending), Part(Id, descending)]);
            && p == Plan([c, Id], descending)
            && Key(p, x) == [ValueOf(x, c), Txt(x.id)] && Key(p, y) == [ValueOf(y, c), Txt(y.id)]
  {
    var parts := [Part(c, descending), Part(Id, descending)];
    assert parts[0].desc == descending;
  }

  lemma {:induction false} TwoValues(a: Val, b: Val, c: string, d: string)
    ensures RowLess([a, Txt(c)], [b, Txt(d)]) <==> ValLess(a, b) || (a == b && TextLess(c, d))
  {
    assert [a, Txt(c)][1..] == [Txt(c)] && [b, Txt(d)][1..] == [Txt(d)];
    assert [Txt(c)][1..] == [] && [Txt(d)][1..] == [];
    hide TextLess;
    assert !RowLess([], []);
  }

  lemma {:induction false} ByColumn(key: string, c: Column, descending: bool, x: Item, y: Item)
    requires SortColumn(key) == Some(c)
    ensures var a, b := ValueOf(x, c), ValueOf(y, c);
            Before(OneKey(key, descending), x, y) <==>
              if descending then ValLess(b, a) || (a == b && TextLess(y.id, x.id)) else ValLess(a, b) || (a == b && TextLess(x.id, y.id))
  {
    WantedOne(key, descending);
    TwoColumns(c, descending, x, y);
    TwoValues(ValueOf(x, c), ValueOf(y, c), x.id, y.id);
    TwoValues(ValueOf(y, c), ValueOf(x, c), y.id, x.id);
    hide Wanted, SortColumn, ValueOf, ValLess, TextLess, RowLess, Key, PlanOf;
    assert [Part(c, descending)] + [Part(Id, descending)] == [Part(c, descending), Part(Id, descending)];
  }

  lemma {:induction false} ColumnsNamed()
    ensures SortColumn("sortname") == SortColumn("name") == Some(Name) && SortColumn("productionyear") == SortColumn("premieredate") == Some(Year)
    ensures SortColumn("datecreated") == Some(Mtime) && SortColumn("indexnumber") == Some(EpisodeNumber)
    ensures SortColumn("parentindexnumber") == Some(SeasonNumber) && SortColumn("random") == Some(Id)
  {
  }

  /** Which property of the items each sort key of a request goes by, in either direction and with the id last. */
  lemma {:induction false} KeyMeaning(descending: bool, x: Item, y: Item)
    ensures Before(OneKey("sortname", descending), x, y) <==> ByText(descending, x.name, y.name, x, y)
    ensures Before(OneKey("name", descending), x, y) <==> ByText(descending, x.name, y.name, x, y)
    ensures Before(OneKey("productionyear", descending), x, y) <==> ByNumber(descending, x.year, y.year, x, y)
    ensures Before(OneKey("premieredate", descending), x, y) <==> ByNumber(descending, x.year, y.year, x, y)
    ensures Before(OneKey("datecreated", descending), x, y) <==> ByNumber(descending, x.mtime, y.mtime, x, y)
    ensures Before(OneKey("indexnumber", descending), x, y) <==> ByNumber(descending, x.episode, y.episode, x, y)
    ensures Before(OneKey("parentindexnumber", descending), x, y) <==> ByNumber(descending, x.season, y.season, x, y)
    ensures Before(OneKey("random", descending), x, y) <==> ByText(descending, x.id, y.id, x, y)
  {
    ColumnsNamed();
    hide SortColumn, OneKey, Before, TextLess;
    ByColumn("sortname", Name, descending, x, y);
    ByColumn("name", Name, descending, x, y);
    ByColumn("productionyear", Year, descending, x, y);
    ByColumn("premieredate", Year, descending, x, y);
    ByColumn("datecreated", Mtime, descending, x, y);
    ByColumn("indexnumber", EpisodeNumber, descending, x, y);
    ByColumn("parentindexnumber", SeasonNumber, descending, x, y);
    ByColumn("random", Id, descending, x, y);
  }

  /** A key of another name is passed over, and several keys are taken in the order asked for. */
  lemma {:induction false} WantedInOrder(a: seq<string>, b: seq<string>, descending: bool)
    ensures Wanted(a + b, descending) == Wanted(a, descending) + Wanted(b, descending)
  {
    hide SortColumn;
    if b == [] {
      assert a + b == a;
    } else {
      WantedInOrder(a, b[..|b| - 1], descending);
      assert (a + b)[..|a + b| - 1] == a + b[..|b| - 1];
    }
  }

  /** The resume order: latest first, among equals the id from the end. */
  lemma {:induction false} ResumeMeaning(x: Item, y: Item)
    ensures Before(Plan([Updated, Id], true), x, y) <==> ByNumber(true, x.updated, y.updated, x, y)
  {
    TwoColumns(Updated, true, x, y);
    TwoValues(ValueOf(y, Updated), ValueOf(x, Updated), y.id, x.id);
    hide RowLess, Key, PlanOf, TextLess;
  }
}
