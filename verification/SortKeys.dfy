/** Sort columns, their texts in a cursor, and the row-value order of the catalog. */
module SortKeys {
  import opened Basics

  datatype Column = Id | Name | Year | Mtime | SeasonNumber | EpisodeNumber | Updated

  /** updated is the viewer's resume time of the item, 0 when there is none. */
  datatype Item = Item(id: string, lib: string, kind: string, path: string, name: string, year: int, mtime: int,
                       season: int, episode: int, updated: int)

  datatype Val = Num(n: int) | Txt(s: string)

  function ValueOf(x: Item, c: Column): Val {
    match c
    case Id => Txt(x.id)
    case Name => Txt(x.name)
    case Year => Num(x.year)
    case Mtime => Num(x.mtime)
    case SeasonNumber => Num(x.season)
    case EpisodeNumber => Num(x.episode)
    case Updated => Num(x.updated)
  }

  /** The text a cursor carries for a column. */
  function SortText(x: Item, c: Column): string {
    match ValueOf(x, c)
    case Num(n) => Itoa(n)
    case Txt(s) => s
  }

  /** How the database reads a text parameter against a column. */
  function ReadText(c: Column, s: string): Option<Val> {
    if c == Id || c == Name then Some(Txt(s))
    else match Atoi(s) case Some(n) => Some(Num(n)) case None => None
  }

  /** A cursor value denotes the column value it was taken from. */
  lemma {:induction false} SortTextRoundTrip(x: Item, c: Column)
    ensures ReadText(c, SortText(x, c)) == Some(ValueOf(x, c))
  {
    match ValueOf(x, c)
    case Num(n) => ItoaRoundTrip(n);
    case Txt(s) =>
  }

  // ---- orders

  predicate ValLess(a: Val, b: Val) {
    match (a, b)
    case (Num(m), Num(n)) => m < n
    case (Txt(s), Txt(t)) => TextLess(s, t)
    case (Num(_), Txt(_)) => true
    case (Txt(_), Num(_)) => false
  }

  /** SQL row comparison (a...) < (b...). */
  predicate RowLess(a: seq<Val>, b: seq<Val>)
    requires |a| == |b|
  {
    a != [] && (ValLess(a[0], b[0]) || (a[0] == b[0] && RowLess(a[1..], b[1..])))
  }

  lemma {:induction false} ValTotal(a: Val, b: Val)
    ensures ValLess(a, b) || a == b || ValLess(b, a)
    ensures !(ValLess(a, b) && ValLess(b, a)) && !ValLess(a, a)
  {
    if a.Txt? { TextTotal(a.s, a.s); }
    if a.Txt? && b.Txt? { TextTotal(a.s, b.s); }
  }

  lemma {:induction false} ValTransitive(a: Val, b: Val, c: Val)
    requires ValLess(a, b) && ValLess(b, c)
    ensures ValLess(a, c)
  {
    if a.Txt? && b.Txt? && c.Txt? { TextTransitive(a.s, b.s, c.s); }
  }

  lemma {:induction false} RowTotal(a: seq<Val>, b: seq<Val>)
    requires |a| == |b|
    ensures RowLess(a, b) || a == b || RowLess(b, a)
    ensures !(RowLess(a, b) && RowLess(b, a)) && !RowLess(a, a)
  {
    if a != [] {
      ValTotal(a[0], b[0]);
      ValTotal(a[0], a[0]);
      RowTotal(a[1..], b[1..]);
      RowTotal(a[1..], a[1..]);
      assert a == [a[0]] + a[1..] && b == [b[0]] + b[1..];
    }
  }

  lemma {:induction false} RowTransitive(a: seq<Val>, b: seq<Val>, c: seq<Val>)
    requires |a| == |b| == |c| && RowLess(a, b) && RowLess(b, c)
    ensures RowLess(a, c)
  {
    ValTotal(a[0], b[0]);
    ValTotal(b[0], c[0]);
    if a[0] == b[0] == c[0] {
      RowTransitive(a[1..], b[1..], c[1..]);
    } else if ValLess(a[0], b[0]) && ValLess(b[0], c[0]) {
      ValTransitive(a[0], b[0], c[0]);
    }
  }

  // ---- plans: the columns and direction of a listing

  /** Columns to sort by, all in one direction, id last. */
  datatype Plan = Plan(cols: seq<Column>, desc: bool)

  predicate GoodPlan(p: Plan) { |p.cols| > 0 && p.cols[|p.cols| - 1] == Id }

  function Key(p: Plan, x: Item): (k: seq<Val>)
    ensures |k| == |p.cols|
  {
    seq(|p.cols|, i requires 0 <= i < |p.cols| => ValueOf(x, p.cols[i]))
  }

  function Texts(p: Plan, x: Item): (t: seq<string>)
    ensures |t| == |p.cols|
  {
    seq(|p.cols|, i requires 0 <= i < |p.cols| => SortText(x, p.cols[i]))
  }

  /** k comes before l in the listing. */
  predicate KeyBefore(p: Plan, k: seq<Val>, l: seq<Val>)
    requires |k| == |l|
  {
    if p.desc then RowLess(l, k) else RowLess(k, l)
  }

  predicate Before(p: Plan, x: Item, y: Item) {
    KeyBefore(p, Key(p, x), Key(p, y))
  }

  lemma {:induction false} BeforeTransitive(p: Plan, x: Item, y: Item, z: Item)
    requires Before(p, x, y) && Before(p, y, z)
    ensures Before(p, x, z)
  {
    if p.desc {
      RowTransitive(Key(p, z), Key(p, y), Key(p, x));
    } else {
      RowTransitive(Key(p, x), Key(p, y), Key(p, z));
    }
  }

  /** The id makes the order total on rows with different ids. */
  lemma {:induction false} BeforeTotal(p: Plan, x: Item, y: Item)
    requires GoodPlan(p)
    ensures x.id != y.id ==> Before(p, x, y) || Before(p, y, x)
    ensures !(Before(p, x, y) && Before(p, y, x)) && !Before(p, x, x)
  {
    RowTotal(Key(p, x), Key(p, y));
    RowTotal(Key(p, x), Key(p, x));
    assert Key(p, x)[|p.cols| - 1] == Txt(x.id) && Key(p, y)[|p.cols| - 1] == Txt(y.id);
  }

  // ---- browseOrder

  datatype Part = Part(col: Column, desc: bool)

  function SortColumn(key: string): Option<Column> {
    if key == "sortname" || key == "name" then Some(Name)
    else if key == "productionyear" || key == "premieredate" then Some(Year)
    else if key == "datecreated" then Some(Mtime)
    else if key == "indexnumber" then Some(EpisodeNumber)
    else if key == "parentindexnumber" then Some(SeasonNumber)
    else if key == "random" then Some(Id)
    else None
  }

  /** The recognised keys, in the order asked for. */
  function Wanted(keys: seq<string>, descending: bool): seq<Part> {
    if keys == [] then []
    else
      var col := SortColumn(keys[|keys| - 1]);
      Wanted(keys[..|keys| - 1], descending) + (if col.Some? then [Part(col.value, descending)] else [])
  }

  method BrowseOrder(keys: seq<string>, descending: bool) returns (parts: seq<Part>)
    ensures var wanted := Wanted(keys, descending);
            parts == (if wanted == [] then [Part(Name, descending)] else wanted) + [Part(Id, descending)]
    ensures parts != [] && parts[|parts| - 1] == Part(Id, descending)
    ensures forall i :: 0 <= i < |parts| ==> parts[i].desc == descending
  {
    hide SortColumn;
    var out: seq<Part> := [];
    for n := 0 to |keys|
      invariant out == Wanted(keys[..n], descending)
      invariant forall i :: 0 <= i < |out| ==> out[i].desc == descending
    {
      var col := SortColumn(keys[n]);
      if col.Some? { out := out + [Part(col.value, descending)]; }
      assert keys[..n + 1][..n] == keys[..n];
    }
    assert keys[..|keys|] == keys;
    if |out| == 0 { out := out + [Part(Name, descending)]; }
    parts := out + [Part(Id, descending)];
  }

  /** The columns of an order text, and descending as soon as DESC occurs anywhere in it. */
  function PlanOf(parts: seq<Part>): Plan {
    Plan(seq(|parts|, i requires 0 <= i < |parts| => parts[i].col), exists i :: 0 <= i < |parts| && parts[i].desc)
  }

  /** Reading one direction off the whole order loses nothing, because browseOrder writes one direction only. */
  lemma {:induction false} UniformOrder(parts: seq<Part>, descending: bool)
    requires parts != [] && parts[|parts| - 1] == Part(Id, descending)
    requires forall i :: 0 <= i < |parts| ==> parts[i].desc == descending
    ensures GoodPlan(PlanOf(parts)) && PlanOf(parts).desc == descending
    ensures parts == seq(|parts|, i requires 0 <= i < |parts| => Part(PlanOf(parts).cols[i], PlanOf(parts).desc))
  {
    assert parts[|parts| - 1].desc == descending;
  }
}
