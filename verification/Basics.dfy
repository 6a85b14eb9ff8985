/** Small shared vocabulary: optional values, decimal numerals and ASCII case. */
module Basics {
  datatype Option<+T> = None | Some(value: T)

  predicate IsDigit(c: char) { '0' <= c <= '9' }

  predicate AllDigits(s: string) { forall i :: 0 <= i < |s| ==> IsDigit(s[i]) }

  /** ASCII lower case; bytes outside A-Z are kept. */
  function LowerChar(c: char): char {
    if 'A' <= c <= 'Z' then (c as int + 32) as char else c
  }

  function Lower(s: string): (r: string)
    ensures |r| == |s|
    ensures forall i :: 0 <= i < |s| ==> r[i] == LowerChar(s[i])
  {
    seq(|s|, i requires 0 <= i < |s| => LowerChar(s[i]))
  }

  function Digit(n: nat): char
    requires n < 10
  {
    (n + '0' as int) as char
  }

  /** strconv.Itoa on a non-negative number. */
  function Decimal(n: nat): (s: string)
    ensures |s| > 0 && AllDigits(s)
  {
    if n < 10 then [Digit(n)] else Decimal(n / 10) + [Digit(n % 10)]
  }

  /** strconv.Itoa. */
  function Itoa(n: int): string {
    if n < 0 then "-" + Decimal(-n) else Decimal(n)
  }

  function Number(s: string): nat
    requires AllDigits(s)
  {
    if |s| == 0 then 0 else 10 * Number(s[..|s| - 1]) + (s[|s| - 1] as int - '0' as int)
  }

  /** The integer a decimal numeral denotes, as strconv.Atoi and the database read it. */
  function Atoi(s: string): Option<int> {
    if |s| > 0 && AllDigits(s) then Some(Number(s))
    else if |s| > 1 && s[0] == '+' && AllDigits(s[1..]) then Some(Number(s[1..]))
    else if |s| > 1 && s[0] == '-' && AllDigits(s[1..]) then Some(-(Number(s[1..]) as int))
    else None
  }

  lemma {:induction false} NumberOfDecimal(n: nat)
    ensures Number(Decimal(n)) == n
  {
    if n >= 10 {
      NumberOfDecimal(n / 10);
      assert Decimal(n)[..|Decimal(n)| - 1] == Decimal(n / 10);
    }
  }

  /** Every integer survives the trip through its decimal text. */
  lemma ItoaRoundTrip(n: int)
    ensures Atoi(Itoa(n)) == Some(n)
  {
    if n < 0 {
      assert Itoa(n)[1..] == Decimal(-n);
      NumberOfDecimal(-n);
    } else {
      NumberOfDecimal(n);
    }
  }

  lemma {:induction false} SubsetSize<T>(a: set<T>, b: set<T>)
    requires a <= b
    ensures |a| <= |b|
  {
    assert b == a + (b - a);
  }

  // ---- byte order

  predicate TextLess(a: string, b: string) {
    b != [] && (a == [] || a[0] < b[0] || (a[0] == b[0] && TextLess(a[1..], b[1..])))
  }

  lemma {:induction false} TextTotal(a: string, b: string)
    ensures TextLess(a, b) || a == b || TextLess(b, a)
    ensures !(TextLess(a, b) && TextLess(b, a)) && !TextLess(a, a)
  {
    if a != [] && b != [] && a[0] == b[0] {
      TextTotal(a[1..], b[1..]);
      assert a == [a[0]] + a[1..] && b == [b[0]] + b[1..];
    }
    if a != [] { TextTotal(a[1..], a[1..]); }
  }

  lemma {:induction false} TextTransitive(a: string, b: string, c: string)
    requires TextLess(a, b) && TextLess(b, c)
    ensures TextLess(a, c)
  {
    if a != [] && a[0] == b[0] == c[0] { TextTransitive(a[1..], b[1..], c[1..]); }
  }

  predicate Leads(x: string, names: set<string>) { x in names && forall y :: y in names ==> !TextLess(y, x) }

  lemma {:induction false} LeadsStep(x: string, a: string, names: set<string>)
    requires Leads(x, names)
    ensures Leads(if TextLess(a, x) then a else x, names + {a})
  {
    TextTotal(a, a);
    if TextLess(a, x) {
      forall y | y in names && TextLess(y, a)
        ensures false
      {
        TextTransitive(y, a, x);
      }
    }
    hide TextLess;
  }

  lemma {:induction false} LeastExists(names: set<string>) returns (x: string)
    requires names != {}
    ensures Leads(x, names)
    decreases |names|
  {
    var a :| a in names;
    TextTotal(a, a);
    hide TextLess;
    if names == {a} {
      x := a;
    } else {
      x := LeastExists(names - {a});
      LeadsStep(x, a, names - {a});
      assert names - {a} + {a} == names;
      if TextLess(a, x) { x := a; }
    }
  }

  /** The first of some names in byte order. */
  function Least(names: set<string>): (x: string)
    requires names != {}
    ensures Leads(x, names)
  {
    assert exists x :: Leads(x, names) by { var x := LeastExists(names); }
    assert forall x, y :: Leads(x, names) && Leads(y, names) ==> x == y by {
      forall x, y { TextTotal(x, y); }
    }
    var x :| x in names && Leads(x, names);
    x
  }
}
