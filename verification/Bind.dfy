/** Rewriting question-mark placeholders for PostgreSQL. */
module Bind {
  import opened Basics

  /** The reference: one byte at a time, every quote toggles, and an unquoted ? becomes the next number. */
  function Rewrite(q: string, quoted: bool, n: nat): string {
    if q == "" then ""
    else if q[0] == '\'' then [q[0]] + Rewrite(q[1..], !quoted, n)
    else if q[0] == '?' && !quoted then "$" + Decimal(n + 1) + Rewrite(q[1..], quoted, n + 1)
    else [q[0]] + Rewrite(q[1..], quoted, n)
  }

  /** bind, with its separate branch for a doubled quote inside a literal. */
  method BindText(q: string) returns (b: string)
    ensures b == Rewrite(q, false, 0)
  {
    b := "";
    var quoted, n, i := false, 0, 0;
    ghost var all := Rewrite(q, false, 0);
    assert q[0..] == q;
    while i < |q|
      invariant 0 <= i <= |q|
      invariant b + Rewrite(q[i..], quoted, n) == all
      decreases |q| - i
    {
      ghost var rest := q[i..];
      assert rest[1..] == q[i + 1..];
      var c := q[i];
      if c == '\'' && quoted && i + 1 < |q| && q[i + 1] == '\'' {
        DoubledQuote(rest, n);
        assert rest[2..] == q[i + 2..];
        b := b + "''";
        i := i + 2;
      } else {
        if c == '\'' { quoted := !quoted; }
        if c == '?' && !quoted {
          n := n + 1;
          b := b + ['$'];
          b := b + Itoa(n);
        } else {
          b := b + [c];
        }
        i := i + 1;
      }
    }
  }

  /** A doubled quote toggles twice, so its own branch changes nothing. */
  lemma {:induction false} DoubledQuote(q: string, n: nat)
    requires |q| >= 2 && q[0] == '\'' && q[1] == '\''
    ensures Rewrite(q, true, n) == "''" + Rewrite(q[2..], true, n)
  {
    assert q[1..][0] == '\'' && q[1..][1..] == q[2..];
  }

  // ---- what the result means

  /** How many placeholders a text has. */
  function Holes(q: string, quoted: bool): nat {
    if q == "" then 0
    else if q[0] == '\'' then Holes(q[1..], !quoted)
    else (if q[0] == '?' && !quoted then 1 else 0) + Holes(q[1..], quoted)
  }

  /** The quoted parts of a text, quotes included, in order. */
  function Literals(q: string, quoted: bool): string {
    if q == "" then ""
    else if q[0] == '\'' then ['\''] + Literals(q[1..], !quoted)
    else (if quoted then [q[0]] else "") + Literals(q[1..], quoted)
  }

  function SkipDigits(s: string): (r: string)
    ensures |r| <= |s|
  {
    if s != "" && IsDigit(s[0]) then SkipDigits(s[1..]) else s
  }

  function LeadingDigits(s: string): (d: string)
    ensures AllDigits(d)
  {
    if s != "" && IsDigit(s[0]) then [s[0]] + LeadingDigits(s[1..]) else ""
  }

  /** Mapping $k back to ?. */
  function Unbind(s: string, quoted: bool): string
    decreases |s|
  {
    if s == "" then ""
    else if s[0] == '\'' then ['\''] + Unbind(s[1..], !quoted)
    else if s[0] == '$' && !quoted then ['?'] + Unbind(SkipDigits(s[1..]), quoted)
    else [s[0]] + Unbind(s[1..], quoted)
  }

  /** The numbers of the $k in a text, in order. */
  function Numbers(s: string, quoted: bool): seq<nat>
    decreases |s|
  {
    if s == "" then []
    else if s[0] == '\'' then Numbers(s[1..], !quoted)
    else if s[0] == '$' && !quoted then [Number(LeadingDigits(s[1..]))] + Numbers(SkipDigits(s[1..]), quoted)
    else Numbers(s[1..], quoted)
  }

  function CountUp(from: nat, k: nat): seq<nat>
    decreases k
  {
    if k == 0 then [] else [from] + CountUp(from + 1, k - 1)
  }

  /** No unquoted $, and no unquoted ? directly before a digit. */
  predicate Reversible(q: string, quoted: bool) {
    q == ""
    || (if q[0] == '\'' then Reversible(q[1..], !quoted)
        else !(q[0] == '$' && !quoted) && !(q[0] == '?' && !quoted && |q| > 1 && IsDigit(q[1])) && Reversible(q[1..], quoted))
  }

  /** A text that does not start with a digit is rewritten to one that does not. */
  lemma {:induction false} RewriteStart(q: string, quoted: bool, n: nat)
    ensures var r := Rewrite(q, quoted, n); r != "" && IsDigit(r[0]) <==> q != "" && IsDigit(q[0])
  {
  }

  lemma {:induction false} SkipNumber(d: string, s: string)
    requires AllDigits(d)
    ensures SkipDigits(d + s) == SkipDigits(s) && LeadingDigits(d + s) == d + LeadingDigits(s)
  {
    if d == "" {
      assert d + s == s && d + LeadingDigits(s) == LeadingDigits(s);
    } else {
      assert (d + s)[1..] == d[1..] + s;
      SkipNumber(d[1..], s);
      assert d + LeadingDigits(s) == [d[0]] + (d[1..] + LeadingDigits(s));
    }
  }

  /** Quoted text is preserved byte for byte. */
  lemma {:induction false} LiteralsPreserved(q: string, quoted: bool, n: nat)
    ensures Literals(Rewrite(q, quoted, n), quoted) == Literals(q, quoted)
  {
    if q != "" {
      if q[0] == '\'' {
        LiteralsPreserved(q[1..], !quoted, n);
      } else if q[0] == '?' && !quoted {
        LiteralsPreserved(q[1..], quoted, n + 1);
        PlainPrefix("$" + Decimal(n + 1), Rewrite(q[1..], quoted, n + 1));
      } else {
        LiteralsPreserved(q[1..], quoted, n);
      }
    }
  }

  lemma {:induction false} PlainPrefix(d: string, s: string)
    requires forall i :: 0 <= i < |d| ==> d[i] != '\''
    ensures Literals(d + s, false) == Literals(s, false)
  {
    if d == "" {
      assert d + s == s;
    } else {
      assert (d + s)[1..] == d[1..] + s;
      PlainPrefix(d[1..], s);
    }
  }

  /** A placeholder's text: its $, its number, and the rest. */
  lemma {:induction false} HoleText(q: string, n: nat)
    requires q != "" && q[0] == '?'
    ensures var r := Rewrite(q, false, n); r != "" && r[0] == '$' && r[1..] == Decimal(n + 1) + Rewrite(q[1..], false, n + 1)
  {
    var tail := Rewrite(q[1..], false, n + 1);
    assert "$" + Decimal(n + 1) + tail == "$" + (Decimal(n + 1) + tail);
  }

  /** The placeholders come out numbered from n + 1 on, left to right. */
  lemma {:induction false} NumberedInOrder(q: string, quoted: bool, n: nat)
    requires Reversible(q, quoted)
    ensures Numbers(Rewrite(q, quoted, n), quoted) == CountUp(n + 1, Holes(q, quoted))
  {
    if q != "" {
      if q[0] == '\'' {
        NumberedInOrder(q[1..], !quoted, n);
      } else if q[0] == '?' && !quoted {
        NumberedInOrder(q[1..], quoted, n + 1);
        HoleText(q, n);
        NumberThen(q[1..], n);
      } else {
        NumberedInOrder(q[1..], quoted, n);
      }
    }
  }

  /** What a reader finds after the $ of a placeholder. */
  lemma {:induction false} NumberThen(rest: string, n: nat)
    requires rest == "" || !IsDigit(rest[0])
    ensures var r := Decimal(n + 1) + Rewrite(rest, false, n + 1);
            SkipDigits(r) == Rewrite(rest, false, n + 1) && Number(LeadingDigits(r)) == n + 1
  {
    var r := Rewrite(rest, false, n + 1);
    RewriteStart(rest, false, n + 1);
    SkipNumber(Decimal(n + 1), r);
    assert Decimal(n + 1) + "" == Decimal(n + 1);
    NumberOfDecimal(n + 1);
  }

  lemma {:induction false} UnbindShorter(q: string, quoted: bool, n: nat)
    ensures |Unbind(Rewrite(q, quoted, n), quoted)| <= |q|
    decreases |q|
  {
    if q != "" {
      if q[0] == '\'' {
        UnbindShorter(q[1..], !quoted, n);
      } else if q[0] == '?' && !quoted {
        HoleText(q, n);
        UnbindHole(q[1..], n);
        UnbindShorter(SkipDigits(q[1..]), quoted, n + 1);
      } else if q[0] == '$' && !quoted {
        UnbindDollar(q[1..], n);
        UnbindShorter(SkipDigits(q[1..]), quoted, n);
      } else {
        UnbindShorter(q[1..], quoted, n);
      }
    }
  }

  /** Digits after a placeholder are swallowed with its number. */
  lemma {:induction false} UnbindHole(rest: string, n: nat)
    ensures SkipDigits(Decimal(n + 1) + Rewrite(rest, false, n + 1)) == Rewrite(SkipDigits(rest), false, n + 1)
  {
    SkipNumber(Decimal(n + 1), Rewrite(rest, false, n + 1));
    UnbindDollar(rest, n + 1);
  }

  lemma {:induction false} UnbindDollar(rest: string, n: nat)
    ensures SkipDigits(Rewrite(rest, false, n)) == Rewrite(SkipDigits(rest), false, n)
  {
    RewriteStart(rest, false, n);
    if rest != "" && IsDigit(rest[0]) {
      assert Rewrite(rest, false, n)[1..] == Rewrite(rest[1..], false, n);
      UnbindDollar(rest[1..], n);
    }
  }

  /** Mapping the placeholders back recovers the text if and only if it has no unquoted $ and no unquoted ?
      directly before a digit. */
  lemma {:induction false} UnbindRecoversIff(q: string, quoted: bool, n: nat)
    ensures Unbind(Rewrite(q, quoted, n), quoted) == q <==> Reversible(q, quoted)
  {
    if q != "" {
      var r := Rewrite(q, quoted, n);
      assert q == [q[0]] + q[1..];
      if q[0] == '\'' {
        UnbindRecoversIff(q[1..], !quoted, n);
        assert Unbind(r, quoted)[1..] == Unbind(Rewrite(q[1..], !quoted, n), !quoted);
      } else if q[0] == '?' && !quoted {
        HoleText(q, n);
        UnbindHole(q[1..], n);
        assert Unbind(r, quoted)[1..] == Unbind(Rewrite(SkipDigits(q[1..]), quoted, n + 1), quoted);
        if |q| > 1 && IsDigit(q[1]) {
          assert |SkipDigits(q[1..])| < |q[1..]|;
          UnbindShorter(SkipDigits(q[1..]), quoted, n + 1);
        } else {
          UnbindRecoversIff(q[1..], quoted, n + 1);
        }
      } else if q[0] == '$' && !quoted {
        assert Unbind(r, quoted)[0] == '?';
      } else {
        UnbindRecoversIff(q[1..], quoted, n);
        assert Unbind(r, quoted)[1..] == Unbind(Rewrite(q[1..], quoted, n), quoted);
      }
    }
  }

  // ---- the placeholders cut the text

  /** The text between the unquoted question marks. */
  function Pieces(q: string, quoted: bool): (r: seq<string>)
    ensures r != []
  {
    if q == "" then [""]
    else if q[0] == '?' && !quoted then [""] + Pieces(q[1..], quoted)
    else
      var r := Pieces(q[1..], if q[0] == '\'' then !quoted else quoted);
      [[q[0]] + r[0]] + r[1..]
  }

  /** Pieces joined by marks, where mark k stands after piece k - 1. */
  function Joined(pieces: seq<string>, k: nat, mark: nat -> string): string
    requires pieces != []
  {
    if |pieces| == 1 then pieces[0] else pieces[0] + mark(k) + Joined(pieces[1..], k + 1, mark)
  }

  lemma {:induction false} JoinedFirst(c: char, r: seq<string>, k: nat, mark: nat -> string)
    requires r != []
    ensures Joined([[c] + r[0]] + r[1..], k, mark) == [c] + Joined(r, k, mark)
  {
    var s := [[c] + r[0]] + r[1..];
    assert s[1..] == r[1..];
    if |r| > 1 {
      assert ([c] + r[0]) + mark(k) + Joined(r[1..], k + 1, mark) == [c] + (r[0] + mark(k) + Joined(r[1..], k + 1, mark));
    }
  }

  /** Whatever the text, the rewriting joins by $1, $2, ... in order what the question marks joined before. */
  lemma {:induction false} MarksReplaced(q: string, quoted: bool, n: nat, plain: nat -> string, dollar: nat -> string)
    requires forall k :: plain(k) == "?" && dollar(k) == "$" + Decimal(k)
    ensures Joined(Pieces(q, quoted), n + 1, plain) == q
    ensures Joined(Pieces(q, quoted), n + 1, dollar) == Rewrite(q, quoted, n)
    ensures |Pieces(q, quoted)| == Holes(q, quoted) + 1
  {
    if q != "" {
      if q[0] == '?' && !quoted {
        MarksReplaced(q[1..], quoted, n + 1, plain, dollar);
        var r := Pieces(q[1..], quoted);
        assert ([""] + r)[1..] == r;
        assert "" + plain(n + 1) + Joined(r, n + 2, plain) == q;
        assert "" + dollar(n + 1) + Joined(r, n + 2, dollar) == Rewrite(q, quoted, n);
      } else {
        var flip := if q[0] == '\'' then !quoted else quoted;
        MarksReplaced(q[1..], flip, n, plain, dollar);
        JoinedFirst(q[0], Pieces(q[1..], flip), n + 1, plain);
        JoinedFirst(q[0], Pieces(q[1..], flip), n + 1, dollar);
      }
    }
  }
}
