/** Cleaned absolute paths as byte strings, with the prefix tests the server uses. */
module Paths {

  /** strings.HasPrefix(p, top + "/"): p lies strictly below top. */
  predicate Below(p: string, top: string) {
    |top| < |p| && p[..|top|] == top && p[|top|] == '/'
  }

  /** p == top || strings.HasPrefix(p, top + "/"). */
  predicate Under(p: string, top: string) {
    p == top || Below(p, top)
  }

  function LastSlash(p: string): (i: int)
    ensures -1 <= i < |p|
    ensures i >= 0 ==> p[i] == '/'
    ensures forall j :: i < j < |p| ==> p[j] != '/'
  {
    if |p| == 0 then -1
    else if p[|p| - 1] == '/' then |p| - 1
    else LastSlash(p[..|p| - 1])
  }

  /** filepath.Dir on a cleaned path. */
  function Dir(p: string): string {
    var i := LastSlash(p);
    if i < 0 then "." else if i == 0 then "/" else p[..i]
  }

  /** filepath.Base on a cleaned path. */
  function Base(p: string): string {
    p[LastSlash(p) + 1..]
  }

  function Join(dir: string, name: string): string {
    dir + "/" + name
  }

  /** filepath.Ext: from the last dot of the last element. */
  function Ext(p: string): (e: string)
    ensures |e| <= |p|
  {
    if |p| == 0 || p[|p| - 1] == '/' then ""
    else if p[|p| - 1] == '.' then "."
    else
      var e := Ext(p[..|p| - 1]);
      if e == "" then "" else e + [p[|p| - 1]]
  }

  lemma {:induction false} ExtIsSuffix(p: string)
    ensures Stem(p) + Ext(p) == p
    ensures forall i :: 0 <= i < |Ext(p)| ==> Ext(p)[i] != '/'
  {
    if |p| > 0 && Ext(p) != "" && Ext(p) != "." {
      ExtIsSuffix(p[..|p| - 1]);
      assert Ext(p) == Ext(p[..|p| - 1]) + [p[|p| - 1]];
      assert Stem(p) == Stem(p[..|p| - 1]);
      assert p == p[..|p| - 1] + [p[|p| - 1]];
    }
  }

  /** strings.TrimSuffix(p, filepath.Ext(p)). */
  function Stem(p: string): string {
    p[..|p| - |Ext(p)|]
  }

  predicate Absolute(p: string) { |p| > 0 && p[0] == '/' }

  lemma {:induction false} BelowTransitive(a: string, b: string, c: string)
    requires Below(a, b) && Under(b, c)
    ensures Below(a, c)
  {
    assert a[..|c|] == a[..|b|][..|c|];
  }

  lemma {:induction false} UnderTransitive(a: string, b: string, c: string)
    requires Under(a, b) && Under(b, c)
    ensures Under(a, c)
  {
    if a != b { BelowTransitive(a, b, c); }
  }

  /** Two places above the same path are nested. */
  lemma {:induction false} Comparable(x: string, a: string, b: string)
    requires Under(x, a) && Under(x, b)
    ensures Under(a, b) || Under(b, a)
  {
    if |a| <= |b| {
      assert b[..|a|] == x[..|b|][..|a|] == x[..|a|];
    } else {
      assert a[..|b|] == x[..|a|][..|b|] == x[..|b|];
    }
  }

  /** The directory of a path is its nearest proper ancestor. */
  lemma {:induction false} DirIsNearest(x: string, top: string)
    requires Below(x, top) && |top| > 0
    ensures Below(x, Dir(x)) && Under(Dir(x), top)
  {
    var i := LastSlash(x);
    assert i >= |top|;
    assert x[..i][..|top|] == x[..|top|];
  }

  lemma {:induction false} LastSlashAppend(s: string, t: string)
    requires forall i :: 0 <= i < |t| ==> t[i] != '/'
    ensures LastSlash(s + t) == LastSlash(s)
  {
    assert forall k :: 0 <= k < |s| ==> (s + t)[k] == s[k];
    assert forall k :: 0 <= k < |t| ==> (s + t)[|s| + k] == t[k];
  }

  /** A name beside a file lies in that file's directory. */
  lemma {:induction false} DirOfSibling(path: string, suffix: string)
    requires forall i :: 0 <= i < |suffix| ==> suffix[i] != '/'
    ensures Dir(Stem(path) + suffix) == Dir(path)
  {
    LastSlashAppend(Stem(path), suffix);
    ExtIsSuffix(path);
    LastSlashAppend(Stem(path), Ext(path));
    var i := LastSlash(path);
    assert i == LastSlash(Stem(path)) == LastSlash(Stem(path) + suffix);
    if i > 0 {
      assert (Stem(path) + suffix)[..i] == Stem(path)[..i] == path[..i];
    }
  }

  lemma {:induction false} DirOfJoin(dir: string, name: string)
    requires |dir| > 0
    requires forall i :: 0 <= i < |name| ==> name[i] != '/'
    ensures Dir(Join(dir, name)) == dir
  {
    assert Join(dir, name) == (dir + "/") + name;
    LastSlashAppend(dir + "/", name);
    assert LastSlash(dir + "/") == |dir|;
  }

  /** Appending a letter to a path with an extension appends it to the extension. */
  lemma {:induction false} ExtSnoc(p: string, c: char)
    requires Ext(p) != "" && c != '/' && c != '.'
    ensures Ext(p + [c]) == Ext(p) + [c]
  {
    assert (p + [c])[..|p|] == p;
  }

  lemma {:induction false} ExtDot(s: string)
    ensures Ext(s + ".") == "."
  {
  }

  /** A word after a dot is the extension, and what stands before the dot the stem. */
  lemma {:induction false} ExtOfWord(s: string, e: string)
    requires forall i :: 0 <= i < |e| ==> e[i] != '/' && e[i] != '.'
    ensures Ext(s + "." + e) == "." + e && Stem(s + "." + e) == s
  {
    if e == "" {
      ExtDot(s);
      assert s + "." + e == s + ".";
    } else {
      var d := e[..|e| - 1];
      ExtOfWord(s, d);
      ExtSnoc(s + "." + d, e[|e| - 1]);
      assert s + "." + e == s + "." + d + [e[|e| - 1]];
      assert "." + e == "." + d + [e[|e| - 1]];
    }
    assert (s + "." + e)[..|s|] == s;
  }

  /** A path with a slash after its first byte lies below its directory. */
  lemma {:induction false} BelowDir(p: string)
    requires LastSlash(p) > 0
    ensures Below(p, Dir(p))
  {
  }
}
