/** Moving the media-info directory: copy, commit the setting, then delete. */
module MediaStore {
  import opened Basics

  /** A file name is the digest of an item id plus ".json", or something else; digests are taken as injective. */
  datatype Name = ForItem(item: string) | OtherName(text: string)

  datatype Content = Record(item: string, data: string) | Junk

  /** A file's physical directory and name. */
  type Key = (string, Name)

  type Files = map<Key, Content>

  /** A record of an item, filed under that item's name. */
  predicate Valid(n: Name, c: Content) {
    c.Record? && c.item != "" && n == ForItem(c.item)
  }

  /** The stored directory, the files, and how many more file or database operations succeed before the
      process fails or is stopped. */
  datatype Store = Store(files: Files, setting: string, budget: nat)

  datatype Step = Step(ok: bool, s: Store)

  /** The first loop: every valid record listed is written into a directory. */
  function Copy(s: Store, to: string, keys: seq<Key>): Step
    decreases |keys|
  {
    if keys == [] then Step(true, s)
    else if s.budget == 0 || keys[0] !in s.files then Step(false, s)
    else
      var c := s.files[keys[0]];
      var files := if Valid(keys[0].1, c) then s.files[(to, ForItem(c.item)) := c] else s.files;
      Copy(s.(files := files, budget := s.budget - 1), to, keys[1..])
  }

  /** The second loop: valid records are removed; a failed removal is passed over. */
  function Delete(s: Store, keys: seq<Key>): Store
    decreases |keys|
  {
    if keys == [] || s.budget == 0 then s
    else
      var k := keys[0];
      var files := if k in s.files && Valid(k.1, s.files[k]) then s.files - {k} else s.files;
      Delete(s.(files := files, budget := s.budget - 1), keys[1..])
  }

  /** The directory change. place resolves symbolic links. first and second are the two listings of the old
      directory: a listing takes the directory's name as a pattern and hides errors, so it may miss files of that
      directory and name files of others. */
  function Migrate(s: Store, place: string -> string, to: string, first: seq<Key>, second: seq<Key>): Store {
    if s.setting == to then
      if s.budget == 0 then s else s.(budget := s.budget - 1)
    else
      var c := Copy(s, place(to), first);
      if !c.ok || c.s.budget == 0 then c.s
      else Delete(c.s.(setting := to, budget := c.s.budget - 1), second)
  }

  class MediaDirectory {
    var files: Files
    var setting: string
    var budget: nat

    function S(): Store
      reads this
    {
      Store(files, setting, budget)
    }

    constructor (files: Files, setting: string, budget: nat)
      ensures S() == Store(files, setting, budget)
    {
      this.files, this.setting, this.budget := files, setting, budget;
    }

    method CopyRecords(to: string, keys: seq<Key>) returns (ok: bool)
      modifies this`files, this`budget
      ensures Step(ok, S()) == Copy(old(S()), to, keys)
    {
      ghost var all := Copy(S(), to, keys);
      assert keys[0..] == keys;
      for i := 0 to |keys|
        invariant setting == old(setting)
        invariant Copy(S(), to, keys[i..]) == all
      {
        ghost var rest := keys[i..];
        assert rest[0] == keys[i] && rest[1..] == keys[i + 1..];
        if budget == 0 || keys[i] !in files { return false; }
        budget := budget - 1;
        var c := files[keys[i]];
        if Valid(keys[i].1, c) { files := files[(to, ForItem(c.item)) := c]; }
      }
      ok := true;
    }

    method DeleteRecords(keys: seq<Key>)
      modifies this`files, this`budget
      ensures S() == Delete(old(S()), keys)
    {
      ghost var all := Delete(S(), keys);
      assert keys[0..] == keys;
      for i := 0 to |keys|
        invariant setting == old(setting)
        invariant Delete(S(), keys[i..]) == all
      {
        ghost var rest := keys[i..];
        assert rest[0] == keys[i] && rest[1..] == keys[i + 1..];
        if budget == 0 { return; }
        budget := budget - 1;
        var k := keys[i];
        if k in files && Valid(k.1, files[k]) { files := files - {k}; }
      }
    }

    method ChangeDirectory(place: string -> string, to: string, first: seq<Key>, second: seq<Key>)
      modifies this
      ensures S() == Migrate(old(S()), place, to, first, second)
    {
      var from := setting;
      if from != to {
        var ok := CopyRecords(place(to), first);
        if !ok { return; }
      }
      if budget == 0 { return; }
      budget := budget - 1;
      setting := to;
      if from != to { DeleteRecords(second); }
    }
  }

  // ---- what the loops do

  function Find(files: Files, k: Key): Option<Content> {
    if k in files then Some(files[k]) else None
  }

  /** The last record that the first loop brings into a directory under a name, from another directory. */
  function LastCopy(files: Files, to: string, keys: seq<Key>, n: Name): Option<Content> {
    if keys == [] then None
    else
      var later := LastCopy(files, to, keys[1..], n);
      if later.Some? then later
      else if keys[0].0 != to && keys[0].1 == n && keys[0] in files && Valid(n, files[keys[0]]) then Some(files[keys[0]])
      else None
  }

  /** What the directory holds under a name after the first loop. */
  function Arrived(files: Files, to: string, keys: seq<Key>, n: Name): Option<Content> {
    var c := LastCopy(files, to, keys, n);
    if c.Some? then c else Find(files, (to, n))
  }

  lemma {:induction false} LastCopySame(a: Files, b: Files, to: string, keys: seq<Key>, n: Name)
    requires forall k: Key :: k.0 != to ==> Find(a, k) == Find(b, k)
    ensures LastCopy(a, to, keys, n) == LastCopy(b, to, keys, n)
  {
    if keys != [] {
      LastCopySame(a, b, to, keys[1..], n);
      assert keys[0].0 != to ==> Find(a, keys[0]) == Find(b, keys[0]);
    }
  }

  /** The first loop touches one directory only, and a completed one leaves there what Arrived says. */
  lemma {:induction false} CopyEffect(s: Store, to: string, keys: seq<Key>, k: Key)
    ensures var c := Copy(s, to, keys);
            && c.s.setting == s.setting
            && (k.0 != to ==> Find(c.s.files, k) == Find(s.files, k))
            && (c.ok && k.0 == to ==> Find(c.s.files, k) == Arrived(s.files, to, keys, k.1))
            && (c.ok ==> s.budget >= |keys| && c.s.budget == s.budget - |keys|)
    decreases |keys|
  {
    if keys != [] && s.budget > 0 && keys[0] in s.files {
      var c := s.files[keys[0]];
      var files := if Valid(keys[0].1, c) then s.files[(to, ForItem(c.item)) := c] else s.files;
      CopyEffect(s.(files := files, budget := s.budget - 1), to, keys[1..], k);
      LastCopySame(s.files, files, to, keys[1..], k.1);
    }
  }

  lemma {:induction false} CopySucceeds(s: Store, to: string, keys: seq<Key>)
    requires s.budget >= |keys| && forall k :: k in keys ==> k in s.files
    ensures Copy(s, to, keys).ok
    decreases |keys|
  {
    if keys != [] {
      var c := s.files[keys[0]];
      var files := if Valid(keys[0].1, c) then s.files[(to, ForItem(c.item)) := c] else s.files;
      CopySucceeds(s.(files := files, budget := s.budget - 1), to, keys[1..]);
    }
  }

  /** The second loop removes listed valid records and nothing else, and with time to end removes all of them. */
  lemma {:induction false} DeleteEffect(s: Store, keys: seq<Key>, k: Key)
    ensures var d := Delete(s, keys);
            && d.setting == s.setting
            && (Find(d.files, k) == Find(s.files, k) || (Find(d.files, k) == None && k in keys && k in s.files && Valid(k.1, s.files[k])))
            && (s.budget >= |keys| && k in keys && k in s.files && Valid(k.1, s.files[k]) ==> Find(d.files, k) == None)
    decreases |keys|
  {
    if keys != [] && s.budget > 0 {
      var j := keys[0];
      var files := if j in s.files && Valid(j.1, s.files[j]) then s.files - {j} else s.files;
      var t := s.(files := files, budget := s.budget - 1);
      DeleteEffect(t, keys[1..], k);
      if k != j { assert Find(files, k) == Find(s.files, k); }
    }
  }

  // ---- safety

  /** A valid record of the old directory. */
  predicate IsRecord(s: Store, from: string, n: Name) { (from, n) in s.files && Valid(n, s.files[(from, n)]) }

  /** A directory holds every valid record that another held in an earlier file system. */
  ghost predicate Holds(files: Files, dir: string, s: Store, from: string) {
    forall n :: IsRecord(s, from, n) ==> Find(files, (dir, n)) == Find(s.files, (from, n))
  }

  /** What the two listings must give for the record of a name: it comes to the new directory, or an equal one is
      there already, and the second listing leaves it there. */
  predicate Moved(s: Store, from: string, to: string, first: seq<Key>, second: seq<Key>, n: Name) {
    Arrived(s.files, to, first, n) == Find(s.files, (from, n)) && (to, n) !in second
  }

  /** An uninterrupted move to another name leaves every valid record in the directory of the setting if and only
      if the listings move each of them, whether or not the two names lead to one place. */
  lemma {:induction false} MoveKeepsIff(s: Store, place: string -> string, to: string, first: seq<Key>, second: seq<Key>)
    requires s.setting != to && s.budget > |first| + |second| && forall k :: k in first ==> k in s.files
    ensures var m, from := Migrate(s, place, to, first, second), place(s.setting);
            && m.setting == to
            && (Holds(m.files, place(to), s, from) <==> forall n :: IsRecord(s, from, n) ==> Moved(s, from, place(to), first, second, n))
  {
    var m, from, dir := Migrate(s, place, to, first, second), place(s.setting), place(to);
    forall n | IsRecord(s, from, n)
      ensures m.setting == to && (Find(m.files, (dir, n)) == Find(s.files, (from, n)) <==> Moved(s, from, dir, first, second, n))
    {
      Uninterrupted(s, place, to, first, second, (dir, n));
    }
    Uninterrupted(s, place, to, first, second, (dir, ForItem("")));
  }

  lemma {:induction false} Uninterrupted(s: Store, place: string -> string, to: string, first: seq<Key>, second: seq<Key>, k: Key)
    requires s.setting != to && s.budget > |first| + |second| && forall x :: x in first ==> x in s.files
    ensures var m := Migrate(s, place, to, first, second);
            var c := if k.0 == place(to) then Arrived(s.files, place(to), first, k.1) else Find(s.files, k);
            && m.setting == to
            && Find(m.files, k) == if k in second && c.Some? && Valid(k.1, c.value) then None else c
  {
    CopySucceeds(s, place(to), first);
    CopyEffect(s, place(to), first, k);
    var c := Copy(s, place(to), first).s;
    DeleteEffect(c.(setting := to, budget := c.budget - 1), second, k);
  }

  /** A record is nowhere lost if and only if the listings move it, or the second one leaves it in the old place. */
  lemma {:induction false} RecordSurvivesIff(s: Store, place: string -> string, to: string, first: seq<Key>, second: seq<Key>, n: Name)
    requires s.setting != to && s.budget > |first| + |second| && (forall k :: k in first ==> k in s.files)
    requires IsRecord(s, place(s.setting), n)
    ensures var m, from := Migrate(s, place, to, first, second).files, place(s.setting);
            Find(m, (from, n)) == Find(s.files, (from, n)) || Find(m, (place(to), n)) == Find(s.files, (from, n))
            <==> Moved(s, from, place(to), first, second, n) || (from != place(to) && (from, n) !in second)
  {
    Uninterrupted(s, place, to, first, second, (place(to), n));
    Uninterrupted(s, place, to, first, second, (place(s.setting), n));
  }

  /** However far the move gets, stopped after any operation or aborted in its copying, the directory of the
      setting holds every valid record, for names that lead to different places and listings that move each record. */
  lemma {:induction false} MoveIsSafe(s: Store, place: string -> string, to: string, first: seq<Key>, second: seq<Key>)
    requires s.setting == to || place(s.setting) != place(to)
    requires s.setting != to ==> forall n :: IsRecord(s, place(s.setting), n) ==> Moved(s, place(s.setting), place(to), first, second, n)
    ensures var m := Migrate(s, place, to, first, second);
            (m.setting == s.setting || m.setting == to) && Holds(m.files, place(m.setting), s, place(s.setting))
  {
    var m := Migrate(s, place, to, first, second);
    if s.setting != to {
      AnyPrefix(s, place, to, first, second, (place(to), ForItem("")));
      forall n | IsRecord(s, place(s.setting), n)
        ensures Find(m.files, (place(m.setting), n)) == Find(s.files, (place(s.setting), n))
      {
        AnyPrefix(s, place, to, first, second, (place(to), n));
        AnyPrefix(s, place, to, first, second, (place(s.setting), n));
      }
    }
  }

  lemma {:induction false} AnyPrefix(s: Store, place: string -> string, to: string, first: seq<Key>, second: seq<Key>, k: Key)
    requires s.setting != to
    ensures var m := Migrate(s, place, to, first, second);
            && (m.setting == s.setting || m.setting == to)
            && (m.setting == s.setting && k.0 != place(to) ==> Find(m.files, k) == Find(s.files, k))
            && (m.setting == to && k.0 == place(to) && k !in second ==> Find(m.files, k) == Arrived(s.files, place(to), first, k.1))
  {
    CopyEffect(s, place(to), first, k);
    var c := Copy(s, place(to), first);
    if c.ok && c.s.budget > 0 { DeleteEffect(c.s.(setting := to, budget := c.s.budget - 1), second, k); }
  }

  /** So with different places the move is safe at every point of interruption exactly when the listings move
      every record. */
  lemma {:induction false} MoveIsSafeIff(s: Store, place: string -> string, to: string, first: seq<Key>, second: seq<Key>)
    requires place(s.setting) != place(to) && forall k :: k in first ==> k in s.files
    ensures (forall b: nat :: var m := Migrate(s.(budget := b), place, to, first, second); Holds(m.files, place(m.setting), s, place(s.setting)))
            <==> forall n :: IsRecord(s, place(s.setting), n) ==> Moved(s, place(s.setting), place(to), first, second, n)
  {
    var from := place(s.setting);
    if forall n :: IsRecord(s, from, n) ==> Moved(s, from, place(to), first, second, n) {
      forall b: nat
        ensures var m := Migrate(s.(budget := b), place, to, first, second); Holds(m.files, place(m.setting), s, from)
      {
        SameMoved(s, b, from, place(to), first, second);
        MoveIsSafe(s.(budget := b), place, to, first, second);
      }
    }
    var enough := |first| + |second| + 1;
    MoveKeepsIff(s.(budget := enough), place, to, first, second);
    SameMoved(s, enough, from, place(to), first, second);
  }

  lemma {:induction false} SameMoved(s: Store, b: nat, from: string, to: string, first: seq<Key>, second: seq<Key>)
    ensures forall n :: IsRecord(s.(budget := b), from, n) <==> IsRecord(s, from, n)
    ensures forall n :: Moved(s.(budget := b), from, to, first, second, n) <==> Moved(s, from, to, first, second, n)
    ensures forall files, dir :: Holds(files, dir, s.(budget := b), from) <==> Holds(files, dir, s, from)
  {
    assert forall n :: IsRecord(s.(budget := b), from, n) <==> IsRecord(s, from, n);
  }

  // ---- listings

  /** A listing that names files of one directory only. */
  predicate Within(keys: seq<Key>, dir: string) { forall k :: k in keys ==> k.0 == dir }

  lemma {:induction false} LastCopyListed(files: Files, from: string, to: string, keys: seq<Key>, n: Name)
    requires from != to && Within(keys, from) && (from, n) in files && Valid(n, files[(from, n)])
    ensures LastCopy(files, to, keys, n) == if (from, n) in keys then Some(files[(from, n)]) else None
  {
    if keys != [] {
      LastCopyListed(files, from, to, keys[1..], n);
      assert keys[0].0 == from;
    }
  }

  /** When both listings name files of the old directory only, a record is moved if and only if the first listing
      names it or an equal copy was in the new directory; so a complete first listing moves them all. */
  lemma {:induction false} ListedIsMoved(s: Store, from: string, to: string, first: seq<Key>, second: seq<Key>, n: Name)
    requires from != to && Within(first, from) && Within(second, from) && IsRecord(s, from, n)
    ensures Moved(s, from, to, first, second, n) <==> (from, n) in first || Find(s.files, (to, n)) == Find(s.files, (from, n))
  {
    LastCopyListed(s.files, from, to, first, n);
  }

  /** Two names for one place: once the second listing names them, the records just copied are gone. */
  lemma {:induction false} OnePlaceLoses(s: Store, place: string -> string, to: string, first: seq<Key>, second: seq<Key>, n: Name)
    requires s.setting != to && place(s.setting) == place(to) && s.budget > |first| + |second|
    requires (forall k :: k in first ==> k in s.files) && IsRecord(s, place(to), n) && (place(to), n) in second
    requires LastCopy(s.files, place(to), first, n) == None
    ensures (place(to), n) !in Migrate(s, place, to, first, second).files
  {
    Uninterrupted(s, place, to, first, second, (place(to), n));
  }

  // ---- failing inputs, with different places throughout

  /** No symbolic links. */
  function Itself(): string -> string { d => d }

  const NAME := ForItem("1")
  const RECORD := Record("1", "x")

  /** The first listing cannot be read and is empty, the second can: the only copy of the record is removed. */
  lemma {:induction false} UnreadableListingLoses()
    ensures var s := Store(map[("/d/a", NAME) := RECORD], "/d/a", 9);
            var m := Migrate(s, Itself(), "/d/b", [], [("/d/a", NAME)]);
            m.setting == "/d/b" && m.files == map[]
  {
    var s := Store(map[("/d/a", NAME) := RECORD], "/d/a", 9);
    assert "/d/a"[3] != "/d/b"[3];
    forall k
      ensures k !in Migrate(s, Itself(), "/d/b", [], [("/d/a", NAME)]).files
    {
      Uninterrupted(s, Itself(), "/d/b", [], [("/d/a", NAME)], k);
    }
    Uninterrupted(s, Itself(), "/d/b", [], [("/d/a", NAME)], ("/d/b", NAME));
  }

  /** A directory named [x], read as a pattern, lists nothing: the setting moves on and the record stays behind. */
  lemma {:induction false} PatternListsNothing()
    ensures var s := Store(map[("/d/[x]", NAME) := RECORD], "/d/[x]", 9);
            var m := Migrate(s, Itself(), "/d/b", [], []);
            m.setting == "/d/b" && m.files == s.files && !Holds(m.files, "/d/b", s, "/d/[x]")
  {
    var s := Store(map[("/d/[x]", NAME) := RECORD], "/d/[x]", 9);
    assert IsRecord(s, "/d/[x]", NAME);
    assert |"/d/b"| != |"/d/[x]"|;
    assert Find(s.files, ("/d/b", NAME)) == None;
  }

  /** A directory named *, read as a pattern, lists its neighbours too: the second loop removes the copy as well. */
  lemma {:induction false} PatternListsNeighbours()
    ensures var s := Store(map[("/d/*", NAME) := RECORD], "/d/*", 9);
            var m := Migrate(s, Itself(), "/d/b", [("/d/*", NAME)], [("/d/*", NAME), ("/d/b", NAME)]);
            m.setting == "/d/b" && m.files == map[]
  {
    var s := Store(map[("/d/*", NAME) := RECORD], "/d/*", 9);
    var first, second := [("/d/*", NAME)], [("/d/*", NAME), ("/d/b", NAME)];
    assert "/d/*"[3] != "/d/b"[3];
    var m := Migrate(s, Itself(), "/d/b", first, second);
    forall k
      ensures k !in m.files
    {
      Uninterrupted(s, Itself(), "/d/b", first, second, k);
      LastCopyListed(s.files, "/d/*", "/d/b", first, NAME);
      if k.1 != NAME { OtherNames(s.files, "/d/b", first, k.1); }
    }
    Uninterrupted(s, Itself(), "/d/b", first, second, ("/d/b", NAME));
  }

  lemma {:induction false} OtherNames(files: Files, to: string, keys: seq<Key>, n: Name)
    requires forall k :: k in keys ==> k.1 != n
    ensures LastCopy(files, to, keys, n) == None
  {
    if keys != [] { OtherNames(files, to, keys[1..], n); }
  }
}
