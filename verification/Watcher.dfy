/** The file watcher: debounced changes per library, reduced to scan scopes. */
module Watcher {
  import opened Paths
  import opened Leaves

  /** A file system notification. tree holds the directories found at and below a created directory. */
  datatype Notice = Notice(name: string, relevant: bool, created: bool, gone: bool, isDir: bool, tree: set<string>)

  /** roots maps each root directory to its library. A missing key of changes reads as the empty set. */
  datatype Loop = Loop(roots: map<string, string>, watched: set<string>, pending: map<string, int>,
                       changes: map<string, set<string>>, running: set<string>)
  {
    function Changed(lib: string): set<string> { if lib in changes then changes[lib] else {} }
  }

  /** A scan the loop starts: no scopes means the whole library. */
  datatype Launch = Launch(lib: string, scopes: set<string>, at: int)

  // ---- scopes

  /** The paths that have no other changed path above them. */
  function Scopes(changed: set<string>): set<string> {
    set p | p in changed && !exists q :: q in changed && q != p && Below(p, q)
  }

  method ReduceScopes(changed: set<string>) returns (scopes: seq<string>)
    ensures forall p :: p in scopes <==> p in Scopes(changed)
    ensures forall i, j :: 0 <= i < j < |scopes| ==> scopes[i] != scopes[j]
  {
    scopes := [];
    var todo := changed;
    while todo != {}
      invariant todo <= changed
      invariant forall p :: p in scopes <==> p in Scopes(changed) && p !in todo
      invariant forall i, j :: 0 <= i < j < |scopes| ==> scopes[i] != scopes[j]
      decreases todo
    {
      var path :| path in todo;
      var covered := false;
      var others := changed;
      while others != {} && !covered
        invariant others <= changed
        invariant covered ==> exists q :: q in changed && q != path && Below(path, q)
        invariant !covered ==> forall q :: q in changed && q !in others ==> !(q != path && Below(path, q))
        decreases others
      {
        var other :| other in others;
        if other != path && Below(path, other) { covered := true; }
        others := others - {other};
      }
      if !covered { scopes := scopes + [path]; }
      todo := todo - {path};
    }
  }

  /** No launched scope lies at or below another. */
  lemma {:induction false} ScopesUnnested(changed: set<string>, p: string, q: string)
    requires p in Scopes(changed) && q in Scopes(changed) && Under(p, q)
    ensures p == q
  {
  }

  /** Every changed path lies at or below a launched scope. */
  lemma {:induction false} ScopesCover(changed: set<string>, p: string) returns (s: string)
    requires p in changed
    ensures s in Scopes(changed) && Under(p, s)
    decreases |p|
  {
    if q :| q in changed && q != p && Below(p, q) {
      s := ScopesCover(changed, q);
      UnderTransitive(p, q, s);
    } else {
      s := p;
    }
  }

  /** The launched scopes are recorded paths, and no other recorded paths would do: they are the only ones that cover
      all of them without lying below each other. */
  lemma {:induction false} ScopesUnique(changed: set<string>, paths: set<string>)
    ensures Scopes(changed) <= changed
    ensures paths <= changed
            && (forall p, q :: p in paths && q in paths && Under(p, q) ==> p == q)
            && (forall p :: p in changed ==> exists q :: q in paths && Under(p, q))
            ==> paths == Scopes(changed)
  {
    if && paths <= changed
       && (forall p, q :: p in paths && q in paths && Under(p, q) ==> p == q)
       && (forall p :: p in changed ==> exists q :: q in paths && Under(p, q)) {
      forall p | p in paths
        ensures p in Scopes(changed)
      {
        if q :| q in changed && q != p && Below(p, q) {
          var r :| r in paths && Under(q, r);
          UnderTransitive(p, q, r);
        }
      }
    }
  }

  lemma {:induction false} NoScopesMeansNothing(changed: set<string>)
    ensures Scopes(changed) == {} <==> changed == {}
  {
    if p :| p in changed { var s := ScopesCover(changed, p); }
  }

  // ---- notifications

  /** What a notification marks for scanning: the path itself when it is a .strm file or a directory, else its directory. */
  function Target(watched: set<string>, n: Notice): string {
    if IsStrm(n.name) || n.name in watched || n.isDir then n.name else Dir(n.name)
  }

  function Hit(roots: map<string, string>, n: Notice): set<string> {
    set r | r in roots && Under(n.name, r) :: roots[r]
  }

  /** The target as recorded for a library: only when it lies in the root that was hit. */
  function Recorded(s: Loop, n: Notice, lib: string): set<string> {
    if exists r :: r in s.roots && s.roots[r] == lib && Under(n.name, r) && Under(Target(s.watched, n), r)
    then {Target(s.watched, n)} else {}
  }

  /** The pending libraries, those that were hit with the present time. */
  function Stamped(s: Loop, hit: set<string>, now: int): map<string, int> {
    map lib | lib in s.pending.Keys + hit :: if lib in hit then now else s.pending[lib]
  }

  lemma {:induction false} PendingStep(s: Loop, hit: set<string>, lib: string, now: int)
    ensures Stamped(s, hit + {lib}, now) == Stamped(s, hit, now)[lib := now]
  {
  }

  function RecordedBy(s: Loop, seen: map<string, string>, n: Notice): string -> set<string> {
    lib => Recorded(s.(roots := seen), n, lib)
  }

  /** The recorded changes with more of them for the libraries that were hit. */
  function Merge(s: Loop, hit: set<string>, more: string -> set<string>): map<string, set<string>> {
    map lib | lib in s.changes.Keys + hit :: if lib in hit then s.Changed(lib) + more(lib) else s.changes[lib]
  }

  lemma {:induction false} MergeStep(s: Loop, hit: set<string>, f: string -> set<string>, g: string -> set<string>, lib: string, add: set<string>)
    requires forall l :: g(l) == f(l) + if l == lib then add else {}
    requires lib !in hit ==> f(lib) == {}
    ensures var m := Merge(s, hit, f);
            Merge(s, hit + {lib}, g) == m[lib := (if lib in m then m[lib] else {}) + add]
  {
    var m := Merge(s, hit, f);
    var a, b := Merge(s, hit + {lib}, g), m[lib := (if lib in m then m[lib] else {}) + add];
    hide Merge;
    forall l
      ensures (l in a <==> l in b) && (l in a ==> a[l] == b[l])
    {
      MergeAt(s, hit, f, l);
      MergeAt(s, hit + {lib}, g, l);
      assert g(l) == f(l) + if l == lib then add else {};
    }
  }

  lemma {:induction false} MergeAt(s: Loop, hit: set<string>, more: string -> set<string>, l: string)
    ensures var m := Merge(s, hit, more);
            && (l in m <==> l in s.changes || l in hit)
            && (l in m ==> m[l] == if l in hit then s.Changed(l) + more(l) else s.changes[l])
  {
  }

  lemma {:induction false} MergeSame(s: Loop, hit: set<string>, f: string -> set<string>, g: string -> set<string>)
    requires forall l :: g(l) == f(l)
    ensures Merge(s, hit, g) == Merge(s, hit, f)
  {
  }

  /** The loop over roots, once it has dealt with the roots in seen. */
  function Part(s: Loop, seen: map<string, string>, n: Notice, now: int): Loop {
    var hit := Hit(seen, n);
    Loop(s.roots, if n.created && n.isDir && hit != {} then s.watched + n.tree else s.watched,
         Stamped(s, hit, now),
         Merge(s, hit, RecordedBy(s, seen, n)),
         s.running)
  }

  function Noticed(s: Loop, n: Notice, now: int): Loop {
    if !n.relevant then s
    else
      var t := Part(s, s.roots, n, now);
      t.(watched := if n.gone then set p | p in t.watched && !Under(p, n.name) else t.watched)
  }

  /** One root that the path lies under. */
  function AtRoot(t: Loop, root: string, lib: string, target: string, n: Notice, now: int): Loop {
    t.(pending := t.pending[lib := now],
       changes := t.changes[lib := t.Changed(lib) + if Under(target, root) then {target} else {}],
       watched := if n.created && n.isDir then t.watched + n.tree else t.watched)
  }

  lemma {:induction false} HitStep(seen: map<string, string>, root: string, lib: string, n: Notice)
    requires root !in seen
    ensures Hit(seen[root := lib], n) == Hit(seen, n) + if Under(n.name, root) then {lib} else {}
  {
    var more := seen[root := lib];
    forall l | l in Hit(seen, n)
      ensures l in Hit(more, n)
    {
      var r :| r in seen && Under(n.name, r) && seen[r] == l;
      assert more[r] == l;
    }
    if Under(n.name, root) { assert more[root] == lib; }
  }

  lemma {:induction false} RecordedStep(s: Loop, seen: map<string, string>, root: string, lib: string, n: Notice, l: string)
    requires root !in seen
    ensures Recorded(s.(roots := seen[root := lib]), n, l)
         == Recorded(s.(roots := seen), n, l)
          + if l == lib && Under(n.name, root) && Under(Target(s.watched, n), root) then {Target(s.watched, n)} else {}
  {
    var more := seen[root := lib];
    if r :| r in seen && seen[r] == l && Under(n.name, r) && Under(Target(s.watched, n), r) { assert more[r] == l; }
    assert more[root] == lib;
  }

  lemma {:induction false} PartStep(s: Loop, seen: map<string, string>, root: string, lib: string, n: Notice, now: int)
    requires root !in seen
    ensures Part(s, seen[root := lib], n, now)
         == if Under(n.name, root) then AtRoot(Part(s, seen, n, now), root, lib, Target(s.watched, n), n, now) else Part(s, seen, n, now)
  {
    hide Hit, Recorded, Target, Under, Merge, RecordedBy, Stamped;
    HitStep(seen, root, lib, n);
    RecordedByStep(s, seen, root, lib, n);
    var hit, f, g := Hit(seen, n), RecordedBy(s, seen, n), RecordedBy(s, seen[root := lib], n);
    if Under(n.name, root) {
      MergeStep(s, hit, f, g, lib, if Under(Target(s.watched, n), root) then {Target(s.watched, n)} else {});
      PendingStep(s, hit, lib, now);
      assert Hit(seen[root := lib], n) == hit + {lib};
    } else {
      MergeSame(s, hit, f, g);
      assert Hit(seen[root := lib], n) == hit;
    }
  }

  lemma {:induction false} RecordedByStep(s: Loop, seen: map<string, string>, root: string, lib: string, n: Notice)
    requires root !in seen
    ensures var add := if Under(n.name, root) && Under(Target(s.watched, n), root) then {Target(s.watched, n)} else {};
            forall l :: RecordedBy(s, seen[root := lib], n)(l) == RecordedBy(s, seen, n)(l) + if l == lib then add else {}
    ensures lib !in Hit(seen, n) ==> RecordedBy(s, seen, n)(lib) == {}
  {
    hide Hit, Recorded, Target, Under;
    forall l: string
      ensures Recorded(s.(roots := seen[root := lib]), n, l)
           == Recorded(s.(roots := seen), n, l)
            + if l == lib && Under(n.name, root) && Under(Target(s.watched, n), root) then {Target(s.watched, n)} else {}
    {
      RecordedStep(s, seen, root, lib, n, l);
    }
    if lib !in Hit(seen, n) { NothingHit(s, seen, n, lib); }
  }

  lemma {:induction false} PartStart(s: Loop, n: Notice, now: int)
    ensures Part(s, map[], n, now) == s
  {
    assert Hit(map[], n) == {};
    var t := Part(s, map[], n, now);
    assert t.pending == s.pending && t.changes == s.changes;
  }

  lemma {:induction false} NothingHit(s: Loop, seen: map<string, string>, n: Notice, lib: string)
    requires lib !in Hit(seen, n)
    ensures Recorded(s.(roots := seen), n, lib) == {}
  {
    assert forall r :: r in seen && Under(n.name, r) ==> seen[r] in Hit(seen, n);
  }

  // ---- ticks

  predicate Due(s: Loop, lib: string, now: int, delay: int) {
    lib in s.pending && lib !in s.running && now - s.pending[lib] >= delay
  }

  function DueLibs(s: Loop, now: int, delay: int): set<string> {
    set lib | lib in s.pending && Due(s, lib, now, delay)
  }

  function Cleared(s: Loop): Loop { s.(pending := map[], changes := map[]) }

  function Ticked(s: Loop, enabled: bool, now: int, delay: int): Loop {
    if !enabled then Cleared(s)
    else
      s.(pending := s.pending - DueLibs(s, now, delay), changes := s.changes - DueLibs(s, now, delay),
         running := s.running + DueLibs(s, now, delay))
  }

  function Launches(s: Loop, enabled: bool, now: int, delay: int): set<Launch> {
    if enabled then LaunchesOf(s, DueLibs(s, now, delay), now) else {}
  }

  function LaunchesOf(s: Loop, libs: set<string>, now: int): set<Launch> {
    set lib | lib in libs :: Launch(lib, Scopes(s.Changed(lib)), now)
  }

  lemma {:induction false} DueStart(s: Loop, now: int, delay: int)
    ensures DueLibs(s, now, delay) - s.pending.Keys == {} && LaunchesOf(s, {}, now) == {}
  {
  }

  lemma {:induction false} DueStep(s: Loop, todo: set<string>, lib: string, now: int, delay: int)
    requires lib in todo && lib in s.pending
    ensures var d := DueLibs(s, now, delay); d - (todo - {lib}) == if Due(s, lib, now, delay) then (d - todo) + {lib} else d - todo
  {
  }

  lemma {:induction false} LaunchOne(s: Loop, libs: set<string>, lib: string, now: int)
    ensures LaunchesOf(s, libs + {lib}, now) == LaunchesOf(s, libs, now) + {Launch(lib, Scopes(s.Changed(lib)), now)}
  {
    forall x | x in libs + {lib}
      ensures Launch(x, Scopes(s.Changed(x)), now) in LaunchesOf(s, libs, now) + {Launch(lib, Scopes(s.Changed(lib)), now)}
    {
      if x in libs { assert Launch(x, Scopes(s.Changed(x)), now) in LaunchesOf(s, libs, now); }
    }
    hide Scopes;
  }

  /** A watcher error: every library is due for a scan, and what was recorded is forgotten. */
  function Failed(s: Loop, now: int): Loop {
    FailedFor(s, LibsOf(s.roots), now)
  }

  lemma {:induction false} FailedAll(s: Loop, now: int)
    ensures Failed(s, now) == FailedFor(s, LibsOf(s.roots), now)
    ensures FailedFor(s, LibsOf(map[]), now) == s
  {
    assert LibsOf(map[]) == {};
    var t := FailedFor(s, {}, now);
    assert t.pending == s.pending && t.changes == s.changes;
  }

  function LibsOf(roots: map<string, string>): set<string> {
    set r | r in roots :: roots[r]
  }

  lemma {:induction false} LibsStep(seen: map<string, string>, root: string, lib: string)
    requires root !in seen
    ensures LibsOf(seen[root := lib]) == LibsOf(seen) + {lib}
  {
    var more := seen[root := lib];
    forall l | l in LibsOf(seen)
      ensures l in LibsOf(more)
    {
      var r :| r in seen && seen[r] == l;
      assert more[r] == l;
    }
    assert more[root] == lib;
  }

  function FailedFor(s: Loop, libs: set<string>, now: int): Loop {
    s.(pending := Stamped(s, libs, now),
       changes := map lib | lib in s.changes.Keys + libs :: if lib in libs then {} else s.changes[lib])
  }

  lemma {:induction false} FailedStep(s: Loop, libs: set<string>, lib: string, now: int)
    ensures var t := FailedFor(s, libs, now);
            FailedFor(s, libs + {lib}, now) == t.(pending := t.pending[lib := now], changes := t.changes[lib := {}])
  {
    PendingStep(s, libs, lib, now);
  }

  /** The periodic look at the library list; trees holds the directories below roots that are new. */
  function Synced(s: Loop, enabled: bool, libraries: map<string, string>, trees: set<string>): Loop {
    var next := if enabled then libraries else map[];
    var t := if enabled then s else Cleared(s);
    t.(roots := next, watched := set p | p in s.watched + trees && exists r :: r in next && Under(p, r))
  }

  class EventLoop {
    var roots: map<string, string>
    var watched: set<string>
    var pending: map<string, int>
    var changes: map<string, set<string>>
    var running: set<string>

    function S(): Loop
      reads this
    {
      Loop(roots, watched, pending, changes, running)
    }

    constructor (roots: map<string, string>, watched: set<string>)
      ensures S() == Loop(roots, watched, map[], map[], {})
    {
      this.roots, this.watched, pending, changes, running := roots, watched, map[], map[], {};
    }

    method OnNotice(n: Notice, now: int)
      modifies this
      ensures S() == Noticed(old(S()), n, now)
    {
      hide Part, Hit, Recorded, Target, Under, AtRoot;
      if !n.relevant { return; }
      ghost var s := S();
      var todo := roots;
      ghost var seen: map<string, string> := map[];
      PartStart(s, n, now);
      while todo != map[]
        invariant S() == Part(s, seen, n, now)
        invariant Target(watched, n) == Target(s.watched, n)
        invariant seen.Keys !! todo.Keys && seen + todo == s.roots
        decreases todo.Keys
      {
        var root :| root in todo;
        var lib := todo[root];
        PartStep(s, seen, root, lib, n, now);
        if Under(n.name, root) { NoticeRoot(root, lib, n, now); }
        seen := seen[root := lib];
        todo := todo - {root};
      }
      assert seen == s.roots;
      if n.gone { watched := set p | p in watched && !Under(p, n.name); }
    }

    method NoticeRoot(root: string, lib: string, n: Notice, now: int)
      modifies this
      ensures S() == AtRoot(old(S()), root, lib, Target(old(watched), n), n, now)
      ensures Target(watched, n) == Target(old(watched), n)
    {
      hide Under, Dir, IsStrm;
      ghost var s := S();
      pending := pending[lib := now];
      if lib !in changes { changes := changes[lib := {}]; }
      var target := Dir(n.name);
      if IsStrm(n.name) { target := n.name; }
      if n.name in watched {
        target := n.name;
      } else if n.isDir {
        target := n.name;
      }
      assert changes[lib] == s.Changed(lib) && changes[lib] + {} == changes[lib];
      if Under(target, root) { changes := changes[lib := changes[lib] + {target}]; }
      assert changes == s.changes[lib := s.Changed(lib) + if Under(target, root) then {target} else {}];
      if n.created && n.isDir { watched := watched + n.tree; }
    }

    method OnTick(enabled: bool, now: int, delay: int) returns (launched: set<Launch>)
      modifies this
      ensures S() == Ticked(old(S()), enabled, now, delay)
      ensures launched == Launches(old(S()), enabled, now, delay)
    {
      launched := {};
      if !enabled {
        pending, changes := map[], map[];
        return;
      }
      hide LaunchesOf, Scopes, DueLibs;
      ghost var s := S();
      ghost var due: set<string> := {};
      var todo := pending.Keys;
      DueStart(s, now, delay);
      while todo != {}
        invariant todo <= s.pending.Keys && roots == s.roots && watched == s.watched
        invariant due == DueLibs(s, now, delay) - todo
        invariant pending == s.pending - due && changes == s.changes - due && running == s.running + due
        invariant launched == LaunchesOf(s, due, now)
        decreases todo
      {
        var lib :| lib in todo;
        DueStep(s, todo, lib, now, delay);
        if lib !in running && now - pending[lib] >= delay {
          pending := pending - {lib};
          running := running + {lib};
          var scopes := ReduceScopes(if lib in changes then changes[lib] else {});
          assert (set p | p in scopes) == Scopes(s.Changed(lib));
          LaunchOne(s, due, lib, now);
          changes := changes - {lib};
          launched := launched + {Launch(lib, (set p | p in scopes), now)};
          due := due + {lib};
        }
        todo := todo - {lib};
      }
    }

    method OnDone(lib: string)
      modifies this`running
      ensures S() == old(S()).(running := old(running) - {lib})
    {
      running := running - {lib};
    }

    method Forget(lib: string, now: int)
      modifies this`pending, this`changes
      ensures S() == old(S()).(pending := old(pending)[lib := now], changes := old(changes)[lib := {}])
    {
      pending := pending[lib := now];
      changes := changes[lib := {}];
    }

    method OnError(now: int)
      modifies this
      ensures S() == Failed(old(S()), now)
    {
      hide FailedFor, LibsOf, Failed, Stamped;
      ghost var s := S();
      var todo := roots;
      ghost var seen: map<string, string> := map[];
      FailedAll(s, now);
      while todo != map[]
        invariant roots == s.roots && S() == FailedFor(s, LibsOf(seen), now)
        invariant seen.Keys !! todo.Keys && seen + todo == s.roots
        decreases todo.Keys
      {
        var root :| root in todo;
        FailedStep(s, LibsOf(seen), todo[root], now);
        LibsStep(seen, root, todo[root]);
        Forget(todo[root], now);
        seen := seen[root := todo[root]];
        todo := todo - {root};
      }
      assert seen == s.roots;
    }

    /** Takes over the library list and stops watching what no root covers any more. */
    method SyncRoots(enabled: bool, libraries: map<string, string>, trees: set<string>)
      modifies this
      ensures S() == Synced(old(S()), enabled, libraries, trees)
      ensures roots == if enabled then libraries else map[]
      ensures forall d :: d in watched <==> (d in old(watched) || d in trees) && exists r :: r in roots && Under(d, r)
    {
      var next := libraries;
      if !enabled {
        next := map[];
        pending, changes := map[], map[];
      }
      watched := watched + trees;
      ghost var all := watched;
      var todo := watched;
      while todo != {}
        invariant todo <= watched
        invariant pending == (if enabled then old(pending) else map[]) && changes == (if enabled then old(changes) else map[])
        invariant running == old(running)
        invariant watched == set p | p in all && (p in todo || exists r :: r in next && Under(p, r))
        decreases todo
      {
        var p :| p in todo;
        var keep := false;
        var left := next.Keys;
        while left != {} && !keep
          invariant left <= next.Keys
          invariant keep ==> exists r :: r in next && Under(p, r)
          invariant !keep ==> forall r :: r in next && r !in left ==> !Under(p, r)
          decreases left
        {
          var root :| root in left;
          if Under(p, root) { keep := true; }
          left := left - {root};
        }
        if !keep { watched := watched - {p}; }
        todo := todo - {p};
      }
      roots := next;
    }
  }
}
