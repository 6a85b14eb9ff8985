/** Exactly what each step of the watcher changes, and what a look at the library list makes of later events. */
module WatcherSteps {
  import opened Basics
  import opened Paths
  import opened Leaves
  import opened Watcher
  import opened WatcherRuns

  // ---- events

  /** Some root of the library lies at or above the event's path. */
  predicate Hits(s: Loop, n: Notice, lib: string) { exists r :: r in s.roots && s.roots[r] == lib && Under(n.name, r) }

  /** A .strm file and a directory are scanned themselves, for any other file its directory is. */
  lemma {:induction false} TargetIs(watched: set<string>, n: Notice)
    ensures Target(watched, n) == if Lower(Ext(n.name)) == ".strm" || n.isDir || n.name in watched then n.name else Dir(n.name)
  {
  }

  /** The target is recorded for a library when one of its roots holds both the path and the target. */
  predicate Records(s: Loop, n: Notice, lib: string) {
    exists r :: r in s.roots && s.roots[r] == lib && Under(n.name, r) && Under(Target(s.watched, n), r)
  }

  /** An event of another kind changes nothing. Any other makes the libraries it hits pending from now on, adds its
      target to their changes, adds the tree of a directory created below a root to the watched ones, takes away
      what lies at or below a path that is gone, and changes nothing else. */
  lemma {:induction false} EventExactly(st: State, n: Notice, now: int)
    ensures !n.relevant ==> Next(st, Event(n), now).s == st.s
    ensures n.relevant ==>
              var t := Next(st, Event(n), now).s;
              && t.roots == st.s.roots && t.running == st.s.running
              && (forall lib :: lib in t.pending <==> lib in st.s.pending || Hits(st.s, n, lib))
              && (forall lib :: lib in t.pending ==> t.pending[lib] == if Hits(st.s, n, lib) then now else st.s.pending[lib])
              && (forall lib :: t.Changed(lib) == st.s.Changed(lib) + if Records(st.s, n, lib) then {Target(st.s.watched, n)} else {})
    ensures n.relevant ==>
              forall d :: d in Next(st, Event(n), now).s.watched <==>
                && (d in st.s.watched || (n.created && n.isDir && d in n.tree && exists r :: r in st.s.roots && Under(n.name, r)))
                && !(n.gone && Under(d, n.name))
  {
    if n.relevant {
      HitIs(st.s, n);
      EventChanges(st, n, now);
      hide Under, Target, Recorded, Merge;
      if exists r :: r in st.s.roots && Under(n.name, r) {
        var r :| r in st.s.roots && Under(n.name, r);
        assert st.s.roots[r] in Hit(st.s.roots, n);
      }
    }
  }

  lemma {:induction false} HitIs(s: Loop, n: Notice)
    ensures forall lib :: lib in Hit(s.roots, n) <==> Hits(s, n, lib)
  {
    hide Under;
  }

  lemma {:induction false} EventChanges(st: State, n: Notice, now: int)
    requires n.relevant
    ensures forall lib :: Next(st, Event(n), now).s.Changed(lib)
                          == st.s.Changed(lib) + if Records(st.s, n, lib) then {Target(st.s.watched, n)} else {}
  {
    var t := Next(st, Event(n), now).s;
    HitIs(st.s, n);
    forall lib
      ensures t.Changed(lib) == st.s.Changed(lib) + if Records(st.s, n, lib) then {Target(st.s.watched, n)} else {}
    {
      var more := RecordedBy(st.s, st.s.roots, n);
      MergeAt(st.s, Hit(st.s.roots, n), more, lib);
      assert st.s.(roots := st.s.roots) == st.s;
      assert more(lib) == Recorded(st.s, n, lib);
      hide Under, Target, Merge, Hit, Stamped;
      assert Recorded(st.s, n, lib) == if Records(st.s, n, lib) then {Target(st.s.watched, n)} else {};
    }
  }

  // ---- ticks, ends and errors

  /** A tick launches exactly the pending libraries that are not running and whose delay has passed, forgets what was
      recorded for them, and leaves the others; while watching is off it forgets everything and launches nothing. */
  lemma {:induction false} TickExactly(st: State, enabled: bool, delay: int, now: int)
    ensures var t, launched := Next(st, Tick(enabled, delay), now).s, Launched(st, Tick(enabled, delay), now);
            && t.roots == st.s.roots && t.watched == st.s.watched
            && (!enabled ==> t.pending == map[] && t.changes == map[] && t.running == st.s.running && launched == {})
            && (enabled ==>
                  forall lib ::
                    var due := lib in st.s.pending && lib !in st.s.running && now - st.s.pending[lib] >= delay;
                    && (lib in t.running <==> lib in st.s.running || due)
                    && (lib in t.pending <==> lib in st.s.pending && !due)
                    && (lib in t.pending ==> t.pending[lib] == st.s.pending[lib])
                    && t.Changed(lib) == (if due then {} else st.s.Changed(lib))
                    && ((exists l :: l in launched && l.lib == lib) <==> due))
  {
    hide Scopes;
    if enabled {
      forall lib
        ensures (exists l :: l in Launched(st, Tick(enabled, delay), now) && l.lib == lib) <==> lib in DueLibs(st.s, now, delay)
      {
        if lib in DueLibs(st.s, now, delay) {
          assert Launch(lib, Scopes(st.s.Changed(lib)), now) in Launched(st, Tick(enabled, delay), now);
        }
      }
    }
  }

  /** The end of a scan only makes its library launchable again. */
  lemma {:induction false} DoneExactly(st: State, lib: string, now: int)
    ensures var t := Next(st, Done(lib), now).s;
            t == st.s.(running := t.running) && forall l :: l in t.running <==> l in st.s.running && l != lib
  {
  }

  /** An error makes every library with a root pending from now on and forgets its recorded changes, and nothing else. */
  lemma {:induction false} ErrorExactly(st: State, now: int)
    ensures var t := Next(st, Error, now).s;
            && t.roots == st.s.roots && t.watched == st.s.watched && t.running == st.s.running
            && forall lib ::
                 var listed := exists r :: r in st.s.roots && st.s.roots[r] == lib;
                 && (lib in t.pending <==> lib in st.s.pending || listed)
                 && (lib in t.pending ==> t.pending[lib] == if listed then now else st.s.pending[lib])
                 && t.Changed(lib) == if listed then {} else st.s.Changed(lib)
  {
    assert forall lib :: lib in LibsOf(st.s.roots) <==> exists r :: r in st.s.roots && st.s.roots[r] == lib;
  }

  // ---- the library list

  /** After a look at the library list the roots are those listed, or none while watching is off; exactly the known and
      new directories at or below a root are watched; pending libraries and changes stay, or are all forgotten. */
  lemma {:induction false} SyncExactly(st: State, enabled: bool, libraries: map<string, string>, trees: set<string>, now: int)
    ensures var t := Next(st, Sync(enabled, libraries, trees), now).s;
            && t.roots == (if enabled then libraries else map[]) && t.running == st.s.running
            && (forall d :: d in t.watched <==> (d in st.s.watched || d in trees) && exists r :: r in t.roots && Under(d, r))
            && (if enabled then t.pending == st.s.pending && t.changes == st.s.changes else t.pending == map[] && t.changes == map[])
  {
    hide Under;
  }

  /** The roots a run ends with: those of its last look at the library list. */
  function RootsAfter(roots: map<string, string>, actions: Actions): map<string, string>
    decreases |actions|
  {
    if actions == [] then roots
    else
      var a := actions[0].0;
      RootsAfter(if a.Sync? then (if a.enabled then a.libraries else map[]) else roots, actions[1..])
  }

  lemma {:induction false} RootsOfRun(st: State, actions: Actions)
    ensures Run(st, actions).s.roots == RootsAfter(st.s.roots, actions)
    decreases |actions|
  {
    if actions != [] {
      var a, now := actions[0].0, actions[0].1;
      RootsOfStep(st, a, now);
      hide Next;
      RootsOfRun(Next(st, a, now), actions[1..]);
    }
  }

  lemma {:induction false} RootsOfStep(st: State, a: Action, now: int)
    ensures Next(st, a, now).s.roots == if a.Sync? then (if a.enabled then a.libraries else map[]) else st.s.roots
  {
    match a
    case Event(n) => EventExactly(st, n, now);
    case Tick(enabled, delay) => TickExactly(st, enabled, delay, now);
    case Done(lib) => DoneExactly(st, lib, now);
    case Error => ErrorExactly(st, now);
    case Sync(enabled, libraries, trees) => SyncExactly(st, enabled, libraries, trees, now);
  }

  /** From the start on, whatever has happened: an event strictly below a listed root makes its library pending and
      records a target that covers its path; an event below no listed root changes neither pending times nor changes. */
  lemma {:induction false} ListedRootsAreHeard(actions: Actions, n: Notice, now: int, root: string)
    requires n.relevant
    ensures var st := Run(INIT, actions);
            var roots, t := RootsAfter(map[], actions), Next(st, Event(n), now).s;
            && (root in roots && Below(n.name, root) && |root| > 0 ==>
                  && roots[root] in t.pending && t.pending[roots[root]] == now
                  && Under(n.name, Target(st.s.watched, n)) && Target(st.s.watched, n) in t.Changed(roots[root]))
            && ((forall r :: r in roots ==> !Under(n.name, r)) ==>
                  t.pending == st.s.pending && forall lib :: t.Changed(lib) == st.s.Changed(lib))
  {
    var st := Run(INIT, actions);
    RootsOfRun(INIT, actions);
    if root in st.s.roots && Below(n.name, root) && |root| > 0 { EventRecorded(st, n, now, root); }
    EventExactly(st, n, now);
    hide Run, Target, Noticed;
    if forall r :: r in st.s.roots ==> !Under(n.name, r) {
      assert forall lib :: !Hits(st.s, n, lib) && !Records(st.s, n, lib);
      assert Next(st, Event(n), now).s.pending == st.s.pending;
    }
  }
}
