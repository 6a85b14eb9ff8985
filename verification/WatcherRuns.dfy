/** Runs of the watcher: no recorded change is lost, one scan per library, and none before its time. */
module WatcherRuns {
  import opened Paths
  import opened Leaves
  import opened Watcher

  datatype Action =
    | Event(n: Notice)
    | Done(lib: string)
    | Tick(enabled: bool, delay: int)
    | Error
    | Sync(enabled: bool, libraries: map<string, string>, trees: set<string>)

  /** last: when a library last had an event or an error. scans: the libraries of the scans still running. */
  datatype State = State(s: Loop, last: map<string, int>, scans: multiset<string>)

  predicate Enabled(st: State, a: Action) { a.Done? ==> st.scans[a.lib] > 0 }

  function Touched(st: State, libs: set<string>, now: int): map<string, int> {
    map lib | lib in st.last.Keys + libs :: if lib in libs then now else st.last[lib]
  }

  function Next(st: State, a: Action, now: int): State {
    match a
    case Event(n) =>
      st.(s := Noticed(st.s, n, now), last := if n.relevant then Touched(st, Hit(st.s.roots, n), now) else st.last)
    case Done(lib) => st.(s := st.s.(running := st.s.running - {lib}), scans := st.scans - multiset{lib})
    case Tick(enabled, delay) =>
      st.(s := Ticked(st.s, enabled, now, delay),
          scans := if enabled then st.scans + multiset(DueLibs(st.s, now, delay)) else st.scans)
    case Error => st.(s := Failed(st.s, now), last := Touched(st, LibsOf(st.s.roots), now))
    case Sync(enabled, libraries, trees) => st.(s := Synced(st.s, enabled, libraries, trees))
  }

  function Launched(st: State, a: Action, now: int): set<Launch> {
    if a.Tick? then Launches(st.s, a.enabled, now, a.delay) else {}
  }

  // ---- what every state keeps

  ghost predicate Inv(st: State) {
    && (forall lib :: st.s.Changed(lib) != {} ==> lib in st.s.pending)
    && (forall lib :: lib in st.s.pending ==> lib in st.last && st.s.pending[lib] == st.last[lib])
    && (forall lib :: st.scans[lib] == if lib in st.s.running then 1 else 0)
  }

  lemma {:induction false} EventKeeps(st: State, n: Notice, now: int)
    requires Inv(st)
    ensures Inv(Next(st, Event(n), now))
  {
    hide Recorded, Hit, Target, Under;
  }

  lemma {:induction false} TickKeeps(st: State, enabled: bool, delay: int, now: int)
    requires Inv(st)
    ensures Inv(Next(st, Tick(enabled, delay), now))
  {
    var t := Next(st, Tick(enabled, delay), now);
    forall lib
      ensures t.s.Changed(lib) != {} ==> lib in t.s.pending
      ensures t.scans[lib] == if lib in t.s.running then 1 else 0
    {
      assert enabled ==> t.scans[lib] == st.scans[lib] + multiset(DueLibs(st.s, now, delay))[lib];
    }
  }

  lemma {:induction false} StepKeeps(st: State, a: Action, now: int)
    requires Inv(st) && Enabled(st, a)
    ensures Inv(Next(st, a, now))
  {
    match a
    case Event(n) => EventKeeps(st, n, now);
    case Tick(enabled, delay) => TickKeeps(st, enabled, delay, now);
    case Done(_) =>
    case Error =>
    case Sync(_, _, _) =>
  }

  /** A launched scan is its library's only one, and comes no sooner than the delay after the library's last event. */
  lemma {:induction false} LaunchInTime(st: State, a: Action, now: int, l: Launch)
    requires Inv(st) && l in Launched(st, a, now)
    ensures a.Tick? && a.enabled && l.at == now
    ensures l.lib in st.last && now - st.last[l.lib] >= a.delay
    ensures st.scans[l.lib] == 0 && Next(st, a, now).scans[l.lib] == 1
    ensures l.scopes == Scopes(st.s.Changed(l.lib))
  {
    hide Scopes;
    StepKeeps(st, a, now);
  }

  /** A library whose time has come is launched by the next tick, with nothing recorded as a whole scan. */
  lemma {:induction false} DueIsLaunched(st: State, lib: string, delay: int, now: int)
    requires lib in st.s.pending && lib !in st.s.running && now - st.s.pending[lib] >= delay
    ensures Launch(lib, Scopes(st.s.Changed(lib)), now) in Launched(st, Tick(true, delay), now)
    ensures Scopes(st.s.Changed(lib)) == {} <==> st.s.Changed(lib) == {}
  {
    NoScopesMeansNothing(st.s.Changed(lib));
    hide Scopes;
    assert lib in DueLibs(st.s, now, delay);
  }

  /** The watcher before its first look at the libraries. */
  const INIT := State(Watcher.Loop(map[], {}, map[], map[], {}), map[], multiset{})

  lemma {:induction false} InitInv()
    ensures Inv(INIT)
  {
  }

  // ---- runs

  /** Actions with the clock reading of each. */
  type Actions = seq<(Action, int)>

  predicate Legal(st: State, actions: Actions)
    decreases |actions|
  {
    actions == [] || (Enabled(st, actions[0].0) && Legal(Next(st, actions[0].0, actions[0].1), actions[1..]))
  }

  function Run(st: State, actions: Actions): State
    decreases |actions|
  {
    if actions == [] then st else Run(Next(st, actions[0].0, actions[0].1), actions[1..])
  }

  function AllLaunches(st: State, actions: Actions): set<Launch>
    decreases |actions|
  {
    if actions == [] then {}
    else Launched(st, actions[0].0, actions[0].1) + AllLaunches(Next(st, actions[0].0, actions[0].1), actions[1..])
  }

  /** No watcher error, and watching stays switched on. */
  predicate Calm(actions: Actions) {
    forall i :: 0 <= i < |actions| ==>
      !actions[i].0.Error? && (actions[i].0.Tick? ==> actions[i].0.enabled) && (actions[i].0.Sync? ==> actions[i].0.enabled)
  }

  ghost predicate Covered(launches: set<Launch>, lib: string, p: string) {
    exists l, scope :: l in launches && l.lib == lib && scope in l.scopes && Under(p, scope)
  }

  lemma {:induction false} StepLosesNothing(st: State, a: Action, now: int, lib: string, p: string)
    requires p in st.s.Changed(lib) && Inv(st)
    requires !a.Error? && (a.Tick? ==> a.enabled) && (a.Sync? ==> a.enabled)
    ensures p in Next(st, a, now).s.Changed(lib) || Covered(Launched(st, a, now), lib, p)
  {
    if a.Tick? && lib in DueLibs(st.s, now, a.delay) {
      var scope := ScopesCover(st.s.Changed(lib), p);
      var l := Launch(lib, Scopes(st.s.Changed(lib)), now);
      hide Scopes;
      assert l in Launched(st, a, now);
    } else {
      hide Scopes, Recorded, Hit, Under;
    }
  }

  lemma {:induction false} CoveredMore(a: set<Launch>, b: set<Launch>, lib: string, p: string)
    requires Covered(a, lib, p) || Covered(b, lib, p)
    ensures Covered(a + b, lib, p)
  {
    var l, scope :| (l in a || l in b) && l.lib == lib && scope in l.scopes && Under(p, scope);
    assert l in a + b;
  }

  /** Between errors and switch-offs every recorded change is still recorded or lies under a launched scope of its library. */
  lemma {:induction false} NothingLost(st: State, actions: Actions, lib: string, p: string)
    requires Inv(st) && Legal(st, actions) && Calm(actions) && p in st.s.Changed(lib)
    ensures p in Run(st, actions).s.Changed(lib) || Covered(AllLaunches(st, actions), lib, p)
    ensures Inv(Run(st, actions))
    decreases |actions|
  {
    hide Inv, Next, Launched, Covered, Enabled;
    if actions != [] {
      var a, now := actions[0].0, actions[0].1;
      StepKeeps(st, a, now);
      StepLosesNothing(st, a, now, lib, p);
      if p in Next(st, a, now).s.Changed(lib) {
        NothingLost(Next(st, a, now), actions[1..], lib, p);
      } else {
        RunInv(Next(st, a, now), actions[1..]);
      }
      if Covered(Launched(st, a, now), lib, p) || Covered(AllLaunches(Next(st, a, now), actions[1..]), lib, p) {
        CoveredMore(Launched(st, a, now), AllLaunches(Next(st, a, now), actions[1..]), lib, p);
      }
    }
  }

  lemma {:induction false} RunInv(st: State, actions: Actions)
    requires Inv(st) && Legal(st, actions)
    ensures Inv(Run(st, actions))
    decreases |actions|
  {
    hide Inv, Next, Enabled;
    if actions != [] {
      StepKeeps(st, actions[0].0, actions[0].1);
      RunInv(Next(st, actions[0].0, actions[0].1), actions[1..]);
    }
  }

  /** Whatever events, errors, ticks, ends of scans and changes of the libraries have come since the start, a
      library with recorded changes is pending, and one scan at most runs per library. */
  lemma {:induction false} EveryReachableState(actions: Actions)
    requires Legal(INIT, actions)
    ensures Inv(Run(INIT, actions))
  {
    InitInv();
    RunInv(INIT, actions);
  }

  /** What an event records covers the path it is about, whenever it lies strictly below a root. */
  lemma {:induction false} EventRecorded(st: State, n: Notice, now: int, root: string)
    requires n.relevant && root in st.s.roots && Below(n.name, root) && |root| > 0
    ensures var t := Next(st, Event(n), now).s;
            var target := Target(st.s.watched, n);
            && Under(n.name, target) && target in t.Changed(st.s.roots[root])
            && st.s.roots[root] in t.pending && t.pending[st.s.roots[root]] == now
  {
    hide IsStrm;
    DirIsNearest(n.name, root);
    assert st.s.roots[root] in Hit(st.s.roots, n);
    assert Recorded(st.s.(roots := st.s.roots), n, st.s.roots[root]) == {Target(st.s.watched, n)};
  }

  // ---- after an error

  /** An error forgets what was recorded. If nothing more is recorded the library gets a whole scan; but one
      further event makes the next launch a scan of that event's target only, and an earlier change is then
      covered if and only if it lies under that target. */
  lemma {:induction false} ErrorThenEvent(st: State, n: Notice, t0: int, t1: int, t2: int, delay: int, root: string, p: string)
    requires Inv(st) && n.relevant && root in st.s.roots && Below(n.name, root) && |root| > 0
    requires forall r :: r in st.s.roots && r != root ==> !Under(n.name, r)
    requires st.s.roots[root] !in st.s.running && t2 - t1 >= delay
    ensures var lib := st.s.roots[root];
            var e := Next(st, Error, t0);
            && e.s.Changed(lib) == {} && lib in e.s.pending
            && var s := Next(e, Event(n), t1);
               var target := Target(st.s.watched, n);
               && Launch(lib, {target}, t2) in Launched(s, Tick(true, delay), t2)
               && (Covered({Launch(lib, {target}, t2)}, lib, p) <==> Under(p, target))
  {
    var lib := st.s.roots[root];
    var e := Next(st, Error, t0);
    StepKeeps(st, Error, t0);
    EventRecorded(e, n, t1, root);
    var s := Next(e, Event(n), t1);
    var target := Target(st.s.watched, n);
    assert s.s.Changed(lib) == {target};
    OneScope(target);
    DueIsLaunched(s, lib, delay, t2);
    assert Under(p, target) ==> Covered({Launch(lib, {target}, t2)}, lib, p) by {
      if Under(p, target) {
        var l := Launch(lib, {target}, t2);
        assert l in {l} && l.lib == lib && target in l.scopes;
      }
    }
  }

  lemma {:induction false} OneScope(target: string)
    ensures Scopes({target}) == {target}
  {
  }
}
