/** Runs of the library scheduler: what every reachable state keeps, and that every job starts. */
module QueueRuns {
  import opened Basics
  import opened LibraryQueue

  /** live: started and not yet released; done: released. arrived counts the jobs submitted so far. */
  datatype State = State(q: Queue, live: set<Job>, done: set<Job>, arrived: nat)

  /** Limits are read from the settings at every step and may differ from step to step. */
  datatype Action = Submit(lib: string, update: bool, limits: Pair) | Finish(job: Job, limits: Pair) | Wake(limits: Pair)

  predicate GoodLimits(l: Pair) { l.scan >= 1 && l.update >= 1 }

  predicate Enabled(s: State, a: Action) {
    GoodLimits(a.limits) && (a.Finish? ==> a.job in s.live)
  }

  function Elements(jobs: seq<Job>): set<Job> { set j | j in jobs }

  function Before(s: State, a: Action): State {
    match a
    case Submit(lib, update, _) =>
      s.(q := s.q.(pending := s.q.pending + [Job(s.arrived, lib, update)]), arrived := s.arrived + 1)
    case Finish(j, _) =>
      s.(q := s.q.(active := s.q.active - {j.lib}, running := s.q.running.Plus(j.update, -1)),
         live := s.live - {j}, done := s.done + {j})
    case Wake(_) => s
  }

  function Dispatching(s: State, limits: Pair): State {
    var d := Dispatch(s.q, limits);
    s.(q := d.q, live := s.live + Elements(d.started))
  }

  function Next(s: State, a: Action): State {
    Dispatching(Before(s, a), a.limits)
  }

  /** The steps are those of the queue object: a submission is Acquire, an end is Release, a wake-up a dispatch. */
  lemma {:induction false} StepsAreCalls(s: State, a: Action)
    ensures var d := match a
                     case Submit(lib, update, limits) => Submitted(s.q, Job(s.arrived, lib, update), limits)
                     case Finish(j, limits) => Released(s.q, j, limits)
                     case Wake(limits) => Dispatch(s.q, limits);
            && Next(s, a).q == d.q
            && Next(s, a).live == (if a.Finish? then s.live - {a.job} else s.live) + Elements(d.started)
            && Next(s, a).done == (if a.Finish? then s.done + {a.job} else s.done)
            && Next(s, a).arrived == (if a.Submit? then s.arrived + 1 else s.arrived)
  {
    hide Dispatch;
  }

  const INIT := State(Queue([], {}, Pair(0, 0)), {}, {}, 0)

  // ---- the invariant

  function OfKind(jobs: set<Job>, kind: bool): set<Job> { set j | j in jobs && j.update == kind }

  function LibsOf(jobs: set<Job>): set<string> { set j | j in jobs :: j.lib }

  ghost predicate OneEach(jobs: set<Job>) {
    forall a, b :: a in jobs && b in jobs && a.lib == b.lib ==> a == b
  }

  /** Bookkeeping: every job is in one place, and active and running describe exactly the live jobs. */
  ghost predicate Books(s: State) {
    && Ordered(s.q.pending)
    && Elements(s.q.pending) !! s.live && Elements(s.q.pending) !! s.done && s.live !! s.done
    && (forall j :: j in Elements(s.q.pending) + s.live + s.done ==> j.id < s.arrived)
    && OneEach(s.live) && s.q.active == LibsOf(s.live)
    && s.q.running == Pair(|OfKind(s.live, false)|, |OfKind(s.live, true)|)
  }

  /** The oldest pending job is held back by a running job. */
  predicate HeadHeld(s: State) {
    s.q.pending == [] || s.q.pending[0].lib in s.q.active || s.q.running.Of(s.q.pending[0].update) >= 1
  }

  ghost predicate Inv(s: State) { Books(s) && HeadHeld(s) }

  // ---- started jobs

  lemma {:induction false} PickedElements(pending: seq<Job>, flags: seq<bool>)
    requires |flags| == |pending| && Ordered(pending)
    ensures Elements(Pick(pending, flags, true)) + Elements(Pick(pending, flags, false)) == Elements(pending)
    ensures Elements(Pick(pending, flags, true)) !! Elements(Pick(pending, flags, false))
  {
    var yes, no := Pick(pending, flags, true), Pick(pending, flags, false);
    forall j | j in Elements(pending)
      ensures j in Elements(yes) + Elements(no)
    {
      var n :| 0 <= n < |pending| && pending[n] == j;
      PickIn(pending, flags, flags[n], n);
    }
    forall j | j in Elements(yes) || j in Elements(no)
      ensures j in Elements(pending) && !(j in Elements(yes) && j in Elements(no))
    {
      if j in Elements(yes) {
        var n := PickFrom(pending, flags, true, j);
        if j in Elements(no) { var m := PickFrom(pending, flags, false, j); }
      } else {
        var m := PickFrom(pending, flags, false, j);
      }
    }
  }

  lemma {:induction false} JoinKinds(a: set<Job>, b: set<Job>, kind: bool)
    requires a !! b
    ensures |OfKind(a + b, kind)| == |OfKind(a, kind)| + |OfKind(b, kind)|
  {
    assert OfKind(a + b, kind) == OfKind(a, kind) + OfKind(b, kind);
  }

  lemma {:induction false} KindCount(jobs: seq<Job>, kind: bool)
    requires Ordered(jobs)
    ensures |OfKind(Elements(jobs), kind)| == CountKind(jobs, kind)
  {
    if jobs == [] {
      assert OfKind(Elements(jobs), kind) == {};
    } else {
      var j, rest := jobs[0], jobs[1..];
      KindCount(rest, kind);
      assert j !in Elements(rest);
      ConsElements(jobs);
      JoinKinds({j}, Elements(rest), kind);
      assert OfKind({j}, kind) == if j.update == kind then {j} else {};
    }
  }

  lemma {:induction false} ConsElements(jobs: seq<Job>)
    requires jobs != []
    ensures Elements(jobs) == {jobs[0]} + Elements(jobs[1..])
  {
    assert jobs == [jobs[0]] + jobs[1..];
  }

  /** The jobs one dispatch starts belong to different, idle libraries. */
  lemma {:induction false} StartedLibraries(q: Queue, limits: Pair)
    ensures var started := Dispatch(q, limits).started;
            && OneEach(Elements(started))
            && (forall j :: j in Elements(started) ==> j.lib !in q.active)
            && Libs(started) == LibsOf(Elements(started))
  {
    var flags := Flags(q, limits);
    var started := Dispatch(q, limits).started;
    forall j | j in Elements(started)
      ensures j.lib !in q.active
    {
      var n := PickFrom(q.pending, flags, true, j);
      StartsExactly(q.pending, q.active, q.running, limits, {}, n);
    }
    forall a, b | a in Elements(started) && b in Elements(started) && a.lib == b.lib
      ensures a == b
    {
      var m := PickFrom(q.pending, flags, true, a);
      var n := PickFrom(q.pending, flags, true, b);
      StartsExactly(q.pending, q.active, q.running, limits, {}, m);
      StartsExactly(q.pending, q.active, q.running, limits, {}, n);
    }
  }

  lemma {:induction false} PendingAfterDispatch(s: State, limits: Pair)
    requires Books(s)
    ensures var d := Dispatch(s.q, limits);
            && Ordered(d.q.pending) && Ordered(d.started)
            && Elements(d.started) + Elements(d.q.pending) == Elements(s.q.pending)
            && Elements(d.started) !! Elements(d.q.pending)
  {
    var flags := Flags(s.q, limits);
    PickedElements(s.q.pending, flags);
    PickOrdered(s.q.pending, flags, false);
    PickOrdered(s.q.pending, flags, true);
  }

  lemma {:induction false} LiveAfterDispatch(s: State, limits: Pair)
    requires Books(s)
    ensures var t := Dispatching(s, limits);
            && OneEach(t.live) && t.q.active == LibsOf(t.live)
            && t.q.running == Pair(|OfKind(t.live, false)|, |OfKind(t.live, true)|)
  {
    var d := Dispatch(s.q, limits);
    var begun := Elements(d.started);
    assert s.live !! begun && Ordered(d.started) by { PendingAfterDispatch(s, limits); }
    StartedLibraries(s.q, limits);
    KindCount(d.started, false);
    KindCount(d.started, true);
    hide Ordered, CountKind, Pick, Flags, Libs, Elements;
    JoinKinds(s.live, begun, false);
    JoinKinds(s.live, begun, true);
    hide OfKind;
    assert LibsOf(s.live + begun) == LibsOf(s.live) + LibsOf(begun);
  }

  lemma {:induction false} DispatchingBooks(s: State, limits: Pair)
    requires Books(s)
    ensures Books(Dispatching(s, limits))
  {
    PendingAfterDispatch(s, limits);
    LiveAfterDispatch(s, limits);
    hide Ordered, Dispatch, OneEach, OfKind, LibsOf, Elements;
  }

  lemma {:induction false} SubmitBooks(s: State, a: Action)
    requires Books(s) && a.Submit?
    ensures Books(Before(s, a))
  {
    var j := Job(s.arrived, a.lib, a.update);
    assert Elements(s.q.pending + [j]) == Elements(s.q.pending) + {j};
    assert forall i :: 0 <= i < |s.q.pending| ==> s.q.pending[i] in Elements(s.q.pending);
    hide OneEach, OfKind, LibsOf, Elements;
  }

  lemma {:induction false} WithoutOne(live: set<Job>, j: Job)
    requires j in live && OneEach(live)
    ensures OneEach(live - {j}) && LibsOf(live - {j}) == LibsOf(live) - {j.lib}
    ensures forall kind: bool :: |OfKind(live - {j}, kind)| == |OfKind(live, kind)| - (if j.update == kind then 1 else 0)
  {
    var rest := live - {j};
    assert rest + {j} == live;
    JoinKinds(rest, {j}, false);
    JoinKinds(rest, {j}, true);
    assert OfKind({j}, j.update) == {j} && OfKind({j}, !j.update) == {};
    hide OfKind;
  }

  lemma {:induction false} FinishBooks(s: State, a: Action)
    requires Books(s) && a.Finish? && a.job in s.live
    ensures Books(Before(s, a))
  {
    hide Ordered, OfKind, Elements, OneEach, LibsOf;
    WithoutOne(s.live, a.job);
  }

  lemma {:induction false} BeforeBooks(s: State, a: Action)
    requires Books(s) && Enabled(s, a)
    ensures Books(Before(s, a))
  {
    hide Books;
    match a
    case Submit(_, _, _) => SubmitBooks(s, a);
    case Finish(_, _) => FinishBooks(s, a);
    case Wake(_) =>
  }

  lemma {:induction false} HeadAfterDispatch(s: State, limits: Pair)
    requires Books(s) && GoodLimits(limits)
    ensures HeadHeld(Dispatching(s, limits))
  {
    var d := Dispatch(s.q, limits);
    if d.q.pending != [] { DispatchMaximal(s.q, limits, 0); }
  }

  lemma {:induction false} StepKeeps(s: State, a: Action)
    requires Inv(s) && Enabled(s, a)
    ensures Inv(Next(s, a))
  {
    hide Books, HeadHeld, Dispatching;
    BeforeBooks(s, a);
    DispatchingBooks(Before(s, a), a.limits);
    HeadAfterDispatch(Before(s, a), a.limits);
  }

  /** Work never stops: whenever a job is pending, some job is running. */
  lemma {:induction false} SomethingRuns(s: State)
    requires Inv(s) && s.q.pending != []
    ensures s.live != {}
  {
    var head := s.q.pending[0];
    if head.lib in s.q.active {
      assert head.lib in LibsOf(s.live);
    } else {
      assert OfKind(s.live, head.update) != {};
    }
  }

  // ---- infinite runs

  /** A run of the scheduler; jobs may go on for ever, as a paused scan does. */
  ghost predicate SchedulerRun(b: nat -> State, act: nat -> Action) {
    && b(0) == INIT
    && (forall n: nat :: Enabled(b(n), act(n)) && b(n + 1) == Next(b(n), act(n)))
  }

  /** A run in which every started job is eventually released. */
  ghost predicate FairRun(b: nat -> State, act: nat -> Action) {
    && SchedulerRun(b, act)
    && (forall n: nat, j :: j in b(n).live ==> exists m: nat :: n <= m && j !in b(m).live)
  }

  lemma {:induction false} RunInv(b: nat -> State, act: nat -> Action, n: nat)
    requires SchedulerRun(b, act)
    ensures Inv(b(n))
  {
    if n == 0 {
      assert OfKind(INIT.live, false) == {} && OfKind(INIT.live, true) == {};
    } else {
      RunInv(b, act, n - 1);
      assert b(n - 1 + 1) == Next(b(n - 1), act(n - 1));
      StepKeeps(b(n - 1), act(n - 1));
    }
  }

  /** A job that is pending stays pending or is started. */
  lemma {:induction false} PendingOrStarted(s: State, a: Action, j: Job)
    requires Inv(s) && Enabled(s, a) && j in s.q.pending
    ensures j in Next(s, a).q.pending || j in Next(s, a).live
  {
    var t := Before(s, a);
    BeforeBooks(s, a);
    PendingAfterDispatch(t, a.limits);
    assert j in t.q.pending;
    hide Books, Dispatch;
    assert j in Elements(t.q.pending);
  }

  /** Nothing new is put before a pending job. */
  lemma {:induction false} OlderPending(s: State, a: Action, j: Job, x: Job)
    requires Inv(s) && Enabled(s, a) && j in s.q.pending && x in Next(s, a).q.pending && x.id < j.id
    ensures x in s.q.pending
  {
    var t := Before(s, a);
    BeforeBooks(s, a);
    PendingAfterDispatch(t, a.limits);
    assert x in Elements(t.q.pending);
    assert j in Elements(s.q.pending);
  }

  // ---- the head of the queue

  predicate IsHead(s: State, h: Job) { s.q.pending != [] && s.q.pending[0] == h }

  predicate IdleHead(s: State, h: Job) { IsHead(s, h) && h.lib !in s.q.active }

  lemma {:induction false} HeadPicked(pending: seq<Job>, flags: seq<bool>)
    requires |flags| == |pending| > 0
    ensures flags[0] ==> pending[0] in Pick(pending, flags, true)
  {
  }

  lemma {:induction false} HeadStays(s: State, a: Action, h: Job)
    requires Inv(s) && Enabled(s, a) && IsHead(s, h) && h !in Next(s, a).live
    ensures IsHead(Next(s, a), h)
    ensures var q := Before(s, a).q; q.pending != [] && q.pending[0] == h && !Flags(q, a.limits)[0]
  {
    var q := Before(s, a).q;
    var flags := Flags(q, a.limits);
    assert q.pending[0] == h;
    HeadPicked(q.pending, flags);
  }

  /** While an idle library's job heads the queue unstarted, no job of its kind or library starts. */
  lemma {:induction false} IdleHeadStep(s: State, a: Action, h: Job)
    requires Inv(s) && Enabled(s, a) && IsHead(s, h) && h !in Next(s, a).live
    requires h.lib !in Before(s, a).q.active
    ensures IdleHead(Next(s, a), h)
    ensures OfKind(Next(s, a).live, h.update) <= OfKind(s.live, h.update)
  {
    var q := Before(s, a).q;
    var flags := Flags(q, a.limits);
    HeadStays(s, a, h);
    StartsExactly(q.pending, q.active, q.running, a.limits, {}, 0);
    var started := Dispatch(q, a.limits).started;
    forall x | x in started
      ensures x.update != h.update && x.lib != h.lib
    {
      var n := PickFrom(q.pending, flags, true, x);
      StartsExactly(q.pending, q.active, q.running, a.limits, {}, n);
      assert StartedBefore(q.pending, flags, x.update, 0) == 0;
    }
    assert Libs(started) !! {h.lib};
  }

  /** The job at the head starts at a step if and only if its library is then idle and its kind has room; so once
      its library is idle, the next release of a job of its kind starts it, unless the limit was lowered meanwhile. */
  lemma {:induction false} HeadStartsExactly(s: State, a: Action, h: Job)
    requires Inv(s) && Enabled(s, a) && IsHead(s, h)
    ensures h in Next(s, a).live <==>
              h.lib !in Before(s, a).q.active && Before(s, a).q.running.Of(h.update) < a.limits.Of(h.update)
    ensures IdleHead(s, h) && a.Finish? && a.job.update == h.update && s.q.running.Of(h.update) <= a.limits.Of(h.update) ==>
              h in Next(s, a).live
  {
    var q := Before(s, a).q;
    var flags := Flags(q, a.limits);
    assert q.pending[0] == h;
    HeadPicked(q.pending, flags);
    StartsExactly(q.pending, q.active, q.running, a.limits, {}, 0);
    if h !in Next(s, a).live { HeadStays(s, a, h); }
    if flags[0] { assert h in Dispatch(q, a.limits).started; }
    if h in Next(s, a).live && !flags[0] { HeadNotStarted(q.pending, flags, h); }
  }

  lemma {:induction false} HeadNotStarted(pending: seq<Job>, flags: seq<bool>, h: Job)
    requires |flags| == |pending| > 0 && Ordered(pending) && pending[0] == h && !flags[0]
    ensures h !in Pick(pending, flags, true)
  {
    if h in Pick(pending, flags, true) {
      var n := PickFrom(pending, flags, true, h);
    }
  }

  // ---- every pending job starts

  lemma {:induction false} IdleUntil(b: nat -> State, act: nat -> Action, h: Job, n: nat, m: nat)
    requires FairRun(b, act) && IdleHead(b(n), h) && n <= m
    ensures (exists i: nat :: n <= i <= m && h in b(i).live)
         || (IdleHead(b(m), h) && OfKind(b(m).live, h.update) <= OfKind(b(n).live, h.update))
    decreases m - n
  {
    hide Next, Inv, OfKind;
    if n < m {
      IdleUntil(b, act, h, n, m - 1);
      if !(exists i: nat :: n <= i <= m && h in b(i).live) {
        RunInv(b, act, m - 1);
        assert b(m - 1 + 1) == Next(b(m - 1), act(m - 1));
        assert h !in b(m).live;
        IdleUnlessFinished(b(m - 1), act(m - 1), h);
        IdleHeadStep(b(m - 1), act(m - 1), h);
      }
    }
  }

  lemma {:induction false} IdleUnlessFinished(s: State, a: Action, h: Job)
    requires h.lib !in s.q.active
    ensures h.lib !in Before(s, a).q.active
  {
  }

  lemma {:induction false} IdleHeadStarts(b: nat -> State, act: nat -> Action, h: Job, n: nat) returns (m: nat)
    requires FairRun(b, act) && IdleHead(b(n), h)
    ensures n <= m && h in b(m).live
    decreases |OfKind(b(n).live, h.update)|
  {
    RunInv(b, act, n);
    hide Next, Ordered, LibsOf, OneEach;
    assert |OfKind(b(n).live, h.update)| >= 1;
    var x :| x in OfKind(b(n).live, h.update);
    var k: nat :| n <= k && x !in b(k).live;
    IdleUntil(b, act, h, n, k);
    if i: nat :| n <= i <= k && h in b(i).live {
      m := i;
    } else {
      Shrinks(OfKind(b(k).live, h.update), OfKind(b(n).live, h.update), x);
      m := IdleHeadStarts(b, act, h, k);
    }
  }

  lemma {:induction false} Shrinks(a: set<Job>, b: set<Job>, x: Job)
    requires a <= b && x in b && x !in a
    ensures |a| < |b|
  {
    assert a <= b - {x};
    SubsetSize(a, b - {x});
  }

  /** The head waits for its library's running job, and is idle or started right after. */
  lemma {:induction false} AfterBusy(b: nat -> State, act: nat -> Action, h: Job, r: Job, n: nat, m: nat) returns (i: nat)
    requires FairRun(b, act) && IsHead(b(n), h) && r in b(n).live && r.lib == h.lib
    requires n <= m && r !in b(m).live
    ensures n <= i && (h in b(i).live || IdleHead(b(i), h))
    decreases m - n
  {
    RunInv(b, act, n);
    assert b(n + 1) == Next(b(n), act(n));
    hide Next, Inv, OfKind, FairRun;
    i := n + 1;
    if h !in b(n + 1).live {
      HeadStays(b(n), act(n), h) by { assert Enabled(b(n), act(n)) by { RunEnabled(b, act, n); } }
      RunEnabled(b, act, n);
      if r in b(n + 1).live {
        i := AfterBusy(b, act, h, r, n + 1, m);
      } else {
        FinishedNow(b(n), act(n), r);
        IdleHeadStep(b(n), act(n), h);
      }
    }
  }

  lemma {:induction false} RunEnabled(b: nat -> State, act: nat -> Action, n: nat)
    requires SchedulerRun(b, act)
    ensures Enabled(b(n), act(n))
  {
  }

  lemma {:induction false} FinishedNow(s: State, a: Action, r: Job)
    requires Enabled(s, a) && r in s.live && r !in Next(s, a).live
    ensures r.lib !in Before(s, a).q.active
  {
  }

  lemma {:induction false} HeadStarts(b: nat -> State, act: nat -> Action, h: Job, n: nat) returns (m: nat)
    requires FairRun(b, act) && IsHead(b(n), h)
    ensures n <= m && h in b(m).live
  {
    RunInv(b, act, n);
    hide Next, Ordered, OneEach, OfKind;
    if h.lib in b(n).q.active {
      var r :| r in b(n).live && r.lib == h.lib;
      var k: nat :| n <= k && r !in b(k).live;
      m := AfterBusy(b, act, h, r, n, k);
      if h !in b(m).live { m := IdleHeadStarts(b, act, h, m); }
    } else {
      m := IdleHeadStarts(b, act, h, n);
    }
  }

  function Older(s: State, j: Job): set<Job> { set x | x in s.q.pending && x.id < j.id }

  lemma {:induction false} WaitingUntil(b: nat -> State, act: nat -> Action, j: Job, n: nat, m: nat)
    requires FairRun(b, act) && j in b(n).q.pending && n <= m
    ensures (exists i: nat :: n <= i <= m && j in b(i).live)
         || (j in b(m).q.pending && Older(b(m), j) <= Older(b(n), j))
    decreases m - n
  {
    hide Next, Inv;
    if n < m {
      WaitingUntil(b, act, j, n, m - 1);
      if !(exists i: nat :: n <= i <= m && j in b(i).live) {
        RunInv(b, act, m - 1);
        assert b(m - 1 + 1) == Next(b(m - 1), act(m - 1));
        assert j !in b(m).live;
        PendingOrStarted(b(m - 1), act(m - 1), j);
        forall x | x in Older(b(m), j)
          ensures x in Older(b(m - 1), j)
        {
          OlderPending(b(m - 1), act(m - 1), j, x);
        }
      }
    }
  }

  /** No job waits for ever: whatever is submitted meanwhile and however the limits change, as long as they
      stay at least 1 and running jobs end, every pending job is started. */
  lemma {:induction false} EveryJobStarts(b: nat -> State, act: nat -> Action, j: Job, n: nat) returns (m: nat)
    requires FairRun(b, act) && j in b(n).q.pending
    ensures n <= m && j in b(m).live
    decreases |Older(b(n), j)|
  {
    RunInv(b, act, n);
    var h := b(n).q.pending[0];
    var k := HeadStarts(b, act, h, n);
    if h == j {
      m := k;
    } else {
      WaitingUntil(b, act, j, n, k);
      if i: nat :| n <= i <= k && j in b(i).live {
        m := i;
      } else {
        RunInv(b, act, k);
        assert h in Older(b(n), j) && h !in Older(b(k), j) by {
          assert h.id < j.id;
          assert h in b(k).live && (h in b(k).q.pending ==> h in Elements(b(k).q.pending));
        }
        Shrinks(Older(b(k), j), Older(b(n), j), h);
        m := EveryJobStarts(b, act, j, k);
      }
    }
  }

  function All(s: State): set<Job> { Elements(s.q.pending) + s.live + s.done }

  ghost predicate Present(s: State, i: nat) { exists j :: j in All(s) && j.id == i }

  /** No number belongs to two jobs, wherever they are. */
  ghost predicate OwnNumbers(s: State) {
    forall x, y :: x in All(s) && y in All(s) && x.id == y.id ==> x == y
  }

  /** Nothing is lost or run twice: after any number of steps the submitted jobs have the numbers below the count
      of arrivals, one job a number and one place a job, no library runs two jobs, and the counters are the
      numbers of running jobs. */
  lemma {:induction false} EveryReachableState(b: nat -> State, act: nat -> Action, n: nat)
    requires SchedulerRun(b, act)
    ensures Books(b(n)) && (b(n).q.pending != [] ==> b(n).live != {})
    ensures (forall i: nat :: Present(b(n), i) <==> i < b(n).arrived) && OwnNumbers(b(n))
  {
    RunInv(b, act, n);
    if b(n).q.pending != [] { SomethingRuns(b(n)); }
    AllAccounted(b, act, n);
    NumbersStay(b, act, n);
  }

  /** A step adds the job it submits, if any, and no other. */
  lemma {:induction false} AllAfter(s: State, a: Action)
    requires Inv(s) && Enabled(s, a)
    ensures All(Next(s, a)) == All(s) + if a.Submit? then {Job(s.arrived, a.lib, a.update)} else {}
    ensures s.done <= Next(s, a).done
  {
    hide Books, Dispatch, HeadHeld, Elements;
    BeforeBooks(s, a);
    PendingAfterDispatch(Before(s, a), a.limits);
    AllBefore(s, a);
  }

  lemma {:induction false} AllBefore(s: State, a: Action)
    requires Enabled(s, a)
    ensures All(Before(s, a)) == All(s) + if a.Submit? then {Job(s.arrived, a.lib, a.update)} else {}
  {
    if a.Submit? {
      var j := Job(s.arrived, a.lib, a.update);
      assert Elements(s.q.pending + [j]) == Elements(s.q.pending) + {j};
    }
    hide Elements;
  }

  lemma {:induction false} NumbersStep(s: State, a: Action)
    requires Inv(s) && Enabled(s, a) && OwnNumbers(s)
    ensures OwnNumbers(Next(s, a))
  {
    hide Inv, Next, All, Enabled;
    AllAfter(s, a);
    NumbersBelow(s);
  }

  lemma {:induction false} NumbersBelow(s: State)
    requires Inv(s)
    ensures forall j :: j in All(s) ==> j.id < s.arrived
  {
    hide Ordered, OneEach, LibsOf, OfKind, HeadHeld, Elements;
  }

  lemma {:induction false} NumbersStay(b: nat -> State, act: nat -> Action, n: nat)
    requires SchedulerRun(b, act)
    ensures OwnNumbers(b(n))
  {
    if n == 0 {
      assert All(INIT) == {};
    } else {
      NumbersStay(b, act, n - 1);
      RunInv(b, act, n - 1);
      RunEnabled(b, act, n - 1);
      hide Inv, OwnNumbers, Next, Enabled;
      assert b(n - 1 + 1) == Next(b(n - 1), act(n - 1));
      NumbersStep(b(n - 1), act(n - 1));
    }
  }

  /** A released job never runs again. */
  lemma {:induction false} ReleasedForGood(b: nat -> State, act: nat -> Action, j: Job, n: nat, m: nat)
    requires SchedulerRun(b, act) && j in b(n).done && n <= m
    ensures j in b(m).done && j !in b(m).live && j !in b(m).q.pending
    decreases m - n
  {
    RunInv(b, act, m);
    if n < m {
      ReleasedForGood(b, act, j, n, m - 1);
      RunInv(b, act, m - 1);
      assert b(m - 1 + 1) == Next(b(m - 1), act(m - 1));
      RunEnabled(b, act, m - 1);
      AllAfter(b(m - 1), act(m - 1));
    }
    assert j in b(m).done && (j in b(m).q.pending ==> j in Elements(b(m).q.pending));
  }

  /** A release frees the library: its place is taken by a job that the release itself starts, or by none. */
  lemma {:induction false} ReleaseFreesLibrary(s: State, j: Job, limits: Pair)
    requires Inv(s) && Enabled(s, Finish(j, limits))
    ensures var t := Next(s, Finish(j, limits));
            && t.q.active == LibsOf(t.live) && j !in t.live
            && (j.lib in t.q.active <==> exists x :: x in t.live && x !in s.live && x.lib == j.lib)
  {
    StepKeeps(s, Finish(j, limits));
    hide Dispatch, Elements;
    var t := Next(s, Finish(j, limits));
    NotRestarted(s, j, limits);
    assert forall x :: x in s.live && x.lib == j.lib ==> x == j;
  }

  lemma {:induction false} NotRestarted(s: State, j: Job, limits: Pair)
    requires Inv(s) && Enabled(s, Finish(j, limits))
    ensures j !in Next(s, Finish(j, limits)).live
  {
    var t := Before(s, Finish(j, limits));
    BeforeBooks(s, Finish(j, limits));
    PendingAfterDispatch(t, limits);
  }

  // ---- arrival order

  /** Of one library, what has started arrived before what is pending. */
  ghost predicate InOrder(s: State) {
    forall x, y :: x in Elements(s.q.pending) && y in s.live + s.done && x.lib == y.lib ==> y.id < x.id
  }

  lemma {:induction false} StartsInOrder(s: State, limits: Pair, x: Job, y: Job)
    requires Books(s)
    requires var d := Dispatch(s.q, limits); x in Elements(d.q.pending) && y in Elements(d.started) && x.lib == y.lib
    ensures y.id < x.id
  {
    var flags := Flags(s.q, limits);
    var m := PickFrom(s.q.pending, flags, false, x);
    var n := PickFrom(s.q.pending, flags, true, y);
    StartsExactly(s.q.pending, s.q.active, s.q.running, limits, {}, n);
  }

  lemma {:induction false} BeforeInOrder(s: State, a: Action)
    requires Inv(s) && Enabled(s, a) && InOrder(s)
    ensures InOrder(Before(s, a))
  {
    if a.Submit? {
      var j := Job(s.arrived, a.lib, a.update);
      assert Elements(s.q.pending + [j]) == Elements(s.q.pending) + {j};
    }
    hide Elements, LibsOf, OfKind, OneEach, Ordered;
  }

  lemma {:induction false} StepInOrder(s: State, a: Action)
    requires Inv(s) && Enabled(s, a) && InOrder(s)
    ensures InOrder(Next(s, a))
  {
    var t := Before(s, a);
    BeforeBooks(s, a);
    BeforeInOrder(s, a);
    PendingAfterDispatch(t, a.limits);
    hide Books, Dispatch, HeadHeld, Elements;
    var d := Dispatch(t.q, a.limits);
    forall x, y | x in Elements(d.q.pending) && y in Elements(d.started) && x.lib == y.lib
      ensures y.id < x.id
    {
      StartsInOrder(t, a.limits, x, y);
    }
  }

  /** In every run the jobs of one library start in the order of their arrival. */
  lemma {:induction false} ArrivalOrder(b: nat -> State, act: nat -> Action, n: nat)
    requires SchedulerRun(b, act)
    ensures InOrder(b(n))
  {
    if n > 0 {
      ArrivalOrder(b, act, n - 1);
      RunInv(b, act, n - 1);
      RunEnabled(b, act, n - 1);
      hide Inv, InOrder, Next, Enabled;
      assert b(n - 1 + 1) == Next(b(n - 1), act(n - 1));
      StepInOrder(b(n - 1), act(n - 1));
    }
  }

  lemma {:induction false} AllAccounted(b: nat -> State, act: nat -> Action, n: nat)
    requires SchedulerRun(b, act)
    ensures forall i: nat :: i < b(n).arrived ==> Present(b(n), i)
  {
    if n > 0 {
      AllAccounted(b, act, n - 1);
      RunInv(b, act, n - 1);
      assert b(n - 1 + 1) == Next(b(n - 1), act(n - 1));
      RunEnabled(b, act, n - 1);
      forall i: nat | i < b(n).arrived
        ensures Present(b(n), i)
      {
        SubmittedPresent(b(n - 1), act(n - 1), i);
      }
    }
  }

  lemma {:induction false} SubmittedPresent(s: State, a: Action, i: nat)
    requires Inv(s) && Enabled(s, a) && i < Before(s, a).arrived
    requires i < s.arrived ==> Present(s, i)
    ensures Present(Next(s, a), i)
  {
    var t := Before(s, a);
    var j: Job;
    if i < s.arrived {
      j :| j in All(s) && j.id == i;
    } else {
      j := Job(s.arrived, a.lib, a.update);
    }
    assert j in All(t);
    BeforeBooks(s, a);
    PendingAfterDispatch(t, a.limits);
    hide Books, Dispatch, HeadHeld;
    assert j in All(Next(s, a));
  }
}
