/** The library job scheduler: one pending list, two kinds of job, one job per library. */
module LibraryQueue {
  import opened Basics

  /** id is the arrival number of the job. */
  datatype Job = Job(id: nat, lib: string, update: bool)

  /** Running jobs of each kind, or limits on them: index 0 is scans, 1 is updates. */
  datatype Pair = Pair(scan: int, update: int)
  {
    function Of(kind: bool): int { if kind then update else scan }

    function Plus(kind: bool, n: int): Pair {
      if kind then Pair(scan, update + n) else Pair(scan + n, update)
    }
  }

  datatype Queue = Queue(pending: seq<Job>, active: set<string>, running: Pair)

  /** The stored limit when it is a number from 1 to 64, otherwise 2. */
  function JobLimit(setting: Option<string>): (n: int)
    ensures 1 <= n <= 64
    ensures forall v: int :: 1 <= v <= 64 && setting == Some(Itoa(v)) ==> n == v
    ensures n != 2 ==> setting.Some? && Atoi(setting.value) == Some(n)
  {
    assert forall v: int :: Atoi(Itoa(v)) == Some(v) by { forall v: int { ItoaRoundTrip(v); } }
    if setting.Some? && Atoi(setting.value).Some? && 1 <= Atoi(setting.value).value <= 64
    then Atoi(setting.value).value
    else 2
  }

  // ---- one dispatch

  predicate Held(j: Job, active: set<string>, running: Pair, limits: Pair, blocked: set<string>) {
    running.Of(j.update) >= limits.Of(j.update) || j.lib in active || j.lib in blocked
  }

  /** Which pending jobs a dispatch starts, front to back. */
  function Starts(pending: seq<Job>, active: set<string>, running: Pair, limits: Pair, blocked: set<string>): (flags: seq<bool>)
    ensures |flags| == |pending|
  {
    if pending == [] then []
    else
      var j := pending[0];
      if Held(j, active, running, limits, blocked)
      then [false] + Starts(pending[1..], active, running, limits, blocked + {j.lib})
      else [true] + Starts(pending[1..], active + {j.lib}, running.Plus(j.update, 1), limits, blocked)
  }

  function Pick(pending: seq<Job>, flags: seq<bool>, want: bool): seq<Job>
    requires |flags| == |pending|
  {
    if pending == [] then []
    else (if flags[0] == want then [pending[0]] else []) + Pick(pending[1..], flags[1..], want)
  }

  function CountKind(jobs: seq<Job>, kind: bool): nat {
    if jobs == [] then 0 else (if jobs[0].update == kind then 1 else 0) + CountKind(jobs[1..], kind)
  }

  function Libs(jobs: seq<Job>): set<string> {
    set i | 0 <= i < |jobs| :: jobs[i].lib
  }

  datatype Dispatched = Dispatched(q: Queue, started: seq<Job>)

  function Flags(q: Queue, limits: Pair): seq<bool> {
    Starts(q.pending, q.active, q.running, limits, {})
  }

  function Dispatch(q: Queue, limits: Pair): Dispatched {
    var flags := Flags(q, limits);
    var started := Pick(q.pending, flags, true);
    Dispatched(Queue(Pick(q.pending, flags, false), q.active + Libs(started),
                     Pair(q.running.scan + CountKind(started, false), q.running.update + CountKind(started, true))),
               started)
  }

  /** Jobs of a kind started before index n. */
  function StartedBefore(pending: seq<Job>, flags: seq<bool>, kind: bool, n: nat): nat
    requires |flags| == |pending| && n <= |pending|
  {
    if n == 0 then 0
    else StartedBefore(pending, flags, kind, n - 1) + (if flags[n - 1] && pending[n - 1].update == kind then 1 else 0)
  }

  lemma {:induction false} StartedBeforeTail(pending: seq<Job>, flags: seq<bool>, kind: bool, n: nat)
    requires |flags| == |pending| && 0 < n <= |pending|
    ensures StartedBefore(pending, flags, kind, n)
            == (if flags[0] && pending[0].update == kind then 1 else 0) + StartedBefore(pending[1..], flags[1..], kind, n - 1)
  {
    if n > 1 { StartedBeforeTail(pending, flags, kind, n - 1); }
  }

  /** A pending job starts exactly when its library is idle, no older job of its library is pending, and the
      older jobs that start leave room in its kind. */
  lemma {:induction false} StartsExactly(pending: seq<Job>, active: set<string>, running: Pair, limits: Pair, blocked: set<string>, n: nat)
    requires n < |pending|
    ensures var flags := Starts(pending, active, running, limits, blocked);
            flags[n] <==>
              && pending[n].lib !in active && pending[n].lib !in blocked
              && (forall m :: 0 <= m < n ==> pending[m].lib != pending[n].lib)
              && running.Of(pending[n].update) + StartedBefore(pending, flags, pending[n].update, n) < limits.Of(pending[n].update)
  {
    var j := pending[0];
    var flags := Starts(pending, active, running, limits, blocked);
    if n > 0 {
      StartedBeforeTail(pending, flags, pending[n].update, n);
      assert forall m :: 0 <= m < n ==> (m == 0 || pending[m] == pending[1..][m - 1]);
      assert (forall m :: 0 <= m < n ==> pending[m].lib != pending[n].lib)
        <==> j.lib != pending[n].lib && (forall m :: 0 <= m < n - 1 ==> pending[1..][m].lib != pending[1..][n - 1].lib);
      if Held(j, active, running, limits, blocked) {
        assert flags[1..] == Starts(pending[1..], active, running, limits, blocked + {j.lib});
        StartsExactly(pending[1..], active, running, limits, blocked + {j.lib}, n - 1);
      } else {
        assert flags[1..] == Starts(pending[1..], active + {j.lib}, running.Plus(j.update, 1), limits, blocked);
        StartsExactly(pending[1..], active + {j.lib}, running.Plus(j.update, 1), limits, blocked, n - 1);
      }
    }
  }

  // ---- the queue object

  /** Counting over the picked jobs, one pending job at a time. */
  lemma {:induction false} CountPicked(pending: seq<Job>, flags: seq<bool>, kind: bool)
    requires |flags| == |pending| > 0
    ensures CountKind(Pick(pending, flags, true), kind)
            == (if flags[0] && pending[0].update == kind then 1 else 0) + CountKind(Pick(pending[1..], flags[1..], true), kind)
  {
    var rest := Pick(pending[1..], flags[1..], true);
    if flags[0] {
      assert Pick(pending, flags, true) == [pending[0]] + rest;
      assert ([pending[0]] + rest)[1..] == rest;
    } else {
      assert Pick(pending, flags, true) == rest;
    }
  }

  lemma {:induction false} CountKindAppend(a: seq<Job>, j: Job, kind: bool)
    ensures CountKind(a + [j], kind) == CountKind(a, kind) + (if j.update == kind then 1 else 0)
  {
    if a != [] {
      assert (a + [j])[1..] == a[1..] + [j];
      CountKindAppend(a[1..], j, kind);
    }
  }

  lemma {:induction false} LibsAppend(a: seq<Job>, j: Job)
    ensures Libs(a + [j]) == Libs(a) + {j.lib}
  {
    var b := a + [j];
    assert b[|a|] == j;
    assert forall i :: 0 <= i < |a| ==> b[i] == a[i];
  }

  lemma {:induction false} SweepHeld(rest: seq<Job>, active: set<string>, running: Pair, limits: Pair, blocked: set<string>)
    requires rest != [] && Held(rest[0], active, running, limits, blocked)
    ensures var a, b := Starts(rest, active, running, limits, blocked),
                        Starts(rest[1..], active, running, limits, blocked + {rest[0].lib});
            && Pick(rest, a, false) == [rest[0]] + Pick(rest[1..], b, false)
            && Pick(rest, a, true) == Pick(rest[1..], b, true)
  {
    assert Starts(rest, active, running, limits, blocked)[1..]
        == Starts(rest[1..], active, running, limits, blocked + {rest[0].lib});
  }

  lemma {:induction false} SweepStart(rest: seq<Job>, active: set<string>, running: Pair, limits: Pair, blocked: set<string>)
    requires rest != [] && !Held(rest[0], active, running, limits, blocked)
    ensures var a, b := Starts(rest, active, running, limits, blocked),
                        Starts(rest[1..], active + {rest[0].lib}, running.Plus(rest[0].update, 1), limits, blocked);
            && Pick(rest, a, false) == Pick(rest[1..], b, false)
            && Pick(rest, a, true) == [rest[0]] + Pick(rest[1..], b, true)
  {
    assert Starts(rest, active, running, limits, blocked)[1..]
        == Starts(rest[1..], active + {rest[0].lib}, running.Plus(rest[0].update, 1), limits, blocked);
  }

  /** The sweep has dealt with a prefix: kept and started come from it, rest is still to be looked at. */
  ghost predicate Sweeping(q: Queue, limits: Pair, kept: seq<Job>, rest: seq<Job>, started: seq<Job>, now: Queue, blocked: set<string>) {
    var flags := Starts(rest, now.active, now.running, limits, blocked);
    && Pick(q.pending, Flags(q, limits), false) == kept + Pick(rest, flags, false)
    && Pick(q.pending, Flags(q, limits), true) == started + Pick(rest, flags, true)
    && now.active == q.active + Libs(started)
    && now.running == Pair(q.running.scan + CountKind(started, false), q.running.update + CountKind(started, true))
  }

  lemma {:induction false} SweepBegins(q: Queue, limits: Pair)
    ensures Sweeping(q, limits, [], q.pending, [], q, {})
  {
  }

  lemma {:induction false} SweepKeeps(q: Queue, limits: Pair, kept: seq<Job>, rest: seq<Job>, started: seq<Job>, now: Queue, blocked: set<string>)
    requires Sweeping(q, limits, kept, rest, started, now, blocked)
    requires rest != [] && Held(rest[0], now.active, now.running, limits, blocked)
    ensures Sweeping(q, limits, kept + [rest[0]], rest[1..], started, now, blocked + {rest[0].lib})
  {
    SweepHeld(rest, now.active, now.running, limits, blocked);
    hide Starts, Pick, CountKind, Libs;
  }

  lemma {:induction false} SweepTakes(q: Queue, limits: Pair, kept: seq<Job>, rest: seq<Job>, started: seq<Job>, now: Queue, blocked: set<string>)
    requires Sweeping(q, limits, kept, rest, started, now, blocked)
    requires rest != [] && !Held(rest[0], now.active, now.running, limits, blocked)
    ensures Sweeping(q, limits, kept, rest[1..], started + [rest[0]],
                     now.(active := now.active + {rest[0].lib}, running := now.running.Plus(rest[0].update, 1)), blocked)
  {
    SweepStart(rest, now.active, now.running, limits, blocked);
    CountKindAppend(started, rest[0], false);
    CountKindAppend(started, rest[0], true);
    LibsAppend(started, rest[0]);
    hide Starts, Pick, CountKind, Libs;
  }

  lemma {:induction false} SweepIgnoresPending(q: Queue, limits: Pair, kept: seq<Job>, rest: seq<Job>, started: seq<Job>, a: Queue, b: Queue, blocked: set<string>)
    requires Sweeping(q, limits, kept, rest, started, a, blocked) && a.active == b.active && a.running == b.running
    ensures Sweeping(q, limits, kept, rest, started, b, blocked)
  {
  }

  lemma {:induction false} SweepEnds(q: Queue, limits: Pair, kept: seq<Job>, started: seq<Job>, now: Queue, blocked: set<string>)
    requires Sweeping(q, limits, kept, [], started, now, blocked)
    ensures Dispatch(q, limits) == Dispatched(Queue(kept, now.active, now.running), started)
  {
    assert kept + [] == kept && started + [] == started;
  }

  lemma {:induction false} PickEither(pending: seq<Job>, flags: seq<bool>, n: nat)
    requires |flags| == |pending| && n < |pending|
    ensures pending[n] in Pick(pending, flags, true) || pending[n] in Pick(pending, flags, false)
  {
    PickIn(pending, flags, flags[n], n);
  }

  class LibraryJobQueue {
    var pending: seq<Job>
    var active: set<string>
    var running: Pair
    var nextId: nat

    function Q(): Queue
      reads this
    {
      Queue(pending, active, running)
    }

    constructor ()
      ensures Q() == Queue([], {}, Pair(0, 0)) && nextId == 0
    {
      pending, active, running, nextId := [], {}, Pair(0, 0), 0;
    }

    /** Closes the ready channel of every job it returns. */
    method DispatchJobs(limits: Pair) returns (started: seq<Job>)
      modifies this`pending, this`active, this`running
      ensures Dispatched(Q(), started) == Dispatch(old(Q()), limits)
    {
      hide Sweeping, Dispatch;
      ghost var q := Q();
      started := [];
      var blocked: set<string> := {};
      var i := 0;
      SweepBegins(q, limits);
      assert pending[..0] == [] && pending[0..] == pending;
      while i < |pending|
        invariant 0 <= i <= |pending|
        invariant Sweeping(q, limits, pending[..i], pending[i..], started, Q(), blocked)
        decreases |pending| - i
      {
        var j := pending[i];
        ghost var rest, now := pending[i..], Q();
        if running.Of(j.update) >= limits.Of(j.update) || j.lib in active || j.lib in blocked {
          SweepKeeps(q, limits, pending[..i], rest, started, now, blocked);
          blocked := blocked + {j.lib};
          assert pending[..i + 1] == pending[..i] + [j] && pending[i + 1..] == rest[1..];
          i := i + 1;
        } else {
          SweepTakes(q, limits, pending[..i], rest, started, now, blocked);
          ghost var before := pending;
          pending := pending[..i] + pending[i + 1..];
          assert pending[..i] == before[..i] && pending[i..] == rest[1..];
          active := active + {j.lib};
          running := running.Plus(j.update, 1);
          started := started + [j];
          SweepIgnoresPending(q, limits, pending[..i], rest[1..], started,
                              now.(active := now.active + {j.lib}, running := now.running.Plus(j.update, 1)), Q(), blocked);
        }
      }
      assert pending[..i] == pending && pending[i..] == [];
      SweepEnds(q, limits, pending, started, Q(), blocked);
    }

    method Acquire(lib: string, update: bool, limits: Pair) returns (j: Job, started: seq<Job>)
      modifies this
      ensures j == Job(old(nextId), lib, update) && nextId == old(nextId) + 1
      ensures Dispatched(Q(), started) == Submitted(old(Q()), j, limits)
      ensures active == old(active) + Libs(started) && (j in pending || j in started)
    {
      j := Job(nextId, lib, update);
      nextId := nextId + 1;
      pending := pending + [j];
      ghost var q := Q();
      started := DispatchJobs(limits);
      PickEither(q.pending, Flags(q, limits), |q.pending| - 1);
    }

    method Release(j: Job, limits: Pair) returns (started: seq<Job>)
      modifies this
      ensures nextId == old(nextId)
      ensures Dispatched(Q(), started) == Released(old(Q()), j, limits)
      ensures active == old(active) - {j.lib} + Libs(started)
      ensures j.lib in active ==> exists i :: 0 <= i < |started| && started[i].lib == j.lib
      ensures forall kind: bool :: running.Of(kind) == old(running).Of(kind) - (if kind == j.update then 1 else 0) + CountKind(started, kind)
    {
      active := active - {j.lib};
      running := running.Plus(j.update, -1);
      started := DispatchJobs(limits);
    }
  }

  function Submitted(q: Queue, j: Job, limits: Pair): Dispatched {
    Dispatch(q.(pending := q.pending + [j]), limits)
  }

  function Released(q: Queue, j: Job, limits: Pair): Dispatched {
    Dispatch(q.(active := q.active - {j.lib}, running := q.running.Plus(j.update, -1)), limits)
  }

  // ---- what one dispatch keeps

  lemma {:induction false} PickIn(pending: seq<Job>, flags: seq<bool>, want: bool, n: nat)
    requires |flags| == |pending| && n < |pending| && flags[n] == want
    ensures pending[n] in Pick(pending, flags, want)
  {
    if n > 0 { PickIn(pending[1..], flags[1..], want, n - 1); }
  }

  lemma {:induction false} PickFrom(pending: seq<Job>, flags: seq<bool>, want: bool, j: Job) returns (n: nat)
    requires |flags| == |pending| && j in Pick(pending, flags, want)
    ensures n < |pending| && flags[n] == want && pending[n] == j
  {
    if flags[0] == want && j == pending[0] {
      n := 0;
    } else {
      n := PickFrom(pending[1..], flags[1..], want, j);
      n := n + 1;
    }
  }

  /** Arrival order. */
  ghost predicate Ordered(jobs: seq<Job>) {
    forall a, b :: 0 <= a < b < |jobs| ==> jobs[a].id < jobs[b].id
  }

  lemma {:induction false} PickOrdered(pending: seq<Job>, flags: seq<bool>, want: bool)
    requires |flags| == |pending| && Ordered(pending)
    ensures Ordered(Pick(pending, flags, want))
  {
    if pending != [] {
      var rest := Pick(pending[1..], flags[1..], want);
      PickOrdered(pending[1..], flags[1..], want);
      forall a | 0 <= a < |rest|
        ensures pending[0].id < rest[a].id
      {
        var n := PickFrom(pending[1..], flags[1..], want, rest[a]);
      }
    }
  }

  /** Dispatch is maximal: the oldest pending job of each library is held back by its kind's limit or by its busy library. */
  lemma {:induction false} DispatchMaximal(q: Queue, limits: Pair, n: nat)
    requires var p := Dispatch(q, limits).q.pending; n < |p| && forall m :: 0 <= m < n ==> p[m].lib != p[n].lib
    requires Ordered(q.pending)
    ensures var d := Dispatch(q, limits).q;
            d.running.Of(d.pending[n].update) >= limits.Of(d.pending[n].update) || d.pending[n].lib in d.active
  {
    var flags := Flags(q, limits);
    var d := Dispatch(q, limits).q;
    var j := d.pending[n];
    var i := PickFrom(q.pending, flags, false, j);
    StartsExactly(q.pending, q.active, q.running, limits, {}, i);
    if j.lib !in q.active {
      if m :| 0 <= m < i && q.pending[m].lib == j.lib {
        if flags[m] {
          PickIn(q.pending, flags, true, m);
        } else {
          PickIn(q.pending, flags, false, m);
          OrderedPrefix(d.pending, q.pending, flags, m, n);
        }
      } else {
        StartedBeforeCount(q.pending, flags, j.update, i);
      }
    }
  }

  /** An older job that is still pending comes earlier in the list. */
  lemma {:induction false} OrderedPrefix(p: seq<Job>, pending: seq<Job>, flags: seq<bool>, m: nat, n: nat)
    requires |flags| == |pending| && p == Pick(pending, flags, false) && Ordered(pending)
    requires m < |pending| && !flags[m] && n < |p| && pending[m].id < p[n].id
    ensures exists k :: 0 <= k < n && p[k] == pending[m]
  {
    PickOrdered(pending, flags, false);
    PickIn(pending, flags, false, m);
    var k :| 0 <= k < |p| && p[k] == pending[m];
  }

  lemma {:induction false} StartedBeforeCount(pending: seq<Job>, flags: seq<bool>, kind: bool, n: nat)
    requires |flags| == |pending| && n <= |pending|
    ensures StartedBefore(pending, flags, kind, n) <= CountKind(Pick(pending, flags, true), kind)
    ensures n == |pending| ==> StartedBefore(pending, flags, kind, n) == CountKind(Pick(pending, flags, true), kind)
  {
    if pending != [] && n > 0 {
      StartedBeforeTail(pending, flags, kind, n);
      StartedBeforeCount(pending[1..], flags[1..], kind, n - 1);
      CountPicked(pending, flags, kind);
    }
  }

  /** No dispatch raises a kind above its present limit, even when the limit was lowered below what runs. */
  lemma {:induction false} DispatchWithinLimit(q: Queue, limits: Pair, kind: bool)
    ensures var d := Dispatch(q, limits).q;
            d.running.Of(kind) > q.running.Of(kind) ==> d.running.Of(kind) <= limits.Of(kind)
  {
    WithinLimit(q.pending, q.active, q.running, limits, {}, kind);
  }

  lemma {:induction false} WithinLimit(pending: seq<Job>, active: set<string>, running: Pair, limits: Pair, blocked: set<string>, kind: bool)
    ensures var n := CountKind(Pick(pending, Starts(pending, active, running, limits, blocked), true), kind);
            n > 0 ==> running.Of(kind) + n <= limits.Of(kind)
  {
    if pending != [] {
      var j := pending[0];
      var flags := Starts(pending, active, running, limits, blocked);
      CountPicked(pending, flags, kind);
      if Held(j, active, running, limits, blocked) {
        assert flags[1..] == Starts(pending[1..], active, running, limits, blocked + {j.lib});
        WithinLimit(pending[1..], active, running, limits, blocked + {j.lib}, kind);
      } else {
        assert flags[1..] == Starts(pending[1..], active + {j.lib}, running.Plus(j.update, 1), limits, blocked);
        WithinLimit(pending[1..], active + {j.lib}, running.Plus(j.update, 1), limits, blocked, kind);
      }
    }
  }

  /** Jobs of one library start in arrival order. */
  lemma {:induction false} LibraryOrder(q: Queue, limits: Pair, m: nat, n: nat)
    requires m < n < |q.pending| && q.pending[m].lib == q.pending[n].lib
    ensures !Flags(q, limits)[n]
  {
    StartsExactly(q.pending, q.active, q.running, limits, {}, n);
  }

  /** A job is overtaken by a younger one of its kind only if its library was busy or has an older pending job. */
  lemma {:induction false} Overtaking(q: Queue, limits: Pair, m: nat, n: nat)
    requires m < n < |q.pending| && q.pending[m].update == q.pending[n].update
    requires !Flags(q, limits)[m] && Flags(q, limits)[n]
    ensures q.pending[m].lib in q.active || exists k :: 0 <= k < m && q.pending[k].lib == q.pending[m].lib
  {
    StartsExactly(q.pending, q.active, q.running, limits, {}, m);
    StartsExactly(q.pending, q.active, q.running, limits, {}, n);
    StartedBeforeGrows(q.pending, Flags(q, limits), q.pending[m].update, m, n);
  }

  lemma {:induction false} StartedBeforeGrows(pending: seq<Job>, flags: seq<bool>, kind: bool, m: nat, n: nat)
    requires |flags| == |pending| && m <= n <= |pending|
    ensures StartedBefore(pending, flags, kind, m) <= StartedBefore(pending, flags, kind, n)
  {
    if m < n { StartedBeforeGrows(pending, flags, kind, m, n - 1); }
  }
}
