/** The media probe queue: one job per source address, bounded, first in first out, with a cooldown after failure. */
module ProbeQueue {
  import opened Basics

  /** A job object: id stands for its identity. Map keys are digests of the source address, taken as injective. */
  datatype Job = Job(id: nat, url: string)

  const BOUND := 1000

  /** probeState. */
  datatype Probes = Probes(jobs: map<string, Job>, queue: seq<Job>, running: int)

  /** What a caller of queueProbe gets. */
  datatype Answer = Refused | FromCache | Shared(job: Job) | Queued(job: Job)

  /** How many queued jobs a dispatch starts. */
  function Room(p: Probes, limit: int): nat {
    if p.running >= limit then 0 else if limit - p.running < |p.queue| then limit - p.running else |p.queue|
  }

  function Dispatched(p: Probes, limit: int): Probes {
    p.(queue := p.queue[Room(p, limit)..], running := p.running + Room(p, limit))
  }

  function Enqueued(p: Probes, id: nat, url: string, cached: bool): (Answer, Probes) {
    if url == "" then (Refused, p)
    else if cached then (FromCache, p)
    else if url in p.jobs then (Shared(p.jobs[url]), p)
    else if |p.queue| >= BOUND then (Refused, p)
    else (Queued(Job(id, url)), p.(jobs := p.jobs[url := Job(id, url)], queue := p.queue + [Job(id, url)]))
  }

  /** The end of a job: a success leaves the map at once, a failure stays until its timer. */
  function Finished(p: Probes, j: Job, failed: bool): Probes {
    p.(running := p.running - 1, jobs := if failed then p.jobs else p.jobs - {j.url})
  }

  function Expired(p: Probes, j: Job): Probes {
    if j.url in p.jobs && p.jobs[j.url] == j then p.(jobs := p.jobs - {j.url}) else p
  }

  class ProbeState {
    var jobs: map<string, Job>
    var queue: seq<Job>
    var running: int
    var nextId: nat

    function P(): Probes
      reads this
    {
      Probes(jobs, queue, running)
    }

    constructor ()
      ensures P() == Probes(map[], [], 0) && nextId == 0
    {
      jobs, queue, running, nextId := map[], [], 0, 0;
    }

    /** Starts jobs from the front while there is room. */
    method DispatchLocked(limit: int) returns (started: seq<Job>)
      modifies this`queue, this`running
      ensures P() == Dispatched(old(P()), limit)
      ensures started == old(queue)[..Room(old(P()), limit)]
      ensures queue == [] || running >= limit
      ensures started != [] ==> running <= limit
      ensures old(running) >= limit ==> started == []
      ensures running == old(running) + |started|
    {
      started := [];
      while running < limit && |queue| > 0
        invariant |started| <= |old(queue)| && started == old(queue)[..|started|] && queue == old(queue)[|started|..]
        invariant running == old(running) + |started|
        invariant |started| > 0 ==> running <= limit
        decreases |queue|
      {
        var j := queue[0];
        queue := queue[1..];
        running := running + 1;
        started := started + [j];
      }
    }

    method QueueProbe(url: string, cached: bool, limit: int) returns (answer: Answer, started: seq<Job>)
      modifies this
      ensures answer == Enqueued(old(P()), old(nextId), url, cached).0
      ensures var q := Enqueued(old(P()), old(nextId), url, cached).1;
              if answer.Queued? then P() == Dispatched(q, limit) && started == q.queue[..Room(q, limit)] && nextId == old(nextId) + 1
              else P() == old(P()) && started == [] && nextId == old(nextId)
    {
      started := [];
      if url == "" { return Refused, []; }
      if cached { return FromCache, []; }
      if url in jobs { return Shared(jobs[url]), []; }
      if |queue| >= BOUND { return Refused, []; }
      var j := Job(nextId, url);
      nextId := nextId + 1;
      jobs := jobs[url := j];
      queue := queue + [j];
      started := DispatchLocked(limit);
      answer := Queued(j);
    }

    /** The tail of a worker: bookkeeping, closing done, and the next dispatch. */
    method FinishJob(j: Job, failed: bool, limit: int) returns (started: seq<Job>)
      modifies this
      ensures nextId == old(nextId)
      ensures P() == Dispatched(Finished(old(P()), j, failed), limit)
      ensures started == old(queue)[..Room(Finished(old(P()), j, failed), limit)]
    {
      running := running - 1;
      if !failed { jobs := jobs - {j.url}; }
      started := DispatchLocked(limit);
    }

    method TimerFires(j: Job)
      modifies this`jobs
      ensures P() == Expired(old(P()), j)
    {
      if j.url in jobs && jobs[j.url] == j { jobs := jobs - {j.url}; }
    }
  }

  // ---- runs

  /** live: started and not finished; cooling: failed, timer pending; closed: done channels closed, in order. */
  datatype State = State(p: Probes, live: set<Job>, cooling: set<Job>, closed: seq<Job>, started: seq<Job>, enqueued: seq<Job>)

  datatype Action = Ask(url: string, cached: bool, limit: int) | Finish(job: Job, failed: bool, limit: int) | Timer(job: Job)
                  | Settings(limit: int)

  predicate Enabled(s: State, a: Action) {
    match a
    case Ask(_, _, _) => true
    case Finish(j, _, _) => j in s.live
    case Timer(j) => j in s.cooling
    case Settings(_) => true
  }

  function SetOf(jobs: seq<Job>): set<Job> { set j | j in jobs }

  function Start(s: State, limit: int): State {
    var n := Room(s.p, limit);
    s.(p := Dispatched(s.p, limit), live := s.live + SetOf(s.p.queue[..n]), started := s.started + s.p.queue[..n])
  }

  function Next(s: State, a: Action): State {
    match a
    case Ask(url, cached, limit) =>
      var r := Enqueued(s.p, |s.enqueued|, url, cached);
      if r.0.Queued? then Start(s.(p := r.1, enqueued := s.enqueued + [r.0.job]), limit) else s
    case Finish(j, failed, limit) =>
      Start(s.(p := Finished(s.p, j, failed), live := s.live - {j}, closed := s.closed + [j],
               cooling := if failed then s.cooling + {j} else s.cooling), limit)
    case Timer(j) => s.(p := Expired(s.p, j), cooling := s.cooling - {j})
    case Settings(limit) => Start(s, limit)
  }

  const INIT := State(Probes(map[], [], 0), {}, {}, [], [], [])

  /** The job is in exactly one of the three places. */
  predicate OnePlace(s: State, j: Job) {
    || (j in s.p.queue && j !in s.live && j !in s.cooling)
    || (j !in s.p.queue && j in s.live && j !in s.cooling)
    || (j !in s.p.queue && j !in s.live && j in s.cooling)
  }

  /** First in, first out: what was asked for is what started followed by what waits, each job once. */
  ghost predicate Fifo(s: State) {
    && s.enqueued == s.started + s.p.queue
    && (forall i :: 0 <= i < |s.enqueued| ==> s.enqueued[i].id == i)
    && |s.p.queue| <= BOUND
  }

  /** The map holds exactly the jobs queued, running or cooling, each under its own address. */
  ghost predicate MapOk(s: State) {
    && (forall u :: u in s.p.jobs ==> s.p.jobs[u].url == u && OnePlace(s, s.p.jobs[u]))
    && (forall j :: j in s.p.queue || j in s.live || j in s.cooling ==> j.url in s.p.jobs && s.p.jobs[j.url] == j)
  }

  /** Running jobs are counted; a started job is running or has closed its channel, which happens once. */
  ghost predicate Counts(s: State) {
    && |s.live| == s.p.running
    && (forall j :: j in s.started <==> j in s.live || j in s.closed)
    && (forall j :: j in s.live ==> j !in s.closed)
    && (forall j :: j in s.cooling ==> j in s.closed)
    && (forall a, b :: 0 <= a < b < |s.closed| ==> s.closed[a] != s.closed[b])
  }

  ghost predicate Inv(s: State) { Fifo(s) && MapOk(s) && Counts(s) }

  lemma {:induction false} QueueDistinct(s: State)
    requires Fifo(s)
    ensures forall a, b :: 0 <= a < b < |s.p.queue| ==> s.p.queue[a] != s.p.queue[b]
    ensures forall j :: j in s.p.queue ==> j !in s.started
  {
    forall a | 0 <= a < |s.p.queue|
      ensures s.p.queue[a].id == |s.started| + a
    {
      assert s.enqueued[|s.started| + a] == s.p.queue[a];
    }
    forall j | j in s.started
      ensures j.id < |s.started|
    {
      var i :| 0 <= i < |s.started| && s.started[i] == j;
      assert s.enqueued[i] == j;
    }
  }

  lemma {:induction false} DistinctCount(jobs: seq<Job>)
    requires forall a, b :: 0 <= a < b < |jobs| ==> jobs[a] != jobs[b]
    ensures |SetOf(jobs)| == |jobs|
  {
    if jobs != [] {
      var last := jobs[|jobs| - 1];
      DistinctCount(jobs[..|jobs| - 1]);
      assert jobs == jobs[..|jobs| - 1] + [last];
      assert SetOf(jobs) == SetOf(jobs[..|jobs| - 1]) + {last};
      assert last !in jobs[..|jobs| - 1];
    }
  }

  lemma {:induction false} StartSplit(s: State, limit: int)
    ensures var n := Room(s.p, limit);
            && s.p.queue == s.p.queue[..n] + s.p.queue[n..]
            && (forall j :: j in s.p.queue <==> j in s.p.queue[..n] || j in s.p.queue[n..])
  {
    var n := Room(s.p, limit);
    assert s.p.queue == s.p.queue[..n] + s.p.queue[n..];
  }

  lemma {:induction false} StartCounts(s: State, limit: int)
    requires Fifo(s) && Counts(s)
    ensures Counts(Start(s, limit))
  {
    var n := Room(s.p, limit);
    var front := s.p.queue[..n];
    StartSplit(s, limit);
    QueueDistinct(s);
    DistinctCount(front);
    assert SetOf(front) !! s.live;
  }

  lemma {:induction false} StartMap(s: State, limit: int)
    requires Fifo(s) && MapOk(s)
    ensures MapOk(Start(s, limit))
  {
    var n := Room(s.p, limit);
    StartSplit(s, limit);
    QueueDistinct(s);
    var t := Start(s, limit);
    forall j | j in s.p.queue
      ensures (j in s.p.queue[..n]) != (j in s.p.queue[n..])
    {
    }
  }

  lemma {:induction false} StartFifo(s: State, limit: int)
    requires Fifo(s)
    ensures Fifo(Start(s, limit))
  {
    StartSplit(s, limit);
    var n := Room(s.p, limit);
    assert (s.started + s.p.queue[..n]) + s.p.queue[n..] == s.started + s.p.queue;
  }

  /** A dispatch that starts a job ends within the limit. */
  lemma {:induction false} StartWithinLimit(s: State, limit: int)
    ensures Start(s, limit).live == s.live || Start(s, limit).p.running <= limit
  {
    if Room(s.p, limit) == 0 { assert s.p.queue[..0] == []; }
  }

  /** A dispatch leaves the queue empty or the workers at their limit, and keeps everything else. */
  lemma {:induction false} StartKeeps(s: State, limit: int)
    requires Inv(s)
    ensures Inv(Start(s, limit))
    ensures Start(s, limit).p.queue == [] || Start(s, limit).p.running >= limit
    ensures Start(s, limit).live == s.live || |Start(s, limit).live| <= limit
  {
    StartWithinLimit(s, limit);
    StartFifo(s, limit);
    StartCounts(s, limit);
    StartMap(s, limit);
    hide Fifo, MapOk, Counts, SetOf;
  }

  lemma {:induction false} AskKeeps(s: State, url: string, cached: bool)
    requires Inv(s) && Enqueued(s.p, |s.enqueued|, url, cached).0.Queued?
    ensures var r := Enqueued(s.p, |s.enqueued|, url, cached); Inv(s.(p := r.1, enqueued := s.enqueued + [r.0.job]))
  {
    var j := Job(|s.enqueued|, url);
    var q := s.p.queue + [j];
    assert s.started + q == s.enqueued + [j];
    assert forall x :: x in q <==> x in s.p.queue || x == j;
    QueueDistinct(s);
    assert j !in s.live && j !in s.cooling && j !in s.p.queue;
  }

  lemma {:induction false} FinishKeeps(s: State, j: Job, failed: bool)
    requires Inv(s) && j in s.live
    ensures Inv(s.(p := Finished(s.p, j, failed), live := s.live - {j}, closed := s.closed + [j],
                   cooling := if failed then s.cooling + {j} else s.cooling))
    // the finisher's unguarded delete hits its own entry
    ensures j.url in s.p.jobs && s.p.jobs[j.url] == j && j !in s.closed
  {
    var closed := s.closed + [j];
    assert forall x :: x in closed <==> x in s.closed || x == j;
  }

  lemma {:induction false} TimerKeeps(s: State, j: Job)
    requires Inv(s) && j in s.cooling
    ensures Inv(s.(p := Expired(s.p, j), cooling := s.cooling - {j}))
  {
  }

  lemma {:induction false} StepKeeps(s: State, a: Action)
    requires Inv(s) && Enabled(s, a)
    ensures Inv(Next(s, a))
    ensures (a.Ask? && Next(s, a) != s) || a.Finish? || a.Settings? ==> Next(s, a).p.queue == [] || Next(s, a).p.running >= a.limit
    ensures !a.Timer? && !(Next(s, a).live <= s.live) ==> |Next(s, a).live| <= a.limit
    ensures a.Timer? ==> Next(s, a).live == s.live
  {
    hide Inv, Start;
    match a
    case Ask(url, cached, limit) =>
      var r := Enqueued(s.p, |s.enqueued|, url, cached);
      if r.0.Queued? {
        AskKeeps(s, url, cached);
        StartKeeps(s.(p := r.1, enqueued := s.enqueued + [r.0.job]), limit);
      }
    case Finish(j, failed, limit) =>
      FinishKeeps(s, j, failed);
      StartKeeps(s.(p := Finished(s.p, j, failed), live := s.live - {j}, closed := s.closed + [j],
                    cooling := if failed then s.cooling + {j} else s.cooling), limit);
    case Timer(j) => TimerKeeps(s, j);
    case Settings(limit) => StartKeeps(s, limit);
  }

  ghost predicate LegalRun(s: State, actions: seq<Action>)
    decreases |actions|
  {
    actions == [] || (Enabled(s, actions[0]) && LegalRun(Next(s, actions[0]), actions[1..]))
  }

  function Run(s: State, actions: seq<Action>): State
    decreases |actions|
  {
    if actions == [] then s else Run(Next(s, actions[0]), actions[1..])
  }

  lemma {:induction false} InitInv()
    ensures Inv(INIT)
  {
  }

  /** In every state that the server reaches, each job of the map is in one place, one a source address, jobs
      have started in the order of asking, at most 1000 wait, and no done channel has closed twice. */
  lemma {:induction false} EveryReachableState(actions: seq<Action>)
    requires LegalRun(INIT, actions)
    ensures Inv(Run(INIT, actions))
  {
    hide Inv, LegalRun, Run;
    InitInv();
    RunKeeps(INIT, actions);
  }

  /** Every state a run reaches keeps one job per address, each in one place, first in first out, and closes each done once. */
  lemma {:induction false} RunKeeps(s: State, actions: seq<Action>)
    requires Inv(s) && LegalRun(s, actions)
    ensures Inv(Run(s, actions))
    ensures s.started <= Run(s, actions).started && s.enqueued <= Run(s, actions).enqueued && s.closed <= Run(s, actions).closed
    decreases |actions|
  {
    if actions != [] {
      StepKeeps(s, actions[0]);
      StepExtends(s, actions[0]);
      RunKeeps(Next(s, actions[0]), actions[1..]);
    }
  }

  /** The workers keep to a limit that does not change. */
  predicate SameLimit(actions: seq<Action>, limit: int) {
    forall i :: 0 <= i < |actions| && !actions[i].Timer? ==> actions[i].limit == limit
  }

  lemma {:induction false} LimitKept(s: State, actions: seq<Action>, limit: int)
    requires Inv(s) && LegalRun(s, actions) && SameLimit(actions, limit) && |s.live| <= limit
    ensures |Run(s, actions).live| <= limit
    decreases |actions|
  {
    hide Inv, Next, Enabled;
    if actions != [] {
      StepKeeps(s, actions[0]);
      if Next(s, actions[0]).live <= s.live { SubsetSize(Next(s, actions[0]).live, s.live); }
      LimitKept(Next(s, actions[0]), actions[1..], limit);
    }
  }

  /** With one constant limit no more probes run than it says, in every state that the server reaches. */
  lemma {:induction false} NeverOverLimit(actions: seq<Action>, limit: nat)
    requires LegalRun(INIT, actions) && SameLimit(actions, limit)
    ensures |Run(INIT, actions).live| <= limit && Run(INIT, actions).p.running <= limit
  {
    InitInv();
    LimitKept(INIT, actions, limit);
    RunKeeps(INIT, actions);
  }

  /** What asking for an address gives, and when: refused without an address or with a full queue, answered from the
      cache, shared with the job there is, and otherwise a new job that waits or runs. */
  lemma {:induction false} AskAnswers(s: State, url: string, cached: bool, limit: int)
    requires Inv(s)
    ensures var answer, t := Enqueued(s.p, |s.enqueued|, url, cached).0, Next(s, Ask(url, cached, limit));
            && (answer.FromCache? <==> url != "" && cached)
            && (answer.Shared? <==> url != "" && !cached && url in s.p.jobs)
            && (answer.Shared? ==> answer.job == s.p.jobs[url])
            && (answer.Refused? <==> url == "" || (!cached && url !in s.p.jobs && |s.p.queue| >= 1000))
            && (answer.Queued? ==>
                  answer.job.url == url && (answer.job in t.p.queue || answer.job in t.live) && answer.job !in s.enqueued
                  && t.enqueued == s.enqueued + [answer.job])
            && (!answer.Queued? ==> t == s)
  {
    var r := Enqueued(s.p, |s.enqueued|, url, cached);
    if r.0.Queued? {
      var b := s.(p := r.1, enqueued := s.enqueued + [r.0.job]);
      assert r.1.queue[|s.p.queue|] == r.0.job;
      StartSplit(b, limit);
    }
  }

  lemma {:induction false} StepExtends(s: State, a: Action)
    ensures s.started <= Next(s, a).started && s.enqueued <= Next(s, a).enqueued && s.closed <= Next(s, a).closed
  {
  }

  /** While a failed job cools down, asking for its address gives that job back and starts nothing. */
  lemma {:induction false} CoolingIsShared(s: State, j: Job, limit: int)
    requires Inv(s) && (j in s.cooling || j in s.live || j in s.p.queue) && j.url != ""
    ensures Enqueued(s.p, |s.enqueued|, j.url, false) == (Shared(j), s.p)
    ensures Next(s, Ask(j.url, false, limit)) == s
  {
  }
}
