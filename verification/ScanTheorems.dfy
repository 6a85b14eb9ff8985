/** When an incremental scan leaves the rows a full scan would: trusted rows, the exact condition, and the failing case. */
module ScanTheorems {
  import opened Paths
  import opened Leaves
  import opened Snapshots
  import opened Scanner
  import opened ScanSteps
  import opened ScanExact

  /** What a completed walk of a still disk records. */
  function Stamps(cfg: Config, disk: Disk): Snapshot {
    map q | q in disk && Visible(cfg, q) :: disk[q].stamp
  }

  lemma {:induction false} StampsSettle(cfg: Config, disk: Disk, p: string)
    requires ValidConfig(cfg) && Candidate(cfg, p) && p in disk
    ensures Settled(cfg, Stamps(cfg, disk), disk, p)
  {
    hide Visible, IsStrm, Input;
    forall q | Input(cfg, p, q)
      ensures Recorded(Stamps(cfg, disk), q) == StampOf(disk, q)
    {
      InputsVisible(cfg, p, q);
    }
  }

  lemma {:induction false} StampsAbsolute(cfg: Config, disk: Disk)
    requires ValidConfig(cfg)
    ensures AllAbsolute(Stamps(cfg, disk))
  {
    forall q | q in Stamps(cfg, disk)
      ensures Absolute(q) && LastSlash(q) > 0
    {
      VisibleAbsolute(cfg, q);
    }
  }

  /** A committed state between scans whose rows can be trusted. */
  ghost predicate Idle(cfg: Config, disk: Disk, w: Work) {
    && w.tx.None? && AllAbsolute(w.db.snap) && NamesKept(w.db)
    && Trust(cfg, w.db.names, w.db.snap, disk, w.db.items)
  }

  lemma {:induction false} WholeScan(cfg: Config, snap: Snapshot, disk: Disk, job: Job, w: Work)
    requires ValidConfig(cfg) && Proper(disk) && StillJob(cfg, disk, job) && job.scopes == []
    requires Sound(cfg, snap, disk, Opened(w)) && Scan(cfg, job, w).ok
    ensures var done := Scan(cfg, job, w).w.db;
            && done.snap == Stamps(cfg, disk)
            && done.names == (map p | p in w.db.names && p in done.items :: w.db.names[p])
            && NoGhosts(cfg, done.items, disk, [])
            && forall p :: p in disk && Candidate(cfg, p) ==>
                 (Right(cfg, done.names, disk, done.items, p)
                  <==> (Skipped(job, w.db, done.snap, p) ==> Right(cfg, w.db.names, disk, w.db.items, p)))
  {
    hide Scan, Visible, IsStrm, SkipTest, Right, Proper, Sound, NoGhosts, Inventory;
    StillScan(cfg, snap, disk, job, w);
    assert Scan(cfg, job, w).w.db.snap == Stamps(cfg, disk);
  }

  /** From a trusted state, every successful whole-library scan of a still disk is exact, incremental or not. */
  lemma {:induction false} TrustedScanExact(cfg: Config, disk: Disk, job: Job, w: Work)
    requires ValidConfig(cfg) && Proper(disk) && StillJob(cfg, disk, job) && job.scopes == []
    requires Idle(cfg, disk, w) && Scan(cfg, job, w).ok
    ensures Exact(cfg, Scan(cfg, job, w).w.db, disk)
    ensures Scan(cfg, job, w).w.db.snap == Stamps(cfg, disk)
    ensures var done := Scan(cfg, job, w).w.db; done.names == map p | p in w.db.names && p in done.items :: w.db.names[p]
  {
    hide Scan, Visible, IsStrm, SkipTest, Right, Proper, Settled, NamesKept, AllAbsolute, NoGhosts, Inventory;
    WholeScan(cfg, w.db.snap, disk, job, w) by { SoundWhenIdle(cfg, w.db.snap, disk, w); }
    var done := Scan(cfg, job, w).w.db;
    StampsAbsolute(cfg, disk);
    forall p | p in disk && Candidate(cfg, p) && Skipped(job, w.db, done.snap, p)
      ensures Right(cfg, w.db.names, disk, w.db.items, p)
    {
      StampsSettle(cfg, disk, p);
      SkipSound(cfg, w.db.snap, done.snap, disk, p);
      assert TrustAt(cfg, w.db.names, w.db.snap, disk, w.db.items, p);
    }
  }

  lemma {:induction false} SoundWhenIdle(cfg: Config, snap: Snapshot, disk: Disk, w: Work)
    requires NamesKept(w.db) && Trust(cfg, w.db.names, snap, disk, w.db.items)
    ensures Sound(cfg, snap, disk, Opened(w))
  {
    hide Trust, NamesKept;
    assert w.db.(items := w.db.items) == w.db;
  }

  /** Equal leaf rows, seen aside. */
  ghost predicate SameLeaves(a: Items, b: Items) {
    && (forall p :: (p in a && IsLeaf(a[p])) <==> (p in b && IsLeaf(b[p])))
    && (forall p :: p in a && IsLeaf(a[p]) && p in b ==> Same(a[p], b[p]))
  }

  lemma {:induction false} ExactAgree(cfg: Config, disk: Disk, names: map<string, string>, a: Tables, b: Tables)
    requires Exact(cfg, a, disk) && Exact(cfg, b, disk)
    requires a.names == map p | p in names && p in a.items :: names[p]
    requires b.names == map p | p in names && p in b.items :: names[p]
    ensures SameLeaves(a.items, b.items)
  {
    hide Visible, IsStrm, LeafRow;
    forall p
      ensures (p in a.items && IsLeaf(a.items[p])) <==> (p in b.items && IsLeaf(b.items[p]))
      ensures p in a.items && IsLeaf(a.items[p]) && p in b.items ==> Same(a.items[p], b.items[p])
    {
      if p in disk && Candidate(cfg, p) {
        RightIsLeaf(cfg, a.names, disk, a.items, p);
        RightIsLeaf(cfg, b.names, disk, b.items, p);
      }
    }
  }

  /** Rows that agree with exact ones, file by file, are exact. */
  lemma {:induction false} AgreeExact(cfg: Config, disk: Disk, names: map<string, string>, a: Tables, b: Tables)
    requires Exact(cfg, b, disk) && SameLeaves(a.items, b.items)
    requires a.names == map p | p in names && p in a.items :: names[p]
    requires b.names == map p | p in names && p in b.items :: names[p]
    ensures Exact(cfg, a, disk)
  {
    hide Visible, IsStrm, LeafRow;
    forall p | p in disk && Candidate(cfg, p)
      ensures Right(cfg, a.names, disk, a.items, p)
    {
      RightIsLeaf(cfg, b.names, disk, b.items, p);
    }
  }

  /** A successful full scan of a still disk is exact, whatever was in the tables before. */
  lemma {:induction false} FullScanExact(cfg: Config, disk: Disk, job: Job, w: Work)
    requires ValidConfig(cfg) && Proper(disk) && StillJob(cfg, disk, job) && job.scopes == [] && !job.incremental
    requires w.tx.None? && NamesKept(w.db) && Scan(cfg, job, w).ok
    ensures Exact(cfg, Scan(cfg, job, w).w.db, disk)
    ensures Scan(cfg, job, w).w.db.snap == Stamps(cfg, disk)
    ensures var done := Scan(cfg, job, w).w.db; done.names == map p | p in w.db.names && p in done.items :: w.db.names[p]
  {
    hide Scan, Visible, IsStrm, SkipTest, Right, Proper, NamesKept, NoGhosts, Inventory;
    SoundWhenIdle(cfg, map[], disk, w) by { NothingSettled(cfg, w.db.names, disk, w.db.items); }
    WholeScan(cfg, map[], disk, job, w);
  }

  /** The fast scan refines the slow one: same leaf rows, same snapshot. */
  lemma {:induction false} IncrementalEqualsFull(cfg: Config, disk: Disk, fast: Job, slow: Job, w: Work)
    requires ValidConfig(cfg) && Proper(disk) && Idle(cfg, disk, w)
    requires StillJob(cfg, disk, fast) && StillJob(cfg, disk, slow) && fast.scopes == slow.scopes == []
    requires fast.incremental && !slow.incremental
    requires Scan(cfg, fast, w).ok && Scan(cfg, slow, w).ok
    ensures SameLeaves(Scan(cfg, fast, w).w.db.items, Scan(cfg, slow, w).w.db.items)
    ensures Scan(cfg, fast, w).w.db.snap == Scan(cfg, slow, w).w.db.snap
  {
    hide Scan, Exact, Visible, IsStrm, Inventory, Idle, Proper;
    TrustedScanExact(cfg, disk, fast, w);
    TrustedScanExact(cfg, disk, slow, w);
    ExactAgree(cfg, disk, w.db.names, Scan(cfg, fast, w).w.db, Scan(cfg, slow, w).w.db);
  }

  // ---- the exact condition

  /** A stamp identifies the content of a file. */
  ghost predicate StampsIdentify(a: Disk, b: Disk) {
    forall q :: StampOf(a, q) == StampOf(b, q) ==> At(a, q) == At(b, q)
  }

  lemma {:induction false} SkippedInputs(cfg: Config, was: Disk, disk: Disk, p: string)
    requires ValidConfig(cfg) && Proper(disk) && StampsIdentify(was, disk)
    requires Candidate(cfg, p) && p in disk
    ensures SkipTest(Stamps(cfg, was), Stamps(cfg, disk), p) <==> SameInputs(cfg, was, disk, p)
  {
    StampsAbsolute(cfg, was);
    StampsAbsolute(cfg, disk);
    SkipTestMeaning(cfg, Stamps(cfg, was), Stamps(cfg, disk), p);
    hide SkipTest, Visible, IsStrm, Input;
    forall q | Input(cfg, p, q)
      ensures Recorded(Stamps(cfg, was), q) == Recorded(Stamps(cfg, disk), q) <==> At(was, q) == At(disk, q)
    {
      InputsVisible(cfg, p, q);
    }
  }

  /** Whatever unfinished scans did to the rows, an incremental scan is exact if and only if every row it
      leaves alone, being that of a file whose inputs are as the snapshot recorded them, is still the
      row of the recorded disk. */
  lemma {:induction false} IncrementalExactIff(cfg: Config, was: Disk, disk: Disk, job: Job, w: Work)
    requires ValidConfig(cfg) && Proper(was) && Proper(disk) && StampsIdentify(was, disk)
    requires StillJob(cfg, disk, job) && job.scopes == [] && job.incremental
    requires w.tx.None? && NamesKept(w.db) && w.db.snap == Stamps(cfg, was)
    requires Scan(cfg, job, w).ok
    ensures Exact(cfg, Scan(cfg, job, w).w.db, disk) <==>
            forall p :: p in was && Candidate(cfg, p) && p in w.db.items && SameInputs(cfg, was, disk, p)
              ==> Right(cfg, w.db.names, was, w.db.items, p)
  {
    hide Scan, Visible, IsStrm, SkipTest, Right, Proper, NamesKept, NoGhosts, Inventory, StampsIdentify, SameInputs;
    SoundWhenIdle(cfg, map[], disk, w) by { NothingSettled(cfg, w.db.names, disk, w.db.items); }
    WholeScan(cfg, map[], disk, job, w);
    forall p | Candidate(cfg, p) && SameInputs(cfg, was, disk, p) && (p in was || p in disk)
      ensures p in was && p in disk
      ensures Right(cfg, w.db.names, was, w.db.items, p) <==> Right(cfg, w.db.names, disk, w.db.items, p)
    {
      RightOfSameInputs(cfg, w.db.names, was, disk, w.db.items, p);
    }
    forall p | p in disk && Candidate(cfg, p)
      ensures SkipTest(w.db.snap, Scan(cfg, job, w).w.db.snap, p) <==> SameInputs(cfg, was, disk, p)
    {
      SkippedInputs(cfg, was, disk, p);
    }
  }

  lemma {:induction false} NothingSettled(cfg: Config, names: map<string, string>, disk: Disk, items: Items)
    ensures Trust(cfg, names, map[], disk, items)
  {
    hide Visible, IsStrm, Right;
    forall p
      ensures TrustAt(cfg, names, map[], disk, items, p)
    {
      assert Input(cfg, p, p);
    }
  }

  lemma {:induction false} RightOfSameInputs(cfg: Config, names: map<string, string>, a: Disk, b: Disk, items: Items, p: string)
    requires ValidConfig(cfg) && Candidate(cfg, p) && SameInputs(cfg, a, b, p) && (p in a || p in b)
    ensures p in a && p in b
    ensures Right(cfg, names, a, items, p) <==> Right(cfg, names, b, items, p)
  {
    hide LeafRow, Visible, IsStrm;
    assert Input(cfg, p, p);
    assert At(a, p) == At(b, p);
    if a[p].text.Lines? { LeafRowInputs(cfg, a, b, p, ""); }
  }

  /** Right after a successful whole-library scan, the rows can be trusted on whatever disk comes next: with no
      failed or scoped scan in between, the next incremental scan is exact whatever was edited. */
  lemma {:induction false} ExactStaysTrusted(cfg: Config, was: Disk, disk: Disk, w: Work)
    requires ValidConfig(cfg) && StampsIdentify(was, disk)
    requires w.tx.None? && NamesKept(w.db) && w.db.snap == Stamps(cfg, was) && Exact(cfg, w.db, was)
    ensures Idle(cfg, disk, w)
  {
    StampsAbsolute(cfg, was);
    hide Visible, IsStrm, Right, NamesKept, AllAbsolute, Input, NoGhosts, TrustAt, StampsIdentify;
    forall p
      ensures TrustAt(cfg, w.db.names, w.db.snap, disk, w.db.items, p)
    {
      ExactTrustAt(cfg, was, disk, w.db, p);
    }
  }

  lemma {:induction false} ExactTrustAt(cfg: Config, was: Disk, disk: Disk, db: Tables, p: string)
    requires ValidConfig(cfg) && StampsIdentify(was, disk) && db.snap == Stamps(cfg, was)
    requires Candidate(cfg, p) && p in was ==> Right(cfg, db.names, was, db.items, p)
    ensures TrustAt(cfg, db.names, db.snap, disk, db.items, p)
  {
    hide Visible, IsStrm, Right, Input;
    if p in db.items && Candidate(cfg, p) && Settled(cfg, db.snap, disk, p) {
      forall q | Input(cfg, p, q)
        ensures At(was, q) == At(disk, q)
      {
        InputsVisible(cfg, p, q);
      }
      assert SameInputs(cfg, was, disk, p);
      RightOfSameInputs(cfg, db.names, was, disk, db.items, p) by { assert p in disk; }
    }
  }

  // ---- the failing case: a sidecar seen only by a scan that did not finish

  /** Putting an NFO with a title beside a file gives its row that title. */
  lemma {:induction false} NfoNamesRow(cfg: Config, disk: Disk, p: string, nfo: File)
    requires Candidate(cfg, p) && p in disk && disk[p].text.Lines?
    requires Stem(p) + ".nfo" != p
    requires nfo.nfo.Some? && nfo.nfo.value.title != ""
    ensures var d := disk[Stem(p) + ".nfo" := nfo];
            p in d && d[p] == disk[p] && LeafRow(cfg, d, p, "").name == nfo.nfo.value.title
  {
    hide Visible, PlaceOf, IsStrm, FirstPresent, EpisodeTag, Base;
    var d := disk[Stem(p) + ".nfo" := nfo];
    assert NfoNames(p)[0] in d;
    assert FirstNfo(d, NfoNames(p)) == nfo.nfo;
  }

  /** A row written while an NFO stood beside the file survives the NFO's removal when no snapshot ever
      recorded it: the later incremental scan succeeds and is not exact. */
  lemma {:induction false} VanishedSidecarStays(cfg: Config, disk: Disk, p: string, nfo: File, job: Job, w: Work)
    requires ValidConfig(cfg) && Proper(disk) && Candidate(cfg, p) && p in disk && disk[p].text.Lines?
    requires Stem(p) + ".nfo" != p && Stem(p) + ".nfo" !in disk
    requires nfo.nfo.Some? && nfo.nfo.value.title != "" && nfo.nfo.value.title != LeafRow(cfg, disk, p, "").name
    requires w.tx.None? && NamesKept(w.db) && w.db.snap == Stamps(cfg, disk) && p !in w.db.names
    requires Right(cfg, w.db.names, disk[Stem(p) + ".nfo" := nfo], w.db.items, p)
    requires StillJob(cfg, disk, job) && job.scopes == [] && job.incremental && Scan(cfg, job, w).ok
    ensures !Exact(cfg, Scan(cfg, job, w).w.db, disk)
  {
    hide Scan, Visible, IsStrm, LeafRow, Exact, Inventory, Stem, NamesKept;
    NfoNamesRow(cfg, disk, p, nfo);
    IncrementalExactIff(cfg, disk, disk, job, w);
    assert SameInputs(cfg, disk, disk, p);
    assert !Right(cfg, w.db.names, disk, w.db.items, p);
  }

  /** How such rows come about: a scan that fails after its last batch has committed every row it wrote,
      and leaves the old snapshot. */
  lemma {:induction false} UnfinishedScanCommits(cfg: Config, disk: Disk, job: Job, w: Work)
    requires ValidConfig(cfg) && Proper(disk) && StillJob(cfg, disk, job) && job.scopes == [] && !job.incremental
    requires w.tx.None? && NamesKept(w.db) && w.healthy > 0 && job.rootsOk
    requires var s := VisitAll(cfg, false, w.db.snap, Inventory(job.walked), job.visits, job.seen, Opened(w).(healthy := w.healthy - 1));
             s.ok && Flush(s.w).ok && Flush(s.w).w.healthy == 0
    ensures var done := Scan(cfg, job, w);
            && !done.ok && done.w.tx.None? && done.w.db.snap == w.db.snap && done.w.db.names == w.db.names
            && NamesKept(done.w.db)
            && forall p :: p in disk && Candidate(cfg, p) ==> Right(cfg, w.db.names, disk, done.w.db.items, p)
  {
    hide VisitAll, SkipTest, Right, Visible, IsStrm, Proper, Inventory, Flush, Sound, NamesKept;
    SoundWhenIdle(cfg, map[], disk, w) by { NothingSettled(cfg, w.db.names, disk, w.db.items); }
    StillWalk(cfg, map[], disk, job, w);
    var s := VisitAll(cfg, false, w.db.snap, Inventory(job.walked), job.visits, job.seen, Opened(w).(healthy := w.healthy - 1));
    FlushCases(s.w);
    forall p | p in disk && Candidate(cfg, p)
      ensures Right(cfg, w.db.names, disk, Flush(s.w).w.db.items, p)
    {
      RightStays(cfg, s.w.db.names, w.db.names, disk, s.w.View(), Flush(s.w).w.db.items, p);
    }
    SoundNames(cfg, map[], disk, s.w);
    assert Flush(s.w).w.db == s.w.db.(items := s.w.View());
  }

  lemma {:induction false} SoundNames(cfg: Config, snap: Snapshot, disk: Disk, w: Work)
    requires Sound(cfg, snap, disk, w)
    ensures NamesKept(w.db.(items := w.View()))
  {
    hide Trust, NamesKept;
  }

  /** The whole failing run: an NFO appears, a full scan fails after its last batch, the NFO goes again,
      and the next successful incremental scan does not give the rows of the disk. */
  lemma {:induction false} FailedScanThenRevert(cfg: Config, disk: Disk, p: string, nfo: File, failed: Job, job: Job, w: Work, healthy: nat)
    requires ValidConfig(cfg) && Proper(disk) && Candidate(cfg, p) && p in disk && disk[p].text.Lines?
    requires Stem(p) + ".nfo" != p && Stem(p) + ".nfo" !in disk && Proper(disk[Stem(p) + ".nfo" := nfo])
    requires nfo.nfo.Some? && nfo.nfo.value.title != "" && nfo.nfo.value.title != LeafRow(cfg, disk, p, "").name
    requires w.tx.None? && NamesKept(w.db) && w.db.snap == Stamps(cfg, disk) && p !in w.db.names
    requires StillJob(cfg, disk[Stem(p) + ".nfo" := nfo], failed) && failed.scopes == [] && !failed.incremental
    requires w.healthy > 0 && failed.rootsOk
    requires var s := VisitAll(cfg, false, w.db.snap, Inventory(failed.walked), failed.visits, failed.seen, Opened(w).(healthy := w.healthy - 1));
             s.ok && Flush(s.w).ok && Flush(s.w).w.healthy == 0
    requires StillJob(cfg, disk, job) && job.scopes == [] && job.incremental
    requires Scan(cfg, job, Scan(cfg, failed, w).w.(healthy := healthy)).ok
    ensures !Exact(cfg, Scan(cfg, job, Scan(cfg, failed, w).w.(healthy := healthy)).w.db, disk)
  {
    hide Scan, Visible, IsStrm, LeafRow, Exact, Inventory, Stem, NamesKept, Proper, VisitAll, Flush, Right;
    UnfinishedScanCommits(cfg, disk[Stem(p) + ".nfo" := nfo], failed, w);
    VanishedSidecarStays(cfg, disk, p, nfo, job, Scan(cfg, failed, w).w.(healthy := healthy));
  }
}
