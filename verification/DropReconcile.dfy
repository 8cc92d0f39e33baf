/** What a whole maintenance pass achieves. */
module DropReconcile {
  import opened Wrappers
  import opened DropTables
  import opened DropPins
  import opened DropCoverage
  import opened DropPinSafety
  import opened DropExpiry
  import opened DropHandlers

  ghost predicate IsQuiet(w: World) { w == Quiet(w.db, w.pinned) }

  /** Between requests: nothing is running, the invariant holds, and what files need is pinned. */
  ghost predicate Settled(w: World) { IsQuiet(w) && WorldInv(w) && FilesPinned(w) }

  predicate IsSweepStep(s: Step) {
    s.SweepFile? || s.SweepOrphan? || s.CountRefs? || s.UnpinCid? || s.CloseJob? || s.Crash?
  }

  /** With no transfer in flight a sweep is always inside the exclusion guard. */
  lemma SweepStepKeeps(w: World, s: Step)
    requires WorldInv(w) && Safe(w) && w.transfers == map[] && IsSweepStep(s)
    ensures WorldInv(Next(w, s)) && Safe(Next(w, s)) && Next(w, s).transfers == map[]
  {
    assert Exclusive(w, s);
    StepKeepsWorld(w, s);
    StepSafe(w, s);
  }

  lemma {:induction false} SweepStepsKeep(w: World, steps: seq<Step>)
    requires WorldInv(w) && Safe(w) && w.transfers == map[]
    requires forall i | 0 <= i < |steps| :: IsSweepStep(steps[i])
    ensures WorldInv(Run(w, steps)) && FilesPinned(Run(w, steps))
    decreases |steps|
  {
    if steps != [] {
      SweepStepKeeps(w, steps[0]);
      assert forall i | 0 <= i < |steps[1..]| :: steps[1..][i] == steps[i + 1];
      SweepStepsKeep(Next(w, steps[0]), steps[1..]);
    }
  }

  lemma FileSweepKeeps(w: World, f: FileId, sweep: Sweep)
    requires Settled(w) && UnpinListed(w.db, f)
    ensures Settled(Run(w, FileSweepSteps(f, sweep)))
  {
    assert Safe(w);
    FileSweepEffect(w.db, w.pinned, f, sweep);
    SweepStepsKeep(w, FileSweepSteps(f, sweep));
  }

  lemma OrphanSweepKeeps(w: World, u: UploadId, sweep: Sweep)
    requires Settled(w) && OrphanListed(w.db, u)
    ensures Settled(Run(w, OrphanSweepSteps(u, sweep)))
  {
    assert Safe(w);
    OrphanSweepEffect(w.db, w.pinned, u, sweep);
    SweepStepsKeep(w, OrphanSweepSteps(u, sweep));
  }

  // ---- Which jobs a list of sweeps leaves ------------------------------------------------------------------

  /** The same files, with the same references, are active. */
  ghost predicate SameUses(db: Tables, next: Tables) {
    && next.files.Keys == db.files.Keys
    && forall f | f in db.files ::
         FileRef(next.files[f]) == FileRef(db.files[f]) &&
           (next.files[f].status == Active <==> db.files[f].status == Active)
  }

  lemma SameUsesCountAlike(db: Tables, next: Tables, ref: PinRef, excluded: Option<FileId>)
    requires SameUses(db, next)
    ensures ActiveRefs(next, ref, excluded) == ActiveRefs(db, ref, excluded)
  {
  }

  /** Jobs that a loop does not finish: the unpin is needed and not confirmed, or a store call of the job fails. */
  ghost function StuckFiles(db: Tables, sweeps: FileId -> Sweep): set<FileId> {
    set f | f in db.files && UnpinListed(db, f) && !Finishes(FileShared(db, f), sweeps(f))
  }

  ghost function StuckOrphans(db: Tables, sweeps: UploadId -> Sweep): set<UploadId> {
    set u | u in db.uploads && OrphanListed(db, u) && !Finishes(OrphanShared(db, u), sweeps(u))
  }

  /** The listed jobs after a page of them was swept. */
  ghost function After(all: set<nat>, stuck: set<nat>, page: seq<nat>): set<nat> {
    set x | x in all && (x !in page || x in stuck)
  }

  /** After some of the file jobs: safety and coverage hold, the jobs that could be finished are off the list, and
      every other job is on it as before. */
  ghost predicate FilesSwept(w: World, next: World, jobs: seq<FileId>, sweeps: FileId -> Sweep) {
    && Settled(next) && next.pinned <= w.pinned && next.db.uploads == w.db.uploads && SameUses(w.db, next.db)
    && UnpinJobs(next.db) == After(UnpinJobs(w.db), StuckFiles(w.db, sweeps), jobs)
  }

  ghost predicate OrphansSwept(w: World, next: World, jobs: seq<UploadId>, sweeps: UploadId -> Sweep) {
    && Settled(next) && next.pinned <= w.pinned && next.db.files == w.db.files && next.db.pins == w.db.pins
    && (forall u | OrphanListed(next.db, u) :: u in w.db.uploads && next.db.uploads[u] == w.db.uploads[u])
    && OrphanJobs(next.db) == After(OrphanJobs(w.db), StuckOrphans(w.db, sweeps), jobs)
  }

  /** One more file job. */
  lemma FileSwept(w: World, mid: World, jobs: seq<FileId>, f: FileId, sweeps: FileId -> Sweep)
    requires FilesSwept(w, mid, jobs, sweeps) && f in UnpinJobs(w.db) && f !in jobs
    ensures FilesSwept(w, Run(mid, FileSweepSteps(f, sweeps(f))), jobs + [f], sweeps)
  {
    assert f in UnpinJobs(mid.db);
    var next := Run(mid, FileSweepSteps(f, sweeps(f)));
    FileSweepKeeps(mid, f, sweeps(f));
    FileSweepEffect(mid.db, mid.pinned, f, sweeps(f));
    SameUsesCountAlike(w.db, mid.db, FileRef(w.db.files[f]), Some(f));
    assert FileShared(mid.db, f) == FileShared(w.db, f);
    forall x ensures x in UnpinJobs(next.db) <==> x in After(UnpinJobs(w.db), StuckFiles(w.db, sweeps), jobs + [f]) {
      assert x in jobs + [f] <==> x in jobs || x == f;
      assert x in UnpinJobs(mid.db) <==> x in UnpinJobs(w.db) && (x !in jobs || x in StuckFiles(w.db, sweeps));
    }
  }

  lemma OrphanSwept(w: World, mid: World, jobs: seq<UploadId>, u: UploadId, sweeps: UploadId -> Sweep)
    requires OrphansSwept(w, mid, jobs, sweeps) && u in OrphanJobs(w.db) && u !in jobs
    ensures OrphansSwept(w, Run(mid, OrphanSweepSteps(u, sweeps(u))), jobs + [u], sweeps)
  {
    assert u in OrphanJobs(mid.db);
    var next := Run(mid, OrphanSweepSteps(u, sweeps(u)));
    OrphanSweepKeeps(mid, u, sweeps(u));
    OrphanSweepEffect(mid.db, mid.pinned, u, sweeps(u));
    assert OrphanShared(mid.db, u) == OrphanShared(w.db, u);
    forall x ensures x in OrphanJobs(next.db) <==>
      x in After(OrphanJobs(w.db), StuckOrphans(w.db, sweeps), jobs + [u]) {
      assert x in jobs + [u] <==> x in jobs || x == u;
      assert x in OrphanJobs(mid.db) <==> x in OrphanJobs(w.db) && (x !in jobs || x in StuckOrphans(w.db, sweeps));
    }
  }

  lemma SweepFilesSnoc(w: World, jobs: seq<FileId>, f: FileId, sweeps: FileId -> Sweep)
    ensures SweepFiles(w, jobs + [f], sweeps) ==
              Run(SweepFiles(w, jobs, sweeps), FileSweepSteps(f, sweeps(f)))
  {
    assert (jobs + [f])[..|jobs|] == jobs;
  }

  lemma FileSweptNext(w: World, jobs: seq<FileId>, f: FileId, sweeps: FileId -> Sweep)
    requires FilesSwept(w, SweepFiles(w, jobs, sweeps), jobs, sweeps) && f in UnpinJobs(w.db) && f !in jobs
    ensures FilesSwept(w, SweepFiles(w, jobs + [f], sweeps), jobs + [f], sweeps)
  {
    FileSwept(w, SweepFiles(w, jobs, sweeps), jobs, f, sweeps);
    SweepFilesSnoc(w, jobs, f, sweeps);
  }

  lemma NoFilesSwept(w: World, sweeps: FileId -> Sweep)
    requires Settled(w)
    ensures FilesSwept(w, w, [], sweeps)
  {
    assert UnpinJobs(w.db) == After(UnpinJobs(w.db), StuckFiles(w.db, sweeps), []);
  }

  lemma {:induction false} SweepFilesEffect(w: World, jobs: seq<FileId>, sweeps: FileId -> Sweep)
    requires Settled(w) && Distinct(jobs) && forall i | 0 <= i < |jobs| :: jobs[i] in UnpinJobs(w.db)
    ensures FilesSwept(w, SweepFiles(w, jobs, sweeps), jobs, sweeps)
    decreases |jobs|
  {
    if jobs == [] {
      NoFilesSwept(w, sweeps);
    } else {
      var init, f := jobs[..|jobs| - 1], jobs[|jobs| - 1];
      SweepFilesEffect(w, init, sweeps);
      assert jobs == init + [f];
      FileSweptNext(w, init, f, sweeps);
    }
  }

  lemma SweepOrphansSnoc(w: World, jobs: seq<UploadId>, u: UploadId, sweeps: UploadId -> Sweep)
    ensures SweepOrphans(w, jobs + [u], sweeps) ==
              Run(SweepOrphans(w, jobs, sweeps), OrphanSweepSteps(u, sweeps(u)))
  {
    assert (jobs + [u])[..|jobs|] == jobs;
  }

  lemma OrphanSweptNext(w: World, jobs: seq<UploadId>, u: UploadId, sweeps: UploadId -> Sweep)
    requires OrphansSwept(w, SweepOrphans(w, jobs, sweeps), jobs, sweeps) && u in OrphanJobs(w.db) && u !in jobs
    ensures OrphansSwept(w, SweepOrphans(w, jobs + [u], sweeps), jobs + [u], sweeps)
  {
    OrphanSwept(w, SweepOrphans(w, jobs, sweeps), jobs, u, sweeps);
    SweepOrphansSnoc(w, jobs, u, sweeps);
  }

  lemma NoOrphansSwept(w: World, sweeps: UploadId -> Sweep)
    requires Settled(w)
    ensures OrphansSwept(w, w, [], sweeps)
  {
    assert OrphanJobs(w.db) == After(OrphanJobs(w.db), StuckOrphans(w.db, sweeps), []);
  }

  lemma {:induction false} SweepOrphansEffect(w: World, jobs: seq<UploadId>, sweeps: UploadId -> Sweep)
    requires Settled(w) && Distinct(jobs) && forall i | 0 <= i < |jobs| :: jobs[i] in OrphanJobs(w.db)
    ensures OrphansSwept(w, SweepOrphans(w, jobs, sweeps), jobs, sweeps)
    decreases |jobs|
  {
    if jobs == [] {
      NoOrphansSwept(w, sweeps);
    } else {
      var init, u := jobs[..|jobs| - 1], jobs[|jobs| - 1];
      SweepOrphansEffect(w, init, sweeps);
      assert jobs == init + [u];
      OrphanSweptNext(w, init, u, sweeps);
    }
  }

  /** A pass keeps every active file's pin and every pin covered, whatever the nodes and the store answer. */
  lemma ReconcileSafe(w: World, fileJobs: seq<FileId>, orphanJobs: seq<UploadId>, files: FileId -> Sweep,
                      orphans: UploadId -> Sweep)
    requires Settled(w) && Distinct(fileJobs) && Distinct(orphanJobs)
    requires forall i | 0 <= i < |fileJobs| :: fileJobs[i] in UnpinJobs(w.db)
    requires forall i | 0 <= i < |orphanJobs| :: orphanJobs[i] in OrphanJobs(w.db)
    ensures var next := SweepOrphans(SweepFiles(w, fileJobs, files), orphanJobs, orphans);
            && FilesPinned(next) && next.pinned <= w.pinned
            && forall ref | ref in next.pinned :: Covered(next, ref)
  {
    SweepFilesEffect(w, fileJobs, files);
    var swept := SweepFiles(w, fileJobs, files);
    assert OrphanJobs(swept.db) == OrphanJobs(w.db);
    SweepOrphansEffect(swept, orphanJobs, orphans);
    var next := SweepOrphans(swept, orphanJobs, orphans);
    forall ref | ref in next.pinned ensures Covered(next, ref) { assert Accounted(next, ref); }
  }

  /** Once both lists are empty, the nodes hold exactly what files need. */
  lemma NothingListedNothingWasted(w: World)
    requires Settled(w) && UnpinJobs(w.db) == {} && OrphanJobs(w.db) == {}
    ensures forall ref :: ref in w.pinned <==> exists f :: Needs(w, f, ref)
  {
    forall ref ensures ref in w.pinned <==> exists f :: Needs(w, f, ref) {
      assert Accounted(w, ref);
      if ref in w.pinned {
        forall f ensures !UnpinListed(w.db, f) { assert f !in UnpinJobs(w.db); }
        forall u ensures !OrphanListed(w.db, u) { assert u !in OrphanJobs(w.db); }
        var c :| Covers(w, c, ref);
        if c.ByFile? { assert Needs(w, c.f, ref); }
      }
    }
  }
}
