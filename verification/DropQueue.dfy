/** Repeated maintenance passes. */
module DropQueue {
  import opened Wrappers
  import opened DropTables
  import opened DropPins
  import opened DropPinSafety
  import opened DropExpiry
  import opened JobQueue
  import opened DropHandlers
  import opened DropReconcile

  /** The two lists a pass worked on. */
  datatype Lists = Lists(files: seq<FileId>, orphans: seq<UploadId>)

  /** The time the delete jobs of a pass leave to its orphan jobs. */
  function LeftFor(lists: Lists, pass: PassInput): nat { Rest(pass.budget, lists.files, pass.files) }

  ghost function FilePart(w: World, lists: Lists, pass: PassInput): World {
    SweepFiles(w, lists.files, Sweeps(lists.files, pass.files, pass.budget))
  }

  ghost function Pass(w: World, lists: Lists, pass: PassInput): World {
    SweepOrphans(FilePart(w, lists, pass), lists.orphans, Sweeps(lists.orphans, pass.orphans, LeftFor(lists, pass)))
  }

  ghost predicate IsPass(w: World, lists: Lists, pass: PassInput) {
    && Listing(UnpinJobs(w.db), pass.pinStamp, pass.filesListed, pass.budget, lists.files)
    && Listing(OrphanJobs(FilePart(w, lists, pass).db), pass.uploadStamp, pass.orphansListed, LeftFor(lists, pass),
               lists.orphans)
  }

  /** Passes one after another with nothing in between; nodes and store treat each job alike every time. */
  ghost predicate IsPassRun(w: World, passes: seq<Lists>, pass: PassInput)
    decreases |passes|
  {
    passes == [] || (IsPass(w, passes[0], pass) && IsPassRun(Pass(w, passes[0], pass), passes[1..], pass))
  }

  ghost function AfterAll(w: World, passes: seq<Lists>, pass: PassInput): World
    decreases |passes|
  {
    if passes == [] then w else AfterAll(Pass(w, passes[0], pass), passes[1..], pass)
  }

  function FilePages(passes: seq<Lists>): seq<seq<nat>> {
    seq(|passes|, i requires 0 <= i < |passes| => passes[i].files)
  }

  function OrphanPages(passes: seq<Lists>): seq<seq<nat>> {
    seq(|passes|, i requires 0 <= i < |passes| => passes[i].orphans)
  }

  // ---- The two lists as queues --------------------------------------------------------------------------------

  /** What becomes of the jobs when there is time enough. */
  function Unhurried(handling: nat -> Handling): nat -> Sweep { (j: nat) => handling(j).sweep }

  ghost function FileQueue(db: Tables, pass: PassInput): Queue {
    Queue(pass.pinStamp, 20, StuckFiles(db, Unhurried(pass.files)), Times(pass.files),
          if pass.filesListed then pass.budget else 0)
  }

  ghost function OrphanQueue(db: Tables, pass: PassInput, left: nat): Queue {
    Queue(pass.uploadStamp, 20, StuckOrphans(db, Unhurried(pass.orphans)), Times(pass.orphans),
          if pass.orphansListed then left else 0)
  }

  /** A job is finished exactly when it could be and is through before the deadline. */
  lemma HandledFinishes(h: Handling, start: nat, budget: nat, shared: bool)
    ensures Finishes(shared, Handled(h, start, budget)) <==> Finishes(shared, h.sweep) && start + h.time < budget
  {
  }

  lemma FilePageLeaves(db: Tables, lists: Lists, pass: PassInput)
    requires !pass.filesListed ==> lists.files == []
    ensures After(UnpinJobs(db), StuckFiles(db, Sweeps(lists.files, pass.files, pass.budget)), lists.files) ==
              AfterPage(UnpinJobs(db), FileQueue(db, pass), lists.files)
  {
    forall f | UnpinListed(db, f)
      ensures f in StuckFiles(db, Sweeps(lists.files, pass.files, pass.budget)) <==>
                f in StuckFiles(db, Unhurried(pass.files)) ||
                StartOf(lists.files, Times(pass.files), f) + pass.files(f).time >= pass.budget
    {
      HandledFinishes(pass.files(f), StartOf(lists.files, Times(pass.files), f), pass.budget, FileShared(db, f));
    }
  }

  lemma OrphanPageLeaves(db: Tables, page: seq<UploadId>, pass: PassInput, left: nat)
    requires !pass.orphansListed ==> page == []
    ensures After(OrphanJobs(db), StuckOrphans(db, Sweeps(page, pass.orphans, left)), page) ==
              AfterPage(OrphanJobs(db), OrphanQueue(db, pass, left), page)
  {
    forall u | OrphanListed(db, u)
      ensures u in StuckOrphans(db, Sweeps(page, pass.orphans, left)) <==>
                u in StuckOrphans(db, Unhurried(pass.orphans)) ||
                StartOf(page, Times(pass.orphans), u) + pass.orphans(u).time >= left
    {
      HandledFinishes(pass.orphans(u), StartOf(page, Times(pass.orphans), u), left, OrphanShared(db, u));
    }
  }

  // ---- One pass -----------------------------------------------------------------------------------------------

  /** Jobs that nothing can finish stay, and stay so. */
  lemma StuckFilesStay(db: Tables, next: Tables, sweeps: FileId -> Sweep)
    requires SameUses(db, next) && StuckFiles(db, sweeps) <= UnpinJobs(next) <= UnpinJobs(db)
    ensures StuckFiles(next, sweeps) == StuckFiles(db, sweeps)
  {
    forall f ensures f in StuckFiles(next, sweeps) <==> f in StuckFiles(db, sweeps) {
      assert f in UnpinJobs(next) ==> f in UnpinJobs(db);
      if f in db.files { SameUsesCountAlike(db, next, FileRef(db.files[f]), Some(f)); }
    }
  }

  lemma StuckOrphansStay(db: Tables, next: Tables, sweeps: UploadId -> Sweep)
    requires SameUses(db, next) && StuckOrphans(db, sweeps) <= OrphanJobs(next) <= OrphanJobs(db)
    requires forall u | OrphanListed(next, u) :: u in db.uploads && next.uploads[u] == db.uploads[u]
    ensures StuckOrphans(next, sweeps) == StuckOrphans(db, sweeps)
  {
    forall u ensures u in StuckOrphans(next, sweeps) <==> u in StuckOrphans(db, sweeps) {
      assert u in OrphanJobs(next) ==> u in OrphanJobs(db);
      if u in OrphanJobs(next) { SameUsesCountAlike(db, next, UploadRef(db.uploads[u]), None); }
    }
  }

  /** What a pass does to the delete jobs, and that the stuck ones stay the stuck ones. */
  ghost predicate FilesPassed(w: World, next: World, lists: Lists, pass: PassInput) {
    && Turn(UnpinJobs(w.db), FileQueue(w.db, pass), lists.files)
    && UnpinJobs(next.db) == AfterPage(UnpinJobs(w.db), FileQueue(w.db, pass), lists.files)
    && FileQueue(next.db, pass) == FileQueue(w.db, pass)
  }

  ghost predicate OrphansPassed(w: World, next: World, lists: Lists, pass: PassInput) {
    var q := OrphanQueue(w.db, pass, LeftFor(lists, pass));
    && Turn(OrphanJobs(w.db), q, lists.orphans)
    && OrphanJobs(next.db) == AfterPage(OrphanJobs(w.db), q, lists.orphans)
    && OrphanQueue(next.db, pass, LeftFor(lists, pass)) == q
  }

  lemma FilesPass(w: World, lists: Lists, pass: PassInput)
    requires Settled(w) && Listing(UnpinJobs(w.db), pass.pinStamp, pass.filesListed, pass.budget, lists.files)
    ensures var swept := FilePart(w, lists, pass);
            && FilesSwept(w, swept, lists.files, Sweeps(lists.files, pass.files, pass.budget))
            && FilesPassed(w, swept, lists, pass)
  {
    var swept := FilePart(w, lists, pass);
    SweepFilesEffect(w, lists.files, Sweeps(lists.files, pass.files, pass.budget));
    FilePageLeaves(w.db, lists, pass);
    StuckFilesStay(w.db, swept.db, Unhurried(pass.files));
  }

  lemma SweptOrphans(swept: World, page: seq<UploadId>, pass: PassInput, left: nat)
    requires Settled(swept) && Listing(OrphanJobs(swept.db), pass.uploadStamp, pass.orphansListed, left, page)
    ensures var next := SweepOrphans(swept, page, Sweeps(page, pass.orphans, left));
            && OrphansSwept(swept, next, page, Sweeps(page, pass.orphans, left))
            && OrphanJobs(next.db) == AfterPage(OrphanJobs(swept.db), OrphanQueue(swept.db, pass, left), page)
            && OrphanQueue(next.db, pass, left) == OrphanQueue(swept.db, pass, left)
  {
    var next := SweepOrphans(swept, page, Sweeps(page, pass.orphans, left));
    SweepOrphansEffect(swept, page, Sweeps(page, pass.orphans, left));
    OrphanPageLeaves(swept.db, page, pass, left);
    StuckOrphansStay(swept.db, next.db, Unhurried(pass.orphans));
  }

  lemma SameOrphans(db: Tables, swept: Tables, pass: PassInput, left: nat)
    requires swept.uploads == db.uploads && SameUses(db, swept)
    ensures OrphanJobs(swept) == OrphanJobs(db) && OrphanQueue(swept, pass, left) == OrphanQueue(db, pass, left)
  {
    assert OrphanJobs(swept) == OrphanJobs(db);
    StuckOrphansStay(db, swept, Unhurried(pass.orphans));
  }

  lemma OrphansPass(w: World, swept: World, lists: Lists, pass: PassInput)
    requires swept.db.uploads == w.db.uploads && SameUses(w.db, swept.db) && Settled(swept)
    requires Listing(OrphanJobs(swept.db), pass.uploadStamp, pass.orphansListed, LeftFor(lists, pass), lists.orphans)
    ensures var sweeps := Sweeps(lists.orphans, pass.orphans, LeftFor(lists, pass));
            var next := SweepOrphans(swept, lists.orphans, sweeps);
            OrphansSwept(swept, next, lists.orphans, sweeps) && OrphansPassed(w, next, lists, pass)
  {
    SweptOrphans(swept, lists.orphans, pass, LeftFor(lists, pass));
    SameOrphans(w.db, swept.db, pass, LeftFor(lists, pass));
  }

  lemma OrphansLeaveFiles(w: World, swept: World, next: World, lists: Lists, pass: PassInput)
    requires FilesPassed(w, swept, lists, pass) && next.db.files == swept.db.files && next.db.pins == swept.db.pins
    ensures FilesPassed(w, next, lists, pass)
  {
    assert UnpinJobs(next.db) == UnpinJobs(swept.db);
    StuckFilesStay(swept.db, next.db, Unhurried(pass.files));
  }

  lemma PassEffect(w: World, lists: Lists, pass: PassInput)
    requires Settled(w) && IsPass(w, lists, pass)
    ensures var next := Pass(w, lists, pass);
            Settled(next) && FilesPassed(w, next, lists, pass) && OrphansPassed(w, next, lists, pass)
  {
    FilesPass(w, lists, pass);
    OrphansPass(w, FilePart(w, lists, pass), lists, pass);
    OrphansLeaveFiles(w, FilePart(w, lists, pass), Pass(w, lists, pass), lists, pass);
  }

  // ---- Runs of passes -----------------------------------------------------------------------------------------

  /** What every pass of a run does to the two lists. */
  ghost predicate AllPassed(w: World, passes: seq<Lists>, pass: PassInput)
    decreases |passes|
  {
    passes == [] ||
    var next := Pass(w, passes[0], pass);
    && FilesPassed(w, next, passes[0], pass) && OrphansPassed(w, next, passes[0], pass)
    && AllPassed(next, passes[1..], pass)
  }

  lemma {:induction false} PassesSettle(w: World, passes: seq<Lists>, pass: PassInput)
    requires Settled(w) && IsPassRun(w, passes, pass)
    ensures Settled(AfterAll(w, passes, pass)) && AllPassed(w, passes, pass)
    decreases |passes|
  {
    if passes != [] {
      PassEffect(w, passes[0], pass);
      PassesSettle(Pass(w, passes[0], pass), passes[1..], pass);
    }
  }

  lemma {:induction false} FilesArePages(w: World, passes: seq<Lists>, pass: PassInput)
    requires AllPassed(w, passes, pass)
    ensures var q := FileQueue(w.db, pass);
            && IsPageRun(UnpinJobs(w.db), q, FilePages(passes))
            && UnpinJobs(AfterAll(w, passes, pass).db) == Remaining(UnpinJobs(w.db), q, FilePages(passes))
            && FileQueue(AfterAll(w, passes, pass).db, pass) == q
    decreases |passes|
  {
    if passes != [] {
      FilesArePages(Pass(w, passes[0], pass), passes[1..], pass);
      PageThenRun(UnpinJobs(w.db), FileQueue(w.db, pass), passes[0].files, FilePages(passes[1..]));
      assert FilePages(passes) == [passes[0].files] + FilePages(passes[1..]);
    }
  }

  /** The references of a job were counted, which is where working on it begins. */
  predicate CountedIn(page: seq<nat>, handling: nat -> Handling, budget: nat, j: nat) {
    j in page && Sweeps(page, handling, budget)(j).Counted?
  }

  lemma CountedIffReached(q: Queue, page: seq<nat>, handling: nat -> Handling, budget: nat, j: nat)
    requires q.time == Times(handling) && (q.budget == budget || page == [])
    ensures CountedIn(page, handling, budget, j) <==> Reached(q, page, j) && handling(j).sweep.Counted?
  {
  }

  /** A delete job has its references counted in some pass, if its own count works, exactly when the list can be read,
      fewer than twenty older delete jobs are stuck, and no older one, after the stuck ones before it, takes the rest of
      the time: one node that never answers is enough. */
  lemma FileRetriedIff(w: World, passes: seq<Lists>, pass: PassInput, f: FileId)
    requires Settled(w) && IsPassRun(w, passes, pass) && UnpinListed(w.db, f)
    requires |passes| >= |UnpinJobs(w.db)| && DistinctStamps(UnpinJobs(w.db), pass.pinStamp)
    ensures (exists i | 0 <= i < |passes| :: CountedIn(passes[i].files, pass.files, pass.budget, f)) <==>
              pass.files(f).sweep.Counted? && Served(UnpinJobs(w.db), FileQueue(w.db, pass), f)
  {
    var q := FileQueue(w.db, pass);
    PassesSettle(w, passes, pass);
    FilesArePages(w, passes, pass);
    ReachedIff(UnpinJobs(w.db), q, FilePages(passes), f);
    if !pass.filesListed { FilesEmptyUnlisted(w, passes, pass); }
    forall i | 0 <= i < |passes|
      ensures CountedIn(passes[i].files, pass.files, pass.budget, f) <==>
                Reached(q, FilePages(passes)[i], f) && pass.files(f).sweep.Counted?
    {
      CountedIffReached(q, passes[i].files, pass.files, pass.budget, f);
    }
  }

  /** Otherwise it stays on the list for good. */
  lemma UnservedFile(w: World, passes: seq<Lists>, pass: PassInput, f: FileId)
    requires Settled(w) && IsPassRun(w, passes, pass) && UnpinListed(w.db, f)
    requires !Served(UnpinJobs(w.db), FileQueue(w.db, pass), f)
    ensures f in UnpinJobs(AfterAll(w, passes, pass).db)
    ensures forall i | 0 <= i < |passes| :: !CountedIn(passes[i].files, pass.files, pass.budget, f)
  {
    var q := FileQueue(w.db, pass);
    PassesSettle(w, passes, pass);
    FilesArePages(w, passes, pass);
    UnservedForever(UnpinJobs(w.db), q, FilePages(passes), f);
    if !pass.filesListed { FilesEmptyUnlisted(w, passes, pass); }
    forall i | 0 <= i < |passes| ensures !CountedIn(passes[i].files, pass.files, pass.budget, f) {
      assert !Reached(q, FilePages(passes)[i], f);
      CountedIffReached(q, passes[i].files, pass.files, pass.budget, f);
    }
  }

  lemma {:induction false} FilesEmptyUnlisted(w: World, passes: seq<Lists>, pass: PassInput)
    requires AllPassed(w, passes, pass) && !pass.filesListed
    ensures forall i | 0 <= i < |passes| :: passes[i].files == []
    decreases |passes|
  {
    if passes != [] {
      FilesEmptyUnlisted(Pass(w, passes[0], pass), passes[1..], pass);
      forall i | 0 <= i < |passes| ensures passes[i].files == [] {
        if i > 0 { assert passes[i] == passes[1..][i - 1]; }
      }
    }
  }

  // ---- Orphan jobs: what the delete jobs leave them ----------------------------------------------------------

  /** A pass finishes none of the delete jobs on its page, so that every later pass works on the same page. */
  ghost predicate DeletesAtRest(db: Tables, page: seq<FileId>, pass: PassInput) {
    AtRest(UnpinJobs(db), FileQueue(db, pass), page)
  }

  lemma {:induction false} RunSplits(w: World, passes: seq<Lists>, pass: PassInput, i: nat)
    requires IsPassRun(w, passes, pass) && i <= |passes|
    ensures IsPassRun(w, passes[..i], pass) && IsPassRun(AfterAll(w, passes[..i], pass), passes[i..], pass)
    ensures AfterAll(AfterAll(w, passes[..i], pass), passes[i..], pass) == AfterAll(w, passes, pass)
    decreases i
  {
    if i == 0 {
      assert passes[..0] == [] && passes[0..] == passes;
    } else {
      assert passes[..i][0] == passes[0];
      assert passes[..i][1..] == passes[1..][..i - 1];
      assert passes[1..][i - 1..] == passes[i..];
      RunSplits(Pass(w, passes[0], pass), passes[1..], pass, i - 1);
    }
  }

  /** A run goes on from where a part of it ends. */
  lemma RunGoesOn(w: World, passes: seq<Lists>, pass: PassInput, i: nat)
    requires Settled(w) && IsPassRun(w, passes, pass) && i <= |passes|
    ensures var mid := AfterAll(w, passes[..i], pass);
            && Settled(mid) && IsPassRun(mid, passes[i..], pass)
            && AfterAll(mid, passes[i..], pass) == AfterAll(w, passes, pass)
  {
    RunSplits(w, passes, pass, i);
    PassesSettle(w, passes[..i], pass);
  }

  lemma RestIsReached(w: World, passes: seq<Lists>, pass: PassInput) returns (i: nat, page: seq<FileId>)
    requires AllPassed(w, passes, pass) && |passes| >= |UnpinJobs(w.db)|
    ensures i <= |passes| && DeletesAtRest(AfterAll(w, passes[..i], pass).db, page, pass)
  {
    FilesArePages(w, passes, pass);
    i, page := ComesToRest(UnpinJobs(w.db), FileQueue(w.db, pass), FilePages(passes));
    AllPassedPrefix(w, passes, pass, i);
    FilesArePages(w, passes[..i], pass);
    assert FilePages(passes[..i]) == FilePages(passes)[..i];
  }

  /** Passes i and later start with the deletes at rest. */
  ghost predicate RestsFrom(w: World, passes: seq<Lists>, pass: PassInput, i: nat, page: seq<FileId>)
    requires i <= |passes|
  {
    var mid := AfterAll(w, passes[..i], pass);
    Settled(mid) && IsPassRun(mid, passes[i..], pass) && DeletesAtRest(mid.db, page, pass)
  }

  /** Within as many passes as there are delete jobs, the deletes come to rest. */
  lemma DeletesComeToRest(w: World, passes: seq<Lists>, pass: PassInput)
    requires Settled(w) && IsPassRun(w, passes, pass) && |passes| >= |UnpinJobs(w.db)|
    ensures exists i: nat, page :: i <= |passes| && RestsFrom(w, passes, pass, i, page)
  {
    PassesSettle(w, passes, pass);
    var i, page := RestIsReached(w, passes, pass);
    RunGoesOn(w, passes, pass, i);
    assert RestsFrom(w, passes, pass, i, page);
  }

  /** From then on every pass has the same page of deletes. */
  lemma {:induction false} SamePages(w: World, page: seq<FileId>, passes: seq<Lists>, pass: PassInput)
    requires AllPassed(w, passes, pass) && DeletesAtRest(w.db, page, pass)
    requires DistinctStamps(UnpinJobs(w.db), pass.pinStamp)
    ensures forall i | 0 <= i < |passes| :: passes[i].files == page
    decreases |passes|
  {
    if passes != [] {
      PageUnique(UnpinJobs(w.db), FileQueue(w.db, pass), passes[0].files, page);
      SamePages(Pass(w, passes[0], pass), page, passes[1..], pass);
      forall i | 0 < i < |passes| ensures passes[i] == passes[1..][i - 1] {}
    }
  }

  /** So the orphan jobs have the same time in every pass. */
  lemma {:induction false} OrphanRun(w: World, passes: seq<Lists>, pass: PassInput, left: nat)
    requires AllPassed(w, passes, pass) && forall i | 0 <= i < |passes| :: LeftFor(passes[i], pass) == left
    ensures var q := OrphanQueue(w.db, pass, left);
            && IsPageRun(OrphanJobs(w.db), q, OrphanPages(passes))
            && OrphanJobs(AfterAll(w, passes, pass).db) == Remaining(OrphanJobs(w.db), q, OrphanPages(passes))
    decreases |passes|
  {
    if passes != [] {
      assert forall i | 0 <= i < |passes[1..]| :: passes[1..][i] == passes[i + 1];
      OrphanRun(Pass(w, passes[0], pass), passes[1..], pass, left);
      PageThenRun(OrphanJobs(w.db), OrphanQueue(w.db, pass, left), passes[0].orphans, OrphanPages(passes[1..]));
      assert OrphanPages(passes) == [passes[0].orphans] + OrphanPages(passes[1..]);
    }
  }

  lemma {:induction false} OrphansEmptyUnlisted(w: World, passes: seq<Lists>, pass: PassInput)
    requires AllPassed(w, passes, pass) && !pass.orphansListed
    ensures forall i | 0 <= i < |passes| :: passes[i].orphans == []
    decreases |passes|
  {
    if passes != [] {
      OrphansEmptyUnlisted(Pass(w, passes[0], pass), passes[1..], pass);
      forall i | 0 < i < |passes| ensures passes[i] == passes[1..][i - 1] {}
    }
  }

  lemma OrphansArePages(w: World, page: seq<FileId>, passes: seq<Lists>, pass: PassInput)
    requires AllPassed(w, passes, pass) && DeletesAtRest(w.db, page, pass)
    requires DistinctStamps(UnpinJobs(w.db), pass.pinStamp)
    ensures var q := OrphanQueue(w.db, pass, Rest(pass.budget, page, pass.files));
            && IsPageRun(OrphanJobs(w.db), q, OrphanPages(passes))
            && OrphanJobs(AfterAll(w, passes, pass).db) == Remaining(OrphanJobs(w.db), q, OrphanPages(passes))
    ensures forall i | 0 <= i < |passes| :: passes[i].files == page
    ensures !pass.orphansListed ==> forall i | 0 <= i < |passes| :: passes[i].orphans == []
  {
    SamePages(w, page, passes, pass);
    OrphanRun(w, passes, pass, Rest(pass.budget, page, pass.files));
    if !pass.orphansListed { OrphansEmptyUnlisted(w, passes, pass); }
  }

  /** Once the deletes are at rest, an orphan job has its references counted in some pass, if its own count works,
      exactly when that holds among the orphan jobs with the time that the delete jobs leave: none is, when a delete
      job on the page takes all of it. */
  lemma OrphanRetriedIff(w: World, page: seq<FileId>, passes: seq<Lists>, pass: PassInput, u: UploadId)
    requires Settled(w) && IsPassRun(w, passes, pass) && OrphanListed(w.db, u) && DeletesAtRest(w.db, page, pass)
    requires DistinctStamps(UnpinJobs(w.db), pass.pinStamp) && DistinctStamps(OrphanJobs(w.db), pass.uploadStamp)
    requires |passes| >= |OrphanJobs(w.db)|
    ensures var left := Rest(pass.budget, page, pass.files);
            (exists i | 0 <= i < |passes| :: CountedIn(passes[i].orphans, pass.orphans, left, u)) <==>
              pass.orphans(u).sweep.Counted? && Served(OrphanJobs(w.db), OrphanQueue(w.db, pass, left), u)
  {
    var left := Rest(pass.budget, page, pass.files);
    var q := OrphanQueue(w.db, pass, left);
    PassesSettle(w, passes, pass);
    OrphansArePages(w, page, passes, pass);
    ReachedIff(OrphanJobs(w.db), q, OrphanPages(passes), u);
    forall i | 0 <= i < |passes|
      ensures CountedIn(passes[i].orphans, pass.orphans, left, u) <==>
                Reached(q, OrphanPages(passes)[i], u) && pass.orphans(u).sweep.Counted?
    {
      CountedIffReached(q, passes[i].orphans, pass.orphans, left, u);
    }
  }

  lemma UnservedOrphan(w: World, page: seq<FileId>, passes: seq<Lists>, pass: PassInput, u: UploadId)
    requires Settled(w) && IsPassRun(w, passes, pass) && OrphanListed(w.db, u) && DeletesAtRest(w.db, page, pass)
    requires DistinctStamps(UnpinJobs(w.db), pass.pinStamp)
    requires !Served(OrphanJobs(w.db), OrphanQueue(w.db, pass, Rest(pass.budget, page, pass.files)), u)
    ensures u in OrphanJobs(AfterAll(w, passes, pass).db)
    ensures forall i | 0 <= i < |passes| ::
              !CountedIn(passes[i].orphans, pass.orphans, Rest(pass.budget, page, pass.files), u)
  {
    var left := Rest(pass.budget, page, pass.files);
    var q := OrphanQueue(w.db, pass, left);
    PassesSettle(w, passes, pass);
    OrphansArePages(w, page, passes, pass);
    UnservedForever(OrphanJobs(w.db), q, OrphanPages(passes), u);
    forall i | 0 <= i < |passes| ensures !CountedIn(passes[i].orphans, pass.orphans, left, u) {
      assert !Reached(q, OrphanPages(passes)[i], u);
      CountedIffReached(q, passes[i].orphans, pass.orphans, left, u);
    }
  }

  // ---- Draining both lists -----------------------------------------------------------------------------------

  /** Orphan jobs only leave the list, and what is stuck stays stuck. */
  lemma {:induction false} OrphansShrink(w: World, passes: seq<Lists>, pass: PassInput)
    requires AllPassed(w, passes, pass)
    ensures var end := AfterAll(w, passes, pass);
            && OrphanJobs(end.db) <= OrphanJobs(w.db)
            && OrphanQueue(end.db, pass, pass.budget) == OrphanQueue(w.db, pass, pass.budget)
    decreases |passes|
  {
    if passes != [] { OrphansShrink(Pass(w, passes[0], pass), passes[1..], pass); }
  }

  lemma {:induction false} UndrainableOrphanStays(w: World, passes: seq<Lists>, pass: PassInput, u: UploadId)
    requires AllPassed(w, passes, pass) && u in OrphanJobs(w.db)
    requires var q := OrphanQueue(w.db, pass, pass.budget); u in q.stuck || q.time(u) >= q.budget
    ensures u in OrphanJobs(AfterAll(w, passes, pass).db)
    decreases |passes|
  {
    if passes != [] { UndrainableOrphanStays(Pass(w, passes[0], pass), passes[1..], pass, u); }
  }

  lemma UndrainableStay(w: World, passes: seq<Lists>, pass: PassInput)
    requires AllPassed(w, passes, pass)
    ensures var end := AfterAll(w, passes, pass);
            && (UnpinJobs(end.db) == {} ==> Drainable(UnpinJobs(w.db), FileQueue(w.db, pass)))
            && (OrphanJobs(end.db) == {} ==> Drainable(OrphanJobs(w.db), OrphanQueue(w.db, pass, pass.budget)))
  {
    FilesArePages(w, passes, pass);
    var files, orphans := FileQueue(w.db, pass), OrphanQueue(w.db, pass, pass.budget);
    forall f | f in UnpinJobs(w.db) && (f in files.stuck || files.time(f) >= files.budget)
      ensures f in UnpinJobs(AfterAll(w, passes, pass).db)
    {
      UndrainableStays(UnpinJobs(w.db), files, FilePages(passes), f);
    }
    forall u | u in OrphanJobs(w.db) && (u in orphans.stuck || orphans.time(u) >= orphans.budget)
      ensures u in OrphanJobs(AfterAll(w, passes, pass).db)
    {
      UndrainableOrphanStays(w, passes, pass, u);
    }
  }

  lemma DeletesDrain(w: World, passes: seq<Lists>, pass: PassInput)
    requires AllPassed(w, passes, pass) && Drainable(UnpinJobs(w.db), FileQueue(w.db, pass))
    requires |passes| >= |UnpinJobs(w.db)|
    ensures UnpinJobs(AfterAll(w, passes, pass).db) == {}
  {
    FilesArePages(w, passes, pass);
    Drains(UnpinJobs(w.db), FileQueue(w.db, pass), FilePages(passes));
  }

  lemma NoDeletesRest(db: Tables, pass: PassInput)
    requires UnpinJobs(db) == {}
    ensures DeletesAtRest(db, [], pass) && DistinctStamps(UnpinJobs(db), pass.pinStamp)
    ensures Rest(pass.budget, [], pass.files) == pass.budget
  {
  }

  /** With the deletes done, the orphan jobs have all the time. */
  lemma OrphansDrain(w: World, passes: seq<Lists>, pass: PassInput)
    requires AllPassed(w, passes, pass) && UnpinJobs(w.db) == {}
    requires Drainable(OrphanJobs(w.db), OrphanQueue(w.db, pass, pass.budget)) && |passes| >= |OrphanJobs(w.db)|
    ensures OrphanJobs(AfterAll(w, passes, pass).db) == {}
  {
    NoDeletesRest(w.db, pass);
    OrphansArePages(w, [], passes, pass);
    Drains(OrphanJobs(w.db), OrphanQueue(w.db, pass, pass.budget), OrphanPages(passes));
  }

  lemma BothDrain(w: World, passes: seq<Lists>, pass: PassInput)
    requires Settled(w) && IsPassRun(w, passes, pass)
    requires |passes| >= |UnpinJobs(w.db)| + |OrphanJobs(w.db)|
    requires Drainable(UnpinJobs(w.db), FileQueue(w.db, pass))
    requires Drainable(OrphanJobs(w.db), OrphanQueue(w.db, pass, pass.budget))
    ensures UnpinJobs(AfterAll(w, passes, pass).db) == {} && OrphanJobs(AfterAll(w, passes, pass).db) == {}
  {
    var n := |UnpinJobs(w.db)|;
    var mid := AfterAll(w, passes[..n], pass);
    RunGoesOn(w, passes, pass, n);
    PassesSettle(w, passes, pass);
    PassesSettle(mid, passes[n..], pass);
    AllPassedPrefix(w, passes, pass, n);
    DeletesDrain(w, passes, pass);
    DeletesDrain(w, passes[..n], pass);
    OrphansShrink(w, passes[..n], pass);
    SubsetSize(OrphanJobs(mid.db), OrphanJobs(w.db));
    OrphansDrain(mid, passes[n..], pass);
  }

  lemma {:induction false} AllPassedPrefix(w: World, passes: seq<Lists>, pass: PassInput, i: nat)
    requires AllPassed(w, passes, pass) && i <= |passes|
    ensures AllPassed(w, passes[..i], pass)
    decreases i
  {
    if i > 0 {
      AllPassedPrefix(Pass(w, passes[0], pass), passes[1..], pass, i - 1);
      assert passes[..i][1..] == passes[1..][..i - 1];
    }
  }

  /** As many passes as there are jobs drain both lists, so that the nodes hold exactly what files need, if and only if
      every job can be finished and fits into a pass of its own, and a list that has jobs can be read. */
  lemma PassesDrainIff(w: World, passes: seq<Lists>, pass: PassInput)
    requires Settled(w) && IsPassRun(w, passes, pass)
    requires |passes| >= |UnpinJobs(w.db)| + |OrphanJobs(w.db)|
    ensures var end := AfterAll(w, passes, pass);
            && (UnpinJobs(end.db) == {} && OrphanJobs(end.db) == {} <==>
                  Drainable(UnpinJobs(w.db), FileQueue(w.db, pass)) &&
                  Drainable(OrphanJobs(w.db), OrphanQueue(w.db, pass, pass.budget)))
            && (UnpinJobs(end.db) == {} && OrphanJobs(end.db) == {} ==>
                  forall ref :: ref in end.pinned <==> exists f :: Needs(end, f, ref))
  {
    PassesSettle(w, passes, pass);
    UndrainableStay(w, passes, pass);
    if Drainable(UnpinJobs(w.db), FileQueue(w.db, pass)) &&
       Drainable(OrphanJobs(w.db), OrphanQueue(w.db, pass, pass.budget)) {
      BothDrain(w, passes, pass);
    }
    var end := AfterAll(w, passes, pass);
    if UnpinJobs(end.db) == {} && OrphanJobs(end.db) == {} { NothingListedNothingWasted(end); }
  }

  /** Twenty jobs of each list are done well before the deadline, and all of them can be finished. */
  ghost predicate Quick(db: Tables, pass: PassInput, fileTime: nat, orphanTime: nat) {
    && pass.filesListed && pass.orphansListed && 20 * fileTime + 20 * orphanTime < pass.budget
    && StuckFiles(db, Unhurried(pass.files)) == {} && StuckOrphans(db, Unhurried(pass.orphans)) == {}
    && (forall f | f in UnpinJobs(db) :: pass.files(f).time <= fileTime)
    && (forall u | u in OrphanJobs(db) :: pass.orphans(u).time <= orphanTime)
  }

  lemma QuickPage(all: set<nat>, q: Queue, page: seq<nat>, most: nat)
    requires Turn(all, q, page) && q.limit == 20 && forall x | x in all :: q.time(x) <= most
    ensures TimeOf(page, q.time) <= 20 * most
  {
    TimeBound(page, q.time, most, 20);
  }

  lemma QuickPass(w: World, next: World, lists: Lists, pass: PassInput, fileTime: nat, orphanTime: nat)
    requires FilesPassed(w, next, lists, pass) && OrphansPassed(w, next, lists, pass)
    requires Quick(w.db, pass, fileTime, orphanTime)
    ensures |UnpinJobs(next.db)| == |UnpinJobs(w.db)| - Min(20, |UnpinJobs(w.db)|)
    ensures |OrphanJobs(next.db)| == |OrphanJobs(w.db)| - Min(20, |OrphanJobs(w.db)|)
    ensures Quick(next.db, pass, fileTime, orphanTime)
  {
    var files, orphans := FileQueue(w.db, pass), OrphanQueue(w.db, pass, LeftFor(lists, pass));
    QuickPage(UnpinJobs(w.db), files, lists.files, fileTime);
    FittingPageDrains(UnpinJobs(w.db), files, lists.files);
    QuickPage(OrphanJobs(w.db), orphans, lists.orphans, orphanTime);
    FittingPageDrains(OrphanJobs(w.db), orphans, lists.orphans);
  }

  lemma {:induction false} QuickPasses(w: World, passes: seq<Lists>, pass: PassInput, fileTime: nat, orphanTime: nat)
    requires AllPassed(w, passes, pass) && Quick(w.db, pass, fileTime, orphanTime)
    ensures var end := AfterAll(w, passes, pass);
            && |UnpinJobs(end.db)| == Left(|UnpinJobs(w.db)|, 20, |passes|)
            && |OrphanJobs(end.db)| == Left(|OrphanJobs(w.db)|, 20, |passes|)
    decreases |passes|
  {
    if passes != [] {
      var next := Pass(w, passes[0], pass);
      QuickPass(w, next, passes[0], pass, fileTime, orphanTime);
      QuickPasses(next, passes[1..], pass, fileTime, orphanTime);
      LeftStep(|UnpinJobs(w.db)|, 20, |passes|);
      LeftStep(|OrphanJobs(w.db)|, 20, |passes|);
    }
  }

  /** When every needed unpin is confirmed, no store call fails and a pass has time for its jobs, repeated passes drain
      both lists, twenty jobs of each at a time, and then the nodes hold exactly what files need. */
  lemma PassesCollect(w: World, passes: seq<Lists>, pass: PassInput, fileTime: nat, orphanTime: nat)
    requires Settled(w) && IsPassRun(w, passes, pass) && Quick(w.db, pass, fileTime, orphanTime)
    ensures var end := AfterAll(w, passes, pass);
            && |UnpinJobs(end.db)| == Left(|UnpinJobs(w.db)|, 20, |passes|)
            && |OrphanJobs(end.db)| == Left(|OrphanJobs(w.db)|, 20, |passes|)
            && (|passes| * 20 >= |UnpinJobs(w.db)| && |passes| * 20 >= |OrphanJobs(w.db)| ==>
                  forall ref :: ref in end.pinned <==> exists f :: Needs(end, f, ref))
  {
    PassesSettle(w, passes, pass);
    QuickPasses(w, passes, pass, fileTime, orphanTime);
    var end := AfterAll(w, passes, pass);
    if |passes| * 20 >= |UnpinJobs(w.db)| && |passes| * 20 >= |OrphanJobs(w.db)| { NothingListedNothingWasted(end); }
  }
}
