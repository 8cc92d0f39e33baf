/** Job lists under a deadline. */
module JobQueue {
  import opened DropExpiry

  /** How a list is worked off: its order, the page size, the jobs that cannot be finished, how long each job takes,
      and how much time a page gets. */
  datatype Queue = Queue(stamp: nat -> int, limit: nat, stuck: set<nat>, time: nat -> nat, budget: nat)

  function TimeOf(page: seq<nat>, time: nat -> nat): nat {
    if page == [] then 0 else TimeOf(page[..|page| - 1], time) + time(page[|page| - 1])
  }

  /** The time the jobs ahead on the page take. */
  function StartOf(page: seq<nat>, time: nat -> nat, j: nat): nat {
    if page == [] then 0
    else if page[|page| - 1] == j then TimeOf(page[..|page| - 1], time)
    else StartOf(page[..|page| - 1], time, j)
  }

  /** The job's turn comes before the deadline. */
  predicate Reached(q: Queue, page: seq<nat>, j: nat) { j in page && StartOf(page, q.time, j) < q.budget }

  /** And the job is through before the deadline. */
  predicate InTime(q: Queue, page: seq<nat>, j: nat) { j in page && StartOf(page, q.time, j) + q.time(j) < q.budget }

  /** The oldest jobs, or nothing when there is no time to read the list. */
  ghost predicate Turn(all: set<nat>, q: Queue, page: seq<nat>) {
    if q.budget == 0 then page == [] else IsPage(all, q.stamp, q.limit, page)
  }

  /** The listed jobs after a page. */
  ghost function AfterPage(all: set<nat>, q: Queue, page: seq<nat>): set<nat> {
    set x | x in all && !(InTime(q, page, x) && x !in q.stuck)
  }

  ghost predicate IsPageRun(all: set<nat>, q: Queue, pages: seq<seq<nat>>)
    decreases |pages|
  {
    pages == [] || (Turn(all, q, pages[0]) && IsPageRun(AfterPage(all, q, pages[0]), q, pages[1..]))
  }

  ghost function Remaining(all: set<nat>, q: Queue, pages: seq<seq<nat>>): set<nat>
    decreases |pages|
  {
    if pages == [] then all else Remaining(AfterPage(all, q, pages[0]), q, pages[1..])
  }

  ghost function OlderStuck(all: set<nat>, q: Queue, j: nat): set<nat> {
    set x | x in all && x in q.stuck && q.stamp(x) < q.stamp(j)
  }

  predicate DistinctStamps(all: set<nat>, stamp: nat -> int) {
    forall x, y | x in all && y in all && x != y :: stamp(x) != stamp(y)
  }

  // ---- Times of sets and pages ------------------------------------------------------------------------------

  ghost function SumOver(s: set<nat>, time: nat -> nat): nat {
    if s == {} then 0
    else
      var x :| x in s;
      time(x) + SumOver(s - {x}, time)
  }

  lemma {:induction false} SumPick(s: set<nat>, time: nat -> nat, x: nat)
    requires x in s
    ensures SumOver(s, time) == time(x) + SumOver(s - {x}, time)
    decreases s
  {
    var first :| first in s && SumOver(s, time) == time(first) + SumOver(s - {first}, time);
    if first != x {
      SumPick(s - {first}, time, x);
      SumPick(s - {x}, time, first);
      assert s - {first} - {x} == s - {x} - {first};
    }
  }

  lemma {:induction false} SumGrows(a: set<nat>, b: set<nat>, time: nat -> nat)
    requires a <= b
    ensures SumOver(a, time) <= SumOver(b, time)
    decreases a
  {
    if a != {} {
      var x :| x in a;
      SumPick(a, time, x);
      SumPick(b, time, x);
      SumGrows(a - {x}, b - {x}, time);
    }
  }

  lemma {:induction false} PageSum(page: seq<nat>, time: nat -> nat)
    requires Distinct(page)
    ensures TimeOf(page, time) == SumOver(IdSet(page), time)
  {
    if page != [] {
      var init, last := page[..|page| - 1], page[|page| - 1];
      PageSum(init, time);
      SumPick(IdSet(page), time, last);
      assert IdSet(page) - {last} == IdSet(init);
    }
  }

  lemma {:induction false} StartAt(page: seq<nat>, time: nat -> nat, k: nat)
    requires Distinct(page) && k < |page|
    ensures StartOf(page, time, page[k]) == TimeOf(page[..k], time)
  {
    if k < |page| - 1 {
      StartAt(page[..|page| - 1], time, k);
      assert page[..|page| - 1][..k] == page[..k];
    }
  }

  lemma {:induction false} TimeGrows(page: seq<nat>, time: nat -> nat, i: nat, k: nat)
    requires i <= k <= |page|
    ensures TimeOf(page[..i], time) <= TimeOf(page[..k], time)
    decreases k
  {
    if i < k {
      assert page[..k][..k - 1] == page[..k - 1];
      TimeGrows(page, time, i, k - 1);
    }
  }

  lemma NextTime(page: seq<nat>, time: nat -> nat, k: nat)
    requires k < |page|
    ensures TimeOf(page[..k + 1], time) == TimeOf(page[..k], time) + time(page[k])
  {
    assert page[..k + 1][..k] == page[..k];
  }

  lemma SubsetSize(a: set<nat>, b: set<nat>)
    requires a <= b
    ensures |a| <= |b|
  {
    assert b == a + (b - a);
  }

  /** A page of a list without equal stamps is strictly sorted, and holds every job older than one on it, ahead. */
  lemma PageSorted(all: set<nat>, q: Queue, page: seq<nat>)
    requires IsPage(all, q.stamp, q.limit, page) && DistinctStamps(all, q.stamp)
    ensures forall i, k | 0 <= i < k < |page| :: q.stamp(page[i]) < q.stamp(page[k])
  {
  }

  lemma OlderAhead(all: set<nat>, q: Queue, page: seq<nat>, k: nat, x: nat)
    requires IsPage(all, q.stamp, q.limit, page) && k < |page| && x in all && q.stamp(x) < q.stamp(page[k])
    ensures x in page[..k]
  {
    assert x in page;
    var i :| 0 <= i < |page| && page[i] == x;
    assert i < k;
  }

  // ---- Which jobs are reached -------------------------------------------------------------------------------

  /** No older job, together with the stuck jobs before it, uses up the time of a page. */
  ghost predicate NoneBlocks(all: set<nat>, q: Queue, j: nat) {
    forall x | x in all && q.stamp(x) < q.stamp(j) :: SumOver(OlderStuck(all, q, x), q.time) + q.time(x) < q.budget
  }

  ghost predicate Served(all: set<nat>, q: Queue, j: nat) {
    q.budget > 0 && |OlderStuck(all, q, j)| < q.limit && NoneBlocks(all, q, j)
  }

  /** Stuck jobs at the head of a page take no longer than all stuck jobs older than the next one. */
  lemma AfterStuck(all: set<nat>, q: Queue, page: seq<nat>, k: nat)
    requires IsPage(all, q.stamp, q.limit, page) && DistinctStamps(all, q.stamp)
    requires k < |page| && forall i | 0 <= i < k :: page[i] in q.stuck
    ensures TimeOf(page[..k], q.time) <= SumOver(OlderStuck(all, q, page[k]), q.time)
  {
    assert IdSet(page[..k]) <= OlderStuck(all, q, page[k]);
    PageSum(page[..k], q.time);
    SumGrows(IdSet(page[..k]), OlderStuck(all, q, page[k]), q.time);
  }

  /** As long as a page finishes nothing, its jobs older than a served one are all stuck, and in time. */
  lemma {:induction false} StuckAhead(all: set<nat>, q: Queue, page: seq<nat>, j: nat, k: nat)
    requires IsPage(all, q.stamp, q.limit, page) && DistinctStamps(all, q.stamp) && NoneBlocks(all, q, j)
    requires k <= |page| && forall i | 0 <= i < k :: q.stamp(page[i]) < q.stamp(j)
    requires forall x | InTime(q, page, x) :: x in q.stuck
    ensures forall i | 0 <= i < k :: page[i] in q.stuck
    ensures k > 0 ==> TimeOf(page[..k], q.time) < q.budget
  {
    if k > 0 {
      StuckAhead(all, q, page, j, k - 1);
      AfterStuck(all, q, page, k - 1);
      NextTime(page, q.time, k - 1);
      StartAt(page, q.time, k - 1);
      assert InTime(q, page, page[k - 1]);
    }
  }

  /** A page that does not reach a served job finishes some job. */
  lemma MissFinishesOne(all: set<nat>, q: Queue, page: seq<nat>, j: nat)
    requires Turn(all, q, page) && DistinctStamps(all, q.stamp) && j in all && Served(all, q, j)
    requires !Reached(q, page, j)
    ensures exists x | x in page :: InTime(q, page, x) && x !in q.stuck
  {
    if forall x | x in page && InTime(q, page, x) :: x in q.stuck {
      if j in page {
        var m :| 0 <= m < |page| && page[m] == j;
        StuckAhead(all, q, page, j, m);
        StartAt(page, q.time, m);
        assert false;
      } else {
        OnlyOlder(all, q, page, j);
        StuckAhead(all, q, page, j, |page|);
        IdSetSize(page);
        SubsetSize(IdSet(page), OlderStuck(all, q, j));
        assert false;
      }
    }
  }

  lemma OnlyOlder(all: set<nat>, q: Queue, page: seq<nat>, j: nat)
    requires IsPage(all, q.stamp, q.limit, page) && DistinctStamps(all, q.stamp) && j in all && j !in page
    ensures |page| == q.limit && forall i | 0 <= i < |page| :: q.stamp(page[i]) < q.stamp(j)
  {
    IdSetSize(page);
    assert forall x | x in page :: x in all;
    assert IdSet(page) <= all - {j};
    SubsetSize(IdSet(page), all - {j});
  }

  lemma MissProgresses(all: set<nat>, q: Queue, page: seq<nat>, j: nat)
    requires Turn(all, q, page) && DistinctStamps(all, q.stamp) && j in all && Served(all, q, j)
    requires !Reached(q, page, j)
    ensures var next := AfterPage(all, q, page); j in next && |next| < |all| && Served(next, q, j)
  {
    var next := AfterPage(all, q, page);
    MissFinishesOne(all, q, page, j);
    var x :| x in page && InTime(q, page, x) && x !in q.stuck;
    assert x in all;
    SubsetSize(next, all - {x});
    ServedStays(all, next, q, j);
  }

  lemma ServedStays(all: set<nat>, next: set<nat>, q: Queue, j: nat)
    requires next <= all && Served(all, q, j)
    ensures Served(next, q, j)
  {
    SubsetSize(OlderStuck(next, q, j), OlderStuck(all, q, j));
    forall x | x in next && q.stamp(x) < q.stamp(j)
      ensures SumOver(OlderStuck(next, q, x), q.time) + q.time(x) < q.budget
    {
      SumGrows(OlderStuck(next, q, x), OlderStuck(all, q, x), q.time);
    }
  }

  /** The stuck jobs ahead of one on the page take their time first. */
  lemma StuckFirst(all: set<nat>, q: Queue, page: seq<nat>, k: nat)
    requires IsPage(all, q.stamp, q.limit, page) && k < |page|
    ensures TimeOf(page[..k], q.time) >= SumOver(OlderStuck(all, q, page[k]), q.time)
    ensures |OlderStuck(all, q, page[k])| < q.limit
  {
    var older := OlderStuck(all, q, page[k]);
    forall x | x in older ensures x in page[..k] { OlderAhead(all, q, page, k, x); }
    PageSum(page[..k], q.time);
    SumGrows(older, IdSet(page[..k]), q.time);
    IdSetSize(page[..k]);
    SubsetSize(older, IdSet(page[..k]));
  }

  /** A job that uses up the time left by the stuck jobs before it stays, and keeps every younger one from its turn. */
  lemma Blocks(all: set<nat>, q: Queue, page: seq<nat>, x: nat, j: nat)
    requires Turn(all, q, page) && x in all && j in all && q.stamp(x) < q.stamp(j)
    requires SumOver(OlderStuck(all, q, x), q.time) + q.time(x) >= q.budget
    ensures !InTime(q, page, x) && !Reached(q, page, j)
  {
    if x in page {
      var k :| 0 <= k < |page| && page[k] == x;
      StuckFirst(all, q, page, k);
      StartAt(page, q.time, k);
    }
    if j in page {
      var m :| 0 <= m < |page| && page[m] == j;
      OlderAhead(all, q, page, m, x);
      var k :| 0 <= k < m && page[..m][k] == x;
      StuckFirst(all, q, page, k);
      NextTime(page, q.time, k);
      TimeGrows(page, q.time, k + 1, m);
      StartAt(page, q.time, m);
    }
  }

  /** A job that is not served is not reached, and stays unserved. */
  lemma UnservedWaits(all: set<nat>, q: Queue, page: seq<nat>, j: nat)
    requires Turn(all, q, page) && j in all && !Served(all, q, j)
    ensures !Reached(q, page, j)
    ensures var next := AfterPage(all, q, page); j in next && !Served(next, q, j)
  {
    var next := AfterPage(all, q, page);
    forall x ensures OlderStuck(next, q, x) == OlderStuck(all, q, x) {}
    if q.budget > 0 && |OlderStuck(all, q, j)| < q.limit {
      var x :| x in all && q.stamp(x) < q.stamp(j) &&
               SumOver(OlderStuck(all, q, x), q.time) + q.time(x) >= q.budget;
      Blocks(all, q, page, x, j);
      assert x in next;
    } else if j in page {
      var m :| 0 <= m < |page| && page[m] == j;
      StuckFirst(all, q, page, m);
    }
  }

  ghost predicate ReachedOn(q: Queue, pages: seq<seq<nat>>, j: nat) {
    exists i | 0 <= i < |pages| :: Reached(q, pages[i], j)
  }

  lemma ReachedOnRest(q: Queue, pages: seq<seq<nat>>, j: nat)
    requires pages != []
    ensures ReachedOn(q, pages, j) <==> Reached(q, pages[0], j) || ReachedOn(q, pages[1..], j)
  {
    if ReachedOn(q, pages[1..], j) {
      var i :| 0 <= i < |pages[1..]| && Reached(q, pages[1..][i], j);
      assert Reached(q, pages[i + 1], j);
    }
    if ReachedOn(q, pages, j) {
      var i :| 0 <= i < |pages| && Reached(q, pages[i], j);
      if i > 0 { assert Reached(q, pages[1..][i - 1], j); }
    }
  }

  lemma {:induction false} UnservedForever(all: set<nat>, q: Queue, pages: seq<seq<nat>>, j: nat)
    requires IsPageRun(all, q, pages) && j in all && !Served(all, q, j)
    ensures !ReachedOn(q, pages, j) && j in Remaining(all, q, pages)
    decreases |pages|
  {
    if pages != [] {
      UnservedWaits(all, q, pages[0], j);
      UnservedForever(AfterPage(all, q, pages[0]), q, pages[1..], j);
      ReachedOnRest(q, pages, j);
    }
  }

  lemma {:induction false} ServedReached(all: set<nat>, q: Queue, pages: seq<seq<nat>>, j: nat)
    requires IsPageRun(all, q, pages) && DistinctStamps(all, q.stamp) && j in all && Served(all, q, j)
    requires |pages| >= |all|
    ensures ReachedOn(q, pages, j)
    decreases |pages|
  {
    assert all != {} && pages != [];
    ReachedOnRest(q, pages, j);
    if !Reached(q, pages[0], j) {
      MissProgresses(all, q, pages[0], j);
      ServedReached(AfterPage(all, q, pages[0]), q, pages[1..], j);
    }
  }

  /** A job gets its turn, within as many pages as there are jobs, if and only if fewer stuck jobs than a page holds are
      older and no older job, after the stuck ones before it, uses up the time. */
  lemma ReachedIff(all: set<nat>, q: Queue, pages: seq<seq<nat>>, j: nat)
    requires IsPageRun(all, q, pages) && DistinctStamps(all, q.stamp) && j in all && |pages| >= |all|
    ensures ReachedOn(q, pages, j) <==> Served(all, q, j)
  {
    if Served(all, q, j) { ServedReached(all, q, pages, j); } else { UnservedForever(all, q, pages, j); }
  }

  /** A page in front of a run of pages is a run of pages. */
  lemma PageThenRun(all: set<nat>, q: Queue, page: seq<nat>, pages: seq<seq<nat>>)
    requires Turn(all, q, page) && IsPageRun(AfterPage(all, q, page), q, pages)
    ensures IsPageRun(all, q, [page] + pages)
    ensures Remaining(all, q, [page] + pages) == Remaining(AfterPage(all, q, page), q, pages)
  {
    assert ([page] + pages)[1..] == pages;
  }

  /** The order of a page is no choice when no stamps are equal. */
  lemma PageUnique(all: set<nat>, q: Queue, a: seq<nat>, b: seq<nat>)
    requires Turn(all, q, a) && Turn(all, q, b) && DistinctStamps(all, q.stamp)
    ensures a == b
  {
    if q.budget > 0 {
      forall k | 0 <= k < |a| ensures a[k] == b[k] { SamePlace(all, q, a, b, k); }
    }
  }

  lemma {:induction false} SamePlace(all: set<nat>, q: Queue, a: seq<nat>, b: seq<nat>, k: nat)
    requires IsPage(all, q.stamp, q.limit, a) && IsPage(all, q.stamp, q.limit, b) && DistinctStamps(all, q.stamp)
    requires k < |a|
    ensures a[k] == b[k]
  {
    forall i | 0 <= i < k ensures a[i] == b[i] { SamePlace(all, q, a, b, i); }
    if q.stamp(a[k]) < q.stamp(b[k]) {
      OlderAhead(all, q, b, k, a[k]);
    } else if q.stamp(b[k]) < q.stamp(a[k]) {
      OlderAhead(all, q, a, k, b[k]);
    }
  }

  /** A page finishes nothing, so that the next one is the same. */
  ghost predicate AtRest(all: set<nat>, q: Queue, page: seq<nat>) {
    Turn(all, q, page) && AfterPage(all, q, page) == all
  }

  lemma {:induction false} ComesToRest(all: set<nat>, q: Queue, pages: seq<seq<nat>>) returns (i: nat, page: seq<nat>)
    requires IsPageRun(all, q, pages) && |pages| >= |all|
    ensures i <= |pages| && AtRest(Remaining(all, q, pages[..i]), q, page)
    decreases |pages|
  {
    if all == {} {
      i, page := 0, [];
    } else if AfterPage(all, q, pages[0]) == all {
      i, page := 0, pages[0];
    } else {
      var next := AfterPage(all, q, pages[0]);
      SmallerSet(next, all);
      i, page := ComesToRest(next, q, pages[1..]);
      assert pages[..i + 1][1..] == pages[1..][..i];
      i := i + 1;
    }
  }

  lemma SmallerSet(a: set<nat>, b: set<nat>)
    requires a < b
    ensures |a| < |b|
  {
    var x :| x in b && x !in a;
    SubsetSize(a, b - {x});
  }

  // ---- Lists that drain -------------------------------------------------------------------------------------

  /** Every job can be finished, and alone fits into the time of a page. */
  ghost predicate Drainable(all: set<nat>, q: Queue) {
    forall x | x in all :: x !in q.stuck && q.time(x) < q.budget
  }

  lemma FirstFinishes(all: set<nat>, q: Queue, page: seq<nat>)
    requires Turn(all, q, page) && Drainable(all, q) && all != {} && q.limit > 0
    ensures |AfterPage(all, q, page)| < |all|
  {
    var x :| x in all;
    StartAt(page, q.time, 0);
    assert InTime(q, page, page[0]);
    SubsetSize(AfterPage(all, q, page), all - {page[0]});
  }

  lemma {:induction false} Drains(all: set<nat>, q: Queue, pages: seq<seq<nat>>)
    requires IsPageRun(all, q, pages) && Drainable(all, q) && q.limit > 0 && |pages| >= |all|
    ensures Remaining(all, q, pages) == {}
    decreases |pages|
  {
    if pages != [] {
      if all != {} {
        FirstFinishes(all, q, pages[0]);
      } else {
        assert AfterPage(all, q, pages[0]) == {};
      }
      Drains(AfterPage(all, q, pages[0]), q, pages[1..]);
    }
  }

  /** A page that fits into its time, without stuck jobs, takes its whole length off the list. */
  lemma FittingPageDrains(all: set<nat>, q: Queue, page: seq<nat>)
    requires Turn(all, q, page) && q.stuck !! all && TimeOf(page, q.time) < q.budget
    ensures |AfterPage(all, q, page)| == |all| - Min(q.limit, |all|)
  {
    IdSetSize(page);
    forall x | x in page ensures InTime(q, page, x) {
      var k :| 0 <= k < |page| && page[k] == x;
      StartAt(page, q.time, k);
      NextTime(page, q.time, k);
      TimeGrows(page, q.time, k + 1, |page|);
      assert page[..|page|] == page;
    }
    assert forall x | x in page :: x in all;
    assert IdSet(page) <= all && AfterPage(all, q, page) == all - IdSet(page);
  }

  /** A job that cannot be finished, or takes a page's whole time, stays. */
  lemma {:induction false} UndrainableStays(all: set<nat>, q: Queue, pages: seq<seq<nat>>, x: nat)
    requires IsPageRun(all, q, pages) && x in all && (x in q.stuck || q.time(x) >= q.budget)
    ensures x in Remaining(all, q, pages)
    decreases |pages|
  {
    if pages != [] { UndrainableStays(AfterPage(all, q, pages[0]), q, pages[1..], x); }
  }

  lemma {:induction false} TimeBound(page: seq<nat>, time: nat -> nat, most: nat, limit: nat)
    requires |page| <= limit && forall x | x in page :: time(x) <= most
    ensures TimeOf(page, time) <= limit * most
    decreases |page|
  {
    if page != [] {
      TimeBound(page[..|page| - 1], time, most, limit - 1);
      assert limit * most == (limit - 1) * most + most;
    } else {
      assert limit * most >= 0;
    }
  }
}
