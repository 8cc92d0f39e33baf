# Gateway storage and ledger proofs

A Dafny model of the gateway's stateful cores, with proofs about every run of them. `dafny verify dfyconfig.toml`
checks the whole project.

**Drop.** A reservation holds bytes against its owner's public quota and its node's capacity. Content is streamed to
the node, which pins it; a commit turns the hold into used bytes, a file row and a pin row; failure or expiry gives the
hold back. Deletion returns quota, decides whether the CID is still used, tries to unpin it, and is finalised or left
to the maintenance loop, which also removes orphan pins.

- `DropTables` holds the tables and every SQL transaction as a function from tables to tables and an answer; a
  transaction that fails or rolls back leaves the tables alone. `DropStore` is the store itself, one method per
  transaction, each proved equal to its function.
- `DropReservations` and `DropRows` say what each transaction answers and writes, from its inputs alone; `DropLedger`,
  `DropUploads`, `DropCapacity`, `DropDeletes` and `DropExpiry` prove what all runs of transactions keep.
- `DropPins` is the pin lifecycle as a state machine: transfers, delete requests and sweeps stop at every transaction
  and node call, nodes pin and unpin in between, and any of it may fail, be lost or be cut off. `DropCoverage`,
  `DropDiscipline` and `DropPinSafety` prove what its runs keep, `DropLosses`, `DropUndisciplined` and `DropPinRaces` what
  goes wrong outside their conditions; `DropHandlers` proves that the request handlers and the reconciliation loops are
  runs of it, `DropReconcile` what a maintenance pass achieves, `JobQueue`, `DropQueue` and `DropStarving` what repeated
  passes under their deadline drain and what they starve, and `DropForgotten` which deletions no pass ever ends.

**Smaller cores.** `ByteLimits` (streaming caps), `Vault` (optimistic versions), `Hub` (connections and region
counters), `XpKeys`, `XpLedger`, `XpUptime`, `Referrals`, `ReferralPayments`, `ReferralTotals` and `XpStore` (the XP ledger and the referral
protocol), `Provisioning`, `BusinessSteps`, `BusinessPlan`, `ProPlan` and `ProvisioningStore` (plan resources and
licences), `Tiers` (the two tier resolvers), `Usage` (rollups).

## What the proofs found

These are properties one might expect of the code that do not hold as they stand. Each has a lemma that gives the input
and one that says exactly when the property holds.

- A reservation that expires while its content is in flight loses its pin: the compensation records the CID only for a
  failed row (`ExpiryDuringTransferLosesPin`; exactly when: `CompensationCoversIff`). A gateway that stops between the
  node's answer and the commit loses it as well (`LostTransferLosesPin`, `LoseCoversIff`), and so does a compensation
  that is not stored (`UnstoredCoversIff`) or an answer that never arrives (`UnseenCoversIff`).
- Two content requests for one upload with different bytes are both acknowledged, the second as a replay of the first,
  and the second one's pin is lost with no failure anywhere (`SecondTransferLosesPin`; exactly when: `ReplayCoversIff`).
  Every condition of the discipline under which no pin is lost is needed in this way (`DisciplineNeeded`).
- "No commit of the same CID between the unpin decision and the unpin" does not make deletion safe: an unpin that falls
  between another transfer's pin and its commit takes the pin from the file about to be committed
  (`UnpinBeforeCommitBreaks`, reachable by `ConcurrentReuploadLosesPin`). The guard that does is `Exclusive`
  (`ActiveFilesStayPinned`), and outside it safety can always be broken (`ExclusionNeeded`). A repeated delete trusts the
  recorded pin status and counts no references.
- The maintenance loop does not get to every job. A job that fails writes nothing and stays the oldest, and both loops
  share one ten-second deadline, so one node that never answers stops every younger delete and every orphan job for good
  (`OneHangingNodeStarves`), and twenty that refuse stop every younger delete (`TwentyRefusalsStarve`). A delete job is
  worked on if and only if fewer than twenty older ones are stuck and none of the older ones, after the stuck ones before
  it, takes the rest of the time (`FileRetriedIff`); an orphan job likewise, with the time the deletes leave once they
  have come to rest (`OrphanRetriedIff`, `DeletesComeToRest`). Both lists drain if and only if every job can be finished and fits into a
  pass of its own (`PassesDrainIff`).
- A deletion can be forgotten: when another file shares the CID and the delete is cut off between marking and finalising,
  the file stays pending with nothing owed for its pin, and no pass ever lists it (`CutDeleteForgotten`,
  `ForgottenForever`; exactly when: `DeleteForgetsIff`, `SweepFinishesIff`). A second delete request ends it.
- A commit does not compare the reported size with the reserved one, so a node can push its user over quota
  (`OverReportBreaksQuota`; exactly when: `CommitKeepsQuotaIff`).
- The capacity test adds three int64 values; a private upload has no size ceiling, so it can wrap and be admitted
  (`WrapAdmitsOversizedPrivateUpload`; exactly when: `AdmissionExactIff`). `avail*10` can wrap too
  (`HugeEmptyNodeLooksLimited`, `LimitedBucketExactIff`).
- The upload limiter reports end-of-file, not an error, when its peek gets no byte, so a longer source can be cut off
  silently (`SilentlyCutOff`; exactly when: `EofMeansComplete`); the refusal of either limiter is not remembered
  (`RefusalsDrainTheSource`).
- A region report by a replaced connection spoils the region counters (`StaleReportSpoilsCache`; exactly when:
  `StaleSetRegionKeepsIff`).
- The vault handler takes the expected version from the store just before writing, so handlers that do not overlap never
  refuse a write, whatever version the client had seen (`BackToBackWritesAllWin`; a write is refused exactly when:
  `WriteSucceedsIffUndisturbed`).
- A provisioning run cut off between taking a licence and writing its service wastes the licence, and no later run
  succeeds (`InterruptedRunWastesLicence`, `DeficitIsForever`; exactly when: `BusinessSucceedsIff`).
- A referral can stay unpaid although no call fails: the code is redeemed before the user is a member anywhere, and the
  organization then comes from outside the first-login bootstrap (`FoundedAfterRedeemUnpaid`; exactly when:
  `PaidIffStarted`, and for users who never leave `PaidIffQualified`). A payment that fails is not tried again
  (`FailedPaymentUnpaid`; exactly when: `SidePaidIffCalled`). Both stay so as long as the user owns an organization
  (`UnpaidForever`); after the last one is deleted or handed over, the next login pays after all (`LaterLoginPays`).
- With falling tier thresholds the reported next tier is wrong (`FallingThresholdsMislead`; exactly when:
  `NextTierFollowsIff`, and for the cached tier `TiersCurrentIff`). With an unknown seat tier the two tier resolvers give
  different strings (`UnknownSeatDiffers`; exactly when: `AnswersEqualIff`).

## Model

| member | source | states |
|---|---|---|
| `DropLedger.LedgersConserved` | internal/store/drop_files.go:96-106 | In every reachable state, under any interleaving of transactions, a user's reserved bytes are the sum over that user's live public uploads, used bytes the sum over that user's public files not being deleted, and a node's reserved bytes the sum over live uploads on it. |
| `DropLedger.ApplyKeepsInv` | internal/store/drop_files.go:26-511 | Every transaction, with every argument and on every error path, keeps the whole ledger invariant: sums, unique keys, and one file and pin per committed upload. |
| `DropLedger.ExecKeepsInv` | internal/store/drop_files.go:26-511 | The invariant is kept over whole runs. |
| `DropLedger.HoldWithinCounters` | internal/store/drop_files.go:134-154 | A live reservation's hold is within both counters, so the GREATEST clamps of a release never change a value. |
| `DropLedger.SizeWithinCounter` | internal/store/drop_files.go:454-459 | A referenced public file's size is within its owner's used counter, so the clamp of a delete never changes a value. |
| `DropLedger.CommitMovesCounters` | internal/store/drop_files.go:96-106 | A commit moves exactly the hold out of reserved and exactly the file's size into used, for that user and node and nobody else. |
| `DropLedger.ReleaseMovesCounters` | internal/store/drop_files.go:117-156 | A release gives back exactly the hold, at that user and node and nowhere else. |
| `DropLedger.MarkMovesCounters` | internal/store/drop_files.go:454-459 | A first delete gives back exactly the file's size, to its owner only. |
| `DropLedger.NodeReportsMoveNoCounter` | internal/store/drop_node.go:31-67 | A hello or a heartbeat leaves every user's and every node's reservation counter where it was, and keeps the invariant. |
| `DropUploads.CommittedIffOneFile` | internal/store/drop_files.go:45-112 | In every reachable state an upload is committed if and only if a file points to it; there is only one, and its pin row has the same node and CID. |
| `DropUploads.CommitReplay` | internal/store/drop_files.go:45-56 | Committing a committed upload again, with any CID and size, returns its one file and changes nothing. |
| `DropUploads.CommitThenReplay` | internal/store/drop_files.go:26-112 | A commit followed by another commit with different arguments answers twice with the same file. |
| `DropUploads.CommitAfterReleaseRefused` | internal/store/drop_files.go:45-57 | After a release a commit is a conflict for the owner and not found for anyone else, and changes nothing. |
| `DropUploads.ApplyEvolves` | internal/store/drop_files.go:117-156 | No transaction removes an upload, changes its owner, node, scope or declared size, or takes it out of a terminal status. |
| `DropUploads.TerminalForever` | internal/store/drop_files.go:134-154 | Over whole runs a terminal status and its reserved bytes never change. |
| `DropUploads.HoldReturnedOnce` | internal/store/drop_files.go:134-154 | Over a whole run a hold is returned once if the upload ends terminal after having been live, and otherwise not at all. |
| `DropUploads.OneUploadPerKey` | internal/store/migrations/0026_drop.sql:88-114 | In every reachable state an owner's key belongs to one upload. |
| `DropUploads.ReserveReplay` | internal/store/drop.go:190-210 | Reserving with the key of a live or committed upload returns that upload and leaves every table unchanged. |
| `DropUploads.ReserveRetry` | internal/store/drop.go:190-210 | Reserving with the key of a terminal upload makes a new one and keeps the old row, with its orphan CID, under a retired key. |
| `DropUploads.ReserveTwiceHoldsOnce` | internal/store/drop.go:180-271 | Two reservations in a row under one key hold the bytes once. |
| `DropUploads.ReserveEvolves` | internal/store/drop.go:180-271 | A refused reservation changes nothing; an accepted one leaves every other row alone but the terminal row whose key it takes over. |
| `DropReservations.ReserveErrors` | internal/store/drop.go:206-305 | Which error answers which request: a bad size or key, a public upload over the file ceiling or the quota, a node that is missing, offline, disabled, not active or closed to public uploads, a full node; the earlier test first. |
| `DropReservations.ReserveSucceedsIff` | internal/store/drop.go:180-305 | A request goes through if and only if it replays an open or committed upload of its key, or quota and node let a new one in. |
| `DropReservations.ReserveRetires` | internal/store/drop.go:202-210 | A constraint fails if and only if the key of an ended upload cannot be moved aside, or the new id is taken. |
| `DropReservations.RetiredKeyReads` | internal/store/drop.go:204-207 | A retired key is the old key, the marker and the upload's number, so no two uploads retire into one key. |
| `DropReservations.OpenedRow` | internal/store/drop.go:253-265 | A new upload carries the request's owner, node, scope, attributes and key, is reserved, and declares and holds the requested size. |
| `DropReservations.OpenedExpires` | internal/store/drop.go:180-183 | At any later time it counts as expired if and only if its time to live is over, thirty minutes if the request gave none. |
| `DropReservations.OpenedExpiresInTime` | internal/store/drop_files.go:212-226 | After any run that leaves it live, an expiry pass takes it never before that time, and then whenever it has room for all that expired. |
| `DropReservations.OpenedQuota` | internal/store/drop.go:225-246 | Its bytes are held once against the owner's quota if it is public, and against nobody else's. |
| `DropReservations.OpenedNodes` | internal/store/drop.go:301-304 | And once at the node; every other node, column, file and pin stays. |
| `DropRows.CommitErrors` | internal/store/drop_files.go:33-57 | A commit of a missing or foreign upload is not found, of an ended one a conflict; an error writes nothing. |
| `DropRows.CommitShowsReservation` | internal/store/drop_files.go:58-99 | A commit that goes through makes an active file with the reservation's owner, node, scope and attributes, the given CID and the node's size if it gives one, a pinned pin, and a committed upload. |
| `DropRows.CommitTouchesOnly` | internal/store/drop_files.go:62-106 | No other upload, file or node column changes. |
| `DropRows.FilesShowReservations` | internal/store/drop_files.go:62-74 | In every reachable state a file has its upload's owner, node, scope, CID and attributes, visibility apart. |
| `DropRows.VisibilityIsLastSet` | internal/store/drop_files.go:332-346 | Over every run a file keeps its row; its visibility is the one its owner set last while it was active, and otherwise the reserved one. |
| `DropRows.ReservedForGood` | internal/store/drop_files.go:62-74 | Over every run an upload keeps its owner, node, scope, attributes, declared size and deadline. |
| `DropRows.ReleaseEnds` | internal/store/drop_files.go:117-156 | A release gives a reserved or uploading upload the terminal status and no bytes, and leaves any other alone. |
| `DropRows.OrphanWritten` | internal/store/drop_files.go:160-208 | An orphan CID is written or cleared on a failed upload only, and nothing else is. |
| `DropRows.MarkAnswers` | internal/store/drop_files.go:419-487 | A first delete asks for the unpin if and only if no other file in use has the CID on the node, and marks the pin accordingly; a repeated one reads the pin's status and writes nothing. |
| `DropRows.FinalizeWrites` | internal/store/drop_files.go:489-511 | The pin becomes unpinned or erroneous, and a pending file is deleted when it is unpinned. |
| `DropRows.ReportsRead` | internal/store/drop_node.go:10-27 | A state text is read whatever the case of its letters and the blanks around it. |
| `DropRows.OtherReportsDisable` | internal/store/drop_node.go:10-27 | Any other text is disabled. |
| `DropRows.HeartbeatColumns` | internal/store/drop_node.go:52-67 | What a heartbeat writes, column by column. |
| `DropRows.HelloColumns` | internal/store/drop_node.go:31-47 | What a hello writes, column by column. |
| `DropRows.ReportsCommute` | internal/store/drop_node.go:29-67 | A hello of an enabled service and a heartbeat give the same row in either order. |
| `DropRows.CidShape` | internal/api/drop.go:30-36 | A CID is accepted if and only if it is 20 to 120 letters and digits. |
| `DropRows.ExpiryPassIsRun` | internal/store/drop_files.go:228-239 | An expiry pass is a run of single expiries of the pin lifecycle. |
| `DropRows.UnexpiredStays` | internal/store/drop_files.go:216-220 | A single expiry never touches a reservation whose time is not over. |
| `DropRows.RunsReport` | internal/store/drop_node.go:29-67 | The reports of runs are the ones the store methods write. |
| `DropRows.RunsReserve` | internal/store/drop.go:180-271 | So are their reservations and releases. |
| `DropRows.RunsCommitAndDelete` | internal/store/drop_files.go:26-511 | And their commits, deletions and orphan CIDs. |
| `DropCapacity.QuotaNeverOversubscribed` | internal/store/drop.go:213-249 | With fixed tier limits and reported sizes no larger than reserved ones, used plus reserved stays within the public limit over every run. |
| `DropCapacity.CommitGrowsTotalIffOverReported` | internal/store/drop_files.go:58-60 | A commit leaves used plus reserved no larger than before if and only if the node reports no more than was reserved. |
| `DropCapacity.CommitKeepsQuotaIff` | internal/store/drop_files.go:58-106 | A commit keeps its owner within the quota if and only if what it adds beyond the hold fits the slack. |
| `DropCapacity.FullQuotaKeptIff` | internal/store/drop_files.go:58-106 | With the quota used up, that is if and only if the node reports no more than was reserved. |
| `DropCapacity.OverReportBreaksQuota` | internal/store/drop_files.go:58-106 | A report above the whole quota breaks it. |
| `DropCapacity.NodeNeverOversubscribed` | internal/store/drop.go:276-305 | Over every run without a heartbeat of the node and without a reservation whose int64 sum wraps below its bound, recorded repository size plus reservations stays within the bound. |
| `DropCapacity.AdmissionExactIff` | internal/store/drop.go:292-300 | The capacity test is the exact one if and only if its int64 sum does not wrap below the bound. |
| `DropCapacity.WrapAdmitsOversizedPrivateUpload` | internal/store/drop.go:276-305 | A private upload of the largest int64 is admitted to a node of a thousand bytes. |
| `DropCapacity.AcceptingIffAdmitsOneByte` | internal/store/drop_node.go:148-198 | For all int64 columns: a listed node is shown as accepting uploads if and only if a one-byte reservation would be admitted, and this agreement fails exactly where the sum and the difference wrap differently. |
| `DropCapacity.ListDropNodes` | internal/store/drop_node.go:166-204 | The loop lists exactly the eligible nodes in order, and each flag tells what admission would answer, save for those columns. |
| `DropCapacity.ListingNames` | internal/store/drop_node.go:166-189 | The list names exactly the enabled nodes that are active, degraded or full and belong to the organization, or, for the public scope, are public, online and take public uploads. |
| `DropCapacity.ListingShows` | internal/store/drop_node.go:189-204 | Each entry shows its node's columns, and accepts uploads exactly when it is online, active, not full and open to the scope. |
| `DropCapacity.ListingOrder` | internal/store/drop_node.go:178-204 | Entries come in the order of the rows. |
| `DropCapacity.OuterBucketsExact` | internal/store/drop_node.go:148-156 | The bucket is unknown without a bound, and full exactly when nothing is left unless the difference wraps. |
| `DropCapacity.AvailableIsRest` | internal/store/drop_node.go:207-216 | The available bytes, of a quota and of a node, are what is left and never negative, as long as the difference is an int64. |
| `DropCapacity.LimitedBucketExactIff` | internal/store/drop_node.go:148-160 | The "limited" bucket means less than a tenth left, if and only if ten times the rest does not wrap below the bound. |
| `DropCapacity.HugeEmptyNodeLooksLimited` | internal/store/drop_node.go:148-160 | An empty node that advertises the largest int64 is reported as limited. |
| `DropCapacity.QuotaAdmitsIffAvailable` | internal/api/drop.go:527-550 | A size within the file ceiling passes the quota check if and only if it is at most the available bytes the usage view reports, and this agreement fails exactly where the sum and the difference wrap differently. |
| `DropCapacity.NodeAdmitsIffAvailable` | internal/store/drop_node.go:207-216 | For all int64 sizes: a reservation is admitted if and only if it is at most the node's available bytes or the node advertised no bound, and this agreement fails exactly where the sum and the difference wrap differently. |
| `DropCoverage.EveryPinAccounted` | internal/store/drop_files.go:160-208 | Under every interleaving of transfers, commits, compensations, deletes, sweeps, crashes and lost answers, whatever a node holds pinned is covered by a transfer, a file, a pending delete or an orphan row, or is one of the losses the steps name. |
| `DropCoverage.StepKeepsWorld` | internal/api/drop.go:309-523 | Every single step keeps that accounting and all row invariants. |
| `DropCoverage.RunKeepsWorld` | cmd/gateway/main.go:189-238 | Whole runs keep it, from any state that has it. |
| `DropCoverage.CommitStepKeeps` | internal/api/drop.go:363-386 | A commit, acknowledged, with its answer lost or rolled back, leaves its pin covered by the file or by the compensation to come. |
| `DropCoverage.RecordStepKeeps` | internal/store/drop_files.go:160-172 | Recording an orphan CID covers the pin its transfer carried, or the loss is named. |
| `DropCoverage.DeleteStepKeeps` | internal/store/drop_files.go:419-487 | Marking a file keeps its pin covered by the delete job or by the other files that share it. |
| `DropCoverage.CloseStepKeeps` | internal/store/drop_files.go:489-511 | Finalising or clearing a job drops no cover of a pin the node still holds. |
| `DropDiscipline.NoUnpinLost` | internal/store/drop_files.go:160-208 | With one transfer per upload, ended before expiry, its node answers received and its compensation stored, no pin is ever lost: every physical pin is covered in every reachable state. |
| `DropDiscipline.StepDisciplined` | internal/api/drop.go:309-388 | Every disciplined step keeps each transfer matched with its row and loses nothing. |
| `DropDiscipline.RunDisciplined` | internal/api/drop.go:309-388 | Disciplined runs keep both, from any state that has them. |
| `DropDiscipline.CompensationRecordsIff` | internal/store/drop_files.go:160-172 | The compensation puts the CID on the orphan list if and only if the row was live or failed. |
| `DropDiscipline.CompensationCoversIff` | internal/store/drop_files.go:160-172 | A failed commit's compensation keeps the pin covered if and only if the row could record it while no sweep is closing that CID, or something else covers the pin. |
| `DropLosses.ExpiredCompensationLoses` | internal/store/drop_files.go:164-167 | A transfer whose row has expired ends without any cover of its own. |
| `DropLosses.ExpiryDuringTransferLosesPin` | internal/store/drop_files.go:164-167 | A reachable state holds a pin that nothing covers, after an expiry during a transfer. |
| `DropLosses.LoseCoversIff` | internal/api/drop.go:348-386 | When a gateway stops during a transfer, its pin stays covered if and only if something else covers it. |
| `DropLosses.LostTransferLosesPin` | internal/api/drop.go:348-386 | A reachable state holds a pin that nothing covers, after such a stop. |
| `DropLosses.UnstoredCoversIff` | internal/store/drop_files.go:160-172 | A compensation either of whose transactions is not stored keeps the pin covered if and only if something else covers it. |
| `DropLosses.UnseenCoversIff` | internal/api/drop.go:348-360 | A pin whose answer never arrives is covered if and only if it was covered before. |
| `DropLosses.ReplayCoversIff` | internal/store/drop_files.go:45-56 | A commit acknowledged as a replay of another transfer's commit keeps its own pin covered if and only if something else covers it. |
| `DropLosses.SecondTransferLosesPin` | internal/api/drop.go:309-388 | A reachable state holds a pin that nothing covers, after two content requests with different bytes for one upload, both acknowledged. |
| `DropUndisciplined.DisciplineNeeded` | internal/api/drop.go:309-388 | After any disciplined run, every step outside the discipline can be continued inside it to a lost pin: the pin of the transfer it cuts off, or, where content is still to come, any pin nothing has heard of. |
| `DropPinSafety.ActiveFilesStayPinned` | internal/store/drop_files.go:369-484 | When no transfer's stretch from pin to commit overlaps an unpin decision's stretch to its unpin, and no repeated delete is issued while another file uses the CID, every active file's CID is pinned on its node in every reachable state. |
| `DropPinSafety.StepSafe` | cmd/gateway/main.go:207-236 | Every step inside that guard keeps what files and pending commits need pinned, and keeps every unpin decision current. |
| `DropPinSafety.RunSafe` | cmd/gateway/main.go:207-236 | Whole guarded runs keep it. |
| `DropPinRaces.UnpinSafeIff` | internal/api/drop.go:496-514 | A confirmed unpin keeps every file pinned if and only if no file needs the pin at that moment. |
| `DropPinSafety.CountFindsNeeds` | internal/store/drop_files.go:369-376 | A sweep that counts no other reference has found none, whatever job it is. |
| `DropPinRaces.ExclusionNeeded` | internal/store/drop_files.go:442-484 | Any step outside the guard can be continued in two steps to an active file without its pin. |
| `DropPinRaces.DecisionOutsideGuardBreaks` | internal/store/drop_files.go:442-452 | The same for a decision alone: next to a transfer that can commit, or by a repeated delete that counts nothing. |
| `DropPinRaces.UnpinBeforeCommitBreaks` | internal/api/drop.go:496-514 | An unpin between another transfer's pin and its commit leaves the committed file unpinned, with no commit between the decision and the unpin. |
| `DropPinRaces.ConcurrentReuploadLosesPin` | internal/api/drop.go:363-514 | Two uploads of one CID on one node, by different keys, reach a state with an active file that is not pinned. |
| `DropDeletes.LastReferenceDecides` | internal/store/drop_files.go:461-484 | Files sharing a CID on a node, deleted in any order among any other transactions without a commit of that CID on that node: exactly one first delete asks for the unpin once all are gone, and none before. |
| `DropDeletes.DecisiveIffLast` | internal/store/drop_files.go:461-484 | A first delete asks for the unpin if and only if no referencing file is left. |
| `DropDeletes.ReferencingShrinks` | internal/store/drop_files.go:419-487 | Without a commit of the CID on the node only first deletes change which files use it, one file at a time. |
| `DropDeletes.ReferenceCountsAgree` | internal/store/drop_files.go:369-376 | The delete's and the sweep's queries for other references find the same files in every reachable state. |
| `DropDeletes.MarkIdempotent` | internal/store/drop_files.go:442-452 | Marking a file again, before it is finalised, changes nothing and answers the same. |
| `DropDeletes.DeletionCompletes` | internal/store/drop_files.go:489-511 | A deletion finalised as unpinned is over: the file is deleted, its pin unpinned, and doing it again changes nothing. |
| `DropDeletes.FailedUnpinStaysListed` | internal/store/drop_files.go:389-511 | A failed unpin stays on the job list with the quota already returned. |
| `DropExpiry.ExpiryPassExact` | internal/store/drop_files.go:212-241 | A pass expires exactly the oldest expired live uploads, as many as its limit allows, lowers every user's and node's reserved bytes by exactly their sums, and touches nothing else. |
| `DropExpiry.ReleaseAllExact` | internal/store/drop_files.go:228-239 | Releasing any list of distinct live uploads, one transaction each, is exact in the same sense. |
| `DropExpiry.PassesDrain` | internal/store/drop_files.go:212-241 | After m passes with limit n, a hundred when none is given, all but the first m*n expired uploads are done. |
| `DropExpiry.EnoughPassesDrain` | internal/store/drop_files.go:212-241 | None is left if and only if the passes may together take as many as there were. |
| `DropExpiry.BatchOldest` | internal/store/drop_files.go:216-220 | A pass takes what expired first, and whatever it leaves expired no earlier. |
| `DropStoreModel.DropStore.ReserveDropUpload` | internal/store/drop.go:180-271 | The method, step by step and with rollback, is the reservation transaction, and keeps the invariant. |
| `DropStoreModel.DropStore.ReserveNodeCapacityTx` | internal/store/drop.go:276-305 | It adds the size to the node's reservations or refuses with the right error and no change. |
| `DropStoreModel.DropStore.AdjustQuotaTx` | internal/store/drop_files.go:245-255 | It moves the two counters with their clamps. |
| `DropStoreModel.DropStore.CommitDropUpload` | internal/store/drop_files.go:26-112 | The method is the commit transaction, on every branch, and keeps the invariant. |
| `DropStoreModel.DropStore.ReleaseDropReservation` | internal/store/drop_files.go:117-156 | The method is the release transaction, on every branch, an empty status meaning expired, and keeps the invariant. |
| `DropStoreModel.DropStore.FailDropUploadWithOrphanPin` | internal/store/drop_files.go:160-172 | Two transactions, either of which may fail; with both stored, the orphan CID is listed if and only if the row was live or failed. |
| `DropStoreModel.DropStore.ClearDropUploadOrphanPin` | internal/store/drop_files.go:203-208 | It takes the upload off the orphan list and changes nothing else. |
| `DropStoreModel.DropStore.SelectExpired` | internal/store/drop_files.go:212-226 | The batch is distinct, oldest first, leaves nothing older out, and has all expired uploads or as many as the limit, a hundred when none is given. |
| `DropStoreModel.DropStore.ExpireDropReservations` | internal/store/drop_files.go:212-241 | The loop releases exactly such a batch and reports its size. |
| `DropStoreModel.DropStore.MarkDropFileDeletePending` | internal/store/drop_files.go:419-487 | The method is the marking transaction, on every branch, and keeps the invariant. |
| `DropStoreModel.DropStore.FinalizeDropFileDeletion` | internal/store/drop_files.go:489-511 | The method is the finalising transaction, on every branch, and keeps the invariant. |
| `DropStoreModel.DropStore.ListPendingDropUnpins` | internal/store/drop_files.go:389-413 | The list holds distinct pending jobs, those whose pins were written longest ago, oldest first, as many as there are up to the limit. |
| `DropStoreModel.DropStore.ListPendingDropOrphanPins` | internal/store/drop_files.go:178-201 | The list holds distinct orphan jobs, those whose uploads were written longest ago, oldest first, as many as there are up to the limit. |
| `DropStoreModel.DropStore.ApplyDropStatus` | internal/store/drop_node.go:10-67 | A heartbeat writes the reported fields, the state text normalized and unknown text as disabled, and keeps the reservations. |
| `DropStoreModel.DropStore.ApplyDropCapability` | internal/store/drop_node.go:31-47 | A hello writes the capability fields and keeps the reservations. |
| `DropStoreModel.DropStore.CountActivePinRefs` | internal/store/drop_files.go:369-386 | It counts exactly the active files with that node and CID, other than the excluded one. |
| `DropHandlers.HandleDropDeleteFile` | internal/api/drop.go:476-523 | Whichever store call fails or loses its answer, the handler is a run of the pin state machine; "deleted" means the file is deleted, "pending" that it is on the job list, and the error answers are exactly those of failing calls. |
| `DropHandlers.HandleDropUploadContent` | internal/api/drop.go:309-388 | Whatever the node and the store answer, pins the gateway never hears of and cleanups that are not stored included, the handler is a run of the pin state machine; a committed upload is answered with its file, a dead or foreign one changes nothing, and success means the new file was committed and acknowledged. |
| `DropHandlers.DeleteEffect` | internal/api/drop.go:492-514 | Run alone, a delete marks, unpins only when asked, and is finalised, if that is stored, as unpinned unless a needed unpin was not confirmed. |
| `DropHandlers.ContentEffect` | internal/api/drop.go:348-386 | Run alone, a pinned upload becomes a file or its CID goes on the orphan list, and its pin is lost exactly when the commit was rolled back and the compensation is not stored in full. |
| `DropHandlers.FileSweepEffect` | cmd/gateway/main.go:207-222 | A delete job is finished exactly when its references were counted, another file uses the CID or the node confirmed the unpin, and the closing is stored. |
| `DropHandlers.OrphanSweepEffect` | cmd/gateway/main.go:223-236 | An orphan job is cleared under the same condition. |
| `DropHandlers.ReconcileFiles` | cmd/gateway/main.go:207-222 | The loop over delete jobs is the sequence of those sweeps, each on the state the one before left, whatever fails in each. |
| `DropHandlers.ReconcileOrphans` | cmd/gateway/main.go:223-236 | The loop over orphan jobs likewise. |
| `DropHandlers.ReconcileDropPins` | cmd/gateway/main.go:189-238 | A pass is the first loop over the oldest twenty listed deletes, then the second over the oldest twenty orphans, under one deadline: a list that cannot be read, or comes after the deadline, is skipped. |
| `DropReconcile.ReconcileSafe` | cmd/gateway/main.go:189-238 | A pass with no transfer in flight never unpins what a file needs and loses no pin, whatever the nodes and the store answer. |
| `DropReconcile.NothingListedNothingWasted` | cmd/gateway/main.go:189-238 | Once both job lists are empty, the nodes hold exactly what files need. |
| `DropQueue.PassesDrainIff` | cmd/gateway/main.go:167-238 | As many passes as there are jobs drain both lists, so that the nodes hold exactly what files need, if and only if every job can be finished and alone fits into a pass, and no list that has jobs is unreadable. |
| `DropQueue.PassesCollect` | cmd/gateway/main.go:189-238 | When moreover twenty jobs of each list fit into a pass, they go twenty of each at a time. |
| `JobQueue.ReachedIff` | cmd/gateway/main.go:167-222 | On any list worked off oldest first in pages under a deadline, a job gets its turn within as many pages as there are jobs if and only if fewer stuck jobs than a page holds are older, and no older job, after the stuck ones before it, takes the rest of the time. |
| `DropQueue.FileRetriedIff` | cmd/gateway/main.go:207-222 | The references of a delete job are counted within as many passes as there are jobs if and only if its own count works, the list can be read, fewer than twenty older delete jobs are stuck, and no older one, after the stuck ones before it, takes the rest of the time. |
| `DropQueue.UnservedFile` | cmd/gateway/main.go:207-222 | Otherwise it is on the list after any number of passes, and none has counted its references. |
| `DropQueue.OrphanRetriedIff` | cmd/gateway/main.go:223-236 | Once the deletes are at rest, an orphan job's references are counted under the same condition among the orphan jobs, with the time the page of deletes leaves; none are when a delete takes it all. |
| `DropQueue.DeletesComeToRest` | cmd/gateway/main.go:207-222 | Within as many passes as there are delete jobs, a pass is reached that finishes none of them. |
| `DropStarving.OneHangingNodeStarves` | cmd/gateway/main.go:167-236 | In a reachable state one delete on a node that never answers keeps a younger delete and an orphan, both on a healthy node, off every later pass. |
| `DropStarving.TwentyRefusalsStarve` | internal/store/drop_files.go:389-413 | In a reachable state twenty deletes on a refusing node keep one on a healthy node off every later pass. |
| `DropForgotten.SweepFinishesIff` | cmd/gateway/main.go:207-222 | Some sweep can finish a pending deletion if and only if it is on the job list. |
| `DropForgotten.DeleteForgetsIff` | internal/api/drop.go:492-514 | A delete leaves its file pending and on no list if and only if another file shares the CID and the deletion was marked but not finalised. |
| `DropForgotten.ForgottenForever` | internal/store/drop_files.go:389-413 | Such a file stays so in every run without a new delete request for it, whatever else happens. |
| `DropForgotten.SecondDeleteFinishes` | internal/store/drop_files.go:442-452 | A second delete request ends it and unpins nothing. |
| `DropForgotten.CutDeleteForgotten` | internal/api/drop.go:492-514 | A reachable state in which a deletion is forgotten. |
| `DropReconcile.SweepFilesEffect` | cmd/gateway/main.go:207-222 | Any list of delete jobs, with any answers, keeps all invariants and pin safety, and takes exactly the finished jobs off the list. |
| `DropReconcile.SweepOrphansEffect` | cmd/gateway/main.go:223-236 | Any list of orphan jobs, with any answers, keeps all invariants and pin safety, and takes exactly the finished jobs off the list. |
| `ByteLimits.ForwardsPrefixUpToLimit` | internal/dropclient/client.go:227-270 | For any source and any sequence of reads, the forwarded bytes are a prefix of at most the limit; a limit error means the source is longer, and exactly the limit was forwarded. |
| `ByteLimits.ShortSourcePassesThrough` | internal/dropclient/client.go:227-270 | A source within the limit passes unchanged, read by read, and is never refused; the upload limiter may only hide the source's last error once a source of exactly the limit is used up. |
| `ByteLimits.NegativeLimitIsUnlimited` | internal/dropclient/client.go:228-231 | A negative limit makes the upload limiter the source itself. |
| `ByteLimits.NegativeLimitPanics` | internal/dropclient/client.go:255-270 | A negative limit makes every read of the download limiter panic, with nothing taken from the source. |
| `ByteLimits.EofMeansComplete` | internal/dropclient/client.go:232-240 | End-of-file means everything was forwarded, except for the upload limiter exactly when a longer source gave its peek no byte. |
| `ByteLimits.SilentlyCutOff` | internal/dropclient/client.go:232-240 | A source longer than the limit that gives the peek no byte ends the upload as if complete. |
| `ByteLimits.OverflowDetectedIff` | internal/dropclient/client.go:232-240 | At the limit of a longer source, the next read is refused if and only if the source gives the peek a byte. |
| `ByteLimits.RefusalsDrainTheSource` | internal/dropclient/client.go:232-264 | A caller that reads on after refusals drains the source and then gets its end-of-file, with nothing more forwarded. |
| `ByteLimits.LimitReader.Read` | internal/dropclient/client.go:227-247 | The upload limiter's Read, field by field, is the read those lemmas speak of. |
| `ByteLimits.LimitReadCloser.Read` | internal/dropclient/client.go:255-270 | The download limiter's Read likewise. |
| `Vault.VersionCountsWins` | internal/store/drop_files.go:534-573 | Over any interleaving of readers and writers the stored version grows by the number of successful writes. |
| `Vault.WriteSucceedsIffUndisturbed` | internal/store/drop_files.go:548-557 | A write succeeds if and only if no other write of that user succeeded since its version was read; a refused one changes nothing. |
| `Vault.NoLostUpdate` | internal/api/drop.go:636-650 | Of two requests that read the same version the second write is refused. |
| `Vault.VersionsFromOne` | internal/store/drop_files.go:541-573 | A first write is version 1, each one after it the next, and no other user's vault changes. |
| `Vault.BackToBackWritesAllWin` | internal/api/drop.go:636-650 | Handlers that do not overlap all succeed, and the last one's vault stays. |
| `Vault.VaultStore.PutDropCryptoProfile` | internal/store/drop_files.go:534-573 | The write goes through if and only if the expected version is the stored one, and then stores the next. |
| `Vault.VaultStore.HandleDropPutVault` | internal/api/drop.go:636-650 | Run alone, the handler always succeeds and is one read and one write of the protocol. |
| `Hub.ReachableCounts` | internal/nodehub/hub.go:88-149 | Over all runs of connects, replacements, region reports by registered connections, and disconnects by registered or stale ones, each region's counter is the number of registered connections there, no counter is zero, and they add up to the number online. |
| `Hub.StepRecounted` | internal/nodehub/hub.go:96-149 | Every such step keeps the cache equal to a recount. |
| `Hub.RunRecounted` | internal/nodehub/hub.go:96-149 | Whole runs keep it. |
| `Hub.CountsSumToOnline` | internal/nodehub/hub.go:59-63 | A cache that equals a recount adds up to the number of connections. |
| `Hub.StaleSetRegionKeepsIff` | internal/nodehub/hub.go:139-149 | A region report by a replaced connection keeps the cache right if and only if it changes nothing, or re-files an unset region as unknown while others are counted there. |
| `Hub.StaleReportSpoilsCache` | internal/nodehub/hub.go:96-149 | A node that connects twice and reports a region on its first connection is counted in that region and in no other, although the registered connection has none. |
| `Hub.RegionsRead` | internal/metrics/metrics.go:187-195 | A region is read whatever the case of its letters and the blanks around it. |
| `Hub.OtherRegionsUnknown` | internal/metrics/metrics.go:187-195 | Any other text is the unknown region. |
| `Hub.NodeHub.Connect` | internal/nodehub/hub.go:96-104 | Connecting replaces whatever held the peer's place and keeps the cache right. |
| `Hub.NodeHub.Disconnect` | internal/nodehub/hub.go:109-114 | Only the registered connection leaves the registry; a stale one changes nothing. |
| `Hub.NodeHub.SetRegion` | internal/nodehub/hub.go:139-149 | A registered connection's report keeps the cache right; for a replaced one the contract says exactly when it stays right. |
| `Hub.NodeHub.AdjustRegionLocked` | internal/nodehub/hub.go:128-137 | It moves one counter and removes it when it would not stay positive. |
| `Hub.NodeHub.Online` | internal/nodehub/hub.go:59-63 | The number of connections, which is the sum of the five counters. |
| `XpKeys.KeysNeverCollide` | internal/store/xp.go:166-169 | Keys of different XP drivers or different awards are different strings, for any ids, when day, month and provider have no colon. |
| `XpKeys.KeyTexts` | internal/store/xp.go:166-169 | The keys as they are stored. |
| `XpLedger.NextTierFollowsIff` | internal/api/rank.go:45-51 | The next-tier threshold is the one of the next tier for every total if and only if the thresholds, seen from zero, start met and never fall. |
| `XpLedger.FallingThresholdsMislead` | internal/api/rank.go:45-51 | With thresholds 0, 100, 50 a user of 60 points is in the top tier and is told that 100 is next. |
| `XpLedger.AwardKeepsInv` | internal/store/xp.go:54-98 | Every award keeps totals equal to the sum of events, keys unique and tiers cached. |
| `XpLedger.TiersCurrentIff` | internal/store/xp.go:30-38 | The cached tier is the tier of the summed events, for every ledger and user, if and only if a total of zero is tier 0. |
| `XpLedger.AwardOncePerKey` | internal/store/xp.go:66-81 | A second award under a used key changes nothing, whatever its user and points. |
| `XpUptime.UptimePassOncePerDay` | internal/store/xp.go:131-171 | A later pass on the same day, in any order and with any points, changes nothing if and only if every node it lists was paid for already, to its present owner or an earlier one, or has no existing owner. |
| `XpUptime.HealthyNodes` | internal/store/xp.go:136-147 | The selection holds, of every owner, the five healthy nodes with the latest heartbeats, or all of them. |
| `XpUptime.HealthyListMeans` | internal/store/xp.go:136-147 | Listed nodes have an organization, are online and beat within the hour; one that does and is not listed has five listed of the same owner that beat no earlier. |
| `XpUptime.PassEvents` | internal/store/xp.go:166-169 | A pass only appends uptime awards of the given points. |
| `XpUptime.OwnerPaidAtMostFive` | internal/store/xp.go:131-171 | A pass over such a selection pays no owner more than five times. |
| `XpUptime.LaterPassPaysIff` | internal/store/xp.go:131-171 | The cap is one of a pass, not of a day: a later pass of the day pays a node's owner again if and only if the earlier one did not pay that node. |
| `XpStoreModel.TierForXP` | internal/store/xp.go:30-38 | The scan returns the highest tier whose threshold is met. |
| `XpStoreModel.NextTierAt` | internal/api/rank.go:45-51 | The loop returns the first threshold above the total, which on a ladder is the next tier's. |
| `XpStoreModel.XpStore.AwardXP` | internal/store/xp.go:54-98 | The transaction is the award, and says whether it paid. |
| `XpStoreModel.XpStore.AwardOperatorUptimeXP` | internal/store/xp.go:131-171 | The routine pays exactly the selected healthy nodes, in one pass. |
| `XpStoreModel.XpStore.BindReferrer` | internal/store/referrals.go:84-99 | It binds if and only if no referrer was set and it is another, existing user; no bound referrer ever changes. |
| `XpStoreModel.XpStore.AwardReferralXP` | internal/api/subscriptions.go:93-105 | Run alone, the referee gets the referee's points and the referrer the referrer's, each unless that side was paid; both sides end paid, a second call changes nothing, and nobody else's row moves. |
| `Referrals.StepKeepsInv` | internal/api/referrals.go:35-96 | Every step of every handler, failing or not, keeps the ledger, justifies each referral event by a binding, and changes no bound referrer. |
| `Referrals.RunKeepsInv` | internal/store/referrals.go:84-99 | Whole runs keep it. |
| `Referrals.LeaderboardWithinBound` | internal/store/leaderboard.go:31-35 | In every reachable state a user's referrer events are no more than the users bound to that user. |
| `Referrals.PaidAtMostOnce` | internal/api/subscriptions.go:93-105 | In every reachable state no referee is paid twice, and no referrer twice for the same referee. |
| `ReferralTotals.ReferralPointsAddUp` | internal/api/subscriptions.go:97-104 | In every reachable state of runs that pay one pair of amounts, a user's referral points are the referee's amount if the user was paid as one, and the referrer's amount once for every referee paid for. |
| `ReferralTotals.LeaderboardCountsPaid` | internal/store/leaderboard.go:31-35 | And the leaderboard counts exactly the referees paid for. |
| `ReferralPayments.PaidIffStarted` | internal/api/subscriptions.go:93-105 | When no call failed, whoever joined or left or closed what, a user with no handler running any more, and the referrer, have been paid if and only if some handler found the user's referrer. |
| `ReferralPayments.PaidIffQualified` | internal/api/referrals.go:35-96 | When no call failed and the user never left, a bound user with no handler running any more, and the referrer, have been paid if and only if some handler found the user a member of an organization or created one. |
| `ReferralPayments.PaidOnlyIfQualified` | internal/api/subscriptions.go:93-105 | Whatever fails, nobody is paid on either side who never qualified. |
| `ReferralPayments.SidePaidIffCalled` | internal/api/subscriptions.go:93-105 | Whatever fails, a side is paid if and only if some payment call for it succeeded; none is ever refused and nothing else pays it. |
| `ReferralPayments.BothSidesPaid` | internal/api/auth.go:99-104 | So when no call failed, the user never left and no handler of the user is left, a bound user whose bootstrap made the organization and the referrer are both paid, however redeeming and bootstrap interleave. |
| `ReferralPayments.FoundedAfterRedeemUnpaid` | internal/api/referrals.go:49-55 | A run without failures after which neither side is paid in any continuation in which the user keeps an organization. |
| `ReferralPayments.FailedPaymentUnpaid` | internal/api/subscriptions.go:99-104 | A run with one failed payment after which the referrer is paid, and the referee is not in any continuation in which the user keeps an organization. |
| `ReferralPayments.UnpaidForever` | internal/store/orgs.go:38-59 | Once a bound user owns an organization and no handler of that user is left, what was not paid is not paid as long as the user keeps an organization. |
| `ReferralPayments.LaterLoginPays` | internal/store/orgs.go:246-255 | Once the user has deleted or handed over the last organization, the next login, if no call fails, pays both sides after all. |
| `BusinessPlan.BusinessRan` | internal/store/provisioning.go:72-102 | Every run, wherever a call fails, keeps the organization well formed and raises the deficit by at most one, only when it fails; success leaves everything provisioned and makes only the missing nodes. |
| `BusinessPlan.BusinessSucceedsIff` | internal/store/provisioning.go:72-190 | With no failing call a run succeeds if and only if the licences available or still to be created cover the managed nodes without a live Sentinel service and those still to be made. |
| `BusinessPlan.ProvisionedRunIdle` | internal/store/provisioning.go:72-102 | After a successful run a further one changes no node, service or licence, even when it fails. |
| `BusinessPlan.NewOrgProvisioned` | internal/store/provisioning.go:72-102 | A new business organization gets exactly three managed Sentinel nodes, each with VPN, Sentinel and a licence of its own. |
| `BusinessPlan.DeficitIsForever` | internal/store/provisioning.go:152-173 | From a positive deficit every later run fails, however many there are. |
| `BusinessPlan.InterruptedRunWastesLicence` | internal/store/provisioning.go:162-173 | A first run cut off between licence and service leaves a deficit of one, and no later run succeeds. |
| `BusinessSteps.SentinelAdvances` | internal/store/provisioning.go:152-173 | Attaching the Sentinel service keeps the balance of nodes and licences, except when cut off in between. |
| `ProPlan.ProRan` | internal/store/provisioning.go:40-70 | A pro run makes at most one Shield node, never a second, and succeeds when no call fails. |
| `ProPlan.ProHeals` | internal/store/provisioning.go:40-70 | After a run cut off anywhere, a clean one succeeds with one node where there was none, and a third changes nothing. |
| `ProvisioningStore.OrgStore.ProvisionBusinessPlan` | internal/store/provisioning.go:72-102 | The loops are the run those lemmas speak of; success means everything is provisioned. |
| `ProvisioningStore.OrgStore.ProvisionProPlan` | internal/store/provisioning.go:40-70 | The routine is the pro run. |
| `ProvisioningStore.OrgStore.AttachSentinelLicense` | internal/store/sentinel_licenses.go:39-68 | The oldest available licence goes to the node; without one nothing changes. |
| `ProvisioningStore.OrgStore.EnsureSentinelLicenses` | internal/store/provisioning.go:175-190 | The missing licences are created one by one. |
| `ProvisioningStore.OrgStore.AttachServiceToNode` | internal/store/org_nodes.go:473-494 | The insert-or-update writes the provisioner's terms and keeps an existing licence unless a new one comes. |
| `ProvisioningStore.OrgStore.ListManagedNodesByProfile` | internal/store/provisioning.go:200-218 | The loop lists the managed nodes of the profile, oldest first. |
| `Tiers.DropTierIsBest` | internal/store/drop.go:78-115 | The Drop tier is free, or the plan of a privileged or the seat of another active, billed membership, and no known tier that one of those brings is above it; every tie-break gives this one answer. |
| `Tiers.DropTierIsMaximum` | internal/store/drop.go:78-115 | The same as a maximum of ranks. |
| `Tiers.VpnPlanIsBest` | internal/store/orgs.go:66-102 | The VPN plan is empty without an active, billed membership, and otherwise brought by one, known and at least every known one, if there is any. |
| `Tiers.ResolversAgree` | internal/store/orgs.go:66-102 | For any memberships, the Drop tier is the VPN plan, normalized. |
| `Tiers.AnswersEqualIff` | internal/store/orgs.go:66-102 | The two strings are equal if and only if some active membership has a known tier, an empty seat counting as free. |
| `Tiers.UnknownSeatDiffers` | internal/store/orgs.go:66-102 | A single seat of tier "gold": the VPN plan is that text, the Drop tier is free. |
| `Tiers.MoreMembershipsNeverLower` | internal/store/drop.go:23-59 | Adding memberships never lowers the Drop tier or its default quota. |
| `Tiers.BuiltInQuotas` | internal/store/drop.go:46-60 | The built-in quota of every tier in bytes, and the free one for any other text. |
| `Tiers.DropTierRank` | internal/store/drop.go:28-35 | The scan returns the tier's place in the order, or -1. |
| `Usage.RollupsBalance` | internal/store/clients.go:110-160 | Over every run each client's counters are the sums of its daily rows, and its node's latest handshake is no earlier than its own. |
| `Usage.StepKeepsInv` | internal/store/clients.go:102-160 | Every report, creation and deletion keeps both. |
| `Usage.NodeHandshakeIsLatestReport` | internal/store/clients.go:147-157 | A node's handshake is exactly the latest ever reported for a client it had then. |
| `Usage.UsageStore.AddUsage` | internal/store/clients.go:110-160 | The method is one report: negative deltas count as zero, an unknown client changes nothing. |
| `Usage.UsageCounts` | internal/store/clients.go:110-160 | What one report writes, column by column. |

## Left out

- Columns are unbounded integers; a bigint overflow in Postgres would abort the transaction, which is a rollback here. Go's int64 arithmetic is modelled where it decides (the quota and capacity tests and the capacity buckets).
- Postgres isolation, locks and index inference: each transaction is one atomic step. Serialisation failures are rollbacks.
- Timestamps are inputs where an order depends on them (the updated_at columns of the two job lists, heartbeats) and are not kept otherwise. Row ids are opaque and never reused.
- Deleting users and nodes, with the rows that cascade from them, and membership edits other than joining and leaving; of deleting or handing over an organization only what it means for owners and members.
- Authorisation, HTTP parsing, JSON views, rate limits, metrics, e-mail and the node's web interface.
- The node itself: it pins and unpins a CID when asked, may answer or not, and keeps one pin per CID.
- A reservation's time to live is in whole seconds, as the table stores it; a positive one below a second is not told apart. The content hash of a request is left out.
- Uploads `uploading` and files `unavailable` are legal values that no modelled transaction sets.
- Key length is counted in characters; trimming knows the spaces of Latin-1, and lower-casing the letters of ASCII.
- The vault's public key and key-derivation metadata travel with its text and are not told apart.
- DropHandlers.ReconcileDropPins: run without interference; its steps interleaved with everything else are in DropPins. DropQueue takes nodes and store to treat each job alike, with the same time, in every pass; the two list queries themselves take no time.
- DropQueue.OrphanRetriedIff: speaks of passes with the deletes at rest; before that the time left to the orphan jobs changes from pass to pass.
- DropCapacity.QuotaNeverOversubscribed: limits stay small enough for the int64 test, as the built-in ones do.
- BusinessPlan.BusinessRan: runs for one organization follow one another; two at once could make more than three nodes. Random node ids are new and different.
- ReferralPayments.BothSidesPaid: referral codes are resolved to their owner before the first step; allocating codes is left out.
- Retries of the free-days claim, the leaderboard's windows and the XP breakdown by kind.
- Sending on hub channels, pings and frames; a hub connection is its peer and region.
- Node firewalls, sentinel licence reconciliation and services attached outside the provisioner.
