# Buffer Fabric: a verified model

Buffer Fabric is a capacity ledger. Pools form a forest; each pool has protected headroom,
a bounded overcommit allowance and the right to borrow from one ancestor. Allocations move
through Reserved, Committed, Fenced, Reclaimed, Released and Expired. Per-pool totals are
kept incrementally, every mutation is journaled, and a snapshot compacts the journal.

This project models the ledger, its durability and its exact arithmetic in Dafny, and
proves what holds over whole runs.

## How it is organised

- **Arithmetic and encodings.** `Arithmetic`, `Pressure`, `Crc32c`, `Codec` (with the
  classes `ByteWriter` and `ByteReader`), `Records`, `Frames`.
- **The ledger.** `Model` holds the entities; `Grants`, `Ledger`, `Topology`, `Reclaim`,
  `Attempts` and `Order` define each locked section of the runtime as one step, a function
  of the state, the request and the sampled tick. `Runtime` holds the class `LiveFabric`, whose
  methods update tables in place, are proved equal to those steps, and keep the ledger's
  invariant (`Valid()`).
- **What a caller is told.** `Handlers`, `Answers`, `Granting`, `Sweeps`, `Layout` and
  `Shedding` say, for every request and every ledger in order, exactly when each operation
  succeeds, what it then does to each record and table, and which status it fails with: in
  terms of the fields alone, without the functions that define the steps. Every method of
  `LiveFabric` ensures its answer.
- **What runs keep.** `Aggregates`, `Invariant`, `Lending`, `Split`, `Transitions`,
  `AllocationSteps`, `TopologySteps` and `Steps` show that every operation makes one of
  fifteen changes and that each change keeps the invariant. `Runs`, `Ids`, `Lifecycle`, `Index`,
  `Limits`, `Soundness`, `Caps`, `Bindings`, `ReclaimPlans`, `Replays`, `Storage` and
  `DeepVerify` draw the consequences for whole runs.
- **Durability.** `Image`, `Crashes` and `Mirror` relate journal, snapshots and live tables;
  `Recovery`, `Sessions`, `Epochs`, `JournalFile` (with the class `Journal`), `SnapshotFile`,
  `FullImage`, `Durability` and `Loader` take them to bytes and back, over any number of
  sessions. `Restarts` and `Turnover` run two histories that end in trouble.

## Main results

- In every state any run reaches, each live aggregate of each pool equals its recomputation
  from the allocation records, no aggregate comes near 64 bits, and borrowed units equal
  lent units over all pools (`Runs.LedgerTheorem`). There are two hypotheses, both exact. A
  partial release's split holds: everything is released, or the borrowed units left do not
  exceed the units left (`Split.SplitConservesIff`; a product that fits in 64 bits is enough,
  but not needed). And an allocate that stores does so under an id that is unused or names a
  record without units (`Ids.AllocateKeepsInvIff`); from an empty store that is always so
  (`Ids.FreshRun`).
- An allocate grants the largest number of units that the pool's fields, the nearest lender,
  the policy and the queue allow, and refuses only if there is none
  (`Granting.DecisionIsMost`, `Granting.AllocateAnswers`); a commit succeeds exactly for a
  current reservation (`Answers.CommitAnswers`); expiry, stale fencing, resizing and
  reclamation touch exactly the records their fields select, in the stated order
  (`Sweeps.ExpireAnswers`, `Sweeps.FenceStaleAnswers`, `Shedding.ResizeAnswers`,
  `Shedding.ReclaimAnswers`).
- Without shrinking allowances, and with resizes that fit, no violation branch of any
  operation is reachable and nothing but begin_shutdown shuts the fabric down
  (`Soundness.NoViolationTheorem`).
- A resize ends within its bound if and only if the units its member index does not list
  are within it (`Index.ResizeFitsIff`).
- Replaying the journal reproduces the live tables after every operation, and cut after any
  record, also inside an operation, it gives the tables of a ledger that satisfies the
  whole invariant (`Mirror.MirrorTheorem`).
- Whatever run a session makes, however compactions and checkpoints interleave with it, and
  at whichever crash point it stops, recovery resumes a ledger of the run, the one before
  the interrupted event or the one after it, up to the lapse of reservations
  (`Recovery.CrashTheorem`, in the bytes of both files `Durability.DurabilityTheorem`). This
  holds over any number of sessions (`Sessions.HistoryTheorem`), as long as no allocate after
  a restart lands on a live record. What was held, reserved and lent, closure, balance and
  the index never depend on the restored counter; only later grants do, and a single grant
  since the last snapshot is enough to endanger them, also after a clean close
  (`Recovery.NextIdFreshIff`, `Restarts.CloseThenCollide`).
- A snapshot restores what it was taken of if and only if its counts are within the bounds
  enforced on reading (`Durability.SnapshotRestoresIff`). From an empty store a run stays
  within all of them but the number of capacities (`Storage.StorageTheorem`); a recovered
  fabric need not (`Durability.LoadedBoundedIff`, `Turnover.EvidenceOutgrows`).
- Epochs of successful opens strictly increase over any history (`Epochs.EpochTheorem`).

## Hypotheses

- A partial release leaves no more borrowed units than units (`Split.SplitHolds`, in
  `Steps.Admissible`); without it the ledger stops agreeing with its records
  (`AllocationSteps.ReturningAgreesIff`).
- A grant does not land on a live record (`Invariant.NextIdFree`, in `Steps.Admissible`);
  without it, again, the ledger stops agreeing (`Ids.AllocateKeepsInvIff`). Loading itself
  needs no such hypothesis.
- Journal appends succeed; `Crashes` and `JournalFile` treat the ones that do not complete.
- Iteration orders of hash tables are arbitrary: they are parameters (`publish_policy`, the
  snapshot image) or loops that pick any remaining key.
- Ticks, backend answers and digests are arbitrary inputs.

## Where the code departs from its own words

- src/fabric_impl.hpp:18-20 says validate_accounting compares the recomputed totals with
  the live ones; src/fabric.cpp:157-219 never reads the live ones. Their agreement is
  `Runs.LedgerTheorem`.
- A truncated reclaimable phase does not stop the pinned one, so a pinned allocation may be
  taken while an eligible reclaimable one is left: `ReclaimPlans.PinnedTakenFirstIff` says
  exactly when, `ReclaimPlans.PinnedTakenFirst` gives instances.
- The borrowed share of a partial release is computed in plain 64-bit arithmetic and may
  wrap (`Split.SplitCanWrap`); `Split.SplitConservesIff` says when that does harm.
- Recovery restores the next allocation id from the snapshot alone, and a close writes no
  snapshot (src/fabric.cpp:959-977). After one committed grant, a clean close and an open in
  a new process the next grant replaces the committed record (`Restarts.CloseThenCollide`).
- A partial release drops the surviving record from the member index
  (`Index.PartialReleaseStrands`), so a later resize may be unable to reach it
  (`Index.ShrinkBelowRemainderFails`).
- A torn append can be mistaken for damage in the middle of the journal
  (`Durability.LookalikeIsRefused`).
- A snapshot may be written that cannot be read back: the write bounds the payload, the
  read the whole file (`SnapshotFile.SnapshotReadableIff`); and entries are counted on
  reading only (`FullImage.ImageRoundTrip`), while replay keeps the evidence and the queues
  of removed pools (`Turnover.EvidenceOutgrows`).
- deep_verify reports a violation for large but legal topologies
  (`DeepVerify.LargePoolsSaturate`).
- The utilization figure can read 100 percent for a nearly idle pool
  (`Pressure.UtilizationMisreports`).
- include/buffer_fabric/policy.hpp:156-158 has the soft limit bound the requesting queue's
  total; src/fabric_alloc.cpp:533-539 bounds the pool's own usage, and caps the product at 64
  bits, which on large pools is not the stated share (`Granting.SoftShareExactIff`).

## Model

| member | source | states |
|---|---|---|
| `Arithmetic.MulCompare` | include/buffer_fabric/types.hpp:190-214 | mul_compare returns the sign of a*b - c*d for all 64-bit inputs, computed from 32-bit partial products with no intermediate wrap |
| `Arithmetic.SplitMulIsExact` | include/buffer_fabric/types.hpp:190-214 | the two halves built from four partial products are the exact 128-bit product |
| `Arithmetic.MulOverflowIsExact` | include/buffer_fabric/types.hpp:181-188 | mul_overflow reports exactly the products that do not fit in 64 bits |
| `Arithmetic.SatAdd` | include/buffer_fabric/types.hpp:169-172 | checked addition saturates exactly when the sum exceeds the largest value |
| `Pressure.ClassifyIsExact` | src/policy.cpp:51-98 | the pressure band is the exact rational comparison of usage with each threshold |
| `Pressure.ClassifyMonotone` | src/policy.cpp:56-98 | more usage, or overcommit, never lowers the band |
| `Pressure.OvercommittedIsCritical` | src/fabric_impl.hpp:45-48 | with validated thresholds a pool whose usage exceeds usable capacity is Critical |
| `Pressure.UtilizationExactIff` | src/policy.cpp:56-98 | the reported figure is the floor of used*10000/usable, capped at 10000, if and only if the product fits in 64 bits or the cap applies anyway |
| `Pressure.UtilizationAgreesWithBand` | src/policy.cpp:51-98 | figure and band agree whenever used*10000 fits in 64 bits |
| `Pressure.UtilizationMisreports` | src/policy.cpp:56-98 | concrete input: 2^51 units of 2^60 are Clear yet reported as 100 percent |
| `Crc32c.TableStepIsEightSteps` | include/buffer_fabric/hash.hpp:21-45 | one table step equals eight bitwise polynomial steps, for every register and every byte |
| `Crc32c.BuildTable` | include/buffer_fabric/hash.hpp:21-33 | every table entry is eight polynomial steps of its index |
| `Crc32c.Update` | include/buffer_fabric/hash.hpp:39-45 | the table loop feeds the data exactly as the bitwise definition does |
| `Crc32c.Compute` | include/buffer_fabric/hash.hpp:47-49 | the table-driven checksum is the bitwise CRC-32C; of the nine digits 123456789 it is 0xE3069283 |
| `Crc32c.CheckValue` | include/buffer_fabric/hash.hpp:14-49 | the checksum of the digits 123456789 is the published check value 0xE3069283, register by register |
| `Crc32c.PublishedPolynomial` | include/buffer_fabric/hash.hpp:14-31 | the reflected constant has exactly the terms of the Castagnoli polynomial 0x1EDC6F41 |
| `Crc32c.StepInjective` | include/buffer_fabric/hash.hpp:24-31 | the polynomial step is one-to-one on the register |
| `Crc32c.BurstDetected` | include/buffer_fabric/hash.hpp:39-49 | any change within four consecutive bytes changes the checksum |
| `Attempts.RecordShape` | src/fabric.cpp:242-258 | recording evicts at most the single oldest attempt and keeps map and order queue consistent |
| `Attempts.RepeatIsAnswered` | src/fabric.cpp:225-258 | fewer than capacity later recordings leave an attempt answerable; a different digest conflicts |
| `Attempts.ForgottenAfterCapacity` | src/fabric.cpp:242-258 | after capacity newer attempts it is forgotten: the bound is exact |
| `Order.SortedUnique` | src/fabric_topology.cpp:466-483 | two rank-ordered listings of the same ids are equal, so victim order does not depend on iteration order |
| `Order.Sort` | src/fabric_topology.cpp:46-50 | visiting a set in any order and sorting yields the one ranked listing |
| `Grants.GrantComposition` | src/fabric_alloc.cpp:129-173 | own free capacity first, then the lender's, overcommit only once everything borrowable is taken |
| `Grants.EvaluateMatchesAllocate` | src/fabric_query.cpp:179-222 | evaluate never reports less than allocate decides, and the same when the soft limit does not apply |
| `Grants.ClosesIffWithinAllowance` | src/accounting.cpp:85-172 | on consistent aggregates the ten closure checks come down to own usage within usable capacity plus allowance |
| `AllocationSteps.EvaluateAgrees` | src/fabric_query.cpp:98-222 | without the soft limit, evaluate reports n units exactly when allocate decides on n |
| `Lending.LenderOfPoolIsNearest` | src/fabric_alloc.cpp:143-164 | the lender is the first non-retired ancestor with free capacity; the depth cut-off never hides one |
| `Lending.LenderOf` | src/fabric_alloc.cpp:148-160 | a pool never finds itself as its lender |
| `Lending.GrantBounds` | src/fabric_alloc.cpp:129-173 | a grant keeps the owner within its allowance, borrowing within its limit, and the lender within its own usable capacity |
| `Split.ProportionalShare` | src/fabric_alloc.cpp:913-938 | the exact proportional share leaves neither half with more borrowed units than units |
| `Split.SplitExactIff` | src/fabric_alloc.cpp:918-922 | the computed share is the exact floor if and only if borrow*release fits in 64 bits |
| `Split.FittingSplitHolds` | src/fabric_alloc.cpp:913-938 | a product that fits always gives a split that holds: the condition is weaker than fitting |
| `Split.SplitConservesIff` | src/fabric_alloc.cpp:913-938 | the halves carry to every aggregate of every pool what the whole carried if and only if all is released, or the borrowed units left do not exceed the units left |
| `Split.SplitConserves` | src/fabric_alloc.cpp:913-938 | under that condition units, borrowed and own parts of the two halves add up to the original and both halves are well formed |
| `Split.SplitContributions` | src/fabric_alloc.cpp:913-938 | under that condition every aggregate of every pool receives from the two halves what it received from the whole |
| `Split.SplitCanWrap` | src/fabric_alloc.cpp:918-922 | concrete input: releasing 16 of 2^60 borrowed units wraps the product and leaves more borrowed units than units |
| `Split.WrappedSplitMayHold` | src/fabric_alloc.cpp:918-922 | concrete input: 2^60 units, 32 borrowed, 2^59 released wraps the product and still conserves every aggregate |
| `Aggregates.ReleaseUnitsEffect` | src/fabric_alloc.cpp:216-270 | returning a covered record's units succeeds and lowers every aggregate of every pool by exactly its contribution |
| `Aggregates.StoreRecordEffect` | src/fabric_alloc.cpp:674-689 | storing an affordable record succeeds and raises every aggregate by exactly its contribution |
| `Aggregates.CommitEntryFields` | src/fabric_alloc.cpp:790-799 | a commit moves the record's units from reserved to committed in the pool and in its queue buckets |
| `Aggregates.PoolIdentity` | src/fabric_impl.hpp:21-52 | recomputed totals satisfy reserved+committed = pinned+reclaimable and allocated+lent = own+borrowed |
| `Aggregates.BorrowedEqualsLent` | src/accounting.cpp:205-209 | over all pools, live borrowed units equal live lent units |
| `Invariant.ClosureIff` | src/fabric.cpp:66-98 | in every state satisfying the invariant check_closure succeeds exactly when usage is within allowance |
| `Invariant.FenceOneKeepsBooks` | src/fabric_alloc.cpp:272-296 | fencing a holder reaches no error branch and keeps the books in order |
| `Invariant.FenceAllKeepsBooks` | src/fabric_alloc.cpp:1113-1127 | a fencing loop over any ids succeeds, keeps the books in order and only lets go of units |
| `AllocationSteps.StoreEffect` | src/fabric_alloc.cpp:175-214 | apply_commit_units reaches no error branch for a drafted record, for owner or lender |
| `AllocationSteps.DraftIsAffordable` | src/fabric_alloc.cpp:565-646 | the record an allocate drafts is one its pool and lender can afford |
| `AllocationSteps.PlanDecidesClosure` | src/fabric_alloc.cpp:648-710 | the plan check and the later closure check look at the same numbers |
| `AllocationSteps.AllocateStep` | src/fabric_alloc.cpp:356-734 | every allocate leaves the books as they are or grants one bound, affordable, capped record; it never forces a shutdown |
| `AllocationSteps.CommitStep` | src/fabric_alloc.cpp:736-829 | every commit leaves the state as it is or promotes the reservation; shutdown follows exactly when usage exceeds allowance |
| `AllocationSteps.ReleaseStep` | src/fabric_alloc.cpp:835-978 | every release whose split holds returns the part and settles; shutdown follows exactly when usage exceeds allowance |
| `AllocationSteps.ReturningAgreesIff` | src/fabric_alloc.cpp:902-942 | returning part of an allocation succeeds and leaves books that agree with the records if and only if its split holds |
| `AllocationSteps.RevalidateShape` | src/fabric_alloc.cpp:984-1091 | a revalidation renews the binding to the generations and epoch in force and changes nothing else |
| `TopologySteps.FenceAllClears` | src/fabric_alloc.cpp:1113-1127 | no visited record is still selected after a fencing loop |
| `TopologySteps.FenceQueueEmpties` | src/fabric_topology.cpp:767-783 | once a queue is fenced none of its records holds units |
| `TopologySteps.ReclaimCloses` | src/fabric_query.cpp:391-429 | reclamation's closing check fails exactly when the pool is still beyond its allowance |
| `TopologySteps.PublishedKeepsInv` | src/fabric_topology.cpp:188-269 | publishing a policy, with or without fencing, keeps the invariant |
| `TopologySteps.WalkMeansRooted` | src/fabric_topology.cpp:337-354 | the ancestry walk succeeds only below the depth limit |
| `TopologySteps.PoolAddedKeepsInv` | src/fabric_topology.cpp:283-394 | registration keeps the forest acyclic with at most 16 ancestors and the whole invariant |
| `TopologySteps.PoolDroppedKeepsInv` | src/fabric_topology.cpp:396-454 | removal of an idle leaf keeps the invariant |
| `TopologySteps.EnforcedKeepsInv` | src/fabric_topology.cpp:457-644 | resizing and enforcing capacity succeeds and keeps the invariant |
| `Steps.StepChanges` | src/fabric_query.cpp:26-96 | every public operation, begin_shutdown and checkpoint included, makes exactly one of fifteen described changes, and units are given back, policies installed, pools resized or removed only as asked |
| `Steps.ChangeKeepsInv` | src/fabric.cpp:100-219 | each of those changes keeps the invariant |
| `Runs.LedgerTheorem` | src/fabric.cpp:100-219 | in every state any run reaches, also from a recovered fabric, each live total equals its recomputation, none is near wrapping, closure is decided by allowance alone, and borrowed equals lent |
| `Ids.FreshRun` | src/fabric_alloc.cpp:577-688 | where every later allocation id is unused, as in a newly opened fabric, that stays so over any run, and the splits of partial releases are the only hypothesis left |
| `Ids.CollisionKeepsAgreementIff` | src/fabric_alloc.cpp:674-689 | storing a grant under a reused id keeps the books in agreement if and only if the record it replaces holds no units |
| `Ids.AllocateKeepsInvIff` | src/fabric_alloc.cpp:356-734 | allocate keeps the whole invariant if and only if it stores nothing or the next id is unused or names a record that holds no units |
| `Lifecycle.LifecycleTheorem` | include/buffer_fabric/allocation.hpp:28-51 | over any run the next id never goes back, records are never deleted, and a record whose id is not handed out again only advances: one without units never changes, a commitment never becomes a reservation |
| `Index.CompleteKept` | src/fabric_alloc.cpp:216-270 | without partial releases a complete member index stays complete |
| `Index.PartialReleaseStrands` | src/fabric_alloc.cpp:929-942 | after a partial release the remainder's own units are outside the index |
| `Index.ShrinkStopsInTime` | src/fabric_topology.cpp:485-503 | outside fence-everything mode nothing is fenced once usage fits |
| `Index.EnforceFitsIff` | src/fabric_topology.cpp:457-534 | enforcing capacity ends within the allowance if and only if the unindexed units are within it |
| `Index.ResizeFitsIff` | src/fabric_topology.cpp:536-644 | a resize succeeds if and only if the unindexed units fit the new allowance; otherwise it shuts the fabric down |
| `Index.CompleteResizeFits` | src/fabric_topology.cpp:612-639 | with a complete index every resize fits and its closing check never fails |
| `Index.ShrinkBelowRemainderFails` | src/fabric_alloc.cpp:929-942 | shrinking below what a partial release left forces a shutdown |
| `Limits.LimitedKept` | src/fabric_topology.cpp:247-265 | without a shrinking allowance, and with resizes whose unindexed units fit, every pool stays within its allowance, partial releases included |
| `Soundness.AllocateNeverViolates` | src/fabric_alloc.cpp:648-710 | the planned-identity failure and the closure failure of allocate are unreachable |
| `Soundness.CommitNeverViolates` | src/fabric_alloc.cpp:790-808 | commit reports no violation and forces no shutdown |
| `Soundness.ReleaseNeverViolates` | src/fabric_alloc.cpp:902-956 | release, whole or partial, reports no violation and forces no shutdown |
| `Soundness.ReclaimNeverViolates` | src/fabric_query.cpp:391-429 | reclamation reports no violation and forces no shutdown |
| `Soundness.ResizeViolatesIff` | src/fabric_topology.cpp:612-639 | on any ledger a resize is met with a violation if and only if it is admitted and its unindexed units do not fit the new allowance |
| `Soundness.StatusSound` | src/fabric_topology.cpp:188-269 | in every sound state no operation's status is a violation: publish, retire, retarget, sweeps, registration and evidence included |
| `Soundness.NoViolationTheorem` | src/fabric_alloc.cpp:175-270 | after any benign run from a sound fabric, new or recovered, partial releases included, every pool closes, the fabric begins shutdown only by begin_shutdown, no benign next request of any kind is met with a violation, and a resize is met with one exactly when its unindexed units do not fit |
| `Soundness.NoViolationFromEmpty` | src/fabric_alloc.cpp:175-270 | from an empty store the same with no hypothesis on ids |
| `Soundness.CommitShutsDownIff` | src/fabric_alloc.cpp:804-808 | after a policy took allowance away, a commit shuts the fabric down exactly when usage exceeds the new allowance |
| `Caps.HeldIsBuckets` | src/fabric_topology.cpp:52-71 | a queue's records all sit in its current pool, whose buckets hold their sum |
| `Caps.CapsKept` | src/fabric_alloc.cpp:516-522 | a queue with a hard cap never holds more than it, also across retargeting |
| `Caps.PartitionKept` | src/fabric_topology.cpp:139-175 | raw units of pools on a resource never exceed its published capacity, whatever came between the unlocked sections of set_capacity |
| `Caps.CapsTheorem` | src/fabric_topology.cpp:361-379 | both caps hold in every reachable state |
| `Caps.EmptyCapped` | src/fabric.cpp:883-936 | a newly opened fabric is within both caps |
| `Bindings.FencePoolsClears` | src/fabric_topology.cpp:247-265 | after a policy's pools are fenced no member is bound to another generation |
| `Bindings.BindingsKept` | src/fabric_topology.cpp:623-626 | under fencing policies each change keeps this session's holders bound to the present |
| `Bindings.BindingTheorem` | src/fabric_alloc.cpp:1093-1127 | in every state a watchful run reaches, fence_stale finds none of this session's allocations to fence |
| `Bindings.EmptyWellBound` | src/fabric.cpp:883-936 | a newly opened fabric that fences on retirement may start a watchful run |
| `ReclaimPlans.PlanTheorem` | src/fabric_query.cpp:279-363 | victims are distinct and eligible, sum to the planned units within the maximum, minimal, complete unless truncated, pinned ones only by policy and last |
| `ReclaimPlans.ApplyTheorem` | src/fabric_query.cpp:391-429 | applying revokes exactly the planned units and raises free minus overcommitted by exactly the victims' own units |
| `ReclaimPlans.PinnedTakenFirstIff` | src/fabric_query.cpp:320-361 | over the ranked candidate lists, a pinned victim is taken while an eligible reclaimable one is left if and only if pinned victims are allowed and at some rank within the victim count more is needed, the next reclaimable candidate exceeds what remains of the maximum and the first pinned one does not |
| `ReclaimPlans.PinnedTakenFirst` | src/fabric_query.cpp:349-361 | concrete family: with one candidate of each class and the reclaimable one too large, the plan is the pinned one |
| `Replays.AllocateReplayed` | src/fabric_alloc.cpp:373-400 | whatever ran in between, a repeated allocate changes nothing and returns the recorded grant, or is refused exactly when the fabric is shutting down, the table is full, or pool, queue or policy is gone; other content is refused |
| `Replays.CommitReplayed` | src/fabric_alloc.cpp:736-765 | a repeated commit changes nothing and returns the recorded answer if and only if admission passes, which over admissible runs that do not hand its id out again is exactly when the allocation's pool and queue are still there |
| `Replays.RepeatCode` | src/fabric_alloc.cpp:736-765 | after any admissible run that does not hand its id out again the record is still there with its pool and queue, so only their removal refuses a repeat |
| `Replays.ReleaseReplayed` | src/fabric_alloc.cpp:863-873 | the same for release: units are never returned twice |
| `Replays.RunKeepsMemory` | src/fabric.cpp:242-258 | over any run the attempt memory stays bounded and consistent with its order queue |
| `Storage.ChangeFits` | src/fabric.cpp:462-550 | every change keeps the tables within the counts enforced on reading, all records within the unit bound and capacities under their own keys |
| `Storage.StorageTheorem` | src/fabric.cpp:427-555 | over any run tables, evidence and attempt memory stay within the bounds enforced on reading and no id counter returns to zero |
| `Storage.SavableTheorem` | src/fabric.cpp:700-775 | over any run, also from a recovered fabric, every entry stays under its own key and within the unit bound |
| `Storage.EmptyStorable` | src/fabric.cpp:891-902 | a newly opened fabric with a validated configuration meets those bounds |
| `Image.LastWriterWins` | src/fabric.cpp:557-698 | replay gives under each key the last value written, or what was there |
| `Image.ReplayIdempotent` | src/fabric.cpp:557-698 | replaying a journal over its own result changes nothing |
| `Image.ReplayOverNext` | src/fabric.cpp:323-345 | replaying over the result with one more record applied gives the state before or after that record |
| `Image.LastQueueWins` | src/fabric.cpp:624-639 | queues, too, come back as last written or as they were |
| `Image.ReplayKnows` | src/fabric.cpp:614-632 | replay knows every queue the live fabric has, although a removed pool takes its queues along only in memory |
| `Crashes.CrashConsistent` | src/persistence.cpp:667-691 | if the disk stands for the live tables up to reservations that lapsed in memory, it still does at every crash point of a journal call or checkpoint, for the tables just before or just after; compaction may snapshot tables that differ from the disk's own replay |
| `Crashes.OpeningStands` | src/fabric.cpp:938-948 | the epoch record open journals leaves the disk standing for the loaded tables at every crash point |
| `Crashes.SessionStands` | src/fabric.cpp:323-345 | over a whole session of records, compactions and checkpoints in any interleaving the disk stands for the live tables |
| `Crashes.StoppedStands` | src/persistence.cpp:667-691 | a session stopped at any point of any event leaves a disk that stands for the tables before or after that event |
| `Mirror.ChangeReaches` | src/fabric.cpp:347-413 | each change journals exactly the records that explain it, and after every single record, also between two fences, the tables on record are those of a ledger satisfying the whole invariant |
| `Mirror.MirrorTheorem` | src/fabric.cpp:557-698 | over any run, replaying what was journaled reproduces the live pools, policies, capacities, allocations and queues, the grants in it account for the next id, and every prefix of it gives the tables of a ledger that satisfies the invariant |
| `Recovery.LapseReservations` | src/fabric.cpp:795-810 | exactly the reservations come back expired, stamped with the tick and the next revision; every other record comes back as it was |
| `Recovery.RebuildAggregates` | src/fabric.cpp:100-155 | counting each record once in any order gives aggregates that agree with the records and a complete index |
| `Recovery.RecoveryTheorem` | src/fabric.cpp:777-828 | from any tables equal to a ledger's up to lapsed reservations, and whatever the restored counter, loading gives the invariant, a complete index, the same committed units, no reserved ones, no more usage, allowances kept and lending balanced |
| `Recovery.CrashTheorem` | src/fabric.cpp:323-345 | for every run, interleaving of its records with compactions and checkpoints, event and crash point, recovery resumes the ledger with all records before the event or with the event's record as well, the disk stands for what was loaded, and every later id is unused exactly if the disk is numbered |
| `Sessions.HistoryTheorem` | src/fabric.cpp:883-977 | over any number of sessions, each closed or cut short anywhere and followed by an open that may itself be cut short, each recovery resumes a ledger of the session before it |
| `Sessions.FromEmptyDirectory` | src/fabric.cpp:883-977 | in particular from an empty directory |
| `Recovery.LoadedStands` | src/fabric.cpp:795-810 | the lapse is in memory only: after loading, the disk stands for the live tables up to exactly the reservations that lapsed, so the next session starts as this one did |
| `Recovery.NextIdFreshIff` | src/fabric.cpp:443-449 | after loading, every id from the restored counter on is unused if and only if every record in the snapshot and the journal has an id below the counter the snapshot carries |
| `Recovery.GrantUnnumbers` | src/fabric.cpp:650-666 | one grant journaled since the snapshot is enough for that to fail |
| `Restarts.CloseThenCollide` | src/fabric.cpp:959-977 | concrete history: from an empty directory, one committed grant of 10 units, a close in good order, a recovery that resumes exactly that, and one more grant, which replaces record 1: 20 units committed, 10 in the records |
| `DeepVerify.CheckGlobal` | src/accounting.cpp:174-223 | the loop reports closure exactly when every pool closes, no total overflows, lending balances and the global identity holds |
| `DeepVerify.Verify` | src/fabric.cpp:157-219 | on agreeing books the verdict on recomputed totals is the verdict on the live ones |
| `DeepVerify.DeepVerifyIff` | src/fabric.cpp:157-219 | it reports closure if and only if every pool is within its allowance and raw plus overcommitted units of all pools fit in 64 bits |
| `DeepVerify.LargePoolsSaturate` | src/accounting.cpp:183-202 | sixteen idle pools of the largest legal size are always reported as a violation |
| `Epochs.EpochTheorem` | src/fabric.cpp:905-949 | over any opens, writes and crashes successful opens return strictly increasing epochs |
| `Epochs.FreshDirectoryOk` | src/fabric.cpp:905-922 | an empty directory is where such a history may start |
| `Epochs.RestoredEvidenceIsStale` | src/fabric_alloc.cpp:83-97 | restored evidence always resolves to Stale |
| `Epochs.EarlierEpochRefused` | src/coordinator.cpp:295-302 | a request bound to an earlier session never passes the epoch gate |
| `Codec.GetPut` | include/buffer_fabric/codec.hpp:25-183 | every field is read back as written, whatever follows it |
| `Codec.PutGet` | include/buffer_fabric/codec.hpp:88-183 | only encodings are accepted: a field has one encoding |
| `Codec.DecodeEncode` | src/topology.cpp:94-427 | decoding a sequence of fields inverts encoding and is self-delimiting |
| `Codec.EncodeDecode` | src/topology.cpp:94-427 | whatever decodes is the encoding of what it decodes to |
| `Codec.ByteWriter.PutLe` | include/buffer_fabric/codec.hpp:33-42 | the byte loop appends the little-endian form |
| `Codec.ByteWriter.PutText` | src/codec.cpp:28-39 | an oversized string latches failure and writes nothing |
| `Codec.ByteWriter.PutRecord` | src/topology.cpp:143-171 | writing fields one by one appends their encoding |
| `Codec.ByteReader.GetLittle` | include/buffer_fabric/codec.hpp:118-141 | the byte loop reads the little-endian value or latches failure |
| `Codec.ByteReader.GetString` | src/codec.cpp:54-67 | the length is checked against both bounds before anything is read |
| `Codec.ByteReader.GetRecord` | src/topology.cpp:173-208 | reading fields one by one is the decoding function |
| `Records.PolicyRoundTrip` | src/topology.cpp:104-208 | a policy is read back exactly |
| `Records.PoolRoundTrip` | src/topology.cpp:210-241 | a pool descriptor is read back exactly |
| `Records.QueueRoundTrip` | src/topology.cpp:243-272 | a queue descriptor is read back exactly |
| `Records.AllocationRoundTrip` | src/topology.cpp:274-361 | an allocation with its lineage and bound generations is read back exactly |
| `Records.EvidenceRoundTrip` | src/topology.cpp:363-396 | a pressure snapshot is read back exactly |
| `Records.AttemptRoundTrip` | src/topology.cpp:398-427 | an attempt is read back exactly |
| `Records.RecordRoundTrip` | src/fabric.cpp:557-698 | every journal record is read back from its opcode and body |
| `Frames.FrameRoundTrip` | src/codec.cpp:67-143 | decode_frame returns the payload encode_frame was given and consumes exactly its frame |
| `Frames.OnlyFramesRead` | src/codec.cpp:99-143 | only frames are accepted: what is read is, byte for byte, the frame of the payload returned, within the bound |
| `Frames.BurstIsIntegrityFailure` | src/codec.cpp:99-143 | any change within four consecutive payload bytes is reported as an integrity failure |
| `JournalFile.ScanIsLongestPrefix` | src/persistence.cpp:236-298 | reading yields exactly the longest prefix of intact frames |
| `JournalFile.RecordIsFrame` | src/persistence.cpp:236-298 | what reads as a record is exactly the frame of its payload, within the record bound |
| `JournalFile.CheckFrame` | src/codec.cpp:67-97 | concrete bytes: magic, version, length and checksum of one frame, lowest byte first |
| `JournalFile.RepairTheorem` | src/persistence.cpp:510-665 | a recovered file is exactly the recovered frames, a second recovery is clean, the next append reads back as one more record or exceeds the configured bound |
| `JournalFile.RefusesIff` | src/persistence.cpp:510-618 | recovery refuses exactly the files beyond the configured bound and the damaged files with an intact-looking frame beyond the damage |
| `JournalFile.TornAppendTheorem` | src/persistence.cpp:578-635 | a torn append is repaired to the state before it unless the torn part contains an intact frame |
| `JournalFile.Journal.ReadNext` | src/persistence.cpp:236-298 | one read returns the record at the cursor or the damage found there |
| `JournalFile.Journal.Append` | src/persistence.cpp:179-201 | an append adds one whole frame or, beyond a bound, nothing |
| `JournalFile.Journal.Probe` | src/persistence.cpp:582-603 | the probe loop finds an intact frame after the damage if and only if there is one |
| `JournalFile.Journal.Recover` | src/persistence.cpp:510-645 | the bound, the read loop, the probe and the truncation together are the recovery function |
| `SnapshotFile.SnapshotRoundTrip` | src/persistence.cpp:304-390 | the container opens to exactly its header and payload |
| `SnapshotFile.OnlyContainersOpen` | src/persistence.cpp:324-390 | only containers open: what opens starts, byte for byte, with the container of the header and payload returned, within the bound |
| `SnapshotFile.SnapshotReadableIff` | src/persistence.cpp:667-675 | a written snapshot is readable if and only if container and payload together fit the bound |
| `SnapshotFile.TableRestored` | src/fabric.cpp:462-474 | a table is restored whatever order its entries were listed in |
| `FullImage.ImageRoundTrip` | src/fabric.cpp:427-555 | decoding the image restores every table and counter with no trailing bytes, a counter of zero as one, if and only if all seven counts are within the bounds enforced on reading; none is checked on writing |
| `FullImage.PayloadCounts` | src/fabric.cpp:700-775 | a payload below 2^32 bytes lists fewer than 2^32 entries in each table |
| `Durability.FilesRead` | src/persistence.cpp:492-665 | the bytes of both files, a snapshot written within the bounds of reading and a journal, read back to the tables, queues, counter and records the disk holds, unless the journal exceeds its bound |
| `Durability.DurabilityTheorem` | src/fabric.cpp:323-345 | end to end: wherever a session stops, however it compacted, the bytes of both files read back to what the disk holds and what recovery loads resumes a ledger of the run; the next session starts from the same hypotheses |
| `Durability.InterruptedAppend` | src/persistence.cpp:578-635 | a record cut short costs at most itself, or recovery refuses because of an embedded frame |
| `Durability.LookalikeIsRefused` | src/persistence.cpp:578-614 | concrete family: an allocation by tenant 0x142464A31, class 0, torn after those fields makes recovery refuse |
| `Loader.Loader.ApplyPayload` | src/fabric.cpp:557-698 | a record is decoded, validated and absorbed by the tables in place, or refused leaving them alone |
| `Loader.Loader.LoadJournal` | src/persistence.cpp:541-571 | the replay loop absorbs every payload in order or stops at the first refusal |
| `Durability.SnapshotRestoresIff` | src/fabric.cpp:700-775 | a snapshot of any fabric with sound tables that fits its file restores every table and counter if and only if every count is within the bound enforced on reading |
| `Durability.LiveSnapshotRestores` | src/fabric.cpp:700-775 | the same after any run from a new or recovered fabric; from a storable one only the number of capacities can fail, and only a wrapped decision counter changes |
| `Durability.LoadedSavable` | src/fabric.cpp:777-828 | a fabric loaded from the disk of a savable one is savable again |
| `Durability.LoadedBoundedIff` | src/fabric.cpp:614-632 | the snapshot of a fabric just loaded reads back if and only if its queues, evidence, attempts and capacities are within their bounds: replay never shrinks the first two |
| `Turnover.EvidenceOutgrows` | src/fabric.cpp:614-623 | concrete history: n pools registered, observed and removed in turn and a close leave empty live tables, but recovery holds n pieces of evidence, and beyond 65536 the snapshot it writes is refused on reading |
| `Runtime.LiveFabric.constructor` | src/fabric.cpp:883-949 | a newly opened fabric satisfies the invariant |
| `Runtime.LiveFabric.ApplyCommitUnits` | src/fabric_alloc.cpp:175-214 | owner then lender are charged in place, earlier assignments staying when a later check fails |
| `Runtime.LiveFabric.ApplyReleaseUnits` | src/fabric_alloc.cpp:216-270 | units are returned in place, counter by counter, and the id leaves the index |
| `Runtime.LiveFabric.FenceAllocation` | src/fabric_alloc.cpp:272-296 | units, record, journal, in this order |
| `Runtime.LiveFabric.FenceEach` | src/fabric_alloc.cpp:1113-1127 | the loop fences the selected ids and stops at the first failure |
| `Runtime.LiveFabric.FenceStale` | src/fabric_alloc.cpp:1093-1144 | keeps the invariant; exactly the member holders not bound to the present are fenced (Sweeps.FenceStaleAnswers) |
| `Runtime.LiveFabric.ExpireReservations` | src/fabric_alloc.cpp:1146-1196 | keeps the invariant; exactly the member reservations that are due come to be expired (Sweeps.ExpireAnswers) |
| `Runtime.LiveFabric.FindLender` | src/fabric_alloc.cpp:148-160 | the ancestor walk returns the nearest lender |
| `Runtime.LiveFabric.GrantFor` | src/fabric_alloc.cpp:129-173 | the computed grant is the ledger's |
| `Runtime.LiveFabric.EvictAttempts` | src/fabric.cpp:252-258 | the loop drops the oldest attempts until the bound holds |
| `Runtime.LiveFabric.DecideUnits` | src/fabric_alloc.cpp:468-573 | the verdict is the most that may be granted, or why nothing is (Granting.DecisionIsMost) |
| `Runtime.LiveFabric.Allocate` | src/fabric_alloc.cpp:356-734 | answers as Granting.AllocateAnswers says: the most that may be granted is stored as exactly one record under the next id, as asked and bound to the present; anything else leaves books and tables alone; the invariant survives if and only if nothing was stored or the id was free |
| `Handlers.AllocateMeans` | src/fabric_alloc.cpp:356-734 | on any ledger in order a grant stores exactly one record under the next id with no more units than asked, on the pool and queue asked, bound to the present, within the queue's cap, and its pool closes; otherwise books and tables stay; which grant, when, and the record field by field: Granting.AllocateAnswers |
| `Handlers.ReleaseMeans` | src/fabric_alloc.cpp:835-978 | with a split that holds, exactly the units asked for leave the record and its pool; what remains is stated field by field, its borrowed units being the old ones less the proportional share; no pool is used more and no other record moves |
| `Handlers.RetireMeans` | src/fabric_topology.cpp:744-790 | a retired queue holds nothing if fencing is automatic, and records only let go |
| `Handlers.RetargetMeans` | src/fabric_topology.cpp:792-843 | a retargeted queue is on its new pool with nothing held under the old binding, and records only let go |
| `Handlers.CommitMeans` | src/fabric_alloc.cpp:736-829 | on any ledger in order a commit moves exactly the units of one reservation that is current in its three generations and its epoch from reserved to committed, in its pool and its queue's share, and touches no other figure or record; otherwise nothing changes |
| `Handlers.RevalidateMeans` | src/fabric_alloc.cpp:984-1091 | exactly one holding record that was current ends bound to the generations, epoch and boot in force, or books and tables stay |
| `Handlers.IdleIff` | src/fabric_topology.cpp:424-432 | the two counters that guard a removal are zero if and only if no allocation is in the pool or borrows from it |
| `Handlers.RemovalMeans` | src/fabric_topology.cpp:396-454 | a pool is removed if and only if it is known, has no child, only retired queues, and no allocation in it or borrowing from it; then it is gone with its queues, evidence and names and nothing else changed |
| `Handlers.RegisterQueueMeans` | src/fabric_topology.cpp:650-718 | a registered queue has an id not taken before, holds nothing in any record or bucket, and the next id lies beyond it |
| `Handlers.DemandMeans` | src/fabric_topology.cpp:720-742 | a declared demand caps what allocate grants through a queue without a hard cap, and no other decision of allocate depends on it |
| `Handlers.ObserveMeans` | src/fabric_topology.cpp:881-961 | an accepted observation is known for its pool exactly while no older than its lifetime and true to the usage it asserts; other pools' evidence resolves as before |
| `Granting.EvidenceIs` | src/fabric_alloc.cpp:62-123 | evidence counts exactly while observed in this epoch, of the present generation, within its lifetime and true to the usage it asserts; then it is the exact rational band of present usage, else the stated doubt |
| `Granting.MaxGrantIs` | src/fabric_alloc.cpp:129-173 | from the fields alone: the maximum is what own usage leaves of usable capacity, the overcommit still open, and what the nearest ancestor able to lend can spare within the borrowing limit |
| `Granting.DecisionIsMost` | src/fabric_alloc.cpp:456-563 | allocate decides on the largest number of units within the maximum, both policy caps, the queue's cap or demand and the soft limit from High on, all or nothing where partial grants are not allowed; it refuses for capacity only if no number qualifies, and grants nothing when retired, on unknown evidence where that is refused, or at the refusal band |
| `Granting.AllocateAnswers` | src/fabric_alloc.cpp:356-734 | every answer of allocate: the status of each objection, the replay, the denial, and otherwise the record stored, field by field, with what it borrows and from whom, remembered and counted |
| `Granting.ClosesUnlessOverdrawn` | src/fabric_alloc.cpp:648-681 | the planned identity of a drafted grant fails exactly when the pool was beyond its allowance before |
| `Granting.EvaluateAnswers` | src/fabric_query.cpp:98-222 | evaluate reports the largest number of units that may be given, the soft limit aside, or exactly why none |
| `Granting.SoftShareExactIff` | src/fabric_alloc.cpp:533-539 | the soft limit is the stated share of usable capacity if and only if the product stays below the first multiple of 10000 beyond 64 bits |
| `Granting.SoftShareFallsShort` | src/fabric_alloc.cpp:533-539 | concrete input: nine tenths of a pool of 2^60 units is put at less than a five hundredth of it |
| `Granting.ObserveAnswers` | src/fabric_topology.cpp:881-961 | an observation is accepted if and only if it is of this epoch and generation, not from the future and within bounds; then it is stored with the present tick and the policy's lifetime where left open, and is known exactly while fresh; every refusal says why |
| `Answers.CommitAnswers` | src/fabric_alloc.cpp:736-829 | for every commit: a new attempt promotes the record if and only if it is a reservation with its pool, policy and queue known, bound to the present pool, capacity and policy generation and epoch, under assertions that hold; the status of each condition that fails; the shutdown exactly when usage exceeds the allowance |
| `Answers.ReleaseAnswers` | src/fabric_alloc.cpp:835-978 | for every release whose split holds: exactly a holder gives back exactly the units wanted, with the status of each condition that fails; the decision is remembered |
| `Answers.RevalidateAnswers` | src/fabric_alloc.cpp:984-1091 | for every revalidation: exactly a current holder is bound anew; a holder that is not current is to be fenced and stays |
| `Sweeps.FenceAllStamps` | src/fabric_alloc.cpp:272-296 | a fencing loop stamps exactly the listed records it selects with the new state, the tick and the next revision |
| `Sweeps.ExpireAnswers` | src/fabric_alloc.cpp:1146-1196 | expiry of a known pool ends exactly its member reservations that are due: at their own expiry, or without one at creation plus the policy's lifetime, capped; every other record is unchanged |
| `Sweeps.FenceStaleAnswers` | src/fabric_alloc.cpp:1093-1144 | fence_stale fences exactly the member holders with a pool, capacity or policy generation or an epoch that is not the present one |
| `Sweeps.RetireAnswers` | src/fabric_topology.cpp:744-790 | a queue is retired under its next generation exactly if known under the asserted one, its holders fenced exactly if so configured; each refusal by status |
| `Sweeps.RetargetAnswers` | src/fabric_topology.cpp:792-843 | a queue is moved under its next generation exactly if known, live and the target exists, with exactly its holders fenced; each refusal by status |
| `Sweeps.FencePoolsStamps` | src/fabric_topology.cpp:236-262 | a policy change fences exactly the member holders of the pools it governs that are bound to another generation of it |
| `Layout.PublishAnswers` | src/fabric_topology.cpp:188-269 | the policy installed is the request apart from its id and its next generation, if and only if no objection applies; exactly the outdated holders are fenced |
| `Layout.WalkIffFits` | src/fabric_topology.cpp:337-354 | in a forest the ancestry walk succeeds if and only if the parent has at most 15 ancestors, and fails for depth alone |
| `Layout.RegisterPoolAnswers` | src/fabric_topology.cpp:283-394 | a pool joins if and only if it may be registered; its descriptor is the request's in generation 1, empty, with all raw units but the headroom usable, under an id not taken; every refusal leaves tables and books alone and says why |
| `Layout.RemovalExplained` | src/fabric_topology.cpp:396-454 | a refused removal says why |
| `Layout.CapacityAnswers` | src/fabric_topology.cpp:139-175 | a capacity answer is published if and only if the assertions hold and the raw units of the pools on the resource fit it; exactly that entry is replaced |
| `Layout.RegisterQueueAnswers` | src/fabric_topology.cpp:650-718 | a queue joins if and only if it fits, with the request's fields in generation 1; every refusal says why |
| `Layout.DemandAnswers` | src/fabric_topology.cpp:720-742 | a demand is set if and only if the queue is known under the asserted generation, live, and the demand within bounds; each refusal by status |
| `Shedding.EnforceStamps` | src/fabric_topology.cpp:457-534 | members go reclaimable before pinned, then by priority, then by id; borrowers go by id and only once every member is gone; everything goes if the policy fences on change |
| `Shedding.ResizeAnswers` | src/fabric_topology.cpp:536-644 | a pool gets the size asked for, under the next pool and capacity generation, if and only if it may have it; exactly the records let go are fenced, in that order; the answer says whether usage is within the allowance |
| `Shedding.PlanChooses` | src/fabric_query.cpp:279-363 | no victim is outranked in priority, last touch and id by a record of its class that was left over, each is past the minimum hold, together they stay within the maximum, the last was needed, and short of target and reserve nothing more could be taken |
| `Shedding.ReclaimAnswers` | src/fabric_query.cpp:391-429 | a reclamation is admitted if and only if it names units of a known pool under assertions that hold and a policy that allows it; exactly the chosen victims are revoked; every refusal says why |
| `Runtime.LiveFabric.Commit` | src/fabric_alloc.cpp:736-829 | keeps the invariant; promotes exactly a current reservation under assertions that hold, and any other request changes nothing (Answers.CommitAnswers) |
| `Runtime.LiveFabric.Release` | src/fabric_alloc.cpp:835-978 | with a split that holds exactly the units wanted are returned by exactly one record (Answers.ReleaseAnswers) and the invariant is kept; any other request leaves books and tables alone |
| `Runtime.LiveFabric.Revalidate` | src/fabric_alloc.cpp:984-1091 | keeps the invariant; exactly a current holder is bound anew, any other request leaves books and tables alone (Answers.RevalidateAnswers) |
| `Runtime.LiveFabric.Enforce` | src/fabric_topology.cpp:457-534 | members in rank order, then borrowers by id, as in the ledger |
| `Runtime.LiveFabric.SumPartition` | src/fabric_topology.cpp:576-594 | the checked loop gives the sum of raw units, or reports overflow exactly when it exceeds 64 bits |
| `Runtime.LiveFabric.ResizePool` | src/fabric_topology.cpp:536-644 | keeps the invariant; a pool that may have the size gets it, with members and then borrowers fenced in order (Shedding.ResizeAnswers) |
| `Runtime.LiveFabric.PublishPolicy` | src/fabric_topology.cpp:188-269 | keeps the invariant; the policy installed is the one asked for, in its next generation, fencing exactly the holders it makes outdated (Layout.PublishAnswers) |
| `Runtime.LiveFabric.RegisterPool` | src/fabric_topology.cpp:283-394 | keeps the invariant; a pool that may be registered joins as requested, empty, under an id not taken before (Layout.RegisterPoolAnswers) |
| `Runtime.LiveFabric.RemovePool` | src/fabric_topology.cpp:396-454 | keeps the invariant; succeeds if and only if nobody draws on the pool and it has no child or live queue; afterwards nothing refers to it; a refusal says why |
| `Runtime.LiveFabric.RegisterQueue` | src/fabric_topology.cpp:650-718 | keeps the invariant; a queue that fits joins as requested, holding nothing; any other request leaves tables and books alone (Layout.RegisterQueueAnswers) |
| `Runtime.LiveFabric.UpdateDemand` | src/fabric_topology.cpp:720-742 | keeps the invariant; sets the demand and only that, exactly when it may, which bounds later grants through a queue without a hard cap and no others |
| `Runtime.LiveFabric.SetCapacity` | src/fabric_topology.cpp:139-175 | keeps the invariant; exactly an answer that the pools on the resource fit, under assertions that hold, is published (Layout.CapacityAnswers) |
| `Runtime.LiveFabric.ObservePressure` | src/fabric_topology.cpp:881-961 | keeps the invariant; the observation is in force for its pool alone, known exactly while fresh and true to the usage it asserts (Granting.ObserveAnswers) |
| `Runtime.LiveFabric.RetireQueue` | src/fabric_topology.cpp:744-790 | keeps the invariant; exactly a live queue is retired, with exactly its holders fenced if so configured (Sweeps.RetireAnswers), after which nothing of it holds units |
| `Runtime.LiveFabric.RetargetQueue` | src/fabric_topology.cpp:792-843 | keeps the invariant; exactly a live queue is moved to a pool that exists, with exactly its holders fenced (Sweeps.RetargetAnswers), so nothing is held under its old binding |
| `Runtime.LiveFabric.TakeFrom` | src/fabric_query.cpp:320-361 | one greedy phase takes victims while more is needed and they fit |
| `Runtime.LiveFabric.PlanReclaim` | src/fabric_query.cpp:279-363 | sorting and taking both classes builds the ledger's plan, whose victims are chosen as Shedding.PlanChooses says |
| `Runtime.LiveFabric.ApplyReclaim` | src/fabric_query.cpp:391-429 | keeps the invariant; exactly the chosen victims are revoked (Shedding.ReclaimAnswers) |

## Left out

- Sockets, worker and process plumbing, tools, JSON, explanations, metrics, events and decision history: reporting and transport only.
- src/protocol.cpp: flat field-by-field encodings that would only add easy round trips.
- File-system calls: a file is a byte sequence with append, truncate and atomic replace; fsync and platform branches are not modelled.
- Mutex and thread mechanics: each locked section is one step; set_capacity is its publishing section, with the backend's answer as an arbitrary input.
- FNV digests and authority vectors: digests are abstract values of the request, with no claim about collisions; publish_policy compares content by equality instead of digest.
- mint_boot: boot incarnations are arbitrary inputs.
- The history kept beside the latest pressure snapshot, and the name tables after a recovery, are not restored by the model.
- Attempts are restored in the order the snapshot lists them, which the source leaves to its hash map; the order queue across a recovery is not claimed.
- Failed journal appends inside an operation: release changes the aggregates, and fence also the record, before they journal; what a failed append leaves in memory is not modelled.
- Opening the same object again after a close: it keeps its in-memory maps and counters and replays over them (src/fabric.cpp:883-977); every open modelled here is of a new object.
- Durability.DurabilityTheorem: takes the snapshot file to have been written of a fabric within the bounds of reading; Durability.SnapshotRestoresIff says what happens to the others.
