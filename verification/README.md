# A verified model of ESYSim's memory system, branch prediction and thermal solver

The Dafny files here model the parts of the simulator whose correctness is hardest to see from the
code, and prove what those parts are for.

* **Directory coherence** (`Protocol`, `Coherence`, `CoherenceProof`, `CoherenceTheorems`): the MESI
  protocol of `esyalpha/cache.c` for one memory block. The state holds, per thread, the L1 line, the
  messages on their way to it and from it, and the request parked at the home node; and the directory
  entry with its sharer vector, lock and pointer flags. The steps are loads, stores, evictions,
  deliveries, the handling of a parked request, the memory reply and the loss of the entry's vector to
  another entry of the set. The theorems are about every list of steps from empty caches.
  `UpgradeData` and `StaleUpgrade` ask whether an upgrade granted without data can reach a thread whose
  copy is stale: it can, after a promotion to all-shared of a vector that is not full, and whether any
  run does is decided by the number of threads and `sharer_threshold`. `HomeNode` is the home node's
  code, updating an entry in place. `DegradeWindow` says when a copy is outside the vector.
  `DirectorySet` is the set of entries that share the vectors, `VectorRuns` all of them running
  together, and `MultiBlockAcks` (with `Counting`) a read or a write of an entry that stands for several
  blocks.
* **Page classification** (`PageTable`, `PageProtocol`, `PageHandlers`, `PrivatePages`, `PageCounters`,
  `PageDrift`): the page table, its scan, and the TLB messages that classify pages as private or shared.
  `PageProtocol` is the directory with many pages and arbitrary answers of the TLBs; `PrivatePages` is
  one page with the TLBs of all threads, `PageCounters` says when its counters are right and `PageDrift`
  is a run on which they go wrong.
* **Thermal solver** (`FiniteSums`, `Lup`, `Solve`, `Inverse`, `Rejection`, `RungeKutta`,
  `MatrixProduct`): the dense linear algebra of `esyalpha/RCutil.c` on arrays of reals.
* **Branch prediction** (`LinkedOrder`, `LruHistory`, `Btb`; `Ring`, `ReturnStack`; `Bits`, `SkewHash`,
  `Gskew`): the branch target buffer, the return-address stack, the skewing hashes and the 2Bc-gskew
  predictor of `esyalpha/bpred.c`.
* **Branch outcome queue** (`BranchQueue`): the ring of `esyalpha/branchCorr.c`.
* **Generic cache structures** (`WayList`, `HashIndex`, `SharePattern`, `Address`): the ordered way
  chain, the hash chains, the line-sharing classifier and the address macros.

Code that updates state in place is a class or a method over arrays, proved against a function of the
old state; what the code promises is proved about that function. A protocol is a state machine over
values whose handlers those functions are.

Conventions. `double` is `real`, so rounding is not modelled; a division by zero gives 0, and no
result uses it. A pointer into an array of slots is an index, with -1 for NULL. A panic, a failed
assertion and `fatal` are outcomes, not preconditions. In the coherence model there is one block per
entry (`multi_blk_set_shift` is 0 and L1 and L2 lines are equally long), `numcontexts` equals the
mesh size squared and is at most 64, `vector_num` is positive, channels are first-in first-out per
thread and direction, and a thread has one outstanding request for the block. Whether the data is in
L2, whether the L2 MSHR has room, whether the set has a vector to give and which sharer is asked for
data are arbitrary at each step (in `VectorRuns` the set itself decides about the vector); a
negative acknowledgement is a request that stays parked. In `PrivatePages` classification is on and
messages to a TLB arrive in the order they were sent; those from a TLB may arrive in any order,
since the network orders messages, where it does, by address and an acknowledgement carries the
address of the thread that caused the broadcast.

Where the code does less than its comments or its uses suggest, the model follows the code: `matinv`
does not check the last pivot (`Inverse.Matinv` gives the exact condition), a commit does not check
that the entry was delivered (`BranchQueue.CommitExactly`), the page counters go wrong in two cases
(`PageProtocol.CountersExactly`), one of which needs messages out of order and more than one thread
(`PageCounters.OrderedCountsRight`, `PageDrift.CountersDriftExactly`), a promotion to all-shared can
name a thread that has lost its copy, unless `sharer_threshold` is n - 1 or there are fewer than
three threads (`StaleUpgrade.UpdatesLostExactly`), the return-address stack is restored exactly if
the wrong path left the live slots as they were (`ReturnStack.RecoveryExactly`), the hit flag of a
read of a region is never reset, so a read that is served again can keep the bit of an owner that
has lost all its lines (`MultiBlockAcks.WrongBitExactly`), the decomposition rejects small matrices
that have an inverse (`Rejection.InvertibleRejected`), the skewing hashes are no inverses at width
one (`SkewHash.InversesExactly`), and the assertion against double matches in the branch target
buffer fails for the key that marks a cleared slot (`LruHistory.AssertionFailsExactly`).

## Model

| member | source | states |
|---|---|---|
| CoherenceTheorems.SingleWriter | esyalpha/cache.c:4996-5018 | In every state any run reaches, a thread with a block in E or M, or with such a grant in flight, excludes every other copy and every other grant in flight |
| CoherenceTheorems.SharersComplete | esyalpha/cache.c:4699-4704 | In every reachable state each copy, and each grant in flight, has its bit in the sharer vector; the one exception is a copy whose invalidation is already on the way while a vector is degraded |
| DegradeWindow.OutsideExactly | esyalpha/cache.c:4814-4895 | On every run a copy, or a grant in flight, is outside the vector exactly if the vector is being degraded and the invalidation of that copy is on its way |
| DegradeWindow.OutsideByOptions | esyalpha/cache.c:990-995 | So, by the options alone: some run with this threshold has a copy outside the vector exactly if there are at least three threads and the threshold is at least two |
| CoherenceTheorems.NoPanic | esyalpha/cache.c:5904-5913 | On no run is a panic of the directory or of the L1 side reached: the states the code calls errors are unreachable |
| CoherenceTheorems.AckAccounting | esyalpha/cache.c:8595-8842 | A collection counts exactly the threads that have not answered, each has exactly one message of it outstanding, and the entry stays in transition while the count is positive |
| CoherenceTheorems.GrantSource | esyalpha/cache.c:8649-8684 | A write grant comes into being in two ways only: serving a write that has no other sharer, or the last outstanding acknowledgement of the requester's own collection; the entry is then free |
| CoherenceTheorems.WriteGrantIsLast | esyalpha/cache.c:8641-8688 | When a write is granted nobody owes an answer and nobody but the requester has the block or is being given it |
| CoherenceTheorems.PointerEntries | esyalpha/cache.c:4711-4899 | In every reachable state a stable pointer entry has at most one sharer or stands for all threads |
| CoherenceProof.NextKeeps | esyalpha/cache.c:4612-9035 | Every step of the protocol, from any state meeting the invariant, leads to a state meeting it; the invariant ties L1 lines, messages in both directions, the lock and the entry together |
| CoherenceProof.RunInv | esyalpha/cache.c:4612-9035 | The invariant holds after every list of steps from empty caches |
| CoherenceProof.AckFindsHolder | esyalpha/cache.c:8605-8614 | An acknowledgement that arrives always finds the event that holds the entry, of its own kind, with a positive count |
| CoherenceProof.ServeReadKeeps | esyalpha/cache.c:4612-5323 | A read miss, in each of its cases (retry, own copy, probe of an owner, exclusive grant, shared grant, fetch, asking a sharer), keeps the invariant |
| CoherenceProof.ServeWriteKeeps | esyalpha/cache.c:5812-6158 | A write miss or upgrade, in each of its cases, keeps the invariant |
| CoherenceProof.ArriveReadAckKeeps | esyalpha/cache.c:8383-8593 | The owner's answer to a read probe, hit or miss, keeps the invariant |
| CoherenceProof.ArriveSharerAckKeeps | esyalpha/cache.c:8302-8381 | A sharer's answer, including a failed one that clears its bit, keeps the invariant |
| CoherenceProof.ArriveLastWriteAckKeeps | esyalpha/cache.c:8595-8790 | The last invalidation acknowledgement keeps the invariant, whether it grants or has to fetch |
| CoherenceProof.ArriveBackKeeps | esyalpha/cache.c:7815-7884 | A write back or an inform back, at any point of any transaction, keeps the invariant |
| CoherenceProof.GiveVectorEntry | esyalpha/cache.c:4711-4899 | An entry that gives up its vector never panics under the invariant and ends as a pointer with at most one sharer, as an all-shared entry, or degrading towards one survivor |
| CoherenceProof.SharersAreThreads | esyalpha/cache.c:4784-4793 | A vector with as many bits set as there are threads is the full vector |
| UpgradeData.NoUpdateLost | esyalpha/cache.c:6770-7091 | On every run on which the guard of the promotion of a vector that is not full never holds, every upgrade granted without data goes to a thread whose copy is still current |
| UpgradeData.PromotesExactly | esyalpha/cache.c:4795-4812 | An exchange of vectors makes the vector claim threads it did not have exactly when it finds the entry stable, owning its vector, with at least two sharers, more than the threshold and fewer than all |
| UpgradeData.NeverLost | esyalpha/cache.c:990-995 | With at most two threads, or with the sharer threshold at its largest legal value n - 1, no run grants an upgrade over a stale copy |
| StaleUpgrade.PromotionLosesUpdate | esyalpha/cache.c:4795-4812 | For every number of threads from three on and every threshold up to n - 2 there is a run on which a promotion sets the bit of a thread that has lost its copy, and its upgrade is granted without data |
| StaleUpgrade.UpdatesLostExactly | esyalpha/cache.c:990-995 | So, by the options alone: some run with this threshold loses an update exactly if there are at least three threads and the threshold is at most n - 2 |
| HomeNode.DirectoryEntry.CountSharers | esyalpha/cache.c:3152-3166 | The counting loop returns the number of threads the vector names |
| HomeNode.DirectoryEntry.SurveyOthers | esyalpha/cache.c:3182-3218 | The scans for other sharers distinguish none, exactly one (and name it) and several |
| HomeNode.DirectoryEntry.MissRead | esyalpha/cache.c:4612-5323 | The in-place handler of a read miss turns the entry and the outcome into those of the specification |
| HomeNode.DirectoryEntry.Write | esyalpha/cache.c:5812-6158 | The same for a write miss or upgrade |
| HomeNode.DirectoryEntry.Back | esyalpha/cache.c:7815-7884 | The same for a write back or inform back |
| HomeNode.DirectoryEntry.ReadAck | esyalpha/cache.c:8383-8593 | The same for the acknowledgement of a read probe |
| HomeNode.DirectoryEntry.SharerAck | esyalpha/cache.c:8302-8381 | The same for the answer of an asked sharer |
| HomeNode.DirectoryEntry.WriteAck | esyalpha/cache.c:8595-8790 | The same for the acknowledgement of an invalidation |
| HomeNode.DirectoryEntry.DegradeAck | esyalpha/cache.c:8792-8817 | The same for the acknowledgement of a degradation: stable again only after the last one |
| DirectorySet.EntrySet.DealVectors | esyalpha/cache.c:990-1010 | At start exactly vector_num entries of a set own a vector and nothing else has changed |
| DirectorySet.EntrySet.VectorAvailable | esyalpha/cache.c:3104-3132 | The scan finds a vector exactly when a stable entry owns one; it picks, from the tail, the first such entry with fewer than two sharers, else the first such entry |
| DirectorySet.EntrySet.TakeVector | esyalpha/cache.c:4711-4899 | The exchange keeps the number of vector entries of the set, and without a free vector changes nothing |
| DirectorySet.ExchangeConserves | esyalpha/cache.c:4773-4826 | One entry gains the vector the other loses: the number of vector entries is conserved |
| DirectorySet.GiverEndsAsPointer | esyalpha/cache.c:4760-4895 | What the giver becomes: a pointer with its sharers kept, an all-shared entry whose sharers were only added to, or a degrading entry that invalidates all sharers but the survivor before it is stable |
| DirectorySet.GiveUp | esyalpha/cache.c:4760-4895 | The in-place exchange chooses the case, the survivor (first by thread number) and the targets of the specification |
| DirectorySet.ReadTakesVectorExactly | esyalpha/cache.c:4706-4899 | A read changes who owns a vector exactly when it probes an owner and the entry was a pointer, and then the set had one free |
| DirectorySet.AcksKeepVector | esyalpha/cache.c:8302-8842 | No acknowledgement changes whether an entry owns a vector |
| DirectorySet.WritesKeepVector | esyalpha/cache.c:5812-6158 | No write and no write back does |
| VectorRuns.VectorsConserved | esyalpha/cache.c:4711-4899 | On every run of all entries of a set together, each with its own caches and messages, exactly vector_num entries own a vector, no exchange and nothing else panics, and each entry is as the single-block protocol keeps it |
| VectorRuns.SetKeeps | esyalpha/cache.c:4711-4899 | Each step of one entry, with the exchange it may cause in another, keeps that |
| VectorRuns.StepVector | esyalpha/cache.c:4612-9035 | Of all steps of an entry only a read that probes an owner from a pointer entry changes who owns a vector, and it does so only if the scan found one |
| VectorRuns.GiverVector | esyalpha/cache.c:4760-4895 | An entry from which a vector may be taken gives it up without a panic and ends as a pointer |
| VectorRuns.NeverStuck | esyalpha/cache.c:3104-3132 | Whatever the order of the way list, the scan ends at an entry that may give whenever a read needs one |
| VectorRuns.SingleWriterInSet | esyalpha/cache.c:4996-5018 | In every entry of such a set a writer, or the receiver of an exclusive grant, is alone |
| MultiBlockAcks.AcksAccountedFor | esyalpha/cache.c:8394-8617 | For a read or a write of a region of several blocks, on every run: the count of its event is the probes and answers not yet handled, the extra answers for dirty blocks included; the entry is locked exactly while the count is positive or memory is awaited; the event is granted, put back or sent to memory once, exactly at zero |
| MultiBlockAcks.WriteEndsAlone | esyalpha/cache.c:8619-8712 | When a write of a region ends no other cache has a line of the region, and the vector names the writer alone if it was granted, else nobody |
| MultiBlockAcks.OwnerBitExactly | esyalpha/cache.c:8395-8418 | When a read of a region ends the bit of the owner is kept exactly if the owner had a valid line of the region when the probe reached it or the event came with its hit flag still set from an earlier probe; the flag is left set in just these cases |
| MultiBlockAcks.WrongBitExactly | esyalpha/cache.c:8395-8418 | So some run of an event ends with the bit of an owner that had no line still set, or the other way round, exactly if the event came with the flag set, which nothing resets |
| MultiBlockAcks.FlagOutlivesLine | esyalpha/cache.c:8397-8418 | An input: the owner has only another block of the region and L2 has none; the read goes to memory with its flag set, the owner loses its line, and when the read is served again the bit is kept and the grant is a shared one though the owner has nothing |
| MultiBlockAcks.ReadEndsShared | esyalpha/cache.c:8408-8591 | When a read of a region ends every other cache with a line is in the vector, none has a line in E or M, and an exclusive grant means that no other cache has a line |
| MultiBlockAcks.DirtyDataKept | esyalpha/cache.c:7815-8270 | On every run each write to an exclusive line leaves one more dirty copy of its block in a cache, on its way to the home or received there, and nothing else changes their number: no probe, answer or eviction drops dirty data |
| MultiBlockAcks.ExtrasExactly | esyalpha/cache.c:7978-7994 | The extra answers are one for each dirty block other than the one asked for |
| MultiBlockAcks.NextKeeps | esyalpha/cache.c:7815-8712 | Each step of such a read or write keeps the invariant |
| MultiBlockAcks.InvalidateRegion | esyalpha/cache.c:8017-8270 | The code of a write probe: all blocks of the region are invalidated, the answer says whether the block asked for was valid, and each other dirty block has an answer of its own |
| MultiBlockAcks.ShareRegion | esyalpha/cache.c:7885-8014 | The code of a read probe: all blocks are turned into shared ones, and the answer is marked afterwards if another block was valid |
| PageProtocol.NextKeeps | esyalpha/cache.c:4022-4494 | Every step of the page protocol keeps its invariant, and no page loses its entry or moves down in the order private below shared, read below write |
| PageProtocol.RunKeeps | esyalpha/cache.c:4022-4494 | The same over whole runs |
| PageProtocol.BusyIsALock | esyalpha/cache.c:4190-4223 | In every reachable state an event that holds a page is the only one, its page is busy, an update in flight implies SHARED_READ, and a broadcast waits for exactly its outstanding children |
| PageProtocol.TableIsAMap | esyalpha/cache.c:1323-1349 | In every reachable state the table is a prefix of entries with distinct page numbers, so the early-stopping scan finds a page exactly when it has an entry |
| PageProtocol.PanicsExactly | esyalpha/cache.c:4078-4284 | Handling an event stops the simulation only for a miss on a full table or a write back to an open SHARED_READ page |
| PageProtocol.NextTotal | esyalpha/cache.c:4286-4494 | The four page counters always add up to the number of pages |
| PageProtocol.CountersExactly | esyalpha/cache.c:4225-4284 | Each counter is the number of pages in its state after a step exactly when the step is neither a new page with classification off nor a recovery of an open page that is no longer SHARED_READ |
| PageDrift.CountersDrift | esyalpha/cache.c:4225-4284 | With two threads or more and the messages of a thread out of order, a run, of TLBs that do share the page for reading, after which a counter is -1: the recovery of one thread is served after its acknowledgement of the recovery of another |
| PageDrift.CountersDriftExactly | esyalpha/cache.c:4225-4284 | So some run makes the counters of a page wrong exactly if there are at least two threads |
| PageCounters.OrderedCountsRight | esyalpha/cache.c:4240-4257 | If no acknowledgement of a broadcast overtakes a recovery its thread sent before, every run keeps each counter equal to the number of pages in its state |
| PageCounters.RightExactly | esyalpha/cache.c:4078-4494 | A step of the page protocol makes the counters wrong exactly if it serves a recovery of an open page that is SHARED_WRITE already |
| PageCounters.SharedReadTold | esyalpha/cache.c:3970-4020 | On every run, while a page is SHARED_WRITE a TLB that has it, or is being given it, as SHARED_READ has a recovery note on its way; once the page is open no TLB does |
| PageCounters.SharedNext | esyalpha/cache.c:3835-4494 | Each step keeps this |
| PageTable.ScanIsLookup | esyalpha/cache.c:1323-1349 | On a tidy table the scan stops at the entry of the page, and at no other |
| PageTable.EntryKeepsTidy | esyalpha/cache.c:4299-4324 | Filling the slot where a scan missed keeps the table a prefix with distinct page numbers |
| PageTable.PageTableCheck | esyalpha/cache.c:1323-1349 | The loop computes the scan, and reports a full table exactly when there is no match and no free slot |
| PageHandlers.PageDirectory.TakeMiss | esyalpha/cache.c:4286-4494 | The in-place handler of a TLB miss does what the specification says to table, events and counters |
| PageHandlers.PageDirectory.TakeMissOnPage | esyalpha/cache.c:4334-4490 | The same for a page that has an entry and is open, in each of its states |
| PageHandlers.PageDirectory.TakeSrRecovery | esyalpha/cache.c:4225-4284 | The same for a recovery |
| PageHandlers.PageDirectory.TakeWriteBack | esyalpha/cache.c:4078-4126 | The same for a write back |
| PageHandlers.PageDirectory.TakeUpdateAck | esyalpha/cache.c:4190-4223 | The same for the acknowledgement of an update |
| PageHandlers.PageDirectory.TakeChildAck | esyalpha/cache.c:4154-4186 | The same for one acknowledgement of a broadcast |
| PrivatePages.PrivateIsAlone | esyalpha/cache.c:3835-4020 | On every run of one page and the TLBs of all threads: a page that one TLB holds as private, or is being given as private, no other TLB holds or is being given |
| PrivatePages.NoPanic | esyalpha/cache.c:4078-4284 | On no such run does a refill miss its miss entry, an update meet a keeper that shares already, a write back meet an open SHARED_READ page or a recovery a private one |
| PrivatePages.NextKeeps | esyalpha/cache.c:3835-4494 | Every step, of a TLB or of the directory, keeps the invariant that ties TLB entries, messages, write backs and the page together |
| PrivatePages.UpdateDelivered | esyalpha/cache.c:3891-3968 | The keeper answers an update by its entry, or by its pending write back, so that no write of its is forgotten |
| PrivatePages.RecoveryDelivered | esyalpha/cache.c:3970-4020 | A recovery note, and the mark it leaves on a miss entry, keep the invariant |
| PrivatePages.MissDecides | esyalpha/cache.c:4340-4490 | This model and the page table decide and count a miss on an open page alike |
| Lup.Lupdcmp | esyalpha/RCutil.c:59-90 | It succeeds exactly if at every stage some element of the pivot column, from the diagonal down, is at least DELTA in absolute value; then p is a permutation, the product of the unit lower and the upper factor in the overwritten matrix is the permuted input, every multiplier is at most 1 in absolute value, every pivot but the last at least DELTA |
| Rejection.ZeroColumnIsSingular | esyalpha/RCutil.c:68-77 | A matrix rejected because a stage finds its whole column zero has no right inverse |
| Rejection.RowsDepend | esyalpha/RCutil.c:59-90 | More rows than columns are linearly dependent |
| Rejection.InvertibleRejected | esyalpha/RCutil.c:76-77 | But at every size from two on there are matrices with an inverse that are rejected: a diagonal below DELTA |
| Lup.SwapStage | esyalpha/RCutil.c:78-82 | Exchanging whole rows, multipliers included, together with the permutation keeps the product plus Schur complement equal to the permuted input |
| Lup.EliminateStage | esyalpha/RCutil.c:84-88 | One elimination step moves the pivot row and column from the Schur complement into the product |
| Lup.StageEnd | esyalpha/RCutil.c:59-90 | After n - 1 stages the invariant is the decomposition |
| Lup.FindPivot | esyalpha/RCutil.c:68-75 | The scan returns the largest absolute value of the column from the diagonal down and the first row that has it |
| Solve.Lusolve | esyalpha/RCutil.c:107-128 | With the factors of a matrix and non-zero pivots, x solves the original system |
| Solve.SubstitutionSolves | esyalpha/RCutil.c:107-128 | L y = P b and U x = y together with P A = L U give A x = b |
| Solve.ForwardSubstitution | esyalpha/RCutil.c:113-118 | The forward loop solves L y = P b |
| Solve.BackwardSubstitution | esyalpha/RCutil.c:120-125 | The backward loop solves U x = y when the pivots are non-zero |
| Inverse.Matinv | esyalpha/RCutil.c:324-345 | It succeeds exactly when the decomposition does; then INV is a right inverse of M exactly when the last pivot is non-zero, which the code does not check, and otherwise M has no right inverse at all |
| Inverse.SingularHasNoInverse | esyalpha/RCutil.c:324-345 | A decomposed matrix whose last pivot is zero has no right inverse |
| RungeKutta.Rk4 | esyalpha/RCutil.c:135-171 | The four stages give the Taylor polynomial of degree four, also when the result overwrites the state |
| RungeKutta.WeighedIsTaylor | esyalpha/RCutil.c:166-167 | The weighted sum of the four slopes is that polynomial |
| RungeKutta.SlopesArePolynomials | esyalpha/RCutil.c:145-164 | Each slope is a polynomial in C applied to the residual, with these coefficients |
| RungeKutta.SteadyState | esyalpha/RCutil.c:135-171 | A state with C y = pow is a fixed point |
| RungeKutta.MatVecMult | esyalpha/RCutil.c:309-318 | The product of a matrix and a vector, into a vector other than the operand |
| MatrixProduct.MatMult | esyalpha/RCutil.c:300-310 | The triple loop computes the matrix product, into a matrix other than its operands |
| MatrixProduct.ProductApplies | esyalpha/RCutil.c:300-321 | Multiplying two matrices and then a vector is multiplying the vector by one after the other |
| MatrixProduct.InverseIsProduct | esyalpha/RCutil.c:324-345 | A right inverse is exactly a matrix that multiplies to the identity |
| Btb.Table.constructor | esyalpha/bpred.c:281-297 | Each set starts as one list of its cleared slots |
| Btb.Table.Scan | esyalpha/bpred.c:2250-2281 | The scan finds the match, the head and the tail; the assertions on the links hold, and the one on double matches fails exactly when two ways carry the key |
| Btb.Table.MoveToFront | esyalpha/bpred.c:2289-2303 | Splicing a slot out and in at the head keeps prev and next one doubly linked list over exactly the ways of the set |
| Btb.Table.Update | esyalpha/bpred.c:2240-2397 | An update of a taken branch moves its entry, or the least recent one, to the front, and changes no other set; the table goes on holding what its history leaves in it |
| Btb.Table.Lookup | esyalpha/bpred.c:1391-1420 | The lookup returns the entry the list has for the branch |
| Btb.Table.LookupInHistory | esyalpha/bpred.c:1391-1420 | A lookup finds a branch exactly when fewer than assoc other branches of its set were taken since it last was, and then, if hits were reported correct honestly, with its last target |
| LruHistory.HistoryHolds | esyalpha/bpred.c:2240-2306 | After any history that trips no assertion, entry j of the list is the branch with j others taken since |
| LruHistory.LookupAfter | esyalpha/bpred.c:1391-1420 | The same for the list of one set |
| LruHistory.AssertionFailsExactly | esyalpha/bpred.c:2256-2268 | The assertion on double matches fails exactly on the key 0 of thread 0, not yet entered, while two slots are still cleared |
| LruHistory.NonZeroKeysAreQuiet | esyalpha/bpred.c:2256-2268 | So it never fails on non-zero keys |
| LruHistory.NoDuplicateKeys | esyalpha/bpred.c:2370-2397 | No two entries carry the same key, cleared slots aside |
| LruHistory.StaleExactlyWhenDishonest | esyalpha/bpred.c:2377-2384 | After an update the entry in front has the new target exactly when `correct` was not claimed of a hit with another target |
| LinkedOrder.SpliceLinked | esyalpha/bpred.c:2289-2303 | The pointer assignments of a move to the front keep the links those of the new order |
| ReturnStack.RingRefinesStack | esyalpha/bpred.c:1333-1360 | While the depth stays between zero and the size, the ring predicts what an unbounded stack would |
| ReturnStack.MatchingReturn | esyalpha/bpred.c:1333-1360 | In a well-nested trace of at most size calls deep, a return predicts the address after its matching call, and the top of stack is back where it was |
| ReturnStack.DeepNest | esyalpha/bpred.c:1341-1357 | Deeper nests: exactly which call each return predicts, so it is right exactly when that call has the same address |
| ReturnStack.RecoveryExactly | esyalpha/bpred.c:1452-1462 | After any wrong path recovery restores the live entries exactly if what the path pushed last into each live slot, where it reached one, is what was there |
| ReturnStack.RecoveryRestores | esyalpha/bpred.c:1452-1462 | So it does after any wrong path whose calls land on no live slot |
| ReturnStack.ExcursionAvoids | esyalpha/bpred.c:1452-1462 | A wrong path that neither pops below the saved top nor wraps onto live entries is such a path |
| ReturnStack.PopThenCall | esyalpha/bpred.c:1448-1462 | A wrong path that pops below the saved top and calls restores the top entry exactly when it pushes the same address |
| ReturnStack.Stack.Lookup | esyalpha/bpred.c:1333-1360 | The code: the saved top of stack, the pop of a return and the push of a call, with a stack of size 0 left alone |
| ReturnStack.Stack.Recover | esyalpha/bpred.c:1452-1462 | The code of the recovery |
| SkewHash.Inverses | esyalpha/bpred.c:875-897 | H_func and Hbar_func undo each other at every width of at least two bits |
| SkewHash.InversesExactly | esyalpha/bpred.c:875-897 | And at width one they do not |
| SkewHash.HLinear | esyalpha/bpred.c:875-886 | H_func is linear over exclusive or |
| SkewHash.HbarLinear | esyalpha/bpred.c:888-897 | Hbar_func is linear over exclusive or |
| SkewHash.HShiftsAndMasks | esyalpha/bpred.c:875-897 | Both functions as the shifts and masks of the code |
| SkewHash.HalvesApart | esyalpha/bpred.c:1020-1077 | For a fixed low half f0 and f2 tell all high halves apart, for a fixed high half f1 and f3 all low halves |
| SkewHash.HighHalfFor | esyalpha/bpred.c:1020-1023 | For a fixed low half f0 reaches every index |
| SkewHash.LowHalfFor | esyalpha/bpred.c:1037-1041 | For a fixed high half f1 reaches every index |
| SkewHash.HighHalfForF2 | esyalpha/bpred.c:1055-1059 | For a fixed low half f2 reaches every index |
| SkewHash.LowHalfForF3 | esyalpha/bpred.c:1073-1077 | For a fixed high half f3 reaches every index |
| SkewHash.DoubleCollision | esyalpha/bpred.c:1020-1077 | Colliding in f0 and f1, or in f2 and f3, forces equal exclusive or of the halves |
| SkewHash.DoubleCollisionExactly | esyalpha/bpred.c:1020-1041 | Exactly when two branches collide in both f0 and f1 |
| SkewHash.IndicesInside | esyalpha/bpred.c:1020-1077 | The four indices lie inside their banks before the final mask |
| Gskew.NoAssertionFires | esyalpha/bpred.c:1499-1556 | After any interleaving of lookups, updates and speculative shifts, updating on any earlier lookup trips no assertion, all counters are within 0 to 3, and the four history registers of each thread agree |
| Gskew.AssertsNeverFire | esyalpha/bpred.c:1499-1625 | The assertions depend only on what the lookup recorded, for every outcome and every later value of the counter |
| Gskew.NextGood | esyalpha/bpred.c:1499-1715 | Every event keeps that invariant |
| Gskew.CreatedGood | esyalpha/bpred.c:462-489 | The predictor as created, counters weakly no and weakly yes in turn, meets it |
| Gskew.Predictor.constructor | esyalpha/bpred.c:344-364 | The code that creates the four banks |
| Gskew.LearnsWithinTwo | esyalpha/bpred.c:1481-1715 | Visited any number of times with one outcome and nothing in between, a branch is mispredicted at most twice, whatever the meta counter |
| Gskew.Predictor.Lookup | esyalpha/bpred.c:999-1088 | The lookup reads the four counters the hashes select and predicts by bimodal or majority as the meta counter says |
| Gskew.Predictor.TrainMeta | esyalpha/bpred.c:1507-1523 | The meta counter moves only when the two predictions differ, towards the right one; the code's assertions hold |
| Gskew.Predictor.TrainDirections | esyalpha/bpred.c:1524-1700 | The direction counters: all on a misprediction, the participating right ones otherwise |
| Gskew.Predictor.Update | esyalpha/bpred.c:1481-1715 | The whole update, history registers included |
| BranchQueue.RunRepresents | esyalpha/branchCorr.c:22-126 | On every proper run the ring stands for a log of pushes with two cursors; its counts are distances in it and at most 32 live branches are indirect |
| BranchQueue.CountsInOrder | esyalpha/branchCorr.c:38-75 | 0 <= corrNum <= totalNum <= 512, both being ring distances |
| BranchQueue.PushAppends | esyalpha/branchCorr.c:38-59 | A push appends to the log; it panics exactly when the queue is full |
| BranchQueue.CountNeedsOp | esyalpha/branchCorr.c:38-59 | indBrNum stays the number of live indirect branches exactly when the operation announced and the one stored are both indirect or both not |
| BranchQueue.PopsFollowPushes | esyalpha/branchCorr.c:61-73 | Pops deliver the pushes in order |
| BranchQueue.CommitExactly | esyalpha/branchCorr.c:75-94 | Committing the head keeps the queue exactly when the head has been delivered, which the code does not check |
| BranchQueue.RecoverRewinds | esyalpha/branchCorr.c:117-126 | Recovery to a delivered uncommitted entry, or to the one before the head, puts the cursor right after it |
| BranchQueue.RecoverRedelivers | esyalpha/branchCorr.c:117-126 | After it exactly the later entries are delivered again, in order |
| BranchQueue.RecoverExactly | esyalpha/branchCorr.c:117-126 | To any other index recovery breaks the queue |
| BranchQueue.RecoveryEndsExactly | esyalpha/branchCorr.c:119-126 | The loop ends exactly for an index whose successor has a non-negative remainder |
| BranchQueue.BranchCorr.constructor | esyalpha/branchCorr.c:10-26 | The initial queue is the empty log |
| BranchQueue.BranchCorr.PushBranchPred | esyalpha/branchCorr.c:38-59 | The code of the push, with the caller's store |
| BranchQueue.BranchCorr.PopBranchPred | esyalpha/branchCorr.c:61-73 | The code of the pop |
| BranchQueue.BranchCorr.CommitPrediction | esyalpha/branchCorr.c:75-94 | The code of the commit |
| BranchQueue.BranchCorr.DynConfBOQSize | esyalpha/branchCorr.c:96-113 | The size is recomputed every 512 calls and stays within 10 and 512 |
| BranchQueue.BranchCorr.RecoverPredQueue | esyalpha/branchCorr.c:117-126 | The loop ends with the cursor after the index and counts its steps, for every index from -1 on |
| WayList.Ways.UpdateWayList | esyalpha/cache.c:692-762 | update_way_list moves a block to the front or the back of a permutation of the ways; the assertions in it hold |
| WayList.Ways.Replace | esyalpha/cache.c:10031-10038 | Under least-recently-used replacement the victim was used before every other block, never-used blocks aside |
| WayList.Ways.Hit | esyalpha/cache.c:10242-10245 | A hit moves its block to the front |
| WayList.OrderIsByRecency | esyalpha/cache.c:692-762 | After any history of uses the list is a permutation ordered by last use |
| WayList.VictimIsLeastRecent | esyalpha/cache.c:10031-10038 | So its tail is the least recently used block |
| WayList.Ways.constructor | esyalpha/cache.c:968-984 | Inserting the blocks at the head in turn gives one list over all of them |
| LinkedOrder.SpliceBackLinked | esyalpha/cache.c:742-760 | The pointer assignments of a move to the tail keep the links those of the new order |
| HashIndex.HashedSet.IsCacheHit | esyalpha/cache.c:10388-10397 | The search of one bucket finds a valid block with the tag exactly when the set has one |
| HashIndex.HashedSet.IsCacheHitByScan | esyalpha/cache.c:10399-10408 | The scan of the way list answers the same |
| HashIndex.HashedSet.Refill | esyalpha/cache.c:10056-10137 | Unlinking, retagging and linking leaves every block in exactly the bucket of its tag |
| HashIndex.HashedSet.Unlink | esyalpha/cache.c:647-676 | The walk meets the block (the assertion holds) and takes exactly it out of its bucket |
| HashIndex.HashedSet.Link | esyalpha/cache.c:679-689 | The block enters the bucket of its tag |
| HashIndex.BucketSuffices | esyalpha/cache.c:10388-10408 | A bucket search finds what a search of all blocks would |
| HashIndex.OneBucket | esyalpha/cache.c:647-689 | A block is in the bucket of its tag and in no other |
| SharePattern.ExactSummary | esyalpha/cache.c:1404-1462 | The state of a line is PRIVATE_READ, PRIVATE_WRITE, SHARED_READ or SHARED_WRITE by whether one thread or several accessed it and whether any wrote, whatever the history; its owner is the first thread |
| SharePattern.Classifier.Classify | esyalpha/cache.c:1404-1462 | After every access each counter is the number of lines in its state, the four add up to the lines touched, and the line has the class of its history |
| Address.MakeAddressAdds | esyalpha/cache.c:79-81 | The tag and set parts that the macro joins with a bitwise or do not overlap: the address is their sum |
| Address.RebuildsBase | esyalpha/cache.c:79-81 | Rebuilding an address from tag and set gives its block base, and with its offset the address |
| Address.TakesApart | esyalpha/cache.h:380-381 | Taking a rebuilt address apart gives tag and set back, at any offset |
| Address.RegionRebuilds | esyalpha/cache.c:5426-5427 | The same for regions of several blocks |
| Address.SameRegionExactly | esyalpha/cache.h:383-384 | Two addresses agree on region tag and region set exactly when they lie in one region |
| Address.VisitOthers | esyalpha/cache.c:7963-7967 | The loop, which keeps overwriting its own address, stops at these addresses |
| Address.VisitsEachBlockOnce | esyalpha/cache.c:8158-8162 | With the event's own block, every block of the region is visited exactly once |
| Address.OthersOnce | esyalpha/cache.c:7963-7967 | No address is visited twice |

## Left out

- Btb.Table.LookupInHistory: says nothing of the cleared key (address 0 of thread 0), whose lookup can hit a cleared slot and return target 0.
- PageProtocol.PanicsExactly: the answers and requests of the TLBs are arbitrary there; that the write back which would panic is never sent is PrivatePages.NoPanic. A write back or recovery of a page without an entry, which the code does not check for, counts as a panic.
- MultiBlockAcks.AcksAccountedFor: starts when no grant for a block of the region is in flight and no other event holds the entry; the code orders messages by block address, so a grant of another block of the region could be overtaken by the probe. Clearing of bits by write backs is not modelled, since the code does none for such entries.
- StaleUpgrade.PromotionLosesUpdate: its run leaves the upgrade parked while other requests are served. A parked request is retried every cycle, so this takes a request that was refused because the queue of the directory was full: it goes back to its sender and over the network again (esyalpha/cache.c:3768-3792), which may take as long as the other requests need.
- VectorRuns.VectorsConserved: no entry is replaced by one for another block, as in all of the coherence model; the order of the way list at an exchange is arbitrary.
- PageCounters.OrderedCountsRight: a recovery that is put back in the event queue counts as not yet arrived; the code retries it every cycle, long before an acknowledgement can come.
- PrivatePages.NoPanic: a full page table, which the model of one page cannot show, still panics.
- Gskew.Predictor.Lookup: the index width is a parameter; the code computes it with a floating-point logarithm.
- BranchQueue.RecoveryEndsExactly: the counter the endless loop increments is not given a machine width.
- BranchQueue.BranchCorr.constructor: starts the interval counter at 0, which the initialisation in the code leaves to the allocator.
- Solve.BackwardSubstitution: with a zero pivot nothing is said of x; the C code divides by zero there.
- RungeKutta.MatVecMult: the operand and the result must be different vectors, as they are at the calls; with one vector for both the C code reads what it has overwritten. The same holds of MatrixProduct.MatMult.
- The L1 lines of the coherence model are values inside the state of the protocol, not objects, so aliasing between the L1 caches' own arrays is not captured.
- Recall of directory entries, the multi-block adaptive modes and `vector_num == 0`: they leave the single-entry scope of the safety proof, and the recall retags its victim before the invalidations are acknowledged.
- Requests that bypass the directory for private pages, and the flushing of lines when a page changes class.
- The refill paths that link a block into a hash chain without unlinking it first: the index property is stated for the path that unlinks.
- The network models, event queue, latencies, prefetchers, instruction caches and statistics other than the page and line counters: they decide when, not what.
- Rounding of floating-point numbers, and the routine that builds the thermal conductance matrix.
- The bimodal, two-level and combining predictors, and the code in bpred.c that is compiled out.
- FIFO and random replacement: only the least-recently-used policy has an order to prove.
- Option parsing, program loading, the NoC simulator and the graphical tools.
