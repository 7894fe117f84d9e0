# Verified model of the Zalo gateway's stateful cores

A Dafny model of the parts of the repository whose correctness depends on whole runs
or interleavings, with proofs about every run. `dafny verify dfyconfig.toml` checks it.

| file | models | main results |
|---|---|---|
| `SequenceNat.dfy` | the three-counter sequence NAT, as a class, as a concurrent machine of single atomic accesses, and over runs of whole calls | quiescence restores balance; exactly when wire numbers are distinct under overlaps; translation drifts by the injections |
| `AckRouter.dfy` | the pending table, and NAT and table together | an ACK returns its own packet's origin, at most once |
| `Ratchet.dfy` | the symmetric ratchet with skipped keys, over abstract key derivation and cipher | keys are conserved, none is used twice, delivered messages open, delivery order is irrelevant |
| `HybridLogicalClock.dfy` | the clock, and runs of many nodes with arbitrary wall clocks | causality implies order; what the physical time and the counter of a stamp mean |
| `TokenBucket.dfy` | the limiter over exact arithmetic | admission is exactly the arrival-curve condition; peeks change no decision |
| `QueueWriter.dfy` | the two-tier queue and its worker on a cooperative event loop | one worker, no lost wake-up, conservation and order per tier, realtime latency and liveness |
| `Records.dfy`, `Storage.dfy`, `Staging.dfy`, `Arrival.dfy`, `Effects.dfy` | the message store with its staging partition, shared conversation objects and suspended additions | consistency in every interleaving; what any swap publishes; when the conversation key holds; arrivals converge; what partial records, stubs, marks and pages hold, property by property |
| `Gateway.dfy`, `LiveGateway.dfy`, `LiveTraffic.dfy`, `LiveKeys.dfy` | the queue in front of the store, with whole writes, and as one interleaved machine with live traffic and swaps | what was enqueued on either tier, and what arrived live, ends up as the latest record of each id, which says exactly what its task says; exactly when the conversation key is kept |
| `CdpClient.dfy` | the request multiplexer as an event-driven machine | pending exactly while unsettled; every request settles exactly once for a reason of its own; the client is never stuck; exactly when it sends again after being destroyed |
| `DexieReconcile.dfy` | the client-side reconcile and its fallback | bulk load and individual puts agree exactly when empty ids change nothing; partial progress is forgotten |
| `Text.dfy`, `Stripping.dfy` | trimming, and the stripping of trailing reactions | the loop removes exactly the longest suffix that falls into tokens and white space |
| `Placeholders.dfy`, `Restoration.dfy`, `Normalizer.dfy`, `Scanning.dfy`, `AtomicCleaning.dfy`, `ZaloTables.dfy` | the whole cleaning with URL protection, the source's patterns, and the tables in use | each stage is the global replacement of its pattern; the result is the cleaning with atomic URLs exactly when every step of the restoration is clear, one pattern in URLs aside |
| `Misrestored.dfy` | messages that lose a URL | one message of each kind that these conditions exclude, and one of the pattern set aside, from its text to its result |

How the model is built:

- An object that the source updates in place is a class with the source's fields. Its
  methods are proved against specification functions over a snapshot of those fields, and
  the theorems are about the runs of these functions. A map or list field is reassigned.
- A step is what runs without interruption: one atomic access in the NAT, the code
  between two `await`s in the event-loop components. What a suspended call remembers is
  part of the state. An event that a state does not allow changes nothing.
- Clocks, downloads, outcomes of writes and puts, key derivation and cipher are
  arbitrary parameters of the steps.
- `u32` values wrap around as the release build does; where that breaks a property, the
  exact condition is a theorem (`BalanceSurvivesIffRoom`, `ConservationIffFits`).
- The conversation objects that production and staging have in common after a swap are a
  set of ids of the store; a live message to one of them changes both tables.
- A function that specifies a method is itself tied, by a lemma, to what the source says in
  its own terms: a pattern to the texts it matches (`Scanning`), a record to its properties one
  by one (`Effects`, `Gateway.FinalIsWhatTells`), a rate to its arithmetic.
- The high-water marks are a plain object, with the names it inherits.

Where properties that one might expect fail, the model says so with a theorem, and says
when they hold:

| expectation | fails | holds |
|---|---|---|
| wire numbers are distinct | `OverlapDuplicatesWireNumber`, `OtherOverlapDuplicatesWireNumber` | `WiresAreDistinctIff`, `StartKeepsDistinctIff`; `DisciplinedWiresAreDistinct` |
| keys are fresh across directions | `DirectionsShareKeys` | within one, `NoKeyIsUsedTwice` |
| a message is decrypted with its own key | on replay | `RightKeyIffNotReplayed` |
| a stored message is at or below its mark | `InheritedNameHasNoMark` | `MarkBoundsIff` |
| a swap publishes the staged conversations | `SecondSwapPublishesTouched` | `SwapPublishesWhatWasStaged` |
| every message has its conversation | `SwapCanOrphanMessages`, `SwapDuringDownloadOrphans` | `RunKeepsConversationsIff`, `ConversationKeyIsKept` |
| the order of arrivals does not matter | on ties at the top | `OrdersAgreeIff` |
| a destroyed client is silent | with a fetch of the page URL under way | `DestroyedClientSendsIff` |
| a peek does not show | when the clock steps back | `PeekShowsIff` |
| the two reconcile paths agree | on empty ids | `BothPathsAgreeIff` |
| a URL survives cleaning | `SpecialsAreExpanded`, `TypedPlaceholderTakesUrl`, `HiddenPlaceholderTakesUrl` | `UrlsSurvive`, `GenuineUrlsSurvive`; beyond, `PrefixCopyIsRestored` |

The comment over `commitStagingSwap` promises shadow tables swapped atomically: the swap
is one step here, as in the code, but the tables keep their conversation objects in
common. The comments over the store promise third normal form, and those in the queue's writes a
parent conversation that exists: the sender key is kept in every run; the conversation key
is kept by the queue's writes as long as no swap drops the conversation while one waits
for its download (`ConversationKeyIsKept`).

## Model

| member | source | states |
|---|---|---|
| `SeqNat.SequenceNat.TransformBrowserOutbound` | crates/zalo-proto/src/sequence_nat.rs:26-32 | the three atomic accesses in the source's order leave the registers, and return the wire number, that `Transform` gives; 32-bit wrap-around included |
| `SeqNat.SequenceNat.AllocateInjectedOutbound` | crates/zalo-proto/src/sequence_nat.rs:36-42 | the same for an injected packet and `Allocate`: delta is taken before the browser number is read |
| `SeqNat.SequenceNat.TranslateWireToBrowser` | crates/zalo-proto/src/sequence_nat.rs:46-53 | the wire number minus the current delta, or nothing when delta is larger; no state changes |
| `SeqNat.StepKeepsInv` | crates/zalo-proto/src/sequence_nat.rs:26-42 | one atomic access of any call in flight keeps the invariant: wire <= browser + delta, and while the two differ some call in flight is going to store exactly browser + delta |
| `SeqNat.ExecKeepsInv` | crates/zalo-proto/src/sequence_nat.rs:26-42 | that invariant survives every interleaving of any number of calls, as long as browser + delta stays below 2^32 |
| `SeqNat.QuiescenceRestoresBalance` | crates/zalo-proto/src/sequence_nat.rs:26-42 | from the fresh registers, or any balanced ones: in every reachable state wire <= browser + delta, with equality as soon as no call is in flight |
| `SeqNat.UninterruptedCall` | crates/zalo-proto/src/sequence_nat.rs:26-42 | three accesses with nothing in between are one whole call: the concurrent machine and the class agree |
| `SeqNat.OverlapDuplicatesWireNumber` | crates/zalo-proto/src/sequence_nat.rs:27-28 | a concrete interleaving in which a transform and an allocation both hand out wire number 11: uniqueness is false of overlapping calls |
| `SeqNat.OtherOverlapDuplicatesWireNumber` | crates/zalo-proto/src/sequence_nat.rs:37-39 | the other harmful overlap, concretely: an allocation has taken its delta, and a transform raises the browser number before the allocation reads it |
| `SeqNat.StepKeepsPromises` | crates/zalo-proto/src/sequence_nat.rs:26-42 | while no transform that still has to read delta overlaps an allocation that still has to read the browser number, no access changes what another call will compute, and a new call will compute more than all before it |
| `SeqNat.DisciplinedWiresAreDistinct` | crates/zalo-proto/src/sequence_nat.rs:26-42 | so in every such interleaving, with every transform starting above the highest browser number, all wire numbers computed or returned are pairwise distinct; all other overlaps are free |
| `SeqNat.WiresAreDistinctIff` | crates/zalo-proto/src/sequence_nat.rs:26-42 | exactly, for any number of calls in any interleaving: when all calls have returned, their wire numbers are pairwise distinct if and only if the numbers that they had computed, or were then going to compute, were so after the last call had started |
| `SeqNat.StartKeepsDistinctIff` | crates/zalo-proto/src/sequence_nat.rs:26-42 | exactly, for one more start beside any number of calls: these numbers stay distinct if and only if each of them, moved by what the start changes for a call that has not read it yet, meets neither another nor the new one |
| `SeqNat.PairIsDistinctIffExclusive` | crates/zalo-proto/src/sequence_nat.rs:26-42 | beside one other call that has the newest browser number or delta, a start with a new highest number, or of an allocation, keeps them distinct if and only if it follows the discipline |
| `SeqNat.BalanceSurvivesIffRoom` | crates/zalo-proto/src/sequence_nat.rs:26-42 | a whole call keeps wire = browser + delta if and only if the sum stays below 2^32 |
| `SeqNat.CallIsFreshIff` | crates/zalo-proto/src/sequence_nat.rs:26-42 | a whole call hands out a number above all earlier ones if and only if it is an injection or its browser number is above the highest seen |
| `SeqNat.WiresIncrease` | crates/zalo-proto/src/sequence_nat.rs:26-42 | with ascending browser numbers, the wire numbers of transforms and injections together strictly increase over any run |
| `SeqNat.DeltaCountsInjections` | crates/zalo-proto/src/sequence_nat.rs:37-37 | after any run, delta has grown by exactly the number of injections |
| `SeqNat.TranslateDrifts` | crates/zalo-proto/src/sequence_nat.rs:46-53 | translating a browser packet's wire number back after any later calls is off by exactly the injections made since, and gives nothing once they exceed the browser number |
| `AckRouting.AckRouter.RegisterRequest` | crates/zalo-proto/src/ack_router.rs:30-39 | the table gains exactly this request under the wire number, and nothing else changes |
| `AckRouting.AckRouter.ResolveAck` | crates/zalo-proto/src/ack_router.rs:41-43 | returns the request of the wire number, if any, and removes it and nothing else |
| `AckRouting.AckRouter.CleanupStaleRequests` | crates/zalo-proto/src/ack_router.rs:45-48 | a request is in the table afterwards if and only if it was there, the timeout is positive and now is before its creation plus the timeout; no request changes |
| `AckRouting.StaysBalanced` | crates/zalo-proto/src/sequence_nat.rs:26-42 | in every run of sends, ACKs and cleanups the counters behind the router stay balanced |
| `AckRouting.MarkSeparates` | crates/zalo-proto/src/ack_router.rs:30-43 | the highest wire number separates at any moment the packets sent before from the packets sent after |
| `AckRouting.WireNumbersIncrease` | crates/zalo-proto/src/ack_router.rs:30-39 | two sends of a run never share a wire number, whichever kinds they are; the later one's is larger |
| `AckRouting.WireNumberMeans` | crates/zalo-proto/src/sequence_nat.rs:26-42 | in any orderly run of packets, ACKs and cleanups, a browser packet goes out under its own number plus the packets injected before it, an injected one under the greatest browser number so far plus those and one |
| `AckRouting.TableHoldsExactlyAwaiting` | crates/zalo-proto/src/ack_router.rs:30-48 | at every moment the table holds a packet's request if and only if no ACK for it has come and every cleanup came before its sending plus the timeout, and then it is that packet's own |
| `AckRouting.AckReturnsItsOrigin` | crates/zalo-proto/src/ack_router.rs:41-43 | for any order of ACKs and cleanups, an ACK resolves if and only if that is so, and then to what was sent under this wire number: for a browser packet the browser and its own number, for an injected one the client and its key, with the time of sending |
| `AckRouting.OnlySentPacketsResolve` | crates/zalo-proto/src/ack_router.rs:41-43 | an ACK that resolves answers a packet sent earlier in the run |
| `AckRouting.ResolvedAtMostOnce` | crates/zalo-proto/src/ack_router.rs:41-43 | a second ACK for the same wire number resolves to nothing |
| `Ratchet.RatchetState.Encrypt` | crates/zalo-crypto/src/ratchet.rs:48-63 | uses the message key of the current chain key and advances chain and index also when sealing fails; the receiving half is untouched |
| `Ratchet.RatchetState.Decrypt` | crates/zalo-crypto/src/ratchet.rs:65-91 | the loop and the skipped-key lookup leave the receiver and hand out the key that `Take` gives, whether or not the ciphertext opens; the sending half is untouched |
| `Ratchet.SlotIsReadBack` | crates/zalo-crypto/src/ratchet.rs:66-73 | decimal numerals are read back, so two indices never share a slot of the skipped-key table |
| `Ratchet.StoredIffUnused` | crates/zalo-crypto/src/ratchet.rs:65-80 | a key is in the skipped-key table if and only if its index is below the receive index and the key was never used |
| `Ratchet.SkipToAccounts` | crates/zalo-crypto/src/ratchet.rs:69-75 | skipping ahead stores the correct key of every index passed and moves the receive index to the requested one |
| `Ratchet.TakeConsumesFresh` | crates/zalo-crypto/src/ratchet.rs:65-80 | a decryption at any index hands the cipher the correct key of a chain position that was never used before, and the receive index ends above that position |
| `Ratchet.TakeAccounts` | crates/zalo-crypto/src/ratchet.rs:65-80 | afterwards exactly that position is used and every other position below the receive index still has its correct key stored |
| `Ratchet.StoredPlusUsed` | crates/zalo-crypto/src/ratchet.rs:65-80 | the number of stored keys plus the number of used keys is the receive index |
| `Ratchet.ConservationIffFits` | crates/zalo-crypto/src/ratchet.rs:78-78 | that conservation survives a decryption if and only if the 32-bit receive index does not overflow |
| `Ratchet.RightKeyIffNotReplayed` | crates/zalo-crypto/src/ratchet.rs:66-80 | a decryption uses the key of its own index if and only if that key was not used before; a replay burns the key at the receive index instead |
| `Ratchet.KeysAreConserved` | crates/zalo-crypto/src/ratchet.rs:65-91 | in every run of decryptions, with replays, arbitrary indices and failed authentication, the accounting of stored and used keys holds |
| `Ratchet.StoredPlusDecryptions` | crates/zalo-crypto/src/ratchet.rs:65-91 | in every run, stored keys plus decryptions made is the receive index |
| `Ratchet.EachKeyIsFresh` | crates/zalo-crypto/src/ratchet.rs:65-80 | in every run, the key handed to the cipher is the chain's key of a position that no earlier decryption used |
| `Ratchet.NoKeyIsUsedTwice` | crates/zalo-crypto/src/ratchet.rs:65-80 | no two decryptions of a run consume the same chain position |
| `Ratchet.DirectionsShareKeys` | crates/zalo-crypto/src/ratchet.rs:20-30 | keys are fresh within a direction only: two parties that start from one root seal their n-th messages under the same key |
| `Ratchet.LastUsedIsHighest` | crates/zalo-crypto/src/ratchet.rs:65-80 | the receive index is one above the highest position used |
| `Ratchet.UsedSetDeterminesState` | crates/zalo-crypto/src/ratchet.rs:65-80 | two runs that used the same set of positions leave the receiver in the same state |
| `Ratchet.SenderFollowsChain` | crates/zalo-crypto/src/ratchet.rs:48-53 | after n encryptions the sender is at position n of the chain from the root key |
| `Ratchet.DeliveryUsesItsOwnKeys` | crates/zalo-crypto/src/ratchet.rs:65-80 | a duplicate-free delivery in any order and with any losses uses exactly the delivered indices, each with its own key |
| `Ratchet.DeliveredMessageOpens` | crates/zalo-crypto/src/ratchet.rs:48-91 | every delivered message opens to the plaintext that was sealed under its index, whatever was lost or reordered before |
| `Ratchet.DeliveryOrderIsIrrelevant` | crates/zalo-crypto/src/ratchet.rs:65-80 | the receiver's final state depends only on the set of delivered indices |
| `Hlc.HybridLogicalClock.Now` | services/gateway-hub/src/hlc.ts:15-28 | the returned stamp is the new content of the clock, as `Ticked` gives it for any reading |
| `Hlc.HybridLogicalClock.Update` | services/gateway-hub/src/hlc.ts:30-49 | the four cases of merging a received stamp, as `Merged` gives them |
| `Hlc.CompareIsTotalOrder` | services/gateway-hub/src/hlc.ts:51-56 | `compare` is a strict lexicographic total order: antisymmetric, transitive, and zero only for equal stamps |
| `Hlc.DirectPredecessorIsSmaller` | services/gateway-hub/src/hlc.ts:15-49 | the stamp of a direct causal predecessor compares below |
| `Hlc.CausalityIsOrdered` | services/gateway-hub/src/hlc.ts:15-56 | over any run of any nodes, happening before implies comparing below |
| `Hlc.PastHasChain` | services/gateway-hub/src/hlc.ts:15-49 | every event of the causal past is reached by a chain of direct precedence |
| `Hlc.ChainIsInPast` | services/gateway-hub/src/hlc.ts:15-49 | and such a chain leads only to events of the causal past |
| `Hlc.NodeStampsIncrease` | services/gateway-hub/src/hlc.ts:15-49 | the stamps of one node strictly increase, also when its wall clock stands still or steps back |
| `Hlc.TimeIsMaximalReading` | services/gateway-hub/src/hlc.ts:10-49 | the physical time of a stamp is the maximum of all wall-clock readings in its causal past, and some event of that past read it |
| `Hlc.CounterHasWitnessChain` | services/gateway-hub/src/hlc.ts:10-49 | a counter of k is witnessed by a causal chain of k + 1 events, constructors included, that share the physical time and count 0, 1, ..., k |
| `Hlc.CounterIsNatural` | services/gateway-hub/src/hlc.ts:10-49 | no counter is ever negative |
| `Bucket.TokenBucketLimiter.TryConsume` | services/gateway-hub/src/token_bucket.ts:23-30 | refills, then takes the cost if and only if the refilled bucket holds it |
| `Bucket.TokenBucketLimiter.GetAvailableTokens` | services/gateway-hub/src/token_bucket.ts:32-35 | the floor of the refilled tokens; the refill stays |
| `Bucket.TokensAreTightestCurve` | services/gateway-hub/src/token_bucket.ts:14-30 | what the bucket holds, projected to any time, is the tightest of the arrival curves from creation and from every refill so far |
| `Bucket.AdmitsIffWithinEveryCurve` | services/gateway-hub/src/token_bucket.ts:14-30 | a cost is admitted if and only if it is at most the capacity and, from creation and from every refill, the cost admitted since plus this cost is at most capacity + rate * elapsed; with no assumption on clock, rate or costs |
| `Bucket.NeverOverRate` | services/gateway-hub/src/token_bucket.ts:14-30 | with a clock that does not step back, no stretch of a run is admitted more than capacity + rate * its duration |
| `Bucket.PeekShowsIff` | services/gateway-hub/src/token_bucket.ts:32-35 | a peek is visible at a later refill if and only if it cut tokens off at the capacity and the clock has since stepped back |
| `Bucket.PeeksDoNotShow` | services/gateway-hub/src/token_bucket.ts:14-35 | with a clock that does not step back, a run with peeks and the run without them refill to the same tokens |
| `Bucket.PeeksNeverChangeDecisions` | services/gateway-hub/src/token_bucket.ts:14-35 | so peeks never change a later decision |
| `QueueWriter.SingleWriterQueueEngine.EnqueueRealtime` | services/gateway-hub/src/queue_writer.ts:56-60 | appends to the realtime tier and wakes a worker if none is alive |
| `QueueWriter.SingleWriterQueueEngine.EnqueueBulkBatch` | services/gateway-hub/src/queue_writer.ts:62-68 | appends all tasks in order to the bulk tier, then wakes a worker if none is alive |
| `QueueWriter.SingleWriterQueueEngine.RunScheduled` | services/gateway-hub/src/queue_writer.ts:113-129 | a scheduled call runs up to its first write: a realtime task if there is one, else a micro-batch of at most 500 |
| `QueueWriter.SingleWriterQueueEngine.WriteEnds` | services/gateway-hub/src/queue_writer.ts:115-143 | what follows each write, with success or an exception: the next drained task, the bulk task after its urgent one, the next of the batch, or the `finally` block |
| `QueueWriter.SingleWriterQueueEngine.LeaveBatch` | services/gateway-hub/src/queue_writer.ts:136-143 | reschedules while anything is queued, otherwise clears the flag and ends |
| `QueueWriter.AlwaysOneWriter` | services/gateway-hub/src/queue_writer.ts:106-144 | in every interleaving, failing writes included, at most one worker is scheduled or running, exactly when `isProcessing` is set, and a non-empty queue always has one |
| `QueueWriter.TickChangesNothing` | services/gateway-hub/src/queue_writer.ts:233-239 | the interval of 100 ms never has an effect in any reachable state |
| `QueueWriter.BatchIsTaken` | services/gateway-hub/src/queue_writer.ts:120-123 | with nothing urgent, a worker takes all bulk tasks, or the first 500, in order, and leaves the rest |
| `QueueWriter.BatchesStaySmall` | services/gateway-hub/src/queue_writer.ts:120-123 | in every run no worker holds more than 500 bulk tasks |
| `QueueWriter.StepConserves` | services/gateway-hub/src/queue_writer.ts:113-144 | one step neither loses, duplicates nor reorders a task of either tier |
| `QueueWriter.TierIsConserved` | services/gateway-hub/src/queue_writer.ts:56-144 | for each tier and any run, finished ++ in flight ++ rest of the batch ++ queued is the enqueue order; failed and abandoned tasks are recorded as such |
| `QueueWriter.WithoutFailuresAllIsWritten` | services/gateway-hub/src/queue_writer.ts:134-143 | a task is lost only by a failing write |
| `QueueWriter.AtRestAllIsWritten` | services/gateway-hub/src/queue_writer.ts:113-144 | at rest after writes that succeeded, each tier was written completely and in the order it was enqueued |
| `QueueWriter.WorkerComesToRest` | services/gateway-hub/src/queue_writer.ts:113-144 | with nothing new enqueued the worker empties both tiers and stops, within two segments a task and one more, however its writes end |
| `QueueWriter.StartsAreFifo` | services/gateway-hub/src/queue_writer.ts:115-128 | realtime writes start in the order they were enqueued |
| `QueueWriter.WaitsForFewBulkWrites` | services/gateway-hub/src/queue_writer.ts:115-138 | while a realtime task behind k others has not started, at most k + 1 bulk writes end, and none if the worker was not in a batch |
| `QueueWriter.RealtimeLatency` | services/gateway-hub/src/queue_writer.ts:115-138 | a realtime task behind k others starts its write after at most k + 1 bulk writes end, wherever in a batch it arrives |
| `QueueWriter.WaitsForFewSegments` | services/gateway-hub/src/queue_writer.ts:113-143 | while a realtime task behind k others waits, the worker runs at most 3 * k + 2 segments |
| `QueueWriter.RealtimeStarts` | services/gateway-hub/src/queue_writer.ts:113-143 | liveness: a realtime task behind k others has started after at most 3 * (k + 1) segments of the worker, whatever is enqueued meanwhile and however writes end |
| `Records.DeduplicateMessagesById` | services/gateway-hub/src/storage.ts:213-226 | the loop over the insertion-ordered map, then the sort, computes `Deduplicated` |
| `Records.MergeByIdLooksUp` | services/gateway-hub/src/storage.ts:213-224 | each id of the list gets one record: the in-order merge of all its records |
| `Records.SortIsStable` | services/gateway-hub/src/storage.ts:225-225 | the sort by timestamp gives a sorted permutation that keeps the order of equal timestamps |
| `Records.DeduplicatedMeans` | services/gateway-hub/src/storage.ts:213-226 | the result has exactly the non-empty ids of the list, once each, as their in-order merges, sorted by time |
| `Records.DeduplicatedCombines` | services/gateway-hub/src/storage.ts:213-226 | property by property: the record of an id has a property if and only if some record of the id has it, with the value of the last that has it; identity, routing, sender and time are those of the last record |
| `Records.TiesKeepFirstOrder` | services/gateway-hub/src/storage.ts:213-226 | records of one time come in the order in which their ids first occurred in the list |
| `Records.DeduplicationIsIdempotent` | services/gateway-hub/src/storage.ts:213-226 | deduplicating a deduplicated list changes nothing |
| `Records.PermutationLooksUpAlike` | services/gateway-hub/src/storage.ts:379-388 | reordering records with distinct ids, as the sorting getter does in place, changes no lookup |
| `Storage.ServerStorageEngine.AddMessage` | services/gateway-hub/src/storage.ts:315-377 | either suspends at the media download with its sender already fixed, or stores the record at once |
| `Storage.ServerStorageEngine.MediaArrives` | services/gateway-hub/src/storage.ts:327-377 | a suspended call resumes with the downloaded URL and stores its record into whatever the tables are by then |
| `Storage.ServerStorageEngine.StoreMessage` | services/gateway-hub/src/storage.ts:331-373 | message table, high-water mark, conversation and contact all change as `Stored` says |
| `Storage.ServerStorageEngine.TouchConversation` | services/gateway-hub/src/storage.ts:355-362 | the conversation object is updated in place: in staging as well, if both tables hold the same object |
| `Storage.ServerStorageEngine.RaiseMark` | services/gateway-hub/src/storage.ts:349-352 | the mark rises to a newer timestamp; an id that the marks object inherits as a property name is no number and is never set |
| `Storage.ServerStorageEngine.GetHighWaterMark` | services/gateway-hub/src/storage.ts:460-462 | the stored number, 0 if there is none, and no number at all for an inherited name |
| `Storage.ServerStorageEngine.PutMessage` | services/gateway-hub/src/storage.ts:338-346 | an older record never overwrites a newer one; an equal or newer one is spread over it in place; an unknown id is appended |
| `Storage.ServerStorageEngine.AddStagingMessages` | services/gateway-hub/src/storage.ts:146-156 | appends to staging the records with an id, senders filled in, in order |
| `Storage.ServerStorageEngine.SynthesizeMissingContacts` | services/gateway-hub/src/storage.ts:161-180 | every staged sender without a contact gets one stub, from its first staged record |
| `Storage.ServerStorageEngine.CommitStagingSwap` | services/gateway-hub/src/storage.ts:185-207 | production becomes the staged conversations, as the same objects, the completed staged contacts and the deduplicated staged messages; the marks are raised, not replaced |
| `Storage.ServerStorageEngine.RaiseHighWaterMarks` | services/gateway-hub/src/storage.ts:194-199 | the loop raises each conversation's mark to its latest published message |
| `Storage.ServerStorageEngine.GetMessages` | services/gateway-hub/src/storage.ts:379-388 | the last messages by time; the table itself is left sorted |
| `Storage.ServerStorageEngine.UpsertConversation` | services/gateway-hub/src/storage.ts:410-420 | the new properties are spread over the existing ones; an empty id changes nothing |
| `Storage.StoredKeepsConsistency` | services/gateway-hub/src/storage.ts:331-373 | storing a record keeps ids distinct, messages at or below their marks, where these are numbers, and senders known |
| `Storage.RaisingReachesAll` | services/gateway-hub/src/storage.ts:194-199 | after the loop no published message is above its conversation's mark, where that is a number |
| `Storage.ResolvingReachesAll` | services/gateway-hub/src/storage.ts:161-180 | after synthesis every staged sender has a contact |
| `Storage.ResolvingOnlyAddsStubs` | services/gateway-hub/src/storage.ts:161-180 | and synthesis changes no staged contact and adds stubs for staged senders only |
| `Storage.SwapIsConsistent` | services/gateway-hub/src/storage.ts:185-207 | a swap produces a consistent store from any store, consistent or not |
| `Storage.StepKeepsConsistency` | services/gateway-hub/src/storage.ts:117-452 | every operation, and each half of a suspended one, keeps the store consistent |
| `Storage.AlwaysConsistent` | services/gateway-hub/src/storage.ts:161-377 | in every interleaving from a consistent store: ids pairwise distinct, no message above its conversation's high-water mark, unless that is an inherited name, every non-empty sender known |
| `Storage.MarksNeverDecrease` | services/gateway-hub/src/storage.ts:194-199 | no high-water mark ever decreases, not even when a swap drops the message it came from; and what is no number never becomes one |
| `Storage.MarkBoundsIff` | services/gateway-hub/src/storage.ts:349-352 | in every run, a stored message is at or below its conversation's number if and only if its timestamp is not positive or its conversation id is not an inherited name without a number of its own |
| `Storage.InheritedNameHasNoMark` | services/gateway-hub/src/storage.ts:80-80 | a live message of a conversation named constructor is stored, and no mark is set for it |
| `Effects.UpsertCombines` | services/gateway-hub/src/storage.ts:338-346 | a live record of a known id and not older leaves every property that either has, its own first; an older one leaves nothing |
| `Effects.UpsertKeepsPlaces` | services/gateway-hub/src/storage.ts:338-346 | every record keeps its place, also the replaced one; a new id goes to the end |
| `Effects.TableCombinesAccepted` | services/gateway-hub/src/storage.ts:315-377 | from any consistent store and in every run without a further swap, for records with any properties: the table says of each id, property by property, what all its records say together that were not older than the ones before them |
| `Effects.SwapCombines` | services/gateway-hub/src/storage.ts:185-226 | a swap publishes of each id, property by property, what its staged records say together, the last that has a property deciding |
| `Effects.StagedFormMeans` | services/gateway-hub/src/storage.ts:146-156 | staging takes the records with an id in order, unchanged but for a missing sender, which becomes ME or the conversation |
| `Effects.InConversationMeans` | services/gateway-hub/src/storage.ts:382-383 | the messages of a conversation are those that name it, in order |
| `Effects.PageIsLatest` | services/gateway-hub/src/storage.ts:379-388 | a page has the latest records, as many as asked for or all, sorted by time with equal times in order; nothing left out is later |
| `Effects.MarkIsGreatestSeen` | services/gateway-hub/src/storage.ts:194-199 | in every run, swaps included, a mark is exactly the greatest of what it was and of the timestamps of the conversation's records that arrived or were published |
| `Effects.StoredTouchesConversation` | services/gateway-hub/src/storage.ts:355-362 | the conversation of a stored record gets its text, or its type in brackets, as last message and the later of the two times; no other conversation changes, and staging only where it shares the object |
| `Effects.StoredIntroducesSender` | services/gateway-hub/src/storage.ts:365-373 | an unknown sender gets a stub with the name and picture that the record gives, or a name made of the last four characters of its id; no contact changes |
| `Effects.SynthesisUsesFirstRecord` | services/gateway-hub/src/storage.ts:161-180 | after a swap, the stub of a staged sender has the name and picture of its first staged record; without a name, ME is called Tôi and others after the last four characters of their id |
| `Effects.PutContactsMeans` | services/gateway-hub/src/storage.ts:430-440 | contacts are saved in order, the later of one id replacing the earlier; an empty id is skipped |
| `Effects.UpsertedConversationMeans` | services/gateway-hub/src/storage.ts:410-420 | an upserted conversation has its own properties and keeps the others it had; nothing else changes |
| `Staging.StagingIsInvisible` | services/gateway-hub/src/storage.ts:117-180 | no sequence of staging calls changes what any production getter reads |
| `Staging.SessionBeginsEmpty` | services/gateway-hub/src/storage.ts:117-122 | a new session starts with nothing staged and leaves production alone |
| `Staging.OpenSinceSwapIff` | services/gateway-hub/src/storage.ts:117-206 | in every run the store is open to readers if and only if the last of session starts, integrity checks and swaps was a swap, or there was none and it was open before |
| `Staging.MessagesAccumulate` | services/gateway-hub/src/storage.ts:146-156 | until the next session, staging holds everything staged so far, in order, whatever else happens meanwhile |
| `Staging.SharingIsConsistent` | services/gateway-hub/src/storage.ts:189-189 | in every run, an id that production and staging share has one and the same conversation in both |
| `Staging.StagedIsLastTouched` | services/gateway-hub/src/storage.ts:124-133 | at every moment of a session each staged conversation is the one last staged, as the live records that came while it was shared have left it |
| `Staging.SwapPublishesWhatWasStaged` | services/gateway-hub/src/storage.ts:185-226 | any swap of a session, with any traffic and other swaps before it, publishes exactly the staged ids, each the in-order merge of its staged records, sorted by time, every sender known; and exactly the staged conversations, each as staged if and only if the last live record that came while it was shared left its text and none was newer |
| `Staging.FirstSwapPublishesAsStaged` | services/gateway-hub/src/storage.ts:185-191 | the first swap of a session publishes every conversation as it was last staged |
| `Staging.SecondSwapPublishesTouched` | services/gateway-hub/src/storage.ts:355-361 | a swap, a live message and another swap publish what the message made of its conversation |
| `Staging.SwapContacts` | services/gateway-hub/src/storage.ts:161-190 | after a swap the contacts are the staged ones unchanged plus stubs for staged senders |
| `Staging.SwapKeepsConversationsIff` | services/gateway-hub/src/storage.ts:185-191 | a swap publishes no message without its conversation if and only if the last staged record of every non-empty id names a staged conversation |
| `Staging.StepKeepsConversationsIff` | services/gateway-hub/src/storage.ts:117-452 | any call, or half of a suspended one, keeps the conversation key if and only if it is a swap as above, or what it stores is housed |
| `Staging.RunKeepsConversationsIff` | services/gateway-hub/src/storage.ts:117-452 | over any run, swaps included, every message has its conversation at every moment if and only if every step is of that kind |
| `Staging.StoringKeepsConversationsIff` | services/gateway-hub/src/storage.ts:338-362 | a live record leaves no message without its conversation if and only if its conversation exists, or a newer record of its id keeps it out |
| `Staging.SwapCanOrphanMessages` | services/gateway-hub/src/storage.ts:146-191 | a session of two calls that orphans a message |
| `Arrival.LatestIsGreatest` | services/gateway-hub/src/storage.ts:338-346 | the latest record of an id is one of the records and has their greatest timestamp |
| `Arrival.UpsertLooksUp` | services/gateway-hub/src/storage.ts:338-346 | after an arrival every id looks up as before, except the arriving one, which keeps the newer of the two |
| `Arrival.TableHoldsLatest` | services/gateway-hub/src/storage.ts:315-377 | from any consistent store and in every run without a further swap, the table holds for each id the latest of what it held and what arrived |
| `Arrival.LatestIgnoresOrder` | services/gateway-hub/src/storage.ts:338-346 | without ties at the top the latest records depend only on what was there and which records arrived |
| `Arrival.ArrivalOrderIsIrrelevant` | services/gateway-hub/src/storage.ts:338-346 | two runs from one store with the same arrivals in any order leave the same id-to-record map |
| `Arrival.OrdersAgreeIff` | services/gateway-hub/src/storage.ts:338-346 | all orders of the same fully populated arrivals leave the same id-to-record map if and only if no two different ones of an id share the greatest timestamp that the id has in the table and among them |
| `Gateway.BuiltIsPopulated` | services/gateway-hub/src/queue_writer.ts:199-215 | the record of a write carries every optional property, possibly undefined, and a non-empty sender |
| `Gateway.FinalIsWhatTells` | services/gateway-hub/src/queue_writer.ts:146-215 | the record that a write stores is the only one that says what its task says: the mapped or own id; conversation or general; sender, ME or conversation; direction and time; each optional property the task's own or undefined, status DELIVERED and type TEXT or IMAGE by default; media downloaded unless already the gateway's; and nothing else |
| `Gateway.WriteStoresTask` | services/gateway-hub/src/queue_writer.ts:146-217 | after a write the table has this record under its id if the id was new, what it and the known one say together if the known one was not newer, and otherwise the known one; no other id changes |
| `Gateway.StubConversationMeans` | services/gateway-hub/src/queue_writer.ts:155-168 | an unknown conversation gets a stub with the task's text, or its type in brackets, and its time, or now if it has none; no other conversation changes |
| `Gateway.WriteIsStoreCalls` | services/gateway-hub/src/queue_writer.ts:146-217 | one write of the worker is the store's own calls: the missing stubs, then `addMessage` |
| `Gateway.WriteKeepsForeignKeys` | services/gateway-hub/src/queue_writer.ts:155-217 | a write with no other call between its start and its end keeps both foreign keys: conversation and sender of every message exist |
| `Gateway.WritesConverge` | services/gateway-hub/src/queue_writer.ts:146-217 | from any consistent store with both foreign keys, after any such writes the table holds the latest record of each id, and both foreign keys hold |
| `Gateway.EnqueuedBecomesLatest` | services/gateway-hub/src/queue_writer.ts:113-217 | end to end without other calls: at rest, the table holds for each id the latest of what it held and everything enqueued on both tiers, however these were interleaved |
| `LiveGateway.BeginBrings` | services/gateway-hub/src/queue_writer.ts:146-217 | the store calls at the start of a write bring its record at once, or suspend it at its download |
| `LiveGateway.UndisturbedWriteIsWhole` | services/gateway-hub/src/queue_writer.ts:146-217 | the store calls that the combined machine makes for a write, with nothing in between, are the whole write |
| `LiveGateway.QueueMoveBrings` | services/gateway-hub/src/queue_writer.ts:113-144 | what a move of the queue brings to the store is what it writes, in order, accounting for the write in flight |
| `LiveGateway.LiveMoveStaysPlaced` | services/gateway-hub/src/storage.ts:327-329 | no other call to the store completes, moves or loses the addition that the worker waits for |
| `LiveGateway.WorkerBringsWritten` | services/gateway-hub/src/queue_writer.ts:113-217 | over any run, what the worker brings to the store is what the queue writes, in the same order |
| `LiveGateway.HistoryArrivals` | services/gateway-hub/src/storage.ts:315-377 | the arrivals of a combined run are those of the worker and those of the others |
| `LiveTraffic.WrittenIsOwed` | services/gateway-hub/src/queue_writer.ts:113-144 | from any moment on, also with a write in flight, what a run writes until it rests is what was owed then and what is enqueued |
| `LiveTraffic.LiveTrafficConverges` | services/gateway-hub/src/queue_writer.ts:113-217 | from any moment on, also with a write in flight, and in every interleaving of the queue with live calls but swaps, also while a write waits for its download: at rest, the table holds for each id the latest of what it held, everything that was or became enqueued, and everything that arrived live |
| `LiveTraffic.AtRestOnlyEnqueuedIsOwed` | services/gateway-hub/src/queue_writer.ts:113-144 | from a queue at rest, what is owed is what is enqueued |
| `LiveTraffic.RunStaysSound` | services/gateway-hub/src/queue_writer.ts:113-217 | any run, with swaps and failing writes, leaves a consistent store and a system from which the rest can be followed |
| `LiveTraffic.TrafficConvergesSinceSwap` | services/gateway-hub/src/queue_writer.ts:113-217 | in a run with any swaps, the same holds from the last of them on |
| `LiveKeys.BeginKeeps` | services/gateway-hub/src/queue_writer.ts:155-176 | the start of a write keeps the conversation key, and the conversation of its record exists |
| `LiveKeys.EndKeepsIff` | services/gateway-hub/src/storage.ts:327-346 | the end of a write that waited for its download keeps the conversation key if and only if its conversation is still there, or a newer record keeps its message out |
| `LiveKeys.QueueMoveKeeps` | services/gateway-hub/src/queue_writer.ts:113-217 | the queue itself never breaks the conversation key, whatever it does and however its writes end |
| `LiveKeys.LiveMoveKeepsIff` | services/gateway-hub/src/storage.ts:185-191 | another call keeps the key, and the conversation of the write in flight, if and only if it orphans no message, and, if it is a swap, the staged conversations contain that of the write |
| `LiveKeys.ConversationKeyIsKept` | services/gateway-hub/src/queue_writer.ts:113-217 | in every interleaving, with swaps, downloads in flight and failing writes, every message has its conversation at every moment, and so will the one in flight, if and only if all other calls are of that kind |
| `LiveKeys.SwapDuringDownloadOrphans` | services/gateway-hub/src/queue_writer.ts:155-217 | a swap during the download of a write orphans its message |
| `Cdp.CdpSessionClient.Send` | services/gateway-hub/src/cdp_client.ts:215-244 | issues a request on an open connection, otherwise starts to connect and waits |
| `Cdp.CdpSessionClient.ResumeSend` | services/gateway-hub/src/cdp_client.ts:216-244 | after the wait it issues the request only if a connection is open; otherwise no request exists |
| `Cdp.CdpSessionClient.OnMessage` | services/gateway-hub/src/cdp_client.ts:132-148 | only a pending id is removed, its timer cleared and its promise settled; anything else changes nothing |
| `Cdp.CdpSessionClient.OnTimeout` | services/gateway-hub/src/cdp_client.ts:228-233 | a pending request is removed and rejected |
| `Cdp.CdpSessionClient.OnWriteError` | services/gateway-hub/src/cdp_client.ts:236-242 | removes the request whether or not it is still pending; a settled promise keeps its settlement |
| `Cdp.CdpSessionClient.OnClose` | services/gateway-hub/src/cdp_client.ts:176-183 | also a stale socket's close forgets the current one, rejects everything pending and schedules a reconnect |
| `Cdp.CdpSessionClient.OnError` | services/gateway-hub/src/cdp_client.ts:185-189 | an error event only ends the connecting state; requests and sockets stay |
| `Cdp.CdpSessionClient.RejectAllPending` | services/gateway-hub/src/cdp_client.ts:204-210 | the loop settles exactly the pending promises that were unsettled and clears their timers |
| `Cdp.CdpSessionClient.Destroy` | services/gateway-hub/src/cdp_client.ts:273-282 | rejects everything pending and closes the current socket; `isDestroyed` stays set |
| `Cdp.StepKeepsInv` | services/gateway-hub/src/cdp_client.ts:132-244 | every event keeps: issued ids are those below seqId; an issued id is pending, with its timer running, exactly as long as its promise is unsettled |
| `Cdp.PendingIffUnsettled` | services/gateway-hub/src/cdp_client.ts:132-244 | so in every interleaving an id below seqId is pending if and only if its promise is unsettled |
| `Cdp.NothingPendingAfterTeardown` | services/gateway-hub/src/cdp_client.ts:176-210 | after a close or `destroy` nothing is pending, no timer runs, and every promise ever issued is settled |
| `Cdp.StepMakesProgress` | services/gateway-hub/src/cdp_client.ts:132-244 | one event takes a request only from nothing to unsettled under the number seqId, or from unsettled to settled for a reason of its own |
| `Cdp.SettlementIsFinal` | services/gateway-hub/src/cdp_client.ts:132-244 | a settlement never changes |
| `Cdp.SettlesExactlyOnce` | services/gateway-hub/src/cdp_client.ts:132-244 | a settled request was settled by exactly one event: its own response, timer or write error, or a teardown |
| `Cdp.IdsAreNeverReused` | services/gateway-hub/src/cdp_client.ts:224-224 | an issued id is never issued again |
| `Cdp.ResponseReachesItsRequest` | services/gateway-hub/src/cdp_client.ts:137-148 | a response to a pending request settles that request with it and no other |
| `Cdp.NeverStuck` | services/gateway-hub/src/cdp_client.ts:95-202 | in every interleaving, once the client has tried to connect and until it is destroyed, it has a socket that has not closed, a fetch of the page URL under way, or the reconnect timer running |
| `Cdp.FetchesAreBounded` | services/gateway-hub/src/cdp_client.ts:98-107 | in every interleaving, at most one fetch of the page URL is under way, and one more for each socket event that ended the connecting state meanwhile |
| `Cdp.ConnectRetries` | services/gateway-hub/src/cdp_client.ts:95-202 | behind a failed fetch, or the opening, error or close of a socket, the next `connect` starts a fetch if and only if the client is neither connected nor destroyed |
| `Cdp.CloseDisconnects` | services/gateway-hub/src/cdp_client.ts:176-183 | after the close event of any socket, current or not, no request is issued until a new socket is made |
| `Cdp.DestroyedClientSendsIff` | services/gateway-hub/src/cdp_client.ts:94-110 | after `destroy` some continuation issues a request again if and only if a fetch of the page URL was under way: nothing checks the flag behind that wait |
| `Dexie.DeduplicateById` | apps/web-client/src/lib/dexie_db.ts:64-73 | the loop over the insertion-ordered map computes `Deduplicated` |
| `Dexie.DeduplicatedLastOf` | apps/web-client/src/lib/dexie_db.ts:64-73 | deduplication keeps the last row of each non-empty key and nothing of the empty one |
| `Dexie.KeptInFirstOrder` | apps/web-client/src/lib/dexie_db.ts:64-73 | the rows kept come in the order in which their keys first occurred |
| `Dexie.PutAllIsLastWins` | apps/web-client/src/lib/dexie_db.ts:131-152 | after individual puts each key has its last row, every other key what it had before |
| `Dexie.BulkEqualsPutsIffKeyed` | apps/web-client/src/lib/dexie_db.ts:101-107 | a bulk put of the deduplicated rows equals the individual puts if and only if no row has an empty key, or the last that has is in the table already; for a table without an empty key, if and only if no row has one |
| `Dexie.PutsForgetPartialProgress` | apps/web-client/src/lib/dexie_db.ts:129-152 | individual puts give the same table from any table that differs only in keys they overwrite |
| `Dexie.FallbackForgetsBulk` | apps/web-client/src/lib/dexie_db.ts:95-153 | after any partial bulk put the fallback reaches the table of the individual puts alone |
| `Dexie.FallbackReachesPuts` | apps/web-client/src/lib/dexie_db.ts:129-152 | when all its puts succeed, the fallback reaches the table of the individual puts alone |
| `Dexie.FallbackKeepsStored` | apps/web-client/src/lib/dexie_db.ts:131-152 | a key whose last row is stored ends up with that row, whatever failed before, in bulk or one by one |
| `Dexie.EmptyListsCannotFail` | apps/web-client/src/lib/dexie_db.ts:101-127 | a list without rows to put cannot make the bulk path fail |
| `Dexie.ZaloLocalDatabase.ReconcileFullState` | apps/web-client/src/lib/dexie_db.ts:95-154 | for any outcome of the bulk and individual puts: all bulk tables if no bulk put fails; otherwise each table after the individual puts that succeed, on top of the original or of the partial bulk; which are the tables of the individual puts alone if all succeed |
| `Dexie.ZaloLocalDatabase.CollectMessages` | apps/web-client/src/lib/dexie_db.ts:109-123 | the two nested loops keep the messages with an id, conversation and sender filled in, in order |
| `Dexie.MessageRowsMeans` | apps/web-client/src/lib/dexie_db.ts:109-123 | collecting goes list by list and message by message; a missing list or message, or one without an id, gives nothing; the others keep id, direction and data, a missing conversation becomes the list's, a missing sender ME or the list's conversation |
| `Dexie.BothPathsAgreeIff` | apps/web-client/src/lib/dexie_db.ts:95-153 | bulk path and fallback give the same three tables if and only if conversations and contacts with an empty id change nothing; for tables that hold no empty id, if and only if there are none |
| `Stripping.StripTrailing` | services/gateway-hub/src/normalizer.ts:152-176 | the strip-trim-rematch loop ends and leaves exactly the trimmed text without its longest suffix of tokens and white space |
| `Stripping.StripsLongestSuffix` | services/gateway-hub/src/normalizer.ts:155-176 | for any finite set of non-empty tokens without white space, iterating the leftmost match computes s[..j] for the smallest j with s[j..] in (token or white space)* |
| `Stripping.RoundKeepsCut` | services/gateway-hub/src/normalizer.ts:174-174 | one round shortens the text and does not move that j |
| `Stripping.MatchFrom` | services/gateway-hub/src/normalizer.ts:93-93 | the leftmost position where one or more tokens and then white space reach the end, with no match before it |
| `Stripping.MatchesAtMeans` | services/gateway-hub/src/normalizer.ts:93-93 | the pattern matches at a position if and only if the text from there is one or more tokens, one after the other, and then white space |
| `Stripping.RemovableMeans` | services/gateway-hub/src/normalizer.ts:155-176 | a text is removable if and only if it falls into pieces each of which is a token or a white-space character |
| `Stripping.CutFrom` | services/gateway-hub/src/normalizer.ts:155-176 | the smallest start of a removable suffix |
| `Stripping.RemovableSplits` | services/gateway-hub/src/normalizer.ts:93-93 | no token straddles white space, so a removable text splits there into removable parts |
| `Stripping.BeforeMatchIsRemovable` | services/gateway-hub/src/normalizer.ts:93-93 | what lies between the longest removable suffix and the leftmost match is removable |
| `Stripping.NoMatchNothingRemovable` | services/gateway-hub/src/normalizer.ts:155-176 | when the pattern no longer matches a trimmed text, nothing is left to remove |
| `Placeholders.TrimRenders` | services/gateway-hub/src/normalizer.ts:222-222 | trimming takes white-space characters only, whatever the slots show, and no slot |
| `Restoration.VerbatimExpandsToItself` | services/gateway-hub/src/normalizer.ts:218-218 | a URL without `$$`, `$&`, `` $` `` or `$'` is inserted as it stands |
| `Restoration.ExpandsPieceByPiece` | services/gateway-hub/src/normalizer.ts:218-218 | each special pattern of a replacement string, behind text without any, makes room for a dollar sign, the match, or the text before or after it |
| `Restoration.ReplacesFirst` | services/gateway-hub/src/normalizer.ts:218-218 | a step replaces the first occurrence of its placeholder and leaves the text around it |
| `Restoration.ReplacesNothing` | services/gateway-hub/src/normalizer.ts:218-218 | and nothing if there is none |
| `Restoration.ExpansionDeparts` | services/gateway-hub/src/normalizer.ts:218-218 | a URL with `$$`, `$&` or `$'` and without `` $` `` expands to something that departs from it |
| `Restoration.StepRestores` | services/gateway-hub/src/normalizer.ts:217-219 | a clear step k puts URL k into its slot |
| `Restoration.StepLoses` | services/gateway-hub/src/normalizer.ts:217-219 | a step that is not clear, since its placeholder is typed before its slot or hidden in an earlier URL or its URL has `$$`, `$&` or `$'`, departs from the restored text at an underscore, a dollar sign or a quote |
| `Restoration.RestoreStaysLost` | services/gateway-hub/src/normalizer.ts:217-219 | and no later step repairs that departure |
| `Restoration.RestoresIff` | services/gateway-hub/src/normalizer.ts:217-222 | restoration equals the simultaneous substitution of all URLs if every step is clear, and, when no URL has `` $` ``, only if |
| `Restoration.GenuineIsClearIff` | services/gateway-hub/src/normalizer.ts:217-219 | without typed placeholder text, every step is clear if and only if no URL contains the placeholder of a later one and none has a special pattern |
| `Normalizer.CleanMessageContent` | services/gateway-hub/src/normalizer.ts:126-226 | the whole pipeline, its loops over emoticons and URLs included, returns `Cleaned`; empty and ciphertext inputs give their fixed answers |
| `Normalizer.PartsFit` | services/gateway-hub/src/normalizer.ts:142-147 | the URLs found become slots numbered 0, 1, ... from left to right, each followed by white space or the end |
| `Normalizer.TextIsItsParts` | services/gateway-hub/src/normalizer.ts:143-147 | the slots stand exactly where the URLs stood: filling them gives the original text |
| `Scanning.UrlAtMeans` | services/gateway-hub/src/normalizer.ts:97-97 | a URL starts exactly where http://, https:// or www. stands in any case with something visible behind it, and reaches to the next white space |
| `Scanning.MaskingIsReplacement` | services/gateway-hub/src/normalizer.ts:140-147 | the URLs are what a global search for the pattern finds, leftmost and without overlap, and the masked text is the global replacement of these by their numbered placeholders |
| `Scanning.ScanIsUnique` | services/gateway-hub/src/normalizer.ts:143-143 | a global search has one result, for each of the patterns |
| `Scanning.CiphertextMeans` | services/gateway-hub/src/normalizer.ts:105-121 | taken for ciphertext is, when trimmed, what has 20 or more characters of the base-64 alphabet and at most two equality signs behind them, or starts with a brace and has a colon and one of two quoted names |
| `Text.TrimMeans` | services/gateway-hub/src/normalizer.ts:152-152 | trimming takes off exactly the white space at both ends |
| `Normalizer.CodesGoIff` | services/gateway-hub/src/normalizer.ts:179-196 | the removal of reaction codes changes exactly the texts in which a code occurs |
| `Scanning.RemovalIsReplacement` | services/gateway-hub/src/normalizer.ts:179-196 | the removal of codes is the global replacement of the first code that stands at each place by nothing |
| `Normalizer.EmoticonsGoIff` | services/gateway-hub/src/normalizer.ts:199-203 | an emoticon replacement changes exactly the texts in which the emoticon stands between white space or the ends, although one match takes the white space that the next would need |
| `Scanning.InliningIsReplacement` | services/gateway-hub/src/normalizer.ts:199-203 | inlining an emoticon is the global replacement of it between white space or the ends, with that white space kept |
| `AtomicCleaning.StrippingIsAtomic` | services/gateway-hub/src/normalizer.ts:152-176 | stripping trailing reactions from the masked text is stripping them from a text with atomic URLs |
| `AtomicCleaning.CodesAreAtomic` | services/gateway-hub/src/normalizer.ts:179-196 | removing reaction codes takes no placeholder and cuts through none |
| `AtomicCleaning.EmoticonsAreAtomic` | services/gateway-hub/src/normalizer.ts:199-203 | replacing an emoticon takes no placeholder and cuts through none, and a URL still ends at white space |
| `AtomicCleaning.CleaningIsAtomic` | services/gateway-hub/src/normalizer.ts:151-203 | cleaning the masked text is cleaning a text with atomic URLs: every placeholder stays, once and in order |
| `AtomicCleaning.IntendedHasEveryUrl` | services/gateway-hub/src/normalizer.ts:140-147 | the cleaning with atomic URLs has every URL of the message, once and in order |
| `AtomicCleaning.UrlsSurvive` | services/gateway-hub/src/normalizer.ts:140-222 | for every message: the result is the cleaning with atomic URLs, every URL verbatim and in its place, if every step of the restoration is clear; and, unless a URL has `` $` ``, which copies the text before its match, only if |
| `AtomicCleaning.GenuineUrlsSurvive` | services/gateway-hub/src/normalizer.ts:140-222 | when the cleaned text has no placeholder text of its own: if and only if no URL contains the placeholder of a later one and none has `$$`, `$&` or `$'` |
| `AtomicCleaning.NoUnderscoreIsGenuine` | services/gateway-hub/src/normalizer.ts:143-147 | a message without underscores outside its URLs is such a text |
| `Misrestored.LoneUrlIsExpanded` | services/gateway-hub/src/normalizer.ts:126-226 | a message that is one URL comes back as the expansion of that URL |
| `Misrestored.SpecialsAreExpanded` | services/gateway-hub/src/normalizer.ts:126-226 | a message that is one URL ending in `$&` comes back with its placeholder in place of these two characters |
| `Misrestored.TypedPlaceholderTakesUrl` | services/gateway-hub/src/normalizer.ts:126-226 | in a message with placeholder 0 typed before its URL, the two change places |
| `Misrestored.HiddenPlaceholderTakesUrl` | services/gateway-hub/src/normalizer.ts:126-226 | in a message whose first URL ends in placeholder 1, the second URL is put into the first and a placeholder is left in its own place |
| `Misrestored.PrefixCopyIsRestored` | services/gateway-hub/src/normalizer.ts:126-226 | a message that starts with `` $` `` and a URL ending in it comes back as intended although its step is not clear: for this pattern there is no converse |
| `ZaloTables.ZaloTablesAreValid` | services/gateway-hub/src/normalizer.ts:23-83 | the tables in use meet what the theorems about cleaning ask of them |

## Left out

- UrlsSurvive: the direction "only if" is for messages in which no URL has `` $` ``, which copies the text before the match; with it a step that is not clear can restore all the same (`PrefixCopyIsRestored`), so that there is no condition on the URLs alone.
- CleanMessageContent: reaction counts and mention offsets are not computed; URLs sit in a sequence by number instead of a map by placeholder; characters are Unicode scalars instead of UTF-16 units. The theorems are about `Cleaned`, the result for texts that are not ciphertext.
- WiresIncrease: is about calls that do not overlap; overlapping calls need not hand out their numbers in increasing order, only when these are distinct is exact (`WiresAreDistinctIff`).
- DeliveredMessageOpens: fails by design for replays; what a replay does is `RightKeyIffNotReplayed`. Keys have no 32-byte width, and indices stay below 2^32 - 1.
- NeverOverRate: and the other bucket theorems use real numbers, so rounding of floating point is not modelled; the default capacity, rate and cost are left to the caller.
- ReconcileFullState: which bulk rows and which individual puts are stored is given by the outcomes, not by the database.
- EnqueuedBecomesLatest: takes each write whole, at its end, like the other results of `Gateway`; `LiveTraffic` and `LiveKeys` do not. In all of them, the id mapping, downloads and clock are fixed for the run, and every task carries a timestamp.
- BuiltIsPopulated: the record of a write carries the task's text, reactions and mentions as given; their cleaning in the queue, the fallback to the reactions and mentions found by it, and the second cleaning in `addMessage` are not applied.
- TableHoldsLatest: and the results on it are about records with the optional properties that the queue writer sets; records with any properties, such as one loaded from disk, are `TableCombinesAccepted`.
- AddMessage: text cleaning is taken as done on the record it receives; the mutation of the caller's record and the identity of the returned one are not captured.
- GetMessages: stands for the built-in sort by a stable insertion sort, and mutation through the returned array is not captured.
- SynthesizeMissingContacts: stub avatars use the plain id instead of its percent-encoded form, and only the properties that the theorems read are separate fields.
- RegisterRequest: and the other table operations are atomic library calls of the concurrent map, not modelled inside.
- Disk: `flushToDisk` and `loadFromDisk`, media files and the change events; a consistent initial store is a hypothesis.
- The queue's outbound pending map with its timers, and the registration of id mappings: `index.ts` reports statuses without it, so no single terminal status can be claimed.
- The `isRealtime` flag, which nothing reads, and hydration states beyond the ones staging sets.
- Screencast, page URL discovery and event emission of the CDP client; the viewport and domain requests after opening are ordinary sends.
- Number and string conversions of ids: ids are strings, times are integers.
- Idempotence of cleaning, and that tokenising the removed suffix greedily agrees with stripping it: both are false of the code, and nothing depends on them.
- TLS, SOCKS5, WebSocket relaying, key agreement and vault, embedded browser scripts, HTTP routing, and all user interface: plumbing, library calls, or members with one branch.
