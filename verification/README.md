# A verified model of the k3 inference engine

k3 runs a 93-layer mixture-of-experts model from disk: most layers are recurrent (their state
cannot be cut back, only snapshotted), some keep a KV row per position, and the experts stream
through a fixed cache. This project models the parts of it where an optimisation must not change
the answer, and proves that it does not.

* **Decoding** (`CarriedState`, `NgramDraft`, `Decode`, `ChatSession`, `StateFile`, `RefModel`). A
  model is any per-token step that reads a recurrent state and the rows of all earlier positions.
  Against that, speculative and hybrid decoding, chat sessions that reuse a prefix, and runs that
  are saved and resumed are proved to emit the ids of serial greedy decoding (or to sample the ids
  of a session that reuses nothing). `RefModel` proves that the reference model is such a step:
  running it on a sequence in pieces, with the carried states, is running it whole, and the
  engine's loop over it emits what its own greedy loop appends.
* **The expert cache** (`LruOrder`, `SimCache`, `SlotTable`, `ExpertCache`, `ReadPlan`,
  `Reservation`, `Interleave`, `ExpertBatch`). The simulator's Belady policy is optimal among all
  policies, its LRU has the inclusion property, and the engine's time-stamp cache, with its pins
  and its three-phase batch prefetch, refines that LRU and hands back exactly the bytes on disk,
  in whatever order the pieces are read and whichever of them fail.
* **The checkpoint** (`TensorIndex`, `SpanSweep`, `ExpertLoad`, `Trunk`, `Mxfp4`, `Float32`). The
  open-addressed index is a finite map, the span sweep accepts exactly the tilings, an expert's
  matrices are the same bytes whether they come in one read or six, packed and re-laid trunk files
  keep every tensor, and the two number formats keep their error bounds.
* **The transcript** (`ChatJson`, `ChatXtml`, `StateHash`). What is written is read back, exactly
  when it fits the reader's limits; an assistant turn is accepted exactly when it has the one
  shape it may have; one damaged unit of a saved state is always seen.

`Common` holds what several modules share. Classes model what the source updates in place, with
arrays where it has buffers; functions and lemmas model its pure parts. What the machine may do (a
forward that fails, memory refused, a write refused, a short read, the signal to stop, what a drafter
proposes, the order of parallel reads) is open, so the contracts hold for all of it; and they say that
nothing else goes wrong: a run fails only if a forward did, stops early only on a signal, and an
expert that fits is brought in from a device that is complete.

Where the repository's comments and its code disagree the model follows the code, gives a concrete
case, and says exactly when the two agree. `spec_draft` says every occurrence of the n-gram must
agree on what follows; the code consults the two most recent
(`NgramDraft.OldestOccurrenceIsNotConsulted`), and drafts what the comment says exactly when every
older occurrence agrees as far as those two do (`NgramDraft.DraftsAsCommented`). `cache_getmany`
is said to bring a whole top-k resident; phase 1 can push out a resident member of the same batch
(`Reservation.ResidentMemberCanBeLost`), for good or until its own turn
(`Reservation.LostMemberCanReturn`). `Reservation.ArrivesExactly` says key by key which ones are
there after phase 1, and `ExpertBatch.GetMany` that, with all of them read, exactly these are
resident; that no resident member is pushed out at all is a stronger property, with a condition of
its own (`Reservation.MembersStayWhen`, `Reservation.SparedArrive`). A saved run can be resumed
with any prompt unless a stop id fell inside a verified batch
(`StateFile.StopInsideBatchIsNotResumable`, `StateFile.ResumableExactly`).

`dafny verify dfyconfig.toml` checks everything.

## Model

| member | source | states |
|---|---|---|
| CarriedState.FeedAllAppend | src/cli/k3_run.c:458-576 | feeding a ++ b is feeding a, then b from the state a left |
| CarriedState.PredictsAt | src/cli/k3_run.c:458-576 | the logits and argmax a batched forward reports at a position are those of feeding only the ids up to it |
| CarriedState.FoldRowsPrefix | src/cli/k3_run.c:458-576 | rows once written are never rewritten: the fold of a longer sequence extends the rows of the shorter |
| CarriedState.SlicesAgree | src/cli/k3_run.c:645-656 | buffers of different strides with equal layer slices hold the same position rows |
| CarriedState.Restride | src/cli/k3_run.c:645-656 | growing copies every layer slice of the occupied positions to its place at the new stride |
| CarriedState.Engine.constructor | src/cli/k3_run.c:1620-1631 | zeroed buffers and nothing cached are the fold of the empty sequence |
| CarriedState.Engine.StoreRow | src/cli/k3_run.c:458-576 | writing one position row leaves all the rows below it as they were |
| CarriedState.Engine.Grow | src/cli/k3_run.c:637-662 | growth keeps the rows of all cached positions; it fails exactly when memory is refused, and then nothing changes |
| CarriedState.Engine.FeedOne | src/cli/k3_run.c:458-576 | one token is one step of the fold, from the rows below its position, whatever stale rows lie above |
| CarriedState.Engine.Forward | src/cli/k3_run.c:458-576 | a batch is the fold over its ids and reports every position; it fails exactly when a forward faults, and then the cached rows are left alone |
| CarriedState.Engine.Advance | src/cli/k3_run.c:1817-1820 | the state of `done` becomes the state of `done` ++ ids, and `cached` says so |
| CarriedState.Engine.Replay | src/cli/k3_run.c:1876-1880 | from a recurrent snapshot and the rows below, replaying ids restores the state of exactly those ids although the rows above are stale, unless the forward faults |
| CarriedState.Engine.ForwardFull | src/cli/k3_run.c:1918-1921 | without a KV cache the next id is the greedy choice after the whole sequence |
| NgramDraft.FindMatches | src/cli/k3_run.c:183-194 | the two most recent earlier occurrences of the last n ids, and no occurrence in between |
| NgramDraft.SpecDraft | src/cli/k3_run.c:174-206 | length 4 is tried, then 3; the draft continues the most recent occurrence until the cap, the end of the sequence or the first place where the two most recent occurrences disagree |
| NgramDraft.SpecDraftsUnique | src/cli/k3_run.c:174-206 | that determines the draft: it is a function of the sequence and the number asked for |
| NgramDraft.DraftedWhen | src/cli/k3_run.c:174-206 | a draft comes out exactly when one is asked for and the last 4 or the last 3 ids have occurred before with the two most recent occurrences agreeing on the next id; length 3 only when 4 yields nothing |
| NgramDraft.StrictSpecDraftExists | src/cli/k3_run.c:176-180 | the rule of the comment (every occurrence has a say), at length 4 and then 3, drafts something or nothing for every sequence |
| NgramDraft.DraftsAsCommented | src/cli/k3_run.c:174-206 | what the function returns extends what the commented rule drafts, and the two are equal exactly when, at length 4 if the two most recent occurrences there agree on an id and else at length 3, every older occurrence agrees with them wherever those two agree below the cap |
| NgramDraft.OldestOccurrenceIsNotConsulted | src/cli/k3_run.c:174-206 | with a third, disagreeing occurrence the code drafts [9] and nothing else, the commented rule nothing |
| Decode.SerialEmits | src/cli/k3_run.c:1954-1965 | any run of greedy ids with no stop id before its last is what serial decoding emits next, so batches and single steps are interchangeable |
| Decode.SerialIs | src/cli/k3_run.c:1954-1965 | serial decoding is the one run of greedy ids, none before the last a stop id, that has all the ids asked for or ends with a stop id |
| Decode.FollowsPrefix | src/cli/k3_run.c:1862-1873 | a prefix of a greedy run is a greedy run |
| Decode.BatchPredicts | src/cli/k3_run.c:1857-1862 | the argmax at a batch position is the greedy choice after the ids up to that position |
| Decode.Draft.Propose | src/cli/k3_run.c:1838-1850 | each proposal is fed back before the next is made, so the draft model has absorbed the sequence and all proposals but the last; it proposes fewer than asked exactly when its forward faults |
| Decode.Draft.Resync | src/cli/k3_run.c:1882-1900 | after full or partial acceptance the draft model has absorbed exactly the accepted ids, and none of the rejected ones |
| Decode.Accept | src/cli/k3_run.c:1865-1867 | the accepted count is the length of the longest prefix on which drafts and argmaxes agree |
| Decode.AcceptedFollows | src/cli/k3_run.c:1854-1867 | accepted drafts are greedy ids, and so is the argmax after them |
| Decode.Settle | src/cli/k3_run.c:1868-1881 | after full acceptance or restore-and-replay the state is that of the accepted ids only; it fails exactly when the replay faults |
| Decode.Verify | src/cli/k3_run.c:1852-1881 | whatever was proposed, the emitted ids are greedy and the state is that of all of them but the last; it fails exactly when a forward faults |
| Decode.Proposals | src/cli/k3_run.c:1833-1852 | when a batch is sure to fit, the n-gram rule or the draft model proposes, else nobody; proposals never reach past the buffers |
| Decode.VerifyStep | src/cli/k3_run.c:1852-1907 | a verified batch leaves engine and draft model with the same ids absorbed |
| Decode.PlainStep | src/cli/k3_run.c:1908-1917 | a single step emits the greedy id and feeds the draft model the same id |
| Decode.NextStep | src/cli/k3_run.c:1832-1917 | every kind of incremental step emits at least one id, all of them greedy |
| Decode.Append | src/cli/k3_run.c:1954-1970 | ids are appended until the limit, the buffer end or the first stop id, and nothing after a stop id |
| Decode.OneStep | src/cli/k3_run.c:1805-1925 | the first step feeds everything not yet consumed, later ones the pending id and its drafts |
| Decode.FedAfter | src/cli/k3_run.c:1954-1970 | only a stop id inside a verified batch leaves the state past the sequence |
| Decode.Pass | src/cli/k3_run.c:1797-1971 | one pass fails, ends at a stop id, or is back at the top with more ids and the state exact for all but the last |
| Decode.Generate | src/cli/k3_run.c:1797-1971 | for every prompt, limit, stop set and drafter the ids are those of serial greedy decoding, all of them unless the signal came by the top of a pass or a forward faulted, in which cases a prefix; the carried state is the fold of what was fed, which without drafting is all but the last id, and the draft model has absorbed the same ids |
| ChatSession.Prefix.Alloc | src/chat/k3_prefix.h:55-64 | sized when there is memory, else disabled; empty and untainted either way |
| ChatSession.Prefix.Clear | src/chat/k3_prefix.h:68-73 | an empty record claims nothing |
| ChatSession.Prefix.Grow | src/chat/k3_prefix.h:91-104 | the kept positions survive growth; on failure the record is empty, never stale |
| ChatSession.Prefix.Record | src/chat/k3_prefix.h:110-116 | ids are recorded where they are fed; an overflow or a skipped position drops the whole record; a write below the end overwrites in place |
| ChatSession.Prefix.Reuse | src/chat/k3_prefix.h:130-136 | the whole record or nothing: reuse exactly when untainted, non-empty and a proper prefix of the prompt |
| ChatSession.Resize | src/cli/k3_run.c:617-698 | growing state and record together keeps the record an exact description of the state, and with memory keeps the record |
| ChatSession.Begin | src/cli/k3_run.c:705-720 | the turn starts from the state of a prefix of its prompt: the recorded one when it can be reused, the empty one otherwise |
| ChatSession.FeedAndRecord | src/cli/k3_run.c:725-736 | state and record advance together, or a failed forward empties the record |
| ChatSession.NextLogits | src/cli/k3_run.c:723-739 | the logits sampled from are those of prompt ++ sampled ids, whatever was reused |
| ChatSession.Turn | src/cli/k3_run.c:720-759 | a turn samples the ids of a session that clears and prefills every turn; it fails exactly when a forward faults |
| ChatSession.Session | src/cli/k3_run.c:675-800 | a whole session samples, turn by turn, what the session that reuses nothing samples; it fails exactly when buffers cannot grow or a forward faults, with a prefix of that |
| ChatSession.SessionExtends | src/cli/k3_run.c:675-800 | later turns never change the ids of earlier ones |
| StateHash.MixInjective | src/cli/k3_state.c:34-43 | one step of the hash is injective in the word and in the running value |
| StateHash.TimesPrimeInjective | src/cli/k3_state.c:38-42 | multiplying by the odd constant is a bijection mod 2^64 |
| StateHash.HashBytes | src/cli/k3_state.c:30-45 | the loop computes the hash of words and tail bytes |
| StateHash.HashInjectiveInSeed | src/cli/k3_state.c:30-45 | different running values stay different over any payload |
| StateHash.DamageIsSeen | src/cli/k3_state.c:30-45 | changing one aligned word, or one tail byte, of a payload of any length changes its hash |
| StateHash.OneByteIsOneUnit | src/cli/k3_state.c:30-45 | any single changed byte is such a change |
| StateHash.ChainSeesDamage | src/cli/k3_state.c:99-128 | damage to one unit of any segment changes the final value of the chained hash |
| StateFile.Int32CodecIsLawful | src/cli/k3_state.c:101-103 | 32-bit ids survive their bytes |
| StateFile.DecEncAll | src/cli/k3_state.c:101-115 | decoding an encoded slice gives the slice back |
| StateFile.CutConcat | src/cli/k3_state.c:101-115 | reading segments of the written sizes recovers the written segments |
| StateFile.Save | src/cli/k3_state.c:176-206 | header and payload: the sequence, the recurrent state and each layer slice of the occupied positions, with the hash of all of it; written exactly when the disk grants every write |
| StateFile.Load | src/cli/k3_state.c:73-129 | accepted only if architecture, layer counts, capacity, length and hash agree; then every slice is in place |
| StateFile.SavedSizes | src/cli/k3_state.c:191-203 | the segments written are the segments the reader asks for, at any destination capacity |
| StateFile.LoadAfterSave | src/cli/k3_state.c:73-216 | a saved file is accepted by any run of the same architecture whose cache holds its positions, and restores what was saved |
| StateFile.DamagedFileIsRefused | src/cli/k3_state.c:117-127 | a file with one damaged unit in one payload segment is refused |
| StateFile.RestoredRows | src/cli/k3_state.c:106-115 | every occupied KV and rope row is the saved one, across different strides |
| StateFile.Transfer | src/cli/k3_state.c:73-216 | saving and loading moves the state of a sequence into another engine, exactly when the disk grants the writes |
| StateFile.Resume | src/cli/k3_run.c:1633-1641 | resuming a saved run with a further prompt emits what one uninterrupted run on the joined sequence emits; on reliable machines it fails exactly when the save did |
| StateFile.ResumableExactly | src/cli/k3_run.c:1811-1820 | the state is a prefix of the sequence under every further prompt exactly when no more positions are cached than the sequence has, which the header says |
| StateFile.SerialRunIsResumable | src/cli/k3_run.c:1908-1909 | a run without drafting, or a prefill, always can |
| StateFile.PastTheSequence | src/cli/k3_run.c:1957-1965 | whenever a run of any model left the state past the sequence there is a model with the same next id after every sequence no longer than the state, hence with the same run, and a prompt for which its resumed run emits another id than its run on the joined sequence |
| StateFile.StopInsideBatchIsNotResumable | src/cli/k3_run.c:1852-1965 | a run in which a stop id falls inside an accepted batch: proposals within the guard, all accepted, the ids emitted are the serial ones, and the resumed run goes on with another id |
| LruOrder.RunIsYoungest | tools/sim_cache.py:36-48 | at every moment the cache of capacity c holds the c most recently requested keys |
| LruOrder.YoungestStep | tools/sim_cache.py:40-47 | serving a request commutes with keeping the youngest keys |
| LruOrder.LruInclusion | tools/sim_cache.py:36-48 | what capacity c holds, capacity c + 1 holds |
| LruOrder.LruHitsMonotone | tools/sim_cache.py:36-48 | hits never decrease with capacity |
| LruOrder.LruWithRoom | tools/sim_cache.py:36-48 | with room for all distinct keys, every key misses exactly once |
| LruOrder.RunKeepsItsKeys | tools/sim_cache.py:36-48 | a run of requests with at most capacity distinct keys keeps all of them |
| SimCache.CompulsoryMisses | tools/sim_cache.py:51-76 | no policy of any size, with any knowledge, gets more hits than requests less distinct keys |
| SimCache.NextUses | tools/sim_cache.py:54-60 | the backward pass computes for every request the first later request of the same key |
| SimCache.NextUseIsFirst | tools/sim_cache.py:54-60 | the table entry is the nearest later occurrence, or the trace length when there is none |
| SimCache.Furthest | tools/sim_cache.py:70-70 | the victim is a resident key whose next use is latest |
| SimCache.BeladyServe | tools/sim_cache.py:64-75 | one request: hit, fill, replace the furthest, or bypass |
| SimCache.BeladyStaysAhead | tools/sim_cache.py:64-75 | against any policy the lead in hits plus soon-needed keys never drops below zero over a step |
| SimCache.BeladyIsOptimal | tools/sim_cache.py:51-76 | Belady gets at least the hits of every cache policy of its capacity, bypassing or not, with future knowledge or not |
| SimCache.Belady | tools/sim_cache.py:51-76 | the program computes the hits of that optimal run |
| SimCache.Lru | tools/sim_cache.py:36-48 | the program computes the hits of the ordered-list cache |
| SimCache.BeladyBeatsLru | tools/sim_cache.py:36-76 | on every trace and capacity Belady is at least LRU |
| SimCache.MostCommon | tools/sim_cache.py:91-91 | the hot set has the asked size and no outsider is requested more often than a member |
| SimCache.PinnedLru | tools/sim_cache.py:79-110 | the program pins as many of the most requested keys as asked for, short of one slot, and computes the hits of that set beside an LRU of the rest |
| SimCache.PinnedIsAPolicy | tools/sim_cache.py:79-110 | pinning is a cache policy of the whole capacity |
| SimCache.BeladyBeatsPinned | tools/sim_cache.py:51-110 | on every trace and capacity Belady is at least pinned LRU |
| ReadPlan.ChunkBytes | src/cache/k3_cache.c:139-148 | the chunk size is the setting rounded up to the alignment, at least one block |
| ReadPlan.PlanWindow | src/cache/k3_cache.c:265-281 | the window encloses the payload with less than a block to spare at each end, in at most the budgeted number of pieces |
| ReadPlan.ChunkAligned | src/cache/k3_cache.c:299-304 | every piece starts and ends on a block boundary |
| ReadPlan.ChunksTile | src/cache/k3_cache.c:299-304 | every byte of the window belongs to exactly one piece |
| ReadPlan.SummedTestIsExact | src/cache/k3_cache.c:306-315 | under reads complete, cut by end of file, or short by a block, the sum test passes exactly when all payload bytes arrived |
| ReadPlan.OneByteShortIsNotSeen | src/cache/k3_cache.c:306-315 | without the block granularity the test is not exact: a concrete case |
| ReadPlan.ItemsFit | src/cache/k3_cache.c:245-262 | the pieces of up to 64 experts fit the item arrays, and the budget per expert is at least eight |
| SlotTable.OccupyInv | src/cache/k3_cache.c:87-105 | registering a key keeps slot and key tables inverse and stamps distinct |
| SlotTable.ClearInv | src/cache/k3_cache.c:83-100 | giving up a slot keeps them inverse |
| SlotTable.ReserveInv | src/cache/k3_cache.c:199-205 | reserving a slot keeps them inverse |
| SlotTable.HitRanks | src/cache/k3_cache.c:66-71 | a hit makes the key the youngest of the unpinned ones |
| SlotTable.ClearRanks | src/cache/k3_cache.c:83-205 | giving up or reserving a slot drops its key from the recency order and nothing else |
| SlotTable.OccupyRanks | src/cache/k3_cache.c:100-105 | a new key is the youngest |
| SlotTable.PinRanks | src/cache/k3_cache.c:494-502 | a pinned key leaves the order |
| SlotTable.UnpinRanks | src/cache/k3_cache.c:494-502 | a released key returns at the place its stamp gives it |
| SlotTable.RanksCount | src/cache/k3_cache.c:49-60 | the order is as long as there are slots holding an unpinned key |
| SlotTable.VictimIsOldest | src/cache/k3_cache.c:49-60 | the scan takes a free slot while there is one, else the slot of the least recently used unpinned key; none exactly when all are pinned or in flight |
| ExpertCache.Cache.constructor | src/cache/k3_cache.c:457-475 | an empty cache of nslot slots |
| ExpertCache.Init | src/cache/k3_cache.c:382-475 | given memory, refused exactly when there is no routed expert to size slots by or the budget holds too few of them; otherwise slots are aligned, hold that expert and two blocks and less than one more, as many as the budget holds, roomy enough for an O_DIRECT window |
| ExpertCache.Cache.PickVictim | src/cache/k3_cache.c:49-60 | the slot returned is a victim in the sense above |
| ExpertCache.ListedAt | src/cache/k3_cache.c:65-65 | the key of a pair is its place when the checkpoint is listed layer by layer |
| ExpertCache.KeyNames | src/cache/k3_cache.c:65-65 | in range a pair has one key, and quotient and remainder by the layer size give the pair back |
| ExpertCache.HereIs | src/cache/k3_cache.c:65-71 | some slot holds this expert of this layer, pinned or not, exactly when its key is resident, pinned or not |
| ExpertCache.MissTable | src/cache/k3_cache.c:83-105 | table and order after a miss that was read, and after one that fell short: the victim is gone either way |
| ExpertCache.HoldingsAfter | src/cache/k3_cache.c:86-105 | changing one slot keeps what every other slot holds |
| ExpertCache.Cache.ReadInto | src/cache/k3_cache.c:85-100 | only the bytes of the slot change, after a full read they are the expert's, and a complete device with room gives a full read |
| ExpertCache.Cache.Fill | src/cache/k3_cache.c:83-109 | a read that succeeds registers the key as youngest; one that fails leaves the slot empty; pins stay; on a device that brings all there is, an expert that fits its slot is read |
| ExpertCache.Cache.Admit | src/cache/k3_cache.c:63-110 | hits, misses, evictions and order after a request, failures included; a miss succeeds when the device is complete, the expert fits and a slot is not pinned |
| ExpertCache.Cache.FillQ | src/cache/k3_cache.c:23-33 | the six addresses handed back hold the six matrices as they are on disk |
| ExpertCache.Cache.Get | src/cache/k3_cache.c:354-380 | out-of-range requests change nothing; others are counted, traced and served: a hit exactly when some slot holds this expert of this layer, and what is handed back are the matrices the checkpoint lists under that layer and expert; with a complete device, room for the expert and a slot that is not pinned they are served |
| ExpertCache.Cache.IsResident | src/cache/k3_cache.c:342-352 | true exactly when a slot holds this expert of this layer, with its matrices |
| ExpertCache.Cache.Pin | src/cache/k3_cache.c:494-502 | succeeds exactly for resident keys; the key leaves or re-enters the replacement order; no other key moves, and no other pair of layer and expert is pinned or released |
| ExpertCache.Cache.Prefetch | src/cache/k3_cache.c:504-507 | a request without the bytes, for every combined key in range: an expert index past its layer is served exactly when the key it shares is resident |
| ExpertCache.Cache.ResetStats | src/cache/k3_cache.c:509-520 | the counters of a step start at zero; nothing else changes, and the evictions counted before are not forgotten |
| ExpertCache.Cache.ResidentCount | src/cache/k3_cache.c:49-110 | resident experts number successful reads less all evictions, however often the counters were reset |
| ExpertCache.RequestIsStep | src/cache/k3_cache.c:63-110 | a request for an unpinned key is one step of ordered-list LRU at the capacity the pins leave |
| ExpertCache.Serve | src/cache/k3_cache.c:354-380 | a run of requests has the order and the hits of the simulator's LRU, with no more distinct experts than unpinned slots all of them stay resident, and on a complete device it goes through |
| Reservation.ReservingTakes | src/cache/k3_cache.c:184-209 | reserving uses free slots first, then drops the oldest keys, one per reservation |
| Reservation.EnoughFreeSlots | src/cache/k3_cache.c:184-209 | with as many free slots as ids a batch evicts nothing |
| Reservation.ResidentMemberCanBeLost | src/cache/k3_cache.c:189-201 | without free slots a resident member of the batch can be pushed out by a later one: a concrete batch |
| Reservation.MembersStayWhen | src/cache/k3_cache.c:184-209 | no resident member of a batch is pushed out exactly when the reservations the batch needs (as far as the work list has room) are covered by the free slots and the keys older than its oldest resident member |
| Reservation.BatchIsCovered | src/cache/k3_cache.c:184-209 | then, with room for all that is missing, every member that can be is pinned, still in place, or reserved |
| Reservation.ReservingAppend | src/cache/k3_cache.c:184-209 | phase 1 of a batch in two parts is phase 1 of the first, then of the second on what that left |
| Reservation.ArrivesExactly | src/cache/k3_cache.c:184-209 | a key is pinned, in place or reserved after phase 1 exactly when it is pinned, or old by no less than the slots taken beyond the free ones, or some id asks for it when it is out of place and a slot and a work entry are left |
| Reservation.SparedArrive | src/cache/k3_cache.c:184-209 | so the whole batch is, when no resident member is pushed out and there is room for all that is missing |
| Reservation.LostMemberCanReturn | src/cache/k3_cache.c:184-209 | that is not necessary: a batch that arrives whole although a resident member was pushed out and reserved again |
| ExpertBatch.TakeSlot | src/cache/k3_cache.c:198-205 | a reserved slot is in flight, stamped, and its old key gone |
| ExpertBatch.ReserveOne | src/cache/k3_cache.c:184-209 | one id is passed over, reserved, or ends phase 1 |
| ExpertBatch.ReserveSlots | src/cache/k3_cache.c:184-210 | phase 1: the work list, the free slots and the order are those of the reservation rule; in-flight slots and keys are pairwise distinct |
| ExpertBatch.SortWork | src/cache/k3_cache.c:215-222 | the insertion sort yields a permutation in disk order |
| ExpertBatch.PendingPermuted | src/cache/k3_cache.c:215-222 | reordering the work list keeps every reservation |
| ExpertBatch.PlanReads | src/cache/k3_cache.c:243-287 | every expert is read whole or in window pieces, at most 512 items in all |
| ExpertBatch.ReadPiece | src/cache/k3_cache.c:299-304 | a piece writes only its own bytes of its own slot, by calls inside its fence; a complete device brings all of a piece that fits |
| ExpertBatch.PieceKept | src/cache/k3_cache.c:288-304 | reading one piece leaves every other piece as it was |
| ExpertBatch.ItemsApart | src/cache/k3_cache.c:288-304 | no two items of a batch may write the same byte of the arena |
| Interleave.ScheduleIsFree | src/cache/k3_cache.c:288-305 | calls that stay inside disjoint fences leave the same arena under every interleaving of the items |
| Interleave.AsIfOneByOne | src/cache/k3_cache.c:288-305 | so any interleaving of the parallel loop ends like reading the items one by one |
| ExpertBatch.FetchAll | src/cache/k3_cache.c:288-305 | phase 2 in any order of items: each leaves in its slot what it reports, and the calls the items made, interleaved in any other way, leave the same arena |
| ExpertBatch.WorkArrived | src/cache/k3_cache.c:307-316 | an expert counted as read is held by its slot, byte for byte |
| ExpertBatch.Publish | src/cache/k3_cache.c:319-337 | phase 3 registers exactly the complete ones, in list order, and empties the other slots |
| ExpertBatch.CompleteInOrder | src/cache/k3_cache.c:215-337 | of a sorted list the complete experts are published by shard and then by offset |
| ExpertBatch.WorkComplete | src/cache/k3_cache.c:307-316 | on a complete device whose slots have room for the window, every expert counts as read, whole or in pieces |
| ExpertBatch.BatchSettled | src/cache/k3_cache.c:169-337 | when everything reserved is published, exactly the keys that arrive are resident, so every expert the ids name that is there or can be read is there exactly when all of them arrive; no resident member was pushed out exactly when free slots and older keys sufficed |
| ExpertBatch.GetMany | src/cache/k3_cache.c:169-337 | afterwards nothing is in flight, pins are untouched, the oldest keys were dropped as phase 1 says, what was published are experts of this layer the ids name, the youngest of all and the later on disk the younger, and counts and free slots add up; whatever a complete device can read is published, and what becomes of the whole batch is as above |
| SpanSweep.SortFacts | src/io/k3_st.c:260-289 | sorting is a permutation in (start, end) order |
| SpanSweep.ChainIsTiles | src/io/k3_st.c:290-304 | sorted spans chain start to end exactly when each byte below the last end has one owner and no empty span lies inside another |
| SpanSweep.SweepSpans | src/io/k3_st.c:272-306 | the sweep accepts exactly the tilings, in whatever order the header lists the spans |
| SpanSweep.ClaimsAreLengths | src/io/k3_load.c:78-84 | claims counted byte by byte and span by span agree |
| SpanSweep.ExtentIsTiling | src/io/k3_load.c:78-85 | in an accepted shard lengths add up to the extent exactly when every byte of it has one owner |
| ExpertLoad.ExpertRef | src/io/k3_load.c:15-104 | refused exactly when a tensor is missing or the geometry disagrees; otherwise the reference describes the six tensors |
| ExpertLoad.ImagePlaces | src/io/k3_load.c:87-136 | one read or six, every matrix is at its stated offset, byte for byte as on disk |
| ExpertLoad.ContiguousHasNoGap | src/io/k3_load.c:76-85 | in an accepted shard the contiguous flag is set exactly when the run belongs to the six tensors and to nothing else |
| ExpertLoad.Read | src/io/k3_st.c:820-846 | the loop brings a prefix of what was asked for and touches nothing else; from a complete device it brings all there is |
| ExpertLoad.ReadAligned | src/io/k3_st.c:779-818 | after a read of n bytes the payload stands at pad; nothing outside the window changes; what does not fit is not read; a complete device brings all there is |
| ExpertLoad.Load | src/io/k3_load.c:107-136 | a full count means the whole image is in place, by one read or by six; a complete device gives a full count |
| ExpertLoad.LoadDirect | src/io/k3_load.c:138-146 | a full count means the image starts at the reported pad; a complete device gives one when the window fits |
| TensorIndex.HashName | src/io/k3_st.c:117-122 | the loop computes the FNV hash of the name |
| TensorIndex.MaskIsMod | src/io/k3_st.c:604-618 | masking with a power of two less one is the remainder |
| TensorIndex.FreeAhead | src/io/k3_st.c:604-607 | a table that is not full has a free bucket within one round of any home |
| TensorIndex.Absent | src/io/k3_st.c:768-773 | reaching a free bucket without a match settles that the name is absent |
| TensorIndex.Insert | src/io/k3_st.c:615-627 | the free bucket a probe ends at is where the name will be found, and all others still are |
| TensorIndex.Probe | src/io/k3_st.c:618-626 | probing terminates at the name's entry or at a free bucket, the latter exactly when the name is absent |
| TensorIndex.TableSize | src/io/k3_st.c:604-606 | a power of two, at least 1024 and twice the names |
| TensorIndex.Open | src/io/k3_st.c:604-629 | opening fails exactly when two names coincide |
| TensorIndex.Index.Find | src/io/k3_st.c:764-775 | the unique tensor of that name, or none exactly when there is none |
| RefModel.ConvSplit | tools/k3_ref.py:201-209 | the convolution of a ++ b is that of a, then of b with the carried window, for chunks shorter than the window too |
| RefModel.DeltaStateSplit | tools/k3_ref.py:269-275 | the delta recurrence over a ++ b goes through the state a leaves |
| RefModel.KdaForward | tools/k3_ref.py:249-281 | the loop computes the recurrence and the carried windows |
| RefModel.DeltaRule | tools/k3_ref.py:269-275 | over matrices, the state read by any key after a write returns what the decayed state returned and beta times the error as far as that key and the written one agree |
| RefModel.KdaToken | tools/k3_ref.py:249-281 | one decoding step in terms of the carried windows and matrix |
| RefModel.KdaSplit | tools/k3_ref.py:249-281 | the split law for a delta attention layer |
| RefModel.HeadMasked | tools/k3_ref.py:331-335 | rows after a position contribute nothing to its softmax and its weighted sum |
| RefModel.HeadIsAverage | tools/k3_ref.py:331-335 | a head's output is an average of the rows up to its own: each has positive weight, in proportion to the exponential of its score, later rows have none, and the weights add up to one |
| RefModel.MlaSplit | tools/k3_ref.py:307-339 | the split law for a latent attention layer, shifted causal mask included |
| RefModel.MlaToken | tools/k3_ref.py:307-339 | one decoding step in terms of the carried rows |
| RefModel.LayerSplit | tools/k3_ref.py:439-465 | the split law for a decoder layer, block residuals travelling with their position |
| RefModel.Forward | tools/k3_ref.py:479-490 | the layer loop computes outputs and replaces the states one by one |
| RefModel.ThroughIsBlocks | tools/k3_ref.py:439-465 | after every layer a position's running sum is what its block has put out so far and its residuals are the embedding and what each earlier block has put out, by an independent definition over sums of attention and MLP outputs |
| RefModel.NothingIsLost | tools/k3_ref.py:439-465 | after any number of layers residuals and running sum add up to the embedding and all attention and MLP outputs so far, and there are as many residuals as blocks have begun |
| RefModel.ForwardIsBlocks | tools/k3_ref.py:479-490 | so logits and new states of a whole forward are those of the block sums |
| RefModel.SplitLaw | tools/k3_ref.py:479-490 | running a ++ b gives the outputs of a, then of b with the states a left, and the same final states, for any split and layer map |
| RefModel.FoldIsForward | tools/k3_ref.py:479-490 | folding one token at a time carries exactly the states one forward returns |
| RefModel.ForwardIsFold | tools/k3_ref.py:479-490 | every position of a forward has the logits of the fold up to it |
| RefModel.Greedy | tools/k3_ref.py:493-500 | re-forwarding everything for each id yields serial greedy decoding |
| RefModel.NetIsShaped | tools/k3_ref.py:307-339 | a position leaves one pair of latent and rope slot per latent layer, which is what the engine buffers hold |
| RefModel.DecodesGreedily | tools/k3_ref.py:479-500 | the engine loop over the reference model, with any drafter, emits what the reference greedy loop appends |
| ChatJson.JWrite | src/chat/k3_chat.c:266-279 | the loop writes the quoted, escaped string |
| ChatJson.Utf8IsTheEncoding | src/chat/k3_chat.c:192-199 | the emitted bytes are the one UTF-8 sequence that means the code point (section 3 of RFC 3629) |
| ChatJson.JStr | src/chat/k3_chat.c:154-208 | the loop reads the string the grammar gives |
| ChatJson.ReadQuoted | src/chat/k3_chat.c:154-279 | a written string is read back wherever it stands, for every NUL-free byte string |
| ChatJson.EscapeMeansUtf8 | src/chat/k3_chat.c:173-199 | each escape of a code point, surrogate pairs included, in digits of either case, becomes its UTF-8 bytes (section 7 of RFC 8259) |
| ChatJson.LoneSurrogateRefused | src/chat/k3_chat.c:178-191 | a high surrogate not followed by the escape of a low one, a low one on its own, and NUL are refused |
| ChatJson.Validate | src/chat/k3_chat.c:78-103 | accepted exactly: system only first, then user and assistant in turn, no reasoning on a user message |
| ChatJson.Add | src/chat/k3_chat.c:105-129 | a message is appended exactly when the history stays valid |
| ChatJson.Reset | src/chat/k3_chat.c:62-75 | only the system message stays |
| ChatJson.ParseRecord | src/chat/k3_chat.c:210-240 | the loop parses the record the grammar gives |
| ChatJson.StringsExactly | src/chat/k3_chat.c:154-208 | a text is read from p to q exactly when the line has there a string literal of section 7 of RFC 8259 that spells it: plain characters, short escapes, code points, surrogate pairs, NUL excluded |
| ChatJson.QuotedSpells | src/chat/k3_chat.c:266-279 | what is written is one such literal |
| ChatJson.ParseOfFields | src/chat/k3_chat.c:210-240 | an object of fields in any spelling and spacing, empty or with a comma too many, is the message the fields make, put one after the other |
| ChatJson.ParsesExactly | src/chat/k3_chat.c:210-240 | a line is a message exactly when it is such an object, alone but for white space, with the keys of that message, each once |
| ChatJson.PutAllIs | src/chat/k3_chat.c:210-240 | fields are accepted exactly when their keys are known and occur once each, and each has the value of its key |
| ChatJson.OrderIsFree | src/chat/k3_chat.c:210-240 | the same fields in another order or spacing are the same message; a repeated or unknown key is refused |
| ChatJson.ParseOfRecord | src/chat/k3_chat.c:210-298 | a written record parses to its message |
| ChatJson.Save | src/chat/k3_chat.c:281-298 | one record a line, refused for an invalid history |
| ChatJson.Load | src/chat/k3_chat.c:242-264 | line by line, refused for a blank, overlong or malformed line or an invalid whole |
| ChatJson.SavedLoads | src/chat/k3_chat.c:242-298 | a saved history loads as what was kept of it when every line fits, and fails otherwise |
| ChatJson.SaveThenLoad | src/chat/k3_chat.c:242-298 | the history comes back exactly when every line is at most 16 MiB and the system message has no reasoning |
| ChatXtml.Render | src/chat/k3_chat.c:363-394 | refused exactly for invalid options or history; a reader of segments hears every message of the result with its role and text and, with thinking on, the assistants' reasoning, after a note that asks for the effort set, and finds the channel opened for an answer; nothing but the four control markers is special |
| ChatXtml.PromptReads | src/chat/k3_chat.c:363-394 | the reader hears exactly the messages a prompt was made of, in their order, whatever their text |
| ChatXtml.RenderIsInjective | src/chat/k3_chat.c:363-394 | transcripts that differ in a role or a text, or with thinking on in an assistant's reasoning, render differently |
| ChatXtml.ValidateOptions | src/chat/k3_chat.c:345-354 | the effort must be one of the three, with thinking on |
| ChatXtml.AnswerExtendsPrompt | src/chat/k3_chat.c:363-394 | the transcript with an answer is the prompt that asked for it followed by the answer, so the next turn extends this one |
| ChatXtml.Encode | src/chat/k3_chat.c:405-414 | segment by segment |
| ChatXtml.MatchAfterFree | src/chat/k3_chat.c:460-467 | in text without control ids the first match is where the text ends |
| ChatXtml.TurnIsUnique | src/chat/k3_chat.c:441-480 | an id sequence can be read as a turn in only one way |
| ChatXtml.ParseAssistant | src/chat/k3_chat.c:441-480 | accepted exactly when the ids are reasoning, boundary, response, closure and one end id, with no control or unknown id in either text; the result is those texts |
| ChatXtml.RenderThenParse | src/chat/k3_chat.c:363-480 | rendering an assistant message and parsing what follows the generation opening returns it, with thinking on and off |
| Mxfp4.Exponent | tools/make_tiny_checkpoint.py:109-110 | the block maximum lands between four and eight units of the scale, and every float32 block has an exponent E8M0 can encode |
| Mxfp4.NearestValue | tools/make_tiny_checkpoint.py:112-116 | no signed E2M1 multiple of the scale is nearer to the element than the decoded one |
| Mxfp4.ErrorBound | tools/make_tiny_checkpoint.py:109-116 | every element is less than two units of its scale from its decoded value |
| Mxfp4.TableIsE2M1 | tools/make_tiny_checkpoint.py:112-113 | the value table is that of one sign bit, two exponent bits and one mantissa bit |
| Mxfp4.SameExponent | tools/make_tiny_checkpoint.py:109-150 | a quantised block has the exponent of the original |
| Mxfp4.Idempotent | tools/make_tiny_checkpoint.py:88-150 | quantising a second time changes no value |
| Mxfp4.UnpackPack | tools/make_tiny_checkpoint.py:117-145 | packing is undone, low nibble first |
| Mxfp4.Scales | tools/make_tiny_checkpoint.py:110-136 | scale bytes stay away from both ends, so the range check never fires and 255 is never written |
| Mxfp4.DequantRow | tools/make_tiny_checkpoint.py:141-150 | the output is table value times block multiplier, element by element |
| Mxfp4.RoundTripRow | tools/make_tiny_checkpoint.py:88-150 | a row through both directions: nearest values, the error bound, block by block |
| Mxfp4.Quant | tools/make_tiny_checkpoint.py:88-138 | refused exactly when every magnitude is zero |
| Trunk.CopyRun | tools/pack_trunk.py:119-128 | the chunked copy appends exactly the run, and fails exactly when the shard ends first |
| Trunk.PackLayer | tools/pack_trunk.py:84-157 | refused exactly when the layer has no tensors, spans shards, has a gap or is cut short |
| Trunk.Pack | tools/pack_trunk.py:84-157 | aligned runs that follow one another to the end of the file, each holding every tensor's own shard bytes |
| Trunk.RunsDisjoint | tools/pack_trunk.py:84-157 | different runs share no byte and end inside the file |
| Float32.Bf16Is | tools/int8_trunk.py:29-30 | the two bytes of a weight are a sign, eight bits of exponent and seven of fraction, subnormals included, and a number unless the exponent is all ones |
| Float32.Bf16Range | tools/int8_trunk.py:29-30 | a bfloat16 number is zero or at least 2^-133 in magnitude, and below 2^128 |
| Float32.RoundingError | tools/int8_trunk.py:37-37 | rounding to float32 is off by at most half a step of the binade, subnormals and the carry into the next binade included |
| Float32.RelativeError | tools/int8_trunk.py:37-37 | from 2^-140 on that is at most one part in 1024 |
| Float32.RoundingBelow128 | tools/int8_trunk.py:39-39 | rounding a quotient below 128 to float32 is off by at most 2^-18 |
| Trunk.ScaleIsRounded | tools/int8_trunk.py:36-38 | the scale stored is the maximum over 127 up to one part in 1024, one for a row of zeros, and large enough that no quotient exceeds 127.2 |
| Trunk.StoredIsClose | tools/int8_trunk.py:33-40 | dividing by the stored scale and rounding the quotient to float32 the clip never fires, and a stored element is within half the stored scale and one part in 262144 of it |
| Trunk.MatrixIsClose | tools/int8_trunk.py:33-44 | every element of a row of bfloat16 numbers reads back from the new bytes within that distance |
| Trunk.SortAscending | tools/int8_trunk.py:70-70 | new offsets are given out in the order of the old ones |
| Trunk.RelayRun | tools/int8_trunk.py:60-99 | refused exactly when the bytes of a matrix do not have its shape; otherwise the new run is aligned and holds every item's new bytes, one after the other |
| Trunk.RelaidReads | tools/int8_trunk.py:77-93 | an unquantised tensor is verbatim at its new offset, a quantised one is the encoding of its matrix |
| Trunk.RelaidIsClose | tools/int8_trunk.py:60-99 | a row of a quantised tensor, read from the new file at its new offset, is close to the row of the old file |
| Trunk.RelaidApart | tools/int8_trunk.py:77-93 | no two tensors of the new run share a byte |
| Trunk.Relayout | tools/int8_trunk.py:60-99 | the whole file, layer after layer: runs follow one another and each matches its source |

## Left out

- Kernels, tokenizer and tensor binding: uninterpreted functions; the KV rows and the recurrent state are values of any type, and the draft trunk is opaque (it may propose anything); which forward fails is not predicted.
- Floating-point rounding, SIMD and transcendental functions: `RefModel`, `Mxfp4` and `Trunk` work over the reals, with any positive function as the exponential. The roundings that are modelled are those of the int8 row scales and quotients to float32.
- Trunk.MatrixIsClose: infinities and NaNs in the weights are excluded.
- Batches of more than one sequence: the reference model is modelled for batch size one.
- ChatSession.Turn: does not model the non-incremental REPL, which is itself the session that reuses nothing, nor the zeroing of the KV buffers at a fresh start, since rows at or above `cached` are never read.
- ChatSession.Session: everything between two turns (reading a line, commands, rendering, writing the history) is one function of what was sampled so far.
- ChatSession.Prefix.Record: a write below the end keeps the old tail, as the code does; every caller writes at the end.
- Decode.Generate: the time, memory and expert statistics of the loop, the logits dump and the interrupt signal itself.
- StateFile.Load: the segments are placed after all of them have been read, not each as it is read, so the half-written buffers of a refused file are not modelled; nor are temporary files, renames and fsync.
- ChatSession.Prefix.Taint: nothing in the engine calls it; it is here because Reuse reads the flag it sets.
- ExpertCache.Cache.Get: the 64-bit clock never wraps; the trace and the histogram are kept but their files are not modelled.
- ExpertCache.Cache.Prefetch: a checkpoint that holds experts past the layer's last, which such an index could name, is not modelled.
- ExpertCache.Cache.Pin: an expert index past its layer names an expert of the next layer, as in the code.
- ExpertBatch.FetchAll: in the method itself an item is read whole before the next; the other interleavings are those of its log of calls. How much a call brings does not depend on the schedule.
- ExpertBatch.ReadPiece: a short piece is short by whole blocks or cut by the end of the file, which is what reads that bypass the page cache do.
- ExpertLoad.ExpertRef: the six lookups by formatted name arrive as their results; shapes are not truncated to 32 bits.
- SpanSweep.SweepSpans: the library sort is an insertion sort; header scanning, integer parsing and the bounds checks per entry are not part of this model.
- TensorIndex.Open: table sizes stay below the int range; reading directories and shard headers is not part of this model.
- ChatXtml.ParseAssistant: the marker patterns fit their fixed arrays, and decoded text stays below the 2 GiB limit.
- ChatXtml.Encode: the id buffer is never too small.
- ChatXtml.RenderThenParse: encoding a text with special tokens off is assumed to lose nothing and to yield no added ids.
- Trunk.Pack: finding a layer's tensors by name prefix; reading the json headers and writing the json manifests.
- Samplers, presets, argument parsing, reports, the HTTP bridge, the tokenizer and the platform shims: plumbing, or settled by reading one branch.
