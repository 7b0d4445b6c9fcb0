# A Dafny model of the hip-moi race detector

hip-moi instruments HIP kernels and finds races on LDS, the memory a workgroup shares. Every instrumented
access leaves a packed word in a table and compares it with what it finds there; barriers advance epochs;
atomics publish and import "this subgroup has seen that epoch" tokens that silence the comparison. This
project models that machinery and proves what it guarantees over whole runs. `dafny verify dfyconfig.toml`
checks all of it.

## What is modelled

* **The release/acquire protocol, interleaved** (`ReleaseTable`, `ReleaseTableInvariant`,
  `ReleaseTableSteps`, `ReleaseTableTheorems`, `ReleaseTableExact`, `ReleaseRequests`). The open-addressing table of
  atomic objects as a step system: every volatile read, compare-and-swap, plain store, atomicMax and
  generation store is a step of its own, and steps of any number of threads interleave freely under
  sequential consistency. An acquire may receive any answer from the producer cache.
* **The same code, run by one thread at a time** (`AtomicMap`, `AtomicContext`, `Diagnostics`). A class over
  slot, cache, token and epoch arrays with the probing and import loops, refined to a map from (address,
  producer) to the largest released epoch; `FencePrograms` lifts the fence rules to programs of many lanes, and
  `AtomicOrders` says which memory orders hand an epoch over.
* **The exact-shadow detector** (`ShadowWords`, `ShadowHistory`, `ExactShadow`, `DetectorMachine`). The packed
  codec, the class with one word per 4-byte cell proved faithful to the history of touches, and the
  interleaved machine with a barrier that advances the epochs one by one. `SimulatedBarrier` is the simulated
  workgroup barrier.
* **Protocol and detector together** (`Handoff`, `Workgroup`, `WorkgroupTheorems`, `WorkgroupReleases`,
  `WorkgroupRuns`). One machine in which lanes access shared memory, release, acquire, fence and meet at
  barriers, all interleaved: what it reports exactly, why ordered accesses are not reported, when a suppressed
  one deserves it, and runs that show its limits.
* **Programs between barriers** (`CleanPrograms`, `ProgramOrder`, `ProgramRuns`, `BarrierRemoval`). Programs as
  sets of accesses an interval, and as lists that each lane performs in order; exactly which of the latter the
  detector never reports, and which barriers they can do without.
* **Kernels that must be clean** (`AttentionSchedule`, `AttentionOrder`, `AttentionDataflow`,
  `SingleBufferSchedule`, `SingleBufferOrder`, `SingleBufferDataflow`, `Loops`). The two attention kernels, loop
  by loop, as such programs, and what each load of theirs finds.
* **What the kernels compute** (`Staging`, `StreamingSoftmax`). Cooperative staging, and the online softmax
  over the reals for any positive exponential with exp(a+b) = exp(a)exp(b).
* **Sampled watchpoints** (`SampledRanges`, `ProbeScan`, `SampledScan`, `SampledAccess`, `SampledMachine`,
  `LoomWatchpoints`, `LoomCoverage`, `LoomRequests`). Range chunking and the specialised path, the probe scan and
  its coverage, the reporting backend run by one thread and with publishers interleaved, and the benchmark's
  consumable entries as an interleaved machine, with what its scans cannot miss.
* **The host slab layout** (`HostLayout`), with every abort as a failure value.

Names of tables follow the source. Integers are unbounded except where the source's width matters (word
fields, the 32-bit probe arithmetic, int limits of the host). Bit fields are modelled arithmetically: disjoint
fields joined by `|` are a sum, mask and shift are remainder and quotient, `& (n - 1)` for a power of two is
`% n`. Hashes (first slot, cache line, watchpoint slot, scan step, lane selection) are arbitrary functions or
parameters, so every claim holds for any of them.

## Hypotheses the code needs

* The generation is not the CLAIMED marker, and slots left by earlier launches are neither CLAIMED nor of the
  current generation (one `init_workgroup` per generation).
* Subgroups of lanes lie below the subgroup capacity; the detector machine further needs them to have a
  stored epoch, so the configured subgroup count must not exceed the capacity.
* Epoch plus one, tokens and the diagnostic count do not wrap 32 or 31 bits.
* Shadow words left by other launches are empty or of another 20-bit generation.
* Where protocol and detector meet, and where a program is to be reported, the subgroup capacity is at most 1024, the
  width of the owner field.

## Where the code falls short of its description

* A probe count of 0 is documented to scan the whole watchpoint table (`include/hip_moi/host_context.hpp:34`). It does so exactly for
  capacities that are powers of two (`ZeroProbesScanWholeTable`); the host's own default capacity is not one
  (`DefaultTableIsNotAlwaysScanned`).
* Imports are said to cause no false positives (`docs/atomics.md:272-274`). Two lanes of one subgroup can leave
  two records of one key. Some record is always found, but the latest epoch can be hidden when a fence armed
  before a barrier is published beside a newer release (`StaleFenceHidesLatestEpoch`), and then a synchronised
  access is reported (`SynchronisedAccessIsReported`, a run of the joint machine). `LatestFoundExactly` and
  `SynchronisedIsSuppressedExactly` give the configurations in which this cannot happen,
  `FreshFencesAreDisciplined` the programs.
* Epochs are kept in ten bits, so accesses 1024 barriers apart are taken for concurrent
  (`BarrierSeparatesExactly`, `WrapIsReported`). A program that touches every reused cell in between is safe
  (`CleanProgramsAreNeverReported`); `NeverReportedExactly` says which programs are, program order included: a load
  after the store may hide it (`LoadHidesStoreAcrossWrap`).
* The exact shadow keeps only the last access of a cell: write by A, read by A, read by B is not reported
  (`ReadHidesWrite`, `ReadHidesStore`). The model claims the exact characterisation by successive touches
  (`ReportedExactly`), not completeness.
* A token covers a whole producer epoch, so accesses made after the release in the same epoch are suppressed too
  (`StoreAfterReleaseIsSuppressed`); and suppression compares it with a ten-bit epoch, so it reaches epochs that
  were never imported (`WrappedEpochIsSuppressed`). `SuppressedExactly` says when a pair is suppressed, and
  `SuppressedWithoutCoverExactly` when that is without an import of its epoch. Accesses that come before all
  releases of their epoch are suppressed only as they deserve (`SuppressedIsJustified`).

## Model

| member | source | states |
|---|---|---|
| ReleaseTableTheorems.StepKeeps | include/hip_moi/context.hpp:614-783 | every single step of any thread (volatile read, compare-and-swap, plain store, atomicMax, generation store, token update), every fence, acquire start and barrier keeps the protocol invariant, in both strengths of the invariant |
| ReleaseTableTheorems.RunKeeps | include/hip_moi/context.hpp:614-983 | the invariant holds after every run from any state that satisfies it |
| ReleaseTableTheorems.PublishedIsNeverMissed | include/hip_moi/context.hpp:685-728 | in every interleaving, a lookup that began after a record of its key was published never ends empty, for any hash, any capacity and any number of concurrent releases, duplicates included |
| ReleaseTableTheorems.AcquireImportsEveryProducer | include/hip_moi/context.hpp:864-983 | a finished acquire leaves its subgroup a token for every other subgroup that had published on the address before the acquire began, whatever the producer cache answered |
| ReleaseTableTheorems.AcquireImportsLatestEpoch | include/hip_moi/context.hpp:758-983 | if concurrent releases of one key carry one epoch, or the table has a single slot, that token covers the latest epoch published before the acquire began |
| ReleaseTableTheorems.FreshFencesAreDisciplined | include/hip_moi/context.hpp:841-862 | that condition holds by itself in every run in which no armed fence is carried over a barrier |
| ReleaseTableTheorems.TokensAreEarned | include/hip_moi/context.hpp:946-983 | in every run, a token of e+1 for (consumer, producer) goes back to a release of exactly epoch e by that producer, recorded on an address the consumer imported from later; e never exceeds the epoch of the producer |
| ReleaseTableTheorems.TokenMeansImport | include/hip_moi/context.hpp:966-983 | in every run, the token of (consumer, producer) is at least e+1 if and only if the consumer has imported a release of the producer of an epoch at least e, from any address |
| ReleaseTableTheorems.DroppedOnlyWhenFull | include/hip_moi/context.hpp:614-683 | a release gives up with metadata_full only in runs that leave no stale slot anywhere in the table |
| ReleaseTableTheorems.SlotsOnlyAdvance | include/hip_moi/context.hpp:614-783 | over any stretch of any run a slot in use stays in use, a published slot stays published with the same key, and its epoch never falls |
| ReleaseRequests.OutcomesAreAskedFor | include/hip_moi/context.hpp:614-983 | in every run, each recorded or published release goes back to one release or fenced store that a thread of that subgroup began at that address, with the epoch of that moment or of the moment its fence was last armed, counted in barriers; each drop, miss, import and finished acquire likewise goes back to the event that asked for it |
| ReleaseRequests.EveryRequestSettles | include/hip_moi/context.hpp:614-983 | in every run each release asked for is published, dropped or in flight, and each acquire has ended or is in flight: nothing is lost or done twice |
| ReleaseRequests.GivesUpTheFourthTime | include/hip_moi/context.hpp:628-683 | meeting a slot that is being filled in at the end of its path, a release starts over three times from the first slot, and reports metadata_full the fourth |
| ReleaseTableExact.StaleFenceHidesLatestEpoch | include/hip_moi/context.hpp:847-862 | in every configuration with two lanes in one subgroup, a lane in another and two slots there is a run that loses the latest epoch: a fence armed before a barrier is published beside a newer release of the same key, and a later acquire does not find the newer epoch |
| ReleaseTableExact.LatestFoundExactly | include/hip_moi/context.hpp:614-983 | for every configuration: all runs find the latest epoch if and only if the table has a single slot, every subgroup has a single lane, or only one subgroup has lanes |
| ReleaseTableExact.DisciplinedFindsLatest | include/hip_moi/context.hpp:758-983 | every run whose concurrent releases of one key carry one epoch, and every run over a single slot, finds the latest epoch at every acquire |
| ReleaseTableExact.OneLaneIsDisciplined | include/hip_moi/context.hpp:758-783 | with one lane per subgroup, concurrent releases of one key always carry one epoch |
| ReleaseTableSteps.ClaimKeeps | include/hip_moi/context.hpp:645-660 | winning the compare-and-swap keeps the invariant: the claimed slot is the first stale one its claimant could use |
| ReleaseTableSteps.WriteKeeps | include/hip_moi/context.hpp:661-783 | each of the seven stores of a claimant or re-user of a slot keeps the invariant, in particular the generation store that publishes it |
| ReleaseTableSteps.RaiseTokenKeeps | include/hip_moi/context.hpp:966-983 | the atomicMax into the token matrix keeps the invariant |
| AtomicMap.FullMeansCapacityKeys | include/hip_moi/context.hpp:614-683 | a sound table holds at most as many keys as slots, and as many exactly when every slot is live |
| AtomicMap.AddKey | include/hip_moi/context.hpp:614-683 | filling the first stale slot of a live probe path adds exactly that key to the map the table stands for, and keeps the table sound |
| AtomicMap.RaiseKey | include/hip_moi/context.hpp:758-783 | rewriting the epoch of a live slot updates exactly that key of the map |
| AtomicMap.BarrierBetweenFenceAndStore | include/hip_moi/context.hpp:847-862 | with a barrier in between, whatever fence was armed before, the older epoch is published; the result equals the releasing store with the fence gone if and only if the table already held a later epoch for the key, or is full without it |
| FencePrograms.QuietSubgroupPublishesNothing | include/hip_moi/context.hpp:415-454 | in programs of any number of lanes, a subgroup whose lanes only load, fail exchanges and fence has no record added, dropped or raised, whatever the others do |
| FencePrograms.FenceCommutes | include/hip_moi/context.hpp:250-472 | loads, failed exchanges, releasing publications and fences of a lane, and any steps of others but barriers, end in the same world whether or not the lane had armed a fence in this epoch before them, but for the fence; those that arm none leave any armed fence as it is |
| AtomicMap.HandoffRaisesToken | include/hip_moi/context.hpp:250-269 | a release by one subgroup and an acquire by another leave a token above the released epoch in the consumer's row and touch no other row |
| AtomicOrders.OrdersHandOver | include/hip_moi/common.hpp:234-244 | in programs of any number of lanes: a store, read-modify-write or successful exchange with release, acq_rel or seq_cst, or a fence with one of these and a later publication of any order, then a load, read-modify-write or exchange (by its failure order if it fails) with acquire, acq_rel or seq_cst, or a read of any order and a later fence with one of these, leave the consumer a token above the epoch of the first act, whatever all lanes do between and afterwards |
| AtomicOrders.TokensNeverRunAhead | include/hip_moi/context.hpp:228-472 | in every program a token is zero unless another subgroup than its holder has a record that backs it, no record is ahead of its producer's epoch, and so no token is above that epoch plus one |
| AtomicOrders.OtherOrdersDoNothing | include/hip_moi/common.hpp:234-244 | with no fence armed, relaxed and acquire publications record nothing; relaxed and release reads and fences import nothing; relaxed and acquire fences arm nothing |
| AtomicContext.Context.constructor | include/hip_moi/context.hpp:125-129 | a new lane context has the given configuration, subgroup counts and arrays, and starts from the map its slots stand for, with no fence armed and no address observed |
| AtomicContext.Context.Find | include/hip_moi/context.hpp:685-728 | finds a slot if and only if the map has the key, and then the live slot of that key |
| AtomicContext.Context.FindOrClaim | include/hip_moi/context.hpp:614-683 | returns the live slot of the key, else claims the first stale slot of its probe path, else (table absent or every slot live for another key) reports metadata_full and changes nothing |
| AtomicContext.Context.FillAndPublish | include/hip_moi/context.hpp:758-783 | the record ends up current, under the key, with the maximum of the old and the released epoch |
| AtomicContext.Context.RecordRelease | include/hip_moi/context.hpp:758-783 | the release is a join by maximum on exactly one key of the map; it is reported, with its address and size, if and only if the key is new and the map already has as many keys as slots |
| AtomicContext.Context.ImportFrom | include/hip_moi/context.hpp:966-983 | one producer's record raises exactly one token to its epoch plus one, never lowering it |
| AtomicContext.Context.ImportFromCache | include/hip_moi/context.hpp:896-944 | whatever the cache line holds, only producers with a live record are imported, and exactly those are marked |
| AtomicContext.Context.ImportFromTable | include/hip_moi/context.hpp:946-964 | completes any set of imported producers to the full acquire, subgroup capacities above 64 included |
| AtomicContext.Context.TryAcquire | include/hip_moi/context.hpp:864-894 | the token matrix and the answer are those of a table-only acquire, for all cache contents |
| AtomicContext.Context.RecordAcquire | include/hip_moi/context.hpp:1003-1016 | with any positive number of retries the result is that of one acquire |
| AtomicContext.Context.ConsumePendingFence | include/hip_moi/context.hpp:847-862 | publishes the epoch the fence was armed in, at most once |
| AtomicContext.Context.Load | include/hip_moi/context.hpp:228-248 | refines the map-level load for every order |
| AtomicContext.Context.Store | include/hip_moi/context.hpp:250-269 | refines the map-level store for every order |
| AtomicContext.Context.ReadModifyWrite | include/hip_moi/context.hpp:271-413 | refines the map-level read-modify-write for every order |
| AtomicContext.Context.CompareExchange | include/hip_moi/context.hpp:415-454 | refines the map-level compare-exchange for every pair of orders and either outcome |
| AtomicContext.Context.Fence | include/hip_moi/context.hpp:456-472 | refines the map-level fence for every order |
| AtomicContext.Context.AdvanceEpochs | include/hip_moi/context.hpp:1527-1541 | every subgroup below both the capacity and the larger of the configured count and one advances by one epoch, every other keeps its epoch; tied to the map-level barrier as well |
| FencePrograms.ReleaseFenceRefines | include/hip_moi/context.hpp:250-472 | in programs of any number of lanes: release fence, then any steps that are no barrier and by that lane only loads, failed exchanges, fences and releasing publications, then its store, read-modify-write or successful exchange without release, end in the same world as without the fence and with release added to that operation, but for the armed fence, which is gone |
| FencePrograms.AcquireFenceRefines | include/hip_moi/context.hpp:456-472 | relaxed load, then any barriers, any steps of other lanes, and by the lane stores, release fences, and loads, read-modify-writes and exchanges of the same address, then acquire fence, end in the same world as the acquire load at the place of the fence |
| Handoff.HandoffIsSuppressed | include/hip_moi/context.hpp:1034-1053 | an access of the producer up to the released epoch is never reported against the consumer once the acquire has finished, in every run whose concurrent releases of one key carry one epoch (or with a single slot) |
| Handoff.SuppressionIsEarned | include/hip_moi/context.hpp:1034-1053 | in every run, a suppressed pair goes back to a recorded release of the earlier subgroup, no older than the earlier access modulo 1024, imported by the later subgroup |
| Handoff.SuppressedExactly | include/hip_moi/context.hpp:1034-1053 | in every run, a pair is suppressed if and only if the later subgroup has imported a release of the earlier one of an epoch at least that of the earlier access modulo 1024 |
| Handoff.SuppressedWithoutCoverExactly | include/hip_moi/context.hpp:1034-1053 | a pair is suppressed without an import that covers the earlier epoch exactly when there are imports from its ten-bit epoch on but none from the epoch itself on; below epoch 1024 suppression is exact by epoch |
| Handoff.SynchronisedIsSuppressedExactly | include/hip_moi/context.hpp:614-1053 | for every configuration: in all runs all synchronised accesses are suppressed if and only if the table has a single slot, every subgroup has a single lane, or only one subgroup has lanes |
| Workgroup.StepKeeps | include/hip_moi/context.hpp:614-1163 | with protocol and detector in one machine, every step of an acquire, release, fence, access, check or barrier keeps the joint invariant: each check saw exactly the imports logged before it |
| WorkgroupTheorems.ReportedExactly | include/hip_moi/context.hpp:1034-1163 | in every run of the joint machine a check reports its touch if and only if the previous touch of the cell races with it and the checking subgroup had not, by then, imported a release of the earlier subgroup from the earlier ten-bit epoch on |
| WorkgroupTheorems.HandedOverIsNeverReported | include/hip_moi/context.hpp:1034-1163 | if concurrent releases of one key carry one epoch (or with a single slot), an access whose predecessor was handed over by release and acquire before the check is never reported |
| WorkgroupTheorems.OrderedRunsAreNeverReported | include/hip_moi/context.hpp:524-530 | under the same condition, a run in which any two successive accesses of a cell that conflict, in whatever epochs, are ordered by barriers (not a multiple of 1024) or by a handoff is never reported |
| WorkgroupReleases.SuppressedIsJustified | include/hip_moi/context.hpp:1034-1163 | in every run, an access that came before all recorded releases of its epoch (below 1024) by its subgroup is silenced against a racing successor if and only if that one's subgroup had by then imported a release recorded after the access |
| WorkgroupRuns.StoreAfterReleaseIsSuppressed | include/hip_moi/context.hpp:1034-1053 | in every configuration with two subgroups: a run in which a store made after the release, followed by no other, is suppressed against a racing store of the same epoch by the acquiring subgroup |
| WorkgroupRuns.ReleasingAgainJustifiesNothing | include/hip_moi/context.hpp:1034-1053 | a run in which every access is followed by another release of its epoch, and yet a racing store is suppressed that no import justifies |
| WorkgroupRuns.WrappedEpochIsSuppressed | include/hip_moi/context.hpp:1034-1053 | a run in which racing stores in epoch 1024 are suppressed although only epoch 0 was ever imported |
| WorkgroupRuns.SynchronisedAccessIsReported | include/hip_moi/context.hpp:847-862 | in every configuration with two lanes in one subgroup, a lane in another and two slots: a run that reports a store handed over by release and acquire before the check |
| WorkgroupRuns.ReadHidesStore | include/hip_moi/context.hpp:1120-1163 | a run in which A stores and loads a cell and B loads it in one epoch: store and last load race and nothing is reported |
| ShadowWords.ExactRoundTrip | include/hip_moi/shadow.hpp:107-140 | decoding an exact word returns every field cut to its width |
| ShadowWords.ExactWordRoundTrip | include/hip_moi/shadow.hpp:107-140 | packing what any 64-bit word decodes to returns the word |
| ShadowWords.SampledRoundTrip | include/hip_moi/shadow.hpp:202-257 | decoding a sampled word returns kind, owner, epoch and generation cut to their widths, and the start and the count unchanged if and only if they fit the encoding |
| ShadowWords.FittingRoundTrip | include/hip_moi/shadow.hpp:202-257 | for a range that fits, the decoded entry is the packed one in every field |
| ShadowWords.OverlapMeansSharedCell | include/hip_moi/shadow.hpp:259-272 | the interval test on two nonempty ranges holds if and only if they share a cell |
| ShadowWords.ExactFields | include/hip_moi/shadow.hpp:69-140 | cut from its low end into 3, 10, 10, 20 and 21 bits, a word gives kind, owner, epoch, generation and site |
| ShadowWords.SampledFields | include/hip_moi/shadow.hpp:153-257 | cut from its low end into 1, 1, 3, 10, 10, 20, 14 and 5 bits, a word gives the valid and consumed bits, kind, owner, epoch, generation, start and count less one |
| ShadowWords.KindsConflictTable | include/hip_moi/shadow.hpp:45-62 | two kinds conflict unless one is empty, both are reads or both are atomics, in either order |
| Diagnostics.DiagnosticBuffer.Emit | include/hip_moi/common.hpp:209-224 | every report is counted, and the buffer holds the first ones that fit |
| ShadowHistory.WordsConflict | include/hip_moi/shadow.hpp:142-150 | two packed accesses conflict if and only if they are of one 10-bit epoch and different 10-bit owners with a write among them |
| ShadowHistory.CheckMeansToReport | include/hip_moi/context.hpp:1120-1163 | checking the exchanged word decides the same as checking the previous touch of the cell in the history |
| ShadowHistory.CoversTouched | include/hip_moi/context.hpp:1120-1163 | the cells an access covers are those of its bytes |
| ExactShadow.ConflictsName | include/hip_moi/context.hpp:1543-1563 | the expected reports are one for each pair of successive, racing, unordered touches of a cell, naming the earlier subgroup and the cell first and the later subgroup, offset and size second |
| ExactShadow.Detector.constructor | include/hip_moi/context.hpp:125-129 | a detector over words of other generations starts with an empty history and is faithful to it |
| ShadowWords.AcquiredPriorEpoch | include/hip_moi/context.hpp:1034-1053 | answers, for any matrix or none, whether the token of the current subgroup for the prior one covers the prior epoch |
| ExactShadow.Detector.TouchCell | include/hip_moi/context.hpp:1148-1162 | one exchange and check appends the touch and keeps the conflict reports equal to what the history calls for |
| ExactShadow.Detector.RecordAccess | include/hip_moi/context.hpp:1120-1163 | an access appends one touch per covered cell in order, or is counted as rejected when it does not fit; in both cases the conflict reports stay exactly, in order, those of the history, and every other report is a rejection: a metadata_full with the access's epoch, subgroup, offset and size |
| ExactShadow.Detector.CloseEpoch | include/hip_moi/context.hpp:1527-1541 | closing an epoch advances exactly the stored subgroups and disturbs neither words nor reports |
| ExactShadow.TouchAdds | include/hip_moi/context.hpp:1148-1162 | what one exchange and check adds to the expected reports: one report if the exchanged word conflicts and is not ordered, none otherwise |
| DetectorMachine.StepKeeps | include/hip_moi/context.hpp:1120-1163 | every exchange, check, token rise and single epoch increment of the interleaved detector keeps its invariant |
| DetectorMachine.EmissionsAreExact | include/hip_moi/context.hpp:1120-1163 | in every interleaving each touch is judged at most once, and once all lanes are ready exactly once; it is reported if and only if its predecessor on the cell conflicts and was not acquired by the tokens seen at the check |
| DetectorMachine.EmissionMeansConflict | include/hip_moi/context.hpp:1120-1163 | every report comes from two successive touches of one cell by different subgroups, one a write, not ordered by the tokens, with epochs a multiple of 1024 apart (equal when less than 1024 apart) |
| DetectorMachine.BarrierSeparatesExactly | include/hip_moi/context.hpp:524-530 | a conflicting, unordered pair of successive touches is reported if and only if the number of barriers between them is a multiple of 1024 |
| SimulatedBarrier.RoundsCloseOrReport | include/hip_moi/context.hpp:474-505 | over any rounds and arrival orders, the epochs advance once for each round with the expected number of participants, and every other round, and no other, is reported with the number that came |
| SimulatedBarrier.EveryArrivalIsCounted | include/hip_moi/context.hpp:474-505 | everybody who takes part is counted once, in the round of the arrival, and nobody else is |
| CleanPrograms.CleanIsNeverReported | include/hip_moi/context.hpp:1120-1163 | a barrier-phased program whose lanes perform their accesses of an interval in any order, and as often as they like, is never reported, in any interleaving and with any tokens, if conflicting accesses of a cell by two subgroups, in one interval or a multiple of 1024 intervals apart, always have a touch of the cell in an interval strictly between them |
| CleanPrograms.CleanProgramsAreNeverReported | include/hip_moi/context.hpp:1120-1163 | in particular one that is race free within intervals and touches every reused cell within 1024 of them |
| ProgramOrder.StepKeeps | include/hip_moi/context.hpp:1120-1163 | with every lane performing a given list of accesses an interval, in order and each once, each exchange, check and barrier step keeps what the lanes have done and in which order |
| ProgramOrder.NeighboursAcross | include/hip_moi/context.hpp:1120-1163 | in every such run, two successive touches of a cell in different intervals are the last access of the cell by one lane in its interval and the first by the other in its, and no interval in between touches the cell |
| ProgramRuns.RaceIsReported | include/hip_moi/context.hpp:1120-1163 | whatever races is reported in some run in program order: a store against another subgroup's access in the same interval, or, a multiple of 1024 intervals apart with no touch in between, a lane's last access of the cell against another subgroup lane's first |
| ProgramRuns.NeverReportedExactly | include/hip_moi/context.hpp:1120-1163 | for every program in program order whose accesses fit the shadow, started without tokens: no run of it is reported if and only if nothing in it races in that sense |
| ProgramRuns.WrapIsReported | include/hip_moi/shadow.hpp:78-81 | of two stores with exactly 1024 barriers between them the second is reported against the first in some run |
| ProgramRuns.LoadHidesStoreAcrossWrap | include/hip_moi/shadow.hpp:78-81 | if the storing lane loads the cell again before the barrier and the other lane loads it 1024 barriers later, no run is reported |
| CleanPrograms.MergedIsRaceFree | include/hip_moi/context.hpp:524-530 | leaving out one barrier (later intervals move up) keeps a race-free program race free if and only if subgroups share no written cell across it |
| CleanPrograms.MergedIsDense | include/hip_moi/context.hpp:524-530 | leaving out one barrier of a program that touches every reused cell within 1024 intervals, with one to spare on both sides, keeps that density |
| BarrierRemoval.BarrierIsSpare | include/hip_moi/context.hpp:524-530 | for every program, in whatever program order, that is race free and touches every reused cell within 1024 intervals with one to spare: with one barrier left out (the two intervals of each lane joined in order, later ones moved up) no run of it is reported if and only if no two subgroups share a written cell across that barrier |
| AttentionSchedule.CellsCarryTags | benchmarks/012_rdna4_d128_attention_pressure_benchmark.hip:255-306 | the shared-memory regions of both tile shapes do not overlap: a covered cell belongs to the fragment or row block of the operation |
| AttentionSchedule.ScheduleIsRaceFree | benchmarks/012_rdna4_d128_attention_pressure_benchmark.hip:854-1071 | for every number of key tiles and both tile shapes, subgroups that share a cell between two barriers only read it |
| AttentionSchedule.ScheduleIsDense | benchmarks/012_rdna4_d128_attention_pressure_benchmark.hip:854-1071 | every cell touched in epochs 1024 or more apart is touched in between |
| AttentionSchedule.AttentionIsNeverReported | benchmarks/012_rdna4_d128_attention_pressure_benchmark.hip:854-1071 | for every number of key tiles, both tile shapes and every interleaving of the 64 threads the exact detector reports nothing in the kernel |
| AttentionOrder.KernelOpsAreScheduled | benchmarks/012_rdna4_d128_attention_pressure_benchmark.hip:854-1088 | the loops of the kernel, listed in program order, perform exactly the operations of the schedule, for every thread, interval and number of tiles |
| AttentionOrder.KernelOpsInOrder | benchmarks/012_rdna4_d128_attention_pressure_benchmark.hip:854-1088 | the program order in closed form: which access a thread makes as the i-th of a barrier interval |
| AttentionDataflow.EveryByteHasOneElement | benchmarks/012_rdna4_d128_attention_pressure_benchmark.hip:52-106 | the shared arrays fill the shared memory: every byte belongs to exactly one element of one array, for both tile shapes |
| AttentionDataflow.EveryElementHasOneWriter | benchmarks/012_rdna4_d128_attention_pressure_benchmark.hip:854-1088 | in each interval that writes it, an element is written by exactly one thread, the one the matrix layout calls for |
| AttentionDataflow.LoadsFindTheirTile | benchmarks/012_rdna4_d128_attention_pressure_benchmark.hip:854-1088 | every load finds what its own tile stored: the element was written in an earlier interval of the tile and by nobody since |
| AttentionOrder.KernelIsNeverReported | benchmarks/012_rdna4_d128_attention_pressure_benchmark.hip:854-1088 | no run of the kernel in program order is reported |
| AttentionOrder.OnlyStagingBarrierIsNeeded | benchmarks/012_rdna4_d128_attention_pressure_benchmark.hip:854-1071 | with one of the four barriers a tile left out, every thread still in program order, no run of the kernel is reported if and only if it is not the barrier after staging; otherwise some run is |
| SingleBufferSchedule.ScheduleIsRaceFree | benchmarks/011_rdna4_d128_attention_block_benchmark.hip:784-976 | the single-buffer kernel is race free between barriers for every number of key tiles |
| SingleBufferSchedule.SingleBufferIsNeverReported | benchmarks/011_rdna4_d128_attention_block_benchmark.hip:784-976 | the exact detector reports nothing in the single-buffer kernel, in any interleaving |
| SingleBufferOrder.KernelOpsAreScheduled | benchmarks/011_rdna4_d128_attention_block_benchmark.hip:789-976 | the loops of the kernel, listed in program order, perform exactly the operations of the schedule |
| SingleBufferOrder.KernelOpsInOrder | benchmarks/011_rdna4_d128_attention_block_benchmark.hip:789-976 | the program order in closed form |
| SingleBufferDataflow.EveryByteHasOneElement | benchmarks/011_rdna4_d128_attention_block_benchmark.hip:51-64 | every byte of the shared memory belongs to exactly one element of one array |
| SingleBufferDataflow.LoadsFindTheirInterval | benchmarks/011_rdna4_d128_attention_block_benchmark.hip:784-976 | every load finds what was written in the interval just before it (in the softmax of the last tile for the final division), and by nobody since; eight fragments of K and of V a tile |
| SingleBufferOrder.KernelIsNeverReported | benchmarks/011_rdna4_d128_attention_block_benchmark.hip:789-976 | no run of the kernel in program order is reported |
| SingleBufferOrder.BarriersAroundFragmentsAreNeeded | benchmarks/011_rdna4_d128_attention_block_benchmark.hip:784-976 | with one barrier left out, every thread still in program order, no run of the kernel is reported if and only if that barrier is not next to a use of the K or V fragment; otherwise some run is |
| Staging.StageThread | benchmarks/012_rdna4_d128_attention_pressure_benchmark.hip:856-898 | one thread's stride loop writes exactly the elements of its residue in the active buffer, each from the tile's fragments, and nothing else |
| Staging.StagingIsExact | benchmarks/012_rdna4_d128_attention_pressure_benchmark.hip:856-898 | in every interleaving of the 64 loops each element of the active buffer is written exactly once and is the element of that lane, fragment and subtile in the global array, in which subtiles follow each other, fragments within them, lanes within those; the other buffer is untouched |
| Staging.BothCandidatesStageAlike | benchmarks/012_rdna4_d128_attention_pressure_benchmark.hip:865-889 | one global array serves both tile shapes: tile t with two subtiles holds as its subtile s what tile 2t + s with one subtile holds, fragment by fragment and lane by lane |
| Staging.StagedTileIsConsecutive | benchmarks/012_rdna4_d128_attention_pressure_benchmark.hip:865-889 | a staged tile is one consecutive piece of the global array: its element x is lane x % 32 of fragment x / 32 % 8 of subtile x / 256 |
| StreamingSoftmax.MaxOfIsMaximum | benchmarks/012_rdna4_d128_attention_pressure_benchmark.hip:944-955 | the maximum bounds every score of the tile and is one of them, or the sentinel |
| StreamingSoftmax.TileMax | benchmarks/012_rdna4_d128_attention_pressure_benchmark.hip:944-953 | the first inner loop finds the maximum of a tile, over the initial sentinel |
| StreamingSoftmax.SentinelIsLeastFinite | benchmarks/012_rdna4_d128_attention_pressure_benchmark.hip:848-852 | the initial running maximum is the least finite single-precision number |
| StreamingSoftmax.OldScaleMovesReference | benchmarks/012_rdna4_d128_attention_pressure_benchmark.hip:955-958 | a row that has accumulated nothing is rescaled by zero; any other scale moves the reference from the old to the new maximum |
| StreamingSoftmax.TileWeights | benchmarks/012_rdna4_d128_attention_pressure_benchmark.hip:966-983 | the second inner loop stores the rounded weights of the tile and sums the rounded values |
| StreamingSoftmax.Tile | benchmarks/012_rdna4_d128_attention_pressure_benchmark.hip:944-1054 | one tile rescales sum and accumulator by the same factor and adds the tile's weights to both |
| StreamingSoftmax.Stream | benchmarks/012_rdna4_d128_attention_pressure_benchmark.hip:845-1071 | after any tiles, with any rounding, sum and accumulator carry identical effective weights, and the running maximum is the maximum seen |
| StreamingSoftmax.EffectiveIsBatch | benchmarks/010_rdna4_wmma_attention_block_benchmark.hip:765-915 | without rounding, the effective weights are exp(s - running maximum) for every key |
| StreamingSoftmax.StreamIsBatchSoftmax | benchmarks/012_rdna4_d128_attention_pressure_benchmark.hip:845-1071 | over the reals the final quotient is the batch softmax, for any reference and any cutting of the keys into tiles |
| StreamingSoftmax.NormalizerPositiveExactly | benchmarks/012_rdna4_d128_attention_pressure_benchmark.hip:845-1071 | with any rounding that keeps weights nonnegative and any scores with one not below the sentinel, the normalizer is positive if and only if the rounding keeps 1 positive |
| StreamingSoftmax.OutputWithinValues | benchmarks/012_rdna4_d128_attention_pressure_benchmark.hip:845-1071 | with such a rounding and such scores, the output is a weighted mean and stays within the range of the values |
| StreamingSoftmax.RoundedOutputWithinValues | benchmarks/012_rdna4_d128_attention_pressure_benchmark.hip:845-1071 | for any scores and any rounding that keeps weights nonnegative, the same holds whenever the normalizer is not zero |
| SampledRanges.ChunksTile | include/hip_moi/context.hpp:1193-1203 | the chunk loop cuts a cell range into consecutive chunks of 1 to 32 cells, as few as possible |
| SampledRanges.TouchedCells | include/hip_moi/context.hpp:1183-1187 | a cell is touched by one of the bytes if and only if it lies between start and end cell |
| SampledRanges.PublishedWordsAreTheAccess | include/hip_moi/shadow.hpp:202-257 | decoding the published words gives disjoint ascending ranges whose union is exactly the cells the bytes touch, with the other fields cut to their widths |
| SampledRanges.OneRange | include/hip_moi/sampled_watchpoint_context.hpp:336-352 | where the specialised path publishes one range, the loop publishes that range and no other, and both reject the same offsets |
| SampledRanges.PublishContext.PublishCells | include/hip_moi/sampled_watchpoint_context.hpp:310-320 | the loop publishes the chunks in order, each at the slot of its start cell |
| SampledRanges.PublishContext.RecordAccessAt | include/hip_moi/sampled_watchpoint_context.hpp:277-321 | the run-time path publishes the ranges of the access, or nothing if unselected, unavailable, empty or out of range |
| SampledRanges.PublishContext.RecordAccessOfSize | include/hip_moi/sampled_watchpoint_context.hpp:323-381 | the specialised path leaves the same table and published ranges as the run-time path, for every size and offset |
| ProbeScan.WrapInvisible | include/hip_moi/context.hpp:1451 | in a table of a power of two the 32-bit wrap of the probe arithmetic does not show |
| ProbeScan.PowerOfTwoScan | include/hip_moi/context.hpp:1449-1462 | in such a table no scan visits an index twice, for any slot and seed, and as many probes as entries visit every index |
| ProbeScan.OtherScansMiss | include/hip_moi/context.hpp:1419-1429 | for every other capacity there is a seed whose scan of the whole table misses an entry |
| ProbeScan.ZeroProbesScanWholeTable | include/hip_moi/context.hpp:1441-1447 | a configured probe count of 0 scans the whole table from every slot and seed if and only if the capacity is a power of two |
| SampledScan.ScanHitsExact | include/hip_moi/context.hpp:1449-1462 | a scan reports a visited index if and only if its entry conflicts and is not ordered, and once if it is visited once |
| SampledScan.PublishReportsConflicts | include/hip_moi/context.hpp:1319-1355 | a publish reports exactly the unordered conflicts among the displaced entry and the visited ones, never its own entry |
| SampledScan.ZeroProbeCountReportsAll | include/hip_moi/context.hpp:1319-1355 | with probe count 0 and a capacity that is a power of two, a publish reports every conflicting, unordered entry of the table exactly once, and nothing else |
| SampledScan.HitMeansRace | include/hip_moi/shadow.hpp:274-284 | a published word is reported against another if and only if the accesses share a cell, the epoch and the generation, come from different subgroups, one a write, and are not ordered by the tokens |
| SampledAccess.HitsAreRaces | include/hip_moi/context.hpp:1319-1355 | the word an earlier access published is reported by a publish if and only if that looks at its slot, the two accesses race, and the tokens do not order them |
| SampledAccess.AccessIsPublishedAndJudged | include/hip_moi/context.hpp:1165-1204 | an access that fits leaves, in the slot of each of its ranges, a word that decodes to the range, a load as kind 1 and a store as kind 2, with its subgroup, epoch and generation, and every other word as it was; it reports exactly the clashing words that its ranges look at and it has not overwritten, each with both subgroups, byte addresses and sizes |
| SampledAccess.OtherAccessesLeaveTable | include/hip_moi/context.hpp:1165-1192 | empty and unselected accesses do nothing; without a table, or with a byte beyond 64 KiB, an access is reported as metadata_full with its epoch, subgroup, offset and size; the table stays as it was |
| SampledAccess.LoadsNeverConflict | include/hip_moi/shadow.hpp:37-62 | whatever subgroups and tokens, loading from a table of loads reports no conflict and leaves a table of loads |
| SampledAccess.PublishOnlyLeaves | include/hip_moi/sampled_watchpoint_context.hpp:277-381 | the publish-only context leaves the same table, so its words say what the access is, too |
| SampledScan.Watchpoints.CheckWord | include/hip_moi/context.hpp:1344-1351 | emits one report if and only if the word is an unordered conflict |
| SampledScan.Watchpoints.Scan | include/hip_moi/context.hpp:1431-1463 | the probe loop emits the reports of its visited indices, in probing order |
| SampledScan.Watchpoints.RecordRange | include/hip_moi/context.hpp:1319-1355 | publishing a range exchanges one slot and, if conflicts are to be reported and can be kept, emits the displaced report and the scan's reports over the table before the publish |
| SampledScan.Watchpoints.RecordAccess | include/hip_moi/context.hpp:1055-1204 | an access is nothing if empty, else one publish per chunk, each seeing the table the previous one left, or a metadata_full report when it cannot be encoded or the table is absent; for storage with and without conflict reports, and with and without a diagnostic buffer |
| SampledMachine.StepKeeps | include/hip_moi/context.hpp:1319-1463 | with publishers interleaved, every exchange, read of a slot, token check and token rise keeps what each publication has looked at, and what it found there |
| SampledMachine.LaterJudgesEarlier | include/hip_moi/context.hpp:1319-1463 | in every interleaving, of two publications the later one, once finished with a scan that covers the table, has looked at the earlier one and reported it exactly if it was an unordered conflict, unless a third had taken its slot before the look |
| SampledMachine.RacingPublicationIsReported | include/hip_moi/context.hpp:1319-1463 | with a power of two of slots and probe count 0, whatever the hashes: racing ranges are reported by the later one in every interleaving unless its tokens order them or a third displaced the earlier one before the look |
| SampledMachine.ExchangesAreHandled | include/hip_moi/context.hpp:1319-1463 | the publications of a run are those of its exchanges, in order, and each has done its scan once all threads are idle |
| SampledMachine.ReportsAreHits | include/hip_moi/context.hpp:1319-1463 | in every interleaving, a report is about an unordered conflict with the word of another publication or an initial word |
| LoomWatchpoints.ConsumeKeepsFields | benchmarks/012_rdna4_d128_attention_pressure_benchmark.hip:536-541 | setting the consumed bit changes no other field of a live entry |
| LoomWatchpoints.ReportsAreConserved | benchmarks/012_rdna4_d128_attention_pressure_benchmark.hip:509-622 | in every interleaving of publishers and scanners, publications plus initially live entries are exactly the reports, the successful swaps not yet counted, the live entries and the live entries displaced |
| LoomWatchpoints.EachPublicationIsReportedAtMostOnce | benchmarks/012_rdna4_d128_attention_pressure_benchmark.hip:509-549 | no publication is consumed twice, every consumption is counted, and a consumed publication of the run raced with the access that consumed it |
| LoomCoverage.StepKeeps | benchmarks/012_rdna4_d128_attention_pressure_benchmark.hip:509-622 | every step keeps what the probes of each scan have settled about the publications made before it began |
| LoomRequests.PublishedIsRequested | benchmarks/012_rdna4_d128_attention_pressure_benchmark.hip:577-622 | in every run, each publication and each consuming scan is what one call asked for: its work item, kind, slot and probes, the epoch of that moment, and exactly the cells of the requested range that a word can name |
| LoomRequests.EveryRequestIsPublished | benchmarks/012_rdna4_d128_attention_pressure_benchmark.hip:586-595 | no call is dropped or published twice: once all work items have finished there is one publication for each call that asks for an encodable cell |
| LoomRequests.EarlierIsTaken | benchmarks/012_rdna4_d128_attention_pressure_benchmark.hip:509-622 | in every interleaving, if a publication was made before a later call whose requested range shares an encodable cell with the one that it was asked for, of another work item and the same epoch and not both reads, and its slot is on the path of that call's scan, it has been consumed, or another publication had taken its slot by the time the probe was done |
| LoomRequests.ConsumedRequestRaced | benchmarks/012_rdna4_d128_attention_pressure_benchmark.hip:485-549 | what consumes a publication of the run was asked for by a call whose requested range races with that of the call that asked for the publication |
| LoomCoverage.ScansMayMissEachOther | benchmarks/012_rdna4_d128_attention_pressure_benchmark.hip:509-622 | a run in which two racing observations both scan the whole table before either publishes: nothing is consumed, reported or lost |
| LoomWatchpoints.ConflictMeansRace | benchmarks/012_rdna4_d128_attention_pressure_benchmark.hip:485-507 | between two observed ranges of one launch the conflict test holds if and only if the work items differ, the epochs agree modulo 1024, one is no read and they share a cell |
| HostLayout.CacheFollowsRecords | include/hip_moi/context.hpp:985-993 | the producer cache starts exactly behind the last atomic object, where the device code looks for it, for all capacities |
| HostLayout.LayoutIsSound | include/hip_moi/host_context.hpp:446-484 | for all capacities the nine tables are aligned, pairwise disjoint and inside the bytes that the sizing pass counts |
| HostLayout.TablesHoldTheirCapacities | include/hip_moi/host_context.hpp:446-484 | every table with a positive capacity is there with that many entries of its own size and alignment, and no other |
| HostLayout.DoublingIsLeast | include/hip_moi/host_context.hpp:320-328 | doubling finds the least power of two that is not below the value |
| HostLayout.CeilPowerOfTwo | include/hip_moi/host_context.hpp:320-328 | the loop computes the doubling |
| HostLayout.DerivedCapacitiesFit | include/hip_moi/host_context.hpp:401-444 | the derived diagnostic and atomic-object capacities are positive and never too large for an int, the latter a power of two of at most 8192 |
| HostLayout.TableGrowth | include/hip_moi/host_context.hpp:446-460 | the automatic table of the backend costs 8 bytes an entry and at most 4 bytes of padding, once |
| HostLayout.HostContext.LayoutByteCount | include/hip_moi/host_context.hpp:446-460 | the sizing pass, with both counters as one table, counts the bytes of the layout |
| HostLayout.HostContext.AssignSlice | include/hip_moi/host_context.hpp:342-354 | assigns the next table and advances the offset, or assigns none for a capacity that is not positive |
| HostLayout.HostContext.AssignLayoutSlices | include/hip_moi/host_context.hpp:462-484 | the assigning pass, with the counters apart, yields the nine tables and ends where the sizing pass says |
| HostLayout.HostContext.ShrinkOneAutoCapacity | include/hip_moi/host_context.hpp:493-508 | shrinks the first automatic table that is not empty, by one entry |
| HostLayout.HostContext.FitBackendTable | include/hip_moi/host_context.hpp:529-549 | the shrink loop takes at most one step, after which the tables fit and one more entry of the automatic table would not |
| HostLayout.HostContext.ComputeLayout | include/hip_moi/host_context.hpp:510-582 | says exactly when and how sizing fails; the second too-small failure always names the fixed part, so it is never reached; otherwise every given capacity is kept, the derived ones are their share of the budget (a 64th, at most 256 KiB), the layout fits and the automatic table of the backend is the largest that does |
| HostLayout.DefaultTableIsNotAlwaysScanned | include/hip_moi/host_context.hpp:32-36 | with the default sampled options the host sizes the table to 2004959 entries, and some scan with probe count 0 misses one of them |

## Left out

- Weak memory, memory scopes and the dispatch of hardware atomics: every atomic is one sequentially consistent step.
- The values of user atomics: whether an exchange succeeds is a parameter.
- HIP runtime calls, allocation, clearing, copying and printing of diagnostics, destructors, environment and timing code.
- Hash and mixing functions, site ids and the site field of release records: arbitrary functions, or absent where nothing reads them.
- Insertion into the producer cache by concurrent threads: the interleaved model lets an acquire see any mask instead. The sequential class inserts, with no claim about the line.
- AtomicContext.Context.CacheRelease: promises only which array it may change, because the cache is a hint on which no result depends.
- The retry loop of an interleaved acquire and its delay: each attempt is an acquire of its own.
- Per-site thinning and lane selection of sampled accesses: a parameter says whether the access was selected.
- The static capacity of a sampling policy, and policies whose slot is fixed to 0: special cases of an arbitrary slot function.
- SampledScan.Watchpoints.RecordAccess: a single thread at a time; `SampledMachine` interleaves the publications of single ranges.
- StreamingSoftmax.StreamIsBatchSoftmax: over the reals; floating-point rounding enters only as an arbitrary rounding of stored weights.
- Matrix fragments inside a wave (WMMA lane layout) beyond which rows and keys a lane touches, and the 16-wide products themselves.
- The ports of the kernels to other GPUs, the remaining benchmarks, and the wmma kernel's schedule, which adds no new shape.
- The address field of a report about a rejected LDS access (it is 0 in the model; the offset is kept).
- Races within one subgroup, which the detector does not look for.
- Lockstep of the lanes of a wave: lanes interleave freely, so a run that reports a kernel may hold back lanes of one wave.
- Which sites of a kernel a policy instruments: all of them are.
