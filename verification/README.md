# Verification of the ephemeral-memory system

An orchestrator moves memory between virtual machines in chunks of 256 MiB (`G` below). Donor VMs
lend chunks; consumer VMs plug them in as dynamic capacity; a donor may revoke them at any time.
Inside a consumer VM a daemon, ephemerald, forwards the requests of client processes, which use
the library libephmem. This project models the parts of the system where state is shared or where
correctness spans several functions, and proves what they keep.

Code that changes state is modelled by classes and loops with the source's fields and branches;
each method is proved against a function or predicate on values, and the theorems are proved about
those. Concurrency is treated in two ways. Where a claim is about every run (`Protocol`, `Runs` and
`Revokes`, `CapacityRuns`, `EphemeraldRuns`, the history of one allocation in `Allocation`), the locked
sections are the steps of a state machine and any interleaving is allowed. Where a claim is about
one call in the middle of other threads (`Donor`, `DonorSearch`, `Grouping`), the method calls `Interfere`
between its own locked sections, of which it knows only a relation that other threads respect;
the relations are proved from the state machine, for any number of steps of other threads, by
`Runs.OthersRespectARequest` (for `DonorSearch`), `Relies.OthersOnlyTurn` (`Donor`) and
`Relies.OthersOnlyPass` (`Grouping`).

Answers of donors, of devices and of the kernel are nondeterministic or parameters: a donor may
refuse, or grant less, more or an unaligned amount; a socket may cut the stream anywhere.

## Modules

| module | what it covers |
|---|---|
| `Granularity`, `Collections` | chunk arithmetic, the two roundings, sets and ordered keys |
| `Allocation` | one allocation: its state, its write-once donor, who must return its memory |
| `Donor` | one donatable region: reserve, settle, bookkeep, revoke |
| `Protocol`, `Runs` | all regions, allocations, requests and revokes together; both ledgers over all runs |
| `Revokes` | what a revoke promises among other threads, and exactly when |
| `Relies` | what methods that run among other threads rely on, from the state machine |
| `DonorWalk`, `DonorSearch` | the search for donors: as a walk over the list, and as it runs among other threads |
| `ConsumerSlots` | the gap-scanning allocator of a consumer's device |
| `DynamicCapacity`, `CapacityRuns` | add and release events; no orphaned capacity |
| `Grouping` | handing a list of allocations back, grouped by consumer and donor |
| `Ephemerald`, `EphemeraldRuns`, `ClientRegistry` | the request accumulator, all its runs, and the client list |
| `Framing` | newline framing over sockets |
| `EndToEnd` | one request through all programs |
| `CacheTiers`, `Cache` | the two-tier block cache with revocation |

## Properties that hold only under a condition

A revoke is meant to claim the highest committed allocations, and to leave a debt only when no
committed allocation is left. Neither is always so: the donor's region is locked for the whole
scan, each allocation only while it is looked at, and a commit does not take the region's lock.
`Revokes.LowerOneClaimed` and `Revokes.DebtBesideACommittedAllocation` give the runs. An allocation
can still commit if a donor backs it, nobody has abandoned it and its commit has not finished.
`Revokes.RevokeIsExhaustiveIff` and `Revokes.RevokeTakesHighestIff` state, over everything that
other threads may do from any reachable state, exactly when the promises are kept: a debt leaves
nothing committed if and only if nothing listed can still commit when the revoke begins, and the
highest are claimed if and only if nothing listed can still commit above an allocation that is
committed or can be (or the revoke is for nothing).

## Model

| member | source | states |
|---|---|---|
| Granularity.RoundingsAgree | libephmem/libephmem.cpp:290-295 | the mask rounding of libephmem and the next-multiple rounding of the daemons give the same size for every 64-bit amount and refuse the same amounts |
| Granularity.MaskSubtractsRemainder | libephmem/libephmem.cpp:295 | on 64-bit words, clearing the low bits is subtracting the remainder |
| Granularity.RoundingIsIdempotent | ephemerald/src/client.rs:346-356 | a size that one hop has rounded passes the next hop unchanged |
| Granularity.NextMultipleIsLeast | eph_orchestrator/src/consumer.rs:118-122 | if some whole number of chunks within 64 bits is enough, the size is not refused and the rounded size is the least such number |
| Allocation.EphAllocation.RecordDonor | eph_orchestrator/src/main.rs:274-281 | the donor is written once; a second write panics and changes nothing |
| Allocation.EphAllocation.CommitLocked | eph_orchestrator/src/main.rs:282-293 | the locked half of a commit is the transition whose consequences the lemmas below prove |
| Allocation.EphAllocation.TryClaimForRevoke | eph_orchestrator/src/main.rs:301-309 | only a committed allocation can be claimed, and the claim is visible in its state |
| Allocation.EphAllocation.AbandonOrTakeDonor | eph_orchestrator/src/main.rs:316-329 | the allocation ends abandoned; the donor is handed out only if it was committed or claimed |
| Allocation.SoundRun | eph_orchestrator/src/main.rs:274-329 | the state, the flags and the counts of what callers were told stay consistent in every interleaving |
| Allocation.ExactlyOneReturner | eph_orchestrator/src/main.rs:274-329 | nobody panics, at most one revoke wins, and exactly one caller must return the memory once commit and an abandonment have completed; nobody before |
| Allocation.OrderPicksTheReturner | eph_orchestrator/src/main.rs:282-329 | it is the commit exactly if an abandonment came before its locked half |
| Donor.DonatableRegion.ReserveFrom | eph_orchestrator/src/donor.rs:148-157 | whole chunks are taken, no more than wanted, until less than a chunk is missing or less than a chunk is free, and exactly the first allocations are listed |
| Donor.ReserveTakesMost | eph_orchestrator/src/donor.rs:150-152 | no whole number of chunks that is both wanted and free exceeds what is taken |
| Donor.ReserveKeeps | eph_orchestrator/src/donor.rs:148-157 | reserving keeps the region within its size and its slack unchanged |
| Donor.DonatableRegion.SettleReserved | eph_orchestrator/src/donor.rs:101-130 | debt paid plus usable bytes are the whole chunks of the capped grant; usable plus returned bytes are the capped grant; nothing is usable while a debt is left; the allocations beyond the usable chunks are unlisted, no others |
| Donor.SettleKeeps | eph_orchestrator/src/donor.rs:101-130 | the same on the ledger: the debt falls by exactly the whole chunks of the capped grant that are not usable, usable bytes remain only if no debt does, and the slack grows by what was asked for and is not usable |
| Donor.DonatableRegion.BookkeepReturned | eph_orchestrator/src/donor.rs:267-296 | one returned allocation leaves the books; when a warning is printed |
| Donor.BookkeepKeeps | eph_orchestrator/src/donor.rs:277-295 | for a listed allocation the donated bytes suffice and the slack stays the same |
| Donor.DonatableRegion.ClaimNewestFirst | eph_orchestrator/src/donor.rs:337-345 | the scan, with commits and abandonments by other threads between any two visits, claims the highest ids of those it met committed until the size is met |
| Donor.DonatableRegion.RevokeLocked | eph_orchestrator/src/donor.rs:319-349 | whoever was committed at the start was met or has been abandoned since; the claimed are the highest of those met, what was met and not claimed is still committed, the rest of the size is owed; without other threads exactly the committed were met |
| Donor.ClaimsHighestFirst | eph_orchestrator/src/donor.rs:334-345 | every claimed id is above every committed id that was not claimed |
| Donor.ClaimsCount | eph_orchestrator/src/donor.rs:337-347 | as many are claimed as are needed and committed |
| Donor.RevokeTakesHighest | eph_orchestrator/src/donor.rs:334-347 | of the allocations that a scan meets (`RevokeLocked` says which they are) the highest are claimed, and a debt is left only if all were |
| Protocol.ReserveStepKeeps | eph_orchestrator/src/donor.rs:141-158 | reserving from a region keeps the invariant of the whole system |
| Protocol.SettleStepKeeps | eph_orchestrator/src/donor.rs:81-131 | settling any answer keeps it |
| Protocol.CallKeeps | eph_orchestrator/src/main.rs:274-329 | either half of a commit, and an abandonment, keep it; a returned duty is held by its caller |
| Protocol.ScanStartKeeps | eph_orchestrator/src/donor.rs:300-323 | the beginning of a revoke keeps it |
| Protocol.ScanVisitKeeps | eph_orchestrator/src/donor.rs:337-345 | one allocation looked at by a revoke keeps it |
| Protocol.ScanEndKeeps | eph_orchestrator/src/donor.rs:347-348 | the end of a revoke keeps it; what was not found is owed |
| Protocol.SendExcessKeeps | eph_orchestrator/src/donor.rs:219-221 | sending back the part of a grant that cannot be used keeps it |
| Protocol.SendReturnKeeps | eph_orchestrator/src/donor.rs:258-265 | one return command for several allocations keeps it, whether the donor accepts it or not |
| Protocol.DropDutyKeeps | eph_orchestrator/src/main.rs:98-109 | a duty towards a donor that has left is dropped without breaking it |
| Protocol.BookKeeps | eph_orchestrator/src/donor.rs:267-296 | the bookkeeping behind an accepted command keeps it |
| Runs.RunKeeps | eph_orchestrator/src/donor.rs:81-349 | the invariant holds in every reachable state |
| Runs.DonorMemoryIsConserved | eph_orchestrator/src/donor.rs:210-265 | per region, the bytes granted equal the bytes in return commands, plus those about to be sent back, plus G for each backed allocation not returned; never more is returned than was granted, and no allocation twice |
| Runs.DutyFate | eph_orchestrator/src/main.rs:95-138 | the duty for one allocation is held, dropped or sent exactly once, from the moment that commit and abandonment are both complete |
| Runs.RevocationsAreAccountedFor | eph_orchestrator/src/donor.rs:300-349 | per region, the bytes revoked equal G for each claim won, plus the whole chunks kept back from grants, plus the debt, plus what a scan still seeks |
| Runs.RegionsStaySound | eph_orchestrator/src/donor.rs:144-157 | G times the listed allocations is at most the donated bytes, those at most the size, all in whole chunks, and no allocation is listed twice |
| Runs.BookkeepingNeverWarns | eph_orchestrator/src/donor.rs:277-294 | both warnings of the bookkeeping are unreachable |
| Runs.SlackNeverShrinks | eph_orchestrator/src/donor.rs:122-130 | donated bytes without an allocation never become available again |
| Runs.OthersRespectARequest | eph_orchestrator/src/donor.rs:171-246 | no number of steps of other threads commits, lists or unlists the allocations of a request in flight |
| Revokes.BackedAreListed | eph_orchestrator/src/donor.rs:153-157 | in every reachable state a backed allocation that was never abandoned is listed in its region |
| Revokes.HigherCommittedWereEarly | eph_orchestrator/src/donor.rs:337-345 | in every run a committed allocation above the one a revoke looks at was passed over before its commit finished |
| Revokes.EarlyWereUnfinished | eph_orchestrator/src/donor.rs:320-348 | such an allocation had an unfinished commit when the revoke began, and the region does not change meanwhile |
| Revokes.StillRun | eph_orchestrator/src/donor.rs:320-348 | an allocation that cannot commit any more when the scan begins is committed at its end only if it was at the start and has not been looked at |
| Revokes.RevokeIsExhaustive | eph_orchestrator/src/donor.rs:314-348 | if nothing listed can still commit when the revoke begins, a debt means that no listed allocation is committed |
| Revokes.RevokeCanMiss | eph_orchestrator/src/donor.rs:314-348 | otherwise other threads can make the revoke end in debt beside a committed allocation |
| Revokes.RevokeIsExhaustiveIff | eph_orchestrator/src/donor.rs:314-348 | over all continuations from any reachable state, a debt is left only when nothing committed is, exactly if the rounded size is zero or nothing listed can still commit |
| Revokes.RevokeCanPass | eph_orchestrator/src/donor.rs:334-345 | if something listed can still commit above an allocation that is committed or can be, other threads can make the revoke claim the lower one beside the committed higher one |
| Revokes.RevokeTakesHighestIff | eph_orchestrator/src/donor.rs:334-345 | over all continuations the highest committed allocations are claimed exactly if the rounded size is zero or there is no such pair |
| Revokes.DebtBesideACommittedAllocation | eph_orchestrator/src/donor.rs:337-347 | a concrete run in which a revoke leaves a debt beside a committed allocation |
| Revokes.LowerOneClaimed | eph_orchestrator/src/donor.rs:334-345 | a concrete run in which a revoke claims the lower of two allocations although the higher one is committed |
| Relies.OthersOnlyTurn | eph_orchestrator/src/donor.rs:319-349 | while a revoke holds its region, any number of steps of other threads leaves the region and only commits or abandons its allocations |
| Relies.OthersOnlyPass | eph_orchestrator/src/main.rs:274-329 | any number of steps leaves an abandoned allocation abandoned, a recorded donor in place, and a committed allocation committed or claimed unless it is abandoned |
| DonorSearch.FindRegion | eph_orchestrator/src/donor.rs:25-29 | the region with a given path, or none |
| DonorSearch.RevokeEphMemory | eph_orchestrator/src/donor.rs:300-349 | the two errors and when they occur; otherwise the region looked up is revoked for the rounded size, among other threads, as `RevokeLocked` describes |
| DonorSearch.FindRoom | eph_orchestrator/src/donor.rs:139-163 | the first region with room in the first VM behind the last one asked |
| DonorSearch.Undisturbed | eph_orchestrator/src/donor.rs:171-246 | where a request stands survives everything that other threads may do |
| DonorSearch.ReserveIn | eph_orchestrator/src/donor.rs:141-158 | whole chunks are reserved until no allocation is missing or less than a chunk is free, and exactly those allocations are listed; the other regions stay as they are |
| DonorSearch.SettleIn | eph_orchestrator/src/donor.rs:205-221 | debt paid plus usable chunks are the whole chunks of the capped grant; exactly the usable ones stay listed, the rest of the grant is handed back |
| DonorSearch.CommitOne | eph_orchestrator/src/donor.rs:224-231 | a commit never panics, records this donor, and is refused exactly if the allocation is abandoned; without other threads nothing else changes |
| DonorSearch.CommitBatch | eph_orchestrator/src/donor.rs:223-232 | each allocation of the batch is committed once, and exactly the refused ones are listed for return |
| DonorWalk.KeptOrRefused | eph_orchestrator/src/donor.rs:224-231 | kept and refused commits add up to the batch |
| DonorSearch.ReturnAndBookkeep | eph_orchestrator/src/donor.rs:258-265 | one command of G bytes for each id; if the donor accepts it, every id leaves the books of the region and nobody lists it again; without other threads the region is exactly the one with these ids bookkept |
| DonorSearch.BookkeepIn | eph_orchestrator/src/donor.rs:267-296 | one bookkeeping call takes exactly its id off the list, lowers the donated bytes by G if it was listed, and touches no other region |
| DonorWalk.NegotiationBalanced | eph_orchestrator/src/donor.rs:193-240 | the commands of one negotiation hand back whatever no kept commit uses |
| DonorWalk.CommandsAre | eph_orchestrator/src/donor.rs:193-240 | which commands a negotiation consists of: the demand, the rest of the answer beyond what was tried, and one return of G for each refusal |
| DonorWalk.WalkPast | eph_orchestrator/src/donor.rs:140-147 | in the walk that specifies a search without other threads, VMs without room, and all VMs once the search is over, change nothing |
| DonorWalk.FirstRoomIs | eph_orchestrator/src/donor.rs:143-147 | the region that the walk asks is the first of its VM with room for a chunk |
| DonorSearch.HasRoomIsAChunk | eph_orchestrator/src/donor.rs:144-147 | a region counts as having room exactly if a chunk can be reserved from it |
| DonorWalk.OneMorePiece | eph_orchestrator/src/donor.rs:174-243 | a log made of whole negotiations stays so when one more is appended |
| DonorSearch.AskDonor | eph_orchestrator/src/donor.rs:193-239 | the donor is asked for all that is missing, or for all whole chunks that its region has free; as many allocations are tried as the reply pays for beside the debt, and the commands follow; refused allocations end listed nowhere if the return is accepted; without other threads the debt is the one of before, and the region, the log and the commits are those that the walk computes |
| DonorSearch.Request | eph_orchestrator/src/donor.rs:193-213 | the first half: reserve, ask, settle |
| DonorSearch.CommitAndReturn | eph_orchestrator/src/donor.rs:223-240 | the second half: commit what the grant pays for, return what was refused |
| DonorSearch.AllocateEphMemory | eph_orchestrator/src/donor.rs:171-246 | the search terminates; processed allocations have a donor and are listed at most there, the others nowhere; the log is made of whole negotiations with VMs in order, each asking for all that is missing or for all whole chunks that are free; bytes given and not handed back are G for each kept commit; the search falls short only after a refusal or when no VM behind the last one asked has room; without other threads the regions, the log and the commits are those of a walk over the VM list |
| ConsumerSlots.AreasFit | eph_orchestrator/src/consumer.rs:258-342 | a device never has more areas than chunk positions |
| ConsumerSlots.FullDevice | eph_orchestrator/src/consumer.rs:305-326 | if no chunk is free, every position is taken |
| ConsumerSlots.FirstFit | eph_orchestrator/src/consumer.rs:297-308 | the gap at which the scan stops is the lowest that fits |
| ConsumerSlots.FindGap | eph_orchestrator/src/consumer.rs:284-319 | the scan finds the lowest gap that fits, else the first of the largest gaps |
| ConsumerSlots.ConsumerState.PlaceRun | eph_orchestrator/src/consumer.rs:333-339 | consecutive chunks become areas with new ids, and no area is overwritten |
| ConsumerSlots.ConsumerState.ReserveMemoryContig | eph_orchestrator/src/consumer.rs:258-342 | one round: aligned, disjoint, inside the device; at least as large as every free run that was asked for; at the lowest place where it fits if the whole request fits, else filling the first largest gap |
| ConsumerSlots.WantedMost | eph_orchestrator/src/consumer.rs:264-265 | the clamped size is the largest whole number of chunks that is asked for and that the device has |
| ConsumerSlots.RoundIsMost | eph_orchestrator/src/consumer.rs:263-326 | the scan's answer for the clamped request is the answer for the request itself: no free run of whole chunks within the request is larger |
| ConsumerSlots.RoundSize | eph_orchestrator/src/consumer.rs:243-251 | a round never gives more than it was asked for, so the remaining size cannot underflow |
| ConsumerSlots.NothingLeft | eph_orchestrator/src/consumer.rs:243-246 | a round that gives nothing means that all was given, or that the device is full |
| ConsumerSlots.ConsumerState.ReserveMemory | eph_orchestrator/src/consumer.rs:239-253 | without interference the loop terminates and reserves as many chunks as were asked for and free; other areas stay |
| DynamicCapacity.FindCovered | eph_orchestrator/src/consumer.rs:640-653 | the covered areas, all of them, in order of offset |
| DynamicCapacity.GapsTile | eph_orchestrator/src/consumer.rs:459-490 | each byte of an extent is in a covered area or a gap, never both |
| DynamicCapacity.GapsInOrder | eph_orchestrator/src/consumer.rs:459-490 | gaps are nonempty, in order, inside the extent, with an area between any two |
| DynamicCapacity.GapsAreMaximal | eph_orchestrator/src/consumer.rs:477-489 | a gap reaches as far as the extent and the covered areas allow |
| DynamicCapacity.AddedExtentIsTiled | eph_orchestrator/src/consumer.rs:459-490 | the three properties together, for any set of areas and any extent |
| DynamicCapacity.AlignedGapsAreUnallocated | eph_orchestrator/src/consumer.rs:459-490 | for an aligned extent the gaps are exactly the bytes that no area holds |
| DynamicCapacity.SignalAddOne | eph_orchestrator/src/consumer.rs:460-488 | for one extent the loop notes exactly those gaps and marks exactly the covered areas |
| DynamicCapacity.SignalAddDc | eph_orchestrator/src/consumer.rs:446-490 | the same for a whole event |
| DynamicCapacity.ReleaseLocked | eph_orchestrator/src/consumer.rs:344-378 | the first release of an area wins; an area not yet added is dropped at once, an added one is named in the command, in order |
| DynamicCapacity.ReleaseReservedMemory | eph_orchestrator/src/consumer.rs:344-445 | whatever the device makes of the command, every area that this call was first to release is gone in the end, and no other |
| DynamicCapacity.SignalReleaseDc | eph_orchestrator/src/consumer.rs:508-538 | exactly the covered areas are removed |
| CapacityRuns.ExtentCommands | eph_orchestrator/src/consumer.rs:459-502 | an add event commands a chunk back exactly if it touches it and the chunk is no area |
| CapacityRuns.ReleaseCommands | eph_orchestrator/src/consumer.rs:350-396 | what a list of releases does to one area, and whether the command names it |
| CapacityRuns.RunIsFine | eph_orchestrator/src/consumer.rs:344-538 | the flags of an offered chunk and the commands about it agree after every run |
| CapacityRuns.NoOrphanedCapacity | eph_orchestrator/src/consumer.rs:344-538 | an offered chunk that is added once and given up is covered by exactly one command in either order, by none before both have happened, and by none if the guest itself gave it back after adding it |
| CapacityRuns.ReleasedIsGivenUp | eph_orchestrator/src/consumer.rs:350-378 | a released chunk counts as given up, so only a guest that gave it back first spares the command |
| Grouping.GroupsPartition | eph_orchestrator/src/main.rs:80-110 | grouping by key is an order-preserving partition of what has a key |
| Grouping.LookSees | eph_orchestrator/src/main.rs:82-102 | a VM counts as a consumer or a donor exactly if it can be reached, has not exited and has that state |
| Grouping.FileOne | eph_orchestrator/src/main.rs:81-109 | one allocation is abandoned and filed under its live consumer, and under the donor region if the abandonment was won and the donor is there |
| Grouping.Organize | eph_orchestrator/src/main.rs:71-110 | the groups are exactly those of the keys; every duty that this call wins is filed under its donor unless that donor has left; an allocation is won once, and one committed from the start is won here or by another thread; consumers likewise; every group has its VM at hand; without other threads the keys are determined by the state before |
| Grouping.ReturnToDonors | eph_orchestrator/src/main.rs:131-138 | one return command for each donor group, of G for each member |
| Grouping.EveryDutyIsReturned | eph_orchestrator/src/main.rs:95-138 | every duty won towards a donor that stays is in exactly one return command, once; every member of a command is a duty that the call won |
| Grouping.ReturnFromConsumer | eph_orchestrator/src/main.rs:71-138 | the call as a whole, among other threads: grouping, then the commands, with both of the above |
| Ephemerald.KeepKeeps | ephemerald/src/client.rs:164-165 | extending the set of allocations replaces nothing and misses nothing |
| Ephemerald.ResponseIsBalanced | ephemerald/src/client.rs:129-165 | received bytes stay the sum of what was collected and within the request; an answer is that sum; when a response is refused |
| Ephemerald.Client.SendEphMemResponse | ephemerald/src/client.rs:123-179 | the locked section, its error branches and its answer |
| Ephemerald.Client.AcceptRequest | ephemerald/src/client.rs:340-385 | a request is taken exactly if it can be rounded, is not empty and none is pending; a refused one changes nothing, so a pending request is never overwritten |
| Ephemerald.AdmissionRefuses | ephemerald/src/client.rs:346-375 | the same of the step of the state machine: the exact condition, what is pending afterwards, and that a refusal changes nothing |
| ClientRegistry.ClientList.Register | ephemerald/src/client.rs:232-249 | registering is the step `Connect` of the state machine, so the theorems on all runs hold of the objects |
| ClientRegistry.ClientList.Close | ephemerald/src/client.rs:258-269 | the close handler is the step `Close` |
| ClientRegistry.ClientList.Find | ephemerald/src/client.rs:197-209 | a client found is one to which the step `Lookup` may hand the response; if none is found, no listed client waits for the id |
| ClientRegistry.ClientList.Enter | ephemerald/src/client.rs:340-385 | admitting a request is the step `Enter` |
| ClientRegistry.ClientList.Deliver | ephemerald/src/client.rs:211-220 | handing over a response is the step `Deliver`, even to a client that is no longer listed |
| EphemeraldRuns.RunKeeps | ephemerald/src/client.rs:123-403 | the invariant of requests, responses and connections holds in every run |
| EphemeraldRuns.NothingIsStuck | ephemerald/src/client.rs:211-220 | a message that has been looked up can always be delivered |
| EphemeraldRuns.PendingUntilAnswered | ephemerald/src/client.rs:140-178 | over every run, a pending request stays pending under its id and size, with its collected responses only growing, until it is answered with all of them |
| EphemeraldRuns.FailureIsAnswered | ephemerald/src/client.rs:390-401 | a request that cannot be forwarded stops pending and is answered with what it had collected |
| EphemeraldRuns.AnswersAreHonest | ephemerald/src/client.rs:123-179 | a request is answered at most once, to its client, with the sum of what was collected, and that is at most its rounded size |
| EphemeraldRuns.ResponsesReachTheirOwner | ephemerald/src/client.rs:197-220 | no two clients wait for one id, and a response can be taken only by the client it was looked up for |
| EphemeraldRuns.ListedIsCurrent | ephemerald/src/client.rs:243-268 | the listed client of a process is its most recent connection unless that very connection closed |
| Framing.LibephmemRecv | libephmem/libephmem.cpp:187-245 | for every cut of the stream: success exactly if the first newline fits, the message and a NUL in the buffer, its last byte untouched, and which bytes are gone from the stream |
| Framing.LibephmemSend | libephmem/libephmem.cpp:168-185 | for every cut: all bytes once and in order, unless the socket breaks first |
| Framing.MessageIsUnique | libephmem/libephmem.cpp:231-240 | what is received depends on the stream alone |
| Framing.SentIsReceived | libephmem/libephmem.cpp:303-328 | a message sent with its newline is the message received, whatever follows, exactly if it fits |
| EndToEnd.SendConsumerResponse | eph_orchestrator/src/consumer.rs:600-629 | one response for each live allocation, in order, all but the last announcing another; a prefix if the connection breaks |
| EndToEnd.HandleEphMemRequest | eph_orchestrator/src/consumer.rs:102-223 | each error, and exactly when a request is refused before anything is sent; the response names only reservations that were processed, committed, added and are live after the wait, each once and the last one marked; on success it names all of them and exactly they keep their areas; on failure none does; areas of before stay as they were |
| EndToEnd.FinalAre | eph_orchestrator/src/consumer.rs:193-202 | the allocations answered for are exactly the survivors: processed, committed, added, and live after the wait |
| EndToEnd.LiveInOrder | eph_orchestrator/src/consumer.rs:193-206 | they are taken out of the reservation in order, each position once |
| EndToEnd.OneReply | ephemerald/src/client.rs:140-178 | ephemerald accepts every response to a request that they fit, and answers once, at the last |
| EndToEnd.HopsAgree | ephemerald/src/client.rs:346-375 | libephmem refuses an amount exactly if ephemerald would; otherwise all hops work on the same size |
| EndToEnd.RequestIsServed | eph_orchestrator/src/consumer.rs:193-205 | for any live part of any reservation: all responses accepted, one reply of G for each chunk, at most what was asked for |
| CacheTiers.NextFreeSlot | ubmks/libephmem_poc.cpp:278-281 | the slot at the size of the map is free |
| CacheTiers.NoSlotEmpty | ubmks/libephmem_poc.cpp:257-273 | in a full tier every slot holds a block, so the exits for an empty slot are unreachable |
| CacheTiers.VacateKeeps | ubmks/libephmem_poc.cpp:275-277 | evicting leaves the maps inverse with one hole |
| CacheTiers.PlaceKeeps | ubmks/libephmem_poc.cpp:299-300 | filling the hole makes the occupied slots a prefix again |
| CacheTiers.DropInverse | ubmks/libephmem_poc.cpp:86-106 | removing a slot loses the block in it and no other, and keeps the maps inverse |
| CacheTiers.DropHole | ubmks/libephmem_poc.cpp:97-106 | removing the hole makes the occupied slots a prefix again |
| Cache.SumOfFilled | ubmks/libephmem_poc.cpp:44-56 | the sum of a freshly filled block |
| Cache.BlockCache.DropSlot | ubmks/libephmem_poc.cpp:89-106 | the loop over the shifted slots turns the forward map into that of the shorter tier |
| Cache.BlockCache.MakeEphSlot | ubmks/libephmem_poc.cpp:264-281 | a free ephemeral slot, at the price of one block exactly if the tier was full |
| Cache.BlockCache.MoveOut | ubmks/libephmem_poc.cpp:287-302 | the evicted block is in the ephemeral tier with its contents, or the slot is gone |
| Cache.BlockCache.MakeRoom | ubmks/libephmem_poc.cpp:252-302 | one block leaves main memory; if the ephemeral tier has slots and the put completes, it is there afterwards and no slot is lost; nothing leaves that tier while it has room; both tiers stay consistent and disjoint |
| Cache.BlockCache.Access | ubmks/libephmem_poc.cpp:207-316 | each access, however it goes, computes the sum of a freshly filled block; a hit changes nothing; a miss, or a block that is revoked while it is read, ends up in main memory; the tiers change as a cache may |
| Cache.BlockCache.Serve | ubmks/libephmem_poc.cpp:206-316 | the loop computes, for every sequence of blocks and outcomes, what reading from disk each time would |

## Left out

- Sockets, vsock, QMP and JSON: only their results and the order of events appear.
- Threads and condition variables: the locked sections and their interleavings are modelled, waiting is not; a wait that times out is just a later step.
- Liveness: nothing is claimed about when a donor, a device or a guest answers.
- `release_all_allocations` called from `remove_vms`: its loop makes no progress there, because the VM has been marked as exited and its allocations are filtered out of the consumer groups; no termination is claimed.
- Areas under a reused offset: manual removal goes by offset alone, so `CapacityRuns` follows one reservation of a chunk and assumes that it is not reserved again and is added at most once, by an aligned extent.
- Release commands are counted when their locked section decides to send them; whether the device accepts them is not modelled.
- Filling a request as far as donors could: the search asks each donor VM for one region only.
- Paying a revoke promptly: a revoke between settling and committing only raises the debt.
- The surplus of a donor that grants more than it was asked for: it is capped away in the code and in the ledger.
- Wrap-around of 64-bit sums that the code does not check (`revoked_owed +=`, `offset + size`, the id counters): sizes and counters are unbounded here; the checked roundings model the width.
- The sum of a cached block is an unbounded integer; the largest sum of a block of 2 MiB fits the 64-bit `long` of the source.
- Paths of VMs are natural numbers in their order, and the list of VMs does not change during one search for donors.
- Regions of one donor are assumed to have distinct paths; with equal paths `find_region` would only ever see the first.
- AskDonor: with other threads running, the debt that a region has when an answer is settled is whatever they made it.
- Two VMs with the same socket path, one of them gone: `Grouping` identifies a VM by its path.
- HandleEphMemRequest: it states a call during which no other thread touches this consumer's areas; which allocations are still committed after the search and live after the wait are given predicates. The search for donors itself is in `DonorSearch`.
- ReserveMemory: its exact count is stated for a call without another request of the same consumer in between; `RoundSize` holds for every round regardless.
- OthersRespectARequest, OthersOnlyTurn, OthersOnlyPass: they prove on the state machine the relations that the methods rely on; the objects and the machine are not linked by a simulation proof there. That VMs only leave is assumed by `Grouping`.
- LibephmemRecv: the bytes behind the first newline of the last read are lost, so a second message is not claimed to survive.
- The error of an oversized last response in ephemerald leaves the request pending; it is a transition here, and no claim says that requests are always cleared.
- The limit of 64 clients, the length limit of ephemerald's read loop, and reading the peer's process id.
- VM detection, DAX devices, mounting, signals, protection keys and `sigsetjmp`: an attempt on ephemeral memory completes, is revoked, or is invalid.
- Logging, timing statistics, benchmarks other than the cache, scripts and tracing.
