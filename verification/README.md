# SimpleSSD: verified models of the FTL, the NAND address map, the write cache, DMA, PRP lists, the event engine and DRAMPower's command analysis

This project models the parts of the SSD simulator whose correctness rests on several pieces of state agreeing with each other, and proves what keeps them in agreement. `dafny verify dfyconfig.toml` checks the whole project.

**Page-mapping FTL** (`Ftl*.dfy`, `PageMapping.dfy`, `WearInit.dfy`, `DcaMapping.dfy`). The translation table, the blocks in use with their valid bits and recorded LPNs, the free list sorted by wear, the dead list and the write heads. `Ftl` gives every operation as a total step function; a `panic`, an `exit`, an exception or an access past a container ends in `Halted` with its reason. `PageMapping` is the same FTL as the object whose methods update fields in place and whose garbage collection collects requests and then performs all reads, all writes and all erases as three batches; each method is proved to reach exactly the state of the step function, so the batching is proved equal to copying page by page. The allocation policy is a function parameter, instantiated by the four searches (`FtlAllocation`, `FtlPolicies`); the victims are whatever a policy returns as long as they are distinct full blocks in use. Each physical unit carries a payload, which the simulator does not store, so that "a read returns the last write" can be stated.

Main results: over any run of reads, writes and trims, the FTL answers as a map from (LPN, unit) to the last payload (`FtlRuns.RunRefines`, and from construction on `FtlDevice.FromTheFactory`); garbage collection is invisible to the host and never erases valid data (`FtlGc.CollectedCorrect`); writing runs end, within a bound given by the erase threshold (`FtlRuns.RunEndures`, `FtlRuns.WritingRunsEnd`); what a collection will ask of the allocator can be read off the state before it, and with it exactly when a collection halts and which write heads outlive it (`FtlPlan.CollectedHaltsIff`, `FtlPlan.CollectedHeads`); over runs whose victims are not left as heads no request meets "Corrupted" (`FtlRuns.RunKeepsHeads`), and with the random-I/O tweak off more than P * q free blocks are always enough to collect P * q victims (`FtlSpace.CollectionsGoThrough`), and greedy garbage collection keeps up with the host for good, so that no request ever halts, as long as the alive blocks beyond heads and reserve hold more pages than there are LPNs (`FtlCapacity.OverProvisioned`). Nothing programmed is overwritten before its block is erased (`FtlFlash.FlashIsDisciplined`), and write head i stays on the blocks of residue i for as long as these have free ones (`FtlChannels.HeadsKeepTheirChannels`). Behind the write cache, every address still reads back its newest version (`CachedFtl.ReadsThroughBoth`). The object itself keeps holding the same map through reads, writes and trims (`PageMappingFtl.PageMapping.Read`, `.Write`, `.Trim`).

**NAND addresses** (`MixedRadix.dfy`, `NandAddress.dfy`): super block index, page and unit name physical pages one to one, for every order of the dimensions and every super block shape.

**DRAM commands** (`DramCommands.dfy`, `DramTimeline.dfy`): a reference machine says what every single cycle of a legal trace is spent on; the handlers' counters are proved to count that timeline, and for every cycle the commands before it tell which category that is.

**DMA FIFO** (`FifoSplit.dfy`, `FifoWrite.dfy`, `FifoRead.dfy`): two event-driven queues. In every interleaving of arrivals, events and upstream completions no wake-up is lost, no empty queue is read, the chunks tile the requests, and callbacks fire once each in order; without arrivals every run ends, with everything transferred. Latencies decide between finishing at once and finishing by an event; both choices are open at every point, so the results hold for all latencies. A callback that issues a new request acts as an arrival just before the step.

**Write cache** (`WriteCache.dfy`; in front of the FTL, `CachedFtl.dfy`), **PRP lists** (`PrpList.dfy`), **event engine** (`Engine.dfy`): see the table.

## What the code does that its callers may not expect

These are properties one would expect that the code does not have; each is stated as a lemma or contract with the exact condition under which it does hold.

- With one I/O unit per page `Block::getPageInfo` reports every page as valid, so garbage collection also copies stale pages. A concrete run loses a write (`FtlFindings.StalePageComesBack`). Collection keeps mapping and contents exactly when, with one unit per page, every page of every victim is valid (`FtlSingleUnit.CollectedCorrectIff`). The run results carry this condition in `PolicyOk`; with more units per page it is free (`FtlRuns.SoundWithSeveralUnits`).
- A write head that has run full can be selected as a victim, by the greedy policy already after the first write; the next write then halts with "Corrupted" (`FtlFindings.CollectedHeadHalts`). All heads survive a collection exactly when every collected head takes a fresh block on the way, which is read off the state before the collection (`FtlPlan.CollectedHeads`, with the condition `HeadsServed`).
- The backward search of `eraseInternal` needs a non-empty free list; the model halts with `EmptyFreeList` where there is none. A block that reaches the erase threshold retires without the search. So, unless the run is to end with the first block that retires, the erases fail exactly when the free list is empty and some victim is to return to it (`FtlGc.EraseBlocksHaltsIff`), and the erases of a collection exactly when its copies take the very last free block and some victim is to return (`FtlPlan.CollectedHaltsIff`). Three writes to a device of three blocks get there, although it passes the check of the over-provisioning ratio (`FtlFindings.LastFreeBlockHalts`); `FtlCapacity.OverProvisioned` says how much more room is enough.
- Pre-wearing blocks up to the erase threshold hands out blocks that should be dead: the list is one to start from exactly when the pre-wear stays below the threshold (`WearInit.PrewornIsInitialIff`). A ratio whose number of blocks to pre-wear, rounded down, exceeds the number of blocks indexes past the vector (`WearInit.ApplyInitialWear`).
- The budget-aware and wear-aware victim costs of a block agree exactly when its erase count does not exceed the threshold cut to 32 bits, and those of all blocks in use exactly when none exceeds it (`FtlPolicies.CostsAgreeIff`, `FtlPolicies.AllCostsAgreeIff`). With a threshold of 2 to the 32 the budget-aware policy may take the more worn of two otherwise equal blocks (`FtlFindings.CutIgnoresWear`).
- The random and d-choice policies draw until they have as many full blocks as they ask for; with fewer full blocks than that the loop never ends (`FtlAllocation.SampleVictims`, `FtlAllocation.SamplingEndsIff`).
- NOP or END inside self-refresh before the accounted cycle subtracts cycles, and a NOP in the middle of a trace is charged again by the next command unless nothing more was left to charge (`DramCommands.CommandAnalysis.HandleNopEnd`, `DramCommands.CommandAnalysis.HandleAfterNop`; a NOP and an ACT in cycle 5 count ten precharge cycles, `DramCommands.NopThenAct`).
- A request larger than a DMA queue is cut into transfer units that are not held back, so the queue can hold more than its capacity (`FifoWrite.LargeRequestOverflows`); it never does as long as every request fits by itself (`FifoWrite.RunFits`, `FifoRead.RunFits`).
- A PRP region for zero bytes has one data page. The program's own page list is the list a device finds exactly up to two pages; beyond, its second entry is the first PRP list page (`PrpList.Prp.constructor`).

## Model

| member | source | states |
|---|---|---|
| FtlDevice.FromTheFactory | simplessd/ftl/page_mapping.cc:38-250 | From construction over any sorted free list of live blocks, every run of host requests that returns answers as a map, the block lists are in order at its end, and host units plus copied units never exceed ioUnitInPage * pagesInBlock * sum of (threshold - initial erase count); with victims that are not left as heads, no request meets "Corrupted" and all heads are different blocks in use |
| FtlDevice.FreshPotential | simplessd/ftl/wear_init.cc:43-76 | The units a new device can take are exactly the units of a block times the erases its blocks have left |
| FtlRuns.RunRefines | simplessd/ftl/page_mapping.cc:201-250 | Over any run of reads, writes and trims, with any allocation and victim policy and garbage collection anywhere, the FTL's answers and contents are those of a map from (LPN, unit) to payload; it can halt only on a worn-out device, at a trim of a partly mapped LPN, and at a lost head, which RunKeepsHeads excludes |
| FtlRuns.RunKeepsHeads | simplessd/ftl/page_mapping.cc:383-414 | Over any run whose victims are not left as heads, all heads stay different blocks in use, mapping and lists stay in order, and "Corrupted" cannot be met: only a worn-out device (end of life, an empty free list, or the first retirement where the run is to end with it) and a trim of a partly mapped LPN halt |
| FtlRuns.HostWriteRefines | simplessd/ftl/page_mapping.cc:219-237 | A host write that returns leaves the map with just the named units overwritten; an empty one leaves it as it is |
| FtlRuns.ReadRefines | simplessd/ftl/page_mapping.cc:201-217 | A host read always returns, with the units of the map; an empty one reads nothing |
| FtlRuns.WriteCorrect | simplessd/ftl/page_mapping.cc:708-848 | A write, with or without garbage collection behind it, changes exactly the units its flags name and keeps both mappings in agreement |
| FtlRuns.ReadLanesCorrect | simplessd/ftl/page_mapping.cc:655-706 | A read returns, lane by lane, what was last stored there; the block lookup cannot fail |
| FtlRuns.ApplyRefines | simplessd/ftl/page_mapping.cc:201-250 | One request of any kind takes FTL and reference map to matching states with the same answer |
| FtlRuns.SoundWithSeveralUnits | simplessd/ftl/common/block.cc:260-276 | With more than one unit per page, page information about full blocks is always right |
| FtlRuns.RunEndures | simplessd/ftl/page_mapping.cc:219-237 | Over any run, the free list stays ascending, in-use, free and dead blocks stay a partition of all indices, dead blocks stay dead, and the units programmed plus the units copied are paid out of the potential at the start |
| FtlRuns.WritingRunsEnd | simplessd/ftl/page_mapping.cc:322-381 | No run of writes that program something is longer than the potential it starts with: the device reaches end of life |
| FtlMapping.OneValidUnitPerAddress | simplessd/ftl/page_mapping.cc:708-812 | Two valid units never stand for the same (LPN, unit) |
| FtlMapping.StoreCorrect | simplessd/ftl/page_mapping.cc:708-812 | Invalidate, claim a page, program: exactly the touched units change; the table keeps pointing to in-use valid units that record their LPN, and the lookup of the old block always succeeds |
| FtlMapping.InvalidatedKeeps | simplessd/ftl/page_mapping.cc:716-730 | Clearing the old copies never fails to find a block and only opens holes at the units being rewritten |
| FtlMapping.ProgramUnitReads | simplessd/ftl/page_mapping.cc:768-812 | Programming one unit changes the host's view of that unit only |
| FtlMapping.ProgramUnitKeepsMapping | simplessd/ftl/page_mapping.cc:768-812 | Programming a unit that nothing claims keeps table and valid units in agreement |
| FtlGc.TrimCorrect | simplessd/ftl/page_mapping.cc:850-878 | Trim removes exactly the units of one LPN; it halts exactly when some unit of a mapped LPN is unmapped |
| FtlGc.MoveUnitKeeps | simplessd/ftl/page_mapping.cc:573-611 | Copying a valid unit and moving its mapping changes nothing the host reads |
| FtlGc.MovePageKeeps | simplessd/ftl/page_mapping.cc:553-615 | Copying a page empties exactly that page of its victim, and never writes to a full block |
| FtlGc.EraseKeeps | simplessd/ftl/page_mapping.cc:880-956 | Erasing a block without valid units hides nothing from the host; it halts exactly when the block is to return to an empty free list, or retires and the run is to end with that |
| FtlGc.EraseBlocksHaltsIff | simplessd/ftl/page_mapping.cc:894-925 | Erasing emptied victims halts exactly when the free list is empty and some victim stays below its threshold, or when some victim retires and the run is to end with that; where both can happen the first victim decides |
| FtlGc.CollectedCorrect | simplessd/ftl/page_mapping.cc:527-653 | Collecting full blocks is invisible to the host, keeps both mappings in agreement, empties every victim before its erase (the valid-pages halt is unreachable) and takes all victims out of use |
| FtlSingleUnit.CollectedCorrectIff | simplessd/ftl/common/block.cc:260-276 | Collection keeps mapping and contents if and only if page information is right about every page of every victim |
| FtlSingleUnit.StaleMoveBreaks | simplessd/ftl/page_mapping.cc:573-611 | Copying a stale unit breaks the state: either two valid units claim one address, or an address that could not be read reads again |
| FtlSingleUnit.MoveBlocksHalf | simplessd/ftl/page_mapping.cc:544-615 | A victim page that is not valid breaks the state by the end of the copying, and what is broken stays broken |
| FtlSingleUnit.EraseBlocksHalf | simplessd/ftl/page_mapping.cc:643-649 | The erases do not mend a broken state |
| FtlSingleUnit.BrokenIsWrong | simplessd/ftl/page_mapping.cc:573-611 | In a broken state either mapping and valid units disagree or some read has changed |
| FtlFindings.StalePageComesBack | simplessd/ftl/common/block.cc:260-276 | One unit per page: three writes and the greedy collection that the third calls for make the host read the first payload again |
| FtlFindings.CollectedHeadHalts | simplessd/ftl/page_mapping.cc:401-403 | Two heads, four blocks of one page: the collection that the first write calls for takes the full head, and the next write halts with "Corrupted" |
| FtlFindings.LastFreeBlockHalts | simplessd/ftl/page_mapping.cc:902-907 | One head, three blocks of one page: three writes empty the free list, and the greedy collection that follows fails at its first erase |
| FtlFindings.CutIgnoresWear | simplessd/ftl/rbpa_page_mapping.cc:455-479 | With a threshold of 2 to the 32 the budget-aware policy may take the more worn of two blocks that the wear-aware policy tells apart |
| FtlHeads.FreshOk | simplessd/ftl/page_mapping.cc:38-74 | A sorted free list with every block once and alive gives a state in which mapping and lists agree |
| FtlHeads.ClaimHeadsOk | simplessd/ftl/page_mapping.cc:61-66 | The constructor succeeds exactly with a free block per head; then all heads are distinct blocks in use |
| FtlHeads.LastFreeBlockHaltsIff | simplessd/ftl/page_mapping.cc:383-414 | The two halts of getLastFreeBlock, each with its exact condition |
| FtlHeads.SparedHeadsStay | simplessd/ftl/page_mapping.cc:527-653 | Victims that are not heads beforehand never become heads: all heads outlive the collection, under any allocation policy |
| FtlPlan.CopiesHaltIff | simplessd/ftl/page_mapping.cc:544-615 | The copies of a collection go through exactly when the fresh blocks they need, foreseen from valid bits and write pointers before the collection, are no more than the free blocks; then they take exactly that many and copy exactly the units foreseen |
| FtlPlan.CollectedHaltsIff | simplessd/ftl/page_mapping.cc:527-653 | All three ways for a collection to halt, each with its exact condition on the state before it; no other halt is possible |
| FtlPlan.CollectedGain | simplessd/ftl/page_mapping.cc:527-653 | A collection gains a free block for each victim that does not retire, less the fresh blocks foreseen, and copies the units foreseen |
| FtlPlan.CollectedHeads | simplessd/ftl/page_mapping.cc:383-414 | After a collection all heads are in use exactly when every collected head takes a fresh block on the way, foreseen from the state before; different heads stay different |
| FtlPlan.ClaimFollows | simplessd/ftl/page_mapping.cc:383-414 | Allocation for a copied page does as foreseen: same head, same kind of block, same write pointers |
| FtlWear.TakeKeepsPartition | simplessd/ftl/page_mapping.cc:322-381 | Taking a free block keeps in-use, free and dead blocks a partition of all indices |
| FtlWear.InsertedAscending | simplessd/ftl/page_mapping.cc:902-923 | The backward search keeps the free list ascending by erase count |
| FtlWear.EraseEvolves | simplessd/ftl/page_mapping.cc:894-953 | An erase costs exactly one of the erases left, never raises the potential, and retires the block exactly when it reaches the threshold |
| FtlWear.ProgramUnitEvolves | simplessd/ftl/common/block.cc:298-339 | Programming a unit costs exactly one unit of potential |
| FtlWear.PotentialNonNegative | simplessd/ftl/page_mapping.cc:894-953 | The potential of a device whose lists are in order is never negative |
| FtlEndurance.CollectedEvolves | simplessd/ftl/page_mapping.cc:527-653 | A collection pays one unit of potential for every copy it counts |
| FtlEndurance.WriteEvolves | simplessd/ftl/page_mapping.cc:219-237 | A write pays for the units it programs and the copies behind it |
| FtlEndurance.GetFreeBlockHalts | simplessd/ftl/page_mapping.cc:322-381 | Allocation halts exactly when the free list is empty, with end of life |
| FtlEndurance.DeadCount | simplessd/ftl/page_mapping.cc:894-953 | Blocks in use, nFreeBlocks and dead blocks add up to all blocks |
| FtlSpace.FewBlocksTaken | simplessd/ftl/page_mapping.cc:544-615 | With the random-I/O tweak off and P distinct heads, victims with at most q * P * pagesInBlock pages to copy need at most P * q fresh blocks |
| FtlSpace.RunNarrow | simplessd/ftl/page_mapping.cc:708-812 | Over any run only the lanes the table distinguishes are ever written, lane 0 alone with the tweak off |
| FtlSpace.EnoughFreeBlocks | simplessd/ftl/page_mapping.cc:527-653 | With the tweak off, P * q free blocks are enough for those copies not to halt; with one more the whole collection halts exactly at a retirement the run is to end with |
| FtlSpace.CollectionsGoThrough | simplessd/ftl/page_mapping.cc:38-653 | From construction on, with the tweak off and victims not left as heads: whenever more than P * q blocks are free, collecting up to P * q victims cannot halt but at a retirement the run is to end with |
| FtlChannels.TurnsRound | simplessd/ftl/page_mapping.cc:383-396 | The heads take turns: the next one round is turned to exactly when the tweak is off or the request wants a lane already taken since the last turn, and those lanes are what is remembered |
| FtlChannels.ReplacedOnChannel | simplessd/ftl/page_mapping.cc:398-412 | A full head is replaced by a block whose index is congruent to the head turned to, modulo the heads, whenever such a block is free; only that head changes |
| FtlChannels.PolicyChannelled | simplessd/ftl/rbpa_page_mapping.cc:335-347 | First fit and the weighted choice take a block of the residue asked for whenever one is free |
| FtlChannels.StoreFlag | simplessd/ftl/page_mapping.cc:406-410 | A write, up to collection, sets bReclaimMore exactly if it took a fresh block |
| FtlChannels.MoveBlocksFlag | simplessd/ftl/page_mapping.cc:406-410 | After the copies of a collection bReclaimMore is set exactly if it was before or the copies took a fresh block |
| FtlChannels.RunStaysOnChannels | simplessd/ftl/page_mapping.cc:383-413 | Over every run in which the channel asked for has a free block whenever one is asked for, the block of head i stays congruent to i modulo the heads |
| FtlChannels.HeadsKeepTheirChannels | simplessd/ftl/page_mapping.cc:61-66 | From construction on: the constructor puts head i on residue i whatever the order of the free list, and there it stays over every such run |
| FtlFlash.ProgramsErased | simplessd/ftl/page_mapping.cc:768-812 | A unit is programmed where the flash is erased, and nothing else in the flash changes |
| FtlFlash.StoreDisciplined | simplessd/ftl/page_mapping.cc:708-812 | A write overwrites nothing that is programmed; the flash holds data in exactly the programmed units of the blocks in use, the pages of a lane from the first on |
| FtlFlash.CollectedDisciplined | simplessd/ftl/page_mapping.cc:527-653 | A collection leaves all flash outside its victims as it was, but for what it programs in erased units, and leaves nothing in the victims |
| FtlFlash.FlashIsDisciplined | simplessd/ftl/page_mapping.cc:38-250 | From construction on, over every run, the flash holds data in exactly the programmed units of the blocks in use |
| FtlCapacity.StoreVacant | simplessd/ftl/page_mapping.cc:708-812 | With the tweak off, a write costs exactly one of the pages left in free blocks and behind heads; replacing a full head costs none |
| FtlCapacity.MoveBlocksVacant | simplessd/ftl/page_mapping.cc:544-615 | Copying costs exactly one page for each page of the victims that is reported valid |
| FtlCapacity.GreedyAverage | simplessd/ftl/page_mapping.cc:488-522 | Greedy victims hold at most their share of the valid units of all full blocks |
| FtlCapacity.ValidBound | simplessd/ftl/page_mapping.cc:708-812 | With the tweak off, different blocks hold no more valid units than the table has rows |
| FtlCapacity.CollectionPays | simplessd/ftl/page_mapping.cc:527-653 | Where alive blocks beyond heads and reserve hold more pages than there are LPNs, a greedy collection that retires no block and loses no head goes through and leaves more pages than it found |
| FtlCapacity.NeverRunsOut | simplessd/ftl/page_mapping.cc:201-250 | Then, over every run of reads, writes and trims whose collections are like that, no request halts and every one is answered like a map |
| FtlCapacity.OverProvisioned | simplessd/ftl/ftl.cc:38-68 | The same from construction on: blocks less heads and reserve that hold more pages than there are LPNs are enough for every such run |
| FtlPolicies.FirstFitIsLeastWorn | simplessd/ftl/page_mapping.cc:322-358 | The baseline takes a least-worn free block of the requested residue, or a least-worn one overall if there is none |
| FtlPolicies.LeastWornChannelCorrect | simplessd/ftl/la_page_mapping.cc:329-388 | The chosen channel has the least average among non-empty channels, the requested one on a tie; the block is least-worn in it and the fallback is unreachable (what the averages are: SumOnIs; what they are for: WornChannelSpared) |
| FtlPolicies.SumOnIs | simplessd/ftl/la_page_mapping.cc:337-341 | What LA adds up per channel is the erase counts of its free blocks, and their number |
| FtlPolicies.WornChannelSpared | simplessd/ftl/la_page_mapping.cc:343-359 | If every free block of some channel is worn less than every free block of the requested one, the block taken does not lie on the requested one |
| FtlPolicies.WeightedIsProportional | simplessd/ftl/rbpa_page_mapping.cc:335-381 | The weighted choice takes candidate k exactly when the draw lands in its stretch of the cumulative weights |
| FtlPolicies.PrefixAddsUp | simplessd/ftl/rbpa_page_mapping.cc:355-362 | The stretches of the candidates follow each other without a gap, each as long as its weight |
| FtlPolicies.FresherIsLikelier | simplessd/ftl/rbpa_page_mapping.cc:349-362 | Of two candidates the one worn less has the longer stretch, for every increasing power of the erases left and one |
| FtlPolicies.CostsAgreeIff | simplessd/ftl/rbpa_page_mapping.cc:455-479 | Budget-aware and wear-aware costs of a block agree exactly when the clamp does not bite |
| FtlPolicies.SelectionCostsUnique | simplessd/ftl/wl_page_mapping.cc:447-512 | Any two selections of the cheapest full blocks have the same costs in the same order |
| FtlPolicies.RbpaAndWlAgree | simplessd/ftl/rbpa_page_mapping.cc:500-565 | In every state with lists in order, the two policies select victims of equal cost, for every threshold below 2 to the 32, and for others as long as no block in use is worn beyond the cut |
| FtlPolicies.AllCostsAgreeIff | simplessd/ftl/rbpa_page_mapping.cc:455-479 | The two costs agree on all blocks in use exactly when none is worn beyond the 32-bit cut of the threshold |
| FtlPolicies.LoadAdaptiveVictims | simplessd/ftl/la_page_mapping.cc:447-506 | What LA's victims leave out: in a victim's own channel only blocks with at least as many valid units, elsewhere only blocks whose channel is worn less by at least what the units they have fewer are worth |
| FtlPolicies.LoadAdaptiveWear | simplessd/ftl/la_page_mapping.cc:447-506 | A victim from a channel whose blocks are all worn less than all blocks of another channel has fewer valid units than any full block left out there |
| FtlPolicies.ChannelWearBetween | simplessd/ftl/la_page_mapping.cc:459-475 | A channel's wear lies between any bounds on the erase counts of its blocks, in use and free |
| FtlPolicies.MeanBalances | simplessd/ftl/la_page_mapping.cc:470-479 | The mean is that of the channels that have blocks: what some are above it, others are below |
| FtlPolicies.WearAwareVictims | simplessd/ftl/wl_page_mapping.cc:400-424 | Against any full block left out, a victim of equal wear has no more valid units, one of at least as many units no more wear, and where it has more units its lesser wear outweighs them at the scale set |
| FtlPolicies.BudgetAwareVictims | simplessd/ftl/rbpa_page_mapping.cc:455-479 | The same for the budget-aware victims, with the wear counted up to the cut |
| FtlAllocation.SearchLeastWorn | simplessd/ftl/la_page_mapping.cc:322-412 | The accumulate, argmin and search loops compute the least-worn-channel choice |
| FtlAllocation.Accumulate | simplessd/ftl/rbpa_page_mapping.cc:365-379 | The accumulating loop computes the weighted choice |
| FtlAllocation.SearchWeighted | simplessd/ftl/rbpa_page_mapping.cc:335-381 | Candidates, weights and draw together compute the weighted choice |
| FtlAllocation.SearchFirstFit | simplessd/ftl/page_mapping.cc:322-358 | The search loop computes the first block of the residue, or the front of the list |
| FtlAllocation.ChoosesWithin | simplessd/ftl/rbpa_page_mapping.cc:322-381 | Every allocation policy chooses a position of the list |
| FtlAllocation.PolicyLaw | simplessd/ftl/page_mapping.cc:322-358 | What each policy takes, told from the free list: a block of the residue asked for, a least-worn one there, or one from a channel worn less |
| FtlAllocation.SampleVictims | simplessd/ftl/page_mapping.cc:490-507 | The sampling loop ends exactly when enough different positions have been drawn, with the full blocks at the positions first drawn |
| FtlAllocation.SamplingEndsIff | simplessd/ftl/page_mapping.cc:490-507 | Some draws end the loop if and only if it asks for no more blocks than are full |
| FtlAllocation.SelectVictims | simplessd/ftl/wl_page_mapping.cc:447-512 | The victims are distinct full blocks in use, as many as asked for or all, in ascending cost, and none left out is cheaper |
| PageMappingFtl.PageMapping.constructor | simplessd/ftl/page_mapping.cc:38-59 | The object starts in the fresh state over the given free list |
| PageMappingFtl.PageMapping.AllocateHeads | simplessd/ftl/page_mapping.cc:61-66 | Claims a block per head, as the step function; on a new object it succeeds exactly with a free block per head, and the object holds the empty map |
| PageMappingFtl.PageMapping.GetFreeBlock | simplessd/ftl/page_mapping.cc:322-381 | Takes the policy's block out of the list and puts it in use, or halts, as the step function |
| PageMappingFtl.PageMapping.GetNextWritePageIndex | simplessd/ftl/common/block.cc:244-254 | The loop computes the highest write pointer of a block |
| PageMappingFtl.PageMapping.GetLastFreeBlock | simplessd/ftl/page_mapping.cc:383-414 | Turns to a head, replaces it when it is full and reports "Corrupted", as the step function, about which FtlChannels says for which residue the fresh block is asked |
| PageMappingFtl.PageMapping.SelectVictimBlock | simplessd/ftl/page_mapping.cc:455-525 | Selects the number of victims computed from nFreeBlocks, one more per head after a head ran full: the cheapest full blocks in use, in ascending cost, all valid victims |
| PageMappingFtl.PageMapping.ReadInternal | simplessd/ftl/page_mapping.cc:655-706 | The loop returns what the step function reads |
| PageMappingFtl.PageMapping.StoreInternal | simplessd/ftl/page_mapping.cc:708-812 | The two loops reach the state of the step function, or its halt |
| PageMappingFtl.PageMapping.WriteInternal | simplessd/ftl/page_mapping.cc:708-848 | Store and, when the threshold says so, collection |
| PageMappingFtl.PageMapping.Read | simplessd/ftl/page_mapping.cc:201-217 | A read of an object that holds a map always returns, and answers from the map |
| PageMappingFtl.PageMapping.Write | simplessd/ftl/page_mapping.cc:219-237 | A host write, counted, as the step function, with the victims it reports; an object that holds a map holds it with just the named units overwritten when the write returns |
| PageMappingFtl.PageMapping.Trim | simplessd/ftl/page_mapping.cc:239-250 | A trim takes one LPN out of the map that the object holds, or halts at a partly mapped LPN |
| PageMappingFtl.PageMapping.TrimInternal | simplessd/ftl/page_mapping.cc:850-878 | Invalidates the units and drops the row, or halts, as the step function |
| PageMappingFtl.PageMapping.EraseInternal | simplessd/ftl/page_mapping.cc:880-956 | Erases, and inserts or retires the block, as the step function |
| PageMappingFtl.PageMapping.MoveUnitLater | simplessd/ftl/page_mapping.cc:573-611 | Deferring the physical copy of one unit loses nothing: replaying the deferred writes gives the immediate copy |
| PageMappingFtl.PageMapping.CollectRequests | simplessd/ftl/page_mapping.cc:544-623 | Going through all victims collects reads, writes and erases whose replay is the page-by-page copy; no destination is a victim |
| PageMappingFtl.PageMapping.ReadAll | simplessd/ftl/page_mapping.cc:625-633 | The read batch holds every unit that was fetched |
| PageMappingFtl.PageMapping.WriteAll | simplessd/ftl/page_mapping.cc:635-641 | The write batch reaches the contents of replaying the writes one by one |
| PageMappingFtl.PageMapping.DoGarbageCollection | simplessd/ftl/page_mapping.cc:527-653 | Three batches (reads, writes, erases) reach exactly the state of copying page by page and then erasing |
| FtlBatches.ReplayOneMore | simplessd/ftl/page_mapping.cc:625-649 | Reading first does not matter: sources lie in victims and destinations do not |
| FtlBatches.AllocationSparesVictims | simplessd/ftl/page_mapping.cc:427-432 | Allocation never names a victim, since victims are full |
| WearInit.ApplyInitialWear | simplessd/ftl/wear_init.cc:36-83 | The list that comes out has the same blocks, the chosen ones pre-worn, sorted by erase count; it fails exactly for a ratio that asks for more blocks than there are |
| WearInit.PrewornIsInitialIff | simplessd/ftl/wear_init.cc:43-76 | The pre-worn list is one to start from if and only if the pre-wear is below the erase threshold |
| WearInit.RoundsDown | simplessd/ftl/wear_init.cc:43-48 | The number of blocks to pre-wear and their erase count are the products rounded down; more blocks than there are are asked for exactly when the product is at least one more than their number, and the pre-wear is below the threshold exactly for an erase ratio below one |
| DcaMapping.SearchHits | simplessd/ftl/dca_mapping.cc:355-390 | With counters that agree with the list, the search for the best parallel unit always finds a block: the fallback is unreachable |
| DcaMapping.TakeAgrees | simplessd/ftl/dca_mapping.cc:348-397 | Taking a block and decrementing its unit's counter keeps counters and list in agreement |
| DcaMapping.PutAgrees | simplessd/ftl/dca_mapping.cc:935-959 | Returning a block and incrementing its unit's counter keeps counters and list in agreement |
| DcaMapping.Allocator.constructor | simplessd/ftl/dca_mapping.cc:45-50 | The initial counters agree with the initial list, and are all equal when the blocks are a multiple of the units |
| DcaMapping.Allocator.AllocateHeads | simplessd/ftl/dca_mapping.cc:54-57 | The heads get different blocks, exactly when there are enough; with as many free blocks on every unit, head i gets a block of unit i |
| DcaMapping.Allocator.GetBestParallelUnit | simplessd/ftl/dca_mapping.cc:433-449 | Returns a unit with the most free blocks |
| DcaMapping.Allocator.GetFreeBlock | simplessd/ftl/dca_mapping.cc:348-397 | Takes the first free block of the first unit with the most free blocks, which always has one, and keeps the counters in agreement |
| DcaMapping.Allocator.EraseInternal | simplessd/ftl/dca_mapping.cc:913-965 | Erasing returns or retires the block and keeps the counters in agreement |
| NandAddress.DeriveParameters | simplessd/pal/pal.cc:41-87 | The derived super block and unit counts are the sizes of the two index spaces of address translation |
| NandAddress.IndexSpaces | simplessd/pal/pal.cc:41-87 | The two counts do not depend on the allocation order |
| NandAddress.LocateOfAddress | simplessd/pal/pal_old.cc:159-318 | Every (super block, page, unit) has an address on the device from which it is found again; the plane is 0 in multi-plane mode |
| NandAddress.AddressOfLocate | simplessd/pal/pal_old.cc:159-318 | Every address on the device is the address of exactly the indices located: the map is onto |
| NandAddress.SameParallelUnitIff | simplessd/ftl/ftl.cc:44 | Two blocks share a parallel unit exactly when their indices agree modulo pageCountToMaxPerf |
| NandAddress.AddressByDivision | simplessd/pal/pal_old.cc:184-242 | Every position by division: of the block index along a dimension outside the super block, of the unit index inside it, each by the dimensions of its kind that come before in the allocation order; the rest is the block |
| NandAddress.ListingIsExact | simplessd/pal/pal_old.cc:244-318 | As many addresses as flags, each of a flagged unit of that page and super block, in ascending order of units |
| NandAddress.SplitBlockIndex | simplessd/pal/pal_old.cc:184-242 | The first loop leaves the block index's digits along the direct dimensions and collects the others |
| NandAddress.ListUnits | simplessd/pal/pal_old.cc:244-313 | The nested loops run through the units in order and end with the counter at the number of flags |
| NandAddress.ConvertCPDPBP | simplessd/pal/pal_old.cc:159-318 | The list holds the address of every flagged unit in unit order; it gives up exactly on flags of the wrong size with the tweak on, and the halt behind the loops is unreachable |
| MixedRadix.DigitsOfCompose | simplessd/pal/pal_old.cc:184-242 | Taking apart what was put together gives the digits and the rest back |
| MixedRadix.ComposeOfDigits | simplessd/pal/pal_old.cc:184-242 | Putting together what was taken apart gives the number back, with every digit below its radix |
| DramCommands.SumIsLength | lib/drampower/src/MemoryPowerModel.cc:181-185 | The counters that form window_cycles, counting a timeline, add up to its length |
| DramCommands.SrexSpends | lib/drampower/src/CmdHandlers.cc:371-569 | The three cases of self-refresh exit count the cycles of the timeline, category by category |
| DramCommands.SrefSoFar | lib/drampower/src/CmdHandlers.cc:598-626 | The three cases of a trace ending in self-refresh count the cycles of the timeline |
| DramCommands.CommandAnalysis.constructor | lib/drampower/src/CommandAnalysis.cc:63-90 | The initial state accounts for no cycle |
| DramCommands.CommandAnalysis.NActiveBanks | lib/drampower/src/CAHelpers.cc:82-85 | Counts the active banks |
| DramCommands.CommandAnalysis.HandleAct | lib/drampower/src/CmdHandlers.cc:59-83 | Charges the precharge time before the first activation and moves the frontier |
| DramCommands.CommandAnalysis.HandleRef | lib/drampower/src/CmdHandlers.cc:111-134 | Charges precharge time and RFC - RP active cycles and moves the frontier behind them |
| DramCommands.CommandAnalysis.HandlePre | lib/drampower/src/CmdHandlers.cc:154-186 | Charges the active time exactly when the last active bank closes |
| DramCommands.CommandAnalysis.HandlePreA | lib/drampower/src/CmdHandlers.cc:188-226 | Charges the active time when any bank was active |
| DramCommands.CommandAnalysis.HandlePdnAct | lib/drampower/src/CmdHandlers.cc:228-268 | Active power-down, fast or slow: charges active time up to its start and enters that power-down (which one: DramTimeline.PowerDownCycle) |
| DramCommands.CommandAnalysis.HandlePdnPre | lib/drampower/src/CmdHandlers.cc:270-296 | Precharged power-down, fast or slow: charges precharge time up to its start |
| DramCommands.CommandAnalysis.HandlePupAct | lib/drampower/src/CmdHandlers.cc:298-327 | Charges the power-down and restores the banks |
| DramCommands.CommandAnalysis.HandlePupPre | lib/drampower/src/CmdHandlers.cc:329-353 | Charges the power-down |
| DramCommands.CommandAnalysis.HandleSREn | lib/drampower/src/CmdHandlers.cc:355-369 | Charges precharge time up to self-refresh |
| DramCommands.CommandAnalysis.HandleSREx | lib/drampower/src/CmdHandlers.cc:371-569 | Charges every cycle of self-refresh and of the power-up to exactly one counter, in all three cases |
| DramCommands.CommandAnalysis.HandleNopEnd | lib/drampower/src/CmdHandlers.cc:572-627 | Charges what has passed since the frontier, except inside self-refresh before its start; exactly when a NOP in mid-trace keeps counters and frontier in step |
| DramCommands.CommandAnalysis.HandleAfterNop | lib/drampower/src/CmdHandlers.cc:572-627 | Outside self-refresh the cycles between the frontier and a NOP are charged again by the next command, which puts the sum ahead of the frontier by as many |
| DramCommands.CommandAnalysis.EvaluateCommands | lib/drampower/src/CommandAnalysis.cc:214-262 | For every legal trace, the counters count the trace's timeline and their sum is the cycle reached; after END it is the maximum of frontier and end time |
| DramTimeline.PowerDownCycle | lib/drampower/src/CmdHandlers.cc:228-353 | A cycle of a legal trace is spent in one of the four power-downs exactly when the latest command at or before it that changes the power state is the one that enters it |
| DramTimeline.ActiveCycle | lib/drampower/src/CmdHandlers.cc:59-226 | Outside power-down and self-refresh, a cycle of a legal trace in time order is active exactly when some bank's latest command is its activation, or the cycle falls on the first RFC - RP cycles of a refresh; else it is precharged |
| DramTimeline.SelfRefreshCycle | lib/drampower/src/CmdHandlers.cc:355-569 | A cycle of a legal trace is charged to self-refresh exactly when one has been entered and has not been left, or its first RFC cycles are not over |
| DramTimeline.CountersByName | lib/drampower/src/MemoryPowerModel.cc:181-185 | Counters that count a timeline: each is the number of cycles of the category it is named for |
| DramTimeline.ActivePowerDown | lib/drampower/src/CmdHandlers.cc:228-327 | ACT, active power-down, power-up, PRE at any times: the counter of that power-down alone grows by the time between the middle two, actcycles by the rest |
| DramTimeline.PrechargedPowerDown | lib/drampower/src/CmdHandlers.cc:270-353 | The same for a precharged power-down before an ACT |
| FifoSplit.CalcSizeIsLeast | simplessd/util/fifo.cc:99-107 | From one transfer unit on, the size counted is the least multiple of the unit that holds the entry; below, it is the size itself |
| FifoSplit.TilesOne | simplessd/util/fifo.cc:121-139 | The chunks of a request are non-empty, consecutive, fill exactly its range, and only the final one is marked last |
| FifoSplit.TilesSplit | simplessd/util/fifo.cc:121-139 | Cutting the front after one unit keeps the chunks a tiling of the requests |
| FifoSplit.TilesCallbacks | simplessd/util/fifo.cc:206-219 | Finishing all chunks fires every request's callback exactly once, in order of arrival |
| FifoSplit.FinishedCallbacks | simplessd/util/fifo.cc:206-219 | Chunks finished so far have fired the callbacks of the oldest requests, and no others |
| FifoWrite.TakeKeeps | simplessd/util/fifo.cc:109-232 | Every enabled step finds the entry it takes, keeps the wake-up and accounting invariant, and, unless it is an arrival, leaves less to do |
| FifoWrite.RunKeeps | simplessd/util/fifo.cc:109-232 | The same over every interleaving; callbacks fire once each, in order |
| FifoWrite.RunEnds | simplessd/util/fifo.cc:109-232 | Without new requests every run ends within a bound computed from the state |
| FifoWrite.RunFits | simplessd/util/fifo.cc:109-118 | In every interleaving an entry waits only while there is no room for it; if every request fits the queue by itself, usage never exceeds wqSize |
| FifoWrite.RunInUnits | simplessd/util/fifo.cc:121-139 | In every interleaving all chunks but the last of a request are one transfer unit; if every request fits the queue by itself, none is cut |
| FifoWrite.LargeRequestOverflows | simplessd/util/fifo.cc:112-118 | A request of five units to a queue of two: three units are in the queue at once |
| FifoWrite.QuietIsFinished | simplessd/util/fifo.cc:109-232 | Where nothing is scheduled or in flight, all requests have been transferred whole and called back once |
| FifoWrite.InsertKeeps | simplessd/util/fifo.cc:109-162 | Inserting keeps usage the sum of the rounded sizes and leaves a waiting request served |
| FifoWrite.Queue.DoInsertWrite | simplessd/util/fifo.cc:109-162 | insertWrite, as the step function |
| FifoWrite.Queue.DoInsertWriteDone | simplessd/util/fifo.cc:164-173 | insertWriteDone, as the step function |
| FifoWrite.Queue.DoTransferWrite | simplessd/util/fifo.cc:175-187 | transferWrite, as the step function |
| FifoWrite.Queue.DoTransferWriteDone | simplessd/util/fifo.cc:189-204 | transferWriteDone, as the step function |
| FifoWrite.Queue.DoTransferWriteDoneNext | simplessd/util/fifo.cc:206-232 | transferWriteDoneNext, as the step function; the callback is called exactly for a last chunk |
| FifoWrite.Queue.DoDmaWrite | simplessd/util/fifo.cc:408-419 | dmaWrite, as the step function; a request of size zero is ignored |
| FifoWrite.Queue.Do | simplessd/util/fifo.cc:109-232 | Any enabled step keeps the invariant and the order of callbacks |
| FifoRead.TakeKeeps | simplessd/util/fifo.cc:234-393 | Every enabled step finds the entry it takes, keeps the mirrored invariant with the list of half-finished chunks known exactly, and, unless it is an arrival, leaves less to do |
| FifoRead.RunKeeps | simplessd/util/fifo.cc:234-393 | The same over every interleaving; callbacks fire once each, in order |
| FifoRead.RunEnds | simplessd/util/fifo.cc:234-393 | Without new requests every run ends within a bound computed from the state |
| FifoRead.RunFits | simplessd/util/fifo.cc:234-243 | In every interleaving an entry waits only while there is no room for it; if every request fits the queue by itself, usage never exceeds rqSize |
| FifoRead.RunInUnits | simplessd/util/fifo.cc:245-265 | In every interleaving all chunks but the last of a request are one transfer unit; if every request fits the queue by itself, none is cut |
| FifoRead.QuietIsFinished | simplessd/util/fifo.cc:234-393 | Where nothing is scheduled or in flight, all requests have been read whole and called back once, and no half-finished chunk is left |
| FifoRead.UpstreamDoneIs | simplessd/util/fifo.cc:288-313 | The end of a DMA merges with a finished insertion exactly when the front waits for it |
| FifoRead.InsertDoneIs | simplessd/util/fifo.cc:336-365 | The end of an insertion merges with a finished DMA exactly when there is one |
| FifoRead.Queue.DoFind | simplessd/util/fifo.cc:87-97 | Finds the first half-finished chunk of that id |
| FifoRead.Queue.DoTransferRead | simplessd/util/fifo.cc:234-286 | transferRead, as the step function |
| FifoRead.Queue.DoTransferReadDone | simplessd/util/fifo.cc:288-313 | transferReadDone, as the step function |
| FifoRead.Queue.DoInsertRead | simplessd/util/fifo.cc:315-334 | insertRead, as the step function |
| FifoRead.Queue.DoInsertReadDone | simplessd/util/fifo.cc:336-349 | insertReadDone, as the step function |
| FifoRead.Queue.DoInsertReadDoneMerge | simplessd/util/fifo.cc:351-365 | insertReadDoneMerge, as the step function |
| FifoRead.Queue.DoInsertReadDoneNext | simplessd/util/fifo.cc:367-393 | insertReadDoneNext, as the step function; the callback is called exactly for a last chunk |
| FifoRead.Queue.DoDmaRead | simplessd/util/fifo.cc:395-406 | dmaRead, as the step function; a request of size zero is ignored |
| FifoRead.Queue.Do | simplessd/util/fifo.cc:234-393 | Any enabled step keeps the invariant and the order of callbacks |
| CachedFtl.RequestsStore | simplessd/icl/generic_cache.cc:305-345 | The write requests of a cache, served by the FTL in order, leave in its map what the cache takes it to hold |
| CachedFtl.ReadsThroughBoth | simplessd/icl/generic_cache.cc:548-752 | Cache and FTL together, with garbage collection anywhere: every address the host wrote reads back its newest version, from its line or through the mapping |
| WriteCache.SlotOfTag | simplessd/icl/generic_cache.cc:226-231 | The eviction slot of a line is within bounds, its row is the line's unit and its column its page modulo parallelIO, and page and unit written back are those of its own tag only |
| WriteCache.Cache.ReadsNewest | simplessd/icl/generic_cache.cc:548-752 | Every address the host wrote reads back its newest version, from its line or from the FTL |
| WriteCache.Cache.GetValidWay | simplessd/icl/generic_cache.cc:255-272 | Finds the way that holds an address, or that none does |
| WriteCache.Cache.GetEmptyWay | simplessd/icl/generic_cache.cc:233-253 | Finds the oldest free way, or that there is none |
| WriteCache.Cache.Compare | simplessd/icl/generic_cache.cc:102-194 | The three policies' choice between two lines, either of which may be missing |
| WriteCache.Cache.EvictCache | simplessd/icl/generic_cache.cc:305-345 | The lines in the slots, and no others, are cleaned and, when flushed, gone; each dirty one among them is written to its own page and unit by one request, and nothing else is sent; no version is lost and all slots are cleared |
| WriteCache.Cache.FillSlots | simplessd/icl/generic_cache.cc:645-654 | Every slot ends with a valid line of its row that is, by the policy, at least as old as every valid line of its position |
| WriteCache.Cache.MergeSlots | simplessd/icl/generic_cache.cc:656-666 | Super-page mode leaves one line per row, in the last column, at least as old as every line chosen in that row |
| WriteCache.Cache.ChooseInSet | simplessd/icl/generic_cache.cc:681-696 | Picks a valid line of the set at least as old as all others, or none if the set has no valid line |
| WriteCache.Cache.FindSet | simplessd/icl/generic_cache.cc:668-678 | Tells exactly whether a line of the set has been chosen |
| WriteCache.Cache.SlotsByPolicy | simplessd/icl/generic_cache.cc:645-696 | What is in the slots is what the policy says: of each row, or position, the oldest line, and one oldest line of the set exactly if those miss it |
| WriteCache.Cache.FlushSet | simplessd/icl/generic_cache.cc:641-708 | Told from the lines before and after: in super-page mode one line of every row goes, in the other mode one of every position, by the policy at least as old as every line of it; if those miss the set, an oldest line of the set goes too, in the stead of its position's choice or, in super-page mode off the last column, besides its row's; all other lines stay as they were, and the requests sent are those of the dirty lines that went, each once. A way of the set is free afterwards and no version is lost |
| WriteCache.Cache.Write | simplessd/icl/generic_cache.cc:548-752 | After a write the address's line holds the version written, accessed no earlier than the call, and dirty unless the whole line was written and nothing evicted; a write that evicts takes exactly what FlushSet says, any other takes nothing but an older version of the address; besides its own request for a whole line it sends those of the evicted lines only; it returns true exactly on a hit or with a free way, and the "Cache corrupted!" halt is unreachable |
| PrpList.WalkRegion | sil/nvme/prp.cc:90-119 | Following the lists of a filled region as section 4.3 of NVM Express 1.3 prescribes meets exactly the data pages, ascending, as many as the transfer needs, and data and list pages fill the region |
| PrpList.WalkFilled | sil/nvme/prp.cc:90-119 | From any entry of any list the walk yields exactly the remaining pages that are not list pages |
| PrpList.DataPagesExactly | sil/nvme/prp.cc:90-119 | Those pages, ascending and distinct, are all pages of the range but the list pages |
| PrpList.Prp.Sizes | sil/nvme/prp.cc:32-66 | The capacity is data pages plus list pages, and the lists hold one entry per data page and next list |
| PrpList.Prp.FillLists | sil/nvme/prp.cc:90-119 | Every entry of every list is the address of the next page in line; the terminating zero hits no entry |
| PrpList.Prp.constructor | sil/nvme/prp.cc:32-120 | For every size, whoever follows PRP1 and PRP2 finds the transfer's data pages; the program's own page list agrees exactly up to two pages |
| EventEngine.InsertKeeps | sim/engine.cc:35-74 | A freshly scheduled entry keeps events run and to run in order of tick and, among equal ticks, of scheduling |
| EventEngine.WithoutKeeps | sim/engine.cc:76-89 | Removing an event removes its one entry and keeps the order |
| EventEngine.MoveIs | sim/engine.cc:63-73 | Inserting the moved entry and then erasing the old one is removing and then inserting |
| EventEngine.Engine.Scan | sim/engine.cc:35-61 | One pass finds the event's entry and the first later entry |
| EventEngine.Engine.InsertEvent | sim/engine.cc:35-74 | Moves or inserts the event; a rescheduling to the same tick is ignored |
| EventEngine.Engine.RemoveEvent | sim/engine.cc:76-89 | Removes the event's entry, if any |
| EventEngine.Engine.AllocateEvent | sim/engine.cc:111-119 | The new event is not allocated yet |
| EventEngine.Engine.ScheduleEvent | sim/engine.cc:121-151 | Schedules an allocated event, never in the past, behind what was scheduled before for the same tick |
| EventEngine.Engine.DescheduleEvent | sim/engine.cc:153-162 | Takes the event out of the queue |
| EventEngine.Engine.DeallocateEvent | sim/engine.cc:178-188 | Takes the event out of queue and list, so that only allocated events are queued |
| EventEngine.Engine.DoNextEvent | sim/engine.cc:190-227 | Takes the first entry, which comes before all others; the clock never goes back, and the event is always allocated: the halt is unreachable |

## Left out

- Latencies, ticks, printing, statistics, snapshots and configuration parsing; they do not affect mapping, wear or contents. The write cache keeps its time stamps, with the time an access takes left open; the simulated clock is taken to stay below the largest 64-bit tick.
- Integer widths and overflow, except the 32-bit cut of the erase threshold in the budget-aware cost. Floating point is modelled over the reals; the power in the budget-aware weight is any increasing function.
- PageMappingFtl.PageMapping.SelectVictimBlock: the object selects among all full blocks; the sampling of the random and d-choice policies is FtlAllocation.SampleVictims, which the object does not call, and the cost-benefit weight, which depends on access times, is not modelled. The run results hold for any victims. The number of blocks to reclaim is a function of nFreeBlocks, for either GC mode, and the weight one of the blocks in use and the free list.
- `format`, whose collection may include partly filled write heads, and the filling done by `initialize`, which are ordinary writes.
- Read-modify-write of partial pages with the random-I/O tweak off: a write then stands for a whole page.
- FtlSpace.FewBlocksTaken: with the random-I/O tweak off, as the property is stated in terms of pages; with the tweak on the need for fresh blocks is that of `FtlPlan.CopiesHaltIff`.
- FtlRuns.RunRefines: victims must be distinct full blocks in use about whose pages getPageInfo is right; see the findings above for what happens otherwise.
- FtlCapacity.OverProvisioned: with the random-I/O tweak off and more than one I/O unit per page; the collections of the run are assumed to start and to choose as stated, to lose no head and to retire no block.
- CachedFtl.ReadsThroughBoth: the FTL serves the requests in the order the cache sends them; a halt of the FTL ends the claim.
- FtlChannels.RunStaysOnChannels: for runs in which the channel asked for has a free block; where it has none the source takes any block, which the model does too, and the head then lies on another channel.
- FtlRuns.RunKeepsHeads: the policy must not leave a collected block as a head; the source's own policies can, see the findings above.
- `Block` is a value: moving it between containers, its access time and its erased bits, which follow from the write pointers, are not modelled.
- The FTL's hash-map iteration order: victims are selected over the blocks in any order of the selection that the source's sort leaves open.
- Per-bank counters, idle and power-up cycles and the latest-command markers of the command analysis, windows after the first, and the splitting of auto-precharge commands; RD, WR and REFB touch none of the modelled counters.
- DramCommands.CommandAnalysis.EvaluateCommands: for legal traces only, in which commands fit the memory state and none comes before the accounted cycle.
- A FIFO upstream that completes within the call that starts it.
- The cache's read, prefetch, flush and trim paths; with write caching off the model assumes no lines at all.
- PRP `readData` and `writeData`, allocation failure, NVMe queues and the controller.
- The engine's threads and locks, and what event handlers do: they act as further operations after the event is taken.
- `A2CMapping`, which only chooses the head at random.
