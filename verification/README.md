# NovaCoin in Dafny

A model of the consensus core of the NovaCoin node and proofs of what it keeps. The node stores a
tree of block index entries, an index that says for every transaction where it lies and which of its
outputs are spent, and a best block that it moves when a branch with more trust arrives. Around that
sit the synchronised checkpoints, the parallel queue of script checks, the address manager, the
proof-of-stake kernel, the miner, and a few codecs and pieces of integer arithmetic.

Where the source changes things in place the model is a class or a method with loops; where it
computes it is functions. Every method is proved against a specification function or a stated
property, and the properties that span calls are lemmas about those functions.

## How the modules fit

- `Transactions`, `TxDb`, `BlockTree`: the data, the rules for one transaction or block, and the tree.
- `Connect`, `Undo`: connecting a block to the index and taking it back. `Replay` defines the index of
  a block as what connecting every block from the genesis block on gives, and proves that no
  transaction id is ever used twice along a branch, from the rule that a coinbase starts with its height.
- `Supply`, `Reorg`, `Chain`, `Runs`: money, the fork search, the class `ChainState` with SetBestChain,
  and runs of its calls. The main results are `RunIsReplay`, `SetBestChain` and `CreatedBounded`.
- `Growth`: runs in which blocks only arrive. `Run` says that links, index and supplies then always stay in
  step, and that the best block has the most trust of all blocks whose branch connects.
- `Trust`: the trust of a block. `ContextRules`: the rules of AcceptBlock for targets and times, which together
  with the trusts hold over the tree of all accepted blocks.
- `Checkpoints`: a node whose best block never leaves the branch of any synchronised checkpoint.
  `Steady`: chains with a block every ten minutes, which keep the rules. `Postponed`: a run of a node on such a
  chain in which a postponed connect fails.
- `CheckQueue`: the master and worker protocol as a state machine over critical sections, for any
  number of workers and any interleaving. `QueueEnds`: the work left, and the end of every fair session.
- `AddrTables`, `AddrSteps`, `AddrEvict`, `AddrMan`, `AddrCheck`: the address tables, their invariant, every
  operation on them and the debug check. `AddrRuns`: any calls in any order. `AddrFile`, `AddrRoundTrip`: the file
  form and its round trip.
- `Sorting`, `StakeModifier`, `KernelScan`: the 64 selection rounds and the kernel scanners.
- `Miner`, `Mined`, `LateDraft`: drafting a block and its header, exactly when its block connects, and a block that does not.
  `Assembly`: what becomes of the block at the miner's own node (`Submit`).
- `Rewards`, `Compact`, `Retarget`, `MedianTime`, `Locator`, `Merkle`, `Digits`, `Base58`: arithmetic and codecs.

Hashes, signatures, scripts, coin age, the clock and random draws are parameters or arbitrary
choices. Money and times are unbounded integers.

## Results that differ from what one might expect

- A connect that SetBestChain postpones may fail after the switch; the best block is then set to the
  requested block although the index stops short of it. The state stays in step with the replay exactly
  if every postponed block connects (`Chain.ChainState.SetBestChain`). As long as blocks only arrive this
  cannot happen (`Growth.SwitchIffConnectable`). It does happen once a synchronised checkpoint has moved the best
  block below heavier blocks that never had to connect (`Postponed.PostponedFailure`; every block of that run has
  the trust GetBlockTrust gives it and keeps the rules for targets and times).
- The miner checks scripts without the two lock-time opcodes that a block is checked with. A drafted block
  connects exactly if it lies below the last hardened checkpoint or its scripts pass with those opcodes too
  (`Mined.MinedBlockConnects`), as all do that are older than the first switch time (`Mined.EarlyDraftConnects`).
  For every height from that checkpoint on, as long as times fit in 32 bits, `LateDraft.DraftDoesNotConnect` gives a
  chain that keeps the rules, a pool and a draft that the validator refuses.
- The miner dates a block at its clock, and AcceptBlock refuses a block more than twelve hours after the median
  of the last eleven (seven weeks until December 2015). A drafted block is never too early, and it is too late
  exactly if the clock, or the parent less two hours, is past that limit (`Assembly.FilledTimeOk`). A network that
  has stood still for longer than that refuses what its own miners make.
- Disconnecting undoes connecting exactly if none of the block's ids was in the index before
  (`Undo.UndoBlock`); along a replayed branch this always holds (`Replay.NoIdReused`).
- SelectTried is meant to find the least recent of the entries it inspects, but returns the position that
  entry was drawn from, after it has been swapped away. The entry at that position is a least recent one
  whatever is drawn exactly if all entries of the bucket succeeded last at the same time
  (`AddrEvict.EvictsLeastRecentIff`); for any other bucket longer than the four entries inspected, such as a full
  one, `AddrEvict.EvictsMoreRecent` gives draws by which a more recent entry goes.
- Good_ keeps the rule of the debug check that tried entries have a time of success exactly if the time
  reported for a known service is not zero (`AddrMan.AddrMan.Good`). Times after zero, in any calls in any order,
  leave nothing for the check to find (`AddrRuns.Use`).
- The forward kernel scan leaves out the remainder of the division of its interval by the number of
  threads. It finds all there is to find exactly if the number of threads divides the interval
  (`KernelScan.ForwardComplete`). The times that are missed are those of the remainder that pass the test
  (`KernelScan.MissedIff`); wherever there is a remainder `KernelScan.MissedTime` gives a coin with such a time.
- A comment in src/kernel.cpp says that a proof-of-stake block is always favoured by the selection. With every hash
  function it is, exactly if the selection hash of the proof-of-work block is at least 2^224 - 1
  (`StakeModifier.StakeFavouredIff`).
- A comment in src/kernel.cpp writes the kernel rule with a strict comparison; the code accepts equality,
  and so does the model.

## Model

| member | source | states |
|---|---|---|
| Transactions.CheckedBlockShape | src/main.cpp:2180-2288 | in a checked block exactly the first transaction is a coinbase, and a coinstake is only the second one of a proof-of-stake block |
| Transactions.GetMinFee | src/main.cpp:542-596 | a minimal fee is an amount of money, and at least a cent where a coinstake is charged one |
| Transactions.MinFeeGrows | src/main.cpp:542-596 | the minimal fee never falls when a transaction gets bigger or dustier or the block fuller |
| Transactions.SmallFee | src/main.cpp:542-596 | below a thousand bytes a transaction that is not free pays 200 to be relayed, 1000 otherwise and a cent as a coinstake, and as much again for each output below a cent |
| Transactions.FreeArea | src/main.cpp:562-573 | without such outputs it is free under a thousand bytes or in the first 27000 bytes of a block |
| Transactions.CrowdedFee | src/main.cpp:584-590 | between 250000 and 500000 bytes the fee is multiplied by how often the room left to 500000 goes into 500000 |
| Transactions.FullFee | src/main.cpp:584-590 | beyond 500000 bytes it is all the money there can be |
| Transactions.HeightScriptInjective | src/main.cpp:2340-2344 | no script starts with the heights of two different blocks |
| TxDb.SpendMarks | src/main.cpp:1468-1514 | marking inputs succeeds only on distinct unspent outputs and changes exactly their marks |
| TxDb.SpendSucceeds | src/main.cpp:1468-1514 | marking succeeds whenever the outputs are distinct and unspent |
| TxDb.UnspendUndoesSpend | src/main.cpp:1258-1291 | clearing the marks of a transaction gives back the index, whatever unrelated entries were dropped meanwhile |
| Connect.FetchInputs | src/main.cpp:1294-1367 | succeeds exactly if every input refers to an indexed transaction on disk with that output, queued changes first |
| Connect.ImmatureIff | src/main.cpp:1445-1449 | a position is immature exactly if it lies in a block of the branch less than 500 below |
| Connect.IsImmature | src/main.cpp:1445-1449 | the walk to the parents finds exactly these positions |
| Connect.CheckInputs | src/main.cpp:1433-1460 | accepts exactly if every input is mature, not later than the transaction, and every partial sum is an amount of money |
| Connect.MarkInputs | src/main.cpp:1468-1514 | marking working copies and writing them back equals marking the index itself, also with several inputs from one transaction |
| Connect.ConnectInputs | src/main.cpp:1423-1550 | accepts exactly by the rules for inputs, scripts with the flags of a block, and amounts, and marks the inputs |
| Connect.ConnectAll | src/main.cpp:1677-1738 | the loop with its queued changes computes the index and totals of connecting the transactions one after the other |
| Connect.ConnectBlock | src/main.cpp:1640-1773 | accepts exactly the blocks that connect, queues exactly their changes and reports what they create |
| Connect.ConnectedSpends | src/main.cpp:1433-1514 | every input of a connected block takes an output that is there and unspent when its turn comes, of no later a transaction, and one of a coinbase or coinstake only from 500 blocks below or more |
| Connect.SigOpsBounded | src/main.cpp:1690-1712 | a connected block runs at most 20000 signature operations, those of redeemed scripts included |
| Undo.ConnectHasEffect | src/main.cpp:1677-1738 | a connected block has the effect of its transactions on the index, and each overwrites at most a fully spent entry |
| Undo.DisconnectInputs | src/main.cpp:1258-1291 | frees the inputs and drops the entry of a transaction |
| Undo.DisconnectBlock | src/main.cpp:1603-1618 | takes back the transactions from the last to the first |
| Undo.UndoTx | src/main.cpp:1258-1291 | taking back a transaction after later ones were taken back leaves the index without it |
| Undo.UndoBlock | src/main.cpp:1603-1618 | disconnecting a block just connected gives the old index without the block's ids, and the old index itself exactly if none was in it, spends inside the block included |
| Replay.SpendingIsFresh | src/main.cpp:1646-1688 | a transaction that spends an unspent output is not in a replayed index |
| Replay.CoinbaseIsFresh | src/main.cpp:2340-2344 | a coinbase that starts with the next height is not in a replayed index |
| Replay.IndexIndexed | src/main.cpp:1640-1773 | every entry of a replayed index belongs to a stored transaction of the tree whose inputs are marked spent |
| Replay.NoIdReused | src/main.cpp:1646-1688 | no transaction id is used twice along a branch that can be replayed |
| Replay.DisconnectIsReplayOfParent | src/main.cpp:1603-1618 | disconnecting the tip of a replayed branch gives the replay of its parent |
| Replay.ConnectIsReplay | src/main.cpp:1640-1773 | connecting a block to the replay of its parent gives its replay |
| Supply.BlockTotal | src/main.cpp:1754-1756 | a connected block changes the total of unspent indexed outputs by its outputs less its inputs |
| Supply.FeesCollected | src/main.cpp:1714-1719 | fees are never negative, and what a block creates is its coinbase less fees, or at most the stake reward less fees |
| Supply.CreatedBounded | src/main.cpp:1516-1547 | a proof-of-work block creates at most its reward, a proof-of-stake block after the last checkpoint at most its reward less fees |
| Reorg.ForkIsLowestCommonAncestor | src/main.cpp:1797-1809 | the fork is an ancestor of both tips, and every common ancestor is an ancestor of it |
| Reorg.FindFork | src/main.cpp:1797-1809 | the two walking pointers meet in the fork |
| Reorg.DisconnectDownIsReplay | src/main.cpp:1825-1839 | disconnecting down to an ancestor gives its replay |
| Reorg.ConnectUpIsReplay | src/main.cpp:1841-1858 | connecting up from a replayed ancestor gives the replay of the tip |
| Reorg.ReorgIsReplay | src/main.cpp:1793-1864 | a reorganisation of a replayed index gives the replay of the new tip |
| Reorg.UnlinkTip | src/main.cpp:1866-1869 | cutting the link to a tip leaves exactly the links of its parent's branch |
| Reorg.LinkTip | src/main.cpp:1871-1874 | linking a tip leaves exactly the links of its branch |
| Reorg.SupplyStep | src/main.cpp:1754-1756 | recording a block's supply keeps every recorded supply equal to the total of its replay |
| Chain.ChainState.constructor | src/main.cpp:1922-1928 | the state after the genesis block is consistent and in step with the replay |
| Chain.ChainState.DisconnectBranch | src/main.cpp:1825-1839 | disconnects the old branch in a batch |
| Chain.ChainState.ConnectAndRecord | src/main.cpp:1754-1773 | connects a block and records its supply, or changes nothing |
| Chain.ChainState.ConnectBranch | src/main.cpp:1841-1858 | connects the new branch block by block, stopping at the first failure |
| Chain.ChainState.Relink | src/main.cpp:1866-1874 | the links become exactly those of the new branch |
| Chain.ChainState.Reorganize | src/main.cpp:1793-1887 | succeeds exactly if the new branch connects after the old one is disconnected; a failure leaves index and links unchanged |
| Chain.ChainState.SetBestChainInner | src/main.cpp:1891-1913 | attaches a block if it connects and changes nothing otherwise |
| Chain.IntermediateIs | src/main.cpp:1938-1948 | all blocks from the intermediate one to below the tip beat the best block, and the one below it does not |
| Chain.FindIntermediate | src/main.cpp:1936-1948 | finds the first block of the new branch that beats the best one |
| Chain.ChainState.ConnectPostponed | src/main.cpp:1961-1977 | attaches the postponed blocks up to the first failure |
| Chain.ChainState.SetBestChain | src/main.cpp:1915-1995 | a failed call leaves index, links and best block unchanged; a successful one stays in step with the replay exactly if the postponed blocks connect |
| Trust.GetBlockTrust | src/main.cpp:2372-2449 | the loops over the last twelve blocks give the trust that the next two rows state |
| Trust.StakeTrust | src/main.cpp:2386-2409 | from height 13 on a stake block adds 2^256 / (target + 1) if its parent is a work block and at least three of the last twelve blocks of the branch are, and a third of that otherwise |
| Trust.WorkTrust | src/main.cpp:2410-2448 | a work block adds its score and two thirds of what its parent added, or the full score of the parent's target if both blocks below it and at least seven of the last twelve are stake blocks |
| Trust.WorkParentTriples | src/main.cpp:2390-2408 | of two stake blocks with one target the one on a qualifying work parent adds three times as much |
| Trust.TrustPositive | src/main.cpp:2372-2449 | with targets within the proof-of-work limit every block adds at least one to the trust |
| Chain.ChainState.AddToBlockIndex | src/main.cpp:2100-2163 | adds the entry with its height and the trust of its branch, and moves the best block only for more trust, keeping the state consistent |
| Runs.MainChainIsBestBranch | src/main.h:1268-1271 | a block counts as in the main chain exactly if it is the best block or an ancestor of it |
| Runs.TipSupply | src/main.cpp:1754-1756 | the supply recorded for the tip is the total of the unspent indexed outputs |
| Runs.CallIsReplay | src/main.cpp:1915-1995 | a call that completes takes the replay of the old best block to the replay of the new one |
| Runs.RunIsReplay | src/main.cpp:1915-1995 | after any run of calls in which every postponed connect succeeds the index over the last tree is the one obtained by connecting the best branch from the genesis block |
| Growth.ReorgIffConnectable | src/main.cpp:1793-1864 | from an index in step, a reorganisation succeeds exactly if every block of the new branch connects to the replay of the one before |
| Growth.ConnectTxExtends | src/main.cpp:1677-1738 | whether and how a transaction connects does not change when other blocks are added to the tree |
| Growth.ConnectableExtends | src/main.cpp:1640-1773 | whether a branch connects does not change when other blocks are added to the tree |
| Growth.SwitchIffConnectable | src/main.cpp:1930-1977 | if no heavier block but the new one connects, the switch to it succeeds exactly if its branch connects, and then no postponed connect fails |
| Growth.ArrivalSettles | src/main.cpp:2157-2161 | after an arrival the best block again connects and has the most trust of all that do |
| Growth.Run | src/main.cpp:2100-2163 | after any arrivals in any order links, index and supplies are in step, and the best block has the most trust of all blocks that connect |
| Steady.SteadyRules | src/main.cpp:2303-2329 | a chain with a block every ten minutes at the limit keeps the rules for targets, times and trusts |
| Postponed.CheckpointSwitches | src/checkpoints.cpp:184-200 | a synchronised checkpoint takes the best block from a branch of three blocks to a block beside it |
| Postponed.LastSwitches | src/main.cpp:1936-1977 | a block on top of a coinbase above the reward: the switch succeeds and the postponed connect fails |
| Postponed.PostponedFailure | src/main.cpp:1961-1993 | a run of blocks that AcceptBlock accepts, with the trust it computes and the rules kept, and of one checkpoint, after which the best block lies above a block that does not connect |
| ContextRules.CheckInContext | src/main.cpp:2303-2329 | accepts exactly the target that is asked for, a time between the median and the offset, final transactions and hardened heights |
| ContextRules.AcceptedKeepsRules | src/main.cpp:2303-2318 | an accepted block keeps the rules for targets, times and trusts over the whole tree |
| ContextRules.TrustIncreases | src/main.cpp:2120 | along a branch of positive targets trust grows by at least one a block |
| Checkpoints.Compare | src/checkpoints.cpp:124-153 | takes exactly the proper descendants of the current checkpoint and reports exactly the blocks off its line |
| Checkpoints.GrownWellFormed | src/main.cpp:2100-2148 | an accepted block keeps the tree well formed and extends it |
| Checkpoints.CheckpointedNode.constructor | src/main.cpp:2827-2829 | a node starts safe with the genesis block as its checkpoint |
| Checkpoints.CheckpointedNode.ValidateSyncCheckpoint | src/checkpoints.cpp:114-154 | accepts exactly the proper descendants and remembers a conflicting block |
| Checkpoints.CheckpointedNode.Advance | src/checkpoints.cpp:184-200 | moves to the checkpoint exactly if it is on the main chain or the switch to it succeeds, and stays safe |
| Checkpoints.CheckpointedNode.AcceptPendingSyncCheckpoint | src/checkpoints.cpp:172-213 | stays safe; on success the pending checkpoint has become the current one |
| Checkpoints.CheckpointedNode.ProcessSyncCheckpoint | src/checkpoints.cpp:430-478 | stays safe; an unknown checkpoint is kept as pending, and exactly a signed proper descendant that can be switched to becomes current |
| Checkpoints.CheckpointedNode.CheckSync | src/checkpoints.cpp:226-251 | lets a new block pass exactly if its parent descends from the checkpoint |
| Checkpoints.CheckpointedNode.AcceptBlock | src/main.cpp:2291-2371 | adds exactly the acceptable blocks, moves the best block for more trust, takes up a pending checkpoint, stays safe and keeps the rules for targets, times and trusts; a refused block changes nothing |
| Checkpoints.BestDescendsFromAll | src/checkpoints.cpp:141-153 | the best block descends from every checkpoint there ever was |
| CheckQueue.BatchOf | src/checkqueue.h:104-109 | a thread takes at least one check and at most the whole queue |
| CheckQueue.BatchShare | src/checkqueue.h:104-109 | a batch is the largest share of the queue among the threads, the idle ones counted twice, and one more, within the batch size |
| CheckQueue.StepKeeps | src/checkqueue.h:67-127 | every critical section, evaluated check and wake-up keeps the invariant, for any number of threads |
| CheckQueue.RunKeepsInv | src/checkqueue.h:67-127 | the invariant holds along every run |
| CheckQueue.CountersExact | src/checkqueue.h:74-103 | in every reachable state nTodo counts the queued and taken checks, nTotal the threads in the loop and nIdle the waiting ones |
| CheckQueue.WaitIsVerdict | src/checkqueue.h:88-99 | whenever Wait returns, it returns true exactly if every check added in the session passes |
| CheckQueue.MasterNeverStuck | src/checkqueue.h:80-102 | a waiting master without notification has a worker executing a batch |
| QueueEnds.StepWork | src/checkqueue.h:67-156 | only Add raises the work left, and taking, running or reporting a batch lowers it |
| QueueEnds.WorkBounded | src/checkqueue.h:67-156 | no run of any number of threads has more than three such steps for each check that was added |
| QueueEnds.NoWorkLeft | src/checkqueue.h:76-99 | in every reachable state no work is left exactly if nTodo is zero |
| QueueEnds.Progress | src/checkqueue.h:73-125 | while the master is in the loop a thread holds a batch, or the master has been notified and returns when it wakes |
| QueueEnds.CanReturn | src/checkqueue.h:73-125 | from every state with the master in the loop the threads with batches can bring Wait to its return |
| QueueEnds.SessionEnds | src/checkqueue.h:139-142 | in every fair run Wait returns, with the verdict on the checks added before it |
| CheckQueue.IdleBetweenSessions | src/checkqueue.h:174-196 | when the master is outside and nothing was added, the idle assertion of the next session holds |
| AddrTables.NewEntryHasBucket | src/addrman.cpp:291-307 | an entry that is not tried lies in some new bucket, so the bail-out of Good_ is never taken |
| AddrTables.Bounded | src/addrman.cpp:437-492 | there are at most 4096 tried and 16384 new entries, and every entry is listed once in random order |
| AddrTables.GroupBounded | src/addrman.cpp:11-24 | at most 256 of the tried entries belong to one network group |
| AddrTables.SourceBounded | src/addrman.cpp:26-39 | what one network group announces goes to at most 32 of the 256 new buckets |
| AddrSteps.StatisticsKeep | src/addrman.cpp:281-285 | changing statistics keeps all tables consistent |
| AddrSteps.SwapKeeps | src/addrman.cpp:108-126 | a swap in the random order keeps positions and order inverse to each other |
| AddrSteps.ReplaceKeeps | src/addrman.cpp:236-261 | exchanging a tried entry for a new one keeps all tables consistent |
| AddrMan.AddrMan.Find | src/addrman.cpp:83-94 | finds the entry of an address if and only if there is one |
| AddrMan.AddrMan.Create | src/addrman.cpp:96-106 | adds an entry under the next id at the end of the random order |
| AddrMan.AddrMan.SwapRandom | src/addrman.cpp:108-126 | exchanges two places of the random order and nothing else |
| AddrMan.AddrMan.SelectTried | src/addrman.cpp:128-150 | shuffles the bucket by the draws and returns the place the first least recent inspected entry was drawn from |
| AddrEvict.EvictsLeastRecentIff | src/addrman.cpp:128-150 | whatever is drawn from a bucket longer than what is inspected, the entry returned is a least recent one of those inspected, exactly if all entries of the bucket are equally recent |
| AddrEvict.EvictsMoreRecent | src/addrman.cpp:128-150 | for every other such bucket, draws by which an entry is returned that is more recent than one inspected |
| AddrMan.FindTerrible | src/addrman.cpp:157-176 | finds the first terrible entry in id order, or that there is none |
| AddrMan.GoodIsNotTerrible | src/addrman.cpp:41-59 | a service that answered is given up exactly when it has not been seen for more than 30 days |
| AddrMan.AttemptsAreCounted | src/addrman.cpp:41-59 | a service seen within 30 days and not tried in this minute is given up exactly after three attempts without a success, or ten more than seven days after the last |
| AddrMan.FindOldest | src/addrman.cpp:177-191 | finds the entry with the earliest time among the picked ones, and the least id among equals |
| AddrMan.ReleaseKeeps | src/addrman.cpp:164-172 | dropping a reference, and the entry with its last one, keeps all tables consistent |
| AddrMan.AddrMan.ShrinkNew | src/addrman.cpp:152-204 | drops the first terrible entry, or else the oldest of up to four picked ones, and keeps all tables consistent |
| AddrMan.AddrMan.Withdraw | src/addrman.cpp:210-218 | no new bucket keeps the entry and its count reaches zero |
| AddrMan.AddrMan.MakeTried | src/addrman.cpp:206-262 | appends the entry to its tried bucket, or exchanges it for the one SelectTried returns, which goes to the new bucket of its source or, if that is full, to where the entry came from |
| AddrMan.AddrMan.FindBucket | src/addrman.cpp:291-307 | the circular search from any starting bucket finds one that holds the entry |
| AddrMan.AddrMan.Good | src/addrman.cpp:264-313 | a known service ends up tried with the time of success, anything else changes nothing, no entry is lost, tried entries keep a time of success exactly if it is not zero, and no time is negative exactly if it is not |
| AddrMan.AddrMan.Add | src/addrman.cpp:315-371 | reports a new entry exactly for a routable unknown address, lists it once with the penalised time, and never loses a tried entry |
| AddrMan.AddrMan.UpdateKnown | src/addrman.cpp:324-352 | refreshes time and services only, and allows another reference exactly with newer information, fewer than four references and a zero drawn below 2 to the number of references |
| AddrMan.RefreshIsRare | src/addrman.cpp:326-330 | an announcement moves the time forward exactly if it is more than an hour later for a service online within a day, and more than a day later otherwise |
| AddrMan.AddrMan.Reference | src/addrman.cpp:361-369 | the entry is in the bucket of the source afterwards, counted once more exactly if it was not before |
| AddrMan.AddrMan.Attempt | src/addrman.cpp:373-390 | counts an attempt of exactly the known service |
| AddrMan.AddrMan.Connected | src/addrman.cpp:523-541 | refreshes the time of exactly the known service after twenty minutes |
| AddrMan.AddrMan.GetAddr | src/addrman.cpp:496-510 | returns 23 in a hundred entries, at most 2500, no two with the same address, moving only positions |
| AddrCheck.Check | src/addrman.cpp:437-492 | returns zero exactly if entries, counters and times are sound, tried buckets hold every tried entry once and new buckets hold each new entry as often as it says |
| AddrCheck.CheckedInvariant | src/addrman.cpp:437-492 | the check and what it does not look at, bucket sizes, places of tried entries, stray addresses and id bounds, make up the invariant |
| AddrRuns.SoundTimes | src/addrman.cpp:437-492 | of tables that keep the invariant the check asks only for times and successes |
| AddrRuns.Step | src/addrman.cpp:264-541 | after any one call the check still finds nothing exactly if the time recorded for a known service is one it accepts |
| AddrRuns.Use | src/addrman.cpp:437-541 | a new manager passes its check after any calls in any order with times after zero |
| AddrMan.AddrMan.Save | src/addrman.h:262-321 | writes the new and the tried entries by id and every bucket as ranks |
| AddrMan.AddrMan.Load | src/addrman.h:322-417 | rebuilds the tables from a file, losing an entry only if its tried bucket is full; with another number of buckets the new entries go to the bucket of their own source |
| AddrRoundTrip.BucketFits | src/addrman.h:362-386 | a tried bucket never overflows on loading a saved manager |
| AddrRoundTrip.ListsLoaded | src/addrman.h:388-416 | the lists of ranks restore the new buckets, the limit of four references never dropping one |
| AddrRoundTrip.RoundTrip | src/addrman.h:248-418 | loading what was saved gives a consistent manager with the same entries, buckets and counters under new ids; only the last try and orders differ |
| Base58.TablesInverse | src/base58.cpp:19-35 | the digit table and the character map are inverse to each other |
| Base58.EncodeRoom | src/base58.cpp:48-50 | 256^n is below 58^(138n/100 + 1) |
| Base58.DecodeRoom | src/base58.cpp:109-111 | 58^n is below 256^(733n/1000 + 1) |
| Digits.MultiplyAdd | src/base58.cpp:52-66 | one digit more is carried in, the carry is used up, and places beyond the used length stay zero |
| Digits.ConvertInverse | src/base58.cpp:38-158 | converting digits to another base and back gives the same digits, leading zeros included |
| Base58.EncodeBase58 | src/base58.cpp:38-83 | computes one '1' per leading zero byte and the number in base 58, the carry assertion never failing |
| Base58.DecodeBase58 | src/base58.cpp:93-158 | computes the bytes of a word of digits with white space around it and fails on anything else, the carry assertion never failing |
| Base58.DecodeEncode | src/base58.cpp:38-158 | decoding the encoding of any byte string gives it back |
| Base58.EncodeDecode | src/base58.cpp:38-158 | encoding the decoding of any word of digits gives it back |
| Base58.DecodeAccepts | src/base58.cpp:93-148 | decoding succeeds exactly on words of digits with white space before and after |
| Base58.DecodeBase58Check | src/base58.cpp:168-198 | succeeds on a word of digits exactly if it is the checked encoding of some bytes, and gives those bytes |
| Merkle.BuildMerkleTree | src/main.h:994-1011 | the flat vector is all levels in order and the result is the root, zero for no leaves |
| Merkle.GetMerkleBranch | src/main.h:1013-1027 | collects the neighbours on the way up |
| Merkle.CheckMerkleBranch | src/main.h:1029-1042 | climbs from a hash by a branch |
| Merkle.BranchLeadsToRoot | src/main.h:994-1042 | the branch of every transaction leads to the root, odd levels included |
| Merkle.OnlyBranchLeadsToRoot | src/main.h:994-1042 | without a hash collision nothing else of that length leads from position i to the root |
| Sorting.SortOk | src/main.h:1290-1290 | sorting gives an ordered sequence of the same elements, for any total order |
| MedianTime.MedianAtLeast | src/main.h:1290-1291 | the median is at least m exactly if no more than half of the window, rounded down, lies below m |
| MedianTime.GetMedianTimePast | src/main.h:1280-1292 | computes the median of the last eleven times, fewer at the start of the chain |
| MedianTime.WindowAt | src/main.h:1280-1288 | the window holds the times of the block, its parent and so on |
| MedianTime.MedianGrows | src/main.cpp:2309-2316 | a time above the median never lowers it, while the window fills and when it slides |
| MedianTime.MedianNeverDecreases | src/main.cpp:2309-2316 | along every accepted branch the median never decreases and every block is later than every earlier median |
| Locator.Set | src/main.h:1524-1539 | the entries lie at distances 0 to 11 and then at doubling steps, with the genesis block last, or alone without a block to start from |
| Locator.LocatorIsShort | src/main.h:1524-1539 | beyond a dozen entries the length is logarithmic in the height |
| Locator.GetDistanceBack | src/main.h:1541-1560 | retraces the distance of the first entry on the main chain |
| Locator.GetBlockIndex | src/main.h:1562-1576 | finds the first entry on the main chain, or the genesis block |
| Locator.ForkExists | src/main.h:1562-1576 | there is a depth at which the receiver's main chain joins the sender's branch |
| Locator.FindsFork | src/main.h:1524-1576 | the block found is on both chains, the fork itself up to eleven blocks below the tip and at most twice as deep otherwise |
| Compact.RoundTrip | src/bignum.cpp:282-303 | encoding and decoding keeps the three leading bytes |
| Compact.LossBound | src/bignum.cpp:282-303 | the loss is below 256^(size - 3), and none up to three bytes |
| Compact.Idempotent | src/bignum.cpp:282-303 | a decoded target encodes to the same value |
| Compact.OrderPreserving | src/bignum.cpp:293-303 | compact values of non-negative numbers compare as the numbers |
| Compact.DecodeStable | src/bignum.cpp:282-303 | any compact value that decodes to a non-negative number is decoded to the same number after encoding again |
| Rewards.GetProofOfWorkReward | src/main.cpp:985-1021 | the bisection loop computes the reward of the sixth-root curve |
| Rewards.GetProofOfStakeReward | src/main.cpp:1024-1084 | the bisection loop computes the yearly rate of the cube-root curve and the stake reward |
| Rewards.RewardRange | src/main.cpp:985-1064 | a reward is a multiple of a cent between a cent and the maximum |
| Rewards.RewardNearRoot | src/main.cpp:985-1064 | the reward lies within a cent of the root when that is in range, and at the end of the range otherwise |
| Rewards.RewardMonotone | src/main.cpp:985-1064 | rewards never decrease as the target grows |
| Rewards.WorkRewardHalves | src/main.cpp:983-1021 | a difficulty 64 times as high cuts the work reward in half, within three cents |
| Rewards.StakeRateHalves | src/main.cpp:1024-1064 | a difficulty eight times as high cuts the yearly rate of stake in half, within three cents |
| Rewards.RewardAtLimit | src/main.cpp:983-1064 | at the limit a work block earns 100 coins and a coin of stake one coin a year |
| Rewards.StakeRewardYears | src/main.cpp:1069-1078 | 33 years of 365 days and eight more days earn 33 yearly rates, up to ten coins |
| Rewards.StakeRewardShare | src/main.cpp:1069-1078 | any number of coin days earns its share of that, rounded down, up to ten coins |
| Retarget.GetLastBlockIndex | src/main.cpp:1139-1144 | walks back to the last block of a kind |
| Retarget.LastOfKindIsLast | src/main.cpp:1139-1144 | no block of the kind lies above the one found |
| Retarget.SignedRoundTrip | src/bignum.cpp:282-303 | a compact value keeps the sign and the leading bytes of any number |
| Retarget.MovedFixed | src/main.cpp:1160-1169 | exact spacing leaves the target as it is |
| Retarget.MovedMono | src/main.cpp:1160-1169 | a longer spacing never gives a smaller target |
| Retarget.AdjustmentLaw | src/main.cpp:1146-1175 | the adjusted target is within its limit, unchanged for a canonical target on exact spacing, and monotone in the spacing, negative spacings included |
| Retarget.TargetFrom | src/main.cpp:1146-1175 | the next target moves the one of the highest block of the kind by the time since the next highest, with the spacing and limit in force written out |
| Retarget.TargetStays | src/main.cpp:1160-1169 | if these two blocks lie the wanted time apart the target of the last one stays |
| Retarget.TargetGrows | src/main.cpp:1160-1174 | on two branches with the same last target the one whose last two blocks lie further apart asks for no smaller one |
| Retarget.LateStakeDoubles | src/main.cpp:1160-1172 | every 302700 seconds that a stake block comes late add the target once more, up to the limit |
| Retarget.FirstTargets | src/main.cpp:1151-1158 | without two blocks of the kind above the genesis block the target is the limit |
| Retarget.GetNextTargetRequired | src/main.cpp:1146-1175 | computes the next target of either kind from the branch |
| Retarget.TargetsWithinLimit | src/main.cpp:1146-1175 | over every branch of accepted targets none exceeds the limit in force |
| StakeModifier.GetLastStakeModifier | src/kernel.cpp:106-117 | finds the modifier and time of the last generating block, failing only if even the genesis block generated none |
| StakeModifier.GetStakeModifierSelectionInterval | src/kernel.cpp:120-133 | adds up the 64 sections |
| StakeModifier.SectionIs | src/kernel.cpp:120-124 | section n is six hours times 63 / (189 - 2n) rounded down, between two hours and six |
| StakeModifier.SelectBlockFromCandidates | src/kernel.cpp:138-179 | picks the least selection hash among the unselected candidates up to the stop time, or the earliest unselected one if there is none, and fails only if all are selected or one is unknown |
| StakeModifier.PickUnique | src/kernel.cpp:138-179 | the rule determines the pick |
| StakeModifier.LeavesFree | src/kernel.cpp:261-267 | while there are fewer rounds than candidates one is left to pick |
| StakeModifier.SelectRounds | src/kernel.cpp:257-274 | the rounds never fail, each picks by the rule a block the earlier ones did not, and the modifier collects their entropy bits |
| StakeModifier.BitAt | src/kernel.cpp:268-269 | bit r of the modifier is the entropy bit of the r-th pick |
| StakeModifier.RecentIff | src/kernel.cpp:246-252 | a block is a candidate exactly if it lies on the branch and no block from it up to the tip is earlier than the start |
| StakeModifier.CollectCandidates | src/kernel.cpp:242-255 | the walk collects each of these blocks once |
| StakeModifier.ComputeNextStakeModifier | src/kernel.cpp:194-306 | fails exactly if the branch never generated a modifier; generates exactly in a new interval and then by the rounds, else keeps the last one |
| StakeModifier.ModifierCandidates | src/kernel.cpp:246-274 | a new modifier is selected from exactly these blocks, in as many rounds as there are of them up to 64 |
| StakeModifier.SelectionStartIs | src/kernel.cpp:246 | the selection interval ends with the last full six hours before the parent |
| StakeModifier.RegeneratesIff | src/kernel.cpp:205-240 | a block gets a new modifier exactly if its parent, and from the switch time on it too, lies in a later interval of six hours than the last generating block |
| StakeModifier.StakeFavouredIff | src/kernel.cpp:159-163 | a stake block is selected before a work block with every hash function exactly if the selection hash of the latter is at least 2^224 - 1 |
| StakeModifier.ModifierUnique | src/kernel.cpp:194-306 | the branch determines the modifier |
| StakeModifier.NeverFails | src/kernel.cpp:194-306 | on a chain with computed flags there is always a last modifier |
| StakeModifier.IntervalsIncrease | src/kernel.cpp:214-240 | under the fixed-interval rule generating blocks lie in strictly increasing intervals |
| StakeModifier.GetKernelStakeModifier | src/kernel.cpp:310-340 | gives the modifier of the first generating main-chain block a selection interval later than the coin's block, and on a fully linked chain none only if there is none |
| KernelScan.YoungFails | src/kernel.h:54-63 | up to an age of 30 days nothing but a hash of zero passes |
| KernelScan.CoinsAge | src/kernel.h:54-63 | from 30 to 120 days of age a coin is worth one coin day a day, and the target is that many times the one of the bits |
| KernelScan.DayAdds | src/kernel.h:54-63 | each of these days adds the target of the bits once for every coin |
| KernelScan.OldStays | src/kernel.h:54-63 | from 120 days on the target no longer changes |
| KernelScan.TargetAges | src/kernel.h:54-63 | the target never falls as a coin of any value gets older |
| KernelScan.StreamInjective | src/kernel.cpp:398-400 | different modifiers, coins and times are hashed from different streams |
| KernelScan.CheckStakeKernelHash | src/kernel.cpp:372-431 | accepts exactly by times, minimal age, the modifier found on the main chain and the hash test |
| KernelScan.TargetBelowMax | src/kernel_worker.cpp:21-24 | no target exceeds the maximal one in spite of the different order of rounding |
| KernelScan.FilterSafe | src/kernel_worker.cpp:52-54 | a maximal target that fits 256 bits filters out no time that passes, by full or leading-word comparison |
| KernelScan.ScanKernelBackward | src/kernel_worker.cpp:76-126 | finds the latest passing time of its half-open range |
| KernelScan.KernelWorker.Do | src/kernel_worker.cpp:17-62 | collects in order what passes filter and test in its part |
| KernelScan.ScanFinds | src/kernel_worker.cpp:17-62 | a scan finds exactly the times of its range that the validator's test accepts |
| KernelScan.ScanKernelForward | src/kernel.cpp:434-476 | in whatever order the workers run, the result is the scan of the equal parts, one after the other and cut to 32 bits, which for an interval that is not reversed is one scan |
| KernelScan.ForwardComplete | src/kernel.cpp:444-452 | every scan of the parts finds what a scan of the interval finds exactly if the number of threads divides its length |
| KernelScan.MissedIff | src/kernel.cpp:444-452 | for any coin, the times missed are exactly those of the remainder that pass the test |
| KernelScan.MissedTime | src/kernel.cpp:444-452 | wherever there is a remainder, a coin whose last time passes the test and is missed |
| Miner.FindDependencies | src/miner.cpp:196-233 | finds an absent input, or the pool transactions that one waits for and lists it with each of them |
| Miner.CollectPool | src/miner.cpp:186-252 | drops transactions with absent inputs, queues exactly the eligible ones without dependencies and lets the others wait for theirs |
| Miner.Release | src/miner.cpp:339-355 | waiting transactions lose the dependency and those left with none are queued once |
| Miner.SelectTransactions | src/miner.cpp:254-356 | terminates; each transaction is considered at most once, and exactly those whose dependencies were all selected |
| Miner.GetMaxTransactionTime | src/main.h:986-992 | the latest time of the transactions |
| Miner.FillTime | src/miner.cpp:372-379 | the least time not before the clock, the transactions, the parent less two hours and past the median, if all of these have 32 bits |
| Miner.CreateNewBlock | src/miner.cpp:105-384 | after a given coinstake, which gives the time, the transactions form a draft no later than it; without one the coinbase is worth the reward and the fees and the time is the least allowed one; the target is the one asked for |
| Miner.WithinLimits | src/miner.cpp:274-282 | a draft stays under the size and signature limits and its fees are never negative |
| Miner.ParentsFirst | src/miner.cpp:302-308 | every input of a drafted transaction is in the index or created earlier in the block |
| Miner.DraftedIdsAreNew | src/miner.cpp:302-324 | over a replayed index no drafted transaction has an id that is indexed |
| Miner.NoOutputTwice | src/miner.cpp:321-324 | no two inputs of the drafted transactions consume the same output |
| Mined.StillMature | src/main.cpp:1445-1449 | what is mature for the best block is mature for the block after it |
| Mined.StepConnects | src/main.cpp:1677-1738 | what the miner adds to a draft the validator connects, at other positions and with the same fees, exactly if it skips scripts or they pass with the flags of a block |
| Mined.MinedBlockConnects | src/main.cpp:1640-1752 | a drafted proof-of-work block connects to the index it was drafted over exactly if it lies below the last hardened checkpoint or every input passes with the flags of a block, and then with the same fees |
| Mined.EarlyDraftConnects | src/main.cpp:1721-1729 | a draft of transactions before the first switch time connects |
| LateDraft.DraftDoesNotConnect | src/main.cpp:1721-1729 | for every height from the last hardened checkpoint on that 32-bit times reach, a chain that keeps the rules, a pool and a draft whose block keeps them too and does not connect |
| Assembly.FilledTimeOk | src/main.cpp:2309-2320 | that time passes the timestamp rule exactly if the clock and the parent less two hours are within the offset of the median |
| Assembly.AssembledChecks | src/main.cpp:2180-2288 | the block of a draft, with a coinbase that fits into the reserved room, passes CheckBlock |
| Assembly.AssembledOnTop | src/main.cpp:2100-2148 | the tree with that block is well formed, and the block meets what the connect theorem asks for |
| Assembly.AssembledInContext | src/main.cpp:2303-2329 | it passes the rules of AcceptBlock exactly if the clock is within the window and no hardened checkpoint forbids it |
| Assembly.AssembledConnects | src/main.cpp:1891-1913 | the switch to it succeeds exactly if it lies below the last hardened checkpoint or its scripts pass with the flags of a block |
| Assembly.Submit | src/main.cpp:2291-2371 | handed to the node that drafted it, the block becomes the best block exactly if the clock is within the window, the hardened checkpoints allow it, it adds trust, and it lies below the last of them or its scripts pass; the node stays safe and in step |

## Left out

- Disk, LevelDB and Berkeley DB, network messages, RPC, wallet notifications and start-up code. The transaction database is a map whose commits succeed.
- Machine integers: money, times and counters do not overflow here, except where a wrap is written out. MAX_MONEY is the largest 64-bit value, so sums of inputs are assumed to fit.
- Scripts, signatures, hashes, coin age, the count of pay-to-script-hash operations and the header and clock part of CheckBlock are uninterpreted.
- The test network and its constants.
- Connect.FetchInputs: in the miner's mode and when a transaction enters the memory pool it also takes transactions from memory; `Miner` models the miner's mode.
- Connect.ConnectInputs: models the call from ConnectBlock with its flags; `Miner` models the miner's call.
- Connect.RunScripts: runs scripts after the inputs are marked, where the source interleaves the two; both accept the same transactions.
- Chain.ChainState.SetBestChain: the memory pool, which transactions return to on a disconnect, is not modelled.
- Chain.ChainState.AddToBlockIndex: the trust is not cut to 256 bits. Stake modifier checkpoints, the entropy bit and the duplicate stake test are part of what the caller checked.
- Growth.Run: one environment for all arrivals, so that no header or script that failed once passes later.
- Checkpoints.CheckpointedNode.AcceptBlock: models the strict mode; the advisory and permissive modes do not enforce checkpoints. IsFinal and the table of hardened checkpoints are parameters.
- Checkpoints.CheckpointedNode.constructor: AutoSelectSyncCheckpoint and ResetSyncCheckpoint, by which an operator moves the checkpoint back, are not steps of the model.
- QueueEnds.SessionEnds: fair means that a thread with a batch goes on in the end, and so does a notified master; the scheduler and the checks themselves are outside the model.
- CheckQueue.StepKeeps: Quit and the shutdown flag, which leaves the loop without restoring the counters, are not steps of the model.
- AddrMan.AddrMan.Load: takes a file whose parts are as long as it says; a stream that ends early is not modelled.
- Select_ and GetChance, the weighted choice of a peer, would only add floating point.
- AddrCheck.Check: an address missing from the map reads as the id 0, as in the source; that the look-up also stores that 0 is not modelled, nor is which of several faults is reported.
- Base58.DecodeBase58: takes the text before the terminating zero, as the C string version does.
- Locator.GetDistanceBack: distances of over-long foreign locators are not cut to 32 bits.
- KernelScan.ScanKernelForward: the shutdown flag is not modelled.
- StakeModifier.ComputeNextStakeModifier: the entropy bit and proof hash of a block are given.
- Miner.SelectTransactions: priorities, the heap order and the fee policy are arbitrary choices; the same pools are left out as for Miner.CollectPool.
- Miner.CollectPool: leaves out pools in which a transaction waits for another one and has an absent input after that; the source then goes on with a record it has deleted.
- Miner.NoOutputTwice: about pool transactions; the inputs of a coinstake handed to the miner are not in its test pool.
- Mined.MinedBlockConnects: for proof-of-work blocks.
- Assembly.Submit: the coinbase script and its extra nonce, the proof of work and the place in the block files are conditions on the block. A proof-of-stake block, which takes its time from its coinstake, is not assembled.
- The OpenSSL key code, alerts, coin control and the other utilities of the repository.
