# Chain, indexer, feed and state-transition model

This project models the parts of the node that decide which chain is canonical, what the indexes over
it say, how a transaction changes balances and gas, and how events reach their subscribers, and proves
what those parts promise. The database is a set of headers and a few plain maps; a batch is applied
atomically.

## How the system is modelled

* **Hashes** are symbolic: `Of(h)` is the hash of header `h`, so equal hashes mean equal headers and a
  header fixes its ancestry. `Unknown` hashes belong to no header. A block is a header with the
  transactions the header commits to.
* **The central statement** is `canon == Ancestry(head)`: the number-to-hash index is exactly the
  parent-linked path from level zero to the head and nothing above. `Headers.PathIsAncestry` shows that
  this is the same as the local reading (no gap, parent-linked, ends at the head).
* **Stores** are only as regular as a statement needs. Methods accept stores with missing parents and
  return the source's errors; `ParentClosed` and `Tree` appear as conditions of "no error" clauses.
  Class invariants hold the rest: `BlockChain.Valid` has header head and block head coincide.
* **Concurrency** is a state machine over small steps (`IndexerProtocol.Step`, `Feed.Step`); theorems
  range over every sequence of events. In the indexer, every statement that reads or writes the section
  table is a step, also inside locked operations, because the chain they read and the drop after a failed
  backend reset are not covered by the lock.
  `Feed.Send` runs against an object (`Feed.Channels`) that stands for the channels and the unsubscribers:
  it records what the channels receive and chooses nondeterministically who is ready next. Its unsubscribers
  have listed subscriptions, as `Feed.RunSound` shows of every run.
* **Machine integers**: `StateTransition` states the transition over unbounded integers (`Transition`)
  and the class computes it on uint64 and uint256 with explicit wrap-around; that the two agree is
  the proof that nothing wraps. It needs the total supply to be below 2^256, which every transition keeps.
* **The EVM**, the finalisation of a transaction, state availability, the coin of the fork choice and the backend of the indexer are parameters. An EVM
  returns no more gas than it got and mints no ether. A Go panic is an outcome of its own.

| file | content |
|---|---|
| `Headers.dfy`, `ForkChoice.dfy` | headers, ancestry, total difficulty, fork choice |
| `HeaderChain.dfy` | header import, reorg, rewind, ancestor queries |
| `BlockChain.dfy` | block reorg with both indexes |
| `StateRewind.dfy`, `ChainRewind.dfy` | state-aware rewind, headers and blocks rewound together |
| `ChainIndexer.dfy` | section indexer: table and object |
| `IndexerProtocol.dfy`, `IndexerRuns.dfy`, `IndexerRaces.dfy` | its interleavings: safety; undisturbed operations, queries and progress; what goes wrong |
| `Feed.dfy` | event feed protocol and object |
| `Accounts.dfy`, `GasPool.dfy`, `IntrinsicGas.dfy`, `Messages.dfy`, `StateTransition.dfy`, `StateProcessor.dfy` | transactions and blocks |
| `Substate.dfy` | recording and replaying a message |
| `BlockHashes.dfy`, `GasLimit.dfy` | block-hash cache, gas limit convergence |

## Where the code does less than one would expect

Each shortcoming has an exact condition and a lemma that shows it at an input.

* A backend reset that fails makes the indexer drop its table without the lock. As long as the drop does not
  overlap a locked operation while a section is stored, every interleaving is safe
  (`IndexerProtocol.RunSafe`). Once it does, the table can be damaged, whatever the operation and wherever
  the two meet (`IndexerRaces.DangerIff`, `IndexerRaces.ClashCorrupts`): a count without section heads, in
  memory and on disk (`IndexerRaces.ResetInNoticeIff`; a run from the empty index:
  `IndexerRaces.ResetRaceHappens`); a head left above a count of zero for good, because the two removal
  loops skip it (`IndexerRaces.HeadLeftOver`; `IndexerRaces.LeftOverHappens`); or a count of 2^64-1, from a
  query that rolls back from zero (`IndexerRaces.ResetInQueryIff`), which is then accepted
  (`IndexerRaces.WrappedCountStays`), or from two loops that both decrement the last section
  (`IndexerRaces.BothDecrement`), which then hold the lock for 2^64-2 further steps at least
  (`IndexerRaces.LoopsHold`). In this last case the damage is the counter itself; what stands after those
  steps is not stated. No block is assumed to have the number 2^64-1.
* The indexer can commit a section that a reorg has just replaced, when the reorg point lies inside the
  section in flight (exact condition `ChainIndexer.CommitOnChainIff`; a run:
  `IndexerRaces.StaleCommitHappens`). Readers are not affected, because a query verifies first
  (`IndexerRuns.QueryAnytime`).
* A rewind to number `n` leaves headers of side forks above `n` in place when the head is at or below
  `n` (`HeaderChain.WipesAboveIff`; shown by `HeaderChain.SideForkSurvives`).
* Extending the head deletes no marker above it (`BlockChain.ExtendExactIff`; shown by
  `BlockChain.StrayMarkerSurvives`). A chain that keeps its invariant has no such marker; it takes a
  database that an earlier crash left with one.
* A transaction that appears both below the common block and on the dropped branch loses its lookup
  entry in a reorg (`BlockChain.LookupExactIff`; shown by `BlockChain.RepeatedTxLost`). Nonces keep a
  validated chain from repeating a transaction.
* The access-list part of the intrinsic gas is added without an overflow check (`IntrinsicGas.ExactIff`;
  shown by `IntrinsicGas.LongListWraps`). It takes an access list of about 7.7 * 10^15 addresses, which
  fits no memory. Only with such a list can a message without gas and with a price beyond 256 bits reach
  the panicking price conversion (`StateTransition.PanicNeedsWrap`).
* `CalcGasLimit` wraps around near the top of uint64 (`GasLimit.StepHonestIff`, `GasLimit.SafeLimitIff`,
  `GasLimit.HonestIffFits`; shown by `GasLimit.StepCanWrap`), and can get stuck below the minimum for ever
  (`GasLimit.NeverConverges`).
* A message that was not derived from a transaction need not survive recording (`Substate.RoundTripIff`;
  shown by `Substate.CallMessageChanges`).

## Model

| member | source | states |
|---|---|---|
| Headers.PathIsAncestry | core/headerchain.go:131-133 | the index is the ancestry of a head if and only if it is gap-free, parent-linked, ends at the head and has nothing above |
| Headers.AncestryCut | core/headerchain.go:563-564 | the index of an ancestor is the index of its descendant cut at the ancestor |
| Headers.ClosedRooted | core/headerchain.go:462-464 | in a parent-closed store every header leads down to level zero through stored headers |
| ForkChoice.FollowsRanking | core/forkchoice.go:77-113 | the decision fails exactly when a total difficulty is missing; before the terminal difficulty it follows (difficulty, lower number) and uses preserve flags and coin only on exact ties; past it the external head wins |
| ForkChoice.ChoosesWinner | core/forkchoice.go:77-113 | the header to follow is the one past the terminal difficulty, or of higher rank, or of equal rank if the current head is not preserved and the new one is or the coin says so |
| HeaderChain.HeaderChain.Reorg | core/headerchain.go:134-198 | on success the index is exactly the ancestry of the last header, on the extend path and on the reorg path; a missing parent writes nothing and cannot happen in a parent-closed store |
| HeaderChain.HeaderChain.ReorgBatch | core/headerchain.go:143-188 | the batch, computed against the live index, turns it into the ancestry of the last header |
| HeaderChain.HeaderChain.DeleteAbove | core/headerchain.go:149-156 | exactly the markers above the new head are deleted, the scan stops at the first gap and terminates |
| HeaderChain.HeaderChain.RelinkBackwards | core/headerchain.go:157-175 | the walk rewrites the markers down to the cross link and no further, and terminates on the block number |
| HeaderChain.HeaderChain.Extend | core/headerchain.go:177-188 | the batch gets the marker of every imported header and keeps the rest |
| HeaderChain.HeaderChain.WriteHeaders | core/headerchain.go:204-256 | refused exactly for an unknown parent or an interrupt; otherwise the headers are stored, every stored total difficulty is the sum along the ancestry, and the count is that of the headers from the first unknown one on, in a parent-closed store exactly the new ones |
| HeaderChain.HeaderChain.CollectUnknown | core/headerchain.go:212-245 | skipping known headers mid-batch keeps the running difficulty exact and misses no new header |
| HeaderChain.KnownFirstMeans | core/headerchain.go:228-245 | the headers that are skipped are the known ones before the first unknown one |
| HeaderChain.HeaderChain.WriteHeadersAndSetHead | core/headerchain.go:265-301 | keeps index and difficulties exact; the head moves to the last header if and only if this wins the fork choice and is not on the chain already; counts imported and ignored headers |
| HeaderChain.HeaderChain.FollowIfPreferred | core/headerchain.go:281-300 | the status is exactly decided by who wins the fork choice and by whether the winner is on the chain already, past the terminal difficulty and at ties too |
| HeaderChain.ImportRun | core/headerchain.go:265-301 | over any run of imports the index stays the ancestry of the head, difficulties stay exact, and (difficulty, lower number) of the head never falls, whatever the coins |
| HeaderChain.ChainRun | core/headerchain.go:265-301 | over any run of imports and rewinds the index is the ancestry of the head and the store stays one parent-closed tree |
| HeaderChain.HeaderChain.SetHead | core/headerchain.go:565-661 | a rewind ends at its target with the index cut there; an actual rewind leaves no header or difficulty of any fork above it; parent closure is kept; going below the genesis time is refused |
| HeaderChain.HeaderChain.LevelsAbove | core/headerchain.go:624-632 | the upward scan finds every level that holds a header, because levels are contiguous |
| HeaderChain.HeaderChain.DeleteLevels | core/headerchain.go:635-651 | all forks of the given levels are deleted and nothing else that is stored |
| HeaderChain.RewindToNumber | core/headerchain.go:584-590 | a rewind by number stops at the ancestor with that number |
| HeaderChain.RewindToTime | core/headerchain.go:584-590 | a rewind by time stops at the highest ancestor not younger than the timestamp |
| HeaderChain.RewoundConsistent | core/headerchain.go:563-564 | the rewound chain is consistent and parent-closed |
| HeaderChain.WipesAboveIff | core/headerchain.go:551-552 | nothing above `n` survives a rewind to `n` if and only if the head was above `n` or nothing was there |
| HeaderChain.SideForkSurvives | core/headerchain.go:551-552 | a heavy head at 1 beside a lighter fork up to 2: a rewind to 1 leaves the header at 2 |
| HeaderChain.HeaderChain.GetAncestor | core/headerchain.go:386-418 | a non-zero answer is the header reached by that many parent links; it is non-zero exactly when the off-chain steps fit the budget, which falls by exactly those steps |
| HeaderChain.CanonicalJump | core/headerchain.go:398-403 | from a canonical block the index gives the true ancestors |
| BlockChain.BlockChain.WriteHeadBlock | core/blockchain.go:926-947 | writes the block's marker, its lookup entries and all head markers, nothing else |
| BlockChain.BlockChain.FindCommon | core/blockchain.go:2106-2166 | finds the highest common block with the exact dropped and added segments; terminates on the number; cannot fail on a tree |
| BlockChain.BlockChain.Reorg | core/blockchain.go:2106-2234 | with the new head written afterwards, the canonical index is exactly the ancestry of the new head, for longer, shorter, equal and ancestor targets; errors change nothing |
| BlockChain.BlockChain.PruneIndexes | core/blockchain.go:2209-2234 | deletes exactly the lookups the new chain lacks and all markers above it |
| BlockChain.BlockChain.MarkersAbove | core/blockchain.go:2225-2231 | the scan over the live index finds every marker above the number |
| BlockChain.HashDifference | core/types/transaction.go:558-573 | keeps exactly the hashes of the first list missing from the second |
| BlockChain.TxIndexMeaning | core/blockchain.go:931 | a transaction is indexed exactly when a block of the chain holds it, under the topmost such block |
| BlockChain.LookupExactIff | core/blockchain.go:2199-2217 | after reorg and head write the lookup index is exact for the new chain if and only if no dropped transaction also lives at or below the common block without being added again |
| BlockChain.RepeatedTxLost | core/blockchain.go:2199-2217 | a repeated transaction on the dropped branch loses its entry although its lower block stays canonical |
| BlockChain.NoRepeatsDrops | core/blockchain.go:2199-2217 | chains without repeated transactions meet that condition |
| BlockChain.BlockChain.WriteKnownBlock | core/blockchain.go:1333-1342 | the known block becomes head with an exact canonical index and, without repeated transactions, an exact lookup index |
| BlockChain.BlockChain.SetCanonical | core/blockchain.go:2294-2316 | a stored block becomes head with both indexes exact, also below the current head; refused exactly if its state is missing and cannot be rebuilt |
| BlockChain.BlockChain.WriteBlockAndSetHead | core/blockchain.go:1445-1470 | stores the block with its exact total difficulty; it becomes the head if and only if it wins the fork choice, past the terminal difficulty and at ties too, with both indexes exact; an unknown parent changes nothing |
| BlockChain.BlockChain.StoreBlock | core/blockchain.go:1346-1366 | the stored total difficulty is the sum along the ancestry and the tree stays closed |
| BlockChain.ImportBlocksRun | core/blockchain.go:1445-1470 | over any run of block imports both indexes stay exact and the head's rank never falls |
| BlockChain.ChainRun | core/blockchain.go:2294-2316 | over any run of imports and forced heads, in any order and past the terminal difficulty, both indexes stay exact |
| BlockChain.ExtendExactIff | core/blockchain.go:1454-1468 | writing a child of the head without a reorg is exact if and only if no marker stood above it |
| BlockChain.StrayMarkerSurvives | core/blockchain.go:1454-1468 | a marker above the extended head survives |
| StateRewind.Rewind | core/blockchain.go:657-705 | the walk ends at the first block with usable state at or past the requested root; the pivot, a gap or the end of the chain force genesis; the root number is that of the topmost matching block passed; on a tree it computes the recursive verdict; terminates on the number |
| StateRewind.RewindOnTree | core/blockchain.go:657-705 | on a tree the walk never hits a missing parent and block and root number are determined: by the first acceptable block, by where the pivot is passed, or by the genesis when every block is passed over |
| StateRewind.VerdictUsable | core/blockchain.go:657-705 | on a tree the verdict is an ancestor with usable state, or the genesis |
| ChainRewind.BlockFollows | core/blockchain.go:656-720 | while the header head goes down the head block stays on its ancestry; once it has moved, the head block has usable state, is the genesis, or was below all the time |
| ChainRewind.WipedMeets | core/blockchain.go:735-744 | when the head block falls below the frozen blocks the headers are rewound down to it, by time only if it is older than requested |
| ChainRewind.LandsOnNumber | core/headerchain.go:584-612 | a rewind by number lands on that number unless a verdict pulls it lower |
| ChainRewind.LandsOnTime | core/headerchain.go:584-612 | a rewind by time lands on the highest ancestor not younger unless a verdict pulls it lower, and never above it |
| ChainRewind.VerdictTopmost | core/blockchain.go:657-705 | without root and pivot the verdict is the topmost ancestor with usable state, or the genesis |
| ChainRewind.PlainLands | core/blockchain.go:656-788 | without root and pivot a rewind by number is determined: the topmost usable block at or below the number becomes head block, and the header head goes to the number or, below the frozen blocks, down to that block |
| ChainRewind.SetHeadBeyondRoot | core/blockchain.go:643-790 | headers and blocks rewound together. The header head lands exactly on the requested number, or on the highest ancestor not younger than the requested time, unless the frozen blocks pull it to a lower usable block; after a move nothing stored is above it and everything below is kept. The head block ends stored, canonical and at or below the head header, with usable state unless it is the genesis or was below anyway; without root and pivot it is the topmost usable one, and in block mode both heads are determined |
| ChainIndexer.ChainIndexer.SetValidSections | core/chain_indexer.go:480-492 | exactly the heads from the new count upwards are removed |
| ChainIndexer.ChainIndexer.VerifyLastHead | core/chain_indexer.go:423-430 | keeps sections up to the first one from the top that matches its read, with the chain free to change between reads |
| ChainIndexer.VerifySettles | core/chain_indexer.go:420-430 | afterwards every stored section lies on the chain of the last read, and every dropped one differed from its read |
| ChainIndexer.VerifyLongest | core/chain_indexer.go:420-430 | on a chain that does not change, exactly the longest canonical prefix is kept |
| ChainIndexer.ChainIndexer.HandleHead | core/chain_indexer.go:244-301 | applies a head or reorg notice and keeps the section chain linked |
| ChainIndexer.KnownSections | core/chain_indexer.go:277-300 | a head notice makes known exactly the sections with enough confirmations, never fewer than before, and changes nothing else |
| ChainIndexer.ReorgKeeps | core/chain_indexer.go:248-276 | a reorg notice keeps, of the stored and of the known sections, exactly those that end at or below the reported block |
| ChainIndexer.ReorgNotice | core/chain_indexer.go:248-276 | a notice of the common ancestor leaves only sections that are on the new chain |
| ChainIndexer.ChainIndexer.HandleEvent | core/chain_indexer.go:218-238 | on a tree a reorg is reported exactly if the new head does not follow the old one and the old one has left the chain, back to their last common ancestor, then the new head; every stored section stays canonical if all were, whether the chain grew or reorged |
| ChainIndexer.FindCommonAncestor | core/rawdb/accessors_chain.go:917-944 | returns the last common ancestor, and always does on a tree |
| ChainIndexer.ChainIndexer.BeginUpdate | core/chain_indexer.go:320-336 | exactly if known sections are left to index, picks the next one and the head it must attach to, after verification |
| ChainIndexer.ChainIndexer.ProcessHeaders | core/chain_indexer.go:398-417 | whatever the chain looks like at each read, the result is exactly the header that ends the section on a chain that continues the captured head and whose headers are the ones read, stored and accepted; there is none exactly if a read, the backend or the commit fails |
| ChainIndexer.ChainIsRead | core/chain_indexer.go:398-417 | if all reads see the chain of one head and the backend accepts it, that result is the last header of the section on the chain |
| ChainIndexer.ChainIndexer.ProcessSection | core/chain_indexer.go:389-418 | a failed reset drops the index; otherwise the index is untouched and the result is exactly that of the reads |
| ChainIndexer.ChainIndexer.FinishUpdate | core/chain_indexer.go:349-369 | commits only on top of the captured head, otherwise verifies and gives up |
| ChainIndexer.ChainIndexer.Sections | core/chain_indexer.go:435-441 | the reported last block matched its read, and if that read was of the chain of some head, all reported sections are on that chain; with nothing stored the number wraps |
| ChainIndexer.FinishKeeps | core/chain_indexer.go:351-369 | a processed section is committed exactly if nothing below it was dropped meanwhile, and then only this one is added; otherwise sections are only dropped and the known ones forgotten; the section chain stays linked |
| IndexerProtocol.StepIntact | core/chain_indexer.go:241-492 | every statement of every party, taken from a safe state, leaves the table intact |
| IndexerProtocol.RunSafe | core/chain_indexer.go:241-492 | over every interleaving of chain changes, notices, reads, failures, queries and unlocked drops in which a drop and a locked operation do not overlap while something is stored, the stored heads form a hash-linked chain, no counted section lacks its head, and whenever nobody is changing the table none is at or above the count and the count on disk agrees |
| IndexerRaces.FinishSafe | core/chain_indexer.go:480-492 | out of danger, what is in progress ends well in every order |
| IndexerRaces.DangerIff | core/chain_indexer.go:392-395 | the condition is exact: what is in progress can end in a damaged table if and only if a locked operation and a drop are both in progress while something is stored |
| IndexerRaces.ClashCorrupts | core/chain_indexer.go:392-395 | after any clash-free run, an event that makes a drop and a locked operation overlap can be continued to a damaged table, so the condition of RunSafe cannot be weakened |
| IndexerRaces.HeadLeftOver | core/chain_indexer.go:487-491 | of two or more sections a notice gives up some and a drop begins after its first write: both loops delete the same head and the one above stays for good, although the notice's first and last write precede the drop's |
| IndexerRaces.BothDecrement | core/chain_indexer.go:487-489 | two loops that have both seen the last section wrap the counter to 2^64-1 |
| IndexerRaces.LoopsHold | core/chain_indexer.go:487-490 | with the counter wrapped, the lock stays taken for every number of further steps below the counter |
| IndexerRaces.LeftOverHappens | core/chain_indexer.go:487-491 | over any chain with four sections a run from the empty index leaves a head above a count of zero |
| IndexerRaces.ResetInNoticeIff | core/chain_indexer.go:262-265 | a drop between the test and the write of a reorg notice is harmless if and only if the notice gives up all sections or none |
| IndexerRaces.ResetInQueryIff | core/chain_indexer.go:423-430 | a drop between the read of the last head and its comparison is harmless if and only if nothing was stored, on the chain or not; otherwise the count wraps to 2^64-1 |
| IndexerRaces.WrappedCountStays | core/chain_indexer.go:425-427 | a wrapped count is accepted: the block number computed on uint64 is 2^64-1 less the section size, and the zero hash is compared with the zero hash |
| IndexerRaces.ResetRaceHappens | core/chain_indexer.go:392-395 | over any chain with three sections a run from the empty index ends with a counted section and no head |
| IndexerRuns.VerifyAlone | core/chain_indexer.go:423-430 | step by step, an undisturbed verification on an unchanging chain is the one the object computes |
| IndexerRuns.NoticeAlone | core/chain_indexer.go:248-276 | step by step, an undisturbed reorg notice is the one the object computes |
| IndexerRuns.DropAlone | core/chain_indexer.go:392-395 | step by step, an undisturbed drop is the one the object computes |
| IndexerRuns.QueryAnytime | core/chain_indexer.go:435-441 | a query made at any point of a clash-free interleaving and not overlapped by a drop, with the chain changing between its reads, leaves a consistent table whose sections are all on the chain of its last read, and each section it dropped was off the chain at some moment of the query |
| IndexerRuns.WorkerCatchesUp | core/chain_indexer.go:318-383 | progress: on a chain that does not change, without failures, an idle worker with a known section left to index comes to a table of exactly the known sections, all on the chain, whatever stale sections it held |
| ChainIndexer.CommitOnChainIff | core/chain_indexer.go:351-354 | right after a commit all sections are canonical if and only if the new section's head is |
| IndexerRaces.StaleCommitHappens | core/chain_indexer.go:351-354 | over any two chains that part inside a section, a run from the empty index commits the section that was replaced |
| Feed.Find | event/feed.go:203-210 | the first case of the channel, or -1 exactly when there is none |
| Feed.Feed.FindCase | event/feed.go:203-210 | the loop computes that index |
| Feed.Feed.DeleteCase | event/feed.go:213-215 | shifts the tail of the backing array down in place |
| Feed.Feed.DeactivateCase | event/feed.go:218-222 | swaps a case out of the active prefix in place |
| Feed.Feed.Subscribe | event/feed.go:86-92 | a channel goes to the inbox, also one that is subscribed already |
| Feed.Feed.RemoveIdleSub | event/feed.go:95-116 | without a send in progress exactly the first subscription of the channel is removed, from the inbox or else from the cases |
| Feed.Feed.TakeInbox | event/feed.go:130-134 | the inbox is appended to the cases |
| Feed.Feed.TrySendAll | event/feed.go:146-155 | the fast path keeps the balance of waiting, served and removed subscriptions, and the channels receive exactly the deliveries it counts |
| Feed.Feed.SelectOne | event/feed.go:159-171 | one select step either delivers to a channel that took the value or removes the subscription of an unsubscriber that was waiting, keeps the balance, and len(cases) + len(sendCases) falls |
| Feed.Feed.Send | event/feed.go:120-180 | for every schedule each subscription held at the start and not removed gets the value exactly once, a removed one at most once; only waiting unsubscribers are removed; what the channels received is what is counted; without unsubscribers the count is the number of subscriptions and all stay; the send terminates |
| Feed.DeliveredExactlyOnce | event/feed.go:141-143 | when only the removal slot is active, each channel has got the value once per subscription not removed, and the list is what is left |
| Feed.InitSound | event/feed.go:60-66 | a feed without subscribers is sound |
| Feed.RunSound | event/feed.go:95-180 | over every interleaving of subscriptions, cancellations and sends no deletion is attempted at -1, and every ending send has delivered exactly once per subscription |
| Feed.SendGoesOn | event/feed.go:145-173 | at any point of any run a running send keeps what it has delivered and removed, and ends only when it is complete |
| Feed.SendCanEnd | event/feed.go:145-180 | a running send ends once its channels take the value one after the other |
| Feed.UnsubscriberServed | event/feed.go:108-116 | a waiting unsubscriber can be served, by the running send or with the lock, and then exactly its subscription goes |
| Feed.RemovalsWereAsked | event/feed.go:95-116 | over every run the removals of a channel number at most its cancellations |
| Feed.UncancelledServed | event/feed.go:118-143 | over every run a channel nobody cancels gets each sent value once per subscription and keeps them all |
| Feed.RunLive | event/feed.go:73-116 | over every interleaving the feed holds for each channel exactly the subscriptions that subscribing and unsubscribing leave, whatever sends run in between |
| GasPool.GasPool.AddGas | core/gaspool.go:29-35 | panics exactly on overflow |
| GasPool.GasPool.SubGas | core/gaspool.go:39-45 | deducts exactly when enough is available |
| IntrinsicGas.ToWordSize | core/state_transition.go:122-128 | the number of 32-byte words, rounded up, on all of uint64 (Specification section of EIP-3860) |
| IntrinsicGas.AddScaled | core/state_transition.go:95-98 | the division test is exactly the overflow of the checked sum |
| IntrinsicGas.ComputeIntrinsicGas | core/state_transition.go:72-119 | the uint64 computation equals the unbounded formula, with overflow reported exactly when the data part does not fit (Specification section of EIP-2028) |
| IntrinsicGas.ByteCost | core/state_transition.go:72-110 | 21000 for an empty transaction, 53000 for a creation; a byte adds 4, 16 or 68, and 2 more when it begins a word of init code |
| IntrinsicGas.TupleCost | core/state_transition.go:114-117 | an access tuple adds 2400 and 1900 for each storage key |
| IntrinsicGas.ExactIff | core/state_transition.go:106-118 | the result is exact or an overflow error if and only if the access list does not carry the sum past uint64; always without one |
| IntrinsicGas.LongListWraps | core/state_transition.go:114-117 | with enough addresses an empty call costs 584 |
| StateTransition.TransactionsArePriced | core/state_transition.go:156-178 | every transaction's message has the effective price min(tip + base fee, cap) or, without a base fee, its cap |
| StateTransition.PrepaymentSound | core/state_transition.go:244-281 | a message that passes the checks pays at most what was checked, and the rest covers the value |
| StateTransition.NonceErrors | core/state_transition.go:286-306 | each nonce and sender error occurs exactly on its condition on the stored nonce, the message and the code; an applied message with checks is the next one of an account without code |
| StateTransition.FeeErrors | core/state_transition.go:308-335 | each fee error occurs exactly on its condition, after the nonce checks |
| StateTransition.BlobErrors | core/state_transition.go:337-361 | each blob error occurs exactly on its condition, after the fee checks |
| StateTransition.FundErrors | core/state_transition.go:244-272 | the balance and gas pool errors occur exactly if the sender cannot cover the most the message may cost, or the pool its gas |
| StateTransition.AppliedIff | core/state_transition.go:376-430 | a message is applied if and only if its nonce, fees, blobs and funds are in order, the pool holds its gas, the gas covers the intrinsic part, its init code is not too long and its price fits 256 bits; each late error and the panic has its exact condition |
| StateTransition.ExecutionInput | core/state_transition.go:400-448 | what the EVM is given: the sender has paid for gas and blobs, a call has used up the nonce and a creation has not, and the intrinsic gas is gone |
| StateTransition.StateTransition.BuyGas | core/state_transition.go:244-281 | fails exactly as the unbounded check says and then changes nothing; otherwise deducts exactly the prepayment and the gas |
| StateTransition.StateTransition.CheckMessage | core/state_transition.go:283-364 | computes the unbounded checks, whose errors have exactly the conditions above; a failing check leaves state and pool untouched, a passing one has bought the gas |
| StateTransition.StateTransition.RefundGas | core/state_transition.go:479-497 | refunds the capped counter, buys back the rest without wrap-around, and the pool does not panic; a price beyond 256 bits panics |
| StateTransition.StateTransition.TransitionDb | core/state_transition.go:376-477 | on machine integers computes exactly the unbounded transition, which is applied and fails exactly on the conditions above; the transfer-funds error never occurs |
| StateTransition.Conservation | core/state_transition.go:376-477 | the sum of balances falls by exactly used gas times base fee plus the blob fee plus what the execution destroys (Specification section of EIP-1559) |
| StateTransition.WhoPays | core/state_transition.go:455-469 | an applied message changes every balance by exactly what its execution does to it, less used gas at the effective price and the blob fee for the sender, plus used gas at the tip for the producer, also when they are the same |
| StateTransition.GasAccounting | core/state_transition.go:479-502 | used gas leaves the pool; it is what the execution and the intrinsic part used less the refund counter, capped at a fifth (before London a half) of that; status and the rest of the state are those of the execution (Specification section of EIP-3529) |
| StateTransition.RejectionEffects | core/state_transition.go:387-428 | rejections before the purchase change nothing, later ones have bought the gas |
| StateTransition.PanicNeedsWrap | core/state_transition.go:489 | a panic needs a message without gas, before London, with an access list whose cost wraps |
| Accounts.TransferConserves | core/evm.go:131-141 | a covered transfer moves exactly the amount, also to oneself, and conserves the supply |
| StateProcessor.Process | core/state_processor.go:102-147 | on machine integers the loop computes the unbounded run; pool and used gas add up to the gas limit |
| StateProcessor.ApplyTransaction | core/state_processor.go:159-207 | the cumulative gas never wraps and the receipt records it |
| StateProcessor.ApplyMessage | core/state_transition.go:191-193 | a fresh transition computes the unbounded one |
| StateProcessor.IncludedIff | core/state_processor.go:102-116 | a transaction gets into a block if and only if its sender is known, it is the sender's next, its fees and blobs are in order, the sender covers its worst cost, the pool holds its gas, and the gas covers the intrinsic part |
| StateProcessor.ReceiptReports | core/state_processor.go:165-193 | the receipt has the status of the execution, its gas less the capped refund, and the gas of the blobs |
| StateProcessor.RefusedIff | core/state_processor.go:102-116 | a block is refused if and only if one of its transactions is not includable after those before it |
| StateProcessor.BlockAccounting | core/state_processor.go:102-147 | at every point pool plus used gas is the limit, cumulative gas is the prefix sum, and the supply fell by exactly what was burned, destroyed by executions and deleted by finalisation |
| StateProcessor.ProcessAccounting | core/state_processor.go:102-156 | the same for whole blocks with the real step and any EVM |
| Substate.BigIntRoundTrip | research/substate_utils.go:84-98 | big integers survive their big-endian bytes |
| Substate.SaveSubstate | core/state_transition.go:510-588 | the loops build the record section by section; an unsupported type panics |
| Substate.LoadSubstate | core/state_transition.go:591-668 | the loops rebuild a message from a record |
| Substate.LoadSave | core/state_transition.go:510-668 | exactly what a message keeps after recording and loading |
| Substate.RoundTripIff | core/state_transition.go:510-668 | a message comes back unchanged if and only if it carries nothing the record drops |
| Substate.CallMessageChanges | core/state_transition.go:510-668 | a call message with skipped checks and its own fee cap comes back without them |
| Substate.RecordReplay | core/state_transition.go:156-182 | every message of a transaction that passed the checks is replayed unchanged, for all four types |
| BlockHashes.HashCache.GetHash | core/evm.go:93-129 | over any sequence of queries each answer is the memoryless walk; slot i is the ancestor at ref-1-i; the loop terminates without underflow |
| BlockHashes.WalkFindsAncestor | core/evm.go:92-129 | the walk gives the real ancestor's hash exactly if the headers on the way are stored, and zero otherwise |
| BlockHashes.AncestorHashIs | core/evm.go:98-129 | the block-hash function: the ancestor's hash for a number below the reference with the headers between stored, zero for every other number |
| GasLimit.StepHonestIff | core/block_validator.go:151-172 | a step stays strictly inside the bound, moves towards the target and does not overshoot if and only if it does not wrap |
| GasLimit.StepIsBest | core/block_validator.go:151-172 | no limit within the bound and between parent and target is closer to the target than the step |
| GasLimit.SafeLimitIff | core/block_validator.go:151-172 | no step wraps exactly for desired limits up to a fixed bound, which covers all valid gas limits |
| GasLimit.StepCanWrap | core/block_validator.go:158-163 | a concrete step that wraps |
| GasLimit.Converges | core/block_validator.go:148-150 | as long as no step wraps, iterating reaches max(desired, minimum) in finitely many steps, at least three closer each, and stays |
| GasLimit.FitsWhen | core/block_validator.go:148-150 | no step wraps towards any limit up to the safe bound, nor on the way down |
| GasLimit.HonestIffFits | core/block_validator.go:151-172 | all steps of an iteration are honest if and only if none wraps |
| GasLimit.NeverConverges | core/block_validator.go:151-172 | without that the limit can fall to 1024 and stay there for ever |

## Left out

- EVM interpreter, state tries, snapshots and trie garbage collection: an oracle stands for execution.
- Freezer, LRU caches, RLP, Keccak and signatures: abstracted to maps, an injective hash and a recovered sender. `WriteHeaders` fills its caches before the interrupt check; the model has no caches.
- Block insertion dispatch (`insertChain`), future blocks, prefetching, sidechain memory handling and event emission of `reorg`: broad branching over unseen validators, or easy members.
- Separate header import ahead of blocks, and the repair mode of `setHeadBeyondRoot`: the block-chain invariant has header head and block head coincide.
- Snap-block rewinding, the truncation of the freezer and state recovery in `setHeadBeyondRoot`: the states on disk do not change during a rewind.
- Indexer checkpoints and child indexers: the checkpoint is fixed at zero sections.
- IndexerProtocol.Step: one Go statement is one step, also `storedSections--`; finer races inside a statement are not modelled. RunSafe does not depend on that, because it rules the overlap out, and neither does ClashCorrupts, which only needs schedules that exist.
- ChainIndexer.ChainIndexer.ProcessSection: states the drop after a failed reset as it is when no locked operation runs beside it; the overlaps are in `IndexerProtocol`.
- StateTransition.TransitionDb: covers messages derived from transactions under the block's own base fee; what a panic leaves in memory is not stated.
- Simulation modes (`NoBaseFee`), tracers, the DAO fork, the beacon root call, rewards and withdrawals: side paths of block processing.
- Feed type checks, the buffered send lock and `event/feedof.go`, which repeats the same algorithm.
