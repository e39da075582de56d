# Klingnet chain: a verified model

Klingnet is a UTXO blockchain node with proof-of-authority and proof-of-work engines. This project
models its chain state machine in Dafny (extending the tip, reorganising, recovering from an
interruption), together with the stores, the consensus arithmetic and the algorithms it rests on,
and proves what they are for.

`dafny verify dfyconfig.toml` checks the whole project.

## What is modelled

The specification of a chain is one line: fold the blocks from genesis to the tip over an empty
ledger (`Replay.Fold`). The node keeps the same information incrementally, in three key regions of a
database (outputs, address index, stake index), in height and transaction indexes, undo records,
supply and difficulty counters, a registration counter and the validator set. The class `Chain.Node`
has those fields; its methods are the loops and writes of the Go code, and their contracts say that
all of it equals the fold of the active chain, before and after every operation.

* **Storage and crashes.** A database is a record of maps (`Storage.Disk`) with a budget of writes.
  A write with no budget left fails, and nothing is written after it. A crash and an I/O error are
  therefore the same event, and a contract for every budget is a contract for a stop at any write.
* **Hashes and signatures** are arbitrary constant functions. What a theorem needs of them is a named
  hypothesis: `TxHashSound` (no collisions where the hashed bytes have none: a transaction's hash fixes
  the number of its inputs and its first outpoint, a coinbase with an eight-byte marker also the marker,
  and no such coinbase hashes like one of genesis; more would be false, since an empty marker leaves no
  trace in those bytes), `TokenIdsInjective`, `ConcatInjective` and `LeavesApart` (merkle nodes), `OnlyKey` (one
  validator's key verifies a signature). A genesis hash is never the zero hash.
* **Freshness of outputs** is derived, not assumed: from `TxHashSound` and `Tagged` (the coinbase of a
  block carries its height, as the miner writes it) every valid block creates only outpoints that
  never existed on its chain (`Replay.ValidBlockIsFresh`). Without freshness the undo law
  holds on one condition only (`Undoing.UndoExactlyWhen`).
* **Integers** are mathematical; where Go's uint64, uint32 or int64 can wrap, the model wraps
  (`Sub64`, `Add64`, `AsInt64`, the accumulator of `convertBits`). Heights are taken not to reach 2^64.

## How the modules depend on each other

| module | role |
|---|---|
| `Primitives`, `Arithmetic`, `Sorting` | sums over sequences and maps, division and powers of two, sorted permutations |
| `Types`, `Ledger`, `Undoing`, `Weights` | records; what a block does to the unspent outputs and back; one conservation law for every quantity an output carries |
| `TxRules`, `Tokens`, `Merkle`, `BlockRules`, `Subsidy`, `StateRules` | validation, each method deciding a predicate |
| `Replay`, `Economics`, `Validators`, `Signing`, `Ordering` | chains as folds, and what holds on all of them |
| `History`, `Consensus`, `Acceptance` | the same rules read off the blocks, without the ledger, and their equivalence with validation |
| `Storage`, `UtxoStore`, `BlockStore`, `BlockEffects` | the database and its stores |
| `ChainSpec`, `ChainSteps`, `Branches`, `Staffing`, `Transitions`, `Rebuilding`, `Genesis` | the database of a chain, and the proof steps between databases |
| `Chain`, `Runs`, `Lifetimes` | the node, whole runs of it, and whole lives of its database |
| `Mining`, `Divergence` | block production against validation; two histories, mined block by block, on which a rebuild goes wrong |
| `Poa`, `Suspensions`, `Retarget` | the two engines |
| `Bech32`, `Polymod`, `Standard`, `CoinSelect`, `Mempool` | self-contained algorithms; the checksum against BIP-173 |

## Differences between the code and its documentation

* `CalcNextDifficulty` says its result lies within a factor of 4. The upper bound is looser when the
  expected span is not a multiple of 4 (`Retarget.FourfoldExactlyWhen` gives the exact condition), a
  result beyond uint64 becomes 1 (`Retarget.OverflowDropsToOne`), and one expected span divides by
  zero (`Retarget.StopsExactlyWhen`). From an expected span of 2^61 on the fourfold wraps; where it
  wraps below the quarter no factor bounds a retarget (`Retarget.BoundsExactlyWhen`,
  `Retarget.FixpointExactlyWhen`).
* `Bech32Decode` lower-cases by Unicode and checks the case in ASCII only, so a string with a character
  such as U+212A in place of a `k` decodes too (`Bech32.LookalikeDecodes`).
* `rebuildReorg` is called "always correct". It rewrites the height index before the tip moves, so a
  crash inside it is not recoverable (`Rebuilding.IndexWriteUnprotected` says exactly when, and
  `Rebuilding.FirstIndexWriteBreaks` that its first write already does it for every branch that
  leaves the chain below the tip). It checks the supply cap against a stale supply, so what it
  accepts is a valid chain exactly when no block mints more than its true supply allows
  (`Rebuilding.ReplayValidExactlyWhen`). It runs the stake handlers of the new branch only: the validator
  set is right afterwards exactly when the stakes it started from lie between those of fork and target
  (`Validators.RebuildAgreesExactlyWhen`; a key staked on the abandoned branch alone stays, one withdrawn
  there is missing). A node that wrote its own undo records never runs it (`Chain.Node.Reorg`).
* Crash recovery is described for reorganisations. The fast path writes outputs under no checkpoint.
  Stopped after the first of those writes and before its batch, it leaves a database that belongs to no
  chain and that no restart repairs (`Chain.Node.ProcessNext`, `Rebuilding.FastPathUnprotected`); one
  write is always such a stop (`Runs.StopAfterOneWrite`).
* A recovery to a lower tip leaves height entries above it. `collectBranch` reads them as the active
  chain: it is right exactly on the branches that meet no such entry (`Branches.WalkExactlyPath`), and
  after a recovery that lost two blocks or more there is always a stored block for which it is wrong
  (`Runs.HeightsOnTheWay`). A switch along such a branch connects blocks to a chain they do not hang on:
  once one is committed the database is no chain's, and a restart rebuilds at most the chain that the index
  happens to spell (`Chain.Node.SwitchAstray`, `Rebuilding.GapIsCrossed`).
* Being suspended and being outside the effective validator set are meant to be the same; with nobody
  producing in the window and several validators they are not (`Suspensions.SuspendedIffIneffective`).
* A reconstruction of the suspensions forgets the grace period of a validator added inside the window that
  has not signed since (`Suspensions.GraceLostExactlyWhen`).
* The miner goes on making blocks when the subsidy has ended, with a coinbase worth nothing if there are no
  fees. Validation refuses such a coinbase: no block is accepted that may mint nothing and collects nothing
  (`Mining.AcceptablePays`, `Mining.EmptyBlockExactlyWhen`, `Mining.AfterTheCap`). It does not look at the
  size of what it assembles either (`Mining.AssembledExtendsExactlyWhen`).
* A missing supply is read as zero, for old databases. A first start that stops right before writing it is
  taken for one of those, and the supply is counted from zero (`Rebuilding.CutExactlyWhen`).
* The mempool's minimum fee wraps: beyond uint64 everything admitted pays less than the minimum rate
  (`Mempool.MinimumRateHoldsExactlyWhen`, `Mempool.UnderpaidIsAcceptable`).
* The pool reads maturity at the height of the tip, validation at that of the next block: what becomes spendable
  with the next block is refused for one block more (`Acceptance.AdmittedExactlyWhen`).
* Timestamps are described as strictly increasing; a block as old as its parent is accepted
  (`Acceptance.ExtendsExactlyWhen`).
* A burn output need not burn anything (`Tokens.BurnDestroysExactlyWhen`).
* Every node keeps at most `maxSize` pooled transactions, so `Evict` finds nothing to do on a pool that
  only `Add` filled (`Mempool.Pool.Evict`).

## Model

| member | source | states |
|---|---|---|
| Chain.Node.ProcessBlock | internal/chain/processor.go:42-222 | a block is rejected exactly when it neither extends the tip nor forks off a stored block by the rules, for a reason that is true of it; extending appends it to the active chain; a fork is stored, tried exactly when it reaches the tip's height, and switched to exactly when its chain has more work; the tip moves only with strictly more work and never to a lower height; database, counters, indexes and undo records stay those of the active chain's fold; a reorganisation stops only on a failing write or at a named unfit block, and leaves a database to recover the old tip or part of exactly that branch from; the fast path stops half-way exactly when the writes left do not cover the block's outputs and its batch, or the registration counter overflows; only while a height entry lies above the tip can a branch mislead it |
| Chain.Node.ProcessNext | internal/chain/processor.go:125-221 | the fast path: refusal means the block does not extend the chain and nothing was written; a block that does is connected exactly when the writes left exceed those of its outputs; with none left nothing changes, with some but too few the database is lost to every chain, beyond that the block is committed |
| Chain.Node.ProcessFork | internal/chain/processor.go:98-123 | a block below the tip's height is stored and leaves the active chain alone, even at the end of a heavier branch; at or above it a reorganisation is tried, so the height never drops |
| Chain.Node.Connect | internal/chain/processor.go:127-187 | validated, applied and committed: the database of the longer chain, with its undo record; refused exactly when the block cannot extend the chain; otherwise the number of writes left decides exactly between nothing written, outputs without the batch, and committed |
| Chain.Node.Disconnect | internal/chain/reorg.go:166-242 | the tip block is undone: outputs, indexes, totals and undo records are those of the chain one block shorter; a missing record is found before anything is touched |
| Chain.Node.Attach | internal/chain/processor.go:125-221 | connecting also keeps the validator set in step with the ledger, and leaves it alone when only genesis validators stake |
| Chain.Node.Detach | internal/chain/reorg.go:166-242 | reverting also keeps the validator set in step with the ledger, and leaves it alone when only genesis validators stake |
| Chain.Node.CheckSigningLimit | internal/chain/processor.go:602-633 | accepts a signed header exactly when none of the N/2 blocks below it has the same signer; a single validator is never limited |
| Chain.Node.IsSigningLimitReached | internal/chain/processor.go:638-666 | true exactly when there are several validators and the key signed one of the last N/2 blocks, which is when every next header signed by it would be refused |
| Chain.Node.CollectBranch | internal/chain/reorg.go:384-421 | terminates with the path from the highest common ancestor, or says that it is unknown or too deep, if and only if no block of that path hangs on a height entry above the tip; otherwise with a proper tail of the path, whose fork is above the tip and off the active chain |
| Chain.Node.NewBranchWork | internal/chain/reorg.go:142-145 | the wrapping sum is the true work of any branch within the depth limit |
| Chain.Node.OldBranchWork | internal/chain/reorg.go:146-152 | the sum read through the height index is the true work of the chain above the fork |
| Chain.Node.RevertBranch | internal/chain/reorg.go:166-242 | back to the fork, the state is the fold of the common part; stopped anywhere, the old chain is still recoverable; with all undo records present none is found missing |
| Chain.Node.ReplayBranch | internal/chain/reorg.go:244-351 | forward along the branch with full validation; stopped anywhere, by a failing write or an unfit block, the database is recoverable to the old tip or to the fork plus a non-empty prefix of the branch, with the signing window kept |
| Chain.Node.SwitchOver | internal/chain/reorg.go:157-379 | checkpoint, revert, replay: ends on the branch with everything in step, or recoverable |
| Chain.Node.Reorg | internal/chain/reorg.go:126-379 | for a branch that meets no stale height entry: keeps the chain exactly when the branch has no more whole-chain work, otherwise refines a replay of the target chain; interrupted at any write it is recoverable to the old tip or part-way along the branch, with blocks and higher index entries untouched; the rebuild path is never taken while undo records are complete. For any other branch: the old chain stays recoverable, or the database belongs to none |
| Chain.Node.SwitchIfHeavier | internal/chain/reorg.go:136-379 | the comparison of the branches and the switch, on the path to the highest common ancestor |
| Chain.Node.SwitchAstray | internal/chain/reorg.go:157-379 | a switch whose fork was put above the tip reverts nothing; stopped before its first commit the old chain is recoverable; after that the database is that of no chain at all, a restart can rebuild at most the chain that goes on from the old tip with the height entry above it, and none if that entry is no child of the tip or the checkpoint is gone |
| Rebuilding.GapIsCrossed | internal/chain/reorg.go:244-379 | blocks connected across a gap in heights leave totals that no chain has: the work of every chain that the index can spell up to that tip is greater |
| Rebuilding.TornLoses | internal/chain/reorg.go:244-351 | a tip above a tear in the height index belongs to no chain and can be rebuilt into none |
| Chain.Node.RebuildReorg | internal/chain/reorg.go:427-596 | the rebuild ends with the outputs, difficulty, registrations and undo records of the target's fold and its supply cut to the cap, and the transaction index gains the branch's entries; that is the state of a valid chain if and only if no block of the branch mints more than its true supply allows, which holds when the supply it checks against is not below the true one; the validators are in step if and only if the stakes follow, as they do when only genesis validators stake |
| Chain.Node.ReplayFromGenesis | internal/chain/reorg.go:472-581 | replaying and re-validating every block yields the fold of the target with all its undo records, a chain valid but for the cap, and the validators that the handlers of the blocks above the fork make of those before |
| Rebuilding.ReplayValidExactlyWhen | internal/chain/reorg.go:476-500 | what a replay against a stale supply accepts is a valid chain if and only if every block keeps the cap of its true supply; so when the stale supply covers it |
| Validators.RebuildAgreesExactlyWhen | internal/chain/reorg.go:437-563 | running the handlers of the new branch only on a set in step with another ledger leaves it in step with the target if and only if, for every key the branch does not stake, having its stake at the target implies having it at the start, and that implies having it at the fork |
| Validators.KeyAfter | internal/chain/reorg.go:537-563 | a key the branch stakes is in the set exactly when it has its stake; any other stays as it was, unless its stake is spent |
| Validators.LeftoverStays | internal/chain/reorg.go:437-461 | a key with its stake at the start but not at the fork, and not staked by the branch, stays in the set without stake |
| Validators.WithdrawnStaysOut | internal/chain/reorg.go:437-563 | a key without its stake at the start that has it at the target, not staked by the branch, is missing |
| Divergence.LeftoverWitness | internal/chain/reorg.go:437-461 | two valid chains of blocks signed in their turn, one of which stakes and the other has more work: a rebuild from the one to the other keeps the validator |
| Divergence.WithdrawnWitness | internal/chain/reorg.go:437-563 | two valid chains of blocks signed in their turn, one of which takes a stake back and the other has more work: a rebuild from the one to the other misses the validator |
| Rebuilding.StaleSupplyExactlyWhen | internal/chain/reorg.go:498-498 | a block that passes the stale check passes the true one if and only if it mints no more than the true supply allows; always, when the stale supply is not below |
| Chain.Node.RebuildUtxos | internal/chain/chain.go:309-385 | rebuilds outputs, both indexes, totals and every undo record of the persisted chain, if and only if the writes suffice for clearing and replaying it and the registrations fit; cut short anywhere it can be run again for the same chain |
| Chain.Node.New | internal/chain/chain.go:74-130 | a restart yields a node whose memory and database are the fold of the persisted chain, rebuilding first if a checkpoint is set, if and only if the registrations fit and the writes suffice; failing, it leaves the database recoverable |
| Chain.Node.Start | internal/node/node.go:166-175 | New, the rules and the staked validators together give a node ready for its next block, with the validator set the ledger demands, exactly when New succeeds |
| Chain.Node.RecoverStaked | internal/node/node.go:396-411 | adds exactly the listed keys whose stake reaches the minimum, so none when only genesis validators stake |
| Chain.RestartUntilDone | internal/chain/chain.go:121-127 | however many restarts are cut short, the first completed one has rebuilt the same chain and its validator set; one completes as soon as it gets writes enough to clear the most keys ever left and to replay the chain |
| Chain.Node.InitFromGenesis | internal/chain/chain.go:134-183 | on an empty database, or on what any number of cut-short starts with the same genesis left before the tip: the valid state of the one-block chain; refused without effect on a started chain or when the allocations overflow, and otherwise only for a failing write, which leaves a database to start on again, or all of that state but the supply or the supply and the height |
| Rebuilding.CutExactlyWhen | internal/chain/store.go:131-159 | a first start cut short after its tip was written: without the height no node starts on it; without the supply one does, counting from zero, and the database belongs to no chain if and only if genesis allocated anything |
| Chain.CountRegisteredSubChains | internal/chain/chain.go:391-411 | the number of unspent registration outputs, or none when it leaves uint64 |
| Branches.WalkExactlyPath | internal/chain/reorg.go:384-421 | the walk by the height index finds the path to the highest common ancestor if and only if no block of the path hangs on an entry above the tip; otherwise it is a proper tail of it and its fork is off the chain |
| Branches.CutBackLeavesStale | internal/chain/reorg.go:384-421 | a chain cut back by two blocks or more leaves a stored block that hangs on an entry above the tip |
| Runs.RunFromGenesis | internal/chain/processor.go:42-222 | after any sequence of blocks from genesis, reorganisations included: everything stored is the fold of one valid chain, value never exceeds the supply, the supply never exceeds a cap the allocations fit under, the validator set is what the ledger demands, and when only genesis validators stake the signing window is kept; if a reorganisation stops at any write, and any number of restarts are cut short too, the first completed one has all this of the old tip's chain or of the fork plus part of the branch that the last arrival completed; a run that stops names its reason and what it lacked |
| Runs.FeedOne | internal/chain/processor.go:42-222 | of an arrival after which the node goes on: one that extends the tip is appended; one that forks leaves the node, if it has writes left, on the chosen chain: the branch if it reaches the tip's height within the depth limit and has more work; any other changes nothing |
| Runs.Feed | internal/chain/processor.go:42-222 | any blocks in any order: the chains followed have ever more work and never fewer blocks, so no tip comes back, and each comes from the one before by an arrival on top of it or by the fork choice over what was stored then; an interrupted reorganisation is recoverable to the last tip or to the fork plus part of exactly the branch that the arrival completed among the stored blocks; a node whose height index ends at its tip is never misled |
| Runs.HeightsOnTheWay | internal/chain/reorg.go:384-421 | after an interrupted switch the height index ends at the tip if it did and the chain is no shorter; if it lost a block the index is torn above the tip, and if it lost two or more, some stored branch is mistaken by the next walk |
| Runs.StopAfterOneWrite | internal/chain/processor.go:161-176 | with one write left, every block that extends the tip leaves a database that belongs to no chain |
| Lifetimes.RunSession | internal/chain/chain.go:74-130 | one session from start-up to a stop after any number of writes: the node starts exactly when the registrations fit and the writes cover a rebuild that is due; the chains it follows each come from the one before by an arrival; afterwards the database can be started on again for the last tip or for the fork plus part of the branch its last arrival completed, unless it stopped between the writes of the fast path or was misled |
| Lifetimes.RunLife | internal/chain/processor.go:42-222 | from genesis through any sessions, arrivals, stops and restarts: but for those two failures the database always holds, or can be rebuilt into, one valid chain with conserved and capped value |
| Consensus.LawfulExactlyWhen | internal/chain/processor.go:227-338 | validation against the unspent outputs accepts exactly the blocks that rules on blocks alone allow, on every valid chain: form and sizes, inputs that spend outputs made and not yet used, each signed by the owner and ripe, value and every token balanced, the coinbase within fees, halved subsidy and cap, exact stakes, judged registrations; with all numbers written out |
| Acceptance.ExtendsExactlyWhen | internal/chain/processor.go:42-222 | a node extends its chain by a block if and only if the block is new, lawful after that chain, not older than the tip, at most 120 seconds ahead, and signed by a validator with the stake behind him, with difficulty 2 in his slot and 1 in others, who signed none of the N/2 blocks below |
| Acceptance.ChosenExactlyWhen | internal/chain/reorg.go:136-156 | the fork choice: the branch exactly when it reaches the tip's height, is walked in 1000 blocks, and its difficulties add up to more |
| Acceptance.AdmittedExactlyWhen | internal/mempool/pool.go:127-212 | the pool admits exactly what the rules on blocks allow at the height of the tip, above the minimum fee: one block stricter than the next block is |
| Acceptance.ValidatorsAre | internal/node/node.go:372-411 | with the stake handlers connected, a price on stakes and no staking coinbase, a node's validators are the genesis validators and exactly the keys whose unspent stakes reach the price |
| Acceptance.FoundersTakeTurns | internal/chain/processor.go:602-633 | where only genesis validators ever stake, the set never changes and any N/2 + 1 consecutive blocks of a node's chain have different signers |
| History.UnspentExactlyWhen | internal/chain/reorg.go:36-94 | the unspent outputs of a valid chain are exactly those that one of its transactions made and none has used |
| History.RecordExactly | internal/chain/reorg.go:36-94 | an unspent output has the value, script and token it was made with, the height of its block, the coinbase mark exactly if transaction 0 of a block above genesis made it, and a lock of 20 blocks exactly if its transaction spent a stake |
| History.NothingSpentEarly | internal/chain/processor.go:519-539 | no block of a valid chain spends an output of a coinbase, or of an unstaking transaction, that is less than 20 blocks old |
| History.MatureExactlyWhen | internal/chain/processor.go:519-539 | the maturity rule refuses a block for nothing else |
| History.SpentByOwner | pkg/tx/utxo_validate.go:47-127 | every input of a valid chain spends an output of an older block and is signed by its owner: the key behind the address of a payment or mint output, the key of a stake; no other kind is ever spent |
| History.UsedOnce | pkg/block/validate.go:103-117 | no outpoint is used by two inputs of a valid chain |
| Rebuilding.IndexWriteUnprotected | internal/chain/reorg.go:463-467 | a height write of rebuildReorg keeps the old chain recoverable if and only if it does not replace one of its blocks |
| Rebuilding.FirstIndexWriteBreaks | internal/chain/reorg.go:463-467 | for a branch off the chain its first height write makes the old chain unrecoverable if and only if it leaves the chain below the tip |
| Rebuilding.FastPathUnprotected | internal/chain/processor.go:161-176 | stopped before its batch, the fast path leaves the old chain's database if it wrote nothing, and otherwise one that belongs to no chain and that no restart rebuilds |
| Rebuilding.EveryBlockHasGap | internal/chain/processor.go:161-176 | every block takes at least one write before its batch |
| Rebuilding.ReplayFacts | internal/chain/chain.go:324-373 | a block of a valid chain replays without failing, and a cap that is off or harmless does not change its reward |
| Rebuilding.HarmlessSupply | internal/chain/reorg.go:521-540 | on a chain that keeps the cap, with a genesis under it, the capped rewards add up to the true supply |
| Genesis.GenesisIsOk | internal/chain/genesis.go:16-88 | the block built from the allocations is a genesis block exactly when they fit in uint64, and pays out their sum |
| Genesis.GenesisPaysEach | internal/chain/genesis.go:16-88 | every allocation is an unspent output of its amount at its address |
| Genesis.ValidateAlloc | config/genesis.go:353-367 | accepts exactly the allocations under which the supply cap can be kept |
| Genesis.NoFirstBlockByProcessing | internal/chain/processor.go:342-352 | no block of height 0 passes state validation on an empty ledger: genesis comes only from InitFromGenesis |
| Genesis.SumAlloc | internal/chain/chain.go:139-146 | the allocations' sum, or none on overflow |
| Ledger.UndoInvertsApply | internal/chain/reorg.go:36-120 | reverting after applying restores the exact map of outputs, heights, coinbase flags and locks included |
| Ledger.StaleOutpointBreaksUndo | internal/chain/reorg.go:97-120 | a coinbase-only block that re-creates an unspent outpoint cannot be undone |
| Undoing.UndoExactlyWhen | internal/chain/reorg.go:36-120 | reverting undoes a validated block if and only if whatever it creates over an unspent output it has spent no later than there |
| Undoing.ChainOutputsBelow | internal/chain/reorg.go:68-90 | every unspent output of a valid chain has a height of that chain |
| Undoing.ChainUndoExactlyWhen | internal/chain/reorg.go:36-120 | the same condition for the next block of every valid chain |
| Ledger.InputsSurvive | internal/chain/processor.go:249-265 | what validation saw before the block is what each transaction finds in its place |
| Ledger.AfterPrefix | internal/chain/reorg.go:36-94 | after any prefix of a block exactly its spends are gone and its outputs are new |
| Ledger.SpentAreOriginal | internal/chain/reorg.go:58-66 | the undo record holds exactly the pre-block outputs the block spends |
| BlockEffects.ApplyBlockWithUndo | internal/chain/reorg.go:36-94 | the loops have the effect of the ledger function, record its undo data, keep both indexes, and on a validated block fail exactly when the writes left are fewer than its outputs and their index entries take |
| BlockEffects.RevertBlock | internal/chain/reorg.go:97-120 | deletes and restores as the ledger function says, keeps both indexes, drops the transaction entries |
| BlockEffects.ApplyUnvalidated | internal/chain/processor.go:484-515 | agrees with the replaying path on blocks that spend nothing |
| Ordering.ValidInItsPlace | pkg/tx/utxo_validate.go:34-101 | existence, ownership, fee, maturity and token balance hold in the intermediate set if and only if they held before the block |
| Ordering.OrderIsIrrelevant | pkg/block/validate.go:79-117 | any arrangement of the transactions after the coinbase gives the same set of outputs |
| Ordering.BlockOrderIsIrrelevant | internal/chain/processor.go:249-265 | on every valid chain, for every acceptable block, in every order, each transaction is valid where it stands |
| Ordering.RootFixesTxs | pkg/block/validate.go:71-94 | two structurally valid blocks with one merkle root list the same transaction hashes |
| Weights.BlockMoves | internal/chain/reorg.go:36-94 | the total of any quantity carried by outputs moves by outputs minus inputs |
| Economics.ValueStep | internal/chain/processor.go:277-287 | a block changes the sum of unspent values by exactly the coinbase total minus the fees |
| Economics.ValueUnderSupply | internal/chain/processor.go:135-158 | on every valid chain the unspent value never exceeds the supply counter |
| Economics.SupplyUnderCap | internal/chain/processor.go:135-158 | on every valid chain the supply stays under the cap when the allocations do |
| Economics.SupplyUnderEmission | internal/chain/processor.go:277-287 | on every valid chain the supply stays below allocations + 2 * reward * interval |
| Economics.RegisteredIsCounted | internal/chain/chain.go:391-411 | the registration counter equals the number of unspent registration outputs |
| Economics.SpentOnce | internal/chain/processor.go:249-265 | on every valid chain no outpoint is spent twice |
| Economics.CirculatingStep | internal/token/validate.go:36-146 | a block changes the circulating amount of a token by what is issued minus what is burned from inputs |
| Economics.ChainMints | internal/token/validate.go:171-185 | every issued token is named after the first outpoint its transaction spends |
| Economics.OneIssuer | internal/token/token.go:21-27 | each token is issued by at most one transaction of a valid chain |
| Economics.OnlyIssuerRaises | internal/token/validate.go:36-146 | once issued, the circulating amount only falls, by exactly what is burned |
| Replay.ValidBlockIsFresh | internal/miner/miner.go:171-190 | a valid block with a height-tagged coinbase creates only outpoints never seen on its chain |
| Replay.ChainProvenance | internal/chain/processor.go:227-338 | on every valid chain transaction hashes are distinct and a spent outpoint never comes back |
| Validators.ConnectKeepsAgreement | internal/chain/processor.go:200-219 | after a block the handlers leave the genesis validators plus exactly the keys with enough stake |
| Validators.RevertKeepsAgreement | internal/chain/reorg.go:199-218 | so they do after a reverted block |
| Validators.ChainStakesFull | internal/chain/processor.go:321-331 | without coinbase stakes every stake output on a valid chain is exactly the required stake |
| Staffing.StaffOnStart | internal/node/node.go:396-411 | the recovered validator set agrees with the ledger |
| Signing.SignedShare | internal/chain/processor.go:602-633 | a validator that signs c of some consecutive blocks needs more than (c - 1) * (N/2 + 1) of them, so at most ceil(L / (N/2+1)) of any L |
| Signing.WindowSignedOnce | internal/consensus/poa.go:336-344 | within N/2 + 1 consecutive blocks no validator signs twice |
| Signing.SignedChainIs | internal/chain/processor.go:602-633 | a chain keeps the rule if and only if any N/2 + 1 consecutive blocks have different signers |
| Signing.RecentSignerIsRefused | internal/chain/processor.go:638-666 | having signed recently is exactly what makes the next block unacceptable |
| ChainSpec.BranchWorkIsChainWork | internal/chain/reorg.go:139-156 | comparing branch sums is comparing whole-chain work |
| ChainSpec.MoreWorkNewTip | internal/chain/reorg.go:154-156 | a chain with more work has another tip, so no tip is visited twice |
| ChainSpec.TipDeterminesChain | internal/chain/store.go:362-372 | stored valid chains with the same tip are the same |
| ChainSpec.PathIsBranch | internal/chain/reorg.go:384-421 | the collected path meets the active chain at its first block and nowhere else, and never reaches below genesis |
| ChainSpec.BlockReverts | internal/chain/reorg.go:220-236 | the undo record of the tip block leads back to the shorter chain, and no counter underflows |
| ChainSpec.TxIndexReverts | internal/chain/reorg.go:112-118 | dropping a block's own entries leaves the transaction index of the chain below |
| ChainSpec.IndexesRebuilt | internal/chain/store.go:350-399 | rebuilt indexes agree with the PrevHash walk from the tip, whatever the height index said before |
| ChainSpec.TxIndexLocates | internal/chain/store.go:162-174 | every transaction of a valid chain is indexed at the block that holds it |
| ChainSteps.CommitAdvances | internal/chain/store.go:272-345 | committing an acceptable block moves the disk from one valid chain to the next |
| BlockStore.Blocks.RebuildIndexes | internal/chain/store.go:350-399 | writes exactly the height and transaction entries of the walk, or nothing when the walk fails |
| BlockStore.Blocks.CollectAncestors | internal/chain/store.go:362-372 | finds the walk exactly when every block is stored at its height |
| BlockStore.Blocks.CommitBlock | internal/chain/store.go:295-345 | one batch: all of it or nothing |
| BlockStore.Blocks.CommitUnbatched | internal/chain/store.go:280-293 | the fallback without batches writes the same, key by key; the writes left decide exactly which keys are in when it stops |
| BlockStore.Blocks.PutBlock | internal/chain/store.go:51-78 | block, height and transaction entries, in single writes |
| BlockStore.Blocks.SetTip | internal/chain/store.go:113-127 | three writes; cut short, each key is old or new |
| UtxoStore.PutKeepsIndexes | internal/utxo/store.go:91-115 | storing keeps both indexes exact if and only if an overwritten output had no other index entries |
| UtxoStore.DeleteKeepsIndexes | internal/utxo/store.go:118-134 | deleting keeps both indexes exact |
| UtxoStore.Store.Put | internal/utxo/store.go:91-115 | the three regions after a completed put, and exactly how many writes it takes; nothing else on disk changes |
| UtxoStore.Store.Delete | internal/utxo/store.go:118-134 | the three regions after a completed delete, ignored index failures included, and exactly how many writes it takes |
| UtxoStore.Store.ClearAll | internal/utxo/store.go:217-235 | the three regions end empty after as many writes as they have keys; nothing else on disk changes |
| UtxoStore.Store.GetByAddress | internal/utxo/store.go:239-267 | exactly the unspent outputs of the address, each once |
| UtxoStore.Store.GetStakes | internal/utxo/store.go:154-186 | exactly the unspent stake outputs of the key, each once, worth its stake in the set |
| UtxoStore.Store.HasStake | internal/consensus/stake.go:24-39 | true exactly when the key's stake reaches the minimum, overflow included |
| UtxoStore.Store.GetAllStakedValidators | internal/utxo/store.go:190-213 | exactly the keys with an unspent stake output, each once |
| StateRules.ValidateBlockState | internal/chain/processor.go:227-338 | accepts exactly the blocks that keep every state rule, and counts their registrations |
| StateRules.TotalFees | internal/chain/processor.go:249-265 | the fees' sum exactly when every transaction is valid and it fits |
| StateRules.ComputeBlockReward | internal/chain/processor.go:386-433 | for any block: what the coinbase pays beyond those fees that still fit in uint64, and nothing if the coinbase does not fit; on a validated block no term is dropped and it is what the coinbase mints |
| StateRules.SumKeptExactlyWhen | internal/chain/processor.go:386-463 | a sum that drops the terms which would overflow never exceeds the true one, and is the true one if and only if that fits in uint64 |
| StateRules.ComputeTxFee | internal/chain/processor.go:438-463 | for any transaction: the difference of the sums without the terms that would overflow; the true fee when sums fit |
| StateRules.CheckMaturity | internal/chain/processor.go:519-539 | accepts exactly when no input is immature or locked |
| StateRules.ValidateRegistrations | internal/chain/processor.go:541-562 | each registration is judged with the count before it; the total of the block |
| StateRules.CountRegisterOutputs | internal/chain/processor.go:564-574 | the registrations of a block, as the ledger counts them |
| StateRules.CapIsNoOp | internal/chain/processor.go:135-142 | on a validated block the supply cap changes nothing |
| BlockRules.ValidateBlock | pkg/block/validate.go:36-120 | accepts exactly the well-formed blocks: sizes, one coinbase first, merkle root, canonical order, valid transactions, no shared input |
| BlockRules.SharesSpend | pkg/block/validate.go:103-117 | finds an outpoint spent by two transactions if there is one |
| TxRules.Validate | pkg/tx/validate.go:33-89 | accepts exactly the well-formed transactions |
| TxRules.ValidateWithUtxos | pkg/tx/utxo_validate.go:34-101 | the fee, exactly when the transaction is well-formed, outputs do not exceed inputs, and every input exists and is signed by the owner of what it spends |
| Tokens.ValidateTokens | internal/token/validate.go:36-146 | accepts exactly the transactions whose every token balances within uint64 |
| Tokens.TokenConservation | internal/token/validate.go:36-146 | what stays in circulation plus what is destroyed equals what came in plus what is issued |
| Tokens.BurnDestroysExactlyWhen | internal/token/validate.go:125-146 | circulation falls by what a transaction declares burned if and only if some of the token comes in or is kept, or nothing is declared; a minting transaction destroys none |
| Tokens.PhantomBurnPasses | internal/token/validate.go:125-146 | burning a token the inputs do not carry passes the token rules |
| Tokens.PhantomBurnIsAccepted | internal/token/validate.go:125-146 | a transaction good in all else is accepted with it, and circulation does not change |
| Merkle.ComputeMerkleRoot | pkg/block/merkle.go:15-41 | the loop over levels computes the recursive root |
| Merkle.RootOfFull | pkg/block/merkle.go:15-41 | the root of a full tree hashes the roots of its two halves, left before right |
| Merkle.RootOfOdd | pkg/block/merkle.go:28-34 | an odd list has the root of the list with its last hash repeated |
| Merkle.RootDeterminesList | pkg/block/merkle.go:15-41 | lists of distinct hashes, of any lengths, with one root are equal |
| Merkle.SameRootExactlyWhen | pkg/block/merkle.go:15-41 | any two lists have one root if and only if they fill their trees alike, the repeats of odd tails included |
| Merkle.RepeatedTailSameRoot | pkg/block/merkle.go:28-34 | without distinctness they need not be: the smallest collision |
| Subsidy.EmissionBound | config/genesis.go:135-147 | the subsidies of blocks 1 to n sum to less than 2 * reward * interval, for every n |
| Subsidy.SubsidyIs | config/genesis.go:135-147 | the subsidy is the reward over the power of two of the halvings so far, rounded down |
| Poa.Engine.AddValidator | internal/consensus/poa.go:264-273 | a new key joins in key order with a grace period; a known key changes nothing |
| Poa.Engine.RemoveValidator | internal/consensus/poa.go:277-289 | any key but a genesis key leaves the set |
| Poa.Engine.RecordBlockProduction | internal/consensus/poa.go:449-457 | the record and the height move; no record rises above the height |
| Poa.Engine.VerifyHeader | internal/consensus/poa.go:147-191 | accepts exactly signed headers of staked validators with difficulty 2 if the signer is validators[timestamp / blockTime % N], and 1 otherwise |
| Poa.Engine.IdentifySigner | internal/consensus/poa.go:415-430 | the first validator whose key verifies |
| Poa.Engine.EffectiveValidators | internal/consensus/poa.go:536-556 | the loop yields the effective set of the specification |
| Poa.Engine.IsSuspended | internal/consensus/poa.go:486-506 | the case analysis decides the suspension of the specification |
| Poa.SameKeysSameSlots | internal/consensus/poa.go:81-85 | sets with the same keys are in the same order and elect the same validator |
| Poa.SlotsInOrder | internal/consensus/poa.go:302-311 | the validators take turns in their order, a slot each |
| Poa.LexFirstDifference | internal/consensus/poa.go:81-85 | their order: the first different byte decides, and a prefix comes first |
| Poa.EveryPlaceHasTurn | internal/consensus/poa.go:302-311 | among any N consecutive slots every validator is elected |
| Poa.TurnsDistinct | internal/consensus/poa.go:302-311 | in only one of them, if nobody is in the set twice |
| Poa.Engine.TurnDecidesDifficulty | internal/consensus/poa.go:178-191 | at a timestamp in slot j of a round a header needs difficulty 2 from the j-th validator and 1 from all others |
| Poa.Engine.PreparedOkExactlyWhen | internal/consensus/poa.go:195-228 | a header prepared and signed by a validator is accepted by its peers if and only if the key is a genesis validator's or has the stake |
| Mining.PreparedIsAuthorised | internal/consensus/poa.go:195-228 | while the set follows the ledger, what any of its validators prepares and signs is accepted |
| Mining.ProduceBlock | internal/miner/miner.go:89-190 | the block on top of the tip whose coinbase pays one address the capped subsidy and the fees, as their sum wraps, with the selection in hash order under its root, later than its parent |
| Mining.AssembledExtendsExactlyWhen | internal/miner/miner.go:89-190 | what is assembled from spendable transactions extends the chain if and only if its coinbase is worth something, it fits the block size, and its sums and registrations hold |
| Mining.NodeTakesExactlyWhen | internal/chain/processor.go:42-222 | a node takes such a block if and only if it is also signed in turn, within the signing limit, and not ahead of the clock |
| Mining.MintsItsShare | internal/miner/miner.go:104-121 | the coinbase mints exactly what subsidy and cap leave; nothing, if its sum with the fees wraps |
| Mining.AcceptablePays | pkg/tx/validate.go:70-75 | no acceptable block mints nothing and collects nothing |
| Mining.AfterTheCap | internal/chain/processor.go:267-287 | on every valid chain, every block after the supply reached the cap collects fees |
| Mining.EmptyBlockExactlyWhen | internal/miner/miner.go:104-121 | a block without transactions, as the miner makes it, is accepted if and only if there is a subsidy left |
| Suspensions.ReconstructSuspensions | internal/node/node.go:1041-1065 | afterwards the engine answers as if it had recorded every block since genesis, and no record lies above its height, so no query wraps |
| Suspensions.ReconstructionIsExact | internal/node/node.go:1041-1065 | with no validator added in between, scanning the window and recording all blocks give the same effective set and suspensions |
| Suspensions.GraceLostExactlyWhen | internal/node/node.go:1041-1065 | a validator added at height a counts as producing alike before and after a reconstruction, unless a is inside the window, it signed nothing in the window, and the chain is longer than the window; no other validator is affected |
| Suspensions.GraceDecidesAnswers | internal/consensus/poa.go:486-556 | otherwise all answers are the same; then, if somebody else produced, that validator turns from effective to suspended |
| Suspensions.GraceLostWitness | internal/node/node.go:1041-1065 | a run of signers, within the signing limit, on which it happens |
| Suspensions.SuspendedIffIneffective | internal/consensus/poa.go:486-556 | suspended means outside the effective set for all validators if and only if the chain is young, someone produced in the window, or there is one validator |
| Suspensions.SignedChainConsistent | internal/consensus/poa.go:486-556 | on a signed chain the two always coincide |
| Suspensions.EffectiveNeverEmpty | internal/consensus/poa.go:536-556 | some validator is always effective |
| Suspensions.SuspensionInNumbers | internal/consensus/poa.go:486-556 | from height 200 on the effective validators are those seen within 200 blocks, or all if nobody was, and whoever was not seen is suspended unless alone |
| Retarget.CalcNextDifficulty | internal/consensus/pow.go:291-329 | the clamping statements compute the specification, division by zero included |
| Retarget.RetargetFollowsSpan | internal/consensus/pow.go:291-329 | between a quarter and four times the expected span the result is the old difficulty times expected over actual, rounded down and at least 1; beyond, what the limit gives: a quarter of it for slow periods |
| Retarget.AdjustsOnSchedule | internal/consensus/pow.go:249-281 | on a verified chain the first block has the initial difficulty, a block at a multiple of the interval the one retargeted over the interval before it, and every other block its parent's |
| Retarget.RetargetBounds | internal/consensus/pow.go:291-329 | for an expected span whose fourfold does not wrap below its quarter, a retarget divides by at most 4 and multiplies by at most expected / floor(expected / 4) |
| Retarget.BoundsExactlyWhen | internal/consensus/pow.go:291-329 | the bounds hold for all difficulties and actual spans if and only if the fourfold of the expected span, wrapped to int64, is not below its quarter |
| Retarget.FourfoldExactlyWhen | internal/consensus/pow.go:287-290 | the documented factor of 4 holds for all inputs if and only if 4 divides the expected span or it is below 4 |
| Retarget.RetargetAntitone | internal/consensus/pow.go:291-329 | slower blocks never raise the difficulty |
| Retarget.FixpointExactlyWhen | internal/consensus/pow.go:291-329 | an exact period leaves every difficulty alone if and only if the fourfold of the expected span, wrapped to int64, is not below the span |
| Retarget.RetargetsCompound | internal/consensus/pow.go:291-329 | k retargets divide by at most 4^k and multiply by at most (expected / floor(expected / 4))^k, which is 4^k when 4 divides the expected span |
| Retarget.OverflowDropsToOne | internal/consensus/pow.go:320-328 | a quotient beyond uint64 becomes 1, and from a difficulty of 8 on, where the bounds hold, nothing else does |
| Retarget.StopsExactlyWhen | internal/consensus/pow.go:300-317 | the division by zero happens for exactly one expected span |
| Retarget.Prepare | internal/consensus/pow.go:86-93 | on every verified chain the miner's header has the difficulty that verification demands |
| Retarget.PreparedIsDemanded | internal/node/node.go:1381-1397 | the closure of the node and the chain's check agree on every verified chain |
| Retarget.PreparedExtends | internal/chain/chain.go:288-304 | a chain extended by a prepared block is verified |
| Bech32.ConvertBits | pkg/types/bech32.go:172-204 | with padding it regroups the bits of any bytes; without, it undoes exactly the regroupings with short zero padding |
| Bech32.Encode | pkg/types/bech32.go:24-55 | succeeds exactly for printable human-readable parts, with the bech32 string of the data |
| Bech32.Decode | pkg/types/bech32.go:58-121 | accepts exactly single-case strings whose lower-case form is a bech32 string, and returns what it encodes |
| Bech32.CapitalsDecode | pkg/types/bech32.go:58-121 | an encoding in capital letters decodes to the same pair |
| Bech32.LookalikeDecodes | pkg/types/bech32.go:58-121 | replacing a character of an encoding by one outside ASCII that lower-cases to it gives another string that decodes to the same pair |
| Bech32.RoundTrip | pkg/types/bech32.go:24-121 | decoding an encoding gives back the pair if and only if the human-readable part has no upper-case letter |
| Bech32.RoundTripBack | pkg/types/bech32.go:24-121 | encoding a decoded pair gives back the lower-cased string |
| Bech32.EncodingUnique | pkg/types/bech32.go:58-121 | a string encodes at most one pair |
| Bech32.CreateChecksum | pkg/types/bech32.go:153-162 | computes the checksum of the specification |
| Bech32.ExpandHrp | pkg/types/bech32.go:140-150 | the high bits, a zero, then the low bits of the human-readable part |
| Bech32.ChecksumVerifies | pkg/types/bech32.go:165-167 | six symbols verify if and only if they are the created checksum |
| Polymod.ComputePolymod | pkg/types/bech32.go:124-137 | the nested loops run the register over the values |
| Polymod.StepXor | pkg/types/bech32.go:124-137 | a step is linear over exclusive or |
| Polymod.OneChecksum | pkg/types/bech32.go:153-167 | after any values exactly one list of six symbols brings the register to 1 |
| Standard.StepIsReduction | pkg/types/bech32.go:124-137 | one step of the register multiplies by x, adds the symbol and reduces modulo the generator polynomial of BIP-173 over GF(32) |
| Standard.SymbolsByTable | pkg/types/bech32.go:8-9 | the characters are those of the table of BIP-173 |
| Standard.ShortestVector | pkg/types/bech32.go:24-55 | the first valid string of BIP-173 comes out of its parts |
| CoinSelect.SelectCoins | internal/wallet/coinselect.go:38-107 | while the coins add up within uint64: fails exactly when they cannot reach the target, never uses more inputs than any other choice, takes the smallest sufficient coin if there is one; each failure names its true reason |
| CoinSelect.Accumulate | internal/wallet/coinselect.go:74-90 | takes the k largest coins for the least sufficient k |
| CoinSelect.LargestAreWorthMost | internal/wallet/coinselect.go:74-90 | no k coins are worth more than the k largest |
| Mempool.Pool.Add | internal/mempool/pool.go:127-240 | admits exactly acceptable transactions without a conflict that find room or outbid the lowest rate; only that one is displaced; a refusal changes nothing and names a ground that is true of the transaction |
| Mempool.Pool.Remove | internal/mempool/pool.go:249-261 | the entry and exactly its index entries go |
| Mempool.Pool.RemoveConfirmed | internal/mempool/pool.go:264-270 | exactly the confirmed entries go |
| Mempool.Pool.FindLowest | internal/mempool/pool.go:322-332 | an entry whose rate no other undercuts |
| Mempool.Pool.SelectForBlock | internal/mempool/pool.go:336-359 | as many as fit, input-disjoint, highest rates first, none left out pays more |
| Mempool.Pool.Evict | internal/mempool/eviction.go:6-29 | down to the size limit, and nothing kept pays less than what went |
| Mempool.PooledDisjoint | internal/mempool/pool.go:137-146 | an exact index makes pooled transactions input-disjoint |
| Mempool.RunAll | internal/mempool/pool.go:127-270 | after any interleaving of operations the index is exact, the pool bounded and its transactions input-disjoint |
| Mempool.MinimumRateHoldsExactlyWhen | internal/mempool/pool.go:206-212 | admitted transactions pay the minimum rate if and only if rate times size fits in uint64; beyond, every one of them pays less |
| Mempool.MinimumExactlyWhen | internal/mempool/pool.go:206-212 | the demanded fee guarantees the minimum rate if and only if rate times size fits in uint64 |
| Mempool.RatesCompare | internal/mempool/pool.go:199-204 | one rate is below another exactly when fee and size compare so crosswise |
| Mempool.UnderpaidIsAcceptable | internal/mempool/pool.go:206-212 | beyond uint64, a transaction good in all else is admitted for the wrapped fee and pays less than the minimum rate |

## Left out

- Chain.Node.ProcessBlock: coinbases are taken to carry their height, as the miner writes it and no validator checks; heights are mathematical, so the wrap of `height + 1` at 2^64 is not modelled.
- Chain.Node.Reorg: covers the proof-of-authority fork rule, under which the height never drops; a shorter but heavier proof-of-work branch leaves height entries above the tip.
- Chain.Node.RebuildReorg: when the stale supply does not cover the true one and what the target mints exceeds 2^64, nothing is claimed of the ledger.
- Chain.Node.New: a chain whose registrations exceed 2^64 does not restart.
- BlockStore.Blocks.CommitUnbatched: the recovery theorems are about databases with batches; the node's database has them, so this fallback is not wired into `Chain.Node`.
- Chain.Node.InitFromGenesis: addresses are taken as parsed and ordered; a start on a database left by a start with another genesis is not covered.
- Mining.ProduceBlock: the difficulty and the signature that the engine adds, the selection and the fees the pool recorded are parameters.
- Mempool.Pool.Add: the UTXO set and the height are parameters of the call, fee rates are exact instead of float64.
- Registration, deregistration, reverted-transaction and reorg handlers (they feed other components), and the sub-chain manager.
- Proof-of-work mining: nonce search, threads, the hash target of `VerifyHeader`; the proof-of-work checks of the chain (`verifyDifficulty`) are modelled in `Retarget` and not wired into `Chain.Node`.
- P2P, gossip, sync, RPC, command line, wallet files, key handling, JSON and byte encodings, Badger's key layout, locks and logging.
- The parts of `Genesis.Validate` other than the allocation check, fork schedules, sub-chain rules and the anchor and mint-data codecs: plain field checks.
