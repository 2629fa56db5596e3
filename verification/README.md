# Stealth node: a verified model

A Dafny model of the parts of the Stealth (XST) node whose state must stay right over whole runs: the
chain state and its transaction index, the script machine, the memory pool and block assembly, Merkle
trees, block locators, the stake modifier, checkpoints and hierarchical deterministic keys.
`dafny verify dfyconfig.toml` checks everything.

## How the model is laid out

| part of the node | modules |
|---|---|
| transaction index, connecting and disconnecting blocks | `Ledger`, `TxIds`, `BlockConnect`, `BlockRules`, `MoneySupply`, `Sums` |
| block tree, best chain, reorganization | `BlockTree`, `ChainSpec`, `ChainTrust`, `ChainState` |
| staker registry rebuilt from snapshots | `Registry` |
| script bytes, numbers, evaluator | `ScriptCodec`, `ScriptNum`, `ScriptMachine`, `ScriptEval`, `ScriptLaws`, `ScriptOpcodes` |
| IF blocks as trees | `ScriptStructure` |
| the standard payments | `PaymentScripts` |
| signature-operation counts | `SigOps`, `SigOpCounts` |
| CHECKMULTISIG and the scripts built for it | `Multisig`, `MultisigScripts`, `CombineSignatures` |
| memory pool, block assembly | `Mempool`, `BlockAssembly`, `AssemblyLaws` |
| Merkle tree, locator | `Merkle`, `Locator` |
| stake modifier, checkpoints, HD keys | `StakeModifier`, `Checkpoints`, `HdKeys`, `HdPaths` |

Loops of the source are methods with invariants, proved against functions; objects that the source
updates in place (`Chain`, `Pool`, `SyncCheckpoints`) are classes. Properties of whole runs are lemmas
about the specification functions those methods implement.

## What stands for the outside world

- Hashes are numbers; a pair hash, a digest or an HMAC is a function parameter, injective only where a lemma says so.
- Signature checks, encodings, lock times and consensus rules that are not modelled are function-valued fields
  (`Rules`, `Miner`, `Env`, `Curve`). They are arbitrary, so every result holds for all of them.
- The registry is an opaque state with a deterministic step for each block (`Registry.Machine`).
- The database is a map with begin, abort and commit. Disk and database calls do not fail.
- The order in which a hash map, a set or a heap yields its entries is left open, so results hold for every order.

## Where the code differs from what one would expect

For each of these the exact condition under which the code does what one expects is proved for all inputs, and the
failures that depend on the state are also shown at one.

- Connecting a block and disconnecting it again restores the index exactly when none of the block's ids was
  there before (`Ledger.ConnectThenDisconnect`): the BIP 30 exception overwrites a fully spent record, and
  disconnecting erases it (`Ledger.OverwrittenIsLost`). Along a branch this does not arise, as an id can only come
  back with inputs that are already spent (`TxIds.BlockIdsAreNew`, `ChainSpec.ReplaySettles`).
- A refused reorganization leaves index and links as they were, but the `hashNext` fields of the blocks it had
  disconnected from are cleared outside the database transaction. The disk is unchanged exactly when none of those
  fields was set (`ChainState.Chain.Reorganize`). The links are read back from disk at start-up, and describe the active
  branch exactly when no field is missing (`ChainState.RestartRestoresLinks`). Complete links stay complete exactly when
  nothing is to be disconnected or every block above the fork, up to the intermediate one, connects
  (`ChainSpec.LinksKept`, `ChainSpec.RunKeepsLinks`, `ChainSpec.RefusedSwitchUnlinks`).
- A checkpoint is written although the switch to its branch stopped part-way, below it. It is written exactly when its
  block was on the active branch or every block above the fork up to the intermediate one connects, and the block is on
  the active branch afterwards exactly when it was before or every block above the fork up to itself connects
  (`Checkpoints.MovedOnBranch`, `Checkpoints.CheckpointAboveBest`).
- Before fork PURCHASE3 the recorded money supply falls by the purchases of a block twice. It follows the unspent
  total exactly when the fork is reached or the purchases come to nothing (`MoneySupply.SupplyTracksUnspent`,
  `MoneySupply.PurchaseTakenTwice`).
- A proof-of-stake block is not always favoured in the stake-modifier selection, as a comment has it: the round picks one
  exactly when one of them outranks every proof-of-work candidate in time (`StakeModifier.StakeWinsIff`,
  `StakeModifier.WorkCanWin`).
- A locator built off the main chain lists the branch's own blocks exactly when its first jump, 73 below the start,
  lands on blocks shared with the main chain (`Locator.OwnBranchIff`, `Locator.JumpLeavesBranch`).
- A block with a coinstake in front of the selected transactions connects exactly when none of them spends the
  stake: the selection does not look at it (`BlockAssembly.StakeConnectsIff`,
  `BlockAssembly.SelectedAgainstStake`).
- Without the duplicate check, two different lists can have one Merkle root (`Merkle.RepeatedLastCollides`). With it, lists
  of equal root are levels of one tree (`Merkle.EqualRootsAreLevels`).
- When the rewind target is in the purchase era and the replay target is not, `RewindRegistry` steps a fresh
  registry through that one block, which replaying the branch would not (`Registry.EarlyReplay`). The fork is reported
  exactly when it lies in the purchase era.
- A keychain's depth is one byte and wraps after 255 steps (`HdKeys.DepthWraps`).

## Model

| member | source | states |
|---|---|---|
| `Ledger.SpendAllDistinct` | src/blockchain/main.cpp:3784-3823 | A transaction whose inputs can all be spent one after the other spends no outpoint twice |
| `Ledger.SpendAllAt` | src/blockchain/main.cpp:3784-3823 | Spending changes exactly the marks of the listed outpoints and no record size |
| `Ledger.UndoTxInverse` | src/blockchain/main.cpp:3496-3537 | Unspending one transaction's inputs gives back the index it was connected to, beside any unrelated records |
| `Ledger.UndoTxsInverse` | src/blockchain/main.cpp:3959-3972 | Undoing the transactions of a block last to first gives back the index below the block |
| `Ledger.ConnectThenDisconnect` | src/blockchain/main.cpp:3959-4016 | Connect then disconnect is the identity if and only if no id of the block was in the index before |
| `Ledger.OverwrittenIsLost` | src/blockchain/main.cpp:4098-4105 | A fully spent record overwritten under BIP 30 is gone after the block is disconnected |
| `TxIds.NotAgain` | src/blockchain/main.cpp:3784-3823 | A transaction whose id is in an index where all its inputs are spent cannot be connected again |
| `TxIds.BlockIdsAreNew` | src/blockchain/main.cpp:4098-4105 | A block on such an index brings new ids only, and leaves such an index; coinbases differ by the height they carry |
| `Ledger.DisconnectInputs` | src/blockchain/main.cpp:3496-3537 | The unspending loop computes the undo of one transaction, error cases included |
| `Ledger.UnspendIs` | src/blockchain/main.cpp:3496-3537 | The walk fails exactly when an input before the first missing record is out of range; otherwise it clears the marks of those inputs and nothing else |
| `Ledger.DisconnectBlock` | src/blockchain/main.cpp:3959-4016 | The block-level loop computes the undo of the block: inputs freed in reverse, records erased only when all succeeded |
| `BlockConnect.FetchInputs` | src/blockchain/main.cpp:3540-3634 | Fetching answers every previous transaction from queue, database or pool, and says whether a failure is a missing or an invalid input |
| `BlockConnect.ConnectInputs` | src/blockchain/main.cpp:3696-3905 | Succeeds exactly when maturity, range, balance, signatures and unspent marks allow it, and then the queued index is the old one with all inputs spent |
| `BlockConnect.ConnectTransaction` | src/blockchain/main.cpp:4094-4193 | One turn of the loop updates queue and totals as the tally of the block says, with the running signature-operation limit before and after fetching |
| `BlockConnect.ConnectBlock` | src/blockchain/main.cpp:4018-4294 | The loop over a block computes index, mint and supply, or refuses: BIP 30, signature-operation limit, inputs, claims, purchases |
| `BlockConnect.TallyView` | src/blockchain/main.cpp:4094-4193 | The view built up while tallying is the plain connection of the same transactions |
| `BlockConnect.ConnectApplies` | src/blockchain/main.cpp:4249-4258 | Whatever rules and fork apply, an accepted block changes the index by its spends and new records alone |
| `BlockRules.ConnectIff` | src/blockchain/main.cpp:4018-4294 | A block is accepted if and only if the outside checks pass, it has its one coinbase in front (or, from qPoS, neither coinbase nor coinstake), its ids are fresh, every transaction may stand where it stands (inputs found, unspent, named once, mature and signed; balance right), and all signature operations together are at most 20000 |
| `BlockRules.TallyIff` | src/blockchain/main.cpp:4093-4133 | The running count after n transactions is the sum of their own and their script-hash operations, and the loop gets that far exactly when that sum is within the limit and each transaction may stand |
| `BlockRules.SpendAllIff` | src/blockchain/main.cpp:3784-3823 | A list of outpoints can be spent exactly when it names none twice and each is there unspent |
| `BlockRules.LookupFinds` | src/blockchain/main.cpp:3540-3634 | Fetching finds the transaction named and the record in force; outside the index only the pool is looked at, and not for blocks or the miner |
| `BlockRules.MintIs` | src/blockchain/main.cpp:4194-4223 | For every fork the mint is what coinbase and coinstake make plus claims, less the fees for proof of work; the supply changes by what is made and claimed, less fees and purchases, and once more the purchases before PURCHASE3 |
| `BlockRules.ClaimIsAll` | src/blockchain/main.cpp:1171-1240 | In a block that connects, an ordinary transaction is credited with all that its outputs claim |
| `MoneySupply.SupplyTracksUnspent` | src/blockchain/main.cpp:4194-4223 | The supply moves by the change of the unspent total, less the block's purchases before PURCHASE3; so it moves exactly with it if and only if the fork is reached or the purchases come to nothing |
| `MoneySupply.PurchaseTakenTwice` | src/blockchain/main.cpp:4194-4223 | A block before PURCHASE3 whose purchase of 4 makes the supply fall 4 more than the unspent total |
| `MoneySupply.TallySums` | src/blockchain/main.cpp:4137-4180 | Claims and purchases of the tally are the sums over the transactions that are neither coinbase nor coinstake |
| `MoneySupply.SupplyConserved` | src/blockchain/main.cpp:4094-4223 | Over every run of blocks at PURCHASE3 or later, supply change equals change of total unspent value |
| `MoneySupply.QposTotals` | src/blockchain/main.cpp:3843-3859 | In a qPoS block the totals are the sums of claims, purchases and fees of its transactions, each fee what its fetched inputs and claim bring beyond outputs and purchases, and none is negative |
| `MoneySupply.QposMint` | src/blockchain/main.cpp:4194-4223 | A qPoS block mints the sum of its claims, and the supply changes by that sum minus the sums of fees and purchases |
| `BlockTree.ForkOfIsFork` | src/blockchain/main.cpp:4302-4341 | The reference definition of the fork is a common ancestor above every other common ancestor |
| `BlockTree.ForkUnique` | src/blockchain/main.cpp:4302-4341 | There is only one such block |
| `BlockTree.FindFork` | src/blockchain/main.cpp:4302-4341 | The walk down both branches ends, never leaves the tree, and finds the lowest common ancestor |
| `ChainSpec.ReplaySettles` | src/blockchain/main.cpp:5741-5757 | Along every branch that can be replayed no id comes twice, from ids without collisions, inputs in every transaction and the height in the coinbase |
| `ChainSpec.UndoTop` | src/blockchain/main.cpp:4388-4408 | Disconnecting the top block of a replayed branch gives the replay of the branch below |
| `ChainSpec.MainChainIsAncestry` | src/blockchain/main.h:1663-1666 | With sound links, being in the main chain is being an ancestor of, or equal to, the best block; the height lookup finds exactly those |
| `ChainSpec.Link` | src/blockchain/main.cpp:4574-4579 | Setting one `pnext` and one lookup entry moves the links from a block to its child |
| `ChainSpec.Unlink` | src/blockchain/main.cpp:4489-4498 | Clearing them moves the links from a block to its parent |
| `ChainSpec.IntermediateTrust` | src/blockchain/main.cpp:4642-4662 | The intermediate block is the lowest from which every block up to, but not including, the tip beats the old best: its parent does not |
| `ChainSpec.ReachStuck` | src/blockchain/main.cpp:4755-4794 | Once a queued block is refused, nothing above it connects |
| `ChainSpec.ReachIff` | src/blockchain/main.cpp:4755-4794 | A climb arrives if and only if every block on the way connects |
| `ChainSpec.ReachHighest` | src/blockchain/main.cpp:4755-4794 | A climb ends on the highest block that connects: it passes a block exactly when every block up to it connects |
| `ChainSpec.AcceptsIff` | src/blockchain/main.cpp:4590-4830 | For every tip, on top of the best block or not, a switch succeeds if and only if every block above the fork up to the intermediate one connects |
| `ChainSpec.NewBestHighest` | src/blockchain/main.cpp:4590-4830 | A switch that succeeds ends on the highest block above the intermediate one that connects |
| `ChainSpec.NewBestReplays` | src/blockchain/main.cpp:4590-4830 | The block a switch ends on can be replayed, whatever trust was asked for |
| `ChainSpec.NewBestMoves` | src/blockchain/main.cpp:4590-4830 | Asked for a block off the active branch, a switch succeeds exactly when the best block changes; a tip of more trust ends on a block of more trust, also when reconnects stop part-way |
| `ChainSpec.MissingBelow` | src/blockchain/main.cpp:3973-3987 | The blocks whose on-disk `hashNext` is missing lie strictly below the best block, before and after every switch |
| `ChainSpec.AfterSafe` | src/blockchain/main.cpp:4991-5165 | One offered block, or one switch forced by a checkpoint, keeps the best branch replayable; an offered block changes the best one only for more trust |
| `ChainSpec.RunRaisesTrust` | src/blockchain/main.cpp:5100-5119 | Over every run, forced switches included, the best branch can be replayed; in a run of offered blocks best trust rises whenever the best block changes |
| `ChainTrust.RunAddsUp` | src/blockchain/main.cpp:5005-5031 | In every state of a run from genesis the tree holds exactly the admissible blocks offered, each on its parent, and the chain trust of a block is the sum of the block trusts along its path |
| `ChainTrust.OfferMovesIff` | src/blockchain/main.cpp:5100-5150 | An offered block changes the best one if and only if its chain trust is more than the best one's and every block above the fork up to the intermediate one connects |
| `ChainTrust.OfferOnBest` | src/blockchain/main.cpp:5100-5150 | A block on the best one becomes the best block exactly when it adds trust and connects |
| `ChainSpec.LinksKept` | src/blockchain/main.cpp:3973-3987 | From complete on-disk links a switch leaves complete ones if and only if the fork is the best block or every block above the fork, up to the intermediate one, connects; then it repairs exactly what lies at or above its fork |
| `ChainSpec.RunKeepsLinks` | src/blockchain/main.cpp:3973-3987 | Over every run without an event that disconnects something for a block that does not connect, the on-disk links stay complete |
| `ChainSpec.RefusedSwitchUnlinks` | src/blockchain/main.cpp:3973-3987 | Two blocks on genesis: a refused switch loses a link on disk, a second refusal loses nothing more |
| `ChainState.Chain.constructor` | src/blockchain/main.cpp:6705-6712 | A node holding the genesis block alone satisfies the invariant, with no link missing |
| `ChainState.Chain.DisconnectBlock` | src/blockchain/main.cpp:3959-4016 | Undoes the block in the batch and clears the parent's `hashNext` on disk at once |
| `ChainState.Chain.ConnectBlock` | src/blockchain/main.cpp:4018-4294 | Connects the block in the batch, or leaves the batch as it was |
| `ChainState.Chain.Reorganize` | src/blockchain/main.cpp:4296-4539 | Succeeds if and only if every block above the fork up to the target connects; then index and links, in memory and on disk, stand for the new branch. Else index and memory are unchanged, and the disk is unchanged if and only if none of the fields cleared was set |
| `ChainState.Chain.SetBestChainInner` | src/blockchain/main.cpp:4543-4588 | Attaches one block, or leaves index and links unchanged |
| `ChainState.Chain.CatchUp` | src/blockchain/main.cpp:4727-4754 | The registry catches up along `pnext` to the block the queue stands on if and only if its snapshot lies on that branch, and then replays exactly the blocks between |
| `ChainState.Chain.Climb` | src/blockchain/main.cpp:4755-4794 | The queued reconnects end on the highest block that connects: a block of the queue is at or below the end exactly when every block up to it connects. Index and links stand for the end |
| `ChainState.Chain.SetBestChain` | src/blockchain/main.cpp:4590-4830 | For every block of the tree, whatever its trust: keeps the invariant and ends on the block the specification names; a refusal changes nothing but fields on disk |
| `ChainState.Chain.AddToBlockIndex` | src/blockchain/main.cpp:4991-5165 | Keeps the invariant: index equals the replay of the active branch from genesis, links describe exactly that branch, links on disk are among those in memory; the state is the specified one |
| `ChainState.Chain.ForceBest` | src/blockchain/checkpoints.cpp:656-670 | The switch a checkpoint asks for keeps the same invariant |
| `ChainState.Chain.WalkForward` | src/blockchain/main.h:1663-1666 | Following `pnext` visits exactly the rest of the active branch and ends at the best block |
| `ChainState.RestartRestoresLinks` | src/db-leveldb/txdb-leveldb.cpp:1009-1018 | The links read back from disk describe the active branch if and only if no field is missing, that is, if they equal the links in memory |
| `Registry.NextCandidate` | src/blockchain/main.cpp:397-447 | The search steps down to the next snapshot height below the fork, or out of the purchase era, and ends |
| `Registry.FullReplayIs` | src/blockchain/main.cpp:522-546 | Replaying a branch steps a fresh registry through its purchase-era blocks, lowest first |
| `Registry.FindSnapshot` | src/blockchain/main.cpp:386-447 | The registry found is the highest usable snapshot: of its own block, at a multiple of 240 in the purchase era strictly below the fork; or a fresh one when there is none. The fork is reported if and only if it lies in the purchase era |
| `Registry.CollectReplay` | src/blockchain/main.cpp:474-520 | The blocks to replay are the contiguous branch down to the registry's own block |
| `Registry.ReplayBlocks` | src/blockchain/main.cpp:522-546 | Steps the registry through the collected blocks from the lowest up |
| `Registry.RewindRegistry` | src/blockchain/main.cpp:357-546 | Success gives the fresh registry stepped through every purchase-era ancestor of the replay target, whichever snapshot was found; it fails exactly when a step does |
| `Registry.EarlyReplay` | src/blockchain/main.cpp:449-546 | Two blocks, the era starting at the second: replaying to the first steps a fresh registry through it |
| `ScriptCodec.ReadOpPrefix` | src/blockchain/script.h:485-541 | Reading an operation depends on its own bytes only |
| `ScriptCodec.PushRoundTrip` | src/blockchain/script.h:410-435 | Reading back a push gives its data whatever follows, for every length below 2^32 |
| `ScriptCodec.PushSize` | src/blockchain/script.h:410-435 | A push takes one byte more than its data up to 75 bytes, then two, three or five |
| `ScriptCodec.LittleEndianJoins` | src/blockchain/script.h:485-541 | In a length field, and in a number, the last bytes count most |
| `ScriptCodec.SplitJoins` | src/blockchain/script.h:485-541 | Splitting a script into operations and an unreadable tail loses no byte |
| `ScriptCodec.SplitOfJoin` | src/blockchain/script.h:485-541 | Joining operations and splitting again gives the same operations |
| `ScriptCodec.EraseFilters` | src/blockchain/script.h:575-592 | For the encoding of one operation, erasing bytes at boundaries is filtering the operation list, tail kept, with the same count |
| `ScriptCodec.FindAndDelete` | src/blockchain/script.h:575-592 | The in-place loop ends with exactly the filtered script and the number removed |
| `ScriptCodec.DeleteIdempotent` | src/blockchain/script.h:575-592 | Deleting again finds nothing more |
| `ScriptNum.NumberRoundTrip` | src/blockchain/script.cpp:39-45 | Decoding the shortest encoding of any number gives it back |
| `ScriptNum.EncodeShortest` | src/blockchain/script.cpp:39-45 | No shorter byte string stands for the same number |
| `ScriptNum.CastToBool` | src/blockchain/script.cpp:47-60 | The byte loop is false exactly on zeros with an optional sign bit |
| `ScriptNum.BoolIsNonZero` | src/blockchain/script.cpp:47-60 | A value is true exactly when its number is not zero, negative zero included |
| `ScriptLaws.PickAndRoll` | src/blockchain/script.cpp:830-846 | PICK and ROLL copy or move the element at the depth on top, for any number of at most four bytes below the depth of the rest; otherwise they fail |
| `ScriptLaws.ShufflesAreMoves` | src/blockchain/script.cpp:700-877 | Thirteen stack operations are lists of copies, moves and drops: same result, and failure on the same stacks |
| `ScriptLaws.VerifyVariants` | src/blockchain/script.cpp:997-1347 | The four VERIFY variants are their plain operation followed by VERIFY on every machine, check counts included |
| `ScriptLaws.AcceptedWithinLimits` | src/blockchain/script.cpp:469-497 | An accepted script has no oversized push, disabled opcode, VERIF or VERNOTIF even in skipped code, at most 201 counted operations, and ends with at most 1000 elements |
| `ScriptEval.DropSignatures` | src/blockchain/script.cpp:1284-1292 | The loop that takes signatures out of the signed code computes it signature by signature |
| `ScriptEval.MatchLoop` | src/blockchain/script.cpp:1294-1319 | The two-cursor loop computes the match of the signatures and keys in stack order, with the number of checks |
| `ScriptEval.CheckMultisig` | src/blockchain/script.cpp:1256-1347 | Operand reading, limits, dummy element and result as the machine defines them |
| `ScriptEval.OneTurn` | src/blockchain/script.cpp:465-652 | One pass through the loop: limits on skipped code too, flag stack, execution, size limit |
| `ScriptEval.EvalScript` | src/blockchain/script.cpp:448-1368 | The loop over the bytes of a script is the machine run over its operations, stacks, failures and check counts included |
| `ScriptOpcodes.UnaryScript` | src/blockchain/script.cpp:1033-1061 | A number and 1ADD, 1SUB, NEGATE, ABS, NOT or 0NOTEQUAL leave the number they mean, for every operand of at most four bytes; longer ones fail |
| `ScriptOpcodes.BinaryScript` | src/blockchain/script.cpp:1063-1150 | Two numbers, the first pushed first, and an arithmetic, boolean or comparison opcode leave the number they mean |
| `ScriptOpcodes.WithinScript` | src/blockchain/script.cpp:1152-1170 | WITHIN includes the lower bound and not the upper |
| `ScriptOpcodes.StackReaders` | src/blockchain/script.cpp:771-950 | SIZE, DEPTH and IFDUP add the length, the number of values, a copy of a true value |
| `ScriptOpcodes.HashScript` | src/blockchain/script.cpp:1172-1204 | A hash opcode replaces the top by its digest |
| `ScriptOpcodes.AltStack` | src/blockchain/script.cpp:682-698 | Moving a value to the second stack and back, or from it and back, changes nothing |
| `ScriptOpcodes.LockTimeScript` | src/blockchain/script.cpp:537-577 | Where it is enforced, CHECKLOCKTIMEVERIFY passes exactly non-negative numbers of at most five bytes that are lock times reached, and leaves the stack alone |
| `ScriptOpcodes.NopScript` | src/blockchain/script.cpp:534-585 | NOP does nothing; the others do nothing, or fail where discouraged |
| `ScriptOpcodes.SmallNumberScript` | src/blockchain/script.cpp:506-531 | The opcodes for -1 and 1 to 16 leave their number |
| `ScriptOpcodes.UnknownFails` | src/blockchain/script.cpp:587-674 | RETURN, the qPoS opcodes other than CLAIM, FEEWORK, reserved and unknown opcodes fail |
| `ScriptOpcodes.DisabledFails` | src/blockchain/script.cpp:481-496 | A script with a disabled opcode or a reserved IF form fails, wherever it stands |
| `ScriptOpcodes.OperationLimit` | src/blockchain/script.cpp:478-479 | Exactly 201 counted operations are allowed |
| `ScriptOpcodes.SeparatorCuts` | src/blockchain/script.cpp:1206-1229 | A signature covers what follows the last separator executed |
| `ScriptStructure.BlockRefines` | src/blockchain/script.cpp:619-652 | Running the operations of a block on the flag stack is running the tree, from any flags and with any rest |
| `ScriptStructure.AltsRefines` | src/blockchain/script.cpp:638-652 | The same for any number of ELSE branches |
| `ScriptStructure.StructureIffBalanced` | src/blockchain/script.cpp:619-652 | An operation list has a tree if and only if its blocks balance, and the tree spells the list |
| `ScriptStructure.AcceptedBalanced` | src/blockchain/script.cpp:1364-1367 | Every accepted run had balanced blocks and a script readable to its end |
| `ScriptStructure.EvalIsStructured` | src/blockchain/script.cpp:448-1368 | The evaluator gives the result of the tree run where blocks balance and rejects where they do not |
| `ScriptStructure.IfChooses` | src/blockchain/script.cpp:619-652 | IF a ELSE b ENDIF takes the condition off and does what a does when it is not zero, what b does when it is; NOTIF the other way round |
| `ScriptStructure.SkipsBlock` | src/blockchain/script.cpp:465-652 | Skipped code changes nothing but the count of operations |
| `SigOps.GetSigOpCount` | src/blockchain/script.cpp:2574-2594 | The walk with the previous opcode computes the static count |
| `SigOpCounts.CountIs` | src/blockchain/script.cpp:2574-2594 | The count is the sum over the operations: 1 for a signature check, the small number before a multisignature check, or 20 |
| `SigOpCounts.MultisigCount` | src/blockchain/script.cpp:2574-2594 | A multisignature script counts for its keys, and for 20 where the count is not accurate or there is no key |
| `SigOpCounts.KeyCounts` | src/blockchain/script.cpp:2574-2594 | Paying to a key or to the hash of one counts 1, whatever bytes are pushed |
| `SigOpCounts.CountNeeded` | src/blockchain/script.cpp:1294-1319 | The count is attained: a signature that checks for the first key only makes the run check as often as the script counts |
| `SigOps.TurnChecks` | src/blockchain/script.cpp:1213-1319 | One operation performs at most as many signature checks as it is charged for |
| `SigOps.LoopChecks` | src/blockchain/script.cpp:2574-2594 | The bound holds along every run, from any point of it |
| `SigOps.EvalChecks` | src/blockchain/script.cpp:2574-2594 | Every evaluation, accepted or not, makes at most the accurate count of checks, which is at most the legacy count |
| `SigOps.IsPushOnly` | src/blockchain/script.h:617-629 | True exactly for readable scripts of opcodes up to OP_16 |
| `SigOps.GetSigOpCountFor` | src/blockchain/script.cpp:2598-2620 | For a script hash the count of the last data pushed, 0 for other signature scripts |
| `SigOpCounts.ScriptHashCounts` | src/blockchain/script.cpp:2598-2620 | Behind a script hash the keys of the multisignature script pushed last are counted |
| `SigOpCounts.OtherCounts` | src/blockchain/script.cpp:2598-2620 | Other payments count accurately; a spender of a script hash that does more than push counts 0 |
| `SigOps.RedeemChecks` | src/blockchain/script.cpp:2598-2620 | Running the redeem script makes at most as many checks as were counted from the signature script, also when the last push is a number |
| `SigOps.VerifyScript` | src/blockchain/script.cpp:2319-2365 | Signature, public-key and redeem scripts run in turn; the saved stack is never empty when it is used |
| `PaymentScripts.PlainVerifies` | src/blockchain/script.cpp:2319-2365 | Other than to a script hash, an input verifies exactly when both scripts run and the second leaves a number that is not zero |
| `PaymentScripts.ScriptHashVerifies` | src/blockchain/script.cpp:2319-2365 | To a script hash, exactly when the signature script runs, only pushes, leaves at most 999 values, the top one has the hash, and run as a script over the rest it leaves a number that is not zero |
| `PaymentScripts.ScriptHashIff` | src/blockchain/script.cpp:2622-2630 | The form is recognized exactly as it is built |
| `PaymentScripts.KeyVerifies` | src/blockchain/script.cpp:1213-1254 | What was paid to a key is spent by a signature exactly when it checks for the key |
| `PaymentScripts.KeyHashVerifies` | src/blockchain/script.cpp:2670-2674 | What was paid to the hash of a key is spent by signature and key exactly when the key has the hash and the signature checks for it |
| `PaymentScripts.ClaimVerifies` | src/blockchain/script.cpp:598-612 | A claim of 41 bytes is spent like a payment to the hash of a key, one of another length never |
| `PaymentScripts.ScriptHashMultisig` | src/blockchain/script.cpp:2349-2361 | Behind a script hash, a multisignature script is spent exactly when it has the hash and the signatures match its keys in order |
| `SigOps.VerifyChecks` | src/blockchain/script.cpp:2319-2365 | All checks of an input are covered by the counts of its two scripts |
| `Multisig.GreedyStep` | src/blockchain/script.cpp:1294-1319 | Taking the first key that fits loses no order-preserving match |
| `Multisig.MatchIffEmbeds` | src/blockchain/script.cpp:1294-1319 | The loop succeeds if and only if an order-preserving injection from signatures to keys verifies throughout |
| `Multisig.EmbedsReversed` | src/blockchain/script.cpp:1294-1319 | Reading both lists from the top of the stack makes no difference |
| `Multisig.MultisigVerdict` | src/blockchain/script.cpp:1256-1347 | CHECKMULTISIG leaves true exactly when the signatures match keys in script order, and takes off all it should |
| `Multisig.MultisigRefuses` | src/blockchain/script.cpp:1256-1282 | More than 20 keys, more signatures than keys, more than 201 operations with the keys, or a used extra element where it must be empty fail |
| `Multisig.StrictRefuses` | src/blockchain/script.cpp:1300-1309 | Under strict encoding a badly encoded signature or key fails as soon as it is tried |
| `MultisigScripts.PushAll` | src/blockchain/script.cpp:2445-2451 | The loop appends one push for each value |
| `MultisigScripts.PushAllEvaluates` | src/blockchain/script.cpp:2445-2451 | Evaluating the pushes appends exactly the values within the size limits and fails beyond them |
| `MultisigScripts.MultisigEvaluates` | src/blockchain/script.cpp:2694-2702 | A multisignature script accepts exactly the signatures that match its keys in order |
| `CombineSignatures.MatchSignatures` | src/blockchain/script.cpp:2470-2489 | Every map entry checks, and each signature is in use or all its keys are taken, whatever the order of the set |
| `CombineSignatures.CombineMultisig` | src/blockchain/script.cpp:2453-2506 | The script pushes the dummy, the first required signatures in key order, then blanks |
| `CombineSignatures.MatchedIffSigned` | src/blockchain/script.cpp:2470-2489 | When no signature checks for two keys, a key is matched if and only if a signature checks for it |
| `CombineSignatures.OrderedEmbeds` | src/blockchain/script.cpp:2490-2500 | Signatures emitted in key order match the keys in order |
| `CombineSignatures.CombinedVerifies` | src/blockchain/script.cpp:2453-2506 | With enough keys matched, the combined script makes the input verify |
| `Mempool.NoConflicts` | src/blockchain/main.cpp:2683-2695 | With a consistent spender map no two pooled transactions spend one outpoint |
| `Mempool.Pool.AddUnchecked` | src/blockchain/main.cpp:2683-2695 | Adds the transaction and keeps the spender map exact |
| `Mempool.Pool.Accept` | src/blockchain/main.cpp:2375-2414 | Accepts exactly when the transaction is new, conflicts with none and passes the other checks; a refusal changes nothing |
| `Mempool.Pool.Remove` | src/blockchain/main.cpp:2697-2731 | Recursive removal ends and deletes exactly the transaction and its pooled descendants |
| `Mempool.Pool.RemoveConflicts` | src/blockchain/main.cpp:2733-2747 | Afterwards no other pooled transaction spends an input; exactly the rivals and their descendants are gone |
| `BlockAssembly.Classify` | src/blockchain/main.cpp:9251-9368 | After the first pass the queue and the waiting lists describe the pool exactly |
| `BlockAssembly.Release` | src/blockchain/main.cpp:9572-9593 | Taking a parent releases exactly those whose last wait it was, each once |
| `BlockAssembly.QueuedIsReady` | src/blockchain/main.cpp:9370-9403 | What is in the queue has all pooled parents taken and has not left the queue before |
| `BlockAssembly.DrainedIsComplete` | src/blockchain/main.cpp:9251-9368 | What never was in the queue waits for a parent not taken, or was refused for its feework |
| `BlockAssembly.TryAdd` | src/blockchain/main.cpp:9384-9571 | One turn takes the transaction exactly when size, signature operations, inputs and rules allow it |
| `AssemblyLaws.TakenIff` | src/blockchain/main.cpp:9384-9571 | A transaction is taken at its turn exactly when size and signature operations stay below the limits, it is worthy, every input is free and signed, its claims and purchases pass, and its balance is right |
| `AssemblyLaws.SelectedAre` | src/blockchain/main.cpp:9259-9268 | What is selected is final, neither coinbase nor coinstake, and was worthy at the size the block then had |
| `AssemblyLaws.HasItsTurn` | src/blockchain/main.cpp:9251-9368 | A final transaction that spends outputs on chain and passes the feework check gets its turn |
| `BlockAssembly.SelectTransactions` | src/blockchain/main.cpp:9370-9593 | The loop ends though releases grow the queue; the list has no transaction twice, connects in order, and stays below the size and signature-operation limits. Each one listed was taken after those before it, and whatever else left the queue was refused after some of those listed |
| `BlockAssembly.LeftOut` | src/blockchain/main.cpp:9251-9593 | Why an eligible pooled transaction is not selected: it failed the feework check, waits for a parent not taken, or was refused at its turn |
| `BlockAssembly.NeverStuck` | src/blockchain/main.cpp:9440-9446 | Fetching inputs never fails for want of a pooled parent |
| `BlockAssembly.ParentsFirst` | src/blockchain/main.cpp:9251-9313 | Every parent that is not on chain comes earlier in the list |
| `BlockAssembly.NoDoubleSpend` | src/blockchain/main.cpp:9534-9571 | No outpoint is spent by two selected transactions |
| `BlockAssembly.FrontMustNotCompete` | src/blockchain/main.cpp:9534-9571 | A block of a front, none, a coinbase or a coinbase and coinstake, and the selected transactions connects if and only if the front spends nothing the selection spends |
| `BlockAssembly.NoStakeConnects` | src/blockchain/main.cpp:9110-9130 | Without a coinstake it always connects |
| `BlockAssembly.StakeConnectsIff` | src/blockchain/main.cpp:9170-9225 | With a coinbase and a coinstake in front it connects if and only if no selected transaction spends an input of the coinstake |
| `BlockAssembly.SelectedAgainstStake` | src/blockchain/main.cpp:9170-9225 | The selection loop on a concrete pool takes the transaction that spends the stake, and the block does not connect for it |
| `BlockAssembly.AssembledBlockConnects` | src/blockchain/main.cpp:4094-4193 | Then every transaction of it, front included, passes the fetch-and-spend stage of `ConnectBlock` |
| `AssemblyLaws.AssembledAccepted` | src/blockchain/main.cpp:9370-9593 | `ConnectBlock` accepts the block a qPoS miner assembles from its selection |
| `Merkle.BuildMerkleTree` | src/blockchain/main.h:1377-1398 | The flat array is the leaves followed by every level, and its last entry is the root |
| `Merkle.RootIsCrown` | src/blockchain/main.h:1377-1398 | The root is the top of the balanced tree over the leaves, left before right, a missing half repeated |
| `Merkle.GetMerkleBranch` | src/blockchain/main.h:1400-1416 | The loop collects exactly the siblings on the way up |
| `Merkle.CheckMerkleBranch` | src/blockchain/main.h:1418-1445 | The running hash climbs the branch; index -1 gives the null hash |
| `Merkle.BranchReachesRoot` | src/blockchain/main.h:1400-1445 | The branch taken at an index leads its leaf to the root |
| `Merkle.BranchProvesLeaf` | src/blockchain/main.h:1418-1445 | With an injective hash, a branch of the right length that reaches the root at index i has transaction i as its leaf and is the true branch |
| `Merkle.RootDeterminesList` | src/blockchain/main.cpp:5378-5398 | With an injective hash, duplicate-free lists of equal depth have equal roots if and only if they are equal |
| `Merkle.RepeatedLastCollides` | src/blockchain/main.h:1377-1398 | Repeating the last entry of an odd list keeps the root |
| `Merkle.LevelsCollide` | src/blockchain/main.h:1377-1398 | Every level of a tree has the root of the tree |
| `Merkle.EqualRootsAreLevels` | src/blockchain/main.h:1377-1398 | With an injective hash, two duplicate-free lists have equal roots if and only if the shallower is a level of the tree over the deeper |
| `Merkle.RootDeterminesLeaves` | src/blockchain/main.cpp:5378-5398 | When no transaction hash is the hash of a pair, the root alone pins a duplicate-free list down |
| `Locator.Set` | src/blockchain/main.h:2253-2311 | Small steps along `pprev` and large ones through the lookup list the specified heights, genesis last |
| `Locator.GetBlockIndex` | src/blockchain/main.h:2338-2354 | The answer is the first listed block on the answering node's main chain, else genesis |
| `Locator.JumpsFollowParents` | src/blockchain/main.h:2253-2311 | On the main chain every jump lands where following `pprev` would |
| `Locator.JumpedIff` | src/blockchain/main.h:2253-2311 | An entry is reached by a jump if and only if it lies 73 or more below the start, and no entry lies between 41 and 73 below |
| `Locator.OwnBranchIff` | src/blockchain/main.h:2253-2311 | On any branch the locator exists and lists the branch's own blocks if and only if it starts no higher than 73 or leaves the main chain no lower than 73 below the start |
| `Locator.JumpLeavesBranch` | src/blockchain/main.h:2253-2311 | Two branches that part at genesis, and the entry that is of the other one |
| `Locator.FindsNearbyFork` | src/blockchain/main.h:2338-2354 | The block found is common and lies at most as far below the fork as the tip lies above it |
| `Locator.FindsForkOffBranch` | src/blockchain/main.h:2338-2354 | On any branch: the same bound when the chains part at most 41 below the start; else a block of the main chain shared with the other node, near to where those two part or to the first jump |
| `Locator.LogarithmicLength` | src/blockchain/main.h:2253-2311 | Beyond ten entries the number of entries is logarithmic in the height |
| `StakeModifier.SelectionInterval` | src/blockchain/kernel.cpp:77-86 | The loop sums the 64 sections |
| `StakeModifier.SectionsGrow` | src/blockchain/kernel.cpp:68-75 | Sections grow from the interval over the ratio to the whole interval |
| `StakeModifier.SectionIs` | src/blockchain/kernel.cpp:68-75 | Section n is the interval over the mean of ratio and 1 at weights 63 - n and n, rounded down |
| `StakeModifier.SectionsAre` | src/blockchain/kernel.cpp:77-86 | Stop times advance by the sum of the sections so far |
| `StakeModifier.SelectBlock` | src/blockchain/kernel.cpp:90-156 | Picks the first least selection hash among open candidates in time, else the earliest open one; fails only when none is open |
| `StakeModifier.PickUnique` | src/blockchain/kernel.cpp:90-156 | That description fits one candidate only |
| `StakeModifier.StakeWinsIff` | src/blockchain/kernel.cpp:123-150 | A round with a proof-of-stake candidate in time picks a proof-of-stake block if and only if one of them, by its digest, outranks every proof-of-work candidate in time |
| `StakeModifier.StakeUsuallyWins` | src/blockchain/kernel.cpp:123-150 | It does whenever no proof-of-work digest in time is below the bound that proof-of-stake digests stay under after division by 2^32 |
| `StakeModifier.WorkCanWin` | src/blockchain/kernel.cpp:123-150 | A round where a proof-of-work block is picked although a proof-of-stake block is in time |
| `StakeModifier.SelectRounds` | src/blockchain/kernel.cpp:240-280 | Exactly min(64, n) different picks, each the best its round leaves, and the stop time is the start plus the sections |
| `StakeModifier.ModifierBits` | src/blockchain/kernel.cpp:264-266 | Bit r of the modifier is the entropy bit of pick r and the bits above are zero |
| `StakeModifier.GetLastStakeModifier` | src/blockchain/kernel.cpp:34-66 | Finds the nearest ancestor that generated a modifier |
| `StakeModifier.LastGeneratedIs` | src/blockchain/kernel.cpp:34-66 | That ancestor generated one and none nearer did; none is found exactly when none did |
| `StakeModifier.DueIff` | src/blockchain/kernel.cpp:207-211 | A modifier is due when a multiple of the interval lies after the last one generated, up to the previous block |
| `StakeModifier.AlignedIs` | src/blockchain/kernel.cpp:217-220 | The selection ends at the latest multiple of the interval not after the previous block |
| `StakeModifier.ComputeNextStakeModifier` | src/blockchain/kernel.cpp:171-346 | Fails only without any earlier modifier; when due, the modifier is that of the rounds over the sorted candidates, and 64 rounds stop exactly on the interval boundary |
| `Checkpoints.TraceBack` | src/blockchain/checkpoints.cpp:193-206 | Following `pprev` with a falling height reaches the ancestor at that height |
| `Checkpoints.SyncCheckpoints.constructor` | src/blockchain/checkpoints.cpp:112-120 | The checkpoint and the pending one start at genesis, beside any valid chain state |
| `Checkpoints.SyncCheckpoints.ValidateSyncCheckpoint` | src/blockchain/checkpoints.cpp:141-218 | Accepts exactly the strict descendants of the current checkpoint and records exactly the conflicting ones as invalid |
| `Checkpoints.SyncCheckpoints.ProcessSyncCheckpoint` | src/blockchain/checkpoints.cpp:616-688 | Moves, keeps pending or rejects as specified; the chain is switched by `SetBestChain` and keeps its invariant |
| `Checkpoints.SyncCheckpoints.AcceptPendingSyncCheckpoint` | src/blockchain/checkpoints.cpp:243-300 | The same for a pending checkpoint |
| `Checkpoints.NextDescends` | src/blockchain/checkpoints.cpp:141-218 | One event keeps the checkpoint or moves it to a strict descendant |
| `Checkpoints.NextValid` | src/blockchain/checkpoints.cpp:243-300 | Every event keeps the whole chain-state invariant, switches forced by a checkpoint included |
| `Checkpoints.RunDescends` | src/blockchain/checkpoints.cpp:243-300 | Over every run of offered blocks, messages and retries the chain-state invariant holds and the checkpoint only moves to strict descendants |
| `Checkpoints.RunSigned` | src/blockchain/checkpoints.cpp:616-688 | Over every run, a checkpoint that was not there at the start was named by a signed message |
| `Checkpoints.NextInvalid` | src/blockchain/checkpoints.cpp:616-688 | A signed message for an unknown block is kept pending, for a block off the checkpoint's branch remembered as invalid, for one at or below it ignored, and for a descendant moves the checkpoint or is remembered as invalid |
| `Checkpoints.MovedOnBranch` | src/blockchain/checkpoints.cpp:656-683 | A checkpoint asked for is written if and only if its block was on the active branch or every block above the fork up to the intermediate one connects; its block is on the active branch afterwards if and only if it was before or every block above the fork up to itself connects |
| `Checkpoints.CheckpointAboveBest` | src/blockchain/checkpoints.cpp:656-683 | Four blocks, and a checkpoint written above the best block |
| `Checkpoints.CheckSync` | src/blockchain/checkpoints.cpp:335-407 | Passes exactly blocks that are or descend from the checkpoint, lower blocks already known, and everything on testnet |
| `Checkpoints.InSyncIff` | src/blockchain/checkpoints.cpp:335-407 | Off the test network a new block passes exactly when it is to descend from the checkpoint; a known one exactly when it is below the checkpoint's height, is it, or descends from it |
| `Checkpoints.UserCheckpointAllows` | src/blockchain/main.cpp:5700-5739 | The user-checkpoint branches of `AcceptBlock`, expiration included |
| `Checkpoints.AllowedIff` | src/blockchain/main.cpp:5700-5739 | Nothing is asked well below the user checkpoint or after it expired; at its height its own block; in between, descent from it, which must be known |
| `Checkpoints.AcceptKeepsGuard` | src/blockchain/main.cpp:5700-5739 | Accepting a block keeps every block at or above the height with the checkpoint, also past expiration |
| `Checkpoints.NeverRejected` | src/blockchain/checkpoints.cpp:335-407 | The check never turns away a block on top of those |
| `Checkpoints.UserCheckpointHolds` | src/blockchain/main.cpp:5700-5739 | From an index with no block that high, over every run of accepted blocks, all blocks at or above the height are or descend from the checkpoint |
| `HdKeys.ChildSound` | src/bip32/hdkeys.cpp:224-281 | A child of a sound private keychain is a sound private keychain |
| `HdKeys.ChildIs` | src/bip32/hdkeys.cpp:224-281 | Private derivation on numbers: the child of n is n plus the left half of the hash modulo the order, hashed from the private key for a hardened index and from the public one otherwise; it fails exactly when the left half is out of range or the sum is 0. All other fields are given |
| `HdKeys.PublicChildIs` | src/bip32/hdkeys.cpp:224-281 | Public derivation adds the point of the left half; a hardened index has no public child |
| `HdKeys.DerivationCommutes` | src/bip32/hdkeys.cpp:208-281 | For an index that is not hardened, deriving then taking the public part equals taking the public part then deriving, in every field and in when it fails |
| `HdKeys.PathCommutes` | src/bip32/hdkeys.cpp:328-334 | So does every path without a hardened step |
| `HdKeys.ParsePath` | src/bip32/hdkeys.cpp:283-326 | The character loop computes the list of indices or refuses |
| `HdPaths.PathGrammar` | src/bip32/hdkeys.cpp:283-326 | A string is a path exactly when its pieces between slashes are numbers below 2^31 with or without a mark, only the first may lack digits, and the indices are those numbers, plus 2^31 where marked |
| `HdKeys.GetChild` | src/bip32/hdkeys.cpp:283-334 | The path is parsed whole, then derived step by step |
| `HdKeys.PrintThenParse` | src/bip32/hdkeys.cpp:283-326 | Parsing the printed form of any non-empty index list gives the list back |
| `HdKeys.ExtKeyRoundTrip` | src/bip32/hdkeys.cpp:81-169 | Writing a keychain as 78 bytes and reading it back restores every field, private or public |
| `HdKeys.ExtKeyLayout` | src/bip32/hdkeys.cpp:146-169 | The 78 bytes are version, depth, parent fingerprint, child number, chain code and key, big-endian |
| `HdKeys.NumberJoins` | src/bip32/hdkeys.cpp:89-92 | In these fields the first bytes count most |
| `HdKeys.DepthWraps` | src/bip32/hdkeys.cpp:274-334 | After any derivable path the depth is the number of steps modulo 256, so it counts them if and only if it stays below 256 |

## Left out

- Networking, wallet, user interface, RPC and startup.
- `HasCanonicalPushes`, the standardness rules and the script templates of `Solver`: single branches with little to prove.
- The inner rules of the registry, feework, purchases and prices: one opaque step and opaque predicates.
- Proof-of-work and proof-of-stake targets, reward tables and fee formulas: predicates and functions of `Rules`.
- `mapClaims` and `mapRegistrations` of the pool, and its feeless bookkeeping.
- `Rollback`, `ResetSyncCheckpoint` and the erasing of blocks for reprocessing, which step outside the runs modelled here.
- Machine integers: amounts, heights and counters are unbounded; the one-byte depth and the 32-bit indices of keychains are bounded.
- Failing disk and database calls.
- ChainState.Chain.AddToBlockIndex: requires that the new block passed the checks on its transactions: ids name transactions without collisions, every transaction has an input, and a coinbase carries its block's height. `CheckTransaction` and `AcceptBlock` establish the last two, and the first is what an id without hash collisions means.
- ChainState.Chain.SetBestChain: premises that the registry's snapshot found for the fork lies on the branch switched to. `ChainState.Chain.CatchUp` proves that this is exactly when the replay between the reorganization and the queued reconnects arrives; when it does not, and reconnects are queued, the source returns an error after the commit, with the best block behind the links.
- ChainState.Chain.Reorganize: the money supply of block records and the registry replay inside the switch are modelled apart, in `MoneySupply` and `Registry`.
- BlockAssembly.SelectTransactions: priorities and fee order are left out; the queue may yield its entries in any order.
- AssemblyLaws.AssembledAccepted: premises that the block itself is in order, that verdicts on an input and script-hash counts depend on transactions only, and that the block's transactions can be read back from disk. Blocks with a coinstake in front are covered by `BlockAssembly.StakeConnectsIff`.
- BlockAssembly.AssembledBlockConnects: pooled transactions are new to the index and each of their inputs is on chain or in the pool; non-recursive removals do not keep this, so it is a premise. Ids in front are new, and a coinstake spends outputs on chain.
- Mempool.Pool.Remove: ids are hashes over the inputs, so a rank that rises along every chain of spending is a premise.
- Registry.RewindRegistry: snapshots are premised to hold what replaying their own block's branch gives.
- Merkle.GetMerkleBranch: the cached tree is premised to be the one built from the current transactions.
- ScriptEval.EvalScript: what the caller's stack holds after a failure is not modelled.
- CombineSignatures.CombinedVerifies: premises that a signature that checks while combining also verifies in the evaluator, that no signature is itself an operation of the script, that encodings are well formed under strict checking, and that all pushes are within the size limits.
- StakeModifier.ComputeNextStakeModifier: writing an entropy bit by disjunction is a sum, as each round writes its own bit; the debug printout is left out.
- Checkpoints.SyncCheckpoints.ProcessSyncCheckpoint: relaying the checkpoint and asking other nodes for blocks are left out.
- HdKeys.DerivationCommutes: the curve is a cyclic group given by its laws, with an invertible encoding of its finite points.
