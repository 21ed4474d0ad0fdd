# A verified model of mega-evm block execution

mega-evm executes blocks for MegaETH: it admits transactions against seven block-level resource
limits, runs them speculatively, commits them later, applies pre-block system changes, and tracks
per-transaction resource use and access to volatile data. This project models the stateful core of
that in Dafny and proves what the design relies on, over every input, run or interleaving.
`dafny verify dfyconfig.toml` checks all of it.

| file | part of the system |
|---|---|
| `BlockLimit.dfy` | the block resource limiter: seven saturating counters, three additive and four soft limits |
| `StateDb.dfy` | accounts, states returned by an execution, committing them |
| `SequencerRegistry.dfy` | deploying, upgrading, applying and reading the sequencer registry before a block |
| `BalanceIncrements.dfy` | the two-phase post-block balance increments |
| `BlockExecutor.dfy` | the executor object: run, commit, pre-block, post-block, hook log |
| `PreBlockRegistry.dfy` | the executor's whole pre-block phase around the registry |
| `PreBlockState.dfy` | what that phase leaves outside the registry |
| `RegistryHistory.dfy` | the registry over a chain of blocks: scheduling, applying, looking up the past |
| `RegistryChain.dfy` | chains of executor blocks: what was resolved is what is looked up |
| `BlockProtocol.dfy` | all interleavings of runs, commits and system calls over one block |
| `Speculation.dfy` | speculative against serial execution of a block |
| `VolatileTracker.dfy` | volatile-data tracker: detention cap and scoped disables over call trees |
| `FrameLimit.dfy` | the frame-aware limit tracker and the key-value update counter on top of it |
| `FrameBudget.dfy` | frame budgets and the cost of single calls, in figures |
| `TestRunner.dfy` | the parallel state-test runner as a transition system |
| `OpcodeGas.dfy` | the streaming per-opcode gas aggregator |
| `Hardforks.dfy` | the hardfork schedule and its activation ladder |
| `T8n.dfy` | the transaction loop of the state-transition tool |

Objects that the source updates in place are classes whose methods are proved equal to a function on
their abstract value; the properties over whole runs are lemmas about those functions.

What the EVM returns, what a test file's execution amounts to, and what decoding and conversion
answer are parameters. Assumptions on the EVM are stated where they are used: that a transaction uses
at most its gas limit, and for the comparison with serial execution that a result depends only on the
account infos and slots that were read.

Results that differ from what the source says or a reader might expect:

- Deposits do not advance the DA counter, although the comment at
  `crates/mega-evm/src/block/limit.rs:110-111` says otherwise, and the soft limits never discard an
  executed transaction for its own usage, although the field comments at lines 291-299 read that way.
  The model follows the code.
- The commit re-checks the limits but not what the execution read. Serial execution therefore
  reproduces a speculative block's history exactly when every committed outcome is still what its
  transaction yields, and then the whole block agrees (`SpeculationMatchesSerial`). That nothing it
  read has changed suffices, and is exact if executions record what they read
  (`ConflictFreeIsSerial`). `LostUpdate` and `StaleNonce` are
  the two ways it fails: an overwritten account, and a deposit receipt with an outdated nonce.
- The Rust due gate and the contract's guard differ only at block number 2^64 - 1 with an activation
  block beyond 64 bits (`GateExact`).
- Before Rex6, deploy and apply commute unless a registry account without code has due changes
  (`OrderBeforeRex6`); on such an account the block fails (`LostDeployFails`).
- The errors of reading the system address are reachable. `PreBlockExact` says exactly when the
  pre-block phase succeeds, for every combination of forks and every registry account.
- The delta of the balance increments keeps only the last nonzero increment of a repeated address
  (`TwoPhaseEqualsDirect`, `TwoPhaseConserves`); the executor's list comes from a map, so no address
  repeats there.
- From Rex6 on, a creation is charged to the creating frame after its budget was forwarded, so the
  transaction-level check can fire while a frame is running, against the assertion at
  `crates/mega-evm/src/limit/kv_update.rs:143-146`. `FrameCheckFirst` gives the exact condition over
  runs: a creation charged to its creator while the transaction has used up its limit exactly.
- The opcode aggregator's minimum and maximum start from 2^62 and 0, which is exact only under the
  conditions of `StatsExact`.

## Model

| member | source | states |
|---|---|---|
| `BlockLimit.BlockLimiter.constructor` | crates/mega-evm/src/block/limit.rs:708-719 | a new limiter has the given limits and seven zero counters |
| `BlockLimit.BlockLimiter.PreExecutionCheck` | crates/mega-evm/src/block/limit.rs:770-897 | the first violated limit in source order is returned with its figures; nothing is returned exactly when the transaction is admissible in terms of unbounded sums |
| `BlockLimit.BlockLimiter.PostExecutionUpdate` | crates/mega-evm/src/block/limit.rs:969-1009 | every counter advances by its saturating amount; a deposit leaves the DA counter alone |
| `BlockLimit.BlockLimiter.IsBlockLimitReached` | crates/mega-evm/src/block/limit.rs:1012-1020 | true exactly when some counter has reached its limit; with real block limits and positive per-transaction limits, exactly when every non-deposit transaction with some gas, size and DA size would be refused |
| `BlockLimit.CheckExact` | crates/mega-evm/src/block/limit.rs:770-897 | a transaction is admitted if and only if it is within the per-transaction limits, fits the three additive limits as an unbounded sum, and all four soft counters are strictly below their limits |
| `BlockLimit.RefusalIsFirstViolated` | crates/mega-evm/src/block/limit.rs:770-897 | **Main result.** For each of the ten limits: a refusal about it, carrying its figures, is returned if and only if it is violated, in unbounded arithmetic, and no earlier one is |
| `BlockLimit.RefusalIsPermanent` | crates/mega-evm/src/block/limit.rs:770-897 | once refused, refused in every later state; a refusal at transaction level holds in every state; a reached block stays reached |
| `BlockLimit.ReachedExact` | crates/mega-evm/src/block/limit.rs:1012-1020 | **Main result.** With real block limits and positive per-transaction limits the block limit is reached if and only if every non-deposit transaction with some gas, size and DA size would be refused |
| `BlockLimit.ReachedDecides` | crates/mega-evm/src/block/limit.rs:1012-1020 | with limits below the maximum, a reached block refuses every non-deposit transaction with nonzero gas, size and DA size; a block not reached admits exactly what is within the per-transaction limits and the remaining additive capacity |
| `BlockLimit.CountersGrow` | crates/mega-evm/src/block/limit.rs:969-1009 | no counter ever decreases along a run |
| `BlockLimit.AdmittedEarlier` | crates/mega-evm/src/block/limit.rs:770-897 | what is admitted at some point of a run would have been admitted at every earlier point |
| `BlockLimit.HardCaps` | crates/mega-evm/src/block/limit.rs:789-850 | **Main result.** Over every run of admitted transactions with gas used at most the gas limit, deposits included, gas, encoded size and DA size stay at or below the block limits |
| `BlockLimit.SoftCaps` | crates/mega-evm/src/block/limit.rs:852-894 | **Main result.** Over every run the four soft counters are strictly below their limits before each commit, so only the last transaction crosses one, by less than its own usage; afterwards every transaction is refused |
| `BlockLimit.Overshoot` | crates/mega-evm/src/block/limit.rs:993-1008 | a transaction admitted with the soft limits open overshoots each by less than its own usage |
| `BlockLimit.SaturationExact` | crates/mega-evm/src/block/limit.rs:980-1008 | **Main result.** Over every run each counter is the unbounded sum of what it counts, capped once at the 64-bit maximum |
| `BlockLimit.CheckDecidesOnSums` | crates/mega-evm/src/block/limit.rs:789-894 | the check on the saturated counters decides as the unbounded sums of the whole run would |
| `BlockLimit.GasNeverLost` | crates/mega-evm/src/block/limit.rs:980-982 | with a block gas limit below the maximum the gas counter is exactly the sum of the gas used, within the limit |
| `StateDb.CommitPointwise` | crates/mega-evm/src/system/mod.rs:3-22 | committing a returned state decides every account by its own flags and record only |
| `StateDb.CommitReads` | crates/mega-evm/src/system/mod.rs:3-22 | reading back a committed account: gone if destroyed or emptied, only what was written if created, otherwise what was written over what it held; unchanged if it was not touched |
| `StateDb.WitnessChangesNothing` | crates/mega-evm/src/system/mod.rs:3-22 | a state of untouched, read-only records commits to no change |
| `StateDb.CommitAllConcat` | crates/mega-evm/src/block/executor.rs:363-373 | committing a list of outcomes is compositional in the list |
| `StateDb.CommitAllUntouched` | crates/mega-evm/src/block/executor.rs:363-373 | an account no outcome mentions is left alone by committing all of them |
| `SequencerRegistry.GateExact` | crates/mega-evm/src/system/sequencer_registry.rs:149-167 | the due gate equals the contract guard for some role, except at the largest block number with a saturated activation block; when it is closed the contract call would change nothing |
| `SequencerRegistry.GateIsWitness` | crates/mega-evm/src/system/sequencer_registry.rs:308-337 | everything the gate returns is a read-only record |
| `SequencerRegistry.ApplyRoleMeaning` | crates/system-contracts/contracts/SequencerRegistry.sol:230-261 | applying a due change installs the pending holder, clears the request and appends one history element packing activation block and holder |
| `SequencerRegistry.AppliedSlots` | crates/system-contracts/contracts/SequencerRegistry.sol:13-52 | the same by the storage layout: slots 7 and 8 move to slot 0 and the history at 11, slots 9 and 10 to slot 1 and the history at 12, each only when due |
| `SequencerRegistry.ApplyTouchesOnlyRoles` | crates/system-contracts/contracts/SequencerRegistry.sol:230-261 | applying changes leaves every slot outside the two roles alone |
| `SequencerRegistry.CommitApply` | crates/mega-evm/src/block/executor.rs:363-373 | committing an apply outcome over another registry state takes its account info and overlays exactly the slots it changed |
| `SequencerRegistry.CommitUpgrade` | crates/mega-evm/src/system/sequencer_registry.rs:188-300 | committing the upgrade gives the v2 code, writes the rotation delay and keeps every other slot |
| `SequencerRegistry.UpgradeOverlay` | crates/mega-evm/src/block/executor.rs:256-307 | apply and upgrade write different slots, so both orders end with the same storage but different account info |
| `SequencerRegistry.UpgradeOrder` | crates/mega-evm/src/block/executor.rs:256-307 | **Main result.** At a Rex6 block with a v1 registry and due changes, the push order ends with v2 code, the seeded delay and every applied role slot; deploy-then-apply would end with the same storage under stale v1 code |
| `SequencerRegistry.OrderBeforeRex6` | crates/mega-evm/src/block/executor.rs:245-307 | **Main result.** Before Rex6 both orders give the same database if and only if not (changes are due and the registry account has no code) |
| `SequencerRegistry.OrdersOfThree` | crates/mega-evm/src/block/executor.rs:363-373 | the witness entry of the gate drops out of either commit order |
| `SequencerRegistry.RegistryCommitted` | crates/mega-evm/src/block/executor.rs:245-310 | the database after the registry part of the pre-block phase, by gate and fork |
| `SequencerRegistry.SystemAddressAfterApply` | crates/system-contracts/contracts/SequencerRegistry.sol:230-261 | the system address after applying is the pending one exactly when its change applies |
| `SequencerRegistry.SwappedOrderFailsBlock` | crates/mega-evm/src/system/sequencer_registry.rs:395-457 | had the deploy been pushed first, resolving the system address would fail the block with the stale code |
| `SequencerRegistry.SeedMeaning` | crates/mega-evm/src/system/sequencer_registry.rs:271-293 | the seed of a fresh registry slot by slot, by the storage layout: system address, sequencer, admin, initial holders, first block, from Rex6 on the rotation delay, and zero everywhere else |
| `SequencerRegistry.DeployMeaning` | crates/mega-evm/src/system/deploy.rs:85-133 | installing a system contract sets the code and keeps balance and nonce; an account that has the code is left alone; the storage is the seed alone if the account is new or forced to be, and is kept otherwise; no other account changes |
| `SequencerRegistry.DeployExact` | crates/mega-evm/src/system/sequencer_registry.rs:188-300 | the deploy succeeds if and only if the forks are configured and the account has no code, v1 code, or v2 code from Rex6 on; a registry already at its target is only witnessed |
| `SequencerRegistry.RegistryEnds` | crates/mega-evm/src/system/sequencer_registry.rs:188-383 | committing the registry outcomes ends with the code of the fork and every slot seeded, applied or upgraded as expected, exactly unless the apply call takes a fresh deploy away again |
| `SequencerRegistry.ResolveExact` | crates/mega-evm/src/system/sequencer_registry.rs:395-457 | reading the system address afterwards succeeds if and only if no deploy was lost and the address in force is not zero, and then returns that address |
| `PreBlockRegistry.AfterEarly` | crates/mega-evm/src/block/executor.rs:363-373 | entries that do not mention the registry, followed by the registry outcomes, leave it as the registry outcomes alone do |
| `PreBlockRegistry.OutcomesExact` | crates/mega-evm/src/block/executor.rs:169-310 | collecting the outcomes succeeds if and only if both system calls go through and, from Rex5 on, the forks are configured, the code on the account fits and a due apply call returns |
| `PreBlockRegistry.PreBlockExact` | crates/mega-evm/src/block/executor.rs:662-679 | **Main result.** For every environment, fork combination and registry account: the pre-block phase succeeds if and only if both system calls go through and, under the Rex5 rules, configuration, code, apply call and address in force are as stated; then it returns that address and the registry ends as expected. Counters and receipts are never touched, and an error while collecting changes nothing |
| `PreBlockRegistry.FreshRegistry` | crates/mega-evm/src/system/sequencer_registry.rs:271-300 | **Main result.** A phase that finds the registry account without code leaves it with the configured admin, the configured sequencer in force and as initial one, the fixed system address in force and as initial one, the block number, from Rex6 on the rotation delay, and zero in every other slot |
| `PreBlockRegistry.LostDeployFails` | crates/mega-evm/src/block/executor.rs:662-679 | before Rex6, a registry account without code and with due changes fails the block |
| `PreBlockRegistry.Rex6WithoutRex5Fails` | crates/mega-evm/src/block/executor.rs:662-679 | with Rex6 on, Rex5 off and no registry, the phase deploys none and fails the block |
| `PreBlockRegistry.InForkOrder` | crates/mega-evm/src/block/executor.rs:662-679 | on the accounts that arise in fork order the phase fails exactly when a call does, and leaves such an account |
| `PreBlockState.HashesCommitted` | crates/mega-evm/src/block/executor.rs:181-200 | what the block-hash call wrote to an account nobody else writes is in the database after the phase, and its state was shown to the hook under its own source |
| `PreBlockState.RootCommitted` | crates/mega-evm/src/block/executor.rs:202-224 | the same for the beacon-root call |
| `PreBlockState.ContractInstalled` | crates/mega-evm/src/block/executor.rs:230-239 | each flat system contract at an address of its own ends with its code, its balance and nonce, and the storage it had, or its seed alone if it is new or forced to be |
| `PreBlockState.ErrorsInOrder` | crates/mega-evm/src/block/executor.rs:169-310 | a failing collection returns the error of the first thing that goes wrong, in source order, and changes nothing |
| `RegistryHistory.RoleAt` | crates/system-contracts/contracts/SequencerRegistry.sol:87-100 | the scan from the end: an error for a future block or one before the deploy, otherwise the newest record not after the block, or the initial holder |
| `RegistryHistory.InvokeViewed` | crates/system-contracts/contracts/SequencerRegistry.sol:103-125 | what any call by anyone may do to a role: nothing, cancel, apply what is due, or schedule for a later block |
| `RegistryHistory.SystemScheduled` | crates/system-contracts/contracts/SequencerRegistry.sol:104-125 | a request of the admin for a later block is recorded in slots 7 and 8, a cancellation of the admin clears them, and anything else, or from anybody else, changes nothing |
| `RegistryHistory.SequencerScheduled` | crates/system-contracts/contracts/SequencerRegistry.sol:152-184 | the same in slots 9 and 10, where a new sequencer must also be proven and the rotation delay kept |
| `RegistryHistory.AdminHandover` | crates/system-contracts/contracts/SequencerRegistry.sol:279-303 | the admin changes exactly when the one the admin named accepts |
| `RegistryHistory.OutsidersRotateNothing` | crates/system-contracts/contracts/SequencerRegistry.sol:279-303 | **Main result.** Over every chain of blocks without a call of the admin, both roles keep their holder and history, nothing is requested and the admin stays |
| `RegistryHistory.PackedUnpacked` | crates/system-contracts/contracts/SequencerRegistry.sol:243-260 | a history record has the block in its low 96 bits and the address above, and reads back as both |
| `RegistryHistory.ApplyViewed` | crates/system-contracts/contracts/SequencerRegistry.sol:230-261 | applying acts on each role independently and appends one record with the activation block |
| `RegistryHistory.HistoryIsExact` | crates/system-contracts/contracts/SequencerRegistry.sol:87-100 | **Main result.** Over every chain of consecutive blocks since the deploy, with any schedules, replacements and cancels, each role's history is strictly increasing and looking up any past block gives the holder in force in that block |
| `RegistryHistory.DeployBootstraps` | crates/mega-evm/src/system/sequencer_registry.rs:188-300 | a fresh deploy is a start of such a chain |
| `RegistryHistory.PhaseIsChainStep` | crates/mega-evm/src/system/sequencer_registry.rs:350-457 | the slots and the system address the pre-block phase is to leave are those of one chain step |
| `RegistryChain.LaterBlock` | crates/mega-evm/src/block/executor.rs:662-679 | a pre-block phase on a registry that answers for all earlier blocks returns an address and leaves one that answers for this block too |
| `RegistryChain.LookupIsResolved` | crates/mega-evm/src/block/executor.rs:662-679 | **Main result.** Over every chain of blocks the executor runs since the deploy, with any registry calls in between: each phase returns an address, and looking up that block's number in the same or any later block, after any calls, returns the same address |
| `BalanceIncrements.TransactBalanceIncrements` | crates/mega-evm/src/block/eips.rs:160-180 | the returned state holds exactly the addresses with a nonzero increment, each with the database info and the balance raised by the last such increment |
| `BalanceIncrements.RaisedModulo` | crates/mega-evm/src/block/eips.rs:160-180 | the raised balance is the sum modulo 2^256; nothing else of the account info changes |
| `BalanceIncrements.DirectMeaning` | crates/mega-evm/src/block/eips.rs:160-180 | incrementing in place raises each balance by the sum of its increments, keeps nonce, code and storage, and does not create accounts for zero increments |
| `BalanceIncrements.TwoPhaseMeaning` | crates/mega-evm/src/block/executor.rs:337-373 | building the delta first and committing it raises each balance by its last nonzero increment and changes nothing else |
| `BalanceIncrements.TwoPhaseEqualsDirect` | crates/mega-evm/src/block/executor.rs:337-373 | **Main result.** Without overflow the two ways give the same database if and only if no address carries two nonzero increments in the list |
| `BalanceIncrements.LastIsSum` | crates/mega-evm/src/block/eips.rs:160-180 | the last nonzero increment of an address is its sum exactly when the list holds at most one |
| `BalanceIncrements.TwoPhaseConserves` | crates/mega-evm/src/block/executor.rs:337-373 | **Main result.** The sum of all balances grows by at most the sum of the increments, and by exactly that sum if and only if no address carries two nonzero ones |
| `BalanceIncrements.DirectConserves` | crates/mega-evm/src/block/executor.rs:337-360 | in-place increments raise the sum of all balances by exactly their sum |
| `BlockExecutor.MegaBlockExecutor.constructor` | crates/mega-evm/src/block/executor.rs:95-135 | a new executor has an empty log and no receipts, and its log replays to its database |
| `BlockExecutor.MegaBlockExecutor.RunTransaction` | crates/mega-evm/src/block/executor.rs:468-512 | check, then execute: refusal, EVM error, or an outcome carrying the cached deposit nonce; nothing changes |
| `BlockExecutor.RunExact` | crates/mega-evm/src/block/executor.rs:468-512 | a run gives an outcome for its request if and only if the transaction is admissible and the EVM returns; it is an EVM error if and only if the transaction is admissible and the EVM errs |
| `BlockExecutor.MegaBlockExecutor.CommitTransactionOutcome` | crates/mega-evm/src/block/executor.rs:537-602 | re-check: a refused outcome changes nothing; an admitted one advances the limiter, appends one receipt with the new gas total and one log entry under its index, and commits; the log stays a journal of the database |
| `BlockExecutor.MegaBlockExecutor.ExecuteTransaction` | crates/mega-evm/src/block/executor.rs:684-701 | run, then commit if the condition holds; that commit is never refused, and without it nothing changes |
| `BlockExecutor.MegaBlockExecutor.CommitSystemCallOutcomes` | crates/mega-evm/src/block/executor.rs:363-373 | every outcome is shown to the hook and then committed, in order; the log stays a journal |
| `BlockExecutor.MegaBlockExecutor.PreExecutionChanges` | crates/mega-evm/src/block/executor.rs:169-310 | the whole list of pre-block outcomes in push order, computed against the uncommitted database, or the first error, those of the system calls themselves included |
| `BlockExecutor.MegaBlockExecutor.ApplyPreExecutionChanges` | crates/mega-evm/src/block/executor.rs:662-679 | an error while collecting commits nothing; otherwise everything is committed in order and the system address is read back and witnessed |
| `BlockExecutor.MegaBlockExecutor.RegistryChanges` | crates/mega-evm/src/block/executor.rs:245-310 | deploy first before Rex6 and last from Rex6 on, the gate always witnessed, apply only when due |
| `BlockExecutor.MegaBlockExecutor.Finish` | crates/mega-evm/src/block/executor.rs:706-721 | the balance increments are shown and committed; the reported gas is the last cumulative amount, or zero |
| `BlockProtocol.NextLinear` | crates/mega-evm/src/block/executor.rs:468-602 | every run, commit or system step preserves the correspondence with the sequential history |
| `BlockProtocol.Linearizable` | crates/mega-evm/src/block/executor.rs:468-602 | **Main result.** For every interleaving over any pool of in-flight outcomes the executor is in the state its effects produce one after the other in commit order, and every commit passes the check in that sequential execution |
| `BlockProtocol.AdmittedAtEveryEarlierState` | crates/mega-evm/src/block/executor.rs:544-558 | **Main result.** Every committed transaction would have passed the run-time check in every earlier state of the block |
| `BlockProtocol.GasHonestRuns` | crates/mega-evm/src/block/executor.rs:537-602 | if the EVM never uses more gas than the limit, neither does any committed transaction or outcome in flight |
| `Speculation.SerialExact` | crates/mega-evm/src/block/executor.rs:468-602 | a serial executor that runs each transaction on the database of its commit reproduces a history if and only if every transaction is repeatable there |
| `Speculation.SpeculationMatchesSerial` | crates/mega-evm/src/block/executor.rs:468-602 | **Main result.** For every EVM and every interleaving: serial re-execution reproduces the history if and only if every committed outcome is what its transaction yields on the database of its commit, and then the whole block agrees, receipts included |
| `Speculation.Provenance` | crates/mega-evm/src/block/executor.rs:468-512 | every outcome of a block was produced by the EVM on some earlier state of that block |
| `Speculation.ConflictFreeIsSerial` | crates/mega-evm/src/block/executor.rs:468-602 | **Main result.** If results depend only on what was read, a block in which nothing a committed transaction read changed before its commit equals serial execution; if executions also record what they read, if and only if |
| `Speculation.DisjointIsSerial` | crates/mega-evm/src/block/executor.rs:468-602 | a condition on the returned states alone: if no action between a run and its commit mentions an account that was read, the block equals serial execution |
| `Speculation.LostUpdate` | crates/mega-evm/src/block/executor.rs:501-509 | **Main result.** Two payments out of one account, both run before either commits, take the amount once; serial execution takes it twice, and the conflict shows in what they read |
| `Speculation.StaleNonce` | crates/mega-evm/src/block/executor.rs:468-512 | two deposits of one signer, both run before either commits: if the first changes the nonce the second receipt carries the old one, and serial receipts differ whatever the EVM returns |
| `BlockProtocol.LimitsHold` | crates/mega-evm/src/block/limit.rs:789-894 | **Main result.** In every reachable state the hard caps and soft caps hold, and once a soft limit is reached no commit of any in-flight outcome changes the block |
| `BlockProtocol.LogIsJournal` | crates/mega-evm/src/block/executor.rs:363-373 | after any history the log replays to the database and consists of the given system entries and the transactions under indices 0, 1, 2, ... in commit order |
| `BlockProtocol.JournalAlways` | crates/mega-evm/src/block/executor.rs:537-602 | **Main result.** The same in every state any interleaving reaches |
| `BlockProtocol.ReceiptGas` | crates/mega-evm/src/block/executor.rs:558-602 | receipt i carries the capped gas of the first i + 1 commits |
| `BlockProtocol.ReceiptsArePrefixSums` | crates/mega-evm/src/block/executor.rs:558-602 | **Main result.** With a block gas limit below the maximum, in every reachable state receipt i is the sum of the gas of commits 0 to i, the sequence never decreases, and the final gas is the total, or zero |
| `BlockProtocol.ReceiptsReport` | crates/mega-evm/src/block/executor.rs:567-597 | in every state any interleaving reaches, over any pool, receipt i has the success and logs of the i-th committed outcome, its nonce exactly for a deposit, and version 1 exactly with a nonce |
| `Speculation.ReceiptsTellRuns` | crates/mega-evm/src/block/executor.rs:468-597 | **Main result.** In every state a block reaches, receipt i has the success and logs the EVM returned on the database the i-th committed transaction was run on, and is a deposit receipt, with version 1 and the nonce its signer had there, if and only if the transaction is a deposit |
| `VolatileTracker.Tracker.constructor` | crates/mega-evm/src/access/tracker.rs:84-94 | a new tracker has no access, no cap and nothing disabled |
| `VolatileTracker.Tracker.ApplyOrCreateLimit` | crates/mega-evm/src/access/tracker.rs:160-168 | the cap becomes the lower of the old one and the new limit |
| `VolatileTracker.Tracker.MarkBlockEnvAccessed` | crates/mega-evm/src/access/tracker.rs:124-127 | marking a block field records it and lowers the cap |
| `VolatileTracker.Tracker.MarkBeneficiaryBalanceAccessed` | crates/mega-evm/src/access/tracker.rs:135-138 | marking the beneficiary records it and lowers the cap |
| `VolatileTracker.Tracker.CheckAndMarkOracleAccess` | crates/mega-evm/src/access/tracker.rs:148-157 | marks, and says so, exactly for the oracle address |
| `VolatileTracker.Tracker.MergeAccesses` | crates/mega-evm/src/access/tracker.rs:230-232 | a merge adds accesses and never changes the cap or the disable state |
| `VolatileTracker.Tracker.DisableAccess` | crates/mega-evm/src/access/tracker.rs:178-184 | an ancestor's disable is kept; otherwise the given depth is recorded |
| `VolatileTracker.Tracker.VolatileAccessDisabled` | crates/mega-evm/src/access/tracker.rs:187-189 | disabled exactly at and below the recorded depth |
| `VolatileTracker.Tracker.EnableAccess` | crates/mega-evm/src/access/tracker.rs:196-206 | fails, changing nothing, under an ancestor's disable; otherwise access is enabled |
| `VolatileTracker.Tracker.EnableAccessIfReturning` | crates/mega-evm/src/access/tracker.rs:213-217 | cleared exactly when the disabling frame has returned |
| `VolatileTracker.Tracker.Reset` | crates/mega-evm/src/access/tracker.rs:221-226 | back to the new tracker |
| `VolatileTracker.Tracker.OnNewTx` | crates/mega-evm/src/evm/context.rs:552-567 | the tracker at transaction start depends only on caller, recipient, beneficiary and configured caps |
| `VolatileTracker.CapIsLeast` | crates/mega-evm/src/access/tracker.rs:124-168 | **Main result.** After any marks and merges the cap is the least one among the kinds marked, none if none was, and the bitmap is everything marked or merged |
| `VolatileTracker.CapInFigures` | crates/mega-evm/src/access/tracker.rs:124-168 | the cap is the block-environment cap, the oracle cap or the smaller of the two, according to which kinds of data were marked, and none if neither was |
| `VolatileTracker.NewTxMeaning` | crates/mega-evm/src/evm/context.rs:552-567 | a transaction starts as if the beneficiary had been marked for each of caller and recipient that is the beneficiary, on a tracker that was reset |
| `VolatileTracker.OrderIndependent` | crates/mega-evm/src/access/tracker.rs:124-168 | two event lists with the same elements give the same tracker |
| `VolatileTracker.PermutationIndependent` | crates/mega-evm/src/access/tracker.rs:124-168 | **Main result.** Any permutation of the events gives the same cap and bitmap |
| `VolatileTracker.FrameScope` | crates/mega-evm/src/access/tracker.rs:178-217 | a frame with any operations and nested calls never changes an inherited disable; otherwise it ends enabled or disabled at its own depth |
| `VolatileTracker.CallRestores` | crates/mega-evm/src/evm/execution.rs:1337-1367 | **Main result.** For every call tree the disable state after the call returns is the one before it |
| `VolatileTracker.StepRefines` | crates/mega-evm/src/system/intercept.rs:349-419 | each disable, enable, query, call and return of the tracker is the same step of a stack of per-frame flags, with the same answer |
| `VolatileTracker.RunRefines` | crates/mega-evm/src/access/tracker.rs:178-217 | **Main result.** Over every run all answers agree with the stack of flags, and the single depth is the shallowest disable in scope, never deeper than the current frame |
| `TestRunner.Queue.constructor` | crates/mega-state-test/src/runner.rs:1043-1054 | the queue starts at the first file |
| `TestRunner.Queue.NextTest` | crates/mega-state-test/src/runner.rs:1056-1062 | hands out the files in order, each once, then none |
| `TestRunner.RunTestWorker` | crates/mega-state-test/src/runner.rs:1065-1087 | a worker alone executes up to and including the first file that ends it (a panic, or a failure without keep-going), or everything left, counts exactly the failures among those, and reports how it ended; a reported file is the last one executed, and it failed |
| `TestRunner.StopAtMeaning` | crates/mega-state-test/src/runner.rs:1065-1087 | that stopping point is the first file that ends the worker, or the end of the list |
| `TestRunner.ThreadCount` | crates/mega-state-test/src/runner.rs:1089-1094 | one thread if forced or unknown, else the smaller of cores and files; at least one when there are files |
| `TestRunner.NextOwned` | crates/mega-state-test/src/runner.rs:1056-1087 | in every step each file below the index is executed or held by exactly one worker |
| `TestRunner.ExecutedOnce` | crates/mega-state-test/src/runner.rs:1056-1087 | **Main result.** In every interleaving no file is executed twice |
| `TestRunner.NextCounted` | crates/mega-state-test/src/runner.rs:1065-1087 | the error count plus the failures still held by workers is the number of failing files |
| `TestRunner.NextEnded` | crates/mega-state-test/src/runner.rs:1065-1087 | how workers end: a clean return means the queue is empty or an error was counted; an error return means it was counted |
| `TestRunner.NextDebugged` | crates/mega-state-test/src/runner.rs:519-536 | a step keeps the debug re-run count at one exactly when this process flipped the failure flag |
| `TestRunner.NextBlamed` | crates/mega-state-test/src/runner.rs:1077-1084 | in every step a file held by a worker past a failure, or returned as an error, was executed and failed |
| `TestRunner.FirstErrorMeaning` | crates/mega-state-test/src/runner.rs:1121-1133 | the first thread error in join order: that worker has one and no earlier worker does |
| `TestRunner.Reachable` | crates/mega-state-test/src/runner.rs:1104-1180 | all six invariants hold in every state of every interleaving of any number of workers; so at most one debug re-run happens |
| `TestRunner.VerdictExact` | crates/mega-state-test/src/runner.rs:1104-1180 | **Main result.** When all workers have stopped, success is reported if and only if every file was executed and passed and no worker panicked |
| `TestRunner.CountExact` | crates/mega-state-test/src/runner.rs:1104-1180 | **Main result.** Without panics the count is exactly the number of failing files; with keep-going all files are executed and the summary carries that number; without it a failing run reports a file that was executed and failed |
| `TestRunner.ReportTrue` | crates/mega-state-test/src/runner.rs:1121-1178 | **Main result.** In every reachable state a reported file was executed and failed and is what the first worker in join order to end with an error returned; a reported panic is that of the first such worker; otherwise no worker ended with an error |
| `TestRunner.DebugRunExact` | crates/mega-state-test/src/runner.rs:517-536 | **Main result.** When all workers have stopped there was one debug re-run if outcomes are not printed, the flag was clear and some file had a failing test, and none otherwise |
| `TestRunner.Progress` | crates/mega-state-test/src/runner.rs:1065-1087 | every step lowers a measure, and while somebody is running a step is possible |
| `TestRunner.BoundedRuns` | crates/mega-state-test/src/runner.rs:1065-1087 | **Main result.** So no run has more than 6 steps per file plus 2 per worker: every worker stops |
| `TestRunner.StopsSoon` | crates/mega-state-test/src/runner.rs:1066-1075 | **Main result.** Without keep-going, once a failure is counted each worker takes at most one more file, and only if it had already looked at the count, in every interleaving |
| `FrameLimit.FrameLimitTracker.constructor` | crates/mega-evm/src/limit/frame_limit.rs:115-126 | a new tracker: empty stack, zero caches |
| `FrameLimit.FrameLimitTracker.Reset` | crates/mega-evm/src/limit/frame_limit.rs:133-141 | back to an empty stack with the same limit |
| `FrameLimit.FrameLimitTracker.CachedNetUsage` | crates/mega-evm/src/limit/frame_limit.rs:264-289 | the cached net usage equals the walk over the transaction entry and all frames |
| `FrameLimit.FrameLimitTracker.PushFrame` | crates/mega-evm/src/limit/frame_limit.rs:253-259 | pushes an empty frame; the caches stay equal to the walk |
| `FrameLimit.FrameLimitTracker.PopFrame` | crates/mega-evm/src/limit/frame_limit.rs:188-221 | a kept child is merged into its parent, a reverted one leaves only its persistent usage; the caches stay equal to the walk |
| `FrameLimit.FrameLimitTracker.AddTxPersistent` | crates/mega-evm/src/limit/frame_limit.rs:298-304 | raises the transaction entry and the cache |
| `FrameLimit.FrameLimitTracker.AddFramePersistent` | crates/mega-evm/src/limit/frame_limit.rs:307-319 | raises the running frame and the cache; says whether there is one |
| `FrameLimit.FrameLimitTracker.AddFrameDiscardable` | crates/mega-evm/src/limit/frame_limit.rs:322-329 | raises the running frame's discardable usage and the cache |
| `FrameLimit.FrameLimitTracker.AddFrameRefund` | crates/mega-evm/src/limit/frame_limit.rs:332-340 | raises the running frame's refund and its cache |
| `FrameLimit.FrameLimitTracker.AddParentDiscardable` | crates/mega-evm/src/limit/frame_limit.rs:352-362 | charges the frame below the running one, if there is one |
| `FrameLimit.FrameLimitTracker.SetCreatedAddress` | crates/mega-evm/src/limit/frame_limit.rs:450-455 | records the created address on the running frame |
| `FrameLimit.FrameLimitTracker.PushCallFrame` | crates/mega-evm/src/limit/frame_limit.rs:393-412 | marks the caller's account as charged from Rex5 on and pushes the callee; says whether a charge is due. From Rex4 on the callee's limit is 98 parts in 100, rounded down, of what the caller has left, and all the transaction has left for the first frame |
| `FrameLimit.FrameLimitTracker.PushCreateFrame` | crates/mega-evm/src/limit/frame_limit.rs:422-444 | the same for a creation, limit included, where Rex6 leaves the charge on the parent |
| `FrameLimit.FrameLimitTracker.PopFrameUnwindParent` | crates/mega-evm/src/limit/frame_limit.rs:465-479 | a reverted frame that carried its caller's charge lifts the caller's mark again |
| `FrameLimit.KVUpdateTracker.BeforeTxStart` | crates/mega-evm/src/limit/kv_update.rs:164-180 | one update for the caller and, before Rex6, one per recoverable authority |
| `FrameLimit.KVUpdateTracker.BeforeCall` | crates/mega-evm/src/limit/kv_update.rs:200-221 | what the hook before a call charges to the callee's frame, by fork |
| `FrameLimit.KVUpdateTracker.BeforeCreate` | crates/mega-evm/src/limit/kv_update.rs:222-236 | what the hook before a creation charges, to the parent from Rex6 on |
| `FrameLimit.KVUpdateTracker.BeforeFrameInit` | crates/mega-evm/src/limit/kv_update.rs:195-238 | the hook before a frame, for a call, a creation or an intercepted call |
| `FrameLimit.KVUpdateTracker.AfterFrameInitOnFrame` | crates/mega-evm/src/limit/kv_update.rs:243-251 | the hook after a creation was set up records and charges the created account; other frames record nothing |
| `FrameLimit.KVUpdateTracker.AfterSstore` | crates/mega-evm/src/limit/kv_update.rs:273-281 | the first change of a slot costs one update, restoring its original value refunds one |
| `FrameLimit.KVUpdateTracker.BeforeFrameReturn` | crates/mega-evm/src/limit/kv_update.rs:259-263 | the running frame is merged into its caller, or discarded |
| `FrameLimit.KVUpdateTracker.CheckLimit` | crates/mega-evm/src/limit/kv_update.rs:128-155 | the frame budget is checked first, then the transaction limit on the cached usage |
| `FrameLimit.Perform` | crates/mega-evm/src/limit/kv_update.rs:128-281 | one event of a transaction on the tracker object |
| `FrameLimit.Track` | crates/mega-evm/src/limit/frame_limit.rs:264-289 | **Main result.** The tracker object driven through any events: its cached usage is the walk over all entries, and its check is that of the plain stack |
| `FrameLimit.PopTotals` | crates/mega-evm/src/limit/frame_limit.rs:188-221 | a return moves usage between entries; only a revert lowers the walked totals, by what it discards |
| `FrameLimit.ExecMeaning` | crates/mega-evm/src/limit/kv_update.rs:195-281 | **Main result.** Driving the tracker through any call tree charges the running frame exactly the cost defined by recursion on the tree, and changes no frame below |
| `FrameLimit.TransactionMeaning` | crates/mega-evm/src/limit/kv_update.rs:164-281 | a whole transaction ends with its intrinsic usage plus, if it succeeded, the cost of its call tree |
| `FrameLimit.StartMeaning` | crates/mega-evm/src/limit/kv_update.rs:195-251 | which entry each start of a frame charges, by fork and kind |
| `FrameLimit.ReturnMeaning` | crates/mega-evm/src/limit/frame_limit.rs:465-479 | what a return leaves in the caller's entry |
| `FrameLimit.StartKeepsRoom` | crates/mega-evm/src/limit/kv_update.rs:195-238 | starting a frame trips the transaction-level check if and only if it is a Rex6 creation charged to its creator while the transaction has used up its limit exactly |
| `FrameLimit.StepKeepsRoom` | crates/mega-evm/src/limit/kv_update.rs:128-281 | for every step: what lies below each frame plus that frame's limit stays within the transaction's limit, unless the step is such a creation, and then the check reads one over |
| `FrameLimit.FrameCheckFirst` | crates/mega-evm/src/limit/kv_update.rs:128-155 | **Main result.** In every run the transaction-level check fires while a frame is running if and only if some step is such a creation; until then a frame is stopped by its own budget first |
| `FrameLimit.QuietBeforeRex6` | crates/mega-evm/src/limit/kv_update.rs:128-155 | before Rex6 the transaction-level check never fires while a frame is running |
| `FrameLimit.Rex6CreateTrips` | crates/mega-evm/src/limit/kv_update.rs:195-238 | from Rex6 on, for every limit, a first frame that spends its budget exactly and then creates a contract makes the check read one over while frames are running |
| `FrameLimit.ForwardFits` | crates/mega-evm/src/limit/frame_limit.rs:162-172 | what a started frame got fits its parent's limit if and only if the parent was not charged on top of a spent budget |
| `FrameBudget.StartGetsLimit` | crates/mega-evm/src/limit/frame_limit.rs:162-177 | every start of a frame gives it 98 parts in 100, rounded down, of what the starting frame has left, or all the transaction has left, and changes no other limit; before Rex4 there is no limit |
| `FrameBudget.BudgetsShrink` | crates/mega-evm/src/limit/frame_limit.rs:162-177 | **Main result.** In every state of every run the frame at depth k has at most (98/100)^k of the transaction's limit |
| `FrameBudget.FirstFrameBudget` | crates/mega-evm/src/limit/frame_limit.rs:162-177 | the first frame of a transaction gets exactly what the intrinsic usage leaves of the limit; if that exceeds the limit no frame starts |
| `FrameBudget.CheckedExact` | crates/mega-evm/src/limit/kv_update.rs:128-155 | the check in plain arithmetic, with the figures it reports |
| `FrameBudget.LeafCharges` | crates/mega-evm/src/limit/kv_update.rs:195-263 | what a call that does nothing costs, for every kind, fork and outcome, and whether its caller is charged again |
| `FrameLimit.ReturnStaysWithin` | crates/mega-evm/src/limit/frame_limit.rs:188-221 | a kept child within a limit that fits its parent leaves the parent within its own |
| `FrameLimit.AmountsBounded` | crates/mega-evm/src/limit/frame_limit.rs:298-362 | every amount the tracker adds up is at most what the steps charged or refunded, so the 64-bit additions are exact as long as those sums fit |
| `OpcodeGas.StatsCell.constructor` | scripts/trace_opcode_gas.py:55-60 | the initial statistics |
| `OpcodeGas.StatsCell.Add` | scripts/trace_opcode_gas.py:62-68 | count and total grow by the cost, minimum and maximum absorb it |
| `OpcodeGas.Aggregate` | scripts/trace_opcode_gas.py:165-197 | the loop over the two dictionaries computes the stream fold, including the exit on an unreadable depth |
| `OpcodeGas.StreamMeaning` | scripts/trace_opcode_gas.py:169-197 | **Main result.** After any trace in which each required key of each record comes at most once, pending holds exactly the incomplete records, the statistics are a batch over the complete ones, and the program fails exactly when a complete record has an unreadable depth |
| `OpcodeGas.StreamingEqualsBatch` | scripts/trace_opcode_gas.py:169-197 | any list naming each complete record once gives the streamed statistics |
| `OpcodeGas.InterleavingIrrelevant` | scripts/trace_opcode_gas.py:169-197 | **Main result.** Any two interleavings of the same events give the same result |
| `OpcodeGas.BatchOrder` | scripts/trace_opcode_gas.py:169-197 | the batch does not depend on the order of the records |
| `OpcodeGas.GatherMeaning` | scripts/trace_opcode_gas.py:169-177 | a record holds a key exactly when an event brought it, with that event's value |
| `OpcodeGas.BatchRows` | scripts/trace_opcode_gas.py:182-193 | an opcode has a row exactly when it has a relevant record, and the row summarises the costs of exactly those records |
| `OpcodeGas.CostsExact` | scripts/trace_opcode_gas.py:178-193 | those costs are exactly the costs of the records that name the opcode, have a numeric cost and, if a depth is asked for, that depth, each once and in order |
| `OpcodeGas.StatsExact` | scripts/trace_opcode_gas.py:55-68 | **Main result.** Count and total are exact; the reported minimum is the minimum if and only if some cost is at most 2^62, the maximum if and only if some cost is not negative |
| `Hardforks.MegaHardforkConfig.constructor` | crates/mega-evm/src/block/hardfork.rs:246-285 | the default list of forks |
| `Hardforks.MegaHardforkConfig.Position` | crates/mega-evm/src/block/hardfork.rs:340-347 | the index of the first entry with the name, or the length |
| `Hardforks.MegaHardforkConfig.Get` | crates/mega-evm/src/block/hardfork.rs:350-352 | the condition of the first entry with the name |
| `Hardforks.MegaHardforkConfig.ForkParamsAny` | crates/mega-evm/src/block/hardfork.rs:381-383 | the parameters of the first entry with the name |
| `Hardforks.MegaHardforkConfig.Insert` | crates/mega-evm/src/block/hardfork.rs:340-347 | overwrites the condition in place, keeping parameters, or appends |
| `Hardforks.MegaHardforkConfig.WithParams` | crates/mega-evm/src/block/hardfork.rs:306-323 | fails exactly on invalid parameters or a missing fork; otherwise attaches them |
| `Hardforks.MegaHardforkConfig.Without` | crates/mega-evm/src/block/hardfork.rs:327-330 | removes every entry with the name and nothing else |
| `Hardforks.ApplyAt` | crates/mega-evm/src/block/hardfork.rs:306-347 | what one builder call does to one fork; all other forks are unchanged |
| `Hardforks.LastWriteWins` | crates/mega-evm/src/block/hardfork.rs:306-352 | **Main result.** For every sequence of builder calls: it fails exactly when parameters are invalid or their fork is not registered at that point, and otherwise every fork has the last condition and parameters written to it |
| `Hardforks.NamesStayUnique` | crates/mega-evm/src/block/hardfork.rs:306-347 | every sequence of builder calls from the default keeps fork names unique |
| `Hardforks.HighestActive` | crates/mega-evm/src/block/hardfork.rs:111-135 | **Main result.** The fork at a time is the latest active one in declared order, and none exactly when none is active |
| `Hardforks.NeverRegresses` | crates/mega-evm/src/block/hardfork.rs:111-135 | the fork never goes back as time passes |
| `Hardforks.SpecDecreases` | crates/mega-evm/src/block/hardfork.rs:44-59 | **Main result.** The spec goes back between two times if and only if the fork moves from MiniRex to MiniRex1 |
| `Hardforks.SpecExact` | crates/mega-evm/src/block/hardfork.rs:44-59 | from Rex on the spec in force is the release of the latest active fork; the first one exactly under MiniRex or MiniRex2, the base one exactly under MiniRex1 or no fork |
| `Hardforks.DefaultIsBase` | crates/mega-evm/src/block/hardfork.rs:246-285 | the default configuration activates no MegaETH fork and runs the base spec at any time |
| `Hardforks.WithoutIsNever` | crates/mega-evm/src/block/hardfork.rs:325-330 | for the fork at any time, removing a fork is the same as setting it to never |
| `Hardforks.LadderOfRun` | crates/mega-evm/src/block/hardfork.rs:373-379 | after any accepted builder calls a fork is active exactly when its last condition is a timestamp not after the time |
| `T8n.RunTransition` | bin/mega-t8n/src/cmd.rs:159-292 | **Main result.** An envelope that does not decode ends the run at the first such input; otherwise there is one receipt per input, each reporting its transaction, cumulative amounts are prefix sums and the total the full sum modulo 2^64, the rejected list is strictly increasing and exactly the conversion and execution errors (status 0, gas 0, no logs), the block logs are the concatenation of the receipts' logs, and the state is that of the executed transactions in order |
| `T8n.TransactProcessed` | bin/mega-t8n/src/cmd.rs:159-292 | the same of the transactions one after the other, for every list whose envelopes decode |
| `T8n.RejectStep` | bin/mega-t8n/src/cmd.rs:171-199 | a rejected transaction keeps all of this with a zero receipt and one more rejection |
| `T8n.ExecuteStep` | bin/mega-t8n/src/cmd.rs:214-268 | an executed transaction keeps all of this, with logs only on success |
| `T8n.FailuresStep` | bin/mega-t8n/src/cmd.rs:269-291 | the rejected list stays exactly the failures, in order |
| `T8n.ExactGas` | bin/mega-t8n/src/cmd.rs:217-230 | a cumulative amount is the true sum if and only if that sum fits 64 bits, and the amounts never decrease exactly while no addition wraps |
| `T8n.WrappedModulo` | bin/mega-t8n/src/cmd.rs:217-230 | the running total is kept modulo 2^64 |

## Left out

- EVM execution, precompiles, gas metering inside a frame, the sandbox: an execution is a parameter returning an arbitrary outcome.
- The data-size, compute-gas and state-growth trackers: they share the frame stack modelled in `FrameLimit.dfy` with other charges.
- FrameLimit.FrameLimitTracker.AddTxPersistent: usage is a natural number; by `AmountsBounded` this is the source's 64-bit usage as long as the charges of the transaction fit 64 bits, and what happens beyond that is not modelled.
- FrameLimit.FrameLimitTracker.AddFramePersistent: the same.
- FrameLimit.FrameLimitTracker.AddFrameDiscardable: the same.
- FrameLimit.FrameLimitTracker.AddFrameRefund: the same, for refunds.
- FrameLimit.FrameLimitTracker.AddParentDiscardable: the same.
- FrameLimit.FrameCheckFirst: usage a keyless deploy merges into the transaction arrives before any tracked frame and is an intrinsic charge here; the sticky flag of the combined limit, which stops asking once a limit was exceeded, is not modelled.
- BlockExecutor.MegaBlockExecutor.PreExecutionChanges: the block-hash and beacon-root calls and the registry's apply call are given as their results or errors; the rest of the list is computed.
- SequencerRegistry.UpgradeOrder: the state the apply call returns is characterised by the contract's storage semantics, with account info unchanged; the call itself is not executed.
- SequencerRegistry.ApplyRoleMeaning: array elements are addressed by array and position instead of by hash, and address slots hold clean values.
- PreBlockRegistry.PreBlockExact: assumes that the system calls and flat contracts do not touch the registry account, which has its own address, and that an apply call that returns has done what the contract does.
- RegistryChain.LookupIsResolved: transactions reach the registry through its entry points only, consecutive blocks have consecutive numbers, and forks are not switched off again; the system calls and a due apply call go through.
- Speculation.ConflictFreeIsSerial: the account infos an execution loaded are part of its result here, as an observation of its database reads; the executor does not keep them.
- RegistryHistory.HistoryIsExact: follows version 2.0.0 of the contract; recovering the signer of a rotation proof is a parameter, and events are left out.
- PreBlockState.ContractInstalled: a contract whose address another entry of the phase writes as well is outside the statement; storage is said to be kept for a contract that has code.
- StateDb.CommitPointwise: committing belongs to the revm library, which is not part of this model; it is modelled from the account flags, with state clearing on.
- T8n.RunTransition: state roots, bloom filters and log hashes computed after the loop; the 64-bit total is modelled as wrapping, as in a release build.
- TestRunner.RunTestWorker: a worker alone on the queue; several workers, and a panic in the debug re-run, are in the transition system.
- TestRunner.VerdictExact: a failure to spawn a thread or a poisoned lock is not modelled; every access to shared state is one atomic step.
- OpcodeGas.Aggregate: the per-opcode dictionary holds statistics as values instead of references to `StatsCell` objects, blank lines are dropped and splitting a line into fields is not modelled.
- OpcodeGas.StreamMeaning: a trace that repeats a key of a record is outside the statement; the aggregator then starts a second record under the same index.
- Hardforks.MegaHardforkConfig.Insert: fork names stand for the boxed fork objects, and foreign forks are one constructor carrying their name.
- Access bitmaps are sets of access kinds; the bit layout is not modelled.
- Receipt encoding, transaction envelopes, DA size estimation, tries, hashing and signature recovery.
- Limit and context builder setters, chain schedules and constants, configuration copying.
- The command-line tools, RPC, tracing, fixture writing, benchmarks and timing.
