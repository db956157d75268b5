# Governance, dynamic fees and the v3 upgrade: a Dafny model

This project models the hard parts of the chain's own modules and proves properties of them:

- the life of a governance proposal as one state machine: `EndBlocker` of x/gov with its three
  time-ordered queues, the messages of the Steering and Oversight DAOs, submission, deposits and
  votes, whole runs of blocks, and genesis export and import;
- the generated protobuf codec of the dynamic-fee `State` and of `MsgAnnotateProposal`
  (Protocol Buffers "Encoding": sections "Base 128 Varints", "Packed Repeated Fields",
  "Last One Wins" and "Groups");
- the fixed-point arithmetic of the dynamic-fee check, the fund conversion of the v3 upgrade,
  and the vote-stake gate.

Check the project with `dafny verify dfyconfig.toml`.

## How the files fit together

| files | what they hold |
|---|---|
| Options, GovTypes, GovQueue, GovStore | the data, key order and live iterators, keeper operations as functions |
| GovEndBlock, GovInvariants, GovBlock, GovScan, GovFate | EndBlock as three folds; invariants; what a pass and a block do, as a whole and to each proposal |
| GovMoney, GovFlows, GovSolvency | where coins go, per settlement, per block, per run |
| GovHalts, GovRoom, GovPanics, GovPanicExamples | exactly when a block panics, when none does, and stores and runs on which it does |
| CoreDaos, GovTx, GovSteps | DAO messages, submission, deposit and vote; what any transaction can do to a proposal |
| GovChecks, GovRuns, GovHistory, GovCheckCounts, GovRechecks, GovDeadlines, GovBounds | runs: safety, finality, what happened to a proposal, number of checks, their repetition and the late quorum, liveness, deadline |
| GovGenesis, GovGenesisLoops | export and import |
| GovKeeper, CoreDaosServer | the keeper and the DAO message server as objects changed in place, proved against the functions above |
| ProtoWire, WireFields, WireWriter, WireNumbers | varints, tags, skipping; the backwards writer; what numbers, tags and skipped fields mean |
| DynamicFeeState, StateMessage, StateBytes, AnnotateProposal, AnnotateBytes | the two messages; their bytes, field by field |
| LegacyDec, DynamicFee | 18-decimal arithmetic; fee check, priority, conversion |
| UpgradeV3, VoteGate | the fund conversion; the vote-stake gate |

The governance store is a value (`Store`); a class method is proved to take its object from the
store it stands for to the store the function gives. A panic outside message execution sets
`halted`. The world around x/gov (other modules' state, the gov account, all accounts, the supply)
is a value too, and the code that is not modelled (staking, the inside of the tally, message handlers,
the deposit throttlers, hooks) is an `Env` of functions on it.

## Assumptions, and what happens without them

- Queue iterators include the block time itself (the end of the range is the prefix end of the
  time's key).
- `PositiveQuorum`: the required quorum is positive. A veto deletes the votes of a proposal but not
  its quorum entry, so with a quorum range that reaches zero a vetoed proposal can come back into
  the active queue: `VetoedReentersIff` gives the exact condition and `VetoedReentersExample` a store.
- `ParamsOk`: what the queues need of the parameters; every set that ValidateBasic accepts
  (x/gov/types/v1/params.go:319-356) meets it, and an update that does not meet it changes nothing.
- `Roomy`: a nanosecond for each quorum check, which validation does not demand. Only the statements
  that no block or run panics need it: a check that is to be repeated divides by zero exactly when the
  time from its entry's timeout to the current end of the vote is shorter than its count (`QuorumStepHaltsIff`), and
  `TightParametersPanicExample` is a run under validated parameters in which one does.
- `DaoParamsOk`: the extension duration is positive, as x/coredaos validates.
- `Solvent` and `Spares`: the gov account covers the deposits, and messages of a passed proposal do not
  spend from it. Only the statements that no block or run panics need these. The gov account signs
  those messages, so the code itself does not rule such spending out: `EndBlockHaltsIff` states
  exactly when a block panics, `EndBlockSolventIff` exactly when the account still covers the deposits
  after one that does not, and `DrainedAccountExample` is a store on which a block panics.
- Transactions of other modules do not spend from the gov account, which only x/gov and the messages of
  passed proposals can do (`Allowed`).
- `Banked`: messages and hooks mint and burn only through the supply, as the bank does. Only the
  statements about the supply need it.
- A transaction that panics changes nothing, since the panic is recovered; in EndBlock it is not, and
  the chain stops. What is proved of states with `halted` set then has no counterpart.
- Times and durations are unbounded integers of nanoseconds.

## Where code and documentation disagree

- x/gov/README.md and docs/architecture/adr-001-late-quorum-extension.md give the check interval as
  (VotingPeriod - QuorumTimeout) / QuorumCheckCount. The code divides the time from the entry's
  timeout to the proposal's current end, which a DAO may have moved, and skips intervals that are
  already over; the model follows the code.
- The comment at x/gov/keeper/deposit.go:145-146 says a zero ratio skips the deposit check; the
  condition below it makes the check then too, and makes the skip flag ineffective otherwise
  (`SkipHasNoEffect`, `ZeroRatioStillChecked`).
- The comment at x/gov/keeper/proposal.go:174-177 says that deletion searches the quorum-check queue
  from the start of the voting on; the iteration it starts goes up to that time instead, and so
  misses every entry that lies later (`DeleteLeavesEntryIff`). EndBlocker deletes
  only proposals in deposit period, which have no entry, so no run reaches this.
- x/gov/genesis.go compares the gov account with the deposits for equality, while
  x/gov/keeper/invariants.go:40-43 allows for outside funds: a chain that received some does not
  import (`ExportThenImport`). The counters of open proposals are neither exported nor restored
  (`CountersLost`). Entries of the quorum-check queue are rebuilt under the parameters in force, and
  need not fit a vote that began under others (`ImportedQuorumQueueIff`, `MisfitExample`).

## Model

| member | source | states |
|---|---|---|
| `GovScan.EndBlockIsScan` | x/gov/abci.go:27-239 | From every store that meets the invariants, the queue-driven EndBlock computes the same store as a scan over all proposals: deposit periods that are over, then voting periods that are over after the quorum checks, each in order of end time and id. |
| `GovScan.EndBlockInv` | x/gov/abci.go:18-243 | A block keeps all invariants (queues are the indexes of the proposals, counters their sizes, quorum entries well placed, votes only where there was voting, deposits only of open proposals and adding up to their totals), whatever its messages do; afterwards no key of any of the three queues is at or before the block time. |
| `GovFate.DepositFate` | x/gov/abci.go:27-66 | A proposal whose deposit period is over starts voting if its total reaches the minimum in force at its turn (the last one stored, or the floor while none is): voting from now for the voting period, with its deposits, without votes, and with one fresh entry at the quorum timeout if that is positive and checks are to be made (FirstCheckAtOnce has the other case); otherwise it vanishes with deposits, votes and entries. One whose deposit period is not over is left exactly as it was. |
| `GovFate.MinimumAtTurn` | x/gov/abci.go:27-34 | The minimum deposit turn by turn in the inactive pass: the first due proposal finds the stored one, and each one that reaches it makes the throttle, given one more active proposal, set the one that the next finds. |
| `GovScan.MinimumAfterBlock` | x/gov/abci.go:242 | After a block the stored minimum deposit is what the throttle made of the one the activations left, given the number of proposals still voting and the elapsed-time flag. |
| `GovSteps.DepositAfterBlock` | x/gov/keeper/min_deposit.go:76-87 | The next deposit after a block reads that value: it starts the vote if and only if the total reaches it, or reaches the floor while it is empty. |
| `GovSteps.NewParamsWhole` | x/gov/keeper/msg_server.go:188-196 | A parameter update first stores the minimum deposit that was in force, the floor of the old parameters if none was stored. |
| `GovFlows.DropPays` | x/gov/abci.go:36-43 | When a proposal below the minimum is dropped, every depositor gets exactly its deposit back, or nobody does and the supply falls by their sum, as the parameter says. |
| `GovFate.VotingFate` | x/gov/abci.go:69-239 | A voting proposal's end may be moved to now plus the extension by a late quorum, never back; then it is closed without deposits and entries if that end has come, and otherwise keeps its votes, its deposits and everything else of itself. |
| `GovFate.ClosedFate` | x/gov/abci.go:69-239 | A proposal that is neither in deposit nor in voting period, vetoed ones included, comes out of a block unchanged. |
| `GovFate.VerdictExact` | x/gov/abci.go:148-220 | Rejected exactly when the tally does not pass; passed exactly when it passes, every message unpacks and the handlers succeed one after the other starting from the world with settled deposits, and then the world is the end of that chain; failed otherwise, with no trace of the messages. |
| `GovFate.ClosedByTally` | x/gov/abci.go:148-219 | A vote whose end has come is closed by one tally of its own stored votes in the world that the due proposals before it left: it gets the tally's result, is rejected exactly if that does not pass, and keeps no deposits and no votes, except that a tally that stops with an error leaves the votes it had not deleted. |
| `GovEndBlock.AllOrNothing` | x/gov/abci.go:173-208 | The messages of a passed proposal are all or nothing: Passed if and only if a chain of successful handler results exists, the world is its last element, and the world is untouched in every other case. |
| `GovEndBlock.RunMessagesIff` | x/gov/abci.go:177-190 | The handler loop succeeds exactly when such a chain exists, and every chain ends in the loop's result. |
| `GovEndBlock.NextCheckIsFirstAfterNow` | x/gov/abci.go:107-122 | The rescheduled time is min(VotingEndTime, endTime + k*t) for the least k >= 1 that lies after the block time, found for every gap since the last block; it is always in the future. |
| `GovEndBlock.NextCheckPanicsIff` | x/gov/abci.go:109-117 | The interval division panics if and only if the period from quorum timeout to voting end holds fewer nanoseconds than the check count. |
| `GovEndBlock.NextCheckPanicExample` | x/gov/abci.go:109-117 | A concrete entry, two checks in a period of one nanosecond, on which the reschedule divides by zero. |
| `GovPanics.QuorumStepHaltsIff` | x/gov/abci.go:70-127 | A due quorum check panics if and only if quorum is not reached, checks are left, the vote is not over and from the entry's timeout to the end of the vote there are fewer nanoseconds than checks. |
| `GovPanicExamples.TightParametersPanicExample` | x/gov/types/v1/params.go:319-356 | A run from a new chain on under parameters that validation accepts: one proposal is submitted with the minimum deposit, nobody votes, and the block at its quorum timeout panics. |
| `GovRechecks.FailedCheckIsRepeated` | x/gov/abci.go:106-124 | A due check without quorum, with checks left and the vote going on, leaves exactly one entry of the proposal: at the first point after now of the grid that starts at the check and steps by (end - timeout) / count, or at the end if that is earlier, with one check more counted; nothing else in the store changes. |
| `GovRechecks.LateQuorumMovesEnd` | x/gov/abci.go:88-104 | A quorum found at a check that is not the first removes the entry and moves the end, in proposal and active queue, to now plus the extension if that is later; nothing else changes. |
| `GovRechecks.OtherChecksEnd` | x/gov/abci.go:73-127 | An error, a quorum at the first check, and a failed check that is the last or comes after the vote only remove the entry. |
| `GovRechecks.BlockRepeatsCheck` | x/gov/abci.go:69-145 | The same for a whole block: after a failed due check the voting proposal is as it was and its one entry is the next check, in the future and within the vote. |
| `GovRechecks.BlockLateQuorum` | x/gov/abci.go:69-145 | After a block whose due check, not the first, finds a quorum, no entry is left and the end is the later of itself and now plus the extension; the proposal is closed if that has come. |
| `GovRechecks.BlockEndsChecks` | x/gov/abci.go:69-145 | After a block whose due check is in error, finds a quorum at once, or fails as the last one, no entry is left and the end is unmoved. |
| `GovRechecks.FirstCheckAtOnce` | x/gov/abci.go:69-145 | With a quorum timeout of zero, a proposal activated in a block is checked in that block: its entry is gone if the quorum cannot be computed and otherwise waits at the first grid point after the block with one check counted. |
| `GovRechecks.EntryWhileNotReached` | x/gov/abci.go:106-124 | Over every run in which no check of the proposal finds a quorum, a proposal that is still voting has its entry as long as checks are left: after n more checks exactly the old entry with n more counted, and none once that exceeds the count. |
| `GovRechecks.LateQuorumExtends` | x/gov/abci.go:88-104 | After every such run, the first due check that finds a quorum ends the checks; if any check came before it, the vote ends no earlier than now plus the extension in force, and otherwise its end is unmoved. |
| `GovBlock.QuorumPassAt` | x/gov/abci.go:69-145 | The pass over the quorum queue does to each due proposal exactly what one check in the initial store would do, although other checks run before it. |
| `GovBlock.QuorumPassInv` | x/gov/abci.go:69-145 | The quorum pass keeps the invariants, leaves every key after the block time, and does not touch accounts or parameters. |
| `GovBlock.InactivePassTurn` | x/gov/abci.go:27-66 | The pass over the inactive queue finds the i-th due proposal untouched and does to it what its own step does; later steps leave it alone. |
| `GovBlock.ActivePassTurn` | x/gov/abci.go:148-239 | The same for the pass over the active queue. |
| `GovBlock.ActivePassAt` | x/gov/abci.go:148-239 | Every due voting proposal ends closed, with no deposits, and differs from before only in status and tally. |
| `GovBlock.EffectLocal` | x/gov/abci.go:75-127 | What a quorum check does depends only on its proposal, that proposal's entries, votes and deposits, the world and the parameters. |
| `GovInvariants.QuorumStepInv` | x/gov/abci.go:73-127 | One quorum check keeps every invariant, including the indexes it edits when it moves an end. |
| `GovInvariants.ActiveStepInv` | x/gov/abci.go:151-220 | One tally keeps every invariant and takes exactly its key out of the active queue. |
| `GovInvariants.InactiveStepInv` | x/gov/abci.go:30-45 | One step of the inactive pass keeps every invariant and takes exactly its key out of the inactive queue. |
| `GovInvariants.ActivateInv` | x/gov/keeper/proposal.go:287-307 | ActivateVotingPeriod keeps every invariant for a proposal in its deposit period; the new quorum-check entry fits its voting period. |
| `GovInvariants.EffectIsOk` | x/gov/abci.go:106-124 | On a well-placed entry a check never panics, and a rescheduled key lies after the block time and not after the end of the vote. |
| `GovInvariants.VetoedNotReached` | x/gov/keeper/tally.go:75-122 | With a positive required quorum, a vetoed proposal, which has no votes left, is never found to have reached it. |
| `GovStore.NoVotesQuorum` | x/gov/keeper/tally.go:75-122 | Without votes the quorum is reached if and only if tokens are bonded and the required quorum is not positive. |
| `GovStore.QuorumIsShare` | x/gov/keeper/tally.go:75-122 | Nothing bonded is no quorum; an unknown bonded amount or power is an error; otherwise the quorum is reached exactly if the required one is at most q, the total power over the bonded tokens rounded to the nearest 18th decimal; all bonded tokens give exactly one. |
| `GovStore.TotalPowerIsSum` | x/gov/keeper/tally.go:139-206 | The total voting power is the sum of the voters' powers, each counted once in whatever order, or an error if one is not found. |
| `GovStore.MorePowerKeepsQuorum` | x/gov/keeper/tally.go:75-122 | More voters, more power of each and a lower requirement never turn a reached quorum into one that is not. |
| `GovStore.TotalPowerRemove` | x/gov/keeper/tally.go:151-181 | The total voting power, errors included, does not depend on the order of the voters. |
| `GovQueue.LiveNext` | x/gov/keeper/keeper.go:187-241 | While the queue is edited, the live iterator is valid exactly while keys remain, and its next key is the first of the remaining snapshot. |
| `GovQueue.LiveStep` | x/gov/keeper/keeper.go:187-241 | After a step that edits the queue only at or before the current key or beyond the bound, the keys ahead are the rest of the snapshot: the live iterator visits the same entries. |
| `GovQueue.DueKeys` | x/gov/keeper/keeper.go:244-259 | The bounded iterators cover exactly the keys up to and including the given time, in key order. |
| `GovQueue.DueKeysInOrder` | x/gov/keeper/keeper.go:244-259 | The keys come by time and, where times are equal, by proposal id; each due key comes once. |
| `GovKeeper.Keeper.EndBlock` | x/gov/abci.go:18-243 | The three iterations over the queues they edit bring the keeper to the store EndBlock specifies, with invariants kept and nothing due left. |
| `GovKeeper.Keeper.IterateInactive` | x/gov/keeper/keeper.go:206-221 | The live iteration over the inactive queue equals the fold over the keys due when it starts. |
| `GovKeeper.Keeper.IterateQuorumChecks` | x/gov/keeper/keeper.go:225-241 | The live iteration over the quorum queue, which re-inserts entries while it runs, equals the fold over the keys due when it starts. |
| `GovKeeper.Keeper.IterateActive` | x/gov/keeper/keeper.go:187-202 | The live iteration over the active queue equals the fold over the keys due when it starts. |
| `GovKeeper.Keeper.OnInactive` | x/gov/abci.go:27-66 | The callback brings the keeper to the store the inactive step specifies. |
| `GovKeeper.Keeper.OnQuorumCheck` | x/gov/abci.go:70-145 | The callback, with its in-place edits of entry, active queue and proposal, brings the keeper to the store of the quorum step, which GovRechecks writes out case by case. |
| `GovKeeper.Keeper.OnActive` | x/gov/abci.go:148-239 | The callback brings the keeper to the store the tally step specifies. |
| `GovKeeper.Keeper.NextQuorumCheck` | x/gov/abci.go:107-122 | The reassigned next-check time is the specified one, division by zero included. |
| `GovKeeper.Keeper.ExecuteMessages` | x/gov/abci.go:173-208 | The loop over the messages on a cache, with its break and write-back, leaves status and world as specified. |
| `GovKeeper.Keeper.RefundAndDeleteDeposits` | x/gov/keeper/deposit.go:221-235 | Iterating over and deleting the deposits pays every depositor back; it panics exactly if the funds run out. |
| `GovKeeper.Keeper.DeleteAndBurnDeposits` | x/gov/keeper/deposit.go:61-75 | Iterating over and deleting the deposits burns precisely their sum. |
| `GovKeeper.Keeper.DeleteVotes` | x/gov/keeper/vote.go:131-137 | Exactly the proposal's votes are gone. |
| `GovKeeper.Keeper.ActivateVotingPeriod` | x/gov/keeper/proposal.go:287-307 | The keeper reaches the store activation specifies: both queues, both counters, quorum entry, minimum deposit. |
| `GovKeeper.Keeper.DeleteProposal` | x/gov/keeper/proposal.go:161-190 | The keeper reaches the store deletion specifies, from its deposit-period branch as from its voting branch with the live iteration that stops at the first entry of the proposal. |
| `GovPanicExamples.DeleteLeavesEntryIff` | x/gov/keeper/proposal.go:171-187 | Deleting a proposal leaves its quorum-check entry in the queue if and only if the entry lies after the start of the voting, and the check of an entry it leaves panics. |
| `GovKeeper.Keeper.HasReachedQuorum` | x/gov/keeper/tally.go:75-122 | The lookups and the loop over the votes give the quorum check that QuorumIsShare and TotalPowerIsSum describe, errors included. |
| `GovKeeper.Keeper.VotingPower` | x/gov/keeper/tally.go:139-206 | The loop over the voters returns their total power, or stops at an error exactly if there is one. |
| `GovKeeper.Keeper.SubmitProposal` | x/gov/keeper/proposal.go:89-106 | The keeper reaches the store a submission specifies and returns the new id. |
| `GovKeeper.Keeper.AddDeposit` | x/gov/keeper/deposit.go:115-218 | The method accepts, refuses and changes the store as the deposit of DepositWhole and DepositRefusals does. |
| `GovKeeper.Keeper.ThresholdMet` | x/gov/keeper/deposit.go:147-173 | The loop with its break finds whether one denom of the minimum deposit reaches its share. |
| `GovKeeper.Keeper.AddVote` | x/gov/keeper/vote.go:16-35 | A vote is recorded exactly while the proposal is voting. |
| `CoreDaos.ExtendExact` | x/coredaos/keeper/msg_server.go:234-303 | An extension is granted if and only if an address is configured, the sender is one of the two, the proposal is voting and the limit is not reached; then only end, counter of extensions and active queue change, and the invariants hold. |
| `CoreDaos.VetoExact` | x/coredaos/keeper/msg_server.go:330-391 | A veto is granted exactly to the configured Oversight DAO for a voting proposal; the whole store after it: vetoed with an empty tally, out of the active queue and counter, the minimum deposit throttled for one proposal less, no votes or deposits of the proposal left and all others kept, deposits settled, quorum-check entry untouched. |
| `CoreDaos.VetoMoney` | x/coredaos/keeper/msg_server.go:374-378 | A veto that does not panic takes out of the gov account exactly the proposal's total deposit, and out of the supply the same if it is to be burnt. |
| `CoreDaos.AnnotateExact` | x/coredaos/keeper/msg_server.go:78-133 | An annotation is accepted if and only if the Steering DAO is set and sends it, the proposal is voting, and it has none or may be overwritten; nothing else changes. |
| `CoreDaos.EndorseExact` | x/coredaos/keeper/msg_server.go:156-209 | An endorsement is accepted exactly from the configured Steering DAO for a voting proposal without one, and sets the flag and nothing else. |
| `CoreDaos.DaoRefusals` | x/coredaos/keeper/msg_server.go:83-128 | Each of the four DAO messages is refused as disabled, for its sender, for an unknown and for an inactive proposal exactly when that is the first guard to fail, and otherwise only with the error of its own. |
| `GovHistory.EndorsedOnce` | x/coredaos/keeper/msg_server.go:156-209 | Over any run the endorsed flag at the end is the flag at the start plus the number of accepted endorsements: at most one is ever accepted, none of an endorsed proposal, and nothing else sets or clears the flag. |
| `GovHistory.NeverEndorsedAgain` | x/coredaos/keeper/msg_server.go:191-195 | After any run from an endorsed proposal and any further transactions it is still endorsed and every endorsement is refused, with its own error if the Steering DAO sends it during the vote. |
| `CoreDaos.VetoedReentersIff` | x/coredaos/keeper/msg_server.go:379-388 | A vetoed proposal keeps its quorum entry; its due check puts it back into the active queue if and only if tokens are bonded, the required quorum is not positive, the check is not the first, and now plus the extension is later than its end. |
| `CoreDaos.VetoedReentersExample` | x/gov/abci.go:88-104 | A concrete store that meets the invariants in which a vetoed proposal re-enters the active queue. |
| `CoreDaosServer.MsgServer.ExtendVotingPeriod` | x/coredaos/keeper/msg_server.go:234-325 | The handler, editing queue and proposal through the keeper, answers and changes it as specified; a refusal changes nothing. |
| `CoreDaosServer.MsgServer.VetoProposal` | x/coredaos/keeper/msg_server.go:330-410 | The same for a veto. |
| `CoreDaosServer.MsgServer.AnnotateProposal` | x/coredaos/keeper/msg_server.go:78-151 | The same for an annotation. |
| `CoreDaosServer.MsgServer.EndorseProposal` | x/coredaos/keeper/msg_server.go:156-227 | The same for an endorsement. |
| `GovMoney.RefundExact` | x/gov/keeper/deposit.go:221-235 | Whenever the gov account can pay the proposal's deposits, every account gets exactly what it deposited on it, out of the gov account; the records of that proposal, and only those, go; the total of all coins stays. |
| `GovMoney.BurnExact` | x/gov/keeper/deposit.go:61-75 | Whenever the gov account can pay them, supply, gov account and recorded deposits all fall by exactly the proposal's deposits; no account changes. |
| `GovMoney.SettlePays` | x/gov/keeper/deposit.go:221-235 | Settling pays each depositor of the proposal its own deposit and nobody else, or burns their sum; the account falls by the sum, other state is untouched. |
| `GovMoney.SettleHaltsIff` | x/gov/keeper/deposit.go:65-68 | Settling panics if and only if the gov account holds less than the proposal's deposits. |
| `GovPanics.ActivePassHaltsIff` | x/gov/abci.go:148-172 | The active pass panics if and only if some due proposal, at its turn, is owed more than the gov account then holds. |
| `GovPanics.InactivePassHaltsIff` | x/gov/abci.go:27-45 | The inactive pass panics if and only if it drops a proposal that, at its turn, is owed more than the gov account then holds. |
| `GovPanics.QuorumPassHaltsIff` | x/gov/abci.go:69-127 | The quorum pass panics if and only if one of its due checks, looked at in the store the pass starts from, divides by zero. |
| `GovPanics.EndBlockHaltsIff` | x/gov/abci.go:18-243 | For every store that meets the invariants, EndBlock panics if and only if one of its drops or tallies finds too little in the gov account at its turn or one of its quorum checks divides by zero. |
| `GovPanics.EndBlockSolvent` | x/gov/abci.go:18-243 | If the gov account covers the deposits, messages do not spend from it, and there is a nanosecond for every quorum check, a block does not panic and leaves things so. |
| `GovPanics.NoRunPanics` | x/gov/keeper/invariants.go:28-49 | Under the same conditions, with parameter updates that leave a nanosecond for each check, no run panics, and the gov account covers all stored deposits in every reachable state. |
| `GovRoom.EndBlockRoom` | x/gov/abci.go:69-127 | If parameters and entries leave a nanosecond for every check, the entries still do after a block, whatever it does to the ends of the votes, and its quorum checks do not panic. |
| `GovPanicExamples.DrainedAccountExample` | x/gov/abci.go:167-190 | A store that meets the invariants and covers its deposits on which EndBlock panics: two proposals have the votes to pass, and the first one's message sends away what the gov account holds before the second one's tally. |
| `GovFlows.InactivePassFlow` | x/gov/abci.go:27-45 | An inactive pass that does not panic takes out of the gov account exactly the deposits of the proposals it drops, and out of the supply the same if they are to be burnt; the books stay right. |
| `GovFlows.EndBlockFlow` | x/gov/abci.go:18-243 | A block that does not panic, whatever its messages do: the gov account changes by exactly what the stored deposits change, plus and less what messages and hooks put in and take out after each settlement; the supply falls by exactly the burnt deposits, apart from what they mint and take. |
| `GovFlows.EndBlockSolventIff` | x/gov/abci.go:18-243 | After a block that does not panic the gov account covers the deposits if and only if the deposits before it and what was spent do not exceed what the account held and gained. |
| `GovFlows.EndBlockMoney` | x/gov/abci.go:18-243 | If messages and hooks leave the gov account alone, what it holds beyond the stored deposits is the same before and after the block. |
| `GovFlows.ActivePassFlow` | x/gov/abci.go:148-239 | The same for the active pass: per due proposal its total deposit, burnt if the tally at its turn says so, and what its messages and hooks then do to gov account and supply. |
| `GovSolvency.RunAccounted` | x/gov/abci.go:18-243 | Over any run that does not panic, vetoes and other modules' transactions included: the exact change of the gov account, the exact condition under which it covers the deposits in the end, and, if the bank keeps its books, the exact change of the supply. |
| `GovSolvency.AccountIsDepositsAndGifts` | x/gov/keeper/invariants.go:28-49 | From a store without deposits and an empty gov account on, as long as no block panics, the account holds exactly the stored deposits plus what it gained less what it spent; if messages and hooks leave it alone, the deposits and the gifts from outside. |
| `GovTx.DepositedExact` | x/gov/keeper/deposit.go:176-215 | A deposit moves exactly its amount from the depositor to the gov account and into the depositor's record, also when it starts the vote. |
| `GovTx.DepositWhole` | x/gov/keeper/deposit.go:115-218 | The whole store after an accepted deposit: total, record and coins by the amount; and the vote starts, with times, both queues, both counters, a fresh quorum-check entry and the throttled minimum, if and only if the proposal is in its deposit period and the total reaches the minimum in force, the last one stored or the floor while none is. |
| `GovTx.DepositRefusals` | x/gov/keeper/deposit.go:115-179 | Exactly when a deposit is refused and why, in the order of the checks; too small means that in every denom one unit more would still not exceed the ratio's share of the minimum in force. |
| `GovTx.SubmissionWhole` | x/gov/keeper/proposal.go:89-106 | The whole store after an accepted submission: the next id, nothing stored under it before, a deposit period of the length in force, the deposit recorded and paid, and a vote that starts at once if and only if the deposit reaches the minimum in force. |
| `GovTx.SubmissionRefusals` | x/gov/keeper/msg_server.go:38-80 | Exactly when a submission is refused: a deposit below the initial minimum, or refused as a deposit. |
| `GovTx.CastVoteExact` | x/gov/keeper/vote.go:16-35 | A vote is accepted exactly while its proposal is voting; it replaces the voter's earlier vote and changes no other. |
| `GovTx.DepositInv` | x/gov/keeper/deposit.go:115-218 | AddDeposit keeps every invariant. |
| `GovTx.SubmitInv` | x/gov/keeper/proposal.go:89-106 | SubmitProposal keeps every invariant. |
| `GovTx.SkipHasNoEffect` | x/gov/keeper/deposit.go:145-147 | While the deposit ratio is not zero, asking to skip the ratio check has no effect. |
| `GovTx.ZeroRatioStillChecked` | x/gov/keeper/deposit.go:145-174 | With a zero ratio a plain deposit on a proposal below the minimum is refused if and only if it brings no denom of the minimum deposit: the check the comment calls skipped is made. |
| `GovSteps.ApplyInv` | x/coredaos/keeper/msg_server.go:284-388 | Every transaction (submission, deposit, vote, the four DAO messages, updates to any validated parameters, other modules' transactions) keeps every invariant. |
| `GovSteps.ApplyVoting` | x/coredaos/keeper/msg_server.go:295-303 | The only things a transaction can do to a voting proposal's status, end or entries: veto it, or move its end once by the configured duration below the limit. |
| `GovSteps.ApplyFrame` | x/coredaos/keeper/msg_server.go:284-388 | A transaction aimed at one proposal leaves proposal, entries, votes and deposits of every other unchanged. |
| `GovRuns.EmptyGood` | x/gov/genesis.go:16-57 | The store of a new chain is a good start for a run: it meets every invariant and covers its deposits. |
| `GovRuns.StepGood` | x/gov/abci.go:18-243 | A block of any transactions followed by EndBlock keeps all invariants and leaves nothing due. |
| `GovRuns.QueuesInEveryRun` | x/gov/abci.go:97-104 | In every state a run can reach, the active queue is exactly {(VotingEndTime, id) : voting}, the inactive queue exactly the deposit periods by their ends, each id occurs once, both counters are the sizes, and nothing due is left. |
| `GovRuns.EntriesInEveryRun` | x/gov/abci.go:69-124 | In every reachable state each quorum entry lies after the last block and not after its proposal's end, with checks done within the count, one at most a proposal, and never for a closed one. |
| `GovRuns.FinalForever` | x/coredaos/keeper/msg_server.go:379-388 | A passed, rejected, failed or vetoed proposal never changes again in any run and is never active again. |
| `GovHistory.EndNeverMovesBack` | x/gov/abci.go:91-104 | Over any run, whatever its transactions and checks, parameter changes included, the end of a voting proposal never moves back, its extensions are never forgotten, and it never returns to its deposit period. |
| `GovDeadlines.EveryVoteEnds` | x/gov/abci.go:148-239 | In every endless run whose block times grow beyond all bounds, every voting proposal leaves the voting period, however often the DAO parameters change, as long as their limit of extensions stays below some bound. |
| `GovHistory.BlockVoting` | x/gov/abci.go:88-104 | One block, parameter updates included, moves a voting proposal's end by exactly the sum of the durations in force at each granted extension, or to now plus the extension by a late quorum, which is later still, needs a due check and leaves the proposal without an entry; its extensions grow by exactly the number granted. |
| `GovBounds.VotesEndByDeadline` | x/coredaos/keeper/msg_server.go:284-303 | With fixed parameters and blocks at most gap apart, a voting proposal's end never exceeds end + (extensions left)*duration + (gap + quorum extension, while an entry is left), so it has stopped voting once a block reaches that time. |
| `GovHistory.OnlyDaosAfterLateQuorum` | x/gov/abci.go:91-104 | Over any run, once its entry is gone a proposal's end is moved by granted extensions only: it is the old end plus the sum of the durations in force at each grant, and the counter of extensions grows by their number. |
| `GovCheckCounts.LateQuorumOnce` | x/gov/abci.go:84-104 | In any run, whatever its parameter changes, at most one late quorum is found for a proposal. |
| `GovCheckCounts.ChecksWithinAllowance` | x/gov/abci.go:69-127 | Over any run, parameter changes included, the checks a started proposal gets plus those it still has never exceed those its entry had; late quorums likewise, of which it has one while it has an entry. |
| `GovCheckCounts.CountPlusOneChecks` | x/gov/abci.go:106-124 | A proposal that has not started voting is checked, over any run, at most QuorumCheckCount + 1 times for the count in force at the transaction or block that starts its vote; not at all if the count is zero or it never starts. |
| `GovChecks.EntriesAfterChecks` | x/gov/abci.go:73-127 | A due check uses up one of the entry's checks; a late quorum leaves no entry; no entry comes from nowhere. |
| `GovGenesis.ExportThenImport` | x/gov/genesis.go:16-111 | Export then import restores proposals, deposits, votes, parameters, minimum deposit and both proposal queues; it succeeds if and only if the gov account holds exactly the deposits and no quorum it has to compute fails. |
| `GovGenesis.ImportSucceedsIff` | x/gov/genesis.go:16-111 | The import succeeds exactly if the gov account holds what was deposited and the quorum of every voting proposal whose timeout, counted from its start, has passed can be computed; the minimum deposit that was in force comes back with the time of the export. |
| `GovGenesis.ImportedEntries` | x/gov/genesis.go:66-85 | The import creates a quorum entry, at the quorum timeout, for exactly the voting proposals whose timeout has not passed or whose quorum is not reached, counted as checked once after the timeout. |
| `GovGenesis.ImportedQuorumQueueIff` | x/gov/genesis.go:66-85 | Over the voting proposals of the exported store whose timeout has not passed or whose quorum is not reached on the new chain: the import meets the quorum-queue invariant if and only if the timeout in force lies within each vote, and leaves a nanosecond for each check if and only if timeout and count fit. |
| `GovGenesis.MisfitExample` | x/gov/genesis.go:66-85 | A store whose parameters changed during a vote: the import succeeds and makes an entry for a time after the end of the vote. |
| `GovGenesis.CountersLost` | x/gov/genesis.go:57-87 | The counters come back as zero; they agree with the queues if and only if no proposal is open. |
| `GovGenesis.LostCounterPanics` | x/gov/keeper/min_deposit.go:41-49 | With the active counter at zero a tally panics, and with the inactive counter at zero so does the end of a deposit period. |
| `GovGenesis.CountersLostExample` | x/gov/genesis.go:16-111 | A concrete one-proposal chain whose export imports without error and then panics at its first tally. |
| `GovGenesis.ImportedInvButCounters` | x/gov/genesis.go:16-111 | Apart from the counters, a successful import meets every invariant again and covers all deposits, if the timeouts in force lie within the votes. |
| `GovGenesis.ImportBuilds` | x/gov/genesis.go:57-87 | The loop over the proposals, in any order, builds exactly the indexes and entries of the set of proposals. |
| `GovGenesis.ExportIsComplete` | x/gov/genesis.go:125-131 | Exporting deposits and votes proposal by proposal loses none. |
| `GovGenesisLoops.ExportGenesis` | x/gov/genesis.go:114-157 | The export loops list every proposal by ascending id, and every deposit and vote exactly once. |
| `GovGenesisLoops.InitGenesis` | x/gov/genesis.go:16-111 | The import loops bring the keeper to the specified store, balance check included. |
| `GovGenesisLoops.ImportOne` | x/gov/genesis.go:57-86 | One turn of the proposal loop brings the keeper to the specified store. |
| `ProtoWire.SovIsLength` | x/dynamicfee/types/genesis.pb.go:342-344 | For every value sov, computed as (Len64(v|1)+6)/7, is the number of bytes the encoder writes. |
| `ProtoWire.VarintRoundTrip` | x/dynamicfee/types/genesis.pb.go:295-305 | For every uint64 the encoder writes at most ten bytes, and reading them, whatever stands before and after, gives the value back and consumes exactly those bytes. |
| `ProtoWire.EncodeVarintAt` | x/dynamicfee/types/genesis.pb.go:295-305 | The in-place loop writes the encoding just below the offset, nothing else, and returns its first index. |
| `ProtoWire.ReadVarintLoop` | x/dynamicfee/types/genesis.pb.go:468-482 | The shift loop with its uint64 accumulator computes the specified number, next index or error on arbitrary bytes. |
| `ProtoWire.ShiftLeftTruncates` | x/dynamicfee/types/genesis.pb.go:478 | The shifted digit is the product modulo 2^64: at the tenth byte only one bit survives. |
| `WireNumbers.VarintMeaning` | x/dynamicfee/types/genesis.pb.go:468-482 | A varint is up to ten bytes, all but the last with the high bit set, read as base-128 digits with the least significant first, modulo 2^64; it fails exactly where ten bytes have the high bit set or the buffer ends before one has it clear. |
| `WireNumbers.EncodingMeaning` | x/dynamicfee/types/genesis.pb.go:295-305 | The encoded bytes are the number's base-128 digits, least significant first, with the high bit on all but the last and no digit too many. |
| `WireNumbers.TagMeaning` | x/dynamicfee/types/genesis.pb.go:483-492 | A tag's wire type is its low three bits, its number the rest cut to a signed 32-bit number; a group end and a number that is not positive are refused. |
| `WireNumbers.BoundsMeaning` | x/dynamicfee/types/genesis.pb.go:496-522 | A payload is refused exactly if its length or its end reaches 2^63 or its end passes the buffer. |
| `WireNumbers.SkipByWireType` | x/dynamicfee/types/genesis.pb.go:701-750 | What is skipped after a tag byte, by wire type: a varint, eight bytes, a length and that many bytes, a group, its end, four bytes; 6 and 7 are refused. |
| `WireFields.SkipLoop` | x/dynamicfee/types/genesis.pb.go:677-754 | The skip loop with its group depth reads only in bounds and computes the specified result on arbitrary bytes. |
| `WireFields.Skip` | x/dynamicfee/types/genesis.pb.go:677-754 | Every successful skip consumes at least one byte and returns a non-negative int. |
| `WireFields.SkipFieldLoop` | x/dynamicfee/types/genesis.pb.go:656-670 | The default case skips the specified field, with all its overflow and end checks. |
| `WireFields.SkipUnknown` | x/dynamicfee/types/genesis.pb.go:730-745 | Skipping leaves exactly at the end of an encoded unknown field; a group returns at its matching end, however deeply groups nest. |
| `WireFields.ReadTagLoop` | x/dynamicfee/types/genesis.pb.go:467-492 | The head of the field loop splits the tag with its int32 conversion and rejects group ends and non-positive numbers as specified. |
| `WireFields.ReadBoundsLoop` | x/dynamicfee/types/genesis.pb.go:496-522 | Length-delimited bounds are in range; both negative int conversions are rejected. |
| `WireWriter.PutPacked` | x/dynamicfee/types/genesis.pb.go:246-264 | The packed field is written through its ten-bytes-an-element scratch buffer without leaving bounds, and exactly below the offset. |
| `WireWriter.PackedFitsScratch` | x/dynamicfee/types/genesis.pb.go:248 | The scratch buffer of ten bytes an element never overflows. |
| `WireWriter.PutDelimited` | x/dynamicfee/types/genesis.pb.go:265-291 | Payload, length and tag are written backwards, exactly below the offset, leaving the rest of the buffer alone. |
| `DynamicFeeState.RoundTrip` | x/dynamicfee/types/genesis.pb.go:229-293 | Unmarshal of Marshal gives back every field of every State: appended to the window, in place of the scalars. |
| `StateBytes.DecimalByTag` | x/dynamicfee/types/genesis.pb.go:493-560 | Wherever it stands in a buffer, 0x0a with length and payload assigns the base gas price and 0x12 the learning rate, each and nothing else; an empty payload changes nothing and one that is no decimal is refused. |
| `StateBytes.WindowByTag` | x/dynamicfee/types/genesis.pb.go:561-636 | 0x1a with a packed payload appends its elements to the window, 0x18 with one element appends that; nothing else changes. |
| `StateBytes.IndexByTag` | x/dynamicfee/types/genesis.pb.go:637-655 | 0x20 with a number assigns the index and nothing else. |
| `StateBytes.WrongWireTypes` | x/dynamicfee/types/genesis.pb.go:488-496 | Every other one-byte tag of the four fields is refused for its wire type, a group end as such, and a tag without a number as illegal. |
| `StateBytes.FieldBetween` | x/dynamicfee/types/genesis.pb.go:464-676 | A field between any two decodable inputs does to the message what it does alone. |
| `StateBytes.StateInBytes` | x/dynamicfee/types/genesis.pb.go:244-293 | The encoding starts with 0x0a and the base gas price, goes on with 0x12 and the learning rate, 0x1a and the packed window unless it is empty, and 0x20 and the index unless it is zero. |
| `DynamicFeeState.UnmarshalConcat` | x/dynamicfee/types/genesis.pb.go:464-676 | Decoding a concatenation of two decodable inputs is decoding the second into the result of the first. |
| `DynamicFeeState.UnmarshalMerges` | x/dynamicfee/types/genesis.pb.go:464-676 | Each decodable input has one effect on any message, and a concatenation has the merge of the two: last scalar wins, windows append. |
| `DynamicFeeState.PackingIrrelevant` | x/dynamicfee/types/genesis.pb.go:561-636 | Packed, split-packed and unpacked windows decode alike. |
| `DynamicFeeState.UnknownFieldIgnored` | x/dynamicfee/types/genesis.pb.go:656-670 | A well-formed unknown field between two decodable inputs changes nothing. |
| `DynamicFeeState.PackedEndsInBounds` | x/dynamicfee/types/genesis.pb.go:616-636 | The element loop ends exactly at the end of the packed field if and only if the field's last byte ends a varint. |
| `DynamicFeeState.PackedOverrun` | x/dynamicfee/types/genesis.pb.go:616-636 | A concrete packed field whose last element takes a byte from behind the field. |
| `DynamicFeeState.NextField` | x/dynamicfee/types/genesis.pb.go:465-673 | The field loop has a real decreasing measure: every successful turn consumes at least one byte and stays in bounds. |
| `StateMessage.StateMessage.Marshal` | x/dynamicfee/types/genesis.pb.go:229-237 | Marshal allocates Size bytes and fills them exactly with the encoding. |
| `StateMessage.StateMessage.MarshalToSizedBuffer` | x/dynamicfee/types/genesis.pb.go:244-293 | The backwards writer fills the end of the buffer with the encoding and leaves the rest alone. |
| `StateMessage.StateMessage.Size` | x/dynamicfee/types/genesis.pb.go:319-340 | Size is the length of the encoding. |
| `StateMessage.StateMessage.Unmarshal` | x/dynamicfee/types/genesis.pb.go:464-676 | The field loop assigns the object's fields as specified, or reports the specified error. |
| `AnnotateProposal.RoundTrip` | x/coredaos/types/tx.pb.go:840-890 | Unmarshal of Marshal gives back every MsgAnnotateProposal. |
| `AnnotateBytes.StringByTag` | x/coredaos/types/tx.pb.go:1342-1433 | Wherever it stands, 0x0a with length and payload assigns the annotator, 0x1a the annotation, each and nothing else. |
| `AnnotateBytes.NumberByTag` | x/coredaos/types/tx.pb.go:1374-1453 | 0x10 with a number assigns the proposal id, 0x20 assigns to the overwrite flag whether the number is not zero. |
| `AnnotateBytes.WrongWireTypes` | x/coredaos/types/tx.pb.go:1337-1345 | Every other one-byte tag of the four fields is refused for its wire type, a group end as such, and a tag without a number as illegal. |
| `AnnotateBytes.FieldBetween` | x/coredaos/types/tx.pb.go:1313-1465 | A field between any two decodable inputs does to the message what it does alone. |
| `AnnotateBytes.MsgInBytes` | x/coredaos/types/tx.pb.go:855-890 | The encoding is 0x0a and the annotator, 0x10 and the proposal id, 0x1a and the annotation, 0x20 0x01 for the flag, in this order, without those that are empty, zero or false. |
| `AnnotateProposal.UnmarshalConcat` | x/coredaos/types/tx.pb.go:1313-1465 | Decoding a concatenation is decoding one part after the other. |
| `AnnotateProposal.UnmarshalMerges` | x/coredaos/types/tx.pb.go:1313-1465 | Each decodable input sets the same fields of any message, and in a concatenation the later value of a field wins. |
| `AnnotateProposal.UnknownFieldIgnored` | x/coredaos/types/tx.pb.go:1452-1465 | A well-formed unknown field between two decodable inputs changes nothing. |
| `AnnotateProposal.MsgAnnotateProposal.Marshal` | x/coredaos/types/tx.pb.go:840-848 | Marshal allocates Size bytes and fills them exactly with the encoding. |
| `AnnotateProposal.MsgAnnotateProposal.MarshalToSizedBuffer` | x/coredaos/types/tx.pb.go:855-890 | The backwards writer fills the end of the buffer with the encoding and leaves the rest alone. |
| `AnnotateProposal.MsgAnnotateProposal.Size` | x/coredaos/types/tx.pb.go:1173-1194 | Size is the length of the encoding. |
| `AnnotateProposal.MsgAnnotateProposal.Unmarshal` | x/coredaos/types/tx.pb.go:1313-1465 | The field loop assigns the object's fields as specified, or reports the specified error. |
| `DynamicFee.AcceptedIff` | x/dynamicfee/ante/fee.go:232-252 | A same-denom fee is accepted if and only if fee * 10^18 >= raw price * gas, exactly, for every price, fee and gas. |
| `DynamicFee.NegativeGasPanics` | x/dynamicfee/ante/fee.go:232-252 | For a gas value that turned negative as an int64, the check panics if and only if price * |gas| reaches one whole unit. |
| `DynamicFee.PriorityExact` | x/dynamicfee/ante/fee.go:267-290 | What the priority is: the effective price rounded down, its quotient by the gas price rounded half to even at the 18th decimal after 36 digits, times 10^6 without its fraction, between the two clamps. |
| `DynamicFee.PriorityClamps` | x/dynamicfee/ante/fee.go:284-288 | The priority is 2^63 - 1 exactly from one literal value of the 36-digit quotient of effective price and gas price on, and 0 exactly up to another, with the rounding at both. |
| `DynamicFee.PriorityNear` | x/dynamicfee/ante/fee.go:278-290 | Between the clamps the priority is 10^6 times the ratio of the fee to gas times price, at most 10^-12 above it, and below it by less than 1, 10^-12 and 10^6 over the raw price together. |
| `DynamicFee.PriorityUnpriced` | x/dynamicfee/ante/fee.go:269-276 | At a gas price of zero the priority is the fee, with a panic exactly above 2^63 - 1; without gas it is 0, and so it is for gas that turned negative. |
| `DynamicFee.AcceptedFeeHasFullPriority` | x/dynamicfee/ante/fee.go:267-290 | Every accepted fee with positive gas and price has a priority of at least 10^6. |
| `DynamicFee.FullPriorityIff` | x/dynamicfee/ante/fee.go:267-290 | The exact threshold of that priority for any fee, rounding and truncation included. |
| `DynamicFee.PriorityInRange` | x/dynamicfee/ante/fee.go:267-290 | With positive gas and price the priority is computed without panic and lies in [0, 2^63 - 1]. |
| `DynamicFee.PriorityMonotone` | x/dynamicfee/ante/fee.go:267-290 | The priority never falls with a higher fee and never rises with a higher gas limit or gas price, across both clamps; PriorityExact and PriorityNear say how large it is. |
| `DynamicFee.ConvertedFeeExact` | x/dynamicfee/ante/fee.go:163-169 | The converted fee is pay times the quotient of the two prices, rounded half to even at the 18th decimal after 36 digits, without its fraction. |
| `DynamicFee.ConvertedFeeNear` | x/dynamicfee/ante/fee.go:154-174 | The converted fee is within 1 + pay * 10^-18 of pay * base / min. |
| `DynamicFee.ConvertedFullPriorityIff` | x/dynamicfee/ante/fee.go:154-174 | A fee in another denom has a priority of at least 10^6 if and only if pay times the rounded quotient of the prices reaches the least full fee at the base price; below a base price of 2, if and only if its conversion would have been accepted in the base denom. |
| `DynamicFee.AcceptedConvertedFeeCanHaveNoPriority` | x/dynamicfee/ante/fee.go:154-174 | Acceptance in the paid denom is not enough: a concrete accepted fee whose converted amount and priority are zero. |
| `UpgradeV3.UpgradeExact` | app/upgrades/v3/upgrades.go:75-100 | On sound books both conversions succeed and take and give exact amounts: half of the pool's and nine tenths of the treasury's bond coins for photons at the rate of each conversion; the supply of the bond denom falls by just these, that of photons rises by just those, no other supply or account changes, and the pool stays covered. |
| `UpgradeV3.PoolExact` | app/upgrades/v3/upgrades.go:103-166 | The pool's conversion burns half of the pool's bond coins up to truncation, credits the pool with the photons minted for them at the rate, rounded down, denom by denom, and never makes the pool negative. |
| `UpgradeV3.TreasuryExact` | app/upgrades/v3/upgrades.go:169-229 | The treasury's conversion burns exactly nine tenths of its bond coins, rounded down, and gives it the photons at the rate, rounded to the nearest. |
| `UpgradeV3.PoolShareExact` | app/upgrades/v3/upgrades.go:121-122 | The converted half is (amount + 1) / (2 * 10^18), rounded down: half of the raw amount, half to even, truncated to whole coins, and never more than the pool holds. |
| `UpgradeV3.TreasuryShareExact` | app/upgrades/v3/upgrades.go:184 | The converted share is floor(9/10 of the balance). |
| `UpgradeV3.RateNear` | x/photon/keeper/keeper.go:55-65 | The rate is what is left to mint of 10^15 over the bond supply, rounded half to even at the 18th decimal; it is zero beyond 10^15, and the keeper panics exactly without a bond supply otherwise. |
| `UpgradeV3.SendExact` | app/upgrades/v3/upgrades.go:252-254 | A transfer succeeds exactly when the sender has the coins, touches no one else and keeps the books. |
| `UpgradeV3.SendFromPoolExact` | app/upgrades/v3/upgrades.go:234-261 | Sending from the community pool: nothing happens without a pool, one that holds too little is refused first, an account that holds too little next; otherwise exactly these coins leave account and pool for the receiver. |
| `UpgradeV3.App.SendCommunityPoolFunds` | app/upgrades/v3/upgrades.go:234-261 | The pool is reduced in a copy stored after the transfer; a negative pool or a short balance is the specified error. |
| `UpgradeV3.App.ConvertCommunityPoolFunds` | app/upgrades/v3/upgrades.go:103-166 | The sequence of transfers, mint, burn and pool writes has the specified outcome and final state. |
| `UpgradeV3.App.ConvertTreasuryFunds` | app/upgrades/v3/upgrades.go:169-229 | The same for the treasury. |
| `UpgradeV3.App.ConvertFundsToPhoton` | app/upgrades/v3/upgrades.go:75-100 | Both in order; on sound books it succeeds and leaves sound books. |
| `VoteGate.EnoughStake` | ante/gov_vote_ante.go:86-118 | The iteration with its early exit decides whether the first hundred delegations to existing validators reach the minimum. |
| `VoteGate.HundredCount` | ante/gov_vote_ante.go:22 | A sequence with at most 100 delegations to existing validators counts in full; after 100 of them no further one counts. |
| `VoteGate.MayVoteIff` | ante/gov_vote_ante.go:82-118 | An account may vote exactly if the minimum is zero, or positive and reached by the stake that counts, or negative and there is any delegation to an existing validator. |
| `VoteGate.ValidateVoteMsgs` | ante/gov_vote_ante.go:61-151 | The gate returns the first error among the direct and once-wrapped messages, and accepts if and only if each of them is no MsgVote or a MsgVote of an account with enough stake. |
| `VoteGate.TxPassesIff` | ante/gov_vote_ante.go:123-149 | A transaction passes exactly if each of its messages is no MsgVote or an allowed one, and in every authz wrapper each message unpacks and is no MsgVote or an allowed one. |
| `VoteGate.WeightedVotesPass` | ante/gov_vote_ante.go:66-83 | MsgVoteWeighted (x/gov/types/v1/tx.pb.go:383) is a vote the gate does not look at: taking those messages out of a transaction changes no verdict. |
| `VoteGate.GoneValidatorsDoNotCount` | ante/gov_vote_ante.go:94-96 | A delegation to a missing validator neither counts as stake nor uses up one of the hundred. |
| `VoteGate.WrappedTwicePasses` | ante/gov_vote_ante.go:123-135 | Whatever is wrapped twice is not looked at: a wrapper that holds only wrappers passes, votes and messages that do not unpack included. |

## Left out

- GovKeeper.Keeper.VotingPower: does not model how one voter's power comes from its delegations and validators, which is a function of the environment; only the sum over the voters and its errors are modelled.
- GovKeeper.Keeper.SubmitProposal: does not model the checks of metadata length, message signers and routes, or the trial execution of legacy content; what the method does after them is modelled in full.
- GovKeeper.Keeper.AddVote: does not model the checks of metadata length, options and weights; a vote's content is one value.
- GovGenesisLoops.ExportGenesis: does not model the constitution, the participation averages and the last minimum initial deposit, which are not part of the modelled state.
- GovGenesisLoops.InitGenesis: does not model the same three.
- StateMessage.StateMessage.Unmarshal: does not state which fields are already assigned when an error is returned; callers drop the message then.
- AnnotateProposal.MsgAnnotateProposal.Unmarshal: does not state which fields are already assigned when an error is returned.
- Minimum deposit and minimum initial deposit throttlers, participation averages, and the inside of Tally and of the quorum and threshold computation are functions of the environment.
- Messages of passed proposals act on the world, not on the gov store: parameter changes by proposal are transactions of their own in runs, and a message that submits, votes or vetoes from inside a proposal is not modelled.
- Authority checks of parameter updates, and the staking check on DAO parameter updates.
- Absent optional durations and coins in stored parameters and proposals, except the voting times.
- Hooks, events, logging, telemetry, gas, and bech32 parsing; a deposit made by the gov account itself.
- 64-bit saturation of time subtraction and addition, uint64 wrap-around of ids and counters, and the 315-bit overflow panics of LegacyDec.
- Coins are multisets of denoms, so sorting, validity checks and zero coins of sdk.Coins are not seen; the order of addresses within a proposal's deposits and votes is arbitrary.
- LegacyDec's own Marshal and Unmarshal are an arbitrary lawful codec; the other generated messages repeat the same template.
- The rest of the fee decorator: which coin is charged, fee grants and the deduction itself.
- Locked (vesting) coins and send restrictions of the bank in the v3 conversion; a vote by an account whose delegations cannot be iterated is an error of its own kind.
- App wiring, CLI, queries, simulation and the remaining upgrade handlers.
