# Nova Rewards: a verified model of points, money contracts and key rotation

A Dafny model of the parts of Nova Rewards that keep money or data consistent while many calls
change it, and proofs of what they promise. `dafny verify dfyconfig.toml` checks the whole project.

- **Points and redemptions** (`PointsDatabase`, `RedemptionSystem`, `RedemptionTheorems`): the two
  SQL transactions `redeemReward` and `recordPointTransaction`. `Execute` is a call run alone;
  class `Connection` performs its statements in place with rollback; the system interleaves any
  number of calls statement by statement, with row locks, unique keys, private writes and lost
  connections. The `user_balance` trigger and the tables' CHECK and INTEGER constraints come from
  the migrations.
- **Contracts** (`NovaRewards` with `StakingTheorems` and `AccountTheorems`, `Vesting`, `Treasury`,
  `NovaToken`, `Governance`, `EscrowDesk`, `StateStore`, `UpgradeApprovals`): each is a state, a function `Apply`
  or `Step` giving the effect of one call, and a class whose methods update the fields in place and
  are proved to have that effect. A call that panics or returns an error changes nothing. `i128`,
  `u64` and `u32` limits are explicit, and theorems are about whole runs of calls. Authorization is
  the set of addresses that signed the call; ledger time or sequence is a field of the call.
- **Key rotation** (`Reencryption`): the decision made for one value, the paginated pass over a
  table, and any number of failed or interrupted passes.

Where code and documentation disagree the code is modelled. Promises that do not hold of the code
as stated, each with the exact condition under which they do:

- a retried redemption is replayed if its key is stored when it looks, and can only fail if the key is
  stored after it looked (`StoredKeyReplays`, `OvertakenNeverSucceeds`, `SecondRacerIsRefused`, and
  `ARaceIsLost` for a concrete race);
- supply equals the sum of balances after a mint exactly if the new supply fits or the receiver held
  everything (`StepKeepsBacked`);
- decreasing an allowance does not stop at zero (`DecreaseStaysNonNegative`);
- moving recovered funds from a user to the same user creates them (`RecoverFundsConserves`);
- the vesting pool can exceed its deposits (`PoolCanExceedFunding`): it stays within them exactly if
  no revocation gives back more than claims have paid out and not yet been given back
  (`PoolWithinFunding`, `PoolStaysWithinFunding`);
- a changed treasury period does not wait for the next rollover (`DurationPromiseFails`): the change
  goes unnoticed exactly if no withdrawal comes when one of the two lengths has gone by and the
  other has not (`NewDurationActsAtOnce`, `ChangeGoesUnnoticed`);
- a pause is reported exactly until an expiry on record has passed; users stay blocked after that, by
  an emergency pause that has run out or by a recovery pause after one
  (`PauseOutlivesItsReport`, `RecoveryPauseGoesUnreported`, `LiftedPauseStillMisleads`);
- counting configured signers does not make an upgrade possible (`UpgradeIsPossible`);
- long base64-like plaintexts are never encrypted, and rotating a key onto itself never settles
  (`LongTokensAreSkipped`, `OneFullPassConverges`, `FurtherPassesSettle`).

## Model

| member | source | states |
|---|---|---|
| PointsDatabase.Connection.RedeemReward | novaRewards/backend/db/redemptionRepository.js:20-132 | run alone, the statements with rollback have the all-or-nothing effect and answer of `Execute` |
| PointsDatabase.Connection.RedeemStatements | novaRewards/backend/db/redemptionRepository.js:23-125 | the statements inside the try reach `Execute`'s tables unless they throw, and throw exactly `Execute`'s refusals |
| PointsDatabase.Connection.RecordPointTransaction | novaRewards/backend/db/pointTransactionRepository.js:20-78 | run alone, it has the effect and answer of `Execute`, for debits and credits of either sign |
| PointsDatabase.Connection.LockBalance | novaRewards/backend/db/redemptionRepository.js:66-78 | the balance row exists afterwards and holds the balance read, zero if it was missing |
| PointsDatabase.Connection.InsertRow | novaRewards/database/012_user_balance_and_trigger.sql:61-77 | a row that breaks a constraint changes nothing; any other is appended and its closing balance copied |
| PointsDatabase.Connection.Rollback | novaRewards/backend/db/redemptionRepository.js:126-128 | all four tables are as they were at BEGIN |
| PointsDatabase.FindKeyMeaning | novaRewards/backend/db/redemptionRepository.js:28-34 | the key lookup finds a row with the key, or there is none |
| PointsDatabase.RedeemSucceeds | novaRewards/backend/db/redemptionRepository.js:28-85 | a redemption is replayed, refused for each reason, or goes through, exactly by key, reward row, rounded cost and balance |
| PointsDatabase.RedeemEffect | novaRewards/backend/db/redemptionRepository.js:61-121 | a redemption takes the cost rounded half up from the user and one item from stock, and records both |
| PointsDatabase.RecordEffect | novaRewards/backend/db/pointTransactionRepository.js:26-70 | redeemed and expired points are debited, earned, bonus and referral points credited; exactly when, and with which refusal otherwise |
| PointsDatabase.ExecuteAddsUp | novaRewards/backend/db/pointTransactionRepository.js:50-70 | one call keeps every balance equal to credits less debits on the ledger |
| PointsDatabase.ExecuteGrows | novaRewards/backend/db/redemptionRepository.js:41-121 | one call keeps stock, key uniqueness, signs, payment of redemptions and every user's ledger chain; refusals and replays change nothing |
| PointsDatabase.RetryReplays | novaRewards/backend/db/redemptionRepository.js:25-38 | a later request under a redeemed key gets the stored redemption and changes nothing |
| RedemptionSystem.GoTakesLock | novaRewards/backend/db/redemptionRepository.js:40-76 | a statement takes exactly the lock its next position is meant to hold, and only if free |
| RedemptionSystem.StopIsSerial | novaRewards/backend/db/redemptionRepository.js:87-125 | what COMMIT publishes and answers is what the whole call would do alone at that moment |
| RedemptionTheorems.PublishEffect | novaRewards/backend/db/redemptionRepository.js:89-123 | what a commit changes in balances, rewards and the key lookup |
| RedemptionTheorems.CommitKeepsOthers | novaRewards/backend/db/redemptionRepository.js:40-76 | another transaction's commit never invalidates what a transaction has read |
| RedemptionTheorems.StepKeepsGood | novaRewards/backend/db/redemptionRepository.js:20-132 | every scheduling step, lost connections included, keeps locks, reads, drafts and the serial history consistent |
| RedemptionTheorems.Serializable | novaRewards/backend/db/redemptionRepository.js:20-132 | under every schedule the tables and answers are those of the unrefused calls run one at a time in commit order |
| RedemptionTheorems.AccountsAgree | novaRewards/backend/db/pointTransactionRepository.js:35-70 | in every reachable state stock, redemptions, ledger chains and balances agree and nothing is negative |
| RedemptionTheorems.BalancesAddUp | novaRewards/backend/db/pointTransactionRepository.js:35-70 | under every schedule a balance has changed by the earned, bonus and referral amounts on the ledger less the redeemed and expired ones |
| RedemptionTheorems.EveryoneIsChargedTheCost | novaRewards/backend/db/redemptionRepository.js:61-121 | under every schedule a successful redemption is charged to its own user at the rounded cost of its reward |
| RedemptionTheorems.OneRedemptionPerKey | novaRewards/backend/db/redemptionRepository.js:9-18 | two unrefused calls under one key were given the same redemption |
| RedemptionTheorems.RefusedForAReason | novaRewards/backend/db/redemptionRepository.js:49-85 | the tables at some point of the schedule called for each refusal: a duplicate key is stored and the call would otherwise succeed; any other refusal is the one the call would get alone, stored keys aside |
| RedemptionTheorems.StoredKeyReplays | novaRewards/backend/db/redemptionRepository.js:35-38 | a call whose key is stored when it looks ends replayed, in two steps, changing nothing |
| RedemptionTheorems.OvertakenNeverSucceeds | novaRewards/backend/db/redemptionRepository.js:114-121 | a call whose key is stored after it looked never commits, under any schedule |
| RedemptionTheorems.SearchEnds | novaRewards/backend/db/redemptionRepository.js:114-121 | of two calls past an empty lookup, the first to commit takes the key from the other |
| RedemptionTheorems.RacingRetriesAreNotReplayed | novaRewards/backend/db/redemptionRepository.js:25-38 | two requests that both look before either stores never both succeed |
| RedemptionTheorems.AloneSettles | novaRewards/backend/db/redemptionRepository.js:20-132 | from any reachable point a call left to itself while nobody else holds a lock ends with the answer and tables of `Execute`, or a justified refusal |
| RedemptionTheorems.SecondRacerIsRefused | novaRewards/backend/db/redemptionRepository.js:25-121 | of two calls past an empty lookup run one after the other, the first succeeds and the second is refused, with `DuplicateKey` exactly if another key would have let it through |
| RedemptionTheorems.ARaceIsLost | novaRewards/backend/db/redemptionRepository.js:114-121 | a schedule in which one request is answered with its redemption and its racing retry with `DuplicateKey` |
| RedemptionTheorems.WaitsForward | novaRewards/backend/db/redemptionRepository.js:40-76 | a transaction only waits for one strictly further along: reward row, then balance row, then key |
| RedemptionTheorems.NeverStuck | novaRewards/backend/db/redemptionRepository.js:41-121 | while a call is unfinished some call can step: no deadlock |
| RedemptionTheorems.StepShortens | novaRewards/backend/db/redemptionRepository.js:41-132 | every effective step shortens what is left; any other decision changes nothing |
| RedemptionTheorems.FairSchedulesFinish | novaRewards/backend/db/redemptionRepository.js:20-132 | from any reachable state, as many rounds giving everyone a turn as statements remain finish every call |
| RedemptionTheorems.EveryCallFinishes | novaRewards/backend/db/redemptionRepository.js:20-132 | eight rounds per call finish every call |
| NovaRewards.NovaRewardsContract.StakeTokens | contracts/nova-rewards/src/lib.rs:962-997 | the new state and answer are the specified ones |
| NovaRewards.NovaRewardsContract.UnstakeTokens | contracts/nova-rewards/src/lib.rs:1009-1067 | principal and yield are credited and the stake cleared, or nothing changes |
| NovaRewards.NovaRewardsContract.ClaimStakingReward | contracts/nova-rewards/src/lib.rs:649-695 | a positive reward is credited and restarts the clock; a zero one changes nothing |
| NovaRewards.NovaRewardsContract.CalculateYield | contracts/nova-rewards/src/lib.rs:1075-1105 | the yield accrued by the address's stake, zero without one, or a trap where a product does not fit |
| NovaRewards.NovaRewardsContract.SetAnnualRate | contracts/nova-rewards/src/lib.rs:933-944 | only the admin sets a rate, within 0 to 10000 |
| NovaRewards.NovaRewardsContract.SwapForXlm | contracts/nova-rewards/src/lib.rs:726-778 | points are burned, or a failed swap is undone |
| NovaRewards.NovaRewardsContract.SetPaused | contracts/nova-rewards/src/lib.rs:468-491 | pausing or unpausing clears any expiry |
| NovaRewards.NovaRewardsContract.PauseForEmergency | contracts/nova-rewards/src/lib.rs:495-509 | the pause carries an expiry |
| NovaRewards.NovaRewardsContract.RecordRecoveryOperation | contracts/nova-rewards/src/lib.rs:360-389 | the first record under an id stays |
| NovaRewards.NovaRewardsContract.SnapshotUser | contracts/nova-rewards/src/lib.rs:1108-1141 | a fresh id stores balance and stake; a recorded id does nothing |
| NovaRewards.NovaRewardsContract.RestoreUser | contracts/nova-rewards/src/lib.rs:1148-1185 | a fresh id writes the snapshot back; a recorded id does nothing |
| NovaRewards.NovaRewardsContract.RecoverUserTransaction | contracts/nova-rewards/src/lib.rs:1189-1221 | a fresh id applies the delta unless it overdraws; a recorded id does nothing |
| NovaRewards.NovaRewardsContract.RecoverUserFunds | contracts/nova-rewards/src/lib.rs:1224-1261 | a fresh id moves the amount, with both balances read first; a recorded id does nothing |
| StakingTheorems.AccruedBounds | contracts/nova-rewards/src/lib.rs:1093-1104 | floor division loses less than one unit |
| StakingTheorems.StakeMoves | contracts/nova-rewards/src/lib.rs:649-695 | any call leaves another's open stake alone, or pays its claim and restarts its clock |
| StakingTheorems.ClaimsAtConstantRate | contracts/nova-rewards/src/lib.rs:662-687 | over a run, what claims paid is within one unit per paying claim of the exact accrual |
| StakingTheorems.ClaimingCostsAtMostOneEach | contracts/nova-rewards/src/lib.rs:662-687 | k paying claims and an unstake pay between Y-k and Y, Y being one unstake at the same time |
| StakingTheorems.YieldWithinPrincipalPerYear | contracts/nova-rewards/src/lib.rs:933-944 | with rates moved freely in range, yield never exceeds the amount per year |
| StakingTheorems.YieldCap | contracts/nova-rewards/src/lib.rs:1023-1054 | claims and unstake over T seconds pay at most floor(amount*T/SECONDS_PER_YEAR) at any rates |
| StakingTheorems.RepeatsDoNotMatter | contracts/nova-rewards/src/lib.rs:1108-1261 | deleting every call whose operation id was already recorded leaves the final state unchanged |
| StakingTheorems.RecordsNeverChange | contracts/nova-rewards/src/lib.rs:360-398 | a recorded operation stays as recorded through any run |
| StakingTheorems.FreshMeansRecorded | contracts/nova-rewards/src/lib.rs:1129-1136 | a recovery call that is not a repeat succeeds exactly when its id is then recorded |
| StakingTheorems.SnapshotStays | contracts/nova-rewards/src/lib.rs:1119-1127 | a snapshot only changes by a new snapshot of the same user |
| StakingTheorems.RestoreReinstates | contracts/nova-rewards/src/lib.rs:1148-1185 | a fresh restore after any run puts back the balance and stake of the latest snapshot and touches nobody else |
| StakingTheorems.HoldingsAreConserved | contracts/nova-rewards/src/lib.rs:962-1261 | balances plus principal change by exactly yield, swaps, recovery deltas and settings |
| StakingTheorems.RecoverFundsConserves | contracts/nova-rewards/src/lib.rs:1242-1249 | moving funds conserves holdings exactly if the two users differ |
| StakingTheorems.RunKeepsPositive | contracts/nova-rewards/src/lib.rs:1202-1206 | balances and snapshots stay non-negative and stakes positive, given non-negative settings |
| StakingTheorems.PauseOutlivesItsReport | contracts/nova-rewards/src/lib.rs:322-327 | a reported pause blocks user calls; an operation that would otherwise succeed is blocked exactly while a pause is reported or a paused contract has a passed expiry on record |
| StakingTheorems.RecoveryPauseGoesUnreported | contracts/nova-rewards/src/lib.rs:566-589 | once an expiry is on record, a recovery pause after any run that does not set it anew blocks users and is not reported past that expiry |
| StakingTheorems.LiftedPauseStillMisleads | contracts/nova-rewards/src/lib.rs:495-589 | an emergency pause lifted in time, then a recovery pause: users are blocked and no pause is reported |
| AccountTheorems.AccruedEarns | contracts/nova-rewards/src/lib.rs:1093-1104 | the yield is the whole units of amount times rate times seconds over 10,000 times 31,536,000, or a trap exactly where a product does not fit |
| AccountTheorems.OpenStakeEffect | contracts/nova-rewards/src/lib.rs:962-997 | exactly when staking goes through; the amount leaves the staker's balance for a stake with both clocks at now, and no other account changes |
| AccountTheorems.UnstakeEffect | contracts/nova-rewards/src/lib.rs:1009-1067 | exactly when unstaking goes through, cooldown included; the staker alone is paid principal and yield, and the stake is gone |
| AccountTheorems.ClaimEffect | contracts/nova-rewards/src/lib.rs:649-695 | exactly when a claim goes through; the staker alone is paid the yield, and only a paying claim restarts the clock |
| AccountTheorems.SwapEffect | contracts/nova-rewards/src/lib.rs:726-778 | exactly when a swap goes through; the user's balance falls by the amount and no other account changes |
| AccountTheorems.SetBalanceEffect | contracts/nova-rewards/src/lib.rs:884-887 | a balance set from outside is that one user's, and exactly what was set |
| AccountTheorems.SnapshotEffect | contracts/nova-rewards/src/lib.rs:1108-1141 | a fresh snapshot keeps the user's balance and stake of the moment and is recorded |
| AccountTheorems.RestoreEffect | contracts/nova-rewards/src/lib.rs:1148-1185 | exactly when a fresh restore goes through, and that it touches the one user's account only |
| AccountTheorems.RecoverTransactionEffect | contracts/nova-rewards/src/lib.rs:1189-1221 | exactly when a compensation goes through; the one user's balance changes by the delta |
| AccountTheorems.RecoverFundsEffect | contracts/nova-rewards/src/lib.rs:1224-1261 | exactly when funds are moved; one balance falls and the other rises by the amount |
| AccountTheorems.RepeatAnswer | contracts/nova-rewards/src/lib.rs:1108-1261 | a recorded operation repeated changes nothing and is answered with what stands now |
| AccountTheorems.SettingsEffect | contracts/nova-rewards/src/lib.rs:468-589 | the admin alone changes settings and pauses, each call only its own |
| AccountTheorems.EmergencyPauseRunsOut | contracts/nova-rewards/src/lib.rs:495-527 | an emergency pause is reported until it expires, a plain one until lifted |
| AccountTheorems.EveryHoldingAddsUp | contracts/nova-rewards/src/lib.rs:962-1261 | over any run each single user's balance and principal change by exactly their own yield, swaps, recovery deltas and settings |
| AccountTheorems.EverythingHeldCameIn | contracts/nova-rewards/src/lib.rs:884-900 | in a new contract what a user holds is exactly what came in to that user over the run |
| Vesting.VestingContract.FundPool | contracts/vesting/src/lib.rs:146-158 | the admin's deposit is added, or nothing changes |
| Vesting.VestingContract.CreateSchedule | contracts/vesting/src/lib.rs:188-247 | an accepted schedule gets the beneficiary's next id; an invalid one is refused |
| Vesting.VestingContract.VestedAmount | contracts/vesting/src/lib.rs:252-270 | the vested amount in machine integers, with its traps |
| Vesting.VestingContract.ClaimVested | contracts/vesting/src/lib.rs:296-342 | exactly the newly vested amount is paid, or the right error |
| Vesting.VestingContract.RevokeSchedule | contracts/vesting/src/lib.rs:371-418 | vesting is frozen and the unvested rest credited to the pool |
| Vesting.VestedGrows | contracts/vesting/src/lib.rs:252-270 | vested is monotone in time, within 0 and the total, and constant once revoked |
| Vesting.AcceptedNeverTraps | contracts/vesting/src/lib.rs:201-210 | no accepted schedule can overflow at any u64 time |
| Vesting.SoundNeverTraps | contracts/vesting/src/lib.rs:310-386 | neither a claim nor a revocation can trap in its arithmetic on a schedule as any run leaves it |
| Vesting.ProductGuardIsNeeded | contracts/vesting/src/lib.rs:201-210 | without the product guard a schedule would trap at some time exactly if its last partial instalment overflows |
| Vesting.RunKeepsSound | contracts/vesting/src/lib.rs:296-342 | in every run released stays within what has vested |
| Vesting.ApplyMoves | contracts/vesting/src/lib.rs:317-402 | how each call moves the pool against released, returned and owed totals |
| Vesting.PoolIsConserved | contracts/fuzz/fuzz_targets/fuzz_vesting.rs:120-124 | pool equals funded less released plus returned, after any run |
| Vesting.PoolWithinFunding | contracts/vesting/src/lib.rs:392-402 | a pool within deposits leaves them by one call exactly if that is a revocation giving back more than has been released and not given back |
| Vesting.PoolStaysWithinFunding | contracts/vesting/src/lib.rs:385-402 | the pool is within deposits throughout a run exactly if every revocation in it gives back no more than that |
| Vesting.PoolCanExceedFunding | contracts/vesting/src/lib.rs:392-402 | a run of three calls doubles the pool |
| Vesting.SolvencyKept | contracts/vesting/src/lib.rs:296-418 | funding, claims and revocations keep the pool covering what is owed; a creation does exactly if the slack covers its total |
| Vesting.SolventPays | contracts/vesting/src/lib.rs:317-324 | from a covering pool no claim fails with InsufficientPool |
| Vesting.PrudentRunsPay | contracts/vesting/src/lib.rs:296-342 | after any run with covered creations no claim fails with InsufficientPool |
| Vesting.ReceivedIsReleased | contracts/vesting/src/lib.rs:325-333 | what a schedule's claims have paid is what it records as released |
| Vesting.ClaimsAreExact | contracts/vesting/src/lib.rs:310-333 | after a claim attempt not short of funds the total received is exactly the vested amount, whatever claims came before |
| Vesting.RevocationFreezes | contracts/vesting/src/lib.rs:404-406 | a revoked schedule keeps its vested amount and never pays beyond it |
| Vesting.CreateEffect | contracts/vesting/src/lib.rs:188-247 | exactly when a schedule is accepted, and that it is stored on the terms asked for under the next id |
| Vesting.ClaimEffect | contracts/vesting/src/lib.rs:296-342 | exactly when a claim is refused and why; otherwise it pays all that has vested and not been paid, on that schedule alone |
| Vesting.FundEffect | contracts/vesting/src/lib.rs:146-158 | exactly when a deposit is accepted, and that the pool alone rises by it |
| Vesting.RevokeEffect | contracts/vesting/src/lib.rs:371-418 | exactly when a revocation is accepted; what has not vested goes to the pool, what has is kept for the beneficiary |
| Vesting.VestedAccrues | contracts/vesting/src/lib.rs:252-270 | nothing before the cliff, everything at the end, whole units of an even flow in between |
| Vesting.ClaimsFollowTheTerms | contracts/vesting/src/lib.rs:188-342 | over any run, a schedule's claims have paid exactly what the total, start, cliff and duration asked for at its creation give by then, or by its revocation |
| Treasury.TreasuryContract.RefreshPeriod | contracts/treasury/src/lib.rs:144-172 | the window rolls forward exactly when it has elapsed |
| Treasury.TreasuryContract.WithdrawTokens | contracts/treasury/src/lib.rs:199-249 | a withdrawal within the cap whose transfer goes through is recorded; any other undoes the rollover too |
| Treasury.TreasuryContract.SetPeriodCap | contracts/treasury/src/lib.rs:264-273 | only the admin sets a positive cap |
| Treasury.TreasuryContract.SetPeriodDuration | contracts/treasury/src/lib.rs:288-294 | only the admin sets a positive period |
| Treasury.RunStaysBounded | contracts/treasury/src/lib.rs:215-229 | the current period never spends more than the largest cap set |
| Treasury.OpenWindow | contracts/treasury/src/lib.rs:144-249 | spending since a point in time is tallied by whole periods that have really elapsed |
| Treasury.WindowBound | contracts/treasury/src/lib.rs:144-249 | in every run, whatever caps and periods were set within bounds, any window pays at most so many caps |
| Treasury.FixedSettingsBound | contracts/treasury/src/lib.rs:17-21 | with fixed settings at most ceil(L/D)+1 caps in L seconds, and two in a period's length |
| Treasury.TotalBound | contracts/treasury/src/lib.rs:231-238 | total released is what was paid, at most one cap per period begun |
| Treasury.WithdrawEffect | contracts/treasury/src/lib.rs:199-249 | exactly when a withdrawal is paid and how it is refused; what it adds to the period and the total |
| Treasury.SettingsEffect | contracts/treasury/src/lib.rs:264-294 | a new cap or period replaces the old one and nothing else |
| Treasury.LoweredCapBinds | contracts/treasury/src/lib.rs:215-229 | over any run after the cap was set, every withdrawal keeps its period's spending within that cap |
| Treasury.WindowBoundIsTight | contracts/treasury/src/lib.rs:157-165 | for every cap, period and window some run reaches the bound |
| Treasury.NewDurationActsAtOnce | contracts/treasury/src/lib.rs:275-294 | after a change of period a withdrawal leaves the state it would have left without it exactly if both lengths have gone by, or neither, or it is refused in any period; and is still paid or refused alike exactly then or if the rest of the period suffices |
| Treasury.ChangeGoesUnnoticed | contracts/treasury/src/lib.rs:275-294 | over a whole run the changed and unchanged treasury agree after every call exactly if every withdrawal fares alike under the two lengths |
| Treasury.DurationPromiseFails | contracts/treasury/src/lib.rs:277-278 | a shorter period frees a second cap before the rollover, a longer one holds the next cap back |
| Treasury.OversizedPeriodLocks | contracts/treasury/src/lib.rs:146-157 | a period whose end does not fit u64 stops all withdrawals; any other lets one through when it is over |
| NovaToken.NovaTokenContract.MintTokens | contracts/nova_token/src/lib.rs:133-152 | the specified state, saturating |
| NovaToken.NovaTokenContract.BurnTokens | contracts/nova_token/src/lib.rs:169-190 | balance and supply fall together, or nothing changes |
| NovaToken.NovaTokenContract.MoveTokens | contracts/nova_token/src/lib.rs:212-217 | debit before read comes out even when sending to oneself; a trap undoes it |
| NovaToken.NovaTokenContract.TransferTokens | contracts/nova_token/src/lib.rs:208-223 | both balances move by the amount, or nothing changes |
| NovaToken.NovaTokenContract.TransferFromTokens | contracts/nova_token/src/lib.rs:247-292 | allowance and balances move together, or nothing changes |
| NovaToken.NovaTokenContract.ApproveSpender | contracts/nova_token/src/lib.rs:319-351 | the allowance is overwritten unless already expired |
| NovaToken.NovaTokenContract.IncreaseAllowance | contracts/nova_token/src/lib.rs:372-397 | an existing allowance rises, keeping its expiry |
| NovaToken.NovaTokenContract.DecreaseAllowance | contracts/nova_token/src/lib.rs:414-442 | the allowance falls, possibly below zero |
| NovaToken.StepKeepsBacked | contracts/nova_token/src/lib.rs:133-292 | every call keeps supply equal to the sum of balances, a mint exactly when it fits or its receiver held everything |
| NovaToken.TransfersNeverOverflow | contracts/nova_token/src/lib.rs:208-223 | with supply and balances in agreement a transfer needs nothing but the sender's funds |
| NovaToken.SupplyIsBacked | contracts/nova_token/src/lib.rs:133-292 | after any run minting within i128, supply is the sum of balances and at most what was minted |
| NovaToken.SpendableIsDrawable | contracts/nova_token/src/lib.rs:476-491 | the allowance read-out is exactly what transfer_from lets through |
| NovaToken.DrawsAreApproved | contracts/nova_token/src/lib.rs:247-292 | between approvals draws stay within the approved amount plus increases, and none happen after expiry |
| NovaToken.DrawnIsTaken | contracts/nova_token/src/lib.rs:247-292 | over any run, what is counted as drawn is what left the owner's balance, unless paid back to the owner |
| NovaToken.TakenIsApproved | contracts/nova_token/src/lib.rs:247-292 | between approvals no more leaves the owner's balance, or reaches anyone else's, by a spender's draws than was approved and added |
| NovaToken.TransferEffect | contracts/nova_token/src/lib.rs:208-223 | exactly when a transfer goes through; every balance changes by exactly the amount sent or received |
| NovaToken.TransferFromEffect | contracts/nova_token/src/lib.rs:247-292 | the same for a spender, whose allowance falls by the amount |
| NovaToken.MintBurnEffect | contracts/nova_token/src/lib.rs:133-190 | exactly when minting and burning go through; one balance and the supply change by the amount, up to saturation |
| NovaToken.AllowanceEffect | contracts/nova_token/src/lib.rs:319-442 | exactly when an allowance is set, raised or lowered, to what amount and expiry, and no other |
| NovaToken.InitializeEffect | contracts/nova_token/src/lib.rs:74-110 | nobody starts with a balance or an allowance |
| NovaToken.DecreaseStaysNonNegative | contracts/nova_token/src/lib.rs:399-442 | a decrease leaves a non-negative allowance exactly if it takes no more than there was |
| Governance.GovernanceContract.CreateProposal | contracts/governance/src/lib.rs:248-271 | the next id is opened for one voting period |
| Governance.GovernanceContract.CastVote | contracts/governance/src/lib.rs:279-320 | the voter's balance is added once, while active and in time |
| Governance.GovernanceContract.FinaliseProposal | contracts/governance/src/lib.rs:328-350 | the outcome is fixed after the period |
| Governance.GovernanceContract.ExecuteProposal | contracts/governance/src/lib.rs:358-371 | the admin marks a passed proposal executed |
| Governance.GovernanceContract.ChangeQuorum | contracts/governance/src/lib.rs:383-387 | the admin sets a valid quorum |
| Governance.TalliesAreExact | contracts/governance/src/lib.rs:279-320 | each tally is min(i128 max, the sum of its distinct voters' balances when they voted), in any order |
| Governance.LifecycleIsOneWay | contracts/governance/src/lib.rs:328-371 | status only moves forward, the tally only while active, and a passed proposal has more yes than no |
| Governance.TallyFreezes | contracts/governance/src/lib.rs:297-300 | after its last ledger a proposal's tally never changes |
| Governance.QuorumIsCeiling | contracts/governance/src/lib.rs:206-215 | the percent quorum is the least number of votes worth the percentage, computable exactly while the product leaves room |
| Governance.FinaliseDecides | contracts/governance/src/lib.rs:328-350 | exactly when a finalisation goes through, and exactly when the proposal then passes |
| Governance.ProposeEffect | contracts/governance/src/lib.rs:248-271 | exactly when a proposal is opened, and its end 120,960 ledgers on |
| Governance.VoteEffect | contracts/governance/src/lib.rs:279-320 | exactly when a vote is taken, on either side, and that it adds the voter's balance to that side alone |
| Governance.ExecuteEffect | contracts/governance/src/lib.rs:358-371 | exactly when a proposal is executed, and never twice |
| Governance.SetQuorumEffect | contracts/governance/src/lib.rs:383-387 | exactly when a quorum is accepted, and that nothing else changes |
| Governance.HeldWithinSum | contracts/governance/src/lib.rs:302-310 | distinct voters still holding their votes cannot outweigh all balances |
| Governance.TurnoutWithinSupply | contracts/governance/src/lib.rs:302-340 | if no balance falls while voting is open, yes plus no never exceed the supply |
| Governance.TokensCanVoteTwice | contracts/governance/src/lib.rs:302-310 | vote, transfer, vote: twenty yes votes on a supply of ten |
| Reencryption.Table.ProcessTable | novaRewards/scripts/encrypt-existing-rows.js:230-317 | terminates, examines every filled row once in id order, counts every row once, leaves what one sweep would, for any batch size |
| Reencryption.Table.ProcessBatch | novaRewards/scripts/encrypt-existing-rows.js:268-312 | one batch sweeps and counts exactly its rows |
| Reencryption.Table.ProcessRow | novaRewards/scripts/encrypt-existing-rows.js:274-309 | the row's counter, and its value if updated |
| Reencryption.Table.NextBatch | novaRewards/scripts/encrypt-existing-rows.js:249-264 | the first filled rows past the cursor, in id order |
| Reencryption.Progress.Tick | novaRewards/scripts/encrypt-existing-rows.js:157-168 | the three counters add up |
| Reencryption.ActionMeaning | novaRewards/scripts/encrypt-existing-rows.js:192-218 | an update seals the same plaintext under the new key; a readable value that is skipped is so sealed already |
| Reencryption.LongTokensAreSkipped | novaRewards/backend/lib/encryption.js:281-285 | forty or more base64 characters of plaintext are left alone |
| Reencryption.LooksSealedMeaning | novaRewards/backend/lib/encryption.js:281-285 | the pattern character by character |
| Reencryption.NeedsUpdateMeaning | novaRewards/scripts/encrypt-existing-rows.js:192-218 | short texts and texts outside the base64 alphabet are always encrypted; sealed values are rewritten exactly under the old key |
| Reencryption.FateMeaning | novaRewards/scripts/encrypt-existing-rows.js:274-309 | which of the three counters a row lands in |
| Reencryption.NothingIsLost | novaRewards/scripts/encrypt-existing-rows.js:36-43 | through any interrupted or failed passes every row keeps its plaintext |
| Reencryption.OneFullPassConverges | novaRewards/scripts/encrypt-existing-rows.js:8-10 | after them one full pass leaves a row opening under the new key exactly if it was readable; others are untouched |
| Reencryption.OnlyTheRestIsRedone | novaRewards/scripts/encrypt-existing-rows.js:36-43 | with distinct keys, after any attempts a row needs an update exactly if it did at first and no attempt applied it |
| Reencryption.FurtherPassesSettle | novaRewards/scripts/encrypt-existing-rows.js:36-43 | a further pass updates nothing exactly if the keys differ or nothing was readable |
| StateStore.StateContract.SetEntry | contracts/contract_state/src/lib.rs:146-153 | the entry is stored, or nothing changes |
| StateStore.StateContract.DeleteEntry | contracts/contract_state/src/lib.rs:167-174 | the entry is removed, or nothing changes |
| StateStore.StateContract.SnapshotEntry | contracts/contract_state/src/lib.rs:180-194 | the live value is kept under the current version |
| StateStore.StateContract.MigrateVersion | contracts/contract_state/src/lib.rs:200-207 | the version goes up by one |
| StateStore.StateContract.RecoverEntry | contracts/contract_state/src/lib.rs:213-227 | the snapshot value is live again |
| StateStore.SnapshotsRemember | contracts/contract_state/src/lib.rs:180-194 | after any run a snapshot is the value live at the last snapshot call at its version |
| StateStore.RecoverReinstates | contracts/contract_state/src/lib.rs:213-227 | a recovery succeeds exactly if such a call was made, restores that value, and leaves other keys alone |
| StateStore.PastSnapshotsAreFrozen | contracts/contract_state/src/lib.rs:200-207 | once the version has moved past, its snapshots never change |
| StateStore.SnapshotSurvivesMigration | contracts/contract_state/src/lib.rs:180-227 | a snapshot taken before a migration can be recovered after any later run |
| StateStore.StepEffect | contracts/contract_state/src/lib.rs:146-227 | exactly when each call goes through, and the one entry, snapshot or version it changes |
| StateStore.EntriesRemember | contracts/contract_state/src/lib.rs:146-227 | after any run an entry holds what was last set, deleted or recovered there |
| UpgradeApprovals.UpgradePanel.ApproveUpgrade | contracts/escrow/src/lib.rs:263-305 | acceptance, execution and the pending approvals afterwards |
| UpgradeApprovals.InitializeEffect | contracts/escrow/src/lib.rs:113-126 | exactly when a configuration is accepted, and that it starts with nothing pending |
| UpgradeApprovals.PendingIsSound | contracts/escrow/src/lib.rs:266-304 | pending approvals are distinct signers, fewer than the threshold, in every reachable state |
| UpgradeApprovals.UpgradesAreBacked | contracts/governance/src/lib.rs:414-449 | every upgrade has exactly threshold-many distinct signers since that hash last executed |
| UpgradeApprovals.ApprovalEffect | contracts/escrow/src/lib.rs:263-305 | exactly when an approval counts, and what is pending afterwards for this hash and the others |
| UpgradeApprovals.BackersApproved | contracts/escrow/src/lib.rs:263-272 | over any run every approval behind an upgrade was authorized by its own signer for that hash |
| UpgradeApprovals.HashesDoNotInterfere | contracts/contract_state/src/lib.rs:244-280 | one hash fares as if no other had been approved |
| UpgradeApprovals.UpgradeIsPossible | contracts/escrow/src/lib.rs:113-126 | an upgrade can ever execute exactly if threshold-many configured signers are distinct |
| EscrowDesk.EscrowContract.CreateEscrow | contracts/escrow/src/lib.rs:142-164 | an open, empty escrow under the next id |
| EscrowDesk.EscrowContract.FundEscrow | contracts/escrow/src/lib.rs:170-181 | the depositor's amount is added while open |
| EscrowDesk.EscrowContract.ReleaseEscrow | contracts/escrow/src/lib.rs:190-212 | both parties before the timeout, the admin after it |
| EscrowDesk.EscrowContract.RefundEscrow | contracts/escrow/src/lib.rs:218-233 | the depositor after the timeout |
| EscrowDesk.DepositsAreConserved | contracts/escrow/src/lib.rs:170-233 | open escrows hold what was deposited less what was paid out, over any run |
| EscrowDesk.SettledForGood | contracts/escrow/src/lib.rs:190-233 | a settled escrow never changes again |
| EscrowDesk.NothingLeavesEarly | contracts/escrow/src/lib.rs:196-205 | before the timeout an escrow stays open unless depositor and beneficiary both sign |
| EscrowDesk.CreateEffect | contracts/escrow/src/lib.rs:142-164 | exactly when an escrow is opened, empty and under the next id |
| EscrowDesk.EscrowEffect | contracts/escrow/src/lib.rs:170-233 | exactly when an escrow is funded, released and refunded, by whom and when, and that no other changes |

## Left out

- Serial row ids: a row carries the number of the transaction that inserted it, because ids drawn from a sequence differ between schedules.
- Columns that decide nothing (reward name, campaign id, descriptions, timestamps), foreign keys, and the joined current balance of a replayed redemption.
- Other writers of the reward and balance tables, such as administrators editing a reward; every writer modelled follows the two repository functions.
- Rounding of amounts in `recordPointTransaction`: the amount is an integer, so input that is not a number is not represented.
- Soroban storage lifetimes and events; the token contract called by `withdraw`, whose balance and success are inputs of the call.
- The DEX router in `swap_for_xlm`: its answer, or failure, is an input of the call.
- `check_daily_limit`, `calculate_payout`, and the WASM `upgrade`/`migrate` pair of nova-rewards: no run-level promise depends on them.
- Encryption itself: sealed values are symbolic, so ciphertext collisions and malformed ciphertext are not represented.
- Rows inserted or changed by others while `processTable` is running, and errors thrown by `computeAction` for an invalid key, which the script's own key check excludes.
- Command-line parsing and progress output of the script.
- contracts/campaign, contracts/distribution and contracts/admin_roles: their sources interleave two versions and have no single behaviour.
- contracts/redemption, contracts/referral and contracts/reward_pool: their sums and floors would repeat results proved for vesting, token and staking.
- Other repositories, HTTP routes, jobs, network scripts and the frontend: input and output around the modelled core.
