/** What each call to the Nova rewards contract does, account by account: when it goes through,
    whose balance and stake it changes and by how much, and that nobody else's change. */
module AccountTheorems {
  import opened Prelude
  import opened NovaRewards
  import opened StakingTheorems

  /** Nothing has changed but `user`'s balance and stake. */
  ghost predicate OnlyAccount(b: Bank, b': Bank, user: Address) {
    && b' == b.(balances := b'.balances, stakes := b'.stakes)
    && forall other: Address :: other != user ==>
         BalanceOf(b', other) == BalanceOf(b, other) && StakeOf(b', other) == StakeOf(b, other)
  }

  ghost predicate Account(b: Bank, user: Address, balance: int, stake: Option<Stake>) {
    BalanceOf(b, user) == balance && StakeOf(b, user) == stake
  }

  /** `earned` is the yield of `s`: basis points a year, by the second, in whole units. */
  predicate Earns(s: Stake, rate: int, now: nat, earned: int) {
    if rate <= 0 || now <= s.lastClaimedAt then earned == 0
    else
      var exact := s.amount * rate * (now - s.lastClaimedAt);
      10_000 * 31_536_000 * earned <= exact < 10_000 * 31_536_000 * (earned + 1)
  }

  /** Its products fit the contract's integers. */
  predicate Computable(s: Stake, rate: int, now: nat) {
    rate > 0 && now > s.lastClaimedAt ==> IsI128(s.amount * rate) && IsI128(s.amount * rate * (now - s.lastClaimedAt))
  }

  lemma {:induction false} AccruedEarns(s: Stake, rate: int, now: nat, earned: int)
    requires Earns(s, rate, now, earned)
    ensures Accrued(s, rate, now) == if Computable(s, rate, now) then Some(earned) else None
  {
    if rate > 0 && now > s.lastClaimedAt {
      var exact := s.amount * rate * (now - s.lastClaimedAt);
      DivAtLeast(exact, YIELD_UNIT, earned);
      DivAtMost(exact, YIELD_UNIT, earned);
    }
  }

  /** Staking moves the amount from the staker's balance to a stake whose clocks start now. */
  lemma OpenStakeEffect(b: Bank, now: nat, signed: set<Address>, staker: Address, amount: int)
    ensures var tx := Tx(now, signed, OpenStake(staker, amount));
            && (Apply(b, tx).Some? <==>
                !b.paused && staker in signed && staker !in b.stakes && 0 < amount <= BalanceOf(b, staker))
            && (Apply(b, tx).Some? ==>
                  && OnlyAccount(b, Step(b, tx), staker)
                  && Account(Step(b, tx), staker, BalanceOf(b, staker) - amount, Some(Stake(amount, now, now))))
  {
  }

  /** The cooldown has passed; a deadline that does not fit `u64` never does. */
  predicate Cooled(b: Bank, s: Stake, now: nat) {
    b.cooldown == 0 || s.stakedAt + b.cooldown <= Min(now, 0xFFFF_FFFF_FFFF_FFFF)
  }

  /** Unstaking closes the stake and pays principal and yield to the staker. */
  lemma {:induction false} UnstakeEffect(b: Bank, now: nat, signed: set<Address>, staker: Address, earned: int)
    requires staker in b.stakes ==> Earns(b.stakes[staker], b.rate, now, earned)
    ensures var tx := Tx(now, signed, Unstake(staker));
            && (Apply(b, tx).Some? <==>
                && !b.paused && staker in signed && staker in b.stakes && Cooled(b, b.stakes[staker], now)
                && Computable(b.stakes[staker], b.rate, now) && IsI128(b.stakes[staker].amount + earned)
                && IsI128(BalanceOf(b, staker) + b.stakes[staker].amount + earned))
            && (Apply(b, tx).Some? ==>
                  && OnlyAccount(b, Step(b, tx), staker)
                  && Account(Step(b, tx), staker, BalanceOf(b, staker) + b.stakes[staker].amount + earned, None)
                  && Apply(b, tx).value.value == b.stakes[staker].amount + earned)
  {
    if staker in b.stakes {
      AccruedEarns(b.stakes[staker], b.rate, now, earned);
    }
    hide Accrued, Earns, Computable;
  }

  /** A claim pays the yield to the staker and restarts the stake's yield clock, and only that. */
  lemma {:induction false} ClaimEffect(b: Bank, now: nat, signed: set<Address>, staker: Address, earned: int)
    requires staker in b.stakes ==> Earns(b.stakes[staker], b.rate, now, earned)
    ensures var tx := Tx(now, signed, ClaimReward(staker));
            && (Apply(b, tx).Some? <==>
                && !b.paused && staker in signed && staker in b.stakes && Computable(b.stakes[staker], b.rate, now)
                && (earned > 0 ==> IsI128(BalanceOf(b, staker) + earned)))
            && (Apply(b, tx).Some? ==>
                  var s := b.stakes[staker];
                  && Apply(b, tx).value.value == earned
                  && OnlyAccount(b, Step(b, tx), staker)
                  && Account(Step(b, tx), staker, BalanceOf(b, staker) + Max(earned, 0),
                             Some(Stake(s.amount, s.stakedAt, if earned > 0 then now else s.lastClaimedAt))))
  {
    if staker in b.stakes {
      AccruedEarns(b.stakes[staker], b.rate, now, earned);
    }
    hide Accrued, Earns, Computable;
  }

  /** A swap burns exactly the amount, if the router returns at least the least amount asked for. */
  lemma SwapEffect(b: Bank, now: nat, signed: set<Address>, user: Address, amount: int, least: int, hops: nat, received: Option<int>)
    ensures var tx := Tx(now, signed, Swap(user, amount, least, hops, received));
            && (Apply(b, tx).Some? <==>
                && !b.paused && user in signed && 0 < amount <= BalanceOf(b, user) && hops <= 5
                && received.Some? && 0 <= least <= received.value)
            && (Apply(b, tx).Some? ==>
                  && OnlyAccount(b, Step(b, tx), user) && Apply(b, tx).value.value == received.value
                  && Account(Step(b, tx), user, BalanceOf(b, user) - amount, StakeOf(b, user)))
  {
  }

  lemma SetBalanceEffect(b: Bank, now: nat, signed: set<Address>, user: Address, amount: int)
    ensures var tx := Tx(now, signed, SetBalance(user, amount));
            Apply(b, tx).Some? && OnlyAccount(b, Step(b, tx), user) && Account(Step(b, tx), user, amount, StakeOf(b, user))
  {
  }

  // ----- recovery -----

  /** The recovery operator signed, the contract is paused, and the operation is new. */
  predicate MayRecover(b: Bank, tx: Tx, op: nat) {
    b.recoveryAdmin in tx.signed && b.paused && op !in b.operations
  }

  /** Besides what `b'` says about balances and stakes, operation `op` has been recorded. */
  predicate Recorded(b: Bank, b': Bank, op: nat, what: Operation) {
    b' == b.(balances := b'.balances, stakes := b'.stakes, operations := b.operations[op := what])
  }

  ghost predicate OthersKeep(b: Bank, b': Bank, users: set<Address>) {
    forall other: Address :: other !in users ==>
      BalanceOf(b', other) == BalanceOf(b, other) && StakeOf(b', other) == StakeOf(b, other)
  }

  /** A snapshot keeps what the user holds at the time; it needs no pause and changes no account. */
  lemma SnapshotEffect(b: Bank, now: nat, signed: set<Address>, user: Address, op: nat)
    requires op !in b.operations
    ensures var tx := Tx(now, signed, SnapshotAccount(user, op));
            && (Apply(b, tx).Some? <==> b.recoveryAdmin in signed)
            && (Apply(b, tx).Some? ==>
                  Step(b, tx) == b.(snapshots := b.snapshots[user := Snapshot(BalanceOf(b, user), StakeOf(b, user), now)],
                                    operations := b.operations[op := Operation(StateSnapshot, user, None, BalanceOf(b, user), now)]))
  {
  }

  lemma RestoreEffect(b: Bank, now: nat, signed: set<Address>, user: Address, op: nat)
    requires op !in b.operations
    ensures var tx := Tx(now, signed, RestoreAccount(user, op));
            && (Apply(b, tx).Some? <==> MayRecover(b, tx, op) && user in b.snapshots)
            && (Apply(b, tx).Some? ==>
                  var kept := b.snapshots[user];
                  && Recorded(b, Step(b, tx), op, Operation(StateRestore, user, None, kept.balance, now))
                  && Account(Step(b, tx), user, kept.balance, kept.stake) && OthersKeep(b, Step(b, tx), {user}))
  {
  }

  /** A compensation adds its delta, of either sign, to the one user's balance, never below zero. */
  lemma RecoverTransactionEffect(b: Bank, now: nat, signed: set<Address>, user: Address, delta: int, op: nat)
    requires op !in b.operations
    ensures var tx := Tx(now, signed, RecoverTransaction(user, delta, op));
            && (Apply(b, tx).Some? <==> MayRecover(b, tx, op) && 0 <= BalanceOf(b, user) + delta && IsI128(BalanceOf(b, user) + delta))
            && (Apply(b, tx).Some? ==>
                  && Recorded(b, Step(b, tx), op, Operation(Transaction, user, None, delta, now))
                  && Apply(b, tx).value.value == BalanceOf(b, user) + delta
                  && Account(Step(b, tx), user, BalanceOf(b, user) + delta, StakeOf(b, user))
                  && OthersKeep(b, Step(b, tx), {user}))
  {
  }

  /** Moving funds takes the amount from one user and gives it to the other; given to the user it was
      taken from, it is added. */
  lemma RecoverFundsEffect(b: Bank, now: nat, signed: set<Address>, from: Address, to: Address, amount: int, op: nat)
    requires op !in b.operations
    ensures var tx := Tx(now, signed, RecoverFunds(from, to, amount, op));
            && (Apply(b, tx).Some? <==>
                MayRecover(b, tx, op) && 0 < amount <= BalanceOf(b, from) && IsI128(BalanceOf(b, to) + amount))
            && (Apply(b, tx).Some? ==>
                  && Recorded(b, Step(b, tx), op, Operation(Fund, from, Some(to), amount, now))
                  && (from != to ==> Account(Step(b, tx), from, BalanceOf(b, from) - amount, StakeOf(b, from)))
                  && Account(Step(b, tx), to, BalanceOf(b, to) + amount, StakeOf(b, to))
                  && OthersKeep(b, Step(b, tx), {from, to}))
  {
  }

  /** Repeating a recorded operation changes nothing, and is answered with what stands now. */
  lemma RepeatAnswer(b: Bank, tx: Tx, op: nat)
    requires OpId(tx.call) == Some(op) && op in b.operations
    ensures Step(b, tx) == b
    ensures Apply(b, tx).Some? <==>
              && b.recoveryAdmin in tx.signed && (b.paused || tx.call.SnapshotAccount?)
              && (tx.call.SnapshotAccount? || tx.call.RestoreAccount? ==> tx.call.user in b.snapshots)
    ensures Apply(b, tx).Some? && tx.call.RecoverTransaction? ==> Apply(b, tx).value.value == BalanceOf(b, tx.call.user)
  {
  }

  // ----- settings -----

  /** The admin's calls, and what each sets. Resuming and pausing for recovery leave the expiry of an
      emergency pause on record. */
  lemma SettingsEffect(b: Bank, tx: Tx)
    requires tx.call.SetRate? || tx.call.SetCooldown? || tx.call.Pause? || tx.call.Unpause? || tx.call.EmergencyPause?
             || tx.call.PauseForRecovery? || tx.call.Resume? || tx.call.SetRecoveryAdmin?
    ensures Apply(b, tx).Some? <==>
              && b.admin in tx.signed
              && (tx.call.SetRate? ==> 0 <= tx.call.rate <= 10_000)
              && (tx.call.EmergencyPause? ==> 0 < tx.call.seconds && tx.now + tx.call.seconds <= 0xFFFF_FFFF_FFFF_FFFF)
    ensures var b' := Step(b, tx);
            if Apply(b, tx).None? then b' == b
            else
              && (tx.call.SetRate? ==> b' == b.(rate := tx.call.rate))
              && (tx.call.SetCooldown? ==> b' == b.(cooldown := tx.call.seconds))
              && (tx.call.Pause? ==> b' == b.(paused := true, expiry := 0))
              && (tx.call.Unpause? ==> b' == b.(paused := false, expiry := 0))
              && (tx.call.EmergencyPause? ==> b' == b.(paused := true, expiry := tx.now + tx.call.seconds))
              && (tx.call.PauseForRecovery? ==> b' == b.(paused := true))
              && (tx.call.Resume? ==> b' == b.(paused := false))
              && (tx.call.SetRecoveryAdmin? ==> b' == b.(recoveryAdmin := tx.call.operator))
  {
  }

  /** The reported pause: without an expiry until it is lifted, with one until then. */
  lemma EmergencyPauseRunsOut(b: Bank, now: nat, seconds: nat, signed: set<Address>, later: nat)
    requires Apply(b, Tx(now, signed, EmergencyPause(seconds))).Some?
    ensures IsPaused(Step(b, Tx(now, signed, EmergencyPause(seconds))), later) <==> later < now + seconds
    ensures IsPaused(Step(b, Tx(now, {b.admin}, Pause)), later) && !IsPaused(Step(b, Tx(now, {b.admin}, Unpause)), later)
  {
  }

  // ----- whole runs -----

  /** What one user holds: balance and staked principal. */
  function Holding(b: Bank, user: Address): int { BalanceOf(b, user) + PrincipalOf(StakeOf(b, user)) }

  /** What an accepted call brings `user`, or takes from them. */
  function FlowTo(b: Bank, tx: Tx, user: Address): int {
    if Apply(b, tx).None? || Repeated(b, tx) then 0
    else
      match tx.call
      case ClaimReward(_) => YieldBy(b, tx, user)
      case Unstake(_) => YieldBy(b, tx, user)
      case Swap(swapper, amount, _, _, _) => if swapper == user then -amount else 0
      case SetBalance(owner, amount) => if owner == user then amount - BalanceOf(b, user) else 0
      case RecoverTransaction(owner, delta, _) => if owner == user then delta else 0
      case RecoverFunds(from, to, amount, _) => (if to == user then amount else 0) - if from == user != to then amount else 0
      case RestoreAccount(owner, _) =>
        if owner == user && user in b.snapshots
        then b.snapshots[user].balance + PrincipalOf(b.snapshots[user].stake) - Holding(b, user) else 0
      case _ => 0
  }

  function TotalFlowTo(b: Bank, txs: seq<Tx>, user: Address): int {
    if txs == [] then 0 else
      var front := txs[..|txs| - 1];
      TotalFlowTo(b, front, user) + FlowTo(Run(b, front), txs[|txs| - 1], user)
  }

  lemma StakingFlowTo(b: Bank, tx: Tx, user: Address)
    requires tx.call.OpenStake? || tx.call.Unstake? || tx.call.ClaimReward?
    ensures Holding(Step(b, tx), user) == Holding(b, user) + FlowTo(b, tx, user)
  {
    hide Accrued, ApplyRecovery;
  }

  lemma RecoveryFlowTo(b: Bank, tx: Tx, user: Address)
    requires OpId(tx.call).Some?
    ensures Holding(Step(b, tx), user) == Holding(b, user) + FlowTo(b, tx, user)
  {
    if Repeated(b, tx) {
      RepeatChangesNothing(b, tx);
    } else {
      match tx.call {
        case SnapshotAccount(owner, op) => SnapshotEffect(b, tx.now, tx.signed, owner, op);
        case RestoreAccount(owner, op) => RestoreEffect(b, tx.now, tx.signed, owner, op);
        case RecoverTransaction(owner, delta, op) => RecoverTransactionEffect(b, tx.now, tx.signed, owner, delta, op);
        case RecoverFunds(from, to, amount, op) => RecoverFundsEffect(b, tx.now, tx.signed, from, to, amount, op);
      }
    }
    hide Apply, YieldBy;
  }

  lemma StepFlowTo(b: Bank, tx: Tx, user: Address)
    ensures Holding(Step(b, tx), user) == Holding(b, user) + FlowTo(b, tx, user)
  {
    if tx.call.OpenStake? || tx.call.Unstake? || tx.call.ClaimReward? {
      StakingFlowTo(b, tx, user);
    } else if OpId(tx.call).Some? {
      RecoveryFlowTo(b, tx, user);
    } else if tx.call.Swap? {
      SwapEffect(b, tx.now, tx.signed, tx.call.user, tx.call.amount, tx.call.least, tx.call.hops, tx.call.received);
    } else if tx.call.SetBalance? {
      SetBalanceEffect(b, tx.now, tx.signed, tx.call.user, tx.call.amount);
    } else {
      SettingsEffect(b, tx);
    }
    hide Apply, YieldBy;
  }

  /** Over any run each user's balance and principal together change by exactly the yield paid to that
      user, less their own swaps, plus their own recovery deltas and settings: nothing is ever paid
      to, or taken from, anybody else. */
  lemma {:induction false} EveryHoldingAddsUp(b: Bank, txs: seq<Tx>, user: Address)
    ensures Holding(Run(b, txs), user) == Holding(b, user) + TotalFlowTo(b, txs, user)
  {
    if txs != [] {
      var front, last := txs[..|txs| - 1], txs[|txs| - 1];
      EveryHoldingAddsUp(b, front, user);
      StepFlowTo(Run(b, front), last, user);
      hide Step, FlowTo, Holding;
    }
  }

  /** Whatever a user holds in a new contract has come in by one of these ways. */
  lemma {:induction false} EverythingHeldCameIn(b: Bank, txs: seq<Tx>, user: Address)
    requires b.balances == map[] && b.stakes == map[]
    ensures Holding(Run(b, txs), user) == TotalFlowTo(b, txs, user)
  {
    EveryHoldingAddsUp(b, txs, user);
  }
}
