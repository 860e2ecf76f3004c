/** The Nova rewards contract: balances, staking with yield, swaps, pausing, and recovery
    operations recorded by id. A call that panics leaves the contract unchanged. */
module NovaRewards {
  import opened Prelude

  const BPS := 10_000
  const SECONDS_PER_YEAR := 31_536_000
  const YIELD_UNIT := 315_360_000_000
  const MAX_SWAP_PATH_HOPS := 5

  datatype Stake = Stake(amount: int, stakedAt: nat, lastClaimedAt: nat)

  datatype Snapshot = Snapshot(balance: int, stake: Option<Stake>, capturedAt: nat)

  datatype Kind = StateSnapshot | StateRestore | Transaction | Fund

  datatype Operation = Operation(kind: Kind, account: Address, counterparty: Option<Address>, amount: int, executedAt: nat)

  datatype Bank = Bank(admin: Address, recoveryAdmin: Address, balances: map<Address, int>, stakes: map<Address, Stake>,
                       rate: int, cooldown: nat, paused: bool, expiry: nat,
                       snapshots: map<Address, Snapshot>, operations: map<nat, Operation>)

  /** In `Swap`, `received` is what the router returned, or nothing if it is missing or failed. */
  datatype Call =
    | SetRate(rate: int)
    | SetCooldown(seconds: nat)
    | SetBalance(user: Address, amount: int)
    | OpenStake(staker: Address, amount: int)
    | Unstake(staker: Address)
    | ClaimReward(staker: Address)
    | Swap(user: Address, amount: int, least: int, hops: nat, received: Option<int>)
    | Pause
    | Unpause
    | EmergencyPause(seconds: nat)
    | PauseForRecovery
    | Resume
    | SetRecoveryAdmin(operator: Address)
    | SnapshotAccount(user: Address, op: nat)
    | RestoreAccount(user: Address, op: nat)
    | RecoverTransaction(user: Address, delta: int, op: nat)
    | RecoverFunds(from: Address, to: Address, amount: int, op: nat)

  datatype Tx = Tx(now: nat, signed: set<Address>, call: Call)

  /** The state a call left, and the number it returned (0 where it returns nothing or a snapshot). */
  datatype Done = Done(bank: Bank, value: int)

  function BalanceOf(b: Bank, a: Address): int { if a in b.balances then b.balances[a] else 0 }

  function StakeOf(b: Bank, a: Address): Option<Stake> { if a in b.stakes then Some(b.stakes[a]) else None }

  function Elapsed(s: Stake, now: nat): nat { if now > s.lastClaimedAt then now - s.lastClaimedAt else 0 }

  /** The yield accrued at an annual rate; `None` where a product does not fit `i128`. */
  function Accrued(s: Stake, rate: int, now: nat): Option<int> {
    var elapsed := Elapsed(s, now);
    if rate <= 0 || elapsed == 0 then Some(0)
    else if !IsI128(s.amount * rate) || !IsI128(s.amount * rate * elapsed) then None
    else Some(s.amount * rate * elapsed / YIELD_UNIT)
  }

  /** Writes a balance, or traps if it does not fit. */
  function Credit(b: Bank, a: Address, amount: int): Option<Bank> {
    if IsI128(BalanceOf(b, a) + amount) then Some(b.(balances := b.balances[a := BalanceOf(b, a) + amount])) else None
  }

  function Finish(b: Option<Bank>, value: int): Option<Done> {
    if b.None? then None else Some(Done(b.value, value))
  }

  function Note(b: Bank, op: nat, operation: Operation): Bank {
    b.(operations := b.operations[op := operation])
  }

  function WithStake(b: Bank, a: Address, s: Option<Stake>): Bank {
    b.(stakes := if s.Some? then b.stakes[a := s.value] else b.stakes - {a})
  }

  function AsAdmin(b: Bank, tx: Tx, b': Bank): Option<Done> {
    if b.admin in tx.signed then Some(Done(b', 0)) else None
  }

  function ApplyStaking(b: Bank, tx: Tx): Option<Done>
    requires tx.call.OpenStake? || tx.call.Unstake? || tx.call.ClaimReward?
  {
    var staker := tx.call.staker;
    if b.paused || staker !in tx.signed then None else
      match tx.call
      case OpenStake(_, amount) =>
        if amount <= 0 || staker in b.stakes || BalanceOf(b, staker) < amount then None
        else Some(Done(WithStake(b.(balances := b.balances[staker := BalanceOf(b, staker) - amount]),
                                 staker, Some(Stake(amount, tx.now, tx.now))), 0))
      case Unstake(_) =>
        if staker !in b.stakes then None else
        var s := b.stakes[staker];
        var earned := Accrued(s, b.rate, tx.now);
        if b.cooldown > 0 && (s.stakedAt + b.cooldown > U64_MAX || tx.now < s.stakedAt + b.cooldown) then None
        else if earned.None? || !IsI128(s.amount + earned.value) then None
        else Finish(Credit(WithStake(b, staker, None), staker, s.amount + earned.value), s.amount + earned.value)
      case ClaimReward(_) =>
        if staker !in b.stakes then None else
        var s := b.stakes[staker];
        var earned := Accrued(s, b.rate, tx.now);
        if earned.None? then None
        else if earned.value <= 0 then Some(Done(b, earned.value))
        else Finish(Credit(WithStake(b, staker, Some(s.(lastClaimedAt := tx.now))), staker, earned.value), earned.value)
  }

  function OpId(call: Call): Option<nat> {
    match call
    case SnapshotAccount(_, op) => Some(op)
    case RestoreAccount(_, op) => Some(op)
    case RecoverTransaction(_, _, op) => Some(op)
    case RecoverFunds(_, _, _, op) => Some(op)
    case _ => None
  }

  function TakeSnapshot(b: Bank, now: nat, user: Address, op: nat): Option<Done> {
    var taken := Snapshot(BalanceOf(b, user), StakeOf(b, user), now);
    Some(Done(Note(b.(snapshots := b.snapshots[user := taken]), op,
                   Operation(StateSnapshot, user, None, taken.balance, now)), 0))
  }

  function Restore(b: Bank, now: nat, user: Address, op: nat): Option<Done> {
    if user !in b.snapshots then None else
      var kept := b.snapshots[user];
      Some(Done(Note(WithStake(b.(balances := b.balances[user := kept.balance]), user, kept.stake), op,
                     Operation(StateRestore, user, None, kept.balance, now)), 0))
  }

  function Compensate(b: Bank, now: nat, user: Address, delta: int, op: nat): Option<Done> {
    if BalanceOf(b, user) + delta < 0 then None else
      var credited := Credit(b, user, delta);
      if credited.None? then None
      else Some(Done(Note(credited.value, op, Operation(Transaction, user, None, delta, now)), BalanceOf(b, user) + delta))
  }

  function MoveFunds(b: Bank, now: nat, from: Address, to: Address, amount: int, op: nat): Option<Done> {
    if amount <= 0 || BalanceOf(b, from) < amount || !IsI128(BalanceOf(b, to) + amount) then None
    else Some(Done(Note(b.(balances := b.balances[from := BalanceOf(b, from) - amount][to := BalanceOf(b, to) + amount]),
                        op, Operation(Fund, from, Some(to), amount, now)), 0))
  }

  /** Recovery calls are the recovery admin's, and all but snapshots need the contract paused. An
      operation id that is already recorded makes the call do nothing. */
  function ApplyRecovery(b: Bank, tx: Tx): Option<Done>
    requires OpId(tx.call).Some?
  {
    var op := OpId(tx.call).value;
    if b.recoveryAdmin !in tx.signed || (!tx.call.SnapshotAccount? && !b.paused) then None
    else if op in b.operations then
      match tx.call
      case SnapshotAccount(user, _) => if user in b.snapshots then Some(Done(b, 0)) else None
      case RestoreAccount(user, _) => if user in b.snapshots then Some(Done(b, 0)) else None
      case RecoverTransaction(user, _, _) => Some(Done(b, BalanceOf(b, user)))
      case RecoverFunds(_, _, _, _) => Some(Done(b, 0))
    else
      match tx.call
      case SnapshotAccount(user, _) => TakeSnapshot(b, tx.now, user, op)
      case RestoreAccount(user, _) => Restore(b, tx.now, user, op)
      case RecoverTransaction(user, delta, _) => Compensate(b, tx.now, user, delta, op)
      case RecoverFunds(from, to, amount, _) => MoveFunds(b, tx.now, from, to, amount, op)
  }

  /** One call; `None` is a panic. */
  function Apply(b: Bank, tx: Tx): Option<Done> {
    match tx.call
    case SetRate(rate) => if 0 <= rate <= BPS then AsAdmin(b, tx, b.(rate := rate)) else None
    case SetCooldown(seconds) => AsAdmin(b, tx, b.(cooldown := seconds))
    case SetBalance(user, amount) => Some(Done(b.(balances := b.balances[user := amount]), 0))
    case Swap(user, amount, least, hops, received) =>
      if b.paused || user !in tx.signed || amount <= 0 || least < 0 || hops > MAX_SWAP_PATH_HOPS then None
      else if BalanceOf(b, user) < amount || received.None? || received.value < least then None
      else Some(Done(b.(balances := b.balances[user := BalanceOf(b, user) - amount]), received.value))
    case Pause => AsAdmin(b, tx, b.(paused := true, expiry := 0))
    case Unpause => AsAdmin(b, tx, b.(paused := false, expiry := 0))
    case EmergencyPause(seconds) =>
      if seconds == 0 || tx.now + seconds > U64_MAX then None
      else AsAdmin(b, tx, b.(paused := true, expiry := tx.now + seconds))
    case PauseForRecovery => AsAdmin(b, tx, b.(paused := true))
    case Resume => AsAdmin(b, tx, b.(paused := false))
    case SetRecoveryAdmin(operator) => AsAdmin(b, tx, b.(recoveryAdmin := operator))
    case OpenStake(_, _) => ApplyStaking(b, tx)
    case Unstake(_) => ApplyStaking(b, tx)
    case ClaimReward(_) => ApplyStaking(b, tx)
    case SnapshotAccount(_, _) => ApplyRecovery(b, tx)
    case RestoreAccount(_, _) => ApplyRecovery(b, tx)
    case RecoverTransaction(_, _, _) => ApplyRecovery(b, tx)
    case RecoverFunds(_, _, _, _) => ApplyRecovery(b, tx)
  }

  function Step(b: Bank, tx: Tx): Bank {
    var done := Apply(b, tx);
    if done.Some? then done.value.bank else b
  }

  function Run(b: Bank, txs: seq<Tx>): Bank {
    if txs == [] then b else Step(Run(b, txs[..|txs| - 1]), txs[|txs| - 1])
  }

  /** The read-only `is_paused`, which honours the expiry of an emergency pause. */
  predicate IsPaused(b: Bank, now: nat) {
    b.paused && (b.expiry == 0 || now < b.expiry)
  }

  // ----- the contract in place -----

  class NovaRewardsContract {
    var admin: Address
    var recoveryAdmin: Address
    var balances: map<Address, int>
    var stakes: map<Address, Stake>
    var annualRate: int
    var cooldownPeriod: nat
    var paused: bool
    var emergencyPauseExpiry: nat
    var snapshots: map<Address, Snapshot>
    var recoveryOperations: map<nat, Operation>

    ghost function State(): Bank
      reads this
    {
      Bank(admin, recoveryAdmin, balances, stakes, annualRate, cooldownPeriod, paused, emergencyPauseExpiry,
           snapshots, recoveryOperations)
    }

    /** The call had the effect and the answer the specification gives; no answer is a panic. */
    ghost predicate Did(before: Bank, tx: Tx, answer: Option<int>)
      reads this
    {
      State() == Step(before, tx) &&
      answer == if Apply(before, tx).Some? then Some(Apply(before, tx).value.value) else None
    }

    constructor (admin: Address)
      ensures State() == Bank(admin, admin, map[], map[], 0, 0, false, 0, map[], map[])
    {
      this.admin, recoveryAdmin, balances, stakes := admin, admin, map[], map[];
      annualRate, cooldownPeriod, paused, emergencyPauseExpiry := 0, 0, false, 0;
      snapshots, recoveryOperations := map[], map[];
    }

    function ReadBalance(a: Address): (amount: int)
      reads this
      ensures amount == BalanceOf(State(), a)
    {
      if a in balances then balances[a] else 0
    }

    method SetAnnualRate(now: nat, signed: set<Address>, rate: int) returns (answer: Option<int>)
      modifies this`annualRate
      ensures Did(old(State()), Tx(now, signed, SetRate(rate)), answer)
    {
      if admin !in signed || rate < 0 || rate > BPS {
        return None;
      }
      annualRate := rate;
      answer := Some(0);
    }

    /** `calculate_yield`: what the stake has earned since its last claim, nothing for an address
        without one; no answer where a product does not fit. */
    method CalculateYield(staker: Address, now: nat) returns (earned: Option<int>)
      ensures earned == match StakeOf(State(), staker)
                        case None => Some(0)
                        case Some(s) => Accrued(s, annualRate, now)
    {
      if staker !in stakes {
        return Some(0);
      }
      var s := stakes[staker];
      var elapsed := if now > s.lastClaimedAt then now - s.lastClaimedAt else 0;
      if annualRate <= 0 || elapsed <= 0 {
        return Some(0);
      }
      var product := s.amount * annualRate;
      if !IsI128(product) || !IsI128(product * elapsed) {
        return None;
      }
      earned := Some(product * elapsed / (BPS * SECONDS_PER_YEAR));
    }

    method StakeTokens(now: nat, signed: set<Address>, staker: Address, amount: int) returns (answer: Option<int>)
      modifies this`balances, this`stakes
      ensures Did(old(State()), Tx(now, signed, OpenStake(staker, amount)), answer)
    {
      if paused || staker !in signed || amount <= 0 || staker in stakes {
        return None;
      }
      var balance := ReadBalance(staker);
      if balance < amount {
        return None;
      }
      balances := balances[staker := balance - amount];
      stakes := stakes[staker := Stake(amount, now, now)];
      answer := Some(0);
    }

    method UnstakeTokens(now: nat, signed: set<Address>, staker: Address) returns (answer: Option<int>)
      modifies this`balances, this`stakes
      ensures Did(old(State()), Tx(now, signed, Unstake(staker)), answer)
    {
      if paused || staker !in signed || staker !in stakes {
        return None;
      }
      var s := stakes[staker];
      if cooldownPeriod > 0 && (s.stakedAt + cooldownPeriod > U64_MAX || now < s.stakedAt + cooldownPeriod) {
        return None;
      }
      var earned := CalculateYield(staker, now);
      if earned.None? {
        return None;
      }
      var total := s.amount + earned.value;
      var balance := ReadBalance(staker);
      if !IsI128(total) || !IsI128(balance + total) {
        return None;
      }
      balances := balances[staker := balance + total];
      stakes := stakes - {staker};
      answer := Some(total);
    }

    method ClaimStakingReward(now: nat, signed: set<Address>, staker: Address) returns (answer: Option<int>)
      modifies this`balances, this`stakes
      ensures Did(old(State()), Tx(now, signed, ClaimReward(staker)), answer)
    {
      if paused || staker !in signed || staker !in stakes {
        return None;
      }
      var s := stakes[staker];
      var reward := CalculateYield(staker, now);
      if reward.None? {
        return None;
      }
      if reward.value > 0 {
        var balance := ReadBalance(staker);
        if !IsI128(balance + reward.value) {
          return None;
        }
        balances := balances[staker := balance + reward.value];
        stakes := stakes[staker := s.(lastClaimedAt := now)];
      }
      answer := reward;
    }

    /** The balance is written before the router is called; a failed swap undoes it. */
    method SwapForXlm(now: nat, signed: set<Address>, user: Address, amount: int, least: int, hops: nat, received: Option<int>)
      returns (answer: Option<int>)
      modifies this`balances
      ensures Did(old(State()), Tx(now, signed, Swap(user, amount, least, hops, received)), answer)
    {
      if paused || user !in signed || amount <= 0 || least < 0 || hops > MAX_SWAP_PATH_HOPS {
        return None;
      }
      var balance := ReadBalance(user);
      if balance < amount {
        return None;
      }
      var saved := balances;
      balances := balances[user := balance - amount];
      if received.None? || received.value < least {
        balances := saved;
        return None;
      }
      answer := received;
    }

    method SetPaused(now: nat, signed: set<Address>, flag: bool) returns (answer: Option<int>)
      modifies this`paused, this`emergencyPauseExpiry
      ensures Did(old(State()), Tx(now, signed, if flag then Pause else Unpause), answer)
    {
      if admin !in signed {
        return None;
      }
      paused, emergencyPauseExpiry := flag, 0;
      answer := Some(0);
    }

    method PauseForEmergency(now: nat, signed: set<Address>, seconds: nat) returns (answer: Option<int>)
      modifies this`paused, this`emergencyPauseExpiry
      ensures Did(old(State()), Tx(now, signed, EmergencyPause(seconds)), answer)
    {
      if admin !in signed || seconds == 0 || now + seconds > U64_MAX {
        return None;
      }
      paused, emergencyPauseExpiry := true, now + seconds;
      answer := Some(0);
    }

    /** `record_recovery_operation`: the first record under an id is the one that stays. */
    method RecordRecoveryOperation(op: nat, operation: Operation) returns (recorded: Operation)
      modifies this`recoveryOperations
      ensures op in recoveryOperations && recorded == recoveryOperations[op]
      ensures recoveryOperations ==
              if op in old(recoveryOperations) then old(recoveryOperations) else old(recoveryOperations)[op := operation]
    {
      if op !in recoveryOperations {
        recoveryOperations := recoveryOperations[op := operation];
      }
      recorded := recoveryOperations[op];
    }

    method SnapshotUser(now: nat, signed: set<Address>, user: Address, op: nat) returns (answer: Option<int>)
      modifies this`snapshots, this`recoveryOperations
      ensures Did(old(State()), Tx(now, signed, SnapshotAccount(user, op)), answer)
    {
      if recoveryAdmin !in signed {
        return None;
      }
      if op in recoveryOperations {
        return if user in snapshots then Some(0) else None;
      }
      var taken := Snapshot(ReadBalance(user), if user in stakes then Some(stakes[user]) else None, now);
      snapshots := snapshots[user := taken];
      var _ := RecordRecoveryOperation(op, Operation(StateSnapshot, user, None, taken.balance, now));
      answer := Some(0);
    }

    method RestoreUser(now: nat, signed: set<Address>, user: Address, op: nat) returns (answer: Option<int>)
      modifies this`balances, this`stakes, this`recoveryOperations
      ensures Did(old(State()), Tx(now, signed, RestoreAccount(user, op)), answer)
    {
      if recoveryAdmin !in signed || !paused {
        return None;
      }
      if user !in snapshots {
        return None;
      }
      if op in recoveryOperations {
        return Some(0);
      }
      var kept := snapshots[user];
      balances := balances[user := kept.balance];
      if kept.stake.Some? {
        stakes := stakes[user := kept.stake.value];
      } else {
        stakes := stakes - {user};
      }
      var _ := RecordRecoveryOperation(op, Operation(StateRestore, user, None, kept.balance, now));
      answer := Some(0);
    }

    method RecoverUserTransaction(now: nat, signed: set<Address>, user: Address, delta: int, op: nat) returns (answer: Option<int>)
      modifies this`balances, this`recoveryOperations
      ensures Did(old(State()), Tx(now, signed, RecoverTransaction(user, delta, op)), answer)
    {
      if recoveryAdmin !in signed || !paused {
        return None;
      }
      var balance := ReadBalance(user);
      if op in recoveryOperations {
        return Some(balance);
      }
      if !IsI128(balance + delta) || balance + delta < 0 {
        return None;
      }
      balances := balances[user := balance + delta];
      var _ := RecordRecoveryOperation(op, Operation(Transaction, user, None, delta, now));
      answer := Some(balance + delta);
    }

    /** Both balances are read before either is written. */
    method RecoverUserFunds(now: nat, signed: set<Address>, from: Address, to: Address, amount: int, op: nat)
      returns (answer: Option<int>)
      modifies this`balances, this`recoveryOperations
      ensures Did(old(State()), Tx(now, signed, RecoverFunds(from, to, amount, op)), answer)
    {
      if recoveryAdmin !in signed || !paused {
        return None;
      }
      if op in recoveryOperations {
        return Some(0);
      }
      var fromBalance := ReadBalance(from);
      if amount <= 0 || fromBalance < amount {
        return None;
      }
      var toBalance := ReadBalance(to);
      if !IsI128(toBalance + amount) {
        return None;
      }
      balances := balances[from := fromBalance - amount];
      balances := balances[to := toBalance + amount];
      var _ := RecordRecoveryOperation(op, Operation(Fund, from, Some(to), amount, now));
      answer := Some(0);
    }
  }
}
