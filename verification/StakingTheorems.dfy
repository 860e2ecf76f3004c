/** What holds of whole runs of the Nova rewards contract: how much yield a stake can earn however
    it is claimed, what recovery operations do when they are repeated, and where every unit of
    balance comes from. */
module StakingTheorems {
  import opened Prelude
  import opened NovaRewards

  // ----- yield -----

  /** The yield a call pays to `user`. */
  function YieldBy(b: Bank, tx: Tx, user: Address): int {
    if Apply(b, tx).None? then 0
    else
      match tx.call
      case ClaimReward(staker) => if staker == user then Max(Apply(b, tx).value.value, 0) else 0
      case Unstake(staker) => if staker == user && user in b.stakes then Apply(b, tx).value.value - b.stakes[user].amount else 0
      case _ => 0
  }

  function YieldTo(b: Bank, txs: seq<Tx>, user: Address): int {
    if txs == [] then 0 else
      var front, last := txs[..|txs| - 1], txs[|txs| - 1];
      YieldTo(b, front, user) + YieldBy(Run(b, front), last, user)
  }

  function PayingClaims(b: Bank, txs: seq<Tx>, user: Address): nat {
    if txs == [] then 0 else
      var front, last := txs[..|txs| - 1], txs[|txs| - 1];
      PayingClaims(b, front, user) + if YieldBy(Run(b, front), last, user) > 0 then 1 else 0
  }

  /** The calls leave `user`'s stake open and its record alone, and happen no later than `end`. */
  predicate KeepsStake(txs: seq<Tx>, user: Address, end: nat) {
    forall i :: 0 <= i < |txs| ==>
      txs[i].now <= end && txs[i].call != Unstake(user) && !(txs[i].call.RestoreAccount? && txs[i].call.user == user)
  }

  predicate RateStays(b: Bank, txs: seq<Tx>) {
    forall i :: 0 <= i < |txs| ==> txs[i].call.SetRate? ==> txs[i].call.rate == b.rate
  }

  predicate LegalRate(b: Bank) { 0 <= b.rate <= BPS }

  /** Floor division loses less than one unit. */
  lemma {:induction false} AccruedBounds(s: Stake, rate: int, now: nat)
    requires s.amount > 0 && rate >= 0 && Accrued(s, rate, now).Some?
    ensures var earned := Accrued(s, rate, now).value;
            0 <= YIELD_UNIT * earned <= s.amount * rate * Elapsed(s, now) <= YIELD_UNIT * earned + YIELD_UNIT - 1
  {
    MulMono(s.amount, 0, rate);
    MulMono(s.amount * rate, 0, Elapsed(s, now));
    DivBounds(s.amount * rate * Elapsed(s, now), YIELD_UNIT);
  }

  /** What a call can do to an open stake: nothing, or pay a claim and restart its clock. */
  predicate StakeMoved(b: Bank, tx: Tx, user: Address) {
    && user in b.stakes && user in Step(b, tx).stakes
    && var s, s' := b.stakes[user], Step(b, tx).stakes[user];
       if YieldBy(b, tx, user) > 0
       then s' == s.(lastClaimedAt := tx.now) && s.lastClaimedAt < tx.now
            && Accrued(s, b.rate, tx.now) == Some(YieldBy(b, tx, user))
       else s' == s && YieldBy(b, tx, user) == 0
  }

  lemma StakingMoves(b: Bank, tx: Tx, user: Address)
    requires user in b.stakes && tx.call != Unstake(user)
    requires tx.call.OpenStake? || tx.call.Unstake? || tx.call.ClaimReward?
    ensures StakeMoved(b, tx, user)
  {
    AccruedNeedsTime(b.stakes[user], b.rate, tx.now);
    hide Accrued, ApplyRecovery;
  }

  lemma RecoveryMoves(b: Bank, tx: Tx, user: Address)
    requires user in b.stakes && OpId(tx.call).Some? && !(tx.call.RestoreAccount? && tx.call.user == user)
    ensures StakeMoved(b, tx, user) && Step(b, tx).rate == b.rate
  {
    hide Accrued;
    match tx.call {
      case SnapshotAccount(_, _) => hide Restore, Compensate, MoveFunds, ApplyStaking;
      case RestoreAccount(_, _) => hide TakeSnapshot, Compensate, MoveFunds, ApplyStaking;
      case RecoverTransaction(_, _, _) => hide TakeSnapshot, Restore, MoveFunds, ApplyStaking;
      case RecoverFunds(_, _, _, _) => hide TakeSnapshot, Restore, Compensate, ApplyStaking;
    }
  }

  lemma StakeMoves(b: Bank, tx: Tx, user: Address, end: nat)
    requires user in b.stakes && KeepsStake([tx], user, end) && LegalRate(b)
    ensures StakeMoved(b, tx, user) && LegalRate(Step(b, tx)) && tx.now <= end
    ensures Step(b, tx).rate == if tx.call.SetRate? && Apply(b, tx).Some? then tx.call.rate else b.rate
  {
    assert [tx][0] == tx;
    if tx.call.OpenStake? || tx.call.Unstake? || tx.call.ClaimReward? {
      StakingMoves(b, tx, user);
      StakingKeepsRate(b, tx);
      hide StakeMoved, ApplyStaking, ApplyRecovery;
    } else if OpId(tx.call).Some? {
      RecoveryMoves(b, tx, user);
      hide StakeMoved, ApplyStaking, ApplyRecovery;
    } else {
      hide ApplyStaking, ApplyRecovery, Accrued;
    }
  }

  lemma StakingKeepsRate(b: Bank, tx: Tx)
    requires tx.call.OpenStake? || tx.call.Unstake? || tx.call.ClaimReward?
    ensures Step(b, tx).rate == b.rate
  {
    hide Accrued, ApplyRecovery;
  }

  lemma AccruedNeedsTime(s: Stake, rate: int, now: nat)
    ensures Elapsed(s, now) == 0 ==> Accrued(s, rate, now) == Some(0)
  {
  }

  /** `last` is where the clock of a stake opened (or last claimed) at `from` now stands, after
      `claims` paying claims of `paid` in total, at a constant rate of `perSecond` units. */
  predicate ClaimedSoFar(perSecond: int, from: nat, last: nat, claims: nat, paid: int) {
    && from <= last
    && YIELD_UNIT * paid <= perSecond * (last - from) <= YIELD_UNIT * paid + claims * (YIELD_UNIT - 1)
  }

  lemma {:induction false} ClaimOnward(perSecond: int, from: nat, last: nat, now: nat, claims: nat, paid: int, reward: int)
    requires ClaimedSoFar(perSecond, from, last, claims, paid) && last <= now
    requires YIELD_UNIT * reward <= perSecond * (now - last) <= YIELD_UNIT * reward + YIELD_UNIT - 1
    ensures ClaimedSoFar(perSecond, from, now, claims + 1, paid + reward)
  {
    assert perSecond * (now - from) == perSecond * (last - from) + perSecond * (now - last);
  }

  lemma RewardBounds(s: Stake, rate: int, now: nat, perSecond: int, reward: int)
    requires s.amount > 0 && rate >= 0 && perSecond == s.amount * rate && s.lastClaimedAt <= now
    requires Accrued(s, rate, now) == Some(reward)
    ensures YIELD_UNIT * reward <= perSecond * (now - s.lastClaimedAt) <= YIELD_UNIT * reward + YIELD_UNIT - 1
  {
    AccruedBounds(s, rate, now);
  }

  lemma {:induction false} ClaimsAtConstantRate(b: Bank, txs: seq<Tx>, user: Address, end: nat, perSecond: int)
    requires user in b.stakes && b.stakes[user].amount > 0 && LegalRate(b)
    requires KeepsStake(txs, user, end) && RateStays(b, txs) && perSecond == b.stakes[user].amount * b.rate
    ensures user in Run(b, txs).stakes && LegalRate(Run(b, txs)) && Run(b, txs).rate == b.rate
    ensures var s, s' := b.stakes[user], Run(b, txs).stakes[user];
            && s' == s.(lastClaimedAt := s'.lastClaimedAt)
            && (s'.lastClaimedAt == s.lastClaimedAt || s'.lastClaimedAt <= end)
            && ClaimedSoFar(perSecond, s.lastClaimedAt, s'.lastClaimedAt, PayingClaims(b, txs, user), YieldTo(b, txs, user))
  {
    var s := b.stakes[user];
    if txs != [] {
      var front, last := txs[..|txs| - 1], txs[|txs| - 1];
      ClaimsAtConstantRate(b, front, user, end, perSecond);
      var before := Run(b, front);
      assert KeepsStake([last], user, end) && (last.call.SetRate? ==> last.call.rate == b.rate);
      StakeMoves(before, last, user, end);
      hide ClaimedSoFar, Step, Apply, YieldBy, Accrued, KeepsStake, RateStays;
      var reward := YieldBy(before, last, user);
      if reward > 0 {
        RewardBounds(before.stakes[user], b.rate, last.now, perSecond, reward);
        ClaimOnward(perSecond, s.lastClaimedAt, before.stakes[user].lastClaimedAt, last.now,
                    PayingClaims(b, front, user), YieldTo(b, front, user), reward);
      }
    }
  }

  /** Claim by claim or all at once: after any run with `k` paying claims, a final unstake brings
      the total to within `k` of what a single unstake at that time would have paid, and never
      above it. Claims that pay nothing lose nothing. */
  lemma {:induction false} ClaimingCostsAtMostOneEach(b: Bank, txs: seq<Tx>, user: Address, tx: Tx)
    requires user in b.stakes && b.stakes[user].amount > 0 && LegalRate(b) && b.stakes[user].lastClaimedAt <= tx.now
    requires KeepsStake(txs, user, tx.now) && RateStays(b, txs)
    requires tx.call == Unstake(user) && Apply(Run(b, txs), tx).Some?
    ensures var s := b.stakes[user];
            var whole := s.amount * b.rate * (tx.now - s.lastClaimedAt) / YIELD_UNIT;
            whole - PayingClaims(b, txs, user) <= YieldTo(b, txs + [tx], user) <= whole
  {
    hide Run, KeepsStake, RateStays, Apply;
    var s := b.stakes[user];
    ClaimsAtConstantRate(b, txs, user, tx.now, s.amount * b.rate);
    UnstakeClaims(Run(b, txs), tx, user, s.amount * b.rate, s.lastClaimedAt, PayingClaims(b, txs, user), YieldTo(b, txs, user));
    YieldOfLast(b, txs, user, tx);
    hide YieldTo, PayingClaims, YieldBy;
    WholeYield(s.amount * b.rate * (tx.now - s.lastClaimedAt), PayingClaims(b, txs, user), YieldTo(b, txs + [tx], user));
  }

  lemma YieldOfLast(b: Bank, txs: seq<Tx>, user: Address, tx: Tx)
    ensures YieldTo(b, txs + [tx], user) == YieldTo(b, txs, user) + YieldBy(Run(b, txs), tx, user)
  {
    assert (txs + [tx])[..|txs|] == txs;
    hide YieldBy, Run;
  }

  /** The final unstake is one more claim. */
  lemma UnstakeClaims(b: Bank, tx: Tx, user: Address, perSecond: int, from: nat, claims: nat, paid: int)
    requires user in b.stakes && b.stakes[user].amount > 0 && b.rate >= 0 && b.stakes[user].lastClaimedAt <= tx.now
    requires tx.call == Unstake(user) && Apply(b, tx).Some? && perSecond == b.stakes[user].amount * b.rate
    requires ClaimedSoFar(perSecond, from, b.stakes[user].lastClaimedAt, claims, paid)
    ensures ClaimedSoFar(perSecond, from, tx.now, claims + 1, paid + YieldBy(b, tx, user))
  {
    UnstakeYield(b, tx, user);
    hide Apply, YieldBy, ClaimedSoFar, Accrued;
    var earned, last := YieldBy(b, tx, user), b.stakes[user].lastClaimedAt;
    RewardBounds(b.stakes[user], b.rate, tx.now, perSecond, earned);
    ClaimOnward(perSecond, from, last, tx.now, claims, paid, earned);
  }

  lemma UnstakeYield(b: Bank, tx: Tx, user: Address)
    requires tx.call == Unstake(user) && Apply(b, tx).Some?
    ensures user in b.stakes && Accrued(b.stakes[user], b.rate, tx.now) == Some(YieldBy(b, tx, user))
  {
    hide Accrued;
  }

  lemma {:induction false} WholeYield(x: int, claims: nat, total: int)
    requires YIELD_UNIT * total <= x <= YIELD_UNIT * total + (claims + 1) * (YIELD_UNIT - 1)
    ensures x / YIELD_UNIT - claims <= total <= x / YIELD_UNIT
  {
    DivAtLeast(x, YIELD_UNIT, total);
    assert (claims + 1) * (YIELD_UNIT - 1) < YIELD_UNIT * (claims + 1);
    DivAtMost(x, YIELD_UNIT, total + claims);
  }

  /** With the rate moved freely within its range, a stake never earns more than its own amount per year. */
  lemma {:induction false} YieldWithinPrincipalPerYear(b: Bank, txs: seq<Tx>, user: Address, end: nat)
    requires user in b.stakes && b.stakes[user].amount > 0 && LegalRate(b) && KeepsStake(txs, user, end)
    ensures user in Run(b, txs).stakes && LegalRate(Run(b, txs))
    ensures var s, s' := b.stakes[user], Run(b, txs).stakes[user];
            && s' == s.(lastClaimedAt := s'.lastClaimedAt)
            && s.lastClaimedAt <= s'.lastClaimedAt
            && (s'.lastClaimedAt == s.lastClaimedAt || s'.lastClaimedAt <= end)
            && SECONDS_PER_YEAR * YieldTo(b, txs, user) <= s.amount * (s'.lastClaimedAt - s.lastClaimedAt)
  {
    if txs != [] {
      var front, last := txs[..|txs| - 1], txs[|txs| - 1];
      YieldWithinPrincipalPerYear(b, front, user, end);
      var before := Run(b, front);
      assert KeepsStake([last], user, end);
      StakeMoves(before, last, user, end);
      hide Step, YieldBy, Accrued, KeepsStake;
      if YieldBy(before, last, user) > 0 {
        EarnedPerYear(before.stakes[user], before.rate, last.now);
        var s, t := b.stakes[user], before.stakes[user].lastClaimedAt;
        assert s.amount * (last.now - s.lastClaimedAt) == s.amount * (t - s.lastClaimedAt) + s.amount * (last.now - t);
      }
    }
  }

  lemma {:induction false} EarnedPerYear(s: Stake, rate: int, now: nat)
    requires s.amount > 0 && 0 <= rate <= BPS && Accrued(s, rate, now).Some?
    ensures SECONDS_PER_YEAR * Accrued(s, rate, now).value <= s.amount * Elapsed(s, now)
  {
    var e, earned := Elapsed(s, now), Accrued(s, rate, now).value;
    AccruedBounds(s, rate, now);
    MulMono(s.amount * e, rate, BPS);
    MulMono(s.amount, 0, e);
    assert s.amount * rate * e == s.amount * e * rate;
    hide Accrued, Elapsed;
    assert YIELD_UNIT * earned == BPS * (SECONDS_PER_YEAR * earned);
    assert BPS * (SECONDS_PER_YEAR * earned) <= BPS * (s.amount * e);
  }

  /** So any number of claims and a final unstake pay at most `floor(amount * T / SECONDS_PER_YEAR)`
      over the `T` seconds since the clock was started, whatever rates were set in between. */
  lemma {:induction false} YieldCap(b: Bank, txs: seq<Tx>, user: Address, tx: Tx)
    requires user in b.stakes && b.stakes[user].amount > 0 && LegalRate(b) && b.stakes[user].lastClaimedAt <= tx.now
    requires KeepsStake(txs, user, tx.now)
    requires tx.call == Unstake(user) && Apply(Run(b, txs), tx).Some?
    ensures YieldTo(b, txs + [tx], user) <= b.stakes[user].amount * (tx.now - b.stakes[user].lastClaimedAt) / SECONDS_PER_YEAR
  {
    assert (txs + [tx])[..|txs|] == txs;
    YieldWithinPrincipalPerYear(b, txs, user, tx.now);
    UnstakeYield(Run(b, txs), tx, user);
    var s, s' := b.stakes[user], Run(b, txs).stakes[user];
    EarnedPerYear(s', Run(b, txs).rate, tx.now);
    assert YieldTo(b, txs + [tx], user) == YieldTo(b, txs, user) + YieldBy(Run(b, txs), tx, user);
    hide KeepsStake, Run, YieldTo, YieldBy, Apply, Accrued;
    assert s.amount * (tx.now - s.lastClaimedAt) ==
           s.amount * (s'.lastClaimedAt - s.lastClaimedAt) + s.amount * (tx.now - s'.lastClaimedAt);
    DivAtLeast(s.amount * (tx.now - s.lastClaimedAt), SECONDS_PER_YEAR, YieldTo(b, txs + [tx], user));
  }

  // ----- recovery operations -----

  predicate Repeated(b: Bank, tx: Tx) {
    OpId(tx.call).Some? && OpId(tx.call).value in b.operations
  }

  /** The run without the calls whose operation id had already been recorded when they came. */
  function WithoutRepeats(b: Bank, txs: seq<Tx>): seq<Tx> {
    if txs == [] then [] else
      var front, last := txs[..|txs| - 1], txs[|txs| - 1];
      if Repeated(Run(b, front), last) then WithoutRepeats(b, front) else WithoutRepeats(b, front) + [last]
  }

  lemma RepeatChangesNothing(b: Bank, tx: Tx)
    requires Repeated(b, tx)
    ensures Step(b, tx) == b
  {
  }

  /** Exactly once: repeating recorded operations, in any number and with any arguments, leaves the
      whole contract as if only their first recordings had happened. */
  lemma {:induction false} RepeatsDoNotMatter(b: Bank, txs: seq<Tx>)
    ensures Run(b, WithoutRepeats(b, txs)) == Run(b, txs)
  {
    hide Step, Repeated;
    if txs != [] {
      var front, last := txs[..|txs| - 1], txs[|txs| - 1];
      RepeatsDoNotMatter(b, front);
      if Repeated(Run(b, front), last) {
        RepeatChangesNothing(Run(b, front), last);
      } else {
        var kept := WithoutRepeats(b, front);
        assert (kept + [last])[..|kept|] == kept;
      }
    }
  }

  lemma StepKeepsRecord(b: Bank, tx: Tx, op: nat)
    requires op in b.operations
    ensures op in Step(b, tx).operations && Step(b, tx).operations[op] == b.operations[op]
  {
    match tx.call {
      case SnapshotAccount(_, _) => hide Restore, Compensate, MoveFunds, ApplyStaking;
      case RestoreAccount(_, _) => hide TakeSnapshot, Compensate, MoveFunds, ApplyStaking;
      case RecoverTransaction(_, _, _) => hide TakeSnapshot, Restore, MoveFunds, ApplyStaking;
      case RecoverFunds(_, _, _, _) => hide TakeSnapshot, Restore, Compensate, ApplyStaking;
      case _ => hide ApplyRecovery, Accrued;
    }
  }

  lemma {:induction false} RecordsNeverChange(b: Bank, txs: seq<Tx>, op: nat)
    requires op in b.operations
    ensures op in Run(b, txs).operations && Run(b, txs).operations[op] == b.operations[op]
  {
    hide Step;
    if txs != [] {
      RecordsNeverChange(b, txs[..|txs| - 1], op);
      StepKeepsRecord(Run(b, txs[..|txs| - 1]), txs[|txs| - 1], op);
    }
  }

  /** A recovery call goes through, without being a repeat, just when it records its id. */
  lemma FreshMeansRecorded(b: Bank, tx: Tx)
    requires OpId(tx.call).Some? && !Repeated(b, tx)
    ensures Apply(b, tx).Some? <==> OpId(tx.call).value in Step(b, tx).operations
  {
  }

  predicate TakesSnapshot(b: Bank, tx: Tx, user: Address) {
    tx.call.SnapshotAccount? && tx.call.user == user && Apply(b, tx).Some? && !Repeated(b, tx)
  }

  predicate NoNewSnapshot(b: Bank, txs: seq<Tx>, user: Address) {
    txs != [] ==>
      var front := txs[..|txs| - 1];
      NoNewSnapshot(b, front, user) && !TakesSnapshot(Run(b, front), txs[|txs| - 1], user)
  }

  lemma StepKeepsSnapshot(b: Bank, tx: Tx, user: Address)
    requires user in b.snapshots && !TakesSnapshot(b, tx, user)
    ensures user in Step(b, tx).snapshots && Step(b, tx).snapshots[user] == b.snapshots[user]
  {
    match tx.call {
      case SnapshotAccount(_, _) => hide Restore, Compensate, MoveFunds, ApplyStaking;
      case RestoreAccount(_, _) => hide TakeSnapshot, Compensate, MoveFunds, ApplyStaking;
      case RecoverTransaction(_, _, _) => hide TakeSnapshot, Restore, MoveFunds, ApplyStaking;
      case RecoverFunds(_, _, _, _) => hide TakeSnapshot, Restore, Compensate, ApplyStaking;
      case _ => hide ApplyRecovery, Accrued;
    }
  }

  lemma {:induction false} SnapshotStays(b: Bank, txs: seq<Tx>, user: Address)
    requires user in b.snapshots && NoNewSnapshot(b, txs, user)
    ensures user in Run(b, txs).snapshots && Run(b, txs).snapshots[user] == b.snapshots[user]
  {
    hide Step, TakesSnapshot;
    if txs != [] {
      SnapshotStays(b, txs[..|txs| - 1], user);
      StepKeepsSnapshot(Run(b, txs[..|txs| - 1]), txs[|txs| - 1], user);
    }
  }

  /** A fresh restore, however long after, puts back exactly the balance and stake the user had at
      their latest snapshot, and touches nobody else. */
  lemma {:induction false} RestoreReinstates(b: Bank, take: Tx, txs: seq<Tx>, restore: Tx, user: Address)
    requires TakesSnapshot(b, take, user) && NoNewSnapshot(Step(b, take), txs, user)
    requires restore.call.RestoreAccount? && restore.call.user == user
    requires Apply(Run(Step(b, take), txs), restore).Some? && !Repeated(Run(Step(b, take), txs), restore)
    ensures var before, after := Run(Step(b, take), txs), Step(Run(Step(b, take), txs), restore);
            && BalanceOf(after, user) == BalanceOf(b, user) && StakeOf(after, user) == StakeOf(b, user)
            && forall other: Address :: other != user ==>
                 BalanceOf(after, other) == BalanceOf(before, other) && StakeOf(after, other) == StakeOf(before, other)
  {
    SnapshotTaken(b, take, user);
    SnapshotStays(Step(b, take), txs, user);
    RestoreEffect(Run(Step(b, take), txs), restore, user);
    hide Step, Run, TakesSnapshot, NoNewSnapshot, Apply;
  }

  lemma SnapshotTaken(b: Bank, tx: Tx, user: Address)
    requires TakesSnapshot(b, tx, user)
    ensures user in Step(b, tx).snapshots
    ensures Step(b, tx).snapshots[user].balance == BalanceOf(b, user) && Step(b, tx).snapshots[user].stake == StakeOf(b, user)
  {
  }

  lemma RestoreEffect(b: Bank, tx: Tx, user: Address)
    requires tx.call.RestoreAccount? && tx.call.user == user && Apply(b, tx).Some? && !Repeated(b, tx)
    ensures user in b.snapshots
    ensures BalanceOf(Step(b, tx), user) == b.snapshots[user].balance && StakeOf(Step(b, tx), user) == b.snapshots[user].stake
    ensures forall other: Address :: other != user ==>
              BalanceOf(Step(b, tx), other) == BalanceOf(b, other) && StakeOf(Step(b, tx), other) == StakeOf(b, other)
  {
  }

  // ----- conservation -----

  function Principal(s: Stake): int { s.amount }

  function PrincipalOf(s: Option<Stake>): int { if s.Some? then s.value.amount else 0 }

  /** Everything users hold: balances and staked principal. */
  ghost function Holdings(b: Bank): int { Sum(b.balances) + SumBy(b.stakes, Principal) }

  /** What an accepted call brings in from outside, or takes out. */
  function Inflow(b: Bank, tx: Tx): int {
    if Apply(b, tx).None? || Repeated(b, tx) then 0
    else
      match tx.call
      case ClaimReward(staker) => YieldBy(b, tx, staker)
      case Unstake(staker) => YieldBy(b, tx, staker)
      case Swap(_, amount, _, _, _) => -amount
      case SetBalance(user, amount) => amount - BalanceOf(b, user)
      case RecoverTransaction(_, delta, _) => delta
      case RecoverFunds(from, to, amount, _) => if from == to then amount else 0
      case RestoreAccount(user, _) =>
        if user in b.snapshots
        then b.snapshots[user].balance + PrincipalOf(b.snapshots[user].stake) - BalanceOf(b, user) - PrincipalOf(StakeOf(b, user))
        else 0
      case _ => 0
  }

  function TotalInflow(b: Bank, txs: seq<Tx>): int {
    if txs == [] then 0 else
      var front := txs[..|txs| - 1];
      TotalInflow(b, front) + Inflow(Run(b, front), txs[|txs| - 1])
  }

  lemma {:induction false} BalanceWritten(m: map<Address, int>, a: Address, amount: int)
    ensures Sum(m[a := amount]) == Sum(m) + amount - if a in m then m[a] else 0
  {
    SumByUpdate(m, a, amount, Same);
  }

  lemma {:induction false} StakeWritten(b: Bank, a: Address, s: Option<Stake>)
    ensures SumBy(WithStake(b, a, s).stakes, Principal) == SumBy(b.stakes, Principal) + PrincipalOf(s) - PrincipalOf(StakeOf(b, a))
  {
    if s.Some? {
      SumByUpdate(b.stakes, a, s.value, Principal);
    } else if a in b.stakes {
      SumByRemove(b.stakes, a, Principal);
    } else {
      assert b.stakes - {a} == b.stakes;
    }
  }

  lemma {:induction false} StakingFlow(b: Bank, tx: Tx)
    requires tx.call.OpenStake? || tx.call.Unstake? || tx.call.ClaimReward?
    ensures Holdings(Step(b, tx)) == Holdings(b) + Inflow(b, tx)
  {
    hide Accrued, ApplyRecovery;
    var user := tx.call.staker;
    BalanceWritten(b.balances, user, BalanceOf(Step(b, tx), user));
    StakeWritten(b, user, StakeOf(Step(b, tx), user));
  }

  lemma {:induction false} RestoreFlow(b: Bank, now: nat, user: Address, op: nat)
    requires Restore(b, now, user, op).Some?
    ensures user in b.snapshots
    ensures Holdings(Restore(b, now, user, op).value.bank) == Holdings(b)
            + b.snapshots[user].balance + PrincipalOf(b.snapshots[user].stake) - BalanceOf(b, user) - PrincipalOf(StakeOf(b, user))
  {
    BalanceWritten(b.balances, user, b.snapshots[user].balance);
    StakeWritten(b, user, b.snapshots[user].stake);
  }

  lemma {:induction false} CompensateFlow(b: Bank, now: nat, user: Address, delta: int, op: nat)
    requires Compensate(b, now, user, delta, op).Some?
    ensures Holdings(Compensate(b, now, user, delta, op).value.bank) == Holdings(b) + delta
  {
    BalanceWritten(b.balances, user, BalanceOf(b, user) + delta);
  }

  lemma {:induction false} MoveFundsFlow(b: Bank, now: nat, from: Address, to: Address, amount: int, op: nat)
    requires MoveFunds(b, now, from, to, amount, op).Some?
    ensures Holdings(MoveFunds(b, now, from, to, amount, op).value.bank) == Holdings(b) + if from == to then amount else 0
  {
    BalanceWritten(b.balances, from, BalanceOf(b, from) - amount);
    BalanceWritten(b.balances[from := BalanceOf(b, from) - amount], to, BalanceOf(b, to) + amount);
  }

  lemma TakeSnapshotFlow(b: Bank, now: nat, user: Address, op: nat)
    ensures TakeSnapshot(b, now, user, op).Some? && Holdings(TakeSnapshot(b, now, user, op).value.bank) == Holdings(b)
  {
  }

  lemma {:induction false} RecoveryFlow(b: Bank, tx: Tx)
    requires OpId(tx.call).Some?
    ensures Holdings(Step(b, tx)) == Holdings(b) + Inflow(b, tx)
  {
    if Repeated(b, tx) {
      RepeatChangesNothing(b, tx);
    } else if Apply(b, tx).Some? {
      match tx.call {
        case SnapshotAccount(user, op) => TakeSnapshotFlow(b, tx.now, user, op);
        case RestoreAccount(user, op) => RestoreFlow(b, tx.now, user, op);
        case RecoverTransaction(user, delta, op) => CompensateFlow(b, tx.now, user, delta, op);
        case RecoverFunds(from, to, amount, op) => MoveFundsFlow(b, tx.now, from, to, amount, op);
      }
    }
    hide TakeSnapshot, Restore, Compensate, MoveFunds, ApplyStaking, Holdings;
  }

  lemma {:induction false} StepFlow(b: Bank, tx: Tx)
    ensures Holdings(Step(b, tx)) == Holdings(b) + Inflow(b, tx)
  {
    if tx.call.OpenStake? || tx.call.Unstake? || tx.call.ClaimReward? {
      StakingFlow(b, tx);
    } else if OpId(tx.call).Some? {
      RecoveryFlow(b, tx);
    } else if tx.call.SetBalance? || tx.call.Swap? {
      BalanceWritten(b.balances, tx.call.user, BalanceOf(Step(b, tx), tx.call.user));
    }
  }

  /** Over any run balances and staked principal together change by exactly the yield paid, less
      the points swapped, plus recovery deltas and outright settings. */
  lemma {:induction false} HoldingsAreConserved(b: Bank, txs: seq<Tx>)
    ensures Holdings(Run(b, txs)) == Holdings(b) + TotalInflow(b, txs)
  {
    hide Step, Inflow, Holdings;
    if txs != [] {
      HoldingsAreConserved(b, txs[..|txs| - 1]);
      StepFlow(Run(b, txs[..|txs| - 1]), txs[|txs| - 1]);
    }
  }

  /** Moving funds between users conserves them exactly when the users differ: moved from a user to
      themself, the amount is added. */
  lemma {:induction false} RecoverFundsConserves(b: Bank, tx: Tx)
    requires tx.call.RecoverFunds? && Apply(b, tx).Some? && !Repeated(b, tx)
    ensures Holdings(Step(b, tx)) == Holdings(b) <==> tx.call.from != tx.call.to
  {
    StepFlow(b, tx);
  }

  // ----- signs -----

  predicate StakePositive(s: Option<Stake>) { s.Some? ==> s.value.amount > 0 }

  predicate Positive(b: Bank) {
    && 0 <= b.rate <= BPS
    && (forall a :: a in b.balances ==> b.balances[a] >= 0)
    && (forall a :: a in b.stakes ==> b.stakes[a].amount > 0)
    && (forall a :: a in b.snapshots ==> b.snapshots[a].balance >= 0 && StakePositive(b.snapshots[a].stake))
  }

  lemma StakingKeepsPositive(b: Bank, tx: Tx)
    requires Positive(b) && (tx.call.OpenStake? || tx.call.Unstake? || tx.call.ClaimReward?)
    ensures Positive(Step(b, tx))
  {
    var staker := tx.call.staker;
    if !tx.call.OpenStake? && staker in b.stakes && Accrued(b.stakes[staker], b.rate, tx.now).Some? {
      AccruedBounds(b.stakes[staker], b.rate, tx.now);
    }
    hide Accrued, ApplyRecovery;
  }

  lemma RecoveryKeepsPositive(b: Bank, tx: Tx)
    requires Positive(b) && OpId(tx.call).Some?
    ensures Positive(Step(b, tx))
  {
    match tx.call {
      case SnapshotAccount(_, _) => hide Restore, Compensate, MoveFunds, ApplyStaking;
      case RestoreAccount(_, _) => hide TakeSnapshot, Compensate, MoveFunds, ApplyStaking;
      case RecoverTransaction(_, _, _) => hide TakeSnapshot, Restore, MoveFunds, ApplyStaking;
      case RecoverFunds(_, _, _, _) => hide TakeSnapshot, Restore, Compensate, ApplyStaking;
      case _ => hide ApplyRecovery, Accrued;
    }
  }

  lemma StepKeepsPositive(b: Bank, tx: Tx)
    requires Positive(b) && (tx.call.SetBalance? ==> tx.call.amount >= 0)
    ensures Positive(Step(b, tx))
  {
    hide ApplyStaking, ApplyRecovery;
    if tx.call.OpenStake? || tx.call.Unstake? || tx.call.ClaimReward? {
      StakingKeepsPositive(b, tx);
    } else if OpId(tx.call).Some? {
      RecoveryKeepsPositive(b, tx);
    }
  }

  /** Balances and snapshots never go negative and stakes stay positive, as long as balances are
      not set negative from outside. */
  lemma {:induction false} RunKeepsPositive(b: Bank, txs: seq<Tx>)
    requires Positive(b)
    requires forall i :: 0 <= i < |txs| ==> txs[i].call.SetBalance? ==> txs[i].call.amount >= 0
    ensures Positive(Run(b, txs))
  {
    hide Step, Positive;
    if txs != [] {
      RunKeepsPositive(b, txs[..|txs| - 1]);
      StepKeepsPositive(Run(b, txs[..|txs| - 1]), txs[|txs| - 1]);
    }
  }

  // ----- pausing -----

  predicate UserCall(call: Call) { call.OpenStake? || call.Unstake? || call.ClaimReward? || call.Swap? }

  /** A contract that reports itself paused lets no user operation through. More is turned away than
      that: an operation that would otherwise succeed fails exactly while the pause is reported, or
      while the contract is paused with an expiry on record that has passed. */
  lemma {:induction false} PauseOutlivesItsReport(b: Bank, tx: Tx)
    requires UserCall(tx.call)
    ensures IsPaused(b, tx.now) ==> Apply(b, tx).None?
    ensures Apply(b.(paused := false), tx).Some? ==>
              (Apply(b, tx).None? <==> IsPaused(b, tx.now) || (b.paused && 0 < b.expiry <= tx.now))
  {
    if !b.paused {
      assert b.(paused := false) == b;
    }
  }

  predicate SetsExpiry(call: Call) { call.Pause? || call.Unpause? || call.EmergencyPause? }

  /** An expiry stays on record until a call sets or clears it: resuming does not clear it, and pausing for
      recovery does not renew it. */
  lemma ExpiryStays(b: Bank, tx: Tx)
    requires !SetsExpiry(tx.call)
    ensures Step(b, tx).expiry == b.expiry && Step(b, tx).admin == b.admin
  {
    match tx.call {
      case SnapshotAccount(_, _) => hide Restore, Compensate, MoveFunds, ApplyStaking;
      case RestoreAccount(_, _) => hide TakeSnapshot, Compensate, MoveFunds, ApplyStaking;
      case RecoverTransaction(_, _, _) => hide TakeSnapshot, Restore, MoveFunds, ApplyStaking;
      case RecoverFunds(_, _, _, _) => hide TakeSnapshot, Restore, Compensate, ApplyStaking;
      case _ => hide ApplyRecovery, Accrued;
    }
  }

  /** So a recovery pause is never reported once an emergency pause before it has run out, lifted or
      not, until `pause`, `unpause` or another emergency pause comes; and yet it blocks every user
      operation. */
  lemma {:induction false} RecoveryPauseGoesUnreported(b: Bank, txs: seq<Tx>, pause: Tx, tx: Tx)
    requires 0 < b.expiry <= tx.now && forall i :: 0 <= i < |txs| ==> !SetsExpiry(txs[i].call)
    requires pause.call == PauseForRecovery && b.admin in pause.signed
    ensures Run(b, txs).admin == b.admin && Run(b, txs).expiry == b.expiry
    ensures var b' := Step(Run(b, txs), pause);
            b'.paused && !IsPaused(b', tx.now) && (UserCall(tx.call) ==> Apply(b', tx).None?)
  {
    if txs != [] {
      var front, last := txs[..|txs| - 1], txs[|txs| - 1];
      RecoveryPauseGoesUnreported(b, front, pause, tx);
      ExpiryStays(Run(b, front), last);
    }
    hide ApplyRecovery, Accrued;
  }

  /** An emergency pause of ten seconds, lifted after five, and a recovery pause at twenty: users
      are blocked, and the contract reports no pause. */
  lemma LiftedPauseStillMisleads(b: Bank)
    requires b.admin == 1
    ensures var txs := [Tx(0, {1}, EmergencyPause(10)), Tx(5, {1}, Resume), Tx(20, {1}, PauseForRecovery)];
            var b' := Step(Step(Step(b, txs[0]), txs[1]), txs[2]);
            && !Step(Step(b, txs[0]), txs[1]).paused
            && b'.paused && b'.expiry == 10 && !IsPaused(b', 20)
            && forall tx: Tx :: UserCall(tx.call) ==> Apply(b', tx).None?
  {
    hide ApplyRecovery, Accrued;
  }
}
