/** The vesting contract: linear schedules with a cliff, paid from one pool, revocable by the
    admin. A call that panics or returns an error leaves the contract unchanged. */
module Vesting {
  import opened Prelude

  datatype Schedule = Schedule(total: int, start: nat, cliff: nat, duration: nat,
                               released: int, revoked: bool, revokedAmount: int)

  type Key = (Address, nat)

  datatype Vault = Vault(admin: Option<Address>, pool: int, schedules: map<Key, Schedule>, nextId: map<Address, nat>)

  datatype Failure =
    | NotInitialized | Unauthorized | InvalidSchedule | NothingToRelease | InsufficientPool | Panic

  datatype Call =
    | Fund(caller: Address, amount: int)
    | Create(caller: Address, beneficiary: Address, total: int, start: nat, cliff: nat, duration: nat)
    | Claim(beneficiary: Address, id: nat)
    | Revoke(caller: Address, beneficiary: Address, id: nat)

  /** A call at ledger time `now`, authorized by the addresses in `signed`. */
  datatype Tx = Tx(now: nat, signed: set<Address>, call: Call)

  type Reply = Result<int, Failure>

  // ----- the vesting curve -----

  /** What `create_schedule` accepts; `u64` and `i128` sums and products must fit. */
  predicate Acceptable(total: int, start: nat, cliff: nat, duration: nat) {
    duration > 0 && total > 0 && start + cliff <= U64_MAX && start + duration <= U64_MAX &&
    total * duration <= I128_MAX
  }

  /** The vested amount as a mathematical function of time. */
  function Vested(s: Schedule, now: int): int {
    if s.revoked then s.revokedAmount
    else if now < s.start + s.cliff || s.duration == 0 then 0
    else if now - s.start >= s.duration then s.total
    else s.total * (now - s.start) / s.duration
  }

  /** The same computation in machine integers: `None` where `i128` or `u64` arithmetic traps. */
  function VestedChecked(s: Schedule, now: nat): Option<int> {
    if s.revoked then Some(s.revokedAmount)
    else if now < Min(s.start + s.cliff, U64_MAX) then Some(0)
    else if now < s.start then None
    else
      var elapsed := now - s.start;
      if elapsed >= s.duration then Some(s.total)
      else if IsI128(s.total * elapsed) then Some(s.total * elapsed / s.duration)
      else None
  }

  lemma {:induction false} VestedGrows(s: Schedule, t: nat, u: nat)
    requires t <= u && s.total >= 0 && s.duration > 0
    ensures s.revoked ==> Vested(s, t) == Vested(s, u) == s.revokedAmount
    ensures !s.revoked ==> 0 <= Vested(s, t) <= Vested(s, u) <= s.total
  {
    if !s.revoked {
      VestedInRange(s, t);
      VestedInRange(s, u);
      if s.start + s.cliff <= t && u - s.start < s.duration {
        MulMono(s.total, t - s.start, u - s.start);
        DivMono(s.total * (t - s.start), s.total * (u - s.start), s.duration);
      }
    }
  }

  lemma {:induction false} VestedInRange(s: Schedule, now: nat)
    requires !s.revoked && s.total >= 0 && s.duration > 0
    ensures 0 <= Vested(s, now) <= s.total
  {
    var e := now - s.start;
    if s.start + s.cliff <= now && e < s.duration {
      MulMono(s.total, 0, e);
      MulMono(s.total, e, s.duration);
      DivAtLeast(s.total * e, s.duration, 0);
      DivAtMost(s.total * e, s.duration, s.total);
    }
  }

  /** No accepted schedule can trap, at any `u64` time. */
  lemma {:induction false} AcceptedNeverTraps(s: Schedule, now: nat)
    requires Acceptable(s.total, s.start, s.cliff, s.duration) && now <= U64_MAX
    ensures VestedChecked(s, now) == Some(Vested(s, now))
  {
    var e := now - s.start;
    if !s.revoked && s.start + s.cliff <= now && e < s.duration {
      MulMono(s.total, 0, e);
      MulMono(s.total, e, s.duration);
    }
  }

  /** Without the product guard, a schedule that passes the others would trap at some time exactly
      when its last partial instalment does not fit, and there is such an instalment. */
  lemma {:induction false} ProductGuardIsNeeded(s: Schedule)
    requires !s.revoked && s.total > 0 && s.duration > 0
    requires s.start + s.cliff <= U64_MAX && s.start + s.duration <= U64_MAX
    ensures (exists now: nat :: now <= U64_MAX && VestedChecked(s, now).None?) <==>
            s.cliff < s.duration && s.total * (s.duration - 1) > I128_MAX
  {
    var last := s.start + s.duration - 1;
    if s.cliff < s.duration && s.total * (s.duration - 1) > I128_MAX {
      assert VestedChecked(s, last).None?;
    }
    forall now: nat | now <= U64_MAX && VestedChecked(s, now).None?
      ensures s.cliff < s.duration && s.total * (s.duration - 1) > I128_MAX
    {
      MulMono(s.total, 0, now - s.start);
      MulMono(s.total, now - s.start, s.duration - 1);
    }
  }

  // ----- the operations -----

  function RequireAdmin(v: Vault, caller: Address, signed: set<Address>): Option<Failure> {
    if v.admin.None? then Some(NotInitialized)
    else if caller != v.admin.value then Some(Unauthorized)
    else if caller !in signed then Some(Panic)
    else None
  }

  function NextId(v: Vault, beneficiary: Address): nat {
    if beneficiary in v.nextId then v.nextId[beneficiary] else 0
  }

  /** What a claim would release, and what a revocation would give back; `None` where the
      contract would trap. */
  function Due(s: Schedule, now: nat): Option<int> {
    var vested := VestedChecked(s, now);
    if vested.None? || !IsI128(vested.value - s.released) then None else Some(vested.value - s.released)
  }

  function Unvested(s: Schedule, now: nat): Option<int> {
    var vested := VestedChecked(s, now);
    if vested.None? || !IsI128(s.total - vested.value) then None else Some(s.total - vested.value)
  }

  /** One call, all or nothing. */
  function Apply(v: Vault, tx: Tx): (Vault, Reply) {
    match tx.call
    case Fund(caller, amount) =>
      var refused := RequireAdmin(v, caller, tx.signed);
      if refused.Some? then (v, Err(refused.value))
      else if amount <= 0 || v.pool + amount > I128_MAX then (v, Err(Panic))
      else (v.(pool := v.pool + amount), Ok(0))
    case Create(caller, beneficiary, total, start, cliff, duration) =>
      var refused := RequireAdmin(v, caller, tx.signed);
      var id := NextId(v, beneficiary);
      if refused.Some? then (v, Err(refused.value))
      else if !Acceptable(total, start, cliff, duration) then (v, Err(InvalidSchedule))
      else if id >= U32_MAX then (v, Err(Panic))
      else
        var s := Schedule(total, start, cliff, duration, 0, false, 0);
        (v.(schedules := v.schedules[(beneficiary, id) := s], nextId := v.nextId[beneficiary := id + 1]), Ok(id))
    case Claim(beneficiary, id) =>
      if v.admin.None? then (v, Err(NotInitialized))
      else if (beneficiary, id) !in v.schedules then (v, Err(Panic))
      else
        var s := v.schedules[(beneficiary, id)];
        var due := Due(s, tx.now);
        if due.None? then (v, Err(Panic))
        else if due.value <= 0 then (v, Err(NothingToRelease))
        else if v.pool < due.value then (v, Err(InsufficientPool))
        else (v.(pool := v.pool - due.value,
                 schedules := v.schedules[(beneficiary, id) := s.(released := s.released + due.value)]), Ok(due.value))
    case Revoke(caller, beneficiary, id) =>
      var refused := RequireAdmin(v, caller, tx.signed);
      if refused.Some? then (v, Err(refused.value))
      else if (beneficiary, id) !in v.schedules || v.schedules[(beneficiary, id)].revoked then (v, Err(Panic))
      else
        var s := v.schedules[(beneficiary, id)];
        var rest := Unvested(s, tx.now);
        if rest.None? || (rest.value > 0 && v.pool + rest.value > I128_MAX) then (v, Err(Panic))
        else (v.(pool := v.pool + Max(rest.value, 0),
                 schedules := v.schedules[(beneficiary, id) := s.(revoked := true, revokedAmount := s.total - rest.value)]),
              Ok(rest.value))
  }

  function Initialize(admin: Address): Vault { Vault(Some(admin), 0, map[], map[]) }

  function Run(v: Vault, txs: seq<Tx>): Vault {
    if txs == [] then v else Apply(Run(v, txs[..|txs| - 1]), txs[|txs| - 1]).0
  }

  /** Ledger time never goes back, and stays within `u64`. */
  predicate Ordered(txs: seq<Tx>) {
    && (forall i :: 0 <= i < |txs| ==> txs[i].now <= U64_MAX)
    && (forall i, j :: 0 <= i < j < |txs| ==> txs[i].now <= txs[j].now)
  }

  // ----- what every run keeps -----

  /** A schedule as it can stand at time `now`: accepted at creation, and paid no more than has vested. */
  predicate Sound(s: Schedule, now: nat) {
    && Acceptable(s.total, s.start, s.cliff, s.duration)
    && 0 <= s.released <= Vested(s, now)
    && (s.revoked ==> s.revokedAmount <= s.total)
  }

  predicate AllSound(v: Vault, now: nat) {
    forall k :: k in v.schedules ==> Sound(v.schedules[k], now)
  }

  lemma {:induction false} SoundLater(v: Vault, now: nat, later: nat)
    requires AllSound(v, now) && now <= later
    ensures AllSound(v, later)
  {
    forall k | k in v.schedules ensures Sound(v.schedules[k], later) {
      VestedGrows(v.schedules[k], now, later);
    }
  }

  /** On a sound schedule neither a claim nor a revocation traps in its arithmetic. */
  lemma SoundNeverTraps(s: Schedule, now: nat)
    requires Sound(s, now) && now <= U64_MAX
    ensures 0 <= Vested(s, now) <= s.total
    ensures Due(s, now) == Some(Vested(s, now) - s.released) && Unvested(s, now) == Some(s.total - Vested(s, now))
  {
    if !s.revoked {
      VestedInRange(s, now);
    }
    MulMono(s.total, 1, s.duration);
    AcceptedNeverTraps(s, now);
    hide Vested, VestedChecked;
  }

  lemma {:induction false} ApplyKeepsSound(v: Vault, tx: Tx)
    requires AllSound(v, tx.now) && tx.now <= U64_MAX
    ensures AllSound(Apply(v, tx).0, tx.now)
  {
    match tx.call
    case Create(_, beneficiary, total, start, cliff, duration) =>
      if duration > 0 && total > 0 {
        VestedInRange(Schedule(total, start, cliff, duration, 0, false, 0), tx.now);
      }
    case Revoke(_, beneficiary, id) =>
      if (beneficiary, id) in v.schedules {
        SoundNeverTraps(v.schedules[(beneficiary, id)], tx.now);
      }
    case Claim(beneficiary, id) =>
      if (beneficiary, id) in v.schedules {
        SoundNeverTraps(v.schedules[(beneficiary, id)], tx.now);
      }
    case _ =>
  }

  lemma {:induction false} RunKeepsSound(admin: Address, txs: seq<Tx>, now: nat)
    requires Ordered(txs) && (txs != [] ==> txs[|txs| - 1].now <= now)
    ensures AllSound(Run(Initialize(admin), txs), now)
  {
    if txs != [] {
      var last := txs[|txs| - 1];
      RunKeepsSound(admin, txs[..|txs| - 1], last.now);
      ApplyKeepsSound(Run(Initialize(admin), txs[..|txs| - 1]), last);
      SoundLater(Run(Initialize(admin), txs), last.now, now);
    }
  }

  // ----- conservation -----

  function Released(s: Schedule): int { s.released }

  function Returned(s: Schedule): int { if s.revoked then s.total - s.revokedAmount else 0 }

  /** What the schedule may still pay out. */
  function Owed(s: Schedule): int { if s.revoked then s.revokedAmount - s.released else s.total - s.released }

  ghost function TotalReleased(v: Vault): int { SumBy(v.schedules, Released) }
  ghost function TotalReturned(v: Vault): int { SumBy(v.schedules, Returned) }
  ghost function Liability(v: Vault): int { SumBy(v.schedules, Owed) }

  function Deposit(tx: Tx, reply: Reply): int { if tx.call.Fund? && reply.Ok? then tx.call.amount else 0 }

  /** The deposits accepted by `fund_pool` in a run. */
  function Funded(v: Vault, txs: seq<Tx>): int {
    if txs == [] then 0 else
      var front := txs[..|txs| - 1];
      var last := txs[|txs| - 1];
      Funded(v, front) + Deposit(last, Apply(Run(v, front), last).1)
  }

  /** Every schedule was accepted, and new ids are fresh. */
  predicate WellFormed(v: Vault) {
    forall k :: k in v.schedules ==>
      var s := v.schedules[k];
      k.1 < NextId(v, k.0) && Acceptable(s.total, s.start, s.cliff, s.duration)
  }

  lemma UnvestedIsRest(s: Schedule, now: nat)
    requires Acceptable(s.total, s.start, s.cliff, s.duration) && !s.revoked
    ensures Unvested(s, now).Some? ==> 0 <= Unvested(s, now).value == s.total - Vested(s, now)
  {
    VestedInRange(s, now);
  }

  lemma {:induction false} ScheduleSums(v: Vault, k: Key, s: Schedule)
    ensures SumBy(v.schedules[k := s], Released) ==
            TotalReleased(v) + s.released - if k in v.schedules then v.schedules[k].released else 0
    ensures SumBy(v.schedules[k := s], Returned) ==
            TotalReturned(v) + Returned(s) - if k in v.schedules then Returned(v.schedules[k]) else 0
    ensures SumBy(v.schedules[k := s], Owed) ==
            Liability(v) + Owed(s) - if k in v.schedules then Owed(v.schedules[k]) else 0
  {
    SumByUpdate(v.schedules, k, s, Released);
    SumByUpdate(v.schedules, k, s, Returned);
    SumByUpdate(v.schedules, k, s, Owed);
  }

  /** How one call moves the pool and the sums over all schedules. A revocation raises the slack
      by twice what it returns: the debt falls and the pool rises. */
  ghost predicate Moves(v: Vault, tx: Tx) {
    var (v', reply) := Apply(v, tx);
    && WellFormed(v')
    && v'.pool - v.pool == Deposit(tx, reply) - (TotalReleased(v') - TotalReleased(v)) + TotalReturned(v') - TotalReturned(v)
    && (!tx.call.Revoke? && reply.Ok? ==>
          v'.pool - Liability(v') == v.pool - Liability(v) + Deposit(tx, reply) - if tx.call.Create? then tx.call.total else 0)
    && (tx.call.Revoke? && reply.Ok? ==>
          v'.pool - Liability(v') == v.pool - Liability(v) + 2 * reply.value)
  }

  lemma {:induction false} ApplyMoves(v: Vault, tx: Tx)
    requires WellFormed(v)
    ensures Moves(v, tx)
  {
    match tx.call
    case Fund(_, _) =>
    case Create(_, _, _, _, _, _) => CreateMoves(v, tx);
    case Claim(_, _) => ClaimMoves(v, tx);
    case Revoke(_, _, _) => RevokeMoves(v, tx);
  }

  lemma {:induction false} CreateMoves(v: Vault, tx: Tx)
    requires WellFormed(v) && tx.call.Create?
    ensures Moves(v, tx)
  {
    var call := tx.call;
    ScheduleSums(v, (call.beneficiary, NextId(v, call.beneficiary)),
                 Schedule(call.total, call.start, call.cliff, call.duration, 0, false, 0));
    hide Acceptable;
  }

  lemma {:induction false} ClaimMoves(v: Vault, tx: Tx)
    requires WellFormed(v) && tx.call.Claim?
    ensures Moves(v, tx)
  {
    hide Due, Acceptable;
    var k := (tx.call.beneficiary, tx.call.id);
    if k in v.schedules && Due(v.schedules[k], tx.now).Some? {
      ScheduleSums(v, k, v.schedules[k].(released := v.schedules[k].released + Due(v.schedules[k], tx.now).value));
    }
  }

  lemma {:induction false} RevokeMoves(v: Vault, tx: Tx)
    requires WellFormed(v) && tx.call.Revoke?
    ensures Moves(v, tx)
  {
    hide Unvested, Vested, Acceptable;
    var k := (tx.call.beneficiary, tx.call.id);
    if k in v.schedules && !v.schedules[k].revoked && Unvested(v.schedules[k], tx.now).Some? {
      UnvestedIsRest(v.schedules[k], tx.now);
      ScheduleSums(v, k, v.schedules[k].(revoked := true, revokedAmount := v.schedules[k].total - Unvested(v.schedules[k], tx.now).value));
    }
  }

  /** The pool is what was deposited less what was released plus what was given back. */
  ghost predicate Conserved(v: Vault, funded: int) {
    WellFormed(v) && v.pool == funded - TotalReleased(v) + TotalReturned(v)
  }

  lemma {:induction false} PoolIsConserved(admin: Address, txs: seq<Tx>)
    ensures Conserved(Run(Initialize(admin), txs), Funded(Initialize(admin), txs))
  {
    if txs != [] {
      PoolIsConserved(admin, txs[..|txs| - 1]);
      ApplyMoves(Run(Initialize(admin), txs[..|txs| - 1]), txs[|txs| - 1]);
    }
  }

  /** If this call is a revocation that goes through, what it gives back has been paid out by claims and
      not been given back before. */
  ghost predicate Modest(v: Vault, tx: Tx) {
    tx.call.Revoke? && Apply(v, tx).1.Ok? ==>
      var k := (tx.call.beneficiary, tx.call.id);
      k in v.schedules && v.schedules[k].total - Vested(v.schedules[k], tx.now) <= TotalReleased(v) - TotalReturned(v)
  }

  /** A pool within the deposits stays there exactly if the call is modest: only a revocation can
      take it beyond them. */
  lemma {:induction false} PoolWithinFunding(v: Vault, tx: Tx, funded: int)
    requires Conserved(v, funded) && v.pool <= funded
    ensures Apply(v, tx).0.pool <= funded + Deposit(tx, Apply(v, tx).1) <==> Modest(v, tx)
  {
    if tx.call.Revoke? {
      var k := (tx.call.beneficiary, tx.call.id);
      if k in v.schedules && !v.schedules[k].revoked {
        UnvestedIsRest(v.schedules[k], tx.now);
      }
      hide Unvested, Vested, Acceptable, TotalReleased, TotalReturned;
    } else {
      ClaimsOnlyPay(v, tx);
      hide Apply;
    }
  }

  lemma ClaimsOnlyPay(v: Vault, tx: Tx)
    requires !tx.call.Revoke?
    ensures Apply(v, tx).0.pool <= v.pool + Deposit(tx, Apply(v, tx).1)
  {
    hide Due, Acceptable;
  }

  /** The pool is within the deposits after every call of the run. */
  ghost predicate StaysWithin(v: Vault, txs: seq<Tx>) {
    Run(v, txs).pool <= Funded(v, txs) && (txs != [] ==> StaysWithin(v, txs[..|txs| - 1]))
  }

  ghost predicate AllModest(v: Vault, txs: seq<Tx>) {
    txs != [] ==> AllModest(v, txs[..|txs| - 1]) && Modest(Run(v, txs[..|txs| - 1]), txs[|txs| - 1])
  }

  /** So the pool never exceeds the deposits in a run exactly if every revocation in it is modest. */
  lemma {:induction false} PoolStaysWithinFunding(admin: Address, txs: seq<Tx>)
    ensures StaysWithin(Initialize(admin), txs) <==> AllModest(Initialize(admin), txs)
  {
    if txs != [] {
      var front, last := txs[..|txs| - 1], txs[|txs| - 1];
      PoolStaysWithinFunding(admin, front);
      PoolIsConserved(admin, front);
      hide Modest, Apply, WellFormed;
      var v := Run(Initialize(admin), front);
      if v.pool <= Funded(Initialize(admin), front) {
        PoolWithinFunding(v, last, Funded(Initialize(admin), front));
      }
    }
  }

  /** It need not: nothing is set aside when a schedule is created, yet revoking it adds to the pool. */
  lemma {:induction false} PoolCanExceedFunding()
    ensures var txs := [Tx(0, {1}, Fund(1, 100)), Tx(0, {1}, Create(1, 2, 100, 10, 0, 10)), Tx(0, {1}, Revoke(1, 2, 0))];
            Ordered(txs) && Funded(Initialize(1), txs) == 100 && Run(Initialize(1), txs).pool == 200
  {
    var txs := [Tx(0, {1}, Fund(1, 100)), Tx(0, {1}, Create(1, 2, 100, 10, 0, 10)), Tx(0, {1}, Revoke(1, 2, 0))];
    var v0 := Initialize(1);
    assert txs[..2][..1] == txs[..1] && txs[..1][..0] == [] && txs[..1][0] == txs[0] && txs[..2][1] == txs[1];
    var v1 := v0.(pool := 100);
    assert Run(v0, txs[..1]) == v1 && Funded(v0, txs[..1]) == 100;
    var s := Schedule(100, 10, 0, 10, 0, false, 0);
    var v2 := Vault(Some(1), 100, map[(2, 0) := s], map[2 := 1]);
    assert Run(v0, txs[..2]) == v2 && Funded(v0, txs[..2]) == 100;
    assert Run(v0, txs) == Apply(v2, txs[2]).0 && Vested(s, 0) == 0;
  }

  // ----- solvency -----

  ghost predicate Solvent(v: Vault) { v.pool >= Liability(v) }

  /** Funding, claiming and revoking never endanger solvency; creating a schedule keeps it
      exactly when the slack covers the new total. */
  lemma {:induction false} SolvencyKept(v: Vault, tx: Tx)
    requires WellFormed(v) && AllSound(v, tx.now) && Solvent(v) && tx.now <= U64_MAX
    ensures !tx.call.Create? || Apply(v, tx).1.Err? ==> Solvent(Apply(v, tx).0)
    ensures tx.call.Create? && Apply(v, tx).1.Ok? ==>
              (Solvent(Apply(v, tx).0) <==> v.pool - Liability(v) >= tx.call.total)
  {
    ApplyMoves(v, tx);
    if tx.call.Revoke? && (tx.call.beneficiary, tx.call.id) in v.schedules {
      SoundNeverTraps(v.schedules[(tx.call.beneficiary, tx.call.id)], tx.now);
    }
    hide Unvested, Due, Vested, Acceptable, AllSound, WellFormed;
  }

  /** From a solvent vault no claim is ever turned away for want of funds. */
  lemma {:induction false} SolventPays(v: Vault, now: nat, signed: set<Address>, beneficiary: Address, id: nat)
    requires AllSound(v, now) && Solvent(v) && now <= U64_MAX
    ensures Apply(v, Tx(now, signed, Claim(beneficiary, id))).1 != Err(InsufficientPool)
  {
    var k := (beneficiary, id);
    if k in v.schedules {
      forall j | j in v.schedules ensures Owed(v.schedules[j]) >= Vested(v.schedules[j], now) - v.schedules[j].released >= 0 {
        if !v.schedules[j].revoked {
          VestedInRange(v.schedules[j], now);
        }
      }
      SumByBounds(v.schedules, k, Owed);
      SoundNeverTraps(v.schedules[k], now);
    }
  }

  /** A run in which every creation that went through was covered by the slack of the moment. */
  ghost predicate Prudent(v: Vault, txs: seq<Tx>) {
    txs != [] ==>
      var front := txs[..|txs| - 1];
      var last := txs[|txs| - 1];
      Prudent(v, front) &&
      (last.call.Create? && Apply(Run(v, front), last).1.Ok? ==> last.call.total <= Run(v, front).pool - Liability(Run(v, front)))
  }

  /** If every creation was covered, every later claim finds the pool sufficient. */
  lemma {:induction false} PrudentRunsPay(admin: Address, txs: seq<Tx>, now: nat, signed: set<Address>, beneficiary: Address, id: nat)
    requires Ordered(txs) && (txs != [] ==> txs[|txs| - 1].now <= now) && now <= U64_MAX
    requires Prudent(Initialize(admin), txs)
    ensures Solvent(Run(Initialize(admin), txs))
    ensures Apply(Run(Initialize(admin), txs), Tx(now, signed, Claim(beneficiary, id))).1 != Err(InsufficientPool)
  {
    PrudentRunsSolvent(admin, txs);
    RunKeepsSound(admin, txs, now);
    SolventPays(Run(Initialize(admin), txs), now, signed, beneficiary, id);
  }

  lemma {:induction false} PrudentRunsSolvent(admin: Address, txs: seq<Tx>)
    requires Ordered(txs) && Prudent(Initialize(admin), txs)
    ensures Solvent(Run(Initialize(admin), txs))
  {
    if txs != [] {
      PrudentRunsSolvent(admin, txs[..|txs| - 1]);
      PoolIsConserved(admin, txs[..|txs| - 1]);
      RunKeepsSound(admin, txs[..|txs| - 1], txs[|txs| - 1].now);
      SolvencyKept(Run(Initialize(admin), txs[..|txs| - 1]), txs[|txs| - 1]);
    }
  }

  // ----- claims -----

  function Paid(tx: Tx, reply: Reply, k: Key): int {
    if tx.call == Claim(k.0, k.1) && reply.Ok? then reply.value else 0
  }

  /** Everything the schedule's claims have paid in a run. */
  function Received(v: Vault, txs: seq<Tx>, k: Key): int {
    if txs == [] then 0 else
      var front := txs[..|txs| - 1];
      var last := txs[|txs| - 1];
      Received(v, front, k) + Paid(last, Apply(Run(v, front), last).1, k)
  }

  function ReleasedTo(v: Vault, k: Key): int { if k in v.schedules then v.schedules[k].released else 0 }

  lemma ApplyPays(v: Vault, tx: Tx, k: Key)
    requires WellFormed(v)
    ensures ReleasedTo(Apply(v, tx).0, k) == ReleasedTo(v, k) + Paid(tx, Apply(v, tx).1, k)
  {
    hide Acceptable, Due, Unvested;
  }

  lemma {:induction false} ReceivedIsReleased(admin: Address, txs: seq<Tx>, k: Key)
    ensures Received(Initialize(admin), txs, k) == ReleasedTo(Run(Initialize(admin), txs), k)
  {
    hide Apply, WellFormed;
    if txs != [] {
      var front, last := txs[..|txs| - 1], txs[|txs| - 1];
      ReceivedIsReleased(admin, front, k);
      PoolIsConserved(admin, front);
      ApplyPays(Run(Initialize(admin), front), last, k);
    }
  }

  /** However many claims came before, and whatever else happened, once a claim at `now` has been
      answered without the pool falling short the beneficiary has received exactly the vested
      amount: rounding never accumulates, and the path of claims does not matter. */
  lemma {:induction false} ClaimsAreExact(admin: Address, txs: seq<Tx>, now: nat, signed: set<Address>, k: Key)
    requires Ordered(txs) && (txs != [] ==> txs[|txs| - 1].now <= now <= U64_MAX)
    requires k in Run(Initialize(admin), txs).schedules
    requires Apply(Run(Initialize(admin), txs), Tx(now, signed, Claim(k.0, k.1))).1 != Err(InsufficientPool)
    ensures Received(Initialize(admin), txs + [Tx(now, signed, Claim(k.0, k.1))], k) ==
            Vested(Run(Initialize(admin), txs).schedules[k], now)
  {
    var claim := Tx(now, signed, Claim(k.0, k.1));
    assert (txs + [claim])[..|txs|] == txs;
    RunKeepsSound(admin, txs, now);
    SoundNeverTraps(Run(Initialize(admin), txs).schedules[k], now);
    ReceivedIsReleased(admin, txs, k);
    AdminStays(admin, txs);
  }

  lemma {:induction false} AdminStays(admin: Address, txs: seq<Tx>)
    ensures Run(Initialize(admin), txs).admin == Some(admin)
  {
    if txs != [] {
      AdminStays(admin, txs[..|txs| - 1]);
    }
  }

  /** The revoked schedule `s` has become `s'` by claims alone, and none went past what had vested. */
  predicate Frozen(s: Schedule, s': Schedule) {
    s' == s.(released := s'.released) && s.released <= s'.released <= Max(s.released, s.revokedAmount)
  }

  lemma ApplyFreezes(v: Vault, tx: Tx, k: Key)
    requires WellFormed(v) && k in v.schedules && v.schedules[k].revoked
    ensures k in Apply(v, tx).0.schedules && Frozen(v.schedules[k], Apply(v, tx).0.schedules[k])
    ensures WellFormed(Apply(v, tx).0)
  {
    hide Acceptable;
  }

  /** A revoked schedule keeps its vested amount through any later run, and never pays beyond it. */
  lemma {:induction false} RevocationFreezes(v: Vault, txs: seq<Tx>, k: Key)
    requires WellFormed(v) && k in v.schedules && v.schedules[k].revoked
    ensures WellFormed(Run(v, txs))
    ensures k in Run(v, txs).schedules && Frozen(v.schedules[k], Run(v, txs).schedules[k])
  {
    hide WellFormed, Apply;
    if txs != [] {
      RevocationFreezes(v, txs[..|txs| - 1], k);
      ApplyFreezes(Run(v, txs[..|txs| - 1]), txs[|txs| - 1], k);
    }
  }

  // ----- the terms a schedule was created on -----

  /** What a schedule on these terms has vested by `now`: nothing before the cliff, all of it at the end,
      and in between the whole units of an even flow. */
  predicate Accrues(total: int, start: nat, cliff: nat, duration: nat, now: nat, amount: int) {
    if now < start + cliff then amount == 0
    else if now >= start + duration then amount == total
    else duration * amount <= total * (now - start) < duration * (amount + 1)
  }

  lemma {:induction false} VestedAccrues(s: Schedule, now: nat)
    requires !s.revoked && s.duration > 0
    ensures Accrues(s.total, s.start, s.cliff, s.duration, now, Vested(s, now))
  {
    DivBounds(s.total * (now - s.start), s.duration);
  }

  /** The terms asked for are acceptable, in the contract's own integers. */
  predicate Sensible(total: int, start: nat, cliff: nat, duration: nat) {
    && 0 < total && 0 < duration && total * duration <= 0x7FFF_FFFF_FFFF_FFFF_FFFF_FFFF_FFFF_FFFF
    && start + Max(cliff, duration) <= 0xFFFF_FFFF_FFFF_FFFF
  }

  predicate ByAdmin(v: Vault, caller: Address, signed: set<Address>) {
    v.admin == Some(caller) && caller in signed
  }

  /** A creation that goes through adds one schedule, on exactly the terms asked for and with nothing
      released, under its beneficiary's next id; it moves no funds. */
  lemma CreateEffect(v: Vault, now: nat, signed: set<Address>, caller: Address, beneficiary: Address,
                     total: int, start: nat, cliff: nat, duration: nat)
    ensures var (v', reply) := Apply(v, Tx(now, signed, Create(caller, beneficiary, total, start, cliff, duration)));
            var id := if beneficiary in v.nextId then v.nextId[beneficiary] else 0;
            && (reply.Ok? <==> ByAdmin(v, caller, signed) && Sensible(total, start, cliff, duration) && id < 0xFFFF_FFFF)
            && (reply.Ok? ==>
                  && reply == Ok(id) && v'.pool == v.pool && v'.admin == v.admin
                  && v'.schedules == v.schedules[(beneficiary, id) := Schedule(total, start, cliff, duration, 0, false, 0)]
                  && v'.nextId == v.nextId[beneficiary := id + 1])
            && (reply == Err(InvalidSchedule) <==> ByAdmin(v, caller, signed) && !Sensible(total, start, cliff, duration))
  {
  }

  lemma FundEffect(v: Vault, now: nat, signed: set<Address>, caller: Address, amount: int)
    ensures var (v', reply) := Apply(v, Tx(now, signed, Fund(caller, amount)));
            && (reply.Ok? <==> ByAdmin(v, caller, signed) && amount > 0 && v.pool + amount <= I128_MAX)
            && v' == if reply.Ok? then v.(pool := v.pool + amount) else v
  {
  }

  /** A revocation that goes through adds what has not vested to the pool and answers with it, and
      leaves what has vested to the beneficiary; no other schedule is touched. */
  lemma {:induction false} RevokeEffect(v: Vault, now: nat, signed: set<Address>, caller: Address, beneficiary: Address, id: nat, vested: int)
    requires AllSound(v, now) && now <= U64_MAX
    requires var k := (beneficiary, id);
             k in v.schedules && !v.schedules[k].revoked ==>
               var s := v.schedules[k]; Accrues(s.total, s.start, s.cliff, s.duration, now, vested)
    ensures var (v', reply) := Apply(v, Tx(now, signed, Revoke(caller, beneficiary, id)));
            var k := (beneficiary, id);
            && (reply.Ok? <==> ByAdmin(v, caller, signed) && k in v.schedules && !v.schedules[k].revoked
                               && (vested < v.schedules[k].total ==> v.pool + v.schedules[k].total - vested <= I128_MAX))
            && (reply.Ok? ==>
                  var s := v.schedules[k];
                  && reply == Ok(s.total - vested) && v'.pool == v.pool + s.total - vested
                  && v'.schedules == v.schedules[k := s.(revoked := true, revokedAmount := vested)])
  {
    var k := (beneficiary, id);
    if k in v.schedules && !v.schedules[k].revoked {
      var s := v.schedules[k];
      SoundNeverTraps(s, now);
      VestedAccrues(s, now);
      AccruesOnce(s.total, s.start, s.cliff, s.duration, now, vested, Vested(s, now));
    }
    hide Accrues, Unvested, Vested;
  }

  /** A claim is refused exactly if nothing more has vested or the pool falls short; otherwise it pays
      all that has vested and not been paid, from the pool, and marks it paid on that schedule alone. */
  lemma {:induction false} ClaimEffect(v: Vault, now: nat, signed: set<Address>, beneficiary: Address, id: nat, vested: int)
    requires AllSound(v, now) && now <= U64_MAX && v.admin.Some? && (beneficiary, id) in v.schedules
    requires var s := v.schedules[(beneficiary, id)];
             if s.revoked then vested == s.revokedAmount else Accrues(s.total, s.start, s.cliff, s.duration, now, vested)
    ensures var (v', reply) := Apply(v, Tx(now, signed, Claim(beneficiary, id)));
            var k := (beneficiary, id);
            var s := v.schedules[k];
            if vested <= s.released then v' == v && reply == Err(NothingToRelease)
            else if v.pool < vested - s.released then v' == v && reply == Err(InsufficientPool)
            else
              && reply == Ok(vested - s.released)
              && v' == Vault(v.admin, v.pool - (vested - s.released), v.schedules[k := s.(released := vested)], v.nextId)
  {
    var s := v.schedules[(beneficiary, id)];
    SoundNeverTraps(s, now);
    if !s.revoked {
      VestedAccrues(s, now);
      AccruesOnce(s.total, s.start, s.cliff, s.duration, now, vested, Vested(s, now));
    }
    hide Accrues, Due;
  }

  lemma {:induction false} AccruesOnce(total: int, start: nat, cliff: nat, duration: nat, now: nat, a: int, b: int)
    requires duration > 0 && Accrues(total, start, cliff, duration, now, a) && Accrues(total, start, cliff, duration, now, b)
    ensures a == b
  {
    if a < b {
      MulMono(duration, a + 1, b);
    } else if b < a {
      MulMono(duration, b + 1, a);
    }
  }

  /** When the run revoked the schedule, if it did. */
  function RevokedAt(v: Vault, txs: seq<Tx>, k: Key): Option<nat> {
    if txs == [] then None else
      var front, last := txs[..|txs| - 1], txs[|txs| - 1];
      if last.call.Revoke? && (last.call.beneficiary, last.call.id) == k && Apply(Run(v, front), last).1.Ok? then Some(last.now)
      else RevokedAt(v, front, k)
  }

  /** The schedule still stands on terms `s`; if it was revoked, it was at `at`. */
  predicate OnTerms(v: Vault, k: Key, s: Schedule, at: Option<nat>) {
    && k in v.schedules
    && var s' := v.schedules[k];
       match at
       case None => s' == s.(released := s'.released)
       case Some(t) => s' == s.(released := s'.released, revoked := true, revokedAmount := Vested(s, t))
  }

  lemma {:induction false} ApplyKeepsTerms(v: Vault, tx: Tx, k: Key, s: Schedule, at: Option<nat>)
    requires WellFormed(v) && !s.revoked && OnTerms(v, k, s, at)
    ensures OnTerms(Apply(v, tx).0, k, s,
                    if tx.call.Revoke? && (tx.call.beneficiary, tx.call.id) == k && Apply(v, tx).1.Ok? then Some(tx.now) else at)
  {
    if at.None? {
      UnvestedIsRest(v.schedules[k], tx.now);
    }
    hide Due, Unvested, Acceptable;
  }

  lemma {:induction false} RunKeepsTerms(v: Vault, txs: seq<Tx>, k: Key)
    requires WellFormed(v) && k in v.schedules && !v.schedules[k].revoked
    ensures WellFormed(Run(v, txs)) && OnTerms(Run(v, txs), k, v.schedules[k], RevokedAt(v, txs, k))
  {
    hide OnTerms, Apply, WellFormed;
    if txs == [] {
      TermsBegin(v, k);
    } else {
      var front, last := txs[..|txs| - 1], txs[|txs| - 1];
      RunKeepsTerms(v, front, k);
      ApplyMoves(Run(v, front), last);
      ApplyKeepsTerms(Run(v, front), last, k, v.schedules[k], RevokedAt(v, front, k));
    }
  }

  lemma TermsBegin(v: Vault, k: Key)
    requires k in v.schedules
    ensures OnTerms(v, k, v.schedules[k], None)
  {
  }

  lemma {:induction false} RunOnward(v: Vault, txs: seq<Tx>, more: seq<Tx>)
    ensures Run(v, txs + more) == Run(Run(v, txs), more)
  {
    if more == [] {
      assert txs + more == txs;
    } else {
      assert (txs + more)[..|txs + more| - 1] == txs + more[..|more| - 1];
      RunOnward(v, txs, more[..|more| - 1]);
    }
  }

  /** The state just after the schedule was created. */
  lemma {:induction false} Created(admin: Address, before: seq<Tx>, create: Tx)
    requires create.call.Create? && Apply(Run(Initialize(admin), before), create).1.Ok?
    ensures var c := create.call;
            var k := (c.beneficiary, Apply(Run(Initialize(admin), before), create).1.value);
            var v := Run(Initialize(admin), before + [create]);
            && WellFormed(v) && k in v.schedules
            && v.schedules[k] == Schedule(c.total, c.start, c.cliff, c.duration, 0, false, 0) && c.duration > 0
  {
    assert (before + [create])[..|before|] == before;
    PoolIsConserved(admin, before + [create]);
    hide WellFormed;
  }

  /** However a schedule is claimed, and whatever else happens: once a claim has been answered without
      the pool falling short, its beneficiary has received what the terms that were asked for
      at its creation have vested by then, or by its revocation if it was revoked before. */
  lemma {:induction false} ClaimsFollowTheTerms(admin: Address, before: seq<Tx>, create: Tx, after: seq<Tx>, now: nat, signed: set<Address>, k: Key)
    requires var txs := before + [create] + after; Ordered(txs) && txs[|txs| - 1].now <= now <= U64_MAX
    requires create.call.Create? && Apply(Run(Initialize(admin), before), create).1.Ok?
    requires k == (create.call.beneficiary, Apply(Run(Initialize(admin), before), create).1.value)
    requires var claim := Tx(now, signed, Claim(k.0, k.1));
             Apply(Run(Initialize(admin), before + [create] + after), claim).1 != Err(InsufficientPool)
    ensures var c, claim := create.call, Tx(now, signed, Claim(k.0, k.1));
            var end := RevokedAt(Run(Initialize(admin), before + [create]), after, k).GetOr(now);
            Accrues(c.total, c.start, c.cliff, c.duration, end,
                    Received(Initialize(admin), before + [create] + after + [claim], k))
  {
    var v := Run(Initialize(admin), before + [create]);
    Created(admin, before, create);
    hide Apply, Run, Ordered, Vested, Received, WellFormed, Accrues;
    RunKeepsTerms(v, after, k);
    RunOnward(Initialize(admin), before + [create], after);
    ClaimsAreExact(admin, before + [create] + after, now, signed, k);
    TermsAccrue(Run(v, after), k, v.schedules[k], RevokedAt(v, after, k), now);
  }

  lemma {:induction false} TermsAccrue(v: Vault, k: Key, s: Schedule, at: Option<nat>, now: nat)
    requires OnTerms(v, k, s, at) && !s.revoked && s.duration > 0
    ensures Accrues(s.total, s.start, s.cliff, s.duration, at.GetOr(now), Vested(v.schedules[k], now))
  {
    VestedAccrues(s, at.GetOr(now));
    hide Accrues;
  }

  // ----- the contract in place -----

  class VestingContract {
    var admin: Option<Address>
    var pool: int
    var schedules: map<Key, Schedule>
    var nextId: map<Address, nat>

    ghost function State(): Vault
      reads this
    {
      Vault(admin, pool, schedules, nextId)
    }

    constructor (admin: Address)
      ensures State() == Initialize(admin)
    {
      this.admin, pool, schedules, nextId := Some(admin), 0, map[], map[];
    }

    method CheckAdmin(caller: Address, signed: set<Address>) returns (refused: Option<Failure>)
      ensures refused == RequireAdmin(State(), caller, signed)
    {
      if admin.None? {
        return Some(NotInitialized);
      }
      if caller != admin.value {
        return Some(Unauthorized);
      }
      refused := if caller in signed then None else Some(Panic);
    }

    method FundPool(now: nat, signed: set<Address>, caller: Address, amount: int) returns (reply: Reply)
      modifies this`pool
      ensures (State(), reply) == Apply(old(State()), Tx(now, signed, Fund(caller, amount)))
    {
      var refused := CheckAdmin(caller, signed);
      if refused.Some? {
        return Err(refused.value);
      }
      if amount <= 0 || pool + amount > I128_MAX {
        return Err(Panic);
      }
      pool := pool + amount;
      reply := Ok(0);
    }

    method CreateSchedule(now: nat, signed: set<Address>, caller: Address, beneficiary: Address,
                          total: int, start: nat, cliff: nat, duration: nat) returns (reply: Reply)
      modifies this`schedules, this`nextId
      ensures (State(), reply) == Apply(old(State()), Tx(now, signed, Create(caller, beneficiary, total, start, cliff, duration)))
    {
      var refused := CheckAdmin(caller, signed);
      if refused.Some? {
        return Err(refused.value);
      }
      if duration == 0 || total <= 0 {
        return Err(InvalidSchedule);
      }
      if start + cliff > U64_MAX || start + duration > U64_MAX || total * duration > I128_MAX {
        return Err(InvalidSchedule);
      }
      var id := if beneficiary in nextId then nextId[beneficiary] else 0;
      if id >= U32_MAX {
        return Err(Panic);
      }
      schedules := schedules[(beneficiary, id) := Schedule(total, start, cliff, duration, 0, false, 0)];
      nextId := nextId[beneficiary := id + 1];
      reply := Ok(id);
    }

    /** `None` where the contract would trap. */
    method VestedAmount(s: Schedule, now: nat) returns (vested: Option<int>)
      ensures vested == VestedChecked(s, now)
    {
      if s.revoked {
        return Some(s.revokedAmount);
      }
      if now < Min(s.start + s.cliff, U64_MAX) {
        return Some(0);
      }
      if now < s.start {
        return None;
      }
      var elapsed := now - s.start;
      if elapsed >= s.duration {
        return Some(s.total);
      }
      var product := s.total * elapsed;
      if !IsI128(product) {
        return None;
      }
      vested := Some(product / s.duration);
    }

    method ClaimVested(now: nat, signed: set<Address>, beneficiary: Address, id: nat) returns (reply: Reply)
      modifies this`pool, this`schedules
      ensures (State(), reply) == Apply(old(State()), Tx(now, signed, Claim(beneficiary, id)))
    {
      if admin.None? {
        return Err(NotInitialized);
      }
      var key := (beneficiary, id);
      if key !in schedules {
        return Err(Panic);
      }
      var schedule := schedules[key];
      var vested := VestedAmount(schedule, now);
      if vested.None? || !IsI128(vested.value - schedule.released) {
        return Err(Panic);
      }
      hide VestedChecked, Acceptable;
      var releasable := vested.value - schedule.released;
      if releasable <= 0 {
        return Err(NothingToRelease);
      }
      if pool < releasable {
        return Err(InsufficientPool);
      }
      pool := pool - releasable;
      schedules := schedules[key := schedule.(released := schedule.released + releasable)];
      reply := Ok(releasable);
    }

    method RevokeSchedule(now: nat, signed: set<Address>, caller: Address, beneficiary: Address, id: nat) returns (reply: Reply)
      modifies this`pool, this`schedules
      ensures (State(), reply) == Apply(old(State()), Tx(now, signed, Revoke(caller, beneficiary, id)))
    {
      var refused := CheckAdmin(caller, signed);
      if refused.Some? {
        return Err(refused.value);
      }
      var key := (beneficiary, id);
      if key !in schedules || schedules[key].revoked {
        return Err(Panic);
      }
      var schedule := schedules[key];
      var vested := VestedAmount(schedule, now);
      if vested.None? || !IsI128(schedule.total - vested.value) {
        return Err(Panic);
      }
      hide VestedChecked, Acceptable;
      var unvested := schedule.total - vested.value;
      if unvested > 0 {
        if pool + unvested > I128_MAX {
          return Err(Panic);
        }
        pool := pool + unvested;
      }
      schedules := schedules[key := schedule.(revoked := true, revokedAmount := vested.value)];
      reply := Ok(unvested);
    }
  }
}
