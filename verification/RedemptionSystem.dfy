/** Any number of `redeemReward` and `recordPointTransaction` calls in flight at once, one SQL
    statement at a time, in any order, under READ COMMITTED: a transaction's writes stay private
    until it commits, `FOR UPDATE` and unique-index insertions wait for the holder of the row or
    key and then see the latest committed version, and a lost connection rolls back. */
module RedemptionSystem {
  import opened Prelude
  import opened PointsDatabase

  /** The statement a transaction is about to run. */
  datatype Pc =
    | CheckKey | CheckAmount | CommitReplay | LockReward | EnsureBalance | LockBalance
    | TakeStock | InsertRow | InsertRedemption | Commit | Ended

  datatype Writes = Writes(balance: Option<int>, stock: Option<int>,
                           row: Option<LedgerRow>, redemption: Option<Redemption>)

  const NO_WRITES := Writes(None, None, None, None)

  /** `chosen`, `before` and `found` are the rows the client code has read so far. */
  datatype Txn = Txn(call: Call, pc: Pc, chosen: Reward, before: int, found: Option<Redemption>,
                     writes: Writes, reply: Option<Reply>)

  datatype Resource = RewardLock(reward: nat) | BalanceLock(user: nat) | KeyLock(key: string)

  /** `log` lists the transactions that reached COMMIT, in that order. */
  datatype Sys = Sys(db: Db, txns: seq<Txn>, locks: map<Resource, nat>, log: seq<nat>)

  datatype Move =
    | Wait(holder: nat)
    | Go(next: Txn, take: Option<Resource>)
    | Stop(reply: Reply, db: Db)

  datatype Event = Advance(t: nat) | Abort(t: nat)

  function Begin(call: Call): Txn {
    Txn(call, if call.Redeem? then CheckKey else CheckAmount, Reward(0, 0, false, false), 0, None, NO_WRITES, None)
  }

  function Start(init: Db, calls: seq<Call>): Sys {
    Sys(init, seq(|calls|, i requires 0 <= i < |calls| => Begin(calls[i])), map[], [])
  }

  predicate Free(s: Sys, res: Resource, t: nat) { res in s.locks ==> s.locks[res] == t }

  function Row(t: nat, x: Txn): LedgerRow { Charge(t, x.call, PointCost(x.chosen), x.before) }

  function Receive(t: nat, x: Txn): Redemption
    requires x.call.Redeem?
  {
    Redemption(x.call.user, x.call.reward, PointCost(x.chosen), x.call.key, t)
  }

  /** What COMMIT makes visible. */
  function Publish(db: Db, w: Writes, call: Call): Db {
    Db(if w.stock.Some? && call.Redeem? && call.reward in db.rewards
       then db.rewards[call.reward := db.rewards[call.reward].(stock := w.stock.value)] else db.rewards,
       if w.balance.Some? then db.balances[call.user := w.balance.value] else db.balances,
       if w.row.Some? then db.ledger + [w.row.value] else db.ledger,
       if w.redemption.Some? then db.redemptions + [w.redemption.value] else db.redemptions)
  }

  /** The effect of the next statement of transaction `t`. */
  function Decide(s: Sys, t: nat): Move
    requires t < |s.txns| && s.txns[t].pc != Ended
  {
    var x := s.txns[t];
    var call := x.call;
    var user := call.user;
    match x.pc
    case CheckKey =>
      if !call.Redeem? then Stop(Refused(CheckViolation), s.db) else
      var found := FindKey(s.db.redemptions, call.key);
      if found.Some? then Go(x.(pc := CommitReplay, found := found), None)
      else Go(x.(pc := LockReward), None)
    case CheckAmount =>
      if !call.Record? || call.amount == 0 then Stop(Refused(ZeroAmount), s.db)
      else Go(x.(pc := EnsureBalance), None)
    case CommitReplay =>
      if x.found.None? then Stop(Refused(NotFound), s.db) else Stop(Replayed(x.found.value), s.db)
    case LockReward =>
      if !call.Redeem? || call.reward !in s.db.rewards then Stop(Refused(NotFound), s.db)
      else if !Free(s, RewardLock(call.reward), t) then Wait(s.locks[RewardLock(call.reward)])
      else
        var chosen := s.db.rewards[call.reward];
        if RewardRefusal(chosen).Some? then Stop(Refused(RewardRefusal(chosen).value), s.db)
        else Go(x.(pc := EnsureBalance, chosen := chosen), Some(RewardLock(call.reward)))
    case EnsureBalance =>
      if user in s.db.balances then Go(x.(pc := LockBalance), None)
      else if !Free(s, BalanceLock(user), t) then Wait(s.locks[BalanceLock(user)])
      else Go(x.(pc := LockBalance, writes := x.writes.(balance := Some(0))), Some(BalanceLock(user)))
    case LockBalance =>
      if !Free(s, BalanceLock(user), t) then Wait(s.locks[BalanceLock(user)])
      else
        var x' := x.(pc := if call.Redeem? then TakeStock else InsertRow,
                     before := x.writes.balance.GetOr(Balance(s.db, user)));
        if Row(t, x').after < 0 then Stop(Refused(Insufficient), s.db)
        else Go(x', Some(BalanceLock(user)))
    case TakeStock =>
      if !call.Redeem? || call.reward !in s.db.rewards then Go(x.(pc := InsertRow), None)
      else
        var stock := s.db.rewards[call.reward].stock - 1;
        if stock < 0 then Stop(Refused(CheckViolation), s.db)
        else Go(x.(pc := InsertRow, writes := x.writes.(stock := Some(stock))), None)
    case InsertRow =>
      var row := Row(t, x);
      if RowRefusal(row).Some? then Stop(Refused(RowRefusal(row).value), s.db)
      else Go(x.(pc := if call.Redeem? then InsertRedemption else Commit,
                 writes := x.writes.(row := Some(row), balance := Some(row.after))), None)
    case InsertRedemption =>
      if !call.Redeem? then Stop(Refused(CheckViolation), s.db)
      else if !Free(s, KeyLock(call.key), t) then Wait(s.locks[KeyLock(call.key)])
      else if FindKey(s.db.redemptions, call.key).Some? then Stop(Refused(DuplicateKey), s.db)
      else if PointCost(x.chosen) <= 0 then Stop(Refused(CheckViolation), s.db)
      else
        Go(x.(pc := Commit, writes := x.writes.(redemption := Some(Receive(t, x)))), Some(KeyLock(call.key)))
    case Commit =>
      var w := x.writes;
      Stop(if w.row.None? then Refused(NotFound)
           else if w.redemption.Some? then Fresh(w.redemption.value, w.row.value)
           else Recorded(w.row.value),
           Publish(s.db, w, call))
  }

  function Release(locks: map<Resource, nat>, t: nat): map<Resource, nat> {
    map res | res in locks && locks[res] != t :: locks[res]
  }

  function End(s: Sys, t: nat, reply: Reply, db: Db): Sys
    requires t < |s.txns|
  {
    Sys(db, s.txns[t := s.txns[t].(pc := Ended, reply := Some(reply))], Release(s.locks, t),
        if reply.Refused? then s.log else s.log + [t])
  }

  /** One scheduling decision. A transaction that must wait, or has ended, is left as it is. */
  function Step(s: Sys, e: Event): Sys {
    if e.t >= |s.txns| || s.txns[e.t].pc == Ended then s
    else if e.Abort? then End(s, e.t, Refused(ConnectionLost), s.db)
    else
      match Decide(s, e.t)
      case Wait(_) => s
      case Go(next, take) =>
        s.(txns := s.txns[e.t := next],
           locks := if take.Some? then s.locks[take.value := e.t] else s.locks)
      case Stop(reply, db) => End(s, e.t, reply, db)
  }

  function Run(s: Sys, es: seq<Event>): Sys {
    if es == [] then s else Step(Run(s, es[..|es| - 1]), es[|es| - 1])
  }

  predicate LogFor(log: seq<nat>, calls: seq<Call>) {
    forall i :: 0 <= i < |log| ==> log[i] < |calls|
  }

  /** The tables after the calls listed in `log` have run one at a time. */
  function Replay(init: Db, calls: seq<Call>, log: seq<nat>): Db
    requires LogFor(log, calls)
  {
    if log == [] then init else
      var t := log[|log| - 1];
      Execute(Replay(init, calls, log[..|log| - 1]), t, calls[t]).0
  }

  // ----- the invariant -----

  /** How far a transaction has come; locks are taken at ranks 1, 2 or 3, and 6. */
  function Rank(pc: Pc): nat {
    match pc
    case CheckKey => 0 case CheckAmount => 0 case CommitReplay => 1 case LockReward => 1
    case EnsureBalance => 2 case LockBalance => 3 case TakeStock => 4 case InsertRow => 5
    case InsertRedemption => 6 case Commit => 7 case Ended => 8
  }

  predicate Holds(x: Txn, res: Resource) {
    match res
    case RewardLock(r) => x.call.Redeem? && x.call.reward == r && 2 <= Rank(x.pc) <= 7
    case BalanceLock(u) => x.call.user == u && (4 <= Rank(x.pc) <= 7 || (x.pc == LockBalance && x.writes.balance.Some?))
    case KeyLock(k) => x.call.Redeem? && x.call.key == k && x.pc == Commit
  }

  /** What the client has read is still true of the committed tables. */
  predicate ReadsHold(db: Db, x: Txn) {
    var redeem := x.call.Redeem?;
    && (2 <= Rank(x.pc) <= 7 && redeem ==> x.call.reward in db.rewards && db.rewards[x.call.reward] == x.chosen)
    && (x.pc == LockBalance ==> (x.call.user in db.balances <==> x.writes.balance.None?))
    && (4 <= Rank(x.pc) <= 7 ==> x.before == Balance(db, x.call.user))
    && (redeem && x.pc == CommitReplay ==> FindKey(db.redemptions, x.call.key) == x.found)
    && (redeem && x.pc == Commit ==> FindKey(db.redemptions, x.call.key).None?)
    && (redeem && x.pc == Ended && x.reply.Some? && !x.reply.value.Refused? ==>
          FindKey(db.redemptions, x.call.key) == Receipt(x.reply.value))
  }

  /** The private writes are the ones the statements run so far would make. */
  predicate WritesMatch(t: nat, x: Txn) {
    var redeem := x.call.Redeem?;
    && (x.reply.Some? <==> x.pc == Ended)
    && (x.pc in {CheckKey, CommitReplay, LockReward, TakeStock, InsertRedemption} ==> redeem)
    && (x.pc == CheckAmount ==> !redeem)
    && (x.pc == CommitReplay ==> x.found.Some?)
    && (2 <= Rank(x.pc) <= 7 ==> if redeem then RewardRefusal(x.chosen).None? else x.call.amount != 0)
    && (Rank(x.pc) <= 2 ==> x.writes == NO_WRITES)
    && (x.pc == LockBalance ==> x.writes in {NO_WRITES, NO_WRITES.(balance := Some(0))})
    && (4 <= Rank(x.pc) <= 7 ==> Row(t, x).after >= 0)
    && (4 <= Rank(x.pc) <= 6 ==> x.writes.redemption.None?)
    && (5 <= Rank(x.pc) <= 7 ==> x.writes.stock == if redeem then Some(x.chosen.stock - 1) else None)
    && (6 <= Rank(x.pc) <= 7 ==>
          x.writes.row == Some(Row(t, x)) && RowRefusal(Row(t, x)).None? && x.writes.balance == Some(Row(t, x).after))
    && (x.pc == Commit ==>
          x.writes.redemption == if redeem then Some(Receive(t, x)) else None)
    && (redeem && x.pc == Ended && !x.reply.value.Refused? ==> Receipt(x.reply.value).Some?)
  }

  predicate InStep(db: Db, t: nat, x: Txn) {
    ReadsHold(db, x) && WritesMatch(t, x)
  }

  function Receipt(reply: Reply): Option<Redemption> {
    match reply
    case Fresh(r, _) => Some(r)
    case Replayed(r) => Some(r)
    case _ => None
  }

  ghost predicate LocksHeld(s: Sys) {
    && (forall res :: res in s.locks ==> s.locks[res] < |s.txns| && Holds(s.txns[s.locks[res]], res))
    && (forall t: nat, res :: t < |s.txns| && Holds(s.txns[t], res) ==> res in s.locks && s.locks[res] == t)
  }

  predicate AllInStep(s: Sys) {
    forall t: nat :: t < |s.txns| ==> InStep(s.db, t, s.txns[t])
  }

  predicate ForCalls(s: Sys, calls: seq<Call>) {
    |s.txns| == |calls| && forall t :: 0 <= t < |calls| ==> s.txns[t].call == calls[t]
  }

  /** Each committed call was answered as it would have been alone, after the ones before it. */
  predicate AnsweredInTurn(init: Db, calls: seq<Call>, s: Sys)
    requires LogFor(s.log, calls) && ForCalls(s, calls)
  {
    forall i :: 0 <= i < |s.log| ==>
      s.txns[s.log[i]].reply == Some(Execute(Replay(init, calls, s.log[..i]), s.log[i], calls[s.log[i]]).1)
  }

  /** The log lists, once each, exactly the calls that were not refused. */
  predicate LogIsExact(s: Sys) {
    && (forall i, j :: 0 <= i < j < |s.log| ==> s.log[i] != s.log[j])
    && (forall t: nat :: t < |s.txns| ==> (t in s.log <==> s.txns[t].reply.Some? && !s.txns[t].reply.value.Refused?))
  }

  /** The log and the committed tables agree with a serial execution, replies included. */
  predicate Serial(init: Db, calls: seq<Call>, s: Sys) {
    && LogFor(s.log, calls) && ForCalls(s, calls) && LogIsExact(s)
    && s.db == Replay(init, calls, s.log)
    && AnsweredInTurn(init, calls, s)
  }

  ghost predicate Good(init: Db, calls: seq<Call>, s: Sys) {
    LocksHeld(s) && AllInStep(s) && Serial(init, calls, s)
  }

  // ----- one step at a time -----

  lemma GoKeepsReads(s: Sys, t: nat)
    requires t < |s.txns| && s.txns[t].pc != Ended && InStep(s.db, t, s.txns[t])
    requires Decide(s, t).Go?
    ensures ReadsHold(s.db, Decide(s, t).next)
  {
    hide Charge, PointCost, RowRefusal, FindKey;
  }

  lemma GoKeepsWrites(s: Sys, t: nat)
    requires t < |s.txns| && s.txns[t].pc != Ended && InStep(s.db, t, s.txns[t])
    requires Decide(s, t).Go?
    ensures WritesMatch(t, Decide(s, t).next)
    ensures Decide(s, t).next.call == s.txns[t].call && Decide(s, t).next.reply.None?
    ensures Rank(Decide(s, t).next.pc) > Rank(s.txns[t].pc)
  {
    hide FindKey;
  }

  lemma GoKeepsStep(s: Sys, t: nat)
    requires t < |s.txns| && s.txns[t].pc != Ended && InStep(s.db, t, s.txns[t])
    requires Decide(s, t).Go?
    ensures InStep(s.db, t, Decide(s, t).next)
    ensures Decide(s, t).next.call == s.txns[t].call && Decide(s, t).next.reply.None?
    ensures Rank(Decide(s, t).next.pc) > Rank(s.txns[t].pc)
  {
    GoKeepsReads(s, t);
    GoKeepsWrites(s, t);
    hide Decide, ReadsHold, WritesMatch;
  }

  /** A step takes exactly the lock that its new position is meant to hold. */
  lemma GoTakesLock(s: Sys, t: nat, res: Resource)
    requires t < |s.txns| && s.txns[t].pc != Ended && InStep(s.db, t, s.txns[t])
    requires Decide(s, t).Go?
    ensures Holds(Decide(s, t).next, res) <==> Holds(s.txns[t], res) || Decide(s, t).take == Some(res)
    ensures Decide(s, t).take == Some(res) ==> Free(s, res, t)
  {
  }

  /** COMMIT publishes exactly what the whole call would do if it ran alone at that moment. */
  lemma StopIsSerial(s: Sys, t: nat)
    requires t < |s.txns| && s.txns[t].pc != Ended && InStep(s.db, t, s.txns[t])
    requires Decide(s, t).Stop?
    ensures Decide(s, t).reply.Refused? ==> Decide(s, t).db == s.db
    ensures !Decide(s, t).reply.Refused? ==> Execute(s.db, t, s.txns[t].call) == (Decide(s, t).db, Decide(s, t).reply)
  {
    var x := s.txns[t];
    if x.pc == Commit {
      var (db, reply) := Execute(s.db, t, x.call);
      assert Row(t, x) == Charge(t, x.call, if x.call.Redeem? then PointCost(x.chosen) else 0, Balance(s.db, x.call.user));
    }
  }

  /** A reason for refusing call `t` that can be seen in the tables. A duplicate key is stored there, and
      but for it the call would succeed; anything else is the answer that the call would get alone,
      stored keys aside. */
  predicate Justified(db: Db, t: nat, call: Call, why: Refusal) {
    if why == DuplicateKey
    then call.Redeem? && FindKey(db.redemptions, call.key).Some? && Execute(Unkeyed(db), t, call).1.Fresh?
    else Execute(Unkeyed(db), t, call).1 == Refused(why)
  }

  lemma RefusalIsJustified(s: Sys, t: nat)
    requires t < |s.txns| && s.txns[t].pc != Ended && InStep(s.db, t, s.txns[t])
    requires Decide(s, t).Stop? && Decide(s, t).reply.Refused?
    ensures Justified(s.db, t, s.txns[t].call, Decide(s, t).reply.why)
  {
  }
}
