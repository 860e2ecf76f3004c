/** What holds of every schedule of the concurrent points system: it is serializable in commit
    order, it never deadlocks, and every fair schedule finishes. */
module RedemptionTheorems {
  import opened Prelude
  import opened PointsDatabase
  import opened RedemptionSystem

  // ----- serializability -----

  /** What COMMIT does to each table. */
  lemma PublishEffect(db: Db, t: nat, x: Txn, key: string)
    requires x.pc == Commit && InStep(db, t, x)
    ensures Publish(db, x.writes, x.call).balances == db.balances[x.call.user := Row(t, x).after]
    ensures x.call.Record? ==> Publish(db, x.writes, x.call).rewards == db.rewards
    ensures x.call.Redeem? ==> Publish(db, x.writes, x.call).rewards == db.rewards[x.call.reward := x.chosen.(stock := x.chosen.stock - 1)]
    ensures FindKey(Publish(db, x.writes, x.call).redemptions, key) ==
            if x.call.Redeem? && key == x.call.key then Some(Receive(t, x)) else FindKey(db.redemptions, key)
  {
    var after := Publish(db, x.writes, x.call).redemptions;
    if x.call.Redeem? {
      assert after[..|after| - 1] == db.redemptions;
    }
  }

  /** A commit touches only rows and keys its transaction holds, so whatever another transaction
      has read stays true. */
  lemma CommitKeepsOthers(db: Db, t: nat, x: Txn, u: nat, y: Txn)
    requires x.pc == Commit && InStep(db, t, x) && InStep(db, u, y)
    requires forall res :: !(Holds(x, res) && Holds(y, res))
    ensures InStep(Publish(db, x.writes, x.call), u, y)
  {
    PublishEffect(db, t, x, if y.call.Redeem? then y.call.key else "");
    assert Holds(x, BalanceLock(x.call.user)) && !Holds(y, BalanceLock(x.call.user));
    if x.call.Redeem? {
      assert Holds(x, RewardLock(x.call.reward)) && !Holds(y, RewardLock(x.call.reward));
      assert Holds(x, KeyLock(x.call.key)) && !Holds(y, KeyLock(x.call.key));
      assert FindKey(db.redemptions, x.call.key).None?;
    }
    assert y.pc == CommitReplay || (y.call.Redeem? && y.pc == Ended && !y.reply.value.Refused?) ==>
        FindKey(db.redemptions, y.call.key).Some?;
    hide WritesMatch, Publish, FindKey, RowRefusal, PointCost, Charge;
  }

  lemma HeldByOne(s: Sys, t: nat, u: nat)
    requires LocksHeld(s) && t < |s.txns| && u < |s.txns| && t != u
    ensures forall res :: !(Holds(s.txns[t], res) && Holds(s.txns[u], res))
  {
    forall res | Holds(s.txns[t], res) ensures !Holds(s.txns[u], res) {
      assert s.locks[res] == t;
    }
  }

  lemma ReleaseKeepsLocks(s: Sys, t: nat, reply: Reply, db: Db)
    requires LocksHeld(s) && t < |s.txns|
    ensures LocksHeld(End(s, t, reply, db))
  {
    assert forall res :: !Holds(End(s, t, reply, db).txns[t], res);
    hide Holds;
  }

  lemma EndKeepsLog(calls: seq<Call>, s: Sys, t: nat, reply: Reply, db: Db)
    requires LogFor(s.log, calls) && ForCalls(s, calls) && LogIsExact(s) && t < |s.txns| && s.txns[t].reply.None?
    ensures LogFor(End(s, t, reply, db).log, calls) && ForCalls(End(s, t, reply, db), calls)
    ensures LogIsExact(End(s, t, reply, db))
  {
    hide Release;
    assert t !in s.log;
  }

  lemma EndKeepsAnswers(init: Db, calls: seq<Call>, s: Sys, t: nat, reply: Reply, db: Db)
    requires Serial(init, calls, s) && t < |s.txns| && t !in s.log
    requires !reply.Refused? ==> reply == Execute(s.db, t, calls[t]).1
    requires LogFor(End(s, t, reply, db).log, calls) && ForCalls(End(s, t, reply, db), calls)
    ensures AnsweredInTurn(init, calls, End(s, t, reply, db))
  {
    hide Execute, Release, Replay, LogIsExact;
    var s' := End(s, t, reply, db);
    forall i | 0 <= i < |s'.log|
      ensures s'.txns[s'.log[i]].reply == Some(Execute(Replay(init, calls, s'.log[..i]), s'.log[i], calls[s'.log[i]]).1)
    {
      if i < |s.log| {
        assert s'.log[..i] == s.log[..i] && s'.log[i] == s.log[i] && s.log[i] in s.log;
      } else {
        assert s'.log[..i] == s.log;
      }
    }
  }

  lemma EndKeepsSerial(init: Db, calls: seq<Call>, s: Sys, t: nat, reply: Reply, db: Db)
    requires Serial(init, calls, s) && t < |s.txns| && s.txns[t].reply.None?
    requires reply.Refused? ==> db == s.db
    requires !reply.Refused? ==> Execute(s.db, t, calls[t]) == (db, reply)
    ensures Serial(init, calls, End(s, t, reply, db))
  {
    EndKeepsLog(calls, s, t, reply, db);
    EndKeepsAnswers(init, calls, s, t, reply, db);
    hide Execute, Release, LogIsExact, AnsweredInTurn;
    if !reply.Refused? {
      assert (s.log + [t])[..|s.log|] == s.log;
    }
  }

  lemma NotAnswered(s: Sys, t: nat)
    requires AllInStep(s) && t < |s.txns|
    ensures s.txns[t].reply.None? <==> s.txns[t].pc != Ended
  {
    assert InStep(s.db, t, s.txns[t]);
    hide ReadsHold;
  }

  lemma EndKeepsSteps(s: Sys, t: nat, reply: Reply, db: Db)
    requires t < |s.txns|
    requires forall u: nat :: u < |s.txns| && u != t ==> InStep(db, u, s.txns[u])
    requires InStep(db, t, End(s, t, reply, db).txns[t])
    ensures AllInStep(End(s, t, reply, db))
  {
    hide InStep, Release;
  }

  lemma EndKeepsGood(init: Db, calls: seq<Call>, s: Sys, t: nat, reply: Reply, db: Db)
    requires Good(init, calls, s) && t < |s.txns| && s.txns[t].pc != Ended
    requires reply.Refused? ==> db == s.db
    requires !reply.Refused? ==> Execute(s.db, t, calls[t]) == (db, reply)
    requires forall u: nat :: u < |s.txns| && u != t ==> InStep(db, u, s.txns[u])
    requires InStep(db, t, End(s, t, reply, db).txns[t])
    ensures Good(init, calls, End(s, t, reply, db))
  {
    hide Execute, InStep, Holds, LocksHeld, Serial, AllInStep, End;
    NotAnswered(s, t);
    EndKeepsSteps(s, t, reply, db);
    ReleaseKeepsLocks(s, t, reply, db);
    EndKeepsSerial(init, calls, s, t, reply, db);
  }

  lemma GoKeepsLocks(s: Sys, t: nat, next: Txn, take: Option<Resource>)
    requires LocksHeld(s) && t < |s.txns|
    requires forall res :: Holds(next, res) <==> Holds(s.txns[t], res) || take == Some(res)
    requires take.Some? ==> Free(s, take.value, t)
    ensures LocksHeld(s.(txns := s.txns[t := next], locks := if take.Some? then s.locks[take.value := t] else s.locks))
  {
    hide Holds;
  }

  lemma GoKeepsSerial(init: Db, calls: seq<Call>, s: Sys, s': Sys, t: nat, next: Txn)
    requires Serial(init, calls, s) && t < |s.txns|
    requires next.call == s.txns[t].call && next.reply.None? && s.txns[t].reply.None?
    requires s'.db == s.db && s'.log == s.log && s'.txns == s.txns[t := next]
    ensures Serial(init, calls, s')
  {
    hide Execute, Replay;
    assert t !in s.log;
    GoKeepsLogExact(s, s', t, next);
    hide LogIsExact;
  }

  lemma GoKeepsLogExact(s: Sys, s': Sys, t: nat, next: Txn)
    requires LogIsExact(s) && t < |s.txns| && next.reply.None? && s.txns[t].reply.None?
    requires s'.log == s.log && s'.txns == s.txns[t := next]
    ensures LogIsExact(s')
  {
  }

  lemma GoKeepsGood(init: Db, calls: seq<Call>, s: Sys, t: nat)
    requires Good(init, calls, s) && t < |s.txns| && s.txns[t].pc != Ended && Decide(s, t).Go?
    ensures Good(init, calls, Step(s, Advance(t)))
  {
    assert InStep(s.db, t, s.txns[t]);
    var Go(next, take) := Decide(s, t);
    GoKeepsStep(s, t);
    assert s.txns[t].reply.None?;
    forall res
      ensures (Holds(next, res) <==> Holds(s.txns[t], res) || take == Some(res)) && (take == Some(res) ==> Free(s, res, t))
    {
      GoTakesLock(s, t, res);
    }
    hide InStep, ReadsHold, WritesMatch, Holds, Execute, Decide, LocksHeld, Serial;
    GoKeepsLocks(s, t, next, take);
    GoKeepsSerial(init, calls, s, Step(s, Advance(t)), t, next);
  }

  lemma StopKeepsGood(init: Db, calls: seq<Call>, s: Sys, t: nat)
    requires Good(init, calls, s) && t < |s.txns| && s.txns[t].pc != Ended && Decide(s, t).Stop?
    ensures Good(init, calls, End(s, t, Decide(s, t).reply, Decide(s, t).db))
  {
    assert InStep(s.db, t, s.txns[t]);
    StopIsSerial(s, t);
    StopReceipt(s, t);
    hide InStep, Decide, Execute, LocksHeld;
    forall u: nat | u < |s.txns| && u != t ensures InStep(Decide(s, t).db, u, s.txns[u]) {
      StopKeepsOthers(s, t, u);
    }
    assert s.txns[t].call == calls[t];
    hide Serial, AllInStep;
    EndKeepsGood(init, calls, s, t, Decide(s, t).reply, Decide(s, t).db);
  }

  lemma AbortKeepsGood(init: Db, calls: seq<Call>, s: Sys, t: nat)
    requires Good(init, calls, s) && t < |s.txns| && s.txns[t].pc != Ended
    ensures Good(init, calls, End(s, t, Refused(ConnectionLost), s.db))
  {
    EndedInStep(s.db, t, s.txns[t], Refused(ConnectionLost));
    hide InStep, LocksHeld, Serial, Release;
    EndKeepsGood(init, calls, s, t, Refused(ConnectionLost), s.db);
  }

  lemma StepKeepsGood(init: Db, calls: seq<Call>, s: Sys, e: Event)
    requires Good(init, calls, s)
    ensures Good(init, calls, Step(s, e))
  {
    hide Good, Decide, End;
    var t := e.t;
    if t < |s.txns| && s.txns[t].pc != Ended {
      if e.Abort? {
        AbortKeepsGood(init, calls, s, t);
      } else if Decide(s, t).Go? {
        GoKeepsGood(init, calls, s, t);
      } else if Decide(s, t).Stop? {
        StopKeepsGood(init, calls, s, t);
      }
    }
  }

  lemma StopKeepsOthers(s: Sys, t: nat, u: nat)
    requires LocksHeld(s) && AllInStep(s)
    requires t < |s.txns| && s.txns[t].pc != Ended && Decide(s, t).Stop?
    requires u < |s.txns| && u != t
    ensures InStep(Decide(s, t).db, u, s.txns[u])
  {
    HeldByOne(s, t, u);
    assert InStep(s.db, t, s.txns[t]) && InStep(s.db, u, s.txns[u]);
    if s.txns[t].pc == Commit {
      assert Decide(s, t).db == Publish(s.db, s.txns[t].writes, s.txns[t].call);
      hide InStep, ReadsHold, WritesMatch, Holds;
      CommitKeepsOthers(s.db, t, s.txns[t], u, s.txns[u]);
    } else {
      assert Decide(s, t).db == s.db;
    }
  }

  /** All that is asked of a transaction that has ended: a redemption it reports is the one stored. */
  lemma EndedInStep(db: Db, t: nat, x: Txn, reply: Reply)
    requires reply.Refused? || !x.call.Redeem? || (Receipt(reply).Some? && FindKey(db.redemptions, x.call.key) == Receipt(reply))
    ensures InStep(db, t, x.(pc := Ended, reply := Some(reply)))
  {
    hide FindKey;
  }

  lemma ReplayFound(db: Db, t: nat, x: Txn)
    requires InStep(db, t, x) && x.pc == CommitReplay
    ensures x.call.Redeem? && FindKey(db.redemptions, x.call.key) == x.found
  {
    hide FindKey;
  }

  /** A transaction stops in one of three ways. */
  lemma StopKinds(s: Sys, t: nat)
    requires t < |s.txns| && s.txns[t].pc != Ended && InStep(s.db, t, s.txns[t]) && Decide(s, t).Stop?
    ensures var x, reply, db := s.txns[t], Decide(s, t).reply, Decide(s, t).db;
            || (reply.Refused? && db == s.db)
            || (x.pc == CommitReplay && x.found.Some? && reply == Replayed(x.found.value) && db == s.db)
            || (x.pc == Commit && db == Publish(s.db, x.writes, x.call)
                && reply == if x.call.Redeem? then Fresh(Receive(t, x), Row(t, x)) else Recorded(Row(t, x)))
  {
  }

  lemma StopReceipt(s: Sys, t: nat)
    requires t < |s.txns| && s.txns[t].pc != Ended && InStep(s.db, t, s.txns[t]) && Decide(s, t).Stop?
    ensures InStep(Decide(s, t).db, t, s.txns[t].(pc := Ended, reply := Some(Decide(s, t).reply)))
  {
    var x := s.txns[t];
    StopKinds(s, t);
    if x.pc == CommitReplay {
      ReplayFound(s.db, t, x);
    } else if x.pc == Commit && x.call.Redeem? {
      PublishEffect(s.db, t, x, x.call.key);
    }
    hide Decide, Publish, FindKey, InStep;
    EndedInStep(Decide(s, t).db, t, x, Decide(s, t).reply);
  }

  lemma StartIsGood(init: Db, calls: seq<Call>)
    ensures Good(init, calls, Start(init, calls))
  {
  }

  lemma {:induction false} RunIsGood(init: Db, calls: seq<Call>, es: seq<Event>)
    ensures Good(init, calls, Run(Start(init, calls), es))
  {
    if es == [] {
      StartIsGood(init, calls);
    } else {
      RunIsGood(init, calls, es[..|es| - 1]);
      StepKeepsGood(init, calls, Run(Start(init, calls), es[..|es| - 1]), es[|es| - 1]);
    }
  }

  /** Whatever the schedule, the committed tables are those of the committed calls run one at a
      time in commit order, and each of them got the answer it would have got there. Refused
      calls are not in that order: they leave no trace. */
  lemma {:induction false} Serializable(init: Db, calls: seq<Call>, es: seq<Event>)
    ensures Serial(init, calls, Run(Start(init, calls), es))
  {
    RunIsGood(init, calls, es);
  }

  lemma {:induction false} ReplayGrows(init: Db, calls: seq<Call>, log: seq<nat>)
    requires Healthy(init) && LogFor(log, calls)
    ensures Grown(init, Replay(init, calls, log))
  {
    if log == [] {
      assert init.ledger[|init.ledger|..] == [] && init.redemptions[|init.redemptions|..] == [];
    } else {
      var front := log[..|log| - 1];
      ReplayGrows(init, calls, front);
      ExecuteGrows(init, Replay(init, calls, front), log[|log| - 1], calls[log[|log| - 1]]);
    }
  }

  /** In every reachable state stock is the initial stock less the redemptions made, keys are
      unique, nothing is negative, every redemption was paid for, and each user's ledger rows
      chain from the initial balance to the stored one. */
  lemma {:induction false} AccountsAgree(init: Db, calls: seq<Call>, es: seq<Event>)
    requires Healthy(init)
    ensures Grown(init, Run(Start(init, calls), es).db)
  {
    RunIsGood(init, calls, es);
    ReplayGrows(init, calls, Run(Start(init, calls), es).log);
  }

  lemma {:induction false} ReplayAddsUp(init: Db, calls: seq<Call>, log: seq<nat>, user: nat)
    requires LogFor(log, calls)
    ensures AddsUp(init, Replay(init, calls, log), user)
  {
    if log == [] {
      assert init.ledger[|init.ledger|..] == [];
    } else {
      var front, t := log[..|log| - 1], log[|log| - 1];
      ReplayAddsUp(init, calls, front, user);
      ExecuteAddsUp(init, Replay(init, calls, front), t, calls[t], user);
    }
  }

  /** Under every schedule each user's balance has changed by the earned, bonus and referral amounts
      on the ledger, less the redeemed and expired ones. */
  lemma {:induction false} BalancesAddUp(init: Db, calls: seq<Call>, es: seq<Event>, user: nat)
    ensures AddsUp(init, Run(Start(init, calls), es).db, user)
  {
    RunIsGood(init, calls, es);
    ReplayAddsUp(init, calls, Run(Start(init, calls), es).log, user);
  }

  lemma AnsweredAt(init: Db, calls: seq<Call>, s: Sys, t: nat) returns (n: nat)
    requires Serial(init, calls, s) && t < |calls| && s.txns[t].reply.Some? && !s.txns[t].reply.value.Refused?
    ensures n <= |s.log| && LogFor(s.log[..n], calls)
    ensures s.txns[t].reply.value == Execute(Replay(init, calls, s.log[..n]), t, calls[t]).1
  {
    assert t in s.log;
    n :| 0 <= n < |s.log| && s.log[n] == t;
    hide Execute, Replay;
  }

  /** A successful redemption is charged to its own user, at the reward's cost in whole points. */
  predicate ChargedTheCost(init: Db, t: nat, call: Call, reply: Reply)
    requires call.Redeem? && reply.Fresh?
  {
    var r, row := reply.redemption, reply.row;
    && call.reward in init.rewards && Rounds(init.rewards[call.reward].cents, r.points)
    && r == Redemption(call.user, call.reward, r.points, call.key, t)
    && row == LedgerRow(t, call.user, Redeemed, r.points, row.before, row.before - r.points)
  }

  lemma FreshIsCharged(init: Db, db: Db, t: nat, call: Call)
    requires Grown(init, db) && call.Redeem? && Execute(db, t, call).1.Fresh?
    ensures ChargedTheCost(init, t, call, Execute(db, t, call).1)
  {
    RedeemEffect(db, t, call.user, call.reward, call.key);
    hide Execute, Healthy, ChainsClose, AllPaid;
  }

  /** Under every schedule. */
  lemma {:induction false} EveryoneIsChargedTheCost(init: Db, calls: seq<Call>, es: seq<Event>, t: nat)
    requires Healthy(init) && t < |calls| && calls[t].Redeem?
    ensures var s := Run(Start(init, calls), es);
            |s.txns| == |calls| &&
            (s.txns[t].reply.Some? && s.txns[t].reply.value.Fresh? ==>
               ChargedTheCost(init, t, calls[t], s.txns[t].reply.value))
  {
    RunIsGood(init, calls, es);
    var s := Run(Start(init, calls), es);
    hide Run, Start, Execute, Replay, LocksHeld, AllInStep, Grown, ChargedTheCost;
    if s.txns[t].reply.Some? && s.txns[t].reply.value.Fresh? {
      var n := AnsweredAt(init, calls, s, t);
      ReplayGrows(init, calls, s.log[..n]);
      FreshIsCharged(init, Replay(init, calls, s.log[..n]), t, calls[t]);
    }
  }

  /** Two redemptions asked for under one key, and not refused, were given the same redemption. */
  lemma {:induction false} OneRedemptionPerKey(init: Db, calls: seq<Call>, es: seq<Event>, t: nat, u: nat)
    requires t < |calls| && u < |calls| && calls[t].Redeem? && calls[u].Redeem? && calls[t].key == calls[u].key
    ensures var s := Run(Start(init, calls), es);
            |s.txns| == |calls| &&
            (t in s.log && u in s.log ==>
               && s.txns[t].reply.Some? && s.txns[u].reply.Some?
               && Receipt(s.txns[t].reply.value).Some?
               && Receipt(s.txns[t].reply.value) == Receipt(s.txns[u].reply.value))
  {
    RunIsGood(init, calls, es);
    var s := Run(Start(init, calls), es);
    assert InStep(s.db, t, s.txns[t]) && InStep(s.db, u, s.txns[u]);
  }

  lemma {:induction false} JustifiedStep(init: Db, calls: seq<Call>, s: Sys, e: Event, t: nat)
    requires Good(init, calls, s) && t < |calls| && s.txns[t].reply.None?
    requires Step(s, e).txns[t].reply.Some? && Step(s, e).txns[t].reply.value.Refused?
    ensures var why := Step(s, e).txns[t].reply.value.why;
            why == ConnectionLost || Justified(s.db, t, calls[t], why)
  {
    NotAnswered(s, t);
    assert InStep(s.db, t, s.txns[t]);
    if e == Advance(t) && Decide(s, t).Stop? {
      RefusalIsJustified(s, t);
    } else if e == Advance(t) && Decide(s, t).Go? {
      GoKeepsStep(s, t);
    }
    hide Decide, InStep, Execute, LocksHeld, AllInStep;
  }

  predicate RefusedWith(s: Sys, t: nat, why: Refusal) {
    t < |s.txns| && s.txns[t].reply == Some(Refused(why))
  }

  lemma NewRefusal(init: Db, calls: seq<Call>, s: Sys, e: Event, t: nat, why: Refusal)
    requires Good(init, calls, s) && RefusedWith(Step(s, e), t, why) && why != ConnectionLost
    ensures t < |calls| && (RefusedWith(s, t, why) || Justified(s.db, t, calls[t], why))
  {
    if t < |s.txns| && s.txns[t].reply.Some? {
      AnswerStays(s, e, t);
    } else if t < |s.txns| {
      JustifiedStep(init, calls, s, e, t);
    }
    hide Decide, Execute, LocksHeld, AllInStep, Justified, End;
  }

  lemma NobodyRefusedYet(init: Db, calls: seq<Call>, t: nat, why: Refusal)
    ensures !RefusedWith(Start(init, calls), t, why)
  {
  }

  /** No call is refused for nothing: unless its connection was lost, the tables committed by some
      point `n` of the schedule called for that very refusal. A duplicate key is reported only to a
      call that would have succeeded but for it. */
  lemma {:induction false} RefusedForAReason(init: Db, calls: seq<Call>, es: seq<Event>, t: nat, why: Refusal) returns (n: nat)
    requires RefusedWith(Run(Start(init, calls), es), t, why) && why != ConnectionLost
    ensures n <= |es| && t < |calls| && Justified(Run(Start(init, calls), es[..n]).db, t, calls[t], why)
  {
    hide Step, Justified, RefusedWith, Good, Start, Execute;
    if es == [] {
      NobodyRefusedYet(init, calls, t, why);
      assert false;
    } else {
      var front := es[..|es| - 1];
      RunIsGood(init, calls, front);
      NewRefusal(init, calls, Run(Start(init, calls), front), es[|es| - 1], t, why);
      if RefusedWith(Run(Start(init, calls), front), t, why) {
        n := RefusedForAReason(init, calls, front, t, why);
        assert front[..n] == es[..n];
      } else {
        n := |front|;
      }
    }
  }

  lemma AnswerStays(s: Sys, e: Event, t: nat)
    requires AllInStep(s) && t < |s.txns| && s.txns[t].reply.Some?
    ensures Step(s, e).txns[t] == s.txns[t]
  {
    NotAnswered(s, t);
    OthersUntouched(s, e, t);
    hide Step, InStep;
  }

  // ----- keys stored behind a call's back -----

  /** The call has looked for its key, and the key has been stored since by another call. */
  predicate Overtaken(s: Sys, t: nat) {
    && t < |s.txns| && s.txns[t].call.Redeem?
    && FindKey(s.db.redemptions, s.txns[t].call.key).Some?
    && (match s.txns[t].pc
        case Ended => s.txns[t].reply.Some? && s.txns[t].reply.value.Refused?
        case CheckKey => false
        case CommitReplay => false
        case _ => true)
  }

  lemma KeyStaysStored(s: Sys, e: Event, key: string)
    requires AllInStep(s) && FindKey(s.db.redemptions, key).Some?
    ensures FindKey(Step(s, e).db.redemptions, key) == FindKey(s.db.redemptions, key)
  {
    if Unfinished(s, e.t) && e.Advance? && Decide(s, e.t).Stop? {
      assert InStep(s.db, e.t, s.txns[e.t]);
      if s.txns[e.t].pc == Commit {
        PublishEffect(s.db, e.t, s.txns[e.t], key);
        hide Publish;
      }
    }
  }

  lemma OvertakenMove(s: Sys, t: nat)
    requires Overtaken(s, t) && Unfinished(s, t) && InStep(s.db, t, s.txns[t])
    ensures match Decide(s, t)
            case Wait(_) => true
            case Go(next, _) => next.pc !in {Ended, CheckKey, CommitReplay} && next.call == s.txns[t].call
            case Stop(reply, _) => reply.Refused?
  {
  }

  lemma OthersUntouched(s: Sys, e: Event, t: nat)
    requires t < |s.txns| && (e.t != t || s.txns[t].pc == Ended)
    ensures |Step(s, e).txns| == |s.txns| && Step(s, e).txns[t] == s.txns[t]
  {
    hide Decide, Release;
  }

  lemma OvertakenOwnStep(s: Sys, e: Event, t: nat)
    requires Overtaken(s, t) && Unfinished(s, t) && InStep(s.db, t, s.txns[t]) && e.t == t
    requires FindKey(Step(s, e).db.redemptions, s.txns[t].call.key).Some?
    ensures Overtaken(Step(s, e), t)
  {
    OvertakenMove(s, t);
    hide Decide, InStep, FindKey, Release;
  }

  lemma StepKeepsOvertaken(init: Db, calls: seq<Call>, s: Sys, e: Event, t: nat)
    requires Good(init, calls, s) && Overtaken(s, t)
    ensures Overtaken(Step(s, e), t)
  {
    KeyStaysStored(s, e, s.txns[t].call.key);
    if e.t == t && Unfinished(s, t) {
      assert InStep(s.db, t, s.txns[t]);
      OvertakenOwnStep(s, e, t);
    } else {
      OthersUntouched(s, e, t);
    }
    hide Step, Decide, InStep, Good, FindKey;
  }

  /** A retry is not always replayed: once its key check has come back empty, a key stored by
      another call can only make it fail. */
  lemma {:induction false} OvertakenNeverSucceeds(init: Db, calls: seq<Call>, s: Sys, es: seq<Event>, t: nat)
    requires Good(init, calls, s) && Overtaken(s, t)
    ensures Good(init, calls, Run(s, es)) && Overtaken(Run(s, es), t)
    ensures t !in Run(s, es).log
  {
    hide Overtaken, AllInStep, LocksHeld;
    if es != [] {
      OvertakenNeverSucceeds(init, calls, s, es[..|es| - 1], t);
      StepKeepsGood(init, calls, Run(s, es[..|es| - 1]), es[|es| - 1]);
      StepKeepsOvertaken(init, calls, Run(s, es[..|es| - 1]), es[|es| - 1], t);
    }
    OvertakenNotLogged(init, calls, Run(s, es), t);
  }

  lemma OvertakenNotLogged(init: Db, calls: seq<Call>, s: Sys, t: nat)
    requires Good(init, calls, s) && Overtaken(s, t)
    ensures t !in s.log
  {
    NotAnswered(s, t);
  }

  /** A retry whose key is stored when it looks is always replayed, unless its connection drops. */
  lemma StoredKeyReplays(init: Db, calls: seq<Call>, s: Sys, t: nat)
    requires Good(init, calls, s) && t < |s.txns| && s.txns[t].pc == CheckKey
    requires FindKey(s.db.redemptions, s.txns[t].call.key).Some?
    ensures s.txns[t].call.Redeem?
    ensures var s' := Step(Step(s, Advance(t)), Advance(t));
            && s'.db == s.db && s'.log == s.log + [t]
            && s'.txns[t].reply == Some(Replayed(FindKey(s.db.redemptions, s.txns[t].call.key).value))
  {
    assert InStep(s.db, t, s.txns[t]);
  }

  /** The call looked for its key, did not find it, and is still at work. */
  predicate Searching(s: Sys, t: nat) {
    t < |s.txns| && s.txns[t].call.Redeem? && s.txns[t].pc !in {CheckKey, CommitReplay, Ended}
  }

  predicate Lost(s: Sys, t: nat) {
    Overtaken(s, t) || (t < |s.txns| && s.txns[t].reply.Some? && s.txns[t].reply.value.Refused?)
  }

  lemma StepKeepsLost(init: Db, calls: seq<Call>, s: Sys, e: Event, t: nat)
    requires Good(init, calls, s) && Lost(s, t)
    ensures Lost(Step(s, e), t) && t !in s.log
  {
    if Overtaken(s, t) {
      StepKeepsOvertaken(init, calls, s, e, t);
      OvertakenNotLogged(init, calls, s, t);
    } else {
      AnswerStays(s, e, t);
    }
    hide Step, Overtaken, AllInStep, LocksHeld;
  }

  lemma SearchMove(s: Sys, t: nat)
    requires Searching(s, t) && InStep(s.db, t, s.txns[t])
    ensures match Decide(s, t)
            case Wait(_) => true
            case Go(next, _) => next.pc !in {Ended, CheckKey, CommitReplay} && next.call == s.txns[t].call
            case Stop(reply, db) => reply.Refused? || FindKey(db.redemptions, s.txns[t].call.key).Some?
  {
    if s.txns[t].pc == Commit {
      PublishEffect(s.db, t, s.txns[t], s.txns[t].call.key);
      hide Publish;
    }
  }

  /** Whichever of two searching calls commits first takes the key from the other. */
  lemma SearchEnds(init: Db, calls: seq<Call>, s: Sys, t: nat, u: nat)
    requires Good(init, calls, s) && Searching(s, t) && Searching(s, u) && t != u
    requires s.txns[t].call.key == s.txns[u].call.key
    ensures var s' := Step(s, Advance(t));
            && (Searching(s', t) || Lost(s', t) || Overtaken(s', u))
            && |s'.txns| == |s.txns| && s'.txns[u] == s.txns[u]
  {
    OthersUntouched(s, Advance(t), u);
    assert InStep(s.db, t, s.txns[t]);
    SearchMove(s, t);
    hide Decide, InStep, Good, FindKey, Release;
  }

  /** At most one of the two has succeeded, and at most one ever will. */
  predicate AtMostOne(s: Sys, t: nat, u: nat) {
    (Searching(s, t) && Searching(s, u)) || Lost(s, t) || Lost(s, u)
  }

  lemma StepKeepsAtMostOne(init: Db, calls: seq<Call>, s: Sys, e: Event, t: nat, u: nat)
    requires Good(init, calls, s) && AtMostOne(s, t, u) && t != u && t < |calls| && u < |calls|
    requires calls[t].Redeem? && calls[u].Redeem? && calls[t].key == calls[u].key
    ensures AtMostOne(Step(s, e), t, u)
  {
    if Lost(s, t) {
      StepKeepsLost(init, calls, s, e, t);
    } else if Lost(s, u) {
      StepKeepsLost(init, calls, s, e, u);
    } else if e == Advance(t) {
      SearchEnds(init, calls, s, t, u);
    } else if e == Advance(u) {
      SearchEnds(init, calls, s, u, t);
    }
    hide Decide, Overtaken, AllInStep, LocksHeld, Release;
  }

  lemma {:induction false} AtMostOneSucceeds(init: Db, calls: seq<Call>, s: Sys, es: seq<Event>, t: nat, u: nat)
    requires Good(init, calls, s) && AtMostOne(s, t, u) && t != u && t < |calls| && u < |calls|
    requires calls[t].Redeem? && calls[u].Redeem? && calls[t].key == calls[u].key
    ensures Good(init, calls, Run(s, es)) && AtMostOne(Run(s, es), t, u)
    ensures !(t in Run(s, es).log && u in Run(s, es).log)
  {
    hide Step, AtMostOne;
    if es != [] {
      AtMostOneSucceeds(init, calls, s, es[..|es| - 1], t, u);
      StepKeepsAtMostOne(init, calls, Run(s, es[..|es| - 1]), es[|es| - 1], t, u);
      StepKeepsGood(init, calls, Run(s, es[..|es| - 1]), es[|es| - 1]);
    }
    AtMostOneLogged(init, calls, Run(s, es), t, u);
    hide Good;
  }

  lemma AtMostOneLogged(init: Db, calls: seq<Call>, s: Sys, t: nat, u: nat)
    requires Good(init, calls, s) && AtMostOne(s, t, u)
    ensures !(t in s.log && u in s.log)
  {
    if Lost(s, t) {
      StepKeepsLost(init, calls, s, Abort(t), t);
    } else if Lost(s, u) {
      StepKeepsLost(init, calls, s, Abort(u), u);
    } else {
      NotAnswered(s, t);
    }
    hide Step, Overtaken, InStep, LocksHeld;
  }

  /** So a retry is not always replayed: of two requests under one unused key that both look for it
      before either stores it, never more than one succeeds, under every schedule. */
  lemma {:induction false} RacingRetriesAreNotReplayed(init: Db, calls: seq<Call>, es: seq<Event>, t: nat, u: nat)
    requires t < |calls| && u < |calls| && t != u
    requires calls[t].Redeem? && calls[u].Redeem? && calls[t].key == calls[u].key
    requires FindKey(init.redemptions, calls[t].key).None?
    ensures var s := Run(Run(Start(init, calls), [Advance(t), Advance(u)]), es);
            !(t in s.log && u in s.log)
  {
    BothLook(init, calls, t, u);
    hide Step, Good;
    AtMostOneSucceeds(init, calls, Run(Start(init, calls), [Advance(t), Advance(u)]), es, t, u);
  }

  /** The state after both requests have found their key unused. */
  lemma BothLook(init: Db, calls: seq<Call>, t: nat, u: nat)
    requires t < |calls| && u < |calls| && t != u
    requires calls[t].Redeem? && calls[u].Redeem? && calls[t].key == calls[u].key
    requires FindKey(init.redemptions, calls[t].key).None?
    ensures var s := Run(Start(init, calls), [Advance(t), Advance(u)]);
            && Good(init, calls, s) && s.db == init && s.locks == map[] && |s.txns| == |calls|
            && s.txns[t].call == calls[t] && s.txns[t].pc == LockReward
            && s.txns[u].call == calls[u] && s.txns[u].pc == LockReward
  {
    var looks := [Advance(t), Advance(u)];
    var s := Start(init, calls);
    StartIsGood(init, calls);
    assert looks[..1][..0] == [] && looks[..1][0] == Advance(t);
    assert Run(s, looks[..1]) == Step(s, Advance(t));
    assert Run(s, looks) == Step(Step(s, Advance(t)), Advance(u));
    FirstLook(init, calls, s, t);
    FirstLook(init, calls, Step(s, Advance(t)), u);
    hide Step, Good;
  }

  lemma FirstLook(init: Db, calls: seq<Call>, s: Sys, t: nat)
    requires Good(init, calls, s) && t < |calls| && calls[t].Redeem? && s.txns[t].pc == CheckKey
    requires FindKey(s.db.redemptions, calls[t].key).None?
    ensures var s' := Step(s, Advance(t));
            && Good(init, calls, s') && |s'.txns| == |s.txns| && s'.db == s.db && s'.locks == s.locks
            && s'.txns[t].call == calls[t] && s'.txns[t].pc == LockReward
            && forall u: nat :: u < |s.txns| && u != t ==> s'.txns[u] == s.txns[u]
  {
    StepKeepsGood(init, calls, s, Advance(t));
    hide LocksHeld, AllInStep;
  }

  // ----- one call left to itself -----

  function Turns(t: nat, n: nat): seq<Event> { if n == 0 then [] else [Advance(t)] + Turns(t, n - 1) }

  /** Nobody but `t` holds a lock. */
  predicate AllFree(s: Sys, t: nat) { forall res :: res in s.locks ==> s.locks[res] == t }

  /** What a call that had the tables to itself, from its next statement on, did to them. */
  predicate Settled(db: Db, t: nat, call: Call, db': Db, reply: Reply) {
    if reply.Refused? then db' == db && Justified(db, t, call, reply.why) else Execute(db, t, call) == (db', reply)
  }

  predicate EndedAlone(s: Sys, t: nat, s': Sys) {
    && t < |s.txns| == |s'.txns| && s'.txns[t].pc == Ended && s'.locks == map[]
    && s'.txns[t].reply.Some? && Settled(s.db, t, s.txns[t].call, s'.db, s'.txns[t].reply.value)
    && forall u: nat :: u < |s.txns| && u != t ==> s'.txns[u] == s.txns[u]
  }

  predicate AdvancedAlone(s: Sys, t: nat, s': Sys) {
    && t < |s.txns| == |s'.txns| && s'.db == s.db && AllFree(s', t)
    && s'.txns[t].call == s.txns[t].call && Rank(s.txns[t].pc) < Rank(s'.txns[t].pc) < 8
    && forall u: nat :: u < |s.txns| && u != t ==> s'.txns[u] == s.txns[u]
  }

  lemma AloneStep(s: Sys, t: nat)
    requires Unfinished(s, t) && InStep(s.db, t, s.txns[t]) && AllFree(s, t)
    ensures EndedAlone(s, t, Step(s, Advance(t))) || AdvancedAlone(s, t, Step(s, Advance(t)))
  {
    CanStepAlone(s, t);
    if Decide(s, t).Go? {
      GoKeepsStep(s, t);
      GoesOn(s, t);
    } else {
      StopIsSerial(s, t);
      if Decide(s, t).reply.Refused? {
        RefusalIsJustified(s, t);
      }
    }
    hide Decide, InStep, Execute, Justified;
  }

  lemma CanStepAlone(s: Sys, t: nat)
    requires Unfinished(s, t) && AllFree(s, t)
    ensures CanStep(s, t)
  {
  }

  lemma GoesOn(s: Sys, t: nat)
    requires Unfinished(s, t) && Decide(s, t).Go?
    ensures Decide(s, t).next.pc != Ended
  {
  }

  lemma {:induction false} EndedTurns(s: Sys, t: nat, n: nat)
    requires t < |s.txns| && s.txns[t].pc == Ended
    ensures Run(s, Turns(t, n)) == s
  {
    if n > 0 {
      RunOnward(s, [Advance(t)], Turns(t, n - 1));
      OneTurn(s, t);
      EndedTurns(s, t, n - 1);
    }
  }

  lemma OneTurn(s: Sys, t: nat)
    ensures Run(s, [Advance(t)]) == Step(s, Advance(t))
  {
    assert [Advance(t)][..0] == [];
    hide Step;
  }

  lemma GoodAlone(init: Db, calls: seq<Call>, s: Sys, t: nat)
    requires Good(init, calls, s) && Unfinished(s, t) && AllFree(s, t)
    ensures var s' := Step(s, Advance(t));
            Good(init, calls, s') && (EndedAlone(s, t, s') || AdvancedAlone(s, t, s'))
  {
    assert InStep(s.db, t, s.txns[t]);
    AloneStep(s, t);
    StepKeepsGood(init, calls, s, Advance(t));
    hide Step, Good;
  }

  lemma AdvancedThenEnded(s: Sys, t: nat, s': Sys, s'': Sys)
    requires AdvancedAlone(s, t, s') && EndedAlone(s', t, s'')
    ensures EndedAlone(s, t, s'')
  {
    hide Execute, Justified;
  }

  /** A call left alone while nobody else holds a lock settles within the statements it has left, as
      if the tables had been its own all along. */
  lemma {:induction false} AloneSettles(init: Db, calls: seq<Call>, s: Sys, t: nat, n: nat)
    requires Good(init, calls, s) && Unfinished(s, t) && AllFree(s, t) && Rank(s.txns[t].pc) + n >= 8
    ensures Good(init, calls, Run(s, Turns(t, n))) && EndedAlone(s, t, Run(s, Turns(t, n)))
    decreases n
  {
    hide Step, Good, Settled, AllFree, Run;
    var s' := Step(s, Advance(t));
    GoodAlone(init, calls, s, t);
    OneTurn(s, t);
    RunOnward(s, [Advance(t)], Turns(t, n - 1));
    if s'.txns[t].pc == Ended {
      EndedTurns(s', t, n - 1);
    } else {
      AloneSettles(init, calls, s', t, n - 1);
      AdvancedThenEnded(s, t, s', Run(s', Turns(t, n - 1)));
    }
  }

  lemma FreshSettles(db: Db, t: nat, call: Call, db': Db, reply: Reply)
    requires call.Redeem? && FindKey(db.redemptions, call.key).None? && Execute(db, t, call).1.Fresh?
    requires Settled(db, t, call, db', reply)
    ensures Execute(db, t, call) == (db', reply) && FindKey(db'.redemptions, call.key).Some?
  {
    UnstoredKeyIsNoMatter(db, t, call);
    if !reply.Refused? {
      assert db'.redemptions[..|db'.redemptions| - 1] == db.redemptions;
    }
  }

  /** Two requests both look for their key, then the one runs on its own, and the other after it. */
  function Race(init: Db, calls: seq<Call>, t: nat, u: nat): Sys {
    Run(Run(Run(Start(init, calls), [Advance(t), Advance(u)]), Turns(t, 7)), Turns(u, 7))
  }

  /** In such a race under one unused key, if the first call would have succeeded alone it does; the
      second is refused, with `DuplicateKey` exactly if it too would have succeeded under another. */
  lemma {:induction false} SecondRacerIsRefused(init: Db, calls: seq<Call>, t: nat, u: nat)
    requires t < |calls| && u < |calls| && t != u
    requires calls[t].Redeem? && calls[u].Redeem? && calls[t].key == calls[u].key
    requires FindKey(init.redemptions, calls[t].key).None? && Execute(init, t, calls[t]).1.Fresh?
    ensures var s := Race(init, calls, t, u);
            var (db, reply) := Execute(init, t, calls[t]);
            && |s.txns| == |calls| && s.db == db && s.txns[t].reply == Some(reply)
            && s.txns[u].reply.Some? && s.txns[u].reply.value.Refused?
            && (s.txns[u].reply.value.why == DuplicateKey <==> Execute(Unkeyed(db), u, calls[u]).1.Fresh?)
  {
    var looked := Run(Start(init, calls), [Advance(t), Advance(u)]);
    BothLook(init, calls, t, u);
    hide Run, Execute, Good, FindKey, InStep;
    AloneSettles(init, calls, looked, t, 7);
    var first := Run(looked, Turns(t, 7));
    FreshSettles(init, t, calls[t], first.db, first.txns[t].reply.value);
    AloneSettles(init, calls, first, u, 7);
    OvertakenNeverSucceeds(init, calls, first, Turns(u, 7), u);
  }

  const TWO_IN_STOCK := Db(map[0 := Reward(300, 2, true, false)], map[7 := 10], [], [])
  const SAME_TWICE := [Redeem(7, 0, "once"), Redeem(7, 0, "once")]

  lemma EitherFits()
    ensures FindKey(TWO_IN_STOCK.redemptions, "once").None?
    ensures var row, r := LedgerRow(0, 7, Redeemed, 3, 10, 7), Redemption(7, 0, 3, "once", 0);
            var db := Db(map[0 := Reward(300, 1, true, false)], map[7 := 7], [row], [r]);
            && Execute(TWO_IN_STOCK, 0, SAME_TWICE[0]) == (db, Fresh(r, row))
            && Execute(Unkeyed(db), 1, SAME_TWICE[1]).1.Fresh?
  {
    var row, r := LedgerRow(0, 7, Redeemed, 3, 10, 7), Redemption(7, 0, 3, "once", 0);
    assert Charge(0, SAME_TWICE[0], 3, 10) == row && RowRefusal(row).None?;
    assert Post(TWO_IN_STOCK, row) == TWO_IN_STOCK.(balances := map[7 := 7], ledger := [row]);
    assert Take(Post(TWO_IN_STOCK, row), 0, r) ==
           Db(map[0 := Reward(300, 1, true, false)], map[7 := 7], [row], [r]);
  }

  /** A user with points enough for two asks twice at once for a reward with two in stock, and gets
      one and an error. */
  lemma ARaceIsLost()
    ensures var s := Race(TWO_IN_STOCK, SAME_TWICE, 0, 1);
            && |s.txns| == 2
            && s.txns[0].reply == Some(Fresh(Redemption(7, 0, 3, "once", 0), LedgerRow(0, 7, Redeemed, 3, 10, 7)))
            && s.txns[1].reply == Some(Refused(DuplicateKey))
            && s.db.rewards == map[0 := Reward(300, 1, true, false)] && s.db.balances == map[7 := 7]
  {
    hide Race, Execute;
    EitherFits();
    SecondRacerIsRefused(TWO_IN_STOCK, SAME_TWICE, 0, 1);
  }

  // ----- progress -----

  predicate Unfinished(s: Sys, t: nat) { t < |s.txns| && s.txns[t].pc != Ended }

  predicate CanStep(s: Sys, t: nat) { Unfinished(s, t) && !Decide(s, t).Wait? }

  predicate Finished(s: Sys) { forall t: nat :: t < |s.txns| ==> !Unfinished(s, t) }

  /** A transaction only ever waits for one that has come strictly further: reward rows are locked
      before balance rows, and balance rows before keys. */
  lemma WaitsForward(s: Sys, t: nat)
    requires LocksHeld(s) && AllInStep(s) && Unfinished(s, t) && Decide(s, t).Wait?
    ensures Unfinished(s, Decide(s, t).holder)
    ensures Rank(s.txns[Decide(s, t).holder].pc) > Rank(s.txns[t].pc)
  {
    var x := s.txns[t];
    var h := Decide(s, t).holder;
    assert InStep(s.db, t, x);
    var res := match x.pc
      case LockReward => RewardLock(x.call.reward)
      case InsertRedemption => KeyLock(x.call.key)
      case _ => BalanceLock(x.call.user);
    assert res in s.locks && s.locks[res] == h && Holds(s.txns[h], res);
    assert InStep(s.db, h, s.txns[h]);
  }

  lemma {:induction false} WaitChainEnds(s: Sys, t: nat) returns (free: nat)
    requires LocksHeld(s) && AllInStep(s) && Unfinished(s, t)
    ensures CanStep(s, free)
    decreases 8 - Rank(s.txns[t].pc)
  {
    if Decide(s, t).Wait? {
      WaitsForward(s, t);
      hide Decide, InStep, AllInStep, LocksHeld;
      free := WaitChainEnds(s, Decide(s, t).holder);
    } else {
      free := t;
    }
  }

  /** No deadlock: while some call is unfinished, some call can take its next step. */
  lemma {:induction false} NeverStuck(init: Db, calls: seq<Call>, es: seq<Event>)
    ensures var s := Run(Start(init, calls), es); Finished(s) || exists t: nat :: CanStep(s, t)
  {
    RunIsGood(init, calls, es);
    var s := Run(Start(init, calls), es);
    if t: nat :| Unfinished(s, t) {
      var free := WaitChainEnds(s, t);
    }
  }

  /** The statements still to run. */
  function Remaining(txns: seq<Txn>): nat {
    if txns == [] then 0 else Remaining(txns[..|txns| - 1]) + 8 - Rank(txns[|txns| - 1].pc)
  }

  lemma {:induction false} RemainingUpdate(txns: seq<Txn>, t: nat, next: Txn)
    requires t < |txns|
    ensures Remaining(txns[t := next]) == Remaining(txns) + Rank(txns[t].pc) - Rank(next.pc)
  {
    var n := |txns| - 1;
    if t == n {
      assert txns[t := next][..n] == txns[..n];
    } else {
      assert txns[t := next][..n] == txns[..n][t := next];
      RemainingUpdate(txns[..n], t, next);
    }
  }

  lemma {:induction false} RemainingZero(txns: seq<Txn>)
    requires Remaining(txns) == 0
    ensures forall t :: 0 <= t < |txns| ==> txns[t].pc == Ended
  {
    if txns != [] {
      RemainingZero(txns[..|txns| - 1]);
    }
  }

  /** Scheduling a call that can step, or aborting one, shortens what is left; any other
      scheduling decision changes nothing at all. */
  lemma StepShortens(s: Sys, e: Event)
    requires AllInStep(s)
    ensures Remaining(Step(s, e).txns) < Remaining(s.txns) || Step(s, e) == s
    ensures CanStep(s, e.t) ==> Remaining(Step(s, e).txns) < Remaining(s.txns)
  {
    if Unfinished(s, e.t) {
      assert InStep(s.db, e.t, s.txns[e.t]);
      if e.Advance? && Decide(s, e.t).Go? {
        GoKeepsStep(s, e.t);
      }
      hide Decide, InStep, AllInStep;
      if Step(s, e) != s {
        var next := Step(s, e).txns[e.t];
        assert Step(s, e).txns == s.txns[e.t := next] && Rank(next.pc) > Rank(s.txns[e.t].pc);
        RemainingUpdate(s.txns, e.t, next);
      }
    }
  }

  /** A stretch of the schedule that gives every call at least one turn. */
  predicate GivesEachATurn(es: seq<Event>, n: nat) {
    forall t: nat :: t < n ==> Advance(t) in es
  }

  lemma {:induction false} RunOnward(s: Sys, es: seq<Event>, es': seq<Event>)
    ensures Run(s, es + es') == Run(Run(s, es), es')
  {
    if es' == [] {
      assert es + es' == es;
    } else {
      assert (es + es')[..|es + es'| - 1] == es + es'[..|es'| - 1];
      RunOnward(s, es, es'[..|es'| - 1]);
    }
  }

  lemma {:induction false} RunNeverLengthens(init: Db, calls: seq<Call>, s: Sys, es: seq<Event>)
    requires Good(init, calls, s)
    ensures Good(init, calls, Run(s, es))
    ensures Remaining(Run(s, es).txns) < Remaining(s.txns) || Run(s, es) == s
  {
    if es != [] {
      RunNeverLengthens(init, calls, s, es[..|es| - 1]);
      hide Step, Serial, LocksHeld;
      StepKeepsGood(init, calls, Run(s, es[..|es| - 1]), es[|es| - 1]);
      StepShortens(Run(s, es[..|es| - 1]), es[|es| - 1]);
    }
  }

  lemma {:induction false} TurnShortens(init: Db, calls: seq<Call>, s: Sys, es: seq<Event>, t: nat)
    requires Good(init, calls, s) && CanStep(s, t) && Advance(t) in es
    ensures Remaining(Run(s, es).txns) < Remaining(s.txns)
  {
    hide Step, Serial, LocksHeld, CanStep, AllInStep;
    var front, last := es[..|es| - 1], es[|es| - 1];
    RunNeverLengthens(init, calls, s, front);
    if Advance(t) in front {
      TurnShortens(init, calls, s, front, t);
    }
    StepShortens(Run(s, front), last);
  }

  /** However calls are interleaved, and whichever of them are cut off, eight stretches per call
      in which everyone gets a turn are enough for all of them to finish. */
  lemma {:induction false} FairSchedulesFinish(init: Db, calls: seq<Call>, s: Sys, rounds: seq<seq<Event>>)
    requires Good(init, calls, s)
    requires forall i :: 0 <= i < |rounds| ==> GivesEachATurn(rounds[i], |calls|)
    requires Remaining(s.txns) <= |rounds|
    ensures Finished(Run(s, Concat(rounds)))
    decreases |rounds|
  {
    hide Serial, LocksHeld, AllInStep, Decide, Step;
    if Finished(s) {
      RunNeverLengthens(init, calls, s, Concat(rounds));
      FinishedStays(s, Concat(rounds));
    } else if rounds == [] {
      RemainingZero(s.txns);
    } else {
      var t: nat :| Unfinished(s, t);
      var free := WaitChainEnds(s, t);
      TurnInRound(init, calls, s, rounds[0], free);
      RunNeverLengthens(init, calls, s, rounds[0]);
      RunOnward(s, rounds[0], Concat(rounds[1..]));
      FairSchedulesFinish(init, calls, Run(s, rounds[0]), rounds[1..]);
    }
  }

  lemma TurnInRound(init: Db, calls: seq<Call>, s: Sys, es: seq<Event>, t: nat)
    requires Good(init, calls, s) && CanStep(s, t) && GivesEachATurn(es, |calls|)
    ensures Remaining(Run(s, es).txns) < Remaining(s.txns)
  {
    assert Advance(t) in es;
    TurnShortens(init, calls, s, es, t);
  }

  lemma {:induction false} FinishedStays(s: Sys, es: seq<Event>)
    requires Finished(s)
    ensures Run(s, es) == s
  {
    if es != [] {
      FinishedStays(s, es[..|es| - 1]);
      assert !Unfinished(s, es[|es| - 1].t);
    }
  }

  function Concat(rounds: seq<seq<Event>>): seq<Event> {
    if rounds == [] then [] else rounds[0] + Concat(rounds[1..])
  }

  lemma {:induction false} StartRemaining(init: Db, calls: seq<Call>)
    ensures Remaining(Start(init, calls).txns) == 8 * |calls|
  {
    if calls != [] {
      var front := calls[..|calls| - 1];
      StartRemaining(init, front);
      assert Start(init, calls).txns[..|calls| - 1] == Start(init, front).txns;
    }
  }

  lemma {:induction false} EveryCallFinishes(init: Db, calls: seq<Call>, rounds: seq<seq<Event>>)
    requires forall i :: 0 <= i < |rounds| ==> GivesEachATurn(rounds[i], |calls|)
    requires 8 * |calls| <= |rounds|
    ensures Finished(Run(Start(init, calls), Concat(rounds)))
  {
    StartIsGood(init, calls);
    StartRemaining(init, calls);
    FairSchedulesFinish(init, calls, Start(init, calls), rounds);
  }
}
