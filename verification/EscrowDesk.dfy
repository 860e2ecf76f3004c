/** The escrow contract: deposits that are released or refunded once. A call that panics changes nothing. */
module EscrowDesk {
  import opened Prelude

  datatype Status = Open | Released | Refunded

  datatype Escrow = Escrow(depositor: Address, beneficiary: Address, timeout: nat, amount: int, status: Status)

  datatype Desk = Desk(admin: Address, nextId: nat, escrows: map<nat, Escrow>)

  datatype Call =
    | Create(depositor: Address, beneficiary: Address, timeout: nat)
    | Fund(id: nat, amount: int)
    | Release(id: nat)
    | Refund(id: nat)

  datatype Tx = Tx(now: nat, signed: set<Address>, call: Call)

  predicate MayRelease(d: Desk, e: Escrow, tx: Tx) {
    if tx.now >= e.timeout then d.admin in tx.signed else e.depositor in tx.signed && e.beneficiary in tx.signed
  }

  function Apply(d: Desk, tx: Tx): Option<Desk> {
    match tx.call
    case Create(depositor, beneficiary, timeout) =>
      if depositor !in tx.signed || timeout <= tx.now || d.nextId >= U32_MAX then None
      else Some(d.(escrows := d.escrows[d.nextId := Escrow(depositor, beneficiary, timeout, 0, Open)], nextId := d.nextId + 1))
    case Fund(id, amount) =>
      if amount <= 0 || id !in d.escrows || d.escrows[id].status != Open then None
      else if d.escrows[id].depositor !in tx.signed || d.escrows[id].amount + amount > I128_MAX then None
      else Some(d.(escrows := d.escrows[id := d.escrows[id].(amount := d.escrows[id].amount + amount)]))
    case Release(id) =>
      if id !in d.escrows || d.escrows[id].status != Open || d.escrows[id].amount <= 0 then None
      else if !MayRelease(d, d.escrows[id], tx) then None
      else Some(d.(escrows := d.escrows[id := d.escrows[id].(status := Released)]))
    case Refund(id) =>
      if id !in d.escrows || d.escrows[id].status != Open || tx.now < d.escrows[id].timeout then None
      else if d.escrows[id].depositor !in tx.signed then None
      else Some(d.(escrows := d.escrows[id := d.escrows[id].(status := Refunded)]))
  }

  function Step(d: Desk, tx: Tx): Desk { Apply(d, tx).GetOr(d) }

  function Run(d: Desk, txs: seq<Tx>): Desk {
    if txs == [] then d else Step(Run(d, txs[..|txs| - 1]), txs[|txs| - 1])
  }

  function Initialize(admin: Address): Desk { Desk(admin, 0, map[]) }

  predicate IdsFresh(d: Desk) {
    forall id :: id in d.escrows ==> id < d.nextId
  }

  // ----- conservation -----

  function Held(e: Escrow): int { if e.status == Open then e.amount else 0 }

  ghost function TotalHeld(d: Desk): int { SumBy(d.escrows, Held) }

  function DepositedBy(d: Desk, tx: Tx): int {
    if tx.call.Fund? && Apply(d, tx).Some? then tx.call.amount else 0
  }

  function PaidOutBy(d: Desk, tx: Tx): int {
    if (tx.call.Release? || tx.call.Refund?) && Apply(d, tx).Some? && tx.call.id in d.escrows
    then d.escrows[tx.call.id].amount else 0
  }

  function Deposited(d: Desk, txs: seq<Tx>): int {
    if txs == [] then 0 else
      Deposited(d, txs[..|txs| - 1]) + DepositedBy(Run(d, txs[..|txs| - 1]), txs[|txs| - 1])
  }

  function PaidOut(d: Desk, txs: seq<Tx>): int {
    if txs == [] then 0 else
      PaidOut(d, txs[..|txs| - 1]) + PaidOutBy(Run(d, txs[..|txs| - 1]), txs[|txs| - 1])
  }

  lemma {:induction false} EscrowWritten(d: Desk, id: nat, e: Escrow)
    ensures TotalHeld(d.(escrows := d.escrows[id := e])) ==
            TotalHeld(d) + Held(e) - if id in d.escrows then Held(d.escrows[id]) else 0
  {
    SumByUpdate(d.escrows, id, e, Held);
  }

  lemma {:induction false} StepHolds(d: Desk, tx: Tx)
    requires IdsFresh(d)
    ensures IdsFresh(Step(d, tx))
    ensures TotalHeld(Step(d, tx)) == TotalHeld(d) + DepositedBy(d, tx) - PaidOutBy(d, tx)
  {
    var id := if tx.call.Create? then d.nextId else tx.call.id;
    if Apply(d, tx).Some? {
      var d' := Step(d, tx);
      EscrowWritten(d, id, d'.escrows[id]);
      assert d'.escrows == d.escrows[id := d'.escrows[id]];
    }
  }

  /** Over any run, what the open escrows hold is what was deposited less what was paid out: nothing
      is released twice, nor refunded after a release. */
  lemma {:induction false} DepositsAreConserved(admin: Address, txs: seq<Tx>)
    ensures IdsFresh(Run(Initialize(admin), txs))
    ensures TotalHeld(Run(Initialize(admin), txs)) == Deposited(Initialize(admin), txs) - PaidOut(Initialize(admin), txs)
  {
    if txs != [] {
      DepositsAreConserved(admin, txs[..|txs| - 1]);
      StepHolds(Run(Initialize(admin), txs[..|txs| - 1]), txs[|txs| - 1]);
    }
  }

  // ----- what each call does -----

  /** Only escrow `id` has changed, and to `e`. */
  predicate OnlyEscrow(d: Desk, d': Desk, id: nat, e: Escrow) {
    d' == d.(escrows := d.escrows[id := e], nextId := d'.nextId)
  }

  /** A depositor opens an escrow that ends later than now; it is empty, under the next id. */
  lemma CreateEffect(d: Desk, now: nat, signed: set<Address>, depositor: Address, beneficiary: Address, timeout: nat)
    ensures var tx := Tx(now, signed, Create(depositor, beneficiary, timeout));
            && (Apply(d, tx).Some? <==> depositor in signed && now < timeout && d.nextId < 0xFFFF_FFFF)
            && (Apply(d, tx).Some? ==>
                  && OnlyEscrow(d, Step(d, tx), d.nextId, Escrow(depositor, beneficiary, timeout, 0, Open))
                  && Step(d, tx).nextId == d.nextId + 1)
  {
  }

  /** An open escrow takes its depositor's money at any time; both parties release it before the
      timeout, the admin after it; its depositor takes it back after the timeout. */
  lemma EscrowEffect(d: Desk, tx: Tx)
    requires !tx.call.Create?
    ensures Apply(d, tx).Some? <==>
              && tx.call.id in d.escrows
              && var e := d.escrows[tx.call.id];
                 && e.status == Open
                 && match tx.call
                    case Fund(_, amount) => e.depositor in tx.signed && amount > 0 && e.amount + amount <= I128_MAX
                    case Release(_) =>
                      e.amount > 0 && if tx.now < e.timeout then {e.depositor, e.beneficiary} <= tx.signed else d.admin in tx.signed
                    case Refund(_) => e.timeout <= tx.now && e.depositor in tx.signed
    ensures Apply(d, tx).Some? ==>
              var e := d.escrows[tx.call.id];
              && Step(d, tx).nextId == d.nextId
              && OnlyEscrow(d, Step(d, tx), tx.call.id,
                            match tx.call
                            case Fund(_, amount) => e.(amount := e.amount + amount)
                            case Release(_) => e.(status := Released)
                            case Refund(_) => e.(status := Refunded))
  {
  }

  // ----- settlement -----

  /** A settled escrow never changes again. */
  lemma {:induction false} SettledForGood(d: Desk, txs: seq<Tx>, id: nat)
    requires IdsFresh(d) && id in d.escrows && d.escrows[id].status != Open
    ensures IdsFresh(Run(d, txs)) && id in Run(d, txs).escrows && Run(d, txs).escrows[id] == d.escrows[id]
  {
    if txs != [] {
      SettledForGood(d, txs[..|txs| - 1], id);
    }
  }

  /** Before its timeout an escrow stays open, and keeps all it was given, unless depositor and
      beneficiary sign the same call. */
  lemma {:induction false} NothingLeavesEarly(d: Desk, txs: seq<Tx>, id: nat)
    requires IdsFresh(d) && id in d.escrows && d.escrows[id].status == Open
    requires forall i :: 0 <= i < |txs| ==>
               txs[i].now < d.escrows[id].timeout && !({d.escrows[id].depositor, d.escrows[id].beneficiary} <= txs[i].signed)
    ensures IdsFresh(Run(d, txs)) && id in Run(d, txs).escrows
    ensures Run(d, txs).escrows[id] == d.escrows[id].(amount := Run(d, txs).escrows[id].amount)
    ensures Run(d, txs).escrows[id].amount >= d.escrows[id].amount
  {
    if txs != [] {
      NothingLeavesEarly(d, txs[..|txs| - 1], id);
    }
  }

  class EscrowContract {
    var admin: Address
    var nextId: nat
    var escrows: map<nat, Escrow>

    ghost function State(): Desk
      reads this
    {
      Desk(admin, nextId, escrows)
    }

    ghost predicate Did(before: Desk, tx: Tx, ok: bool)
      reads this
    {
      State() == Step(before, tx) && (ok <==> Apply(before, tx).Some?)
    }

    constructor (admin: Address)
      ensures State() == Initialize(admin)
    {
      this.admin, nextId, escrows := admin, 0, map[];
    }

    method CreateEscrow(now: nat, signed: set<Address>, depositor: Address, beneficiary: Address, timeout: nat)
      returns (ok: bool, id: nat)
      modifies this`nextId, this`escrows
      ensures Did(old(State()), Tx(now, signed, Create(depositor, beneficiary, timeout)), ok)
      ensures ok ==> id == old(nextId)
    {
      id := nextId;
      if depositor !in signed || timeout <= now || id >= U32_MAX {
        return false, id;
      }
      escrows := escrows[id := Escrow(depositor, beneficiary, timeout, 0, Open)];
      nextId := id + 1;
      ok := true;
    }

    method FundEscrow(now: nat, signed: set<Address>, id: nat, amount: int) returns (ok: bool)
      modifies this`escrows
      ensures Did(old(State()), Tx(now, signed, Fund(id, amount)), ok)
    {
      if amount <= 0 || id !in escrows || escrows[id].status != Open {
        return false;
      }
      var escrow := escrows[id];
      if escrow.depositor !in signed || escrow.amount + amount > I128_MAX {
        return false;
      }
      escrows := escrows[id := escrow.(amount := escrow.amount + amount)];
      ok := true;
    }

    method ReleaseEscrow(now: nat, signed: set<Address>, id: nat) returns (ok: bool)
      modifies this`escrows
      ensures Did(old(State()), Tx(now, signed, Release(id)), ok)
    {
      if id !in escrows || escrows[id].status != Open || escrows[id].amount <= 0 {
        return false;
      }
      var escrow := escrows[id];
      if now >= escrow.timeout {
        if admin !in signed {
          return false;
        }
      } else {
        if escrow.depositor !in signed || escrow.beneficiary !in signed {
          return false;
        }
      }
      escrows := escrows[id := escrow.(status := Released)];
      ok := true;
    }

    method RefundEscrow(now: nat, signed: set<Address>, id: nat) returns (ok: bool)
      modifies this`escrows
      ensures Did(old(State()), Tx(now, signed, Refund(id)), ok)
    {
      if id !in escrows || escrows[id].status != Open || now < escrows[id].timeout || escrows[id].depositor !in signed {
        return false;
      }
      escrows := escrows[id := escrows[id].(status := Refunded)];
      ok := true;
    }
  }
}
