/** The Nova token contract: balances, a supply counter, and allowances that expire. A call that
    panics leaves the contract unchanged. */
module NovaToken {
  import opened Prelude

  datatype Allowance = Allowance(amount: int, expires: nat)

  datatype Token = Token(admin: Address, balances: map<Address, int>,
                         allowances: map<(Address, Address), Allowance>, supply: int)

  datatype Call =
    | Mint(to: Address, amount: int)
    | Burn(from: Address, amount: int)
    | Transfer(from: Address, to: Address, amount: int)
    | TransferFrom(spender: Address, from: Address, to: Address, amount: int)
    | Approve(owner: Address, spender: Address, amount: int, expires: nat)
    | Increase(owner: Address, spender: Address, amount: int)
    | Decrease(owner: Address, spender: Address, amount: int)

  /** A call at ledger `sequence`, authorized by the addresses in `signed`. */
  datatype Tx = Tx(sequence: nat, signed: set<Address>, call: Call)

  function BalanceOf(t: Token, a: Address): int {
    if a in t.balances then t.balances[a] else 0
  }

  function AllowanceOf(t: Token, owner: Address, spender: Address): Allowance {
    if (owner, spender) in t.allowances then t.allowances[(owner, spender)] else Allowance(0, 0)
  }

  /** The read-only `allowance` entry point: an expired allowance reads as zero. */
  function Spendable(t: Token, owner: Address, spender: Address, sequence: nat): int {
    var a := AllowanceOf(t, owner, spender);
    if sequence > a.expires then 0 else a.amount
  }

  /** Both parties' balances after a transfer; sending to oneself changes nothing. */
  function Moved(t: Token, from: Address, to: Address, amount: int): map<Address, int> {
    if from == to then t.balances[from := BalanceOf(t, from)]
    else t.balances[from := BalanceOf(t, from) - amount][to := BalanceOf(t, to) + amount]
  }

  /** A receiver's balance past `i128` makes the addition trap. */
  predicate CanMove(t: Token, from: Address, to: Address, amount: int) {
    BalanceOf(t, from) >= amount && (from != to ==> BalanceOf(t, to) + amount <= I128_MAX)
  }

  function WithAllowance(t: Token, owner: Address, spender: Address, a: Allowance): Token {
    t.(allowances := t.allowances[(owner, spender) := a])
  }

  /** One call; `None` is a panic. */
  function Apply(t: Token, tx: Tx): Option<Token> {
    match tx.call
    case Mint(to, amount) =>
      if t.admin !in tx.signed || amount <= 0 then None
      else Some(t.(balances := t.balances[to := SaturatingI128(BalanceOf(t, to) + amount)],
                   supply := SaturatingI128(t.supply + amount)))
    case Burn(from, amount) =>
      if from !in tx.signed || amount <= 0 || BalanceOf(t, from) < amount then None
      else Some(t.(balances := t.balances[from := BalanceOf(t, from) - amount],
                   supply := SaturatingI128(t.supply - amount)))
    case Transfer(from, to, amount) =>
      if from !in tx.signed || amount <= 0 || !CanMove(t, from, to, amount) then None
      else Some(t.(balances := Moved(t, from, to, amount)))
    case TransferFrom(spender, from, to, amount) =>
      var a := AllowanceOf(t, from, spender);
      if spender !in tx.signed || amount <= 0 || tx.sequence > a.expires || a.amount < amount then None
      else if !CanMove(t, from, to, amount) then None
      else Some(WithAllowance(t, from, spender, a.(amount := a.amount - amount)).(balances := Moved(t, from, to, amount)))
    case Approve(owner, spender, amount, expires) =>
      if owner !in tx.signed || (amount > 0 && expires < tx.sequence) then None
      else Some(WithAllowance(t, owner, spender, Allowance(amount, expires)))
    case Increase(owner, spender, amount) =>
      if owner !in tx.signed || amount <= 0 || (owner, spender) !in t.allowances then None
      else
        var a := AllowanceOf(t, owner, spender);
        Some(WithAllowance(t, owner, spender, a.(amount := SaturatingI128(a.amount + amount))))
    case Decrease(owner, spender, amount) =>
      if owner !in tx.signed || amount <= 0 then None
      else
        var a := AllowanceOf(t, owner, spender);
        Some(WithAllowance(t, owner, spender, a.(amount := SaturatingI128(a.amount - amount))))
  }

  function Step(t: Token, tx: Tx): Token { Apply(t, tx).GetOr(t) }

  function Run(t: Token, txs: seq<Tx>): Token {
    if txs == [] then t else Step(Run(t, txs[..|txs| - 1]), txs[|txs| - 1])
  }

  function Initialize(admin: Address): Token { Token(admin, map[], map[], 0) }

  // ----- supply -----

  /** The supply counter agrees with the balances, none of which is negative. */
  ghost predicate Backed(t: Token) {
    Sum(t.balances) == t.supply <= I128_MAX && forall a :: a in t.balances ==> t.balances[a] >= 0
  }

  lemma {:induction false} SetBalance(t: Token, a: Address, amount: int)
    ensures Sum(t.balances[a := amount]) == Sum(t.balances) + amount - BalanceOf(t, a)
  {
    SumByUpdate(t.balances, a, amount, Same);
  }

  lemma {:induction false} BalanceWithinSupply(t: Token, a: Address)
    requires Backed(t)
    ensures 0 <= BalanceOf(t, a) <= t.supply
  {
    forall b | b in t.balances ensures Same(t.balances[b]) >= 0 {}
    if a in t.balances {
      SumByBounds(t.balances, a, Same);
    } else {
      SumByNonNegative(t.balances, Same);
    }
  }

  lemma {:induction false} TwoBalancesWithinSupply(t: Token, a: Address, b: Address)
    requires Backed(t) && a != b
    ensures BalanceOf(t, a) + BalanceOf(t, b) <= t.supply
  {
    var t' := t.(balances := t.balances[a := 0], supply := t.supply - BalanceOf(t, a));
    SetBalance(t, a, 0);
    BalanceWithinSupply(t, a);
    BalanceWithinSupply(t', b);
  }

  lemma {:induction false} MovedKeepsSum(t: Token, from: Address, to: Address, amount: int)
    ensures Sum(Moved(t, from, to, amount)) == Sum(t.balances)
  {
    if from == to {
      SetBalance(t, from, BalanceOf(t, from));
    } else {
      SetBalance(t, from, BalanceOf(t, from) - amount);
      SetBalance(t.(balances := t.balances[from := BalanceOf(t, from) - amount]), to, BalanceOf(t, to) + amount);
    }
  }

  /** Every call but a mint keeps supply and balances in agreement. A mint keeps them so exactly
      when the new supply fits, or its receiver already held everything. */
  lemma {:induction false} StepKeepsBacked(t: Token, tx: Tx)
    requires Backed(t)
    ensures !tx.call.Mint? || Apply(t, tx).None? ==> Backed(Step(t, tx))
    ensures tx.call.Mint? && Apply(t, tx).Some? ==>
              (Backed(Step(t, tx)) <==>
               t.supply + tx.call.amount <= I128_MAX || BalanceOf(t, tx.call.to) == t.supply)
  {
    match tx.call
    case Mint(to, amount) =>
      SetBalance(t, to, SaturatingI128(BalanceOf(t, to) + amount));
      BalanceWithinSupply(t, to);
    case Burn(from, amount) =>
      SetBalance(t, from, BalanceOf(t, from) - amount);
      BalanceWithinSupply(t, from);
    case Transfer(from, to, amount) =>
      MovedKeepsSum(t, from, to, amount);
      BalanceWithinSupply(t, to);
    case TransferFrom(_, from, to, amount) =>
      MovedKeepsSum(t, from, to, amount);
      BalanceWithinSupply(t, to);
    case _ =>
  }

  /** From an agreeing state no transfer can fail by overflow: the sender's funds are enough. */
  lemma {:induction false} TransfersNeverOverflow(t: Token, from: Address, to: Address, amount: int)
    requires Backed(t) && amount > 0
    ensures CanMove(t, from, to, amount) <==> amount <= BalanceOf(t, from)
  {
    if from != to {
      TwoBalancesWithinSupply(t, from, to);
    }
  }

  function Minted(t: Token, txs: seq<Tx>): int {
    if txs == [] then 0 else
      var front, last := txs[..|txs| - 1], txs[|txs| - 1];
      Minted(t, front) + if last.call.Mint? && Apply(Run(t, front), last).Some? then last.call.amount else 0
  }

  lemma {:induction false} MintedGrows(t: Token, txs: seq<Tx>)
    requires txs != []
    ensures 0 <= Minted(t, txs[..|txs| - 1]) <= Minted(t, txs)
  {
    var front := txs[..|txs| - 1];
    if front != [] {
      MintedGrows(t, front);
    }
  }

  /** After any run that mints no more than `i128` can hold, supply equals the sum of balances,
      and never exceeds what was minted. */
  lemma {:induction false} SupplyIsBacked(admin: Address, txs: seq<Tx>)
    requires Minted(Initialize(admin), txs) <= I128_MAX
    ensures Backed(Run(Initialize(admin), txs))
    ensures Run(Initialize(admin), txs).supply <= Minted(Initialize(admin), txs)
  {
    if txs != [] {
      MintedGrows(Initialize(admin), txs);
      SupplyIsBacked(admin, txs[..|txs| - 1]);
      StepKeepsBacked(Run(Initialize(admin), txs[..|txs| - 1]), txs[|txs| - 1]);
      BurnedWithinSupply(Run(Initialize(admin), txs[..|txs| - 1]), txs[|txs| - 1]);
    }
  }

  lemma BurnedWithinSupply(t: Token, tx: Tx)
    requires Backed(t)
    ensures Step(t, tx).supply <= t.supply + if tx.call.Mint? && Apply(t, tx).Some? then tx.call.amount else 0
  {
    BalanceWithinSupply(t, if tx.call.Burn? then tx.call.from else 0);
  }

  // ----- allowances -----

  /** `allowance` reads exactly what `transfer_from` would let through. */
  lemma {:induction false} SpendableIsDrawable(t: Token, sequence: nat, spender: Address, from: Address, to: Address, amount: int)
    requires Backed(t) && amount > 0
    ensures Apply(t, Tx(sequence, {spender}, TransferFrom(spender, from, to, amount))).Some? <==>
            amount <= Spendable(t, from, spender, sequence) && amount <= BalanceOf(t, from)
  {
    TransfersNeverOverflow(t, from, to, amount);
  }

  function DrawnBy(t: Token, tx: Tx, owner: Address, spender: Address): int {
    if tx.call.TransferFrom? && tx.call.from == owner && tx.call.spender == spender && Apply(t, tx).Some?
    then tx.call.amount else 0
  }

  function Drawn(t: Token, txs: seq<Tx>, owner: Address, spender: Address): int {
    if txs == [] then 0 else
      var front, last := txs[..|txs| - 1], txs[|txs| - 1];
      Drawn(t, front, owner, spender) + DrawnBy(Run(t, front), last, owner, spender)
  }

  function DrawnAfter(t: Token, txs: seq<Tx>, owner: Address, spender: Address, sequence: nat): int {
    if txs == [] then 0 else
      var front, last := txs[..|txs| - 1], txs[|txs| - 1];
      DrawnAfter(t, front, owner, spender, sequence) +
      if last.sequence > sequence then DrawnBy(Run(t, front), last, owner, spender) else 0
  }

  function Increased(t: Token, txs: seq<Tx>, owner: Address, spender: Address): int {
    if txs == [] then 0 else
      var front, last := txs[..|txs| - 1], txs[|txs| - 1];
      Increased(t, front, owner, spender) +
      if last.call.Increase? && last.call.owner == owner && last.call.spender == spender && Apply(Run(t, front), last).Some?
      then last.call.amount else 0
  }

  predicate NoApproval(txs: seq<Tx>, owner: Address, spender: Address) {
    forall i :: 0 <= i < |txs| ==> !(txs[i].call.Approve? && txs[i].call.owner == owner && txs[i].call.spender == spender)
  }

  predicate RepresentableAllowance(t: Token, owner: Address, spender: Address) {
    IsI128(AllowanceOf(t, owner, spender).amount)
  }

  /** One call either draws on the allowance, raises it, lowers it, or leaves it be. */
  lemma AllowanceMoves(t: Token, tx: Tx, owner: Address, spender: Address)
    requires RepresentableAllowance(t, owner, spender) && NoApproval([tx], owner, spender)
    ensures var a, a' := AllowanceOf(t, owner, spender), AllowanceOf(Step(t, tx), owner, spender);
            var raised := Increased(t, [tx], owner, spender);
            && RepresentableAllowance(Step(t, tx), owner, spender)
            && a'.expires == a.expires
            && 0 <= DrawnBy(t, tx, owner, spender) && 0 <= raised
            && a'.amount <= a.amount - DrawnBy(t, tx, owner, spender) + raised
            && (DrawnBy(t, tx, owner, spender) > 0 ==> a'.amount >= 0 && tx.sequence <= a.expires)
  {
    assert [tx][0] == tx && [tx][..0] == [];
    hide Moved, CanMove;
  }

  /** Between two approvals a spender draws at most the approved amount and whatever it was
      raised by, and nothing at all after the expiration ledger. */
  lemma {:induction false} DrawsAreApproved(t: Token, txs: seq<Tx>, owner: Address, spender: Address)
    requires RepresentableAllowance(t, owner, spender) && NoApproval(txs, owner, spender)
    ensures var a, a' := AllowanceOf(t, owner, spender), AllowanceOf(Run(t, txs), owner, spender);
            var raised, drawn := Increased(t, txs, owner, spender), Drawn(t, txs, owner, spender);
            && RepresentableAllowance(Run(t, txs), owner, spender)
            && 0 <= drawn && 0 <= raised
            && drawn + a'.amount <= a.amount + raised
            && (drawn == 0 || drawn <= a.amount + raised)
            && a'.expires == a.expires
            && DrawnAfter(t, txs, owner, spender, a.expires) == 0
  {
    hide Apply, Step, RepresentableAllowance;
    if txs != [] {
      var front, last := txs[..|txs| - 1], txs[|txs| - 1];
      DrawsAreApproved(t, front, owner, spender);
      assert NoApproval([last], owner, spender);
      AllowanceMoves(Run(t, front), last, owner, spender);
      IncreasedOnce(Run(t, front), last, owner, spender);
    }
  }

  lemma IncreasedOnce(t: Token, tx: Tx, owner: Address, spender: Address)
    ensures Increased(t, [tx], owner, spender) ==
            if tx.call.Increase? && tx.call.owner == owner && tx.call.spender == spender && Apply(t, tx).Some?
            then tx.call.amount else 0
  {
    assert [tx][0] == tx && [tx][..0] == [];
  }

  /** Decreasing does not stop at zero: the allowance stays non-negative exactly when no more than
      it held is taken off. */
  lemma {:induction false} DecreaseStaysNonNegative(t: Token, sequence: nat, owner: Address, spender: Address, amount: int)
    requires amount > 0 && IsI128(amount) && RepresentableAllowance(t, owner, spender)
    ensures AllowanceOf(Step(t, Tx(sequence, {owner}, Decrease(owner, spender, amount))), owner, spender).amount >= 0 <==>
            amount <= AllowanceOf(t, owner, spender).amount
    ensures AllowanceOf(Step(Initialize(0), Tx(0, {1}, Decrease(1, 2, 5))), 1, 2).amount == -5
  {
  }

  // ----- what each call does -----

  /** Nobody starts with anything to spend or to draw on. */
  lemma InitializeEffect(admin: Address, a: Address, spender: Address)
    ensures var t := Initialize(admin);
            BalanceOf(t, a) == 0 && AllowanceOf(t, a, spender) == Allowance(0, 0) && t.supply == 0 && t.admin == admin
  {
  }

  /** What changes hands: `amount` from one address to the other, which may be the same. */
  ghost predicate Moves(t: Token, t': Token, from: Address, to: Address, amount: int) {
    forall a: Address ::
      BalanceOf(t', a) == BalanceOf(t, a) + (if a == to then amount else 0) - (if a == from then amount else 0)
  }

  ghost predicate OnlyBalance(t: Token, t': Token, owner: Address, change: int) {
    forall a: Address :: BalanceOf(t', a) == BalanceOf(t, a) + if a == owner then change else 0
  }

  /** The allowance of this pair has become `amount` until `expires`; no other has changed. */
  ghost predicate OnlyAllowance(t: Token, t': Token, owner: Address, spender: Address, amount: int, expires: nat) {
    forall o: Address, p: Address ::
      AllowanceOf(t', o, p) == if (o, p) == (owner, spender) then Allowance(amount, expires) else AllowanceOf(t, o, p)
  }

  /** A transfer moves exactly the amount; allowances and supply stay. */
  lemma TransferEffect(t: Token, sequence: nat, signed: set<Address>, from: Address, to: Address, amount: int)
    ensures var tx := Tx(sequence, signed, Transfer(from, to, amount));
            && (Apply(t, tx).Some? <==>
                from in signed && 0 < amount <= BalanceOf(t, from) && (from != to ==> BalanceOf(t, to) + amount <= I128_MAX))
            && (Apply(t, tx).Some? ==>
                  Step(t, tx) == t.(balances := Step(t, tx).balances) && Moves(t, Step(t, tx), from, to, amount))
  {
  }

  /** A transfer by a spender moves exactly the amount, and takes it off the spender's allowance. */
  lemma TransferFromEffect(t: Token, sequence: nat, signed: set<Address>, spender: Address, from: Address, to: Address, amount: int)
    ensures var tx := Tx(sequence, signed, TransferFrom(spender, from, to, amount));
            var a := AllowanceOf(t, from, spender);
            && (Apply(t, tx).Some? <==>
                && spender in signed && 0 < amount <= a.amount && sequence <= a.expires
                && amount <= BalanceOf(t, from) && (from != to ==> BalanceOf(t, to) + amount <= I128_MAX))
            && (Apply(t, tx).Some? ==>
                  && Moves(t, Step(t, tx), from, to, amount) && Step(t, tx).supply == t.supply && Step(t, tx).admin == t.admin
                  && OnlyAllowance(t, Step(t, tx), from, spender, a.amount - amount, a.expires))
  {
  }

  /** Minting and burning change one balance and the supply by the amount, up to saturation. */
  lemma MintBurnEffect(t: Token, tx: Tx)
    requires tx.call.Mint? || tx.call.Burn?
    ensures var owner := if tx.call.Mint? then tx.call.to else tx.call.from;
            var change := if tx.call.Mint? then tx.call.amount else -tx.call.amount;
            && (Apply(t, tx).Some? <==>
                && tx.call.amount > 0
                && (if tx.call.Mint? then t.admin in tx.signed else owner in tx.signed && tx.call.amount <= BalanceOf(t, owner)))
            && (Apply(t, tx).Some? ==>
                  && Step(t, tx) == t.(balances := Step(t, tx).balances, supply := Step(t, tx).supply)
                  && (tx.call.Burn? || IsI128(BalanceOf(t, owner) + change) ==> OnlyBalance(t, Step(t, tx), owner, change))
                  && (tx.call.Mint? && BalanceOf(t, owner) + change > I128_MAX ==> OnlyBalance(t, Step(t, tx), owner, I128_MAX - BalanceOf(t, owner)))
                  && (IsI128(t.supply + change) ==> Step(t, tx).supply == t.supply + change)
                  && (t.supply + change > I128_MAX ==> Step(t, tx).supply == I128_MAX))
  {
  }

  /** Approving sets a spender's allowance; raising and lowering it keep its expiry. */
  lemma AllowanceEffect(t: Token, tx: Tx)
    requires tx.call.Approve? || tx.call.Increase? || tx.call.Decrease?
    ensures var owner, spender, amount := tx.call.owner, tx.call.spender, tx.call.amount;
            var a := AllowanceOf(t, owner, spender);
            var (t', changed) := (Step(t, tx), if tx.call.Increase? then a.amount + amount else a.amount - amount);
            && (Apply(t, tx).Some? <==>
                && owner in tx.signed
                && (if tx.call.Approve? then amount <= 0 || tx.sequence <= tx.call.expires else amount > 0)
                && (tx.call.Increase? ==> (owner, spender) in t.allowances))
            && (Apply(t, tx).Some? ==>
                  && t' == t.(allowances := t'.allowances)
                  && (tx.call.Approve? ==> OnlyAllowance(t, t', owner, spender, amount, tx.call.expires))
                  && (!tx.call.Approve? && IsI128(changed) ==> OnlyAllowance(t, t', owner, spender, changed, a.expires))
                  && (!tx.call.Approve? && !IsI128(changed) ==>
                        OnlyAllowance(t, t', owner, spender, if changed > 0 then I128_MAX else I128_MIN, a.expires)))
  {
  }

  /** What the spender's draws have taken out of the owner's balance. */
  function Taken(t: Token, txs: seq<Tx>, owner: Address, spender: Address): int {
    if txs == [] then 0 else
      var front, last := txs[..|txs| - 1], txs[|txs| - 1];
      var before := Run(t, front);
      Taken(t, front, owner, spender) +
      if last.call.TransferFrom? && last.call.from == owner && last.call.spender == spender
      then BalanceOf(before, owner) - BalanceOf(Step(before, last), owner) else 0
  }

  /** What the spender's draws have put into `to`'s balance. */
  function Given(t: Token, txs: seq<Tx>, owner: Address, spender: Address, to: Address): int {
    if txs == [] then 0 else
      var front, last := txs[..|txs| - 1], txs[|txs| - 1];
      var before := Run(t, front);
      Given(t, front, owner, spender, to) +
      if last.call.TransferFrom? && last.call.from == owner && last.call.spender == spender
      then BalanceOf(Step(before, last), to) - BalanceOf(before, to) else 0
  }

  predicate NeverToSelf(txs: seq<Tx>, owner: Address) {
    forall i :: 0 <= i < |txs| ==> txs[i].call.TransferFrom? && txs[i].call.from == owner ==> txs[i].call.to != owner
  }

  /** What is counted as drawn is what left the owner's balance, but for draws paid back to the owner,
      which take nothing. */
  lemma {:induction false} DrawnIsTaken(t: Token, txs: seq<Tx>, owner: Address, spender: Address)
    ensures 0 <= Taken(t, txs, owner, spender) <= Drawn(t, txs, owner, spender)
    ensures NeverToSelf(txs, owner) ==> Taken(t, txs, owner, spender) == Drawn(t, txs, owner, spender)
  {
    if txs != [] {
      var front, last := txs[..|txs| - 1], txs[|txs| - 1];
      DrawnIsTaken(t, front, owner, spender);
      if last.call.TransferFrom? {
        TransferFromEffect(Run(t, front), last.sequence, last.signed, last.call.spender, last.call.from, last.call.to, last.call.amount);
      }
      hide Apply;
    }
  }

  /** So between two approvals no more leaves the owner's balance through the spender than was approved
      and added, and nobody is given more than that by the spender's draws. */
  lemma {:induction false} TakenIsApproved(t: Token, txs: seq<Tx>, owner: Address, spender: Address, to: Address)
    requires RepresentableAllowance(t, owner, spender) && NoApproval(txs, owner, spender)
    ensures var most := Max(0, AllowanceOf(t, owner, spender).amount + Increased(t, txs, owner, spender));
            Taken(t, txs, owner, spender) <= most && (to != owner ==> Given(t, txs, owner, spender, to) <= most)
  {
    DrawnIsTaken(t, txs, owner, spender);
    if to != owner {
      GivenWithinDrawn(t, txs, owner, spender, to);
    }
    DrawsAreApproved(t, txs, owner, spender);
  }

  lemma {:induction false} GivenWithinDrawn(t: Token, txs: seq<Tx>, owner: Address, spender: Address, to: Address)
    requires to != owner
    ensures Given(t, txs, owner, spender, to) <= Drawn(t, txs, owner, spender)
  {
    if txs != [] {
      var front, last := txs[..|txs| - 1], txs[|txs| - 1];
      GivenWithinDrawn(t, front, owner, spender, to);
      if last.call.TransferFrom? {
        TransferFromEffect(Run(t, front), last.sequence, last.signed, last.call.spender, last.call.from, last.call.to, last.call.amount);
      }
      hide Apply;
    }
  }

  // ----- the contract in place -----

  class NovaTokenContract {
    var admin: Address
    var balances: map<Address, int>
    var allowances: map<(Address, Address), Allowance>
    var supply: int

    ghost function State(): Token
      reads this
    {
      Token(admin, balances, allowances, supply)
    }

    constructor (admin: Address)
      ensures State() == Initialize(admin)
    {
      this.admin, balances, allowances, supply := admin, map[], map[], 0;
    }

    function Read(a: Address): (amount: int)
      reads this
      ensures amount == BalanceOf(State(), a)
    {
      if a in balances then balances[a] else 0
    }

    method MintTokens(sequence: nat, signed: set<Address>, to: Address, amount: int) returns (ok: bool)
      modifies this`balances, this`supply
      ensures State() == Step(old(State()), Tx(sequence, signed, Mint(to, amount)))
      ensures ok <==> Apply(old(State()), Tx(sequence, signed, Mint(to, amount))).Some?
    {
      if admin !in signed || amount <= 0 {
        return false;
      }
      balances := balances[to := SaturatingI128(Read(to) + amount)];
      supply := SaturatingI128(supply + amount);
      ok := true;
    }

    method BurnTokens(sequence: nat, signed: set<Address>, from: Address, amount: int) returns (ok: bool)
      modifies this`balances, this`supply
      ensures State() == Step(old(State()), Tx(sequence, signed, Burn(from, amount)))
      ensures ok <==> Apply(old(State()), Tx(sequence, signed, Burn(from, amount))).Some?
    {
      var balance := Read(from);
      if from !in signed || amount <= 0 || balance < amount {
        return false;
      }
      balances := balances[from := balance - amount];
      supply := SaturatingI128(supply - amount);
      ok := true;
    }

    /** The debit is written before the receiver's balance is read, so that sending to oneself
        comes out even; a trap afterwards undoes it. */
    method MoveTokens(from: Address, to: Address, amount: int) returns (ok: bool)
      requires amount > 0 && IsI128(Read(from))
      modifies this`balances
      ensures ok <==> CanMove(old(State()), from, to, amount)
      ensures balances == if ok then Moved(old(State()), from, to, amount) else old(balances)
    {
      var saved := balances;
      var fromBalance := Read(from);
      if fromBalance < amount {
        return false;
      }
      balances := balances[from := fromBalance - amount];
      var toBalance := Read(to);
      if toBalance + amount > I128_MAX {
        balances := saved;
        return false;
      }
      balances := balances[to := toBalance + amount];
      assert from == to ==> balances == saved[from := fromBalance];
      ok := true;
    }

    method TransferTokens(sequence: nat, signed: set<Address>, from: Address, to: Address, amount: int) returns (ok: bool)
      requires IsI128(Read(from))
      modifies this`balances
      ensures State() == Step(old(State()), Tx(sequence, signed, Transfer(from, to, amount)))
      ensures ok <==> Apply(old(State()), Tx(sequence, signed, Transfer(from, to, amount))).Some?
    {
      if from !in signed || amount <= 0 {
        return false;
      }
      ok := MoveTokens(from, to, amount);
    }

    method TransferFromTokens(sequence: nat, signed: set<Address>, spender: Address, from: Address, to: Address, amount: int)
      returns (ok: bool)
      requires IsI128(Read(from))
      modifies this`balances, this`allowances
      ensures State() == Step(old(State()), Tx(sequence, signed, TransferFrom(spender, from, to, amount)))
      ensures ok <==> Apply(old(State()), Tx(sequence, signed, TransferFrom(spender, from, to, amount))).Some?
    {
      if spender !in signed || amount <= 0 {
        return false;
      }
      var key := (from, spender);
      var allowance := if key in allowances then allowances[key] else Allowance(0, 0);
      if sequence > allowance.expires || allowance.amount < amount {
        return false;
      }
      var saved := allowances;
      allowances := allowances[key := allowance.(amount := allowance.amount - amount)];
      ok := MoveTokens(from, to, amount);
      if !ok {
        allowances := saved;
      }
    }

    method ApproveSpender(sequence: nat, signed: set<Address>, owner: Address, spender: Address, amount: int, expires: nat)
      returns (ok: bool)
      modifies this`allowances
      ensures State() == Step(old(State()), Tx(sequence, signed, Approve(owner, spender, amount, expires)))
      ensures ok <==> Apply(old(State()), Tx(sequence, signed, Approve(owner, spender, amount, expires))).Some?
    {
      if owner !in signed {
        return false;
      }
      if amount > 0 && expires < sequence {
        return false;
      }
      allowances := allowances[(owner, spender) := Allowance(amount, expires)];
      ok := true;
    }

    method IncreaseAllowance(sequence: nat, signed: set<Address>, owner: Address, spender: Address, amount: int) returns (ok: bool)
      modifies this`allowances
      ensures State() == Step(old(State()), Tx(sequence, signed, Increase(owner, spender, amount)))
      ensures ok <==> Apply(old(State()), Tx(sequence, signed, Increase(owner, spender, amount))).Some?
    {
      var key := (owner, spender);
      if owner !in signed || amount <= 0 || key !in allowances {
        return false;
      }
      var existing := allowances[key];
      allowances := allowances[key := existing.(amount := SaturatingI128(existing.amount + amount))];
      ok := true;
    }

    method DecreaseAllowance(sequence: nat, signed: set<Address>, owner: Address, spender: Address, amount: int) returns (ok: bool)
      modifies this`allowances
      ensures State() == Step(old(State()), Tx(sequence, signed, Decrease(owner, spender, amount)))
      ensures ok <==> Apply(old(State()), Tx(sequence, signed, Decrease(owner, spender, amount))).Some?
    {
      var key := (owner, spender);
      if owner !in signed || amount <= 0 {
        return false;
      }
      var existing := if key in allowances then allowances[key] else Allowance(0, 0);
      allowances := allowances[key := existing.(amount := SaturatingI128(existing.amount - amount))];
      ok := true;
    }
  }
}
