/** The points tables of the backend, and the two transactions that change them, each run alone
    from BEGIN to COMMIT or ROLLBACK. `Execute` is the one-at-a-time meaning of a call; class
    `Connection` performs the same statements in place, with rollback. */
module PointsDatabase {
  import opened Prelude

  const MAX_INT4: int := 0x7FFF_FFFF

  /** A `rewards` row; `cents` is its NUMERIC(18,2) cost in hundredths. */
  datatype Reward = Reward(cents: nat, stock: int, active: bool, deleted: bool)

  /** `Unlisted` stands for any type string outside the column's CHECK list. */
  datatype Kind = Earned | Redeemed | Expired | Bonus | Referral | Unlisted

  /** Rows carry the number of the transaction that inserted them in place of a serial id. */
  datatype LedgerRow = LedgerRow(id: nat, user: nat, kind: Kind, amount: int, before: int, after: int)

  datatype Redemption = Redemption(user: nat, reward: nat, points: int, key: string, pointTx: nat)

  datatype Db = Db(rewards: map<nat, Reward>, balances: map<nat, int>,
                   ledger: seq<LedgerRow>, redemptions: seq<Redemption>)

  datatype Call =
    | Redeem(user: nat, reward: nat, key: string)
    | Record(user: nat, kind: Kind, amount: int)

  datatype Refusal =
    | NotFound | Inactive | OutOfStock | Insufficient | ZeroAmount
    | OutOfRange | CheckViolation | DuplicateKey | ConnectionLost

  datatype Reply =
    | Recorded(row: LedgerRow)
    | Fresh(redemption: Redemption, row: LedgerRow)
    | Replayed(redemption: Redemption)
    | Refused(why: Refusal)

  /** `Math.round` of a cost held in hundredths. */
  function PointCost(r: Reward): nat { (r.cents + 50) / 100 }

  function Balance(db: Db, user: nat): int {
    if user in db.balances then db.balances[user] else 0
  }

  /** The redemption carrying `key`, if one is stored. */
  function FindKey(rows: seq<Redemption>, key: string): Option<Redemption> {
    if rows == [] then None else
      var front := FindKey(rows[..|rows| - 1], key);
      var last := rows[|rows| - 1];
      if front.Some? then front else if last.key == key then Some(last) else None
  }

  lemma {:induction false} FindKeyMeaning(rows: seq<Redemption>, key: string)
    ensures FindKey(rows, key).Some? ==> FindKey(rows, key).value in rows && FindKey(rows, key).value.key == key
    ensures FindKey(rows, key).None? ==> forall r :: r in rows ==> r.key != key
  {
    if rows != [] {
      FindKeyMeaning(rows[..|rows| - 1], key);
    }
  }

  /** `recordPointTransaction`'s signed effect: its two debit types subtract. */
  function Delta(kind: Kind, amount: int): int {
    if kind in {Redeemed, Expired} then -amount else amount
  }

  /** The range and CHECK constraints of `point_transactions`. */
  function RowRefusal(row: LedgerRow): Option<Refusal> {
    if !(-MAX_INT4 - 1 <= row.amount <= MAX_INT4 && row.after <= MAX_INT4) then Some(OutOfRange)
    else if row.kind == Unlisted || row.amount == 0 || row.after < 0 then Some(CheckViolation)
    else None
  }

  /** The reason `redeemReward` gives for turning away a reward row, tested in its order. */
  function RewardRefusal(r: Reward): Option<Refusal> {
    if r.deleted then Some(NotFound)
    else if !r.active then Some(Inactive)
    else if r.stock <= 0 then Some(OutOfStock)
    else None
  }

  function Charge(id: nat, call: Call, cost: int, before: int): LedgerRow {
    match call
    case Redeem(user, _, _) => LedgerRow(id, user, Redeemed, cost, before, before - cost)
    case Record(user, kind, amount) => LedgerRow(id, user, kind, amount, before, before + Delta(kind, amount))
  }

  /** A row together with the balance its insertion trigger writes. */
  function Post(db: Db, row: LedgerRow): Db {
    db.(ledger := db.ledger + [row], balances := db.balances[row.user := row.after])
  }

  function Take(db: Db, reward: nat, r: Redemption): Db
    requires reward in db.rewards
  {
    var row := db.rewards[reward];
    db.(rewards := db.rewards[reward := row.(stock := row.stock - 1)], redemptions := db.redemptions + [r])
  }

  /** A whole call, run with no other transaction open. */
  function Execute(db: Db, id: nat, call: Call): (Db, Reply) {
    match call
    case Redeem(user, reward, key) =>
      var known := FindKey(db.redemptions, key);
      if known.Some? then (db, Replayed(known.value))
      else if reward !in db.rewards then (db, Refused(NotFound))
      else if RewardRefusal(db.rewards[reward]).Some? then (db, Refused(RewardRefusal(db.rewards[reward]).value))
      else
        var cost := PointCost(db.rewards[reward]);
        var row := Charge(id, call, cost, Balance(db, user));
        if row.after < 0 then (db, Refused(Insufficient))
        else if RowRefusal(row).Some? then (db, Refused(RowRefusal(row).value))
        else
          var redemption := Redemption(user, reward, cost, key, id);
          (Take(Post(db, row), reward, redemption), Fresh(redemption, row))
    case Record(user, _, amount) =>
      var row := Charge(id, call, 0, Balance(db, user));
      if amount == 0 then (db, Refused(ZeroAmount))
      else if row.after < 0 then (db, Refused(Insufficient))
      else if RowRefusal(row).Some? then (db, Refused(RowRefusal(row).value))
      else (Post(db, row), Recorded(row))
  }

  /** The tables with no key stored yet. */
  function Unkeyed(db: Db): Db { db.(redemptions := []) }

  /** A key only matters to the call that finds it stored. */
  lemma UnstoredKeyIsNoMatter(db: Db, id: nat, call: Call)
    requires call.Redeem? ==> FindKey(db.redemptions, call.key).None?
    ensures Execute(db, id, call).1 == Execute(Unkeyed(db), id, call).1
  {
  }

  // ----- what a call costs and pays -----

  /** `points` is a cost in cents as whole points, half a point rounded up. */
  predicate Rounds(cents: nat, points: int) { 100 * points - 50 <= cents < 100 * points + 50 }

  /** A redemption goes through exactly if its key is unused, the reward can be had, and its cost is
      positive and covered; the refusals come in the order of the checks. */
  lemma RedeemSucceeds(db: Db, id: nat, user: nat, reward: nat, key: string, points: int)
    requires reward in db.rewards ==> Rounds(db.rewards[reward].cents, points)
    ensures var held := if user in db.balances then db.balances[user] else 0;
            var unused := forall r :: r in db.redemptions ==> r.key != key;
            var there := unused && reward in db.rewards && !db.rewards[reward].deleted;
            var open := there && db.rewards[reward].active;
            var stocked := open && db.rewards[reward].stock > 0;
            var reply := Execute(db, id, Redeem(user, reward, key)).1;
            && (reply.Replayed? <==> !unused)
            && (reply == Refused(NotFound) <==> unused && !there)
            && (reply == Refused(Inactive) <==> there && !open)
            && (reply == Refused(OutOfStock) <==> open && !stocked)
            && (reply == Refused(Insufficient) <==> stocked && held < points)
            && (reply.Fresh? <==> stocked && 0 < points <= 2_147_483_647 && 0 <= held - points <= 2_147_483_647)
  {
    FindKeyMeaning(db.redemptions, key);
    hide FindKey;
  }

  /** A redemption that goes through takes the rounded cost from the user and one item from stock,
      and leaves a receipt and a ledger row that say so. */
  lemma RedeemEffect(db: Db, id: nat, user: nat, reward: nat, key: string)
    requires Execute(db, id, Redeem(user, reward, key)).1.Fresh?
    ensures reward in db.rewards
    ensures var (db', reply) := Execute(db, id, Redeem(user, reward, key));
            var held := if user in db.balances then db.balances[user] else 0;
            var item, points := db.rewards[reward], reply.redemption.points;
            && Rounds(item.cents, points)
            && db'.balances == db.balances[user := held - points]
            && db'.rewards == db.rewards[reward := Reward(item.cents, item.stock - 1, true, false)]
            && db'.redemptions == db.redemptions + [Redemption(user, reward, points, key, id)]
            && db'.ledger == db.ledger + [LedgerRow(id, user, Redeemed, points, held, held - points)]
            && reply == Fresh(Redemption(user, reward, points, key, id), LedgerRow(id, user, Redeemed, points, held, held - points))
  {
  }

  /** A recorded transaction raises the balance for `earned`, `bonus` and `referral` and lowers it for
      `redeemed` and `expired`; it goes through exactly if it is of a listed kind, is not zero, and
      leaves a balance that is not negative and fits the column. */
  lemma RecordEffect(db: Db, id: nat, user: nat, kind: Kind, amount: int)
    ensures var (db', reply) := Execute(db, id, Record(user, kind, amount));
            var held := if user in db.balances then db.balances[user] else 0;
            var after := match kind
              case Redeemed => held - amount
              case Expired => held - amount
              case _ => held + amount;
            var row := LedgerRow(id, user, kind, amount, held, after);
            && (reply == Refused(ZeroAmount) <==> amount == 0)
            && (reply == Refused(Insufficient) <==> amount != 0 && after < 0)
            && (reply.Recorded? <==> kind != Unlisted && amount != 0 && -2_147_483_648 <= amount <= 2_147_483_647
                                     && 0 <= after <= 2_147_483_647)
            && (if reply.Recorded?
                then reply == Recorded(row)
                     && db' == Db(db.rewards, db.balances[user := after], db.ledger + [row], db.redemptions)
                else db' == db)
  {
  }

  /** The amounts credited to `user` by these rows, and those debited. */
  function Credits(rows: seq<LedgerRow>, user: nat): int {
    if rows == [] then 0 else
      var last := rows[|rows| - 1];
      Credits(rows[..|rows| - 1], user) + if last.user == user && last.kind in {Earned, Bonus, Referral} then last.amount else 0
  }

  function Debits(rows: seq<LedgerRow>, user: nat): int {
    if rows == [] then 0 else
      var last := rows[|rows| - 1];
      Debits(rows[..|rows| - 1], user) + if last.user == user && last.kind in {Redeemed, Expired} then last.amount else 0
  }

  /** The user's balance has changed since `init` by what was credited less what was debited. */
  predicate AddsUp(init: Db, db: Db, user: nat) {
    && init.ledger <= db.ledger
    && var since := db.ledger[|init.ledger|..];
       Balance(db, user) == Balance(init, user) + Credits(since, user) - Debits(since, user)
  }

  lemma RowsAddUp(init: Db, db: Db, db': Db, row: LedgerRow, user: nat)
    requires AddsUp(init, db, user) && db'.ledger == db.ledger + [row]
    requires var change := if row.kind in {Earned, Bonus, Referral} then row.amount else if row.kind in {Redeemed, Expired} then -row.amount else 0;
             Balance(db', user) == Balance(db, user) + if row.user == user then change else 0
    ensures AddsUp(init, db', user)
  {
    var since := db.ledger[|init.ledger|..];
    assert db'.ledger[|init.ledger|..] == since + [row] && (since + [row])[..|since|] == since;
  }

  lemma ExecuteAddsUp(init: Db, db: Db, id: nat, call: Call, user: nat)
    requires AddsUp(init, db, user)
    ensures AddsUp(init, Execute(db, id, call).0, user)
  {
    var (db', reply) := Execute(db, id, call);
    hide AddsUp;
    match reply
    case Recorded(row) =>
      RecordEffect(db, id, call.user, call.kind, call.amount);
      RowsAddUp(init, db, db', row, user);
    case Fresh(_, row) =>
      RedeemEffect(db, id, call.user, call.reward, call.key);
      RowsAddUp(init, db, db', row, user);
    case _ =>
  }

  // ----- what every committed call keeps -----

  function UserRows(rows: seq<LedgerRow>, user: nat): seq<LedgerRow> {
    if rows == [] then [] else
      var front := UserRows(rows[..|rows| - 1], user);
      if rows[|rows| - 1].user == user then front + [rows[|rows| - 1]] else front
  }

  /** Each row starts where the previous one ended, and `closing` is where the last one ended. */
  predicate Chain(rows: seq<LedgerRow>, opening: int, closing: int) {
    if rows == [] then opening == closing else
      var last := rows[|rows| - 1];
      last.after == closing && last.after == last.before + Delta(last.kind, last.amount) &&
      Chain(rows[..|rows| - 1], opening, last.before)
  }

  function TimesRedeemed(rows: seq<Redemption>, reward: nat): nat {
    if rows == [] then 0 else
      TimesRedeemed(rows[..|rows| - 1], reward) + if rows[|rows| - 1].reward == reward then 1 else 0
  }

  predicate DistinctKeys(rows: seq<Redemption>) {
    forall i, j :: 0 <= i < j < |rows| ==> rows[i].key != rows[j].key
  }

  /** Every redemption points at the ledger row that paid for it. */
  predicate Paid(r: Redemption, ledger: seq<LedgerRow>) {
    exists row :: row in ledger && row.id == r.pointTx && row.user == r.user
                  && row.kind == Redeemed && row.amount == r.points && r.points > 0
  }

  predicate Healthy(db: Db) {
    && (forall r :: r in db.rewards ==> db.rewards[r].stock >= 0)
    && (forall u :: u in db.balances ==> db.balances[u] >= 0)
    && DistinctKeys(db.redemptions)
  }

  /** Stock has gone down by exactly the redemptions since `init`; nothing else of a reward changed. */
  ghost predicate StockAccounted(init: Db, db: Db) {
    && init.redemptions <= db.redemptions
    && db.rewards.Keys == init.rewards.Keys
    && forall r :: r in init.rewards ==>
         db.rewards[r] == init.rewards[r].(stock :=
           init.rewards[r].stock - TimesRedeemed(db.redemptions[|init.redemptions|..], r))
  }

  /** Each user's ledger rows since `init` lead from the balance then to the balance now. */
  ghost predicate ChainsClose(init: Db, db: Db) {
    && init.ledger <= db.ledger
    && forall u: nat :: Chain(UserRows(db.ledger[|init.ledger|..], u), Balance(init, u), Balance(db, u))
  }

  predicate AllPaid(init: Db, db: Db) {
    && init.redemptions <= db.redemptions
    && forall r :: r in db.redemptions[|init.redemptions|..] ==> Paid(r, db.ledger)
  }

  /** `db` can have been reached from `init` by committed calls: stock, redemptions, ledger and
      balances agree about what happened in between. */
  ghost predicate Grown(init: Db, db: Db) {
    Healthy(db) && StockAccounted(init, db) && ChainsClose(init, db) && AllPaid(init, db)
  }

  lemma UserRowsAppend(rows: seq<LedgerRow>, row: LedgerRow, user: nat)
    ensures UserRows(rows + [row], user) ==
            if row.user == user then UserRows(rows, user) + [row] else UserRows(rows, user)
  {
    assert (rows + [row])[..|rows|] == rows;
  }

  lemma ChainAppend(rows: seq<LedgerRow>, row: LedgerRow, opening: int, closing: int)
    requires Chain(rows, opening, closing)
    requires row.before == closing && row.after == row.before + Delta(row.kind, row.amount)
    ensures Chain(rows + [row], opening, row.after)
  {
    assert (rows + [row])[..|rows|] == rows;
  }

  lemma PostChains(init: Db, db: Db, row: LedgerRow)
    requires ChainsClose(init, db)
    requires row.before == Balance(db, row.user) && row.after == row.before + Delta(row.kind, row.amount)
    ensures ChainsClose(init, Post(db, row))
  {
    var db' := Post(db, row);
    var since := db.ledger[|init.ledger|..];
    assert db'.ledger[|init.ledger|..] == since + [row];
    forall u: nat ensures Chain(UserRows(since + [row], u), Balance(init, u), Balance(db', u)) {
      UserRowsAppend(since, row, u);
      if u == row.user {
        ChainAppend(UserRows(since, u), row, Balance(init, u), Balance(db, u));
      }
    }
  }

  lemma PaidStays(r: Redemption, ledger: seq<LedgerRow>, row: LedgerRow)
    requires Paid(r, ledger)
    ensures Paid(r, ledger + [row])
  {
    var paying :| paying in ledger && paying.id == r.pointTx && paying.user == r.user
                  && paying.kind == Redeemed && paying.amount == r.points && r.points > 0;
    assert paying in ledger + [row];
  }

  lemma PostGrows(init: Db, db: Db, row: LedgerRow)
    requires Grown(init, db)
    requires row.before == Balance(db, row.user) && row.after == row.before + Delta(row.kind, row.amount) >= 0
    ensures Grown(init, Post(db, row))
  {
    PostChains(init, db, row);
    hide ChainsClose, Paid;
    forall r | r in db.redemptions[|init.redemptions|..] ensures Paid(r, Post(db, row).ledger) {
      PaidStays(r, db.ledger, row);
    }
  }

  lemma TakeAccounts(init: Db, db: Db, reward: nat, r: Redemption)
    requires StockAccounted(init, db) && reward in db.rewards && r.reward == reward
    ensures StockAccounted(init, Take(db, reward, r))
  {
    var since := db.redemptions[|init.redemptions|..];
    assert Take(db, reward, r).redemptions[|init.redemptions|..] == since + [r];
    assert (since + [r])[..|since|] == since;
  }

  lemma TakeKeepsHealthy(db: Db, reward: nat, r: Redemption)
    requires Healthy(db) && reward in db.rewards && db.rewards[reward].stock > 0
    requires FindKey(db.redemptions, r.key).None?
    ensures Healthy(Take(db, reward, r))
  {
    FindKeyMeaning(db.redemptions, r.key);
    hide FindKey;
  }

  lemma TakeIsPaid(init: Db, db: Db, reward: nat, r: Redemption)
    requires AllPaid(init, db) && reward in db.rewards && Paid(r, db.ledger)
    ensures AllPaid(init, Take(db, reward, r))
  {
    hide Paid;
    assert Take(db, reward, r).redemptions[|init.redemptions|..] == db.redemptions[|init.redemptions|..] + [r];
  }

  lemma TakeChains(init: Db, db: Db, reward: nat, r: Redemption)
    requires ChainsClose(init, db) && reward in db.rewards
    ensures ChainsClose(init, Take(db, reward, r))
  {
    hide Chain, UserRows;
  }

  lemma TakeGrows(init: Db, db: Db, reward: nat, r: Redemption)
    requires Grown(init, db)
    requires reward in db.rewards && db.rewards[reward].stock > 0
    requires FindKey(db.redemptions, r.key).None? && r.reward == reward && Paid(r, db.ledger)
    ensures Grown(init, Take(db, reward, r))
  {
    hide Healthy, StockAccounted, AllPaid, ChainsClose, FindKey, Paid;
    TakeKeepsHealthy(db, reward, r);
    TakeAccounts(init, db, reward, r);
    TakeIsPaid(init, db, reward, r);
    TakeChains(init, db, reward, r);
  }

  /** One call keeps everything `Grown` says, and a refused or replayed call changes nothing. */
  lemma ExecuteGrows(init: Db, db: Db, id: nat, call: Call)
    requires Grown(init, db)
    ensures Grown(init, Execute(db, id, call).0)
    ensures Execute(db, id, call).1.Refused? || Execute(db, id, call).1.Replayed? ==> Execute(db, id, call).0 == db
  {
    var (db', reply) := Execute(db, id, call);
    match reply
    case Recorded(row) =>
      PostGrows(init, db, row);
    case Fresh(r, row) =>
      PostGrows(init, db, row);
      assert row in Post(db, row).ledger;
      TakeGrows(init, Post(db, row), call.reward, r);
    case _ =>
  }

  /** Retrying a key that has been redeemed replays the stored redemption, whatever else has
      been asked for since. */
  lemma {:induction false} RetryReplays(db: Db, id: nat, call: Call, later: Db, retry: nat, call': Call)
    requires call.Redeem? && Execute(db, id, call).1.Fresh?
    requires Execute(db, id, call).0.redemptions <= later.redemptions
    requires call'.Redeem? && call'.key == call.key
    ensures Execute(later, retry, call') == (later, Replayed(Execute(db, id, call).1.redemption))
  {
    var r := Execute(db, id, call).1.redemption;
    var known := Execute(db, id, call).0.redemptions;
    assert known[..|known| - 1] == db.redemptions;
    FindKeyPrefix(known, later.redemptions, call.key);
  }

  lemma {:induction false} FindKeyPrefix(rows: seq<Redemption>, longer: seq<Redemption>, key: string)
    requires rows <= longer && FindKey(rows, key).Some?
    ensures FindKey(longer, key) == FindKey(rows, key)
    decreases |longer|
  {
    if |rows| < |longer| {
      FindKeyPrefix(rows, longer[..|longer| - 1], key);
    } else {
      assert rows == longer;
    }
  }

  /** One client's connection, working on the tables in place. */
  class Connection {
    var rewards: map<nat, Reward>
    var balances: map<nat, int>
    var ledger: seq<LedgerRow>
    var redemptions: seq<Redemption>

    ghost function Tables(): Db
      reads this
    {
      Db(rewards, balances, ledger, redemptions)
    }

    method Rollback(begun: Db)
      modifies this
      ensures Tables() == begun
    {
      rewards, balances, ledger, redemptions := begun.rewards, begun.balances, begun.ledger, begun.redemptions;
    }

    /** Creates the balance row if it is missing and reads it. */
    method LockBalance(user: nat) returns (before: int)
      modifies this`balances
      ensures before == Balance(old(Tables()), user)
      ensures balances == old(balances)[user := before]
    {
      if user !in balances {
        balances := balances[user := 0];
      }
      before := balances[user];
    }

    /** Inserts a ledger row; the table's trigger then copies its closing balance. */
    method InsertRow(row: LedgerRow) returns (refusal: Option<Refusal>)
      modifies this`ledger, this`balances
      ensures refusal == RowRefusal(row)
      ensures refusal.Some? ==> Tables() == old(Tables())
      ensures refusal.None? ==> Tables() == Post(old(Tables()), row)
    {
      refusal := RowRefusal(row);
      if refusal.None? {
        ledger := ledger + [row];
        balances := balances[row.user := row.after];
      }
    }

    /** The statements inside the `try`; a `Refused` reply stands for the thrown error, and
        leaves whatever was written so far. */
    method RedeemStatements(id: nat, user: nat, reward: nat, key: string) returns (reply: Reply)
      modifies this
      ensures reply == Execute(old(Tables()), id, Redeem(user, reward, key)).1
      ensures !reply.Refused? ==> Tables() == Execute(old(Tables()), id, Redeem(user, reward, key)).0
    {
      var existing := FindKey(redemptions, key);
      if existing.Some? {
        return Replayed(existing.value);
      }
      if reward !in rewards {
        return Refused(NotFound);
      }
      var chosen := rewards[reward];
      if RewardRefusal(chosen).Some? {
        return Refused(RewardRefusal(chosen).value);
      }
      var cost := PointCost(chosen);
      var before := LockBalance(user);
      if before < cost {
        return Refused(Insufficient);
      }
      rewards := rewards[reward := chosen.(stock := rewards[reward].stock - 1)];
      var row := LedgerRow(id, user, Redeemed, cost, before, before - cost);
      var refusal := InsertRow(row);
      if refusal.Some? {
        return Refused(refusal.value);
      }
      var redemption := Redemption(user, reward, cost, key, id);
      redemptions := redemptions + [redemption];
      assert balances == old(balances)[user := row.after];
      reply := Fresh(redemption, row);
    }

    method RedeemReward(id: nat, user: nat, reward: nat, key: string) returns (reply: Reply)
      modifies this
      ensures (Tables(), reply) == Execute(old(Tables()), id, Redeem(user, reward, key))
    {
      var begun := Db(rewards, balances, ledger, redemptions);
      reply := RedeemStatements(id, user, reward, key);
      if reply.Refused? {
        Rollback(begun);
      }
    }

    method RecordPointTransaction(id: nat, user: nat, kind: Kind, amount: int) returns (reply: Reply)
      modifies this
      ensures (Tables(), reply) == Execute(old(Tables()), id, Record(user, kind, amount))
    {
      if amount == 0 {
        return Refused(ZeroAmount);
      }
      var begun := Db(rewards, balances, ledger, redemptions);
      var before := LockBalance(user);
      var after := before + Delta(kind, amount);
      if after < 0 {
        Rollback(begun);
        return Refused(Insufficient);
      }
      var row := LedgerRow(id, user, kind, amount, before, after);
      var refusal := InsertRow(row);
      if refusal.Some? {
        Rollback(begun);
        return Refused(refusal.value);
      }
      assert balances == old(balances)[user := after];
      reply := Recorded(row);
    }
  }
}
