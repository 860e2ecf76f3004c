/** The treasury contract: withdrawals under a cap that is refreshed period by period. A call
    that panics or returns an error leaves the contract unchanged. */
module Treasury {
  import opened Prelude

  datatype Safe = Safe(cap: int, duration: nat, start: nat, withdrawn: int, total: int)

  datatype Failure = PeriodLimitExceeded | InsufficientBalance | Panic

  /** The token contract's part in a withdrawal: `held` is the treasury's balance there when the call
      is made, and `moved` says whether the transfer goes through. */
  datatype Call = Withdraw(amount: int, held: int, moved: bool) | SetCap(cap: int) | SetDuration(duration: nat)

  /** A call at ledger time `now`; `signed` says whether the admin authorized it. */
  datatype Tx = Tx(now: nat, signed: bool, call: Call)

  type Reply = Result<(), Failure>

  function Initialize(now: nat, cap: int, duration: nat): Safe { Safe(cap, duration, now, 0, 0) }

  /** The period a call at `now` falls in. */
  function Refreshed(s: Safe, now: nat): Safe {
    if now >= s.start + s.duration then s.(start := now, withdrawn := 0) else s
  }

  function Apply(s: Safe, tx: Tx): (Safe, Reply) {
    if !tx.signed then (s, Err(Panic)) else
      match tx.call
      case SetCap(cap) => if cap <= 0 then (s, Err(Panic)) else (s.(cap := cap), Ok(()))
      case SetDuration(duration) => if duration == 0 then (s, Err(Panic)) else (s.(duration := duration), Ok(()))
      case Withdraw(amount, held, moved) =>
        var r := Refreshed(s, tx.now);
        if amount <= 0 then (s, Err(Panic))
        else if held < amount then (s, Err(InsufficientBalance))
        else if s.start + s.duration > U64_MAX || r.withdrawn + amount > I128_MAX then (s, Err(Panic))
        else if r.withdrawn + amount > s.cap then (s, Err(PeriodLimitExceeded))
        else if s.total + amount > I128_MAX || !moved then (s, Err(Panic))
        else (r.(withdrawn := r.withdrawn + amount, total := r.total + amount), Ok(()))
  }

  function Run(s: Safe, txs: seq<Tx>): Safe {
    if txs == [] then s else Apply(Run(s, txs[..|txs| - 1]), txs[|txs| - 1]).0
  }

  /** What one call pays out. */
  function Paid(s: Safe, tx: Tx): int {
    if tx.call.Withdraw? && Apply(s, tx).1.Ok? then tx.call.amount else 0
  }

  /** What a run pays out at times from `a` up to, not including, `b`. */
  function PaidBetween(s: Safe, txs: seq<Tx>, a: int, b: int): int {
    if txs == [] then 0 else
      var front, last := txs[..|txs| - 1], txs[|txs| - 1];
      PaidBetween(s, front, a, b) + if a <= last.now < b then Paid(Run(s, front), last) else 0
  }

  predicate Ordered(s: Safe, txs: seq<Tx>) {
    && (forall i :: 0 <= i < |txs| ==> s.start <= txs[i].now)
    && (forall i, j :: 0 <= i < j < |txs| ==> txs[i].now <= txs[j].now)
  }

  /** The admin never sets a cap above `cap`, nor a period outside `shortest..longest`. */
  predicate Bounded(s: Safe, txs: seq<Tx>, cap: int, shortest: nat, longest: nat) {
    && 0 < shortest <= s.duration <= longest && 0 < s.cap <= cap
    && forall i :: 0 <= i < |txs| ==>
         match txs[i].call
         case Withdraw(_, _, _) => true
         case SetCap(c) => c <= cap
         case SetDuration(d) => d == 0 || shortest <= d <= longest
  }

  /** A run keeps its settings in bounds and its current period's spending under the cap. */
  lemma {:induction false} RunStaysBounded(s: Safe, txs: seq<Tx>, cap: int, shortest: nat, longest: nat)
    requires Ordered(s, txs) && Bounded(s, txs, cap, shortest, longest) && 0 <= s.withdrawn <= cap
    ensures var s' := Run(s, txs);
            && shortest <= s'.duration <= longest && 0 < s'.cap <= cap && 0 <= s'.withdrawn <= cap
            && s.start <= s'.start && (txs != [] ==> s'.start <= Max(s.start, txs[|txs| - 1].now))
  {
    if txs != [] {
      RunStaysBounded(s, txs[..|txs| - 1], cap, shortest, longest);
    }
  }

  /** A paying call either spends more of the current period or opens a new one at its own time;
      any other call leaves the period and its spending alone. */
  lemma PaidMoves(s: Safe, tx: Tx)
    ensures var s' := Apply(s, tx).0;
            && Paid(s, tx) >= 0
            && (Paid(s, tx) == 0 ==> s'.start == s.start && s'.withdrawn == s.withdrawn)
            && (Paid(s, tx) > 0 ==>
                  if tx.now < s.start + s.duration
                  then s'.start == s.start && s'.withdrawn == s.withdrawn + Paid(s, tx)
                  else s'.start == tx.now && s'.withdrawn == Paid(s, tx))
  {
  }

  /** `paid` is at most `k` caps and what the current period has spent, and `k` shortest periods
      have gone by between `anchor` and the current period's start. */
  predicate Tallies(k: nat, cap: int, shortest: nat, anchor: int, s: Safe, paid: int) {
    paid == 0 || (anchor + k * shortest <= s.start && paid <= k * cap + s.withdrawn)
  }

  lemma TalliesOnward(k: nat, cap: int, shortest: nat, anchor: int, s: Safe, s': Safe, paid: int, amount: int)
    requires Tallies(k, cap, shortest, anchor, s, paid) && amount > 0
    ensures paid == 0 && anchor <= s'.start && s'.withdrawn >= amount ==>
              Tallies(0, cap, shortest, anchor, s', paid + amount)
    ensures paid != 0 && s'.start == s.start && s'.withdrawn == s.withdrawn + amount ==>
              Tallies(k, cap, shortest, anchor, s', paid + amount)
    ensures paid != 0 && s'.start >= s.start + shortest && s.withdrawn <= cap && s'.withdrawn == amount ==>
              Tallies(k + 1, cap, shortest, anchor, s', paid + amount)
  {
    assert (k + 1) * shortest == k * shortest + shortest && (k + 1) * cap == k * cap + cap;
  }

  lemma TalliesStay(k: nat, cap: int, shortest: nat, anchor: int, s: Safe, s': Safe, paid: int)
    requires paid == 0 || (Tallies(k, cap, shortest, anchor, s, paid) && s'.start == s.start && s'.withdrawn == s.withdrawn)
    ensures Tallies(k, cap, shortest, anchor, s', paid)
  {
  }

  lemma {:induction false} NothingBefore(s: Safe, txs: seq<Tx>, a: int, b: int)
    requires forall i :: 0 <= i < |txs| ==> txs[i].now < a
    ensures PaidBetween(s, txs, a, b) == 0
  {
    if txs != [] {
      NothingBefore(s, txs[..|txs| - 1], a, b);
    }
  }

  /** While a window is open, what has been paid in it since some anchor is tallied by periods. */
  lemma {:induction false} OpenWindow(s: Safe, txs: seq<Tx>, cap: int, shortest: nat, longest: nat, a: int, b: int, anchor: int)
    returns (k: nat)
    requires Ordered(s, txs) && Bounded(s, txs, cap, shortest, longest) && s.withdrawn == 0
    requires txs != [] ==> txs[|txs| - 1].now < b
    requires anchor <= s.start || anchor <= a - longest + 1
    ensures Tallies(k, cap, shortest, anchor, Run(s, txs), PaidBetween(s, txs, a, b))
  {
    hide Tallies;
    k := 0;
    if txs == [] {
      TalliesStay(0, cap, shortest, anchor, s, s, 0);
    } else {
      var front, last := txs[..|txs| - 1], txs[|txs| - 1];
      var before := Run(s, front);
      k := OpenWindow(s, front, cap, shortest, longest, a, b, anchor);
      RunStaysBounded(s, front, cap, shortest, longest);
      PaidMoves(before, last);
      assert forall i :: 0 <= i < |front| ==> front[i].now <= last.now;
      hide Apply, Paid, Ordered, Bounded;
      var paid := PaidBetween(s, front, a, b);
      if a <= last.now && Paid(before, last) > 0 {
        TalliesOnward(k, cap, shortest, anchor, before, Run(s, txs), paid, Paid(before, last));
        k := if paid == 0 then 0 else if last.now >= before.start + before.duration then k + 1 else k;
      } else {
        if last.now < a {
          NothingBefore(s, front, a, b);
        }
        TalliesStay(k, cap, shortest, anchor, before, Run(s, txs), paid);
      }
    }
  }

  /** From tallied periods to a bound in whole caps. */
  lemma TalliesBound(k: nat, cap: int, shortest: nat, anchor: int, s: Safe, paid: int, latest: int)
    requires Tallies(k, cap, shortest, anchor, s, paid) && shortest > 0 && 0 <= s.withdrawn <= cap
    requires anchor <= latest && (paid != 0 ==> s.start <= latest)
    ensures paid <= ((latest - anchor) / shortest + 1) * cap
  {
    var q := (latest - anchor) / shortest;
    DivAtLeast(latest - anchor, shortest, 0);
    MulMono(cap, 0, q + 1);
    if paid != 0 {
      assert k * shortest == shortest * k;
      DivAtLeast(latest - anchor, shortest, k);
      MulMono(cap, k + 1, q + 1);
    }
  }

  /** Over every run, with the cap and the period length moved freely within their bounds, the
      amount paid in any window of `b - a` seconds is at most this many caps. */
  lemma {:induction false} WindowBound(s: Safe, txs: seq<Tx>, cap: int, shortest: nat, longest: nat, a: int, b: int)
    requires Ordered(s, txs) && Bounded(s, txs, cap, shortest, longest) && s.withdrawn == 0
    requires a < b
    ensures PaidBetween(s, txs, a, b) <= ((b - a + longest - 2) / shortest + 1) * cap
  {
    if txs == [] {
      DivAtLeast(b - a + longest - 2, shortest, 0);
      MulMono(cap, 0, (b - a + longest - 2) / shortest + 1);
    } else if txs[|txs| - 1].now >= b {
      WindowBound(s, txs[..|txs| - 1], cap, shortest, longest, a, b);
    } else {
      var anchor := a - longest + 1;
      var k := OpenWindow(s, txs, cap, shortest, longest, a, b, anchor);
      RunStaysBounded(s, txs, cap, shortest, longest);
      if PaidBetween(s, txs, a, b) != 0 {
        PaidAfterStart(s, txs, a, b);
      }
      assert b - 1 - anchor == b - a + longest - 2;
      TalliesBound(k, cap, shortest, anchor, Run(s, txs), PaidBetween(s, txs, a, b), b - 1);
    }
  }

  lemma {:induction false} PaidAfterStart(s: Safe, txs: seq<Tx>, a: int, b: int)
    requires Ordered(s, txs) && PaidBetween(s, txs, a, b) != 0
    ensures s.start < b && txs != []
  {
    if txs != [] && PaidBetween(s, txs[..|txs| - 1], a, b) != 0 {
      PaidAfterStart(s, txs[..|txs| - 1], a, b);
    }
  }

  lemma CapsInWindow(cap: int, d: nat, length: nat)
    requires d > 0 && cap >= 0
    ensures ((length + d - 2) / d + 1) * cap <= ((length + d - 1) / d + 1) * cap
    ensures length == d ==> ((length + d - 2) / d + 1) * cap <= 2 * cap
  {
    DivMono(length + d - 2, length + d - 1, d);
    var p, q := (length + d - 2) / d, (length + d - 1) / d;
    MulMono(cap, p + 1, q + 1);
    if length == d {
      DivAtMost(length + d - 2, d, 1);
      MulMono(cap, p + 1, 2);
    }
  }

  /** With cap and period fixed: at most `ceil(L / D) + 1` caps in any `L` seconds, hence two caps in
      any period's length. */
  lemma {:induction false} FixedSettingsBound(s: Safe, txs: seq<Tx>, a: int, length: nat)
    requires Ordered(s, txs) && Bounded(s, txs, s.cap, s.duration, s.duration) && s.withdrawn == 0 && length > 0
    ensures PaidBetween(s, txs, a, a + length) <= ((length + s.duration - 1) / s.duration + 1) * s.cap
    ensures length == s.duration ==> PaidBetween(s, txs, a, a + length) <= 2 * s.cap
  {
    WindowBound(s, txs, s.cap, s.duration, s.duration, a, a + length);
    CapsInWindow(s.cap, s.duration, length);
  }

  /** `TotalReleased` is what the run has paid, and grows by at most one cap for every period
      begun since the contract was set up. */
  lemma {:induction false} TotalBound(s: Safe, txs: seq<Tx>, cap: int, shortest: nat, longest: nat, now: nat)
    requires Ordered(s, txs) && Bounded(s, txs, cap, shortest, longest) && s.withdrawn == 0 && s.total == 0
    requires s.start <= now && (txs != [] ==> txs[|txs| - 1].now <= now)
    ensures Run(s, txs).total == PaidBetween(s, txs, s.start, now + 1) <= ((now - s.start) / shortest + 1) * cap
  {
    TotalIsPaid(s, txs, now + 1);
    var k := OpenWindow(s, txs, cap, shortest, longest, s.start, now + 1, s.start);
    RunStaysBounded(s, txs, cap, shortest, longest);
    TalliesBound(k, cap, shortest, s.start, Run(s, txs), PaidBetween(s, txs, s.start, now + 1), now);
  }

  lemma {:induction false} TotalIsPaid(s: Safe, txs: seq<Tx>, b: int)
    requires Ordered(s, txs) && (txs != [] ==> txs[|txs| - 1].now < b)
    ensures Run(s, txs).total == s.total + PaidBetween(s, txs, s.start, b)
  {
    if txs != [] {
      TotalIsPaid(s, txs[..|txs| - 1], b);
    }
  }

  // ----- the bound is met -----

  /** A full cap just before the first rollover, then one at each of the next `n` rollovers. */
  function Densest(cap: int, duration: nat, n: nat): seq<Tx>
    requires duration > 0
  {
    if n == 0 then [Tx(duration - 1, true, Withdraw(cap, cap, true))]
    else Densest(cap, duration, n - 1) + [Tx(n * duration, true, Withdraw(cap, cap, true))]
  }

  lemma {:induction false} DensestShape(cap: int, duration: nat, n: nat)
    requires cap > 0 && duration > 0
    ensures var s, txs := Initialize(0, cap, duration), Densest(cap, duration, n);
            && |txs| == n + 1 && txs[n] == Tx(if n == 0 then duration - 1 else n * duration, true, Withdraw(cap, cap, true))
            && (n > 0 ==> txs[..n] == Densest(cap, duration, n - 1))
            && Ordered(s, txs) && Bounded(s, txs, cap, duration, duration)
  {
    if n > 0 {
      DensestShape(cap, duration, n - 1);
      assert n * duration == (n - 1) * duration + duration;
      MulMono(duration, 0, n - 1);
      assert Densest(cap, duration, n)[..n] == Densest(cap, duration, n - 1);
    }
  }

  lemma {:induction false} DensestRun(cap: int, duration: nat, n: nat, b: int)
    requires cap > 0 && duration > 0 && n * duration < b && duration - 1 < b
    requires n * duration + duration <= U64_MAX && (n + 1) * cap <= I128_MAX
    ensures var s, txs := Initialize(0, cap, duration), Densest(cap, duration, n);
            && Run(s, txs) == Safe(cap, duration, n * duration, cap, (n + 1) * cap)
            && PaidBetween(s, txs, duration - 1, b) == (n + 1) * cap
  {
    DensestShape(cap, duration, n);
    hide Ordered, Bounded;
    if n == 0 {
      FirstPeriodPays(cap, duration, b);
    } else {
      RoundAgain(cap, n);
      RoundAgain(duration, n - 1);
      DensestRun(cap, duration, n - 1, b);
      OneMoreCap(Initialize(0, cap, duration), Densest(cap, duration, n), duration - 1, b);
    }
  }

  lemma {:induction false} RoundAgain(c: int, n: nat)
    requires c >= 0
    ensures (n + 1) * c == n * c + c >= c
  {
    MulMono(c, 0, n);
  }

  lemma FirstPeriodPays(cap: int, duration: nat, b: int)
    requires 0 < cap <= I128_MAX && 0 < duration <= U64_MAX && duration - 1 < b
    ensures var s, txs := Initialize(0, cap, duration), [Tx(duration - 1, true, Withdraw(cap, cap, true))];
            Run(s, txs) == Safe(cap, duration, 0, cap, cap) && PaidBetween(s, txs, duration - 1, b) == cap
  {
    var txs := [Tx(duration - 1, true, Withdraw(cap, cap, true))];
    assert txs[..0] == [] && txs[0].now == duration - 1;
  }

  /** A run whose last call withdraws a full cap just as the next period begins. */
  lemma OneMoreCap(s: Safe, txs: seq<Tx>, a: int, b: int)
    requires txs != []
    requires var before, last := Run(s, txs[..|txs| - 1]), txs[|txs| - 1];
             && last.signed && last.call == Withdraw(before.cap, before.cap, true) && 0 < before.cap
             && last.now == before.start + before.duration <= U64_MAX && a <= last.now < b
             && 0 <= before.total && before.total + before.cap <= I128_MAX
    ensures var before := Run(s, txs[..|txs| - 1]);
            && Run(s, txs) == Safe(before.cap, before.duration, txs[|txs| - 1].now, before.cap, before.total + before.cap)
            && PaidBetween(s, txs, a, b) == PaidBetween(s, txs[..|txs| - 1], a, b) + before.cap
  {
    FreshPeriodPays(Run(s, txs[..|txs| - 1]), txs[|txs| - 1]);
    hide Apply, Paid;
  }

  lemma FreshPeriodPays(s: Safe, tx: Tx)
    requires tx.signed && tx.call == Withdraw(s.cap, s.cap, true) && 0 < s.cap
    requires tx.now == s.start + s.duration <= U64_MAX && 0 <= s.total && s.total + s.cap <= I128_MAX
    ensures Apply(s, tx) == (Safe(s.cap, s.duration, tx.now, s.cap, s.total + s.cap), Ok(()))
    ensures Paid(s, tx) == s.cap
  {
  }

  /** The window bound cannot be improved: for every cap, period and window length this run of
      the contract reaches it. */
  lemma {:induction false} WindowBoundIsTight(cap: int, duration: nat, length: nat, n: nat)
    requires cap > 0 && duration > 0 && length > 0 && n == (length + duration - 2) / duration
    requires length + 2 * duration <= U64_MAX && (n + 1) * cap <= I128_MAX
    ensures var s, txs := Initialize(0, cap, duration), Densest(cap, duration, n);
            && Ordered(s, txs) && Bounded(s, txs, cap, duration, duration)
            && PaidBetween(s, txs, duration - 1, duration - 1 + length) == ((length + duration - 2) / duration + 1) * cap
  {
    DivBounds(length + duration - 2, duration);
    assert n * duration == duration * n;
    DensestShape(cap, duration, n);
    DensestRun(cap, duration, n, duration - 1 + length);
  }

  // ----- what each call does -----

  /** A withdrawal is paid exactly if the admin signed it, the token contract can and does move the
      amount, and what the period in force at `now` has spent leaves room for it under the cap;
      it is counted in that period, which begins now if the previous one is over. */
  lemma WithdrawEffect(s: Safe, now: nat, signed: bool, amount: int, held: int, moved: bool)
    requires 0 <= s.withdrawn && s.cap <= I128_MAX && s.start + s.duration <= U64_MAX
    ensures var (s', reply) := Apply(s, Tx(now, signed, Withdraw(amount, held, moved)));
            var over := s.start + s.duration <= now;
            var spent := if over then 0 else s.withdrawn;
            && (reply.Ok? <==>
                && signed && moved && 0 < amount <= held && spent + amount <= s.cap
                && s.total + amount <= 0x7FFF_FFFF_FFFF_FFFF_FFFF_FFFF_FFFF_FFFF)
            && s' == (if reply.Ok? then Safe(s.cap, s.duration, if over then now else s.start, spent + amount, s.total + amount) else s)
            && (reply == Err(InsufficientBalance) <==> signed && 0 < amount && held < amount)
            && (reply == Err(PeriodLimitExceeded) <==> signed && 0 < amount <= held && s.cap < spent + amount <= I128_MAX)
  {
  }

  /** A new cap or period is in force from the next call on, and nothing else changes. */
  lemma SettingsEffect(s: Safe, now: nat, signed: bool, cap: int, duration: nat)
    ensures Apply(s, Tx(now, signed, SetCap(cap))) ==
            if signed && cap > 0 then (Safe(cap, s.duration, s.start, s.withdrawn, s.total), Ok(())) else (s, Err(Panic))
    ensures Apply(s, Tx(now, signed, SetDuration(duration))) ==
            if signed && duration > 0 then (Safe(s.cap, duration, s.start, s.withdrawn, s.total), Ok(())) else (s, Err(Panic))
  {
  }

  /** Once the cap has been lowered, every later withdrawal, until it is set again, keeps its period's
      spending within the new cap, whatever had been spent before. */
  lemma {:induction false} LoweredCapBinds(s: Safe, txs: seq<Tx>, tx: Tx)
    requires Ordered(s, txs) && 0 < s.cap <= I128_MAX && 0 <= s.withdrawn
    requires forall i :: 0 <= i < |txs| ==> !txs[i].call.SetCap?
    requires tx.call.Withdraw?
    ensures var before := Run(s, txs);
            && before.cap == s.cap && 0 <= before.withdrawn <= Max(s.withdrawn, s.cap)
            && (Apply(before, tx).1.Ok? ==> tx.call.amount <= Apply(before, tx).0.withdrawn <= s.cap)
  {
    if txs != [] {
      LoweredCapBinds(s, txs[..|txs| - 1], if txs[|txs| - 1].call.Withdraw? then txs[|txs| - 1] else tx);
    }
  }

  // ----- changing the period -----

  /** The period that `s` is in is over at `now`, were it `duration` long. */
  predicate Over(s: Safe, duration: nat, now: nat) { s.start + duration <= now }

  /** Nothing but what is left of the current period could stop this withdrawal. */
  predicate Payable(s: Safe, tx: Tx) {
    && tx.signed && tx.call.Withdraw? && tx.call.moved
    && 0 < tx.call.amount <= Min(tx.call.held, s.cap) && s.total + tx.call.amount <= I128_MAX
  }

  /** The call fares the same under either length: both have gone by, or neither, or no length would
      let it withdraw. */
  predicate Alike(s: Safe, duration: nat, tx: Tx) {
    !Payable(s, tx) || (Over(s, s.duration, tx.now) <==> Over(s, duration, tx.now))
  }

  /** A change of period is documented to leave the current one alone. For a withdrawal it does
      exactly if that fares the same under the old and the new length. Whether it is paid stays the
      same exactly then, or if what is left of the current period would do. */
  lemma {:induction false} NewDurationActsAtOnce(s: Safe, at: nat, duration: nat, tx: Tx)
    requires 0 < duration && 0 < s.duration && s.cap <= I128_MAX && s.withdrawn >= 0
    requires s.start + s.duration <= U64_MAX && s.start + duration <= U64_MAX
    requires tx.call.Withdraw?
    ensures var changed := Apply(s, Tx(at, true, SetDuration(duration))).0;
            && (Apply(changed, tx).0 == Apply(s, tx).0.(duration := duration) <==> Alike(s, duration, tx))
            && ((Apply(changed, tx).1.Ok? <==> Apply(s, tx).1.Ok?) <==>
                Alike(s, duration, tx) || tx.call.amount <= s.cap - s.withdrawn)
  {
  }

  /** After every call of the run, the changed treasury differs in its period's length alone. */
  predicate InTandem(s: Safe, txs: seq<Tx>, duration: nat) {
    && Run(s.(duration := duration), txs) == Run(s, txs).(duration := duration)
    && (txs != [] ==> InTandem(s, txs[..|txs| - 1], duration))
  }

  predicate AllAlike(s: Safe, txs: seq<Tx>, duration: nat) {
    txs != [] ==>
      var front, last := txs[..|txs| - 1], txs[|txs| - 1];
      AllAlike(s, front, duration) && Alike(Run(s, front), duration, last)
  }

  /** A run without further changes of period, in which no period's end exceeds `u64`. */
  predicate OneChange(s: Safe, txs: seq<Tx>, duration: nat) {
    && Ordered(s, txs) && Bounded(s, txs, I128_MAX, s.duration, s.duration)
    && 0 <= s.withdrawn <= I128_MAX && 0 < duration && s.start + Max(duration, s.duration) <= U64_MAX
    && forall i :: 0 <= i < |txs| ==> !txs[i].call.SetDuration? && txs[i].now + Max(duration, s.duration) <= U64_MAX
  }

  lemma OneChangeSoFar(s: Safe, txs: seq<Tx>, duration: nat)
    requires OneChange(s, txs, duration) && txs != []
    ensures var front, last := txs[..|txs| - 1], txs[|txs| - 1];
            && OneChange(s, front, duration) && !last.call.SetDuration?
            && var before := Run(s, front);
               && 0 < duration && 0 < before.duration && before.cap <= I128_MAX && before.withdrawn >= 0
               && before.start + before.duration <= U64_MAX && before.start + duration <= U64_MAX
  {
    RunStaysBounded(s, txs[..|txs| - 1], I128_MAX, s.duration, s.duration);
    hide Run;
  }

  /** So a change goes unnoticed for a whole run exactly if no withdrawal comes at a time when one
      of the two lengths has gone by and the other has not. */
  lemma {:induction false} ChangeGoesUnnoticed(s: Safe, txs: seq<Tx>, duration: nat)
    requires OneChange(s, txs, duration)
    ensures InTandem(s, txs, duration) <==> AllAlike(s, txs, duration)
  {
    hide OneChange, Alike, Apply;
    if txs != [] {
      OneChangeSoFar(s, txs, duration);
      ChangeGoesUnnoticed(s, txs[..|txs| - 1], duration);
      StepsAlike(Run(s, txs[..|txs| - 1]), duration, txs[|txs| - 1]);
    }
  }

  lemma StepsAlike(s: Safe, duration: nat, tx: Tx)
    requires 0 < duration && 0 < s.duration && s.cap <= I128_MAX && s.withdrawn >= 0
    requires s.start + s.duration <= U64_MAX && s.start + duration <= U64_MAX && !tx.call.SetDuration?
    ensures Apply(s.(duration := duration), tx).0 == Apply(s, tx).0.(duration := duration) <==> Alike(s, duration, tx)
  {
    if tx.call.Withdraw? {
      NewDurationActsAtOnce(s, 0, duration, tx);
    }
  }

  /** A period whose end does not fit `u64` stops every withdrawal at once; any other lets one
      through no later than when it is over. */
  lemma OversizedPeriodLocks(s: Safe, at: nat, duration: nat, tx: Tx)
    requires 0 < duration && 0 < s.cap && s.total < I128_MAX && tx.call.Withdraw?
    ensures var changed := Apply(s, Tx(at, true, SetDuration(duration))).0;
            if s.start + duration > U64_MAX then Apply(changed, tx).1.Err?
            else Apply(changed, Tx(s.start + duration, true, Withdraw(1, 1, true))).1.Ok?
  {
  }

  /** Both ways the promise fails: half-way through a spent period of 100 seconds, a change to 10
      seconds frees a second full cap at once; and a change to 1000 seconds at the end of it keeps
      the next cap back. */
  lemma DurationPromiseFails()
    ensures var s := Safe(100, 100, 0, 100, 100);
            && Apply(s, Tx(50, true, Withdraw(100, 500, true))).1 == Err(PeriodLimitExceeded)
            && Apply(Apply(s, Tx(50, true, SetDuration(10))).0, Tx(50, true, Withdraw(100, 500, true))).1.Ok?
            && Apply(s, Tx(100, true, Withdraw(100, 500, true))).1.Ok?
            && Apply(Apply(s, Tx(99, true, SetDuration(1000))).0, Tx(100, true, Withdraw(100, 500, true))).1 == Err(PeriodLimitExceeded)
  {
  }

  // ----- the contract in place -----

  class TreasuryContract {
    var periodCap: int
    var periodDuration: nat
    var periodStart: nat
    var withdrawnThisPeriod: int
    var totalReleased: int

    ghost function State(): Safe
      reads this
    {
      Safe(periodCap, periodDuration, periodStart, withdrawnThisPeriod, totalReleased)
    }

    constructor (now: nat, cap: int, duration: nat)
      requires cap > 0 && duration > 0
      ensures State() == Initialize(now, cap, duration)
    {
      periodCap, periodDuration, periodStart := cap, duration, now;
      withdrawnThisPeriod, totalReleased := 0, 0;
    }

    /** Rolls the window forward if it has elapsed; `None` where the `u64` sum would trap. */
    method RefreshPeriod(now: nat) returns (withdrawn: Option<int>)
      modifies this`periodStart, this`withdrawnThisPeriod
      ensures withdrawn.None? <==> old(periodStart) + periodDuration > U64_MAX
      ensures withdrawn.Some? ==> State() == Refreshed(old(State()), now) && withdrawn.value == withdrawnThisPeriod
      ensures withdrawn.None? ==> State() == old(State())
    {
      if periodStart + periodDuration > U64_MAX {
        return None;
      }
      if now >= periodStart + periodDuration {
        periodStart := now;
        withdrawnThisPeriod := 0;
      }
      withdrawn := Some(withdrawnThisPeriod);
    }

    method WithdrawTokens(now: nat, signed: bool, amount: int, held: int, moved: bool) returns (reply: Reply)
      modifies this`periodStart, this`withdrawnThisPeriod, this`totalReleased
      ensures (State(), reply) == Apply(old(State()), Tx(now, signed, Withdraw(amount, held, moved)))
    {
      var begun := (periodStart, withdrawnThisPeriod, totalReleased);
      if !signed || amount <= 0 {
        return Err(Panic);
      }
      if held < amount {
        return Err(InsufficientBalance);
      }
      var withdrawn := RefreshPeriod(now);
      if withdrawn.None? || withdrawn.value + amount > I128_MAX {
        reply := Err(Panic);
      } else if withdrawn.value + amount > periodCap {
        reply := Err(PeriodLimitExceeded);
      } else if totalReleased + amount > I128_MAX {
        reply := Err(Panic);
      } else {
        withdrawnThisPeriod := withdrawn.value + amount;
        totalReleased := totalReleased + amount;
        reply := if moved then Ok(()) else Err(Panic);
      }
      if reply.Err? {
        periodStart, withdrawnThisPeriod, totalReleased := begun.0, begun.1, begun.2;
      }
    }

    method SetPeriodCap(now: nat, signed: bool, cap: int) returns (reply: Reply)
      modifies this`periodCap
      ensures (State(), reply) == Apply(old(State()), Tx(now, signed, SetCap(cap)))
    {
      if !signed || cap <= 0 {
        return Err(Panic);
      }
      periodCap := cap;
      reply := Ok(());
    }

    method SetPeriodDuration(now: nat, signed: bool, duration: nat) returns (reply: Reply)
      modifies this`periodDuration
      ensures (State(), reply) == Apply(old(State()), Tx(now, signed, SetDuration(duration)))
    {
      if !signed || duration == 0 {
        return Err(Panic);
      }
      periodDuration := duration;
      reply := Ok(());
    }
  }
}
