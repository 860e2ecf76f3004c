/** The governance contract over the Nova token: once-only token-weighted votes, a quorum, and a
    one-way lifecycle. Token calls run alongside; a call that panics changes nothing. */
module Governance {
  import opened Prelude
  import T = NovaToken

  const VOTING_PERIOD := 120_960
  const BPS := 10_000

  datatype Status = Active | Passed | Rejected | Executed

  datatype Proposal = Proposal(proposer: Address, yes: int, no: int, endLedger: nat, status: Status)

  datatype Quorum = Absolute(amount: int) | Percent(bps: nat)

  /** `voted` holds the (proposal, voter) pairs whose `HasVoted` entry is set. */
  datatype Gov = Gov(admin: Address, count: nat, proposals: map<nat, Proposal>,
                     voted: set<(nat, Address)>, quorum: Quorum)

  datatype World = World(token: T.Token, gov: Gov)

  datatype Call =
    | Propose(proposer: Address)
    | Vote(voter: Address, id: nat, support: bool)
    | Finalise(id: nat)
    | Execute(id: nat)
    | SetQuorum(quorum: Quorum)
    | OnToken(call: T.Call)

  datatype Tx = Tx(sequence: nat, signed: set<Address>, call: Call)

  predicate ValidQuorum(q: Quorum) {
    match q
    case Absolute(amount) => amount > 0
    case Percent(bps) => 0 < bps <= BPS
  }

  /** The yes votes required now. A saturated product leaves no room for the rounding term, so it
      traps. */
  function QuorumVotes(q: Quorum, supply: int): Option<int> {
    match q
    case Absolute(amount) => Some(amount)
    case Percent(bps) =>
      var numerator := SaturatingI128(supply * bps) + (BPS - 1);
      if numerator > I128_MAX then None else Some(numerator / BPS)
  }

  function Tallied(p: Proposal, support: bool, weight: int): Proposal {
    if support then p.(yes := SaturatingI128(p.yes + weight)) else p.(no := SaturatingI128(p.no + weight))
  }

  /** A governance call, against the token as it stands; `None` is a panic. */
  function ApplyGov(g: Gov, token: T.Token, tx: Tx): Option<Gov>
    requires !tx.call.OnToken?
  {
    match tx.call
    case Propose(proposer) =>
      var id := g.count + 1;
      if proposer !in tx.signed || id > U32_MAX || tx.sequence + VOTING_PERIOD > U32_MAX then None
      else Some(g.(proposals := g.proposals[id := Proposal(proposer, 0, 0, tx.sequence + VOTING_PERIOD, Active)], count := id))
    case Vote(voter, id, support) =>
      if voter !in tx.signed || (id, voter) in g.voted || id !in g.proposals then None
      else if g.proposals[id].status != Active || tx.sequence > g.proposals[id].endLedger then None
      else
        var p := Tallied(g.proposals[id], support, T.BalanceOf(token, voter));
        Some(g.(proposals := g.proposals[id := p], voted := g.voted + {(id, voter)}))
    case Finalise(id) =>
      if id !in g.proposals || g.proposals[id].status != Active || tx.sequence <= g.proposals[id].endLedger then None
      else
        var p := g.proposals[id];
        var needed := QuorumVotes(g.quorum, token.supply);
        if needed.None? then None
        else
          var passed := p.yes >= needed.value && p.yes > p.no;
          Some(g.(proposals := g.proposals[id := p.(status := if passed then Passed else Rejected)]))
    case Execute(id) =>
      if g.admin !in tx.signed || id !in g.proposals || g.proposals[id].status != Passed then None
      else Some(g.(proposals := g.proposals[id := g.proposals[id].(status := Executed)]))
    case SetQuorum(quorum) =>
      if g.admin !in tx.signed || !ValidQuorum(quorum) then None else Some(g.(quorum := quorum))
  }

  function Apply(w: World, tx: Tx): Option<World> {
    if tx.call.OnToken? then
      var token := T.Apply(w.token, T.Tx(tx.sequence, tx.signed, tx.call.call));
      if token.None? then None else Some(w.(token := token.value))
    else
      var gov := ApplyGov(w.gov, w.token, tx);
      if gov.None? then None else Some(w.(gov := gov.value))
  }

  function Step(w: World, tx: Tx): World { Apply(w, tx).GetOr(w) }

  function Run(w: World, txs: seq<Tx>): World {
    if txs == [] then w else Step(Run(w, txs[..|txs| - 1]), txs[|txs| - 1])
  }

  predicate BalancesNonNegative(t: T.Token) {
    forall a :: a in t.balances ==> t.balances[a] >= 0
  }

  /** No proposal yet, and no negative balance. */
  predicate Fresh(w: World) {
    w.gov.count == 0 && w.gov.proposals == map[] && w.gov.voted == {} && BalancesNonNegative(w.token)
  }

  predicate Sound(w: World) {
    && BalancesNonNegative(w.token)
    && (forall id :: id in w.gov.proposals ==> id <= w.gov.count)
    && (forall v :: v in w.gov.voted ==> v.0 in w.gov.proposals)
  }

  lemma TokenStaysNonNegative(t: T.Token, tx: T.Tx)
    requires BalancesNonNegative(t)
    ensures BalancesNonNegative(T.Step(t, tx))
  {
  }

  lemma StepKeepsSound(w: World, tx: Tx)
    requires Sound(w)
    ensures Sound(Step(w, tx))
  {
    if tx.call.OnToken? {
      TokenStaysNonNegative(w.token, T.Tx(tx.sequence, tx.signed, tx.call.call));
    }
  }

  lemma {:induction false} RunKeepsSound(w: World, txs: seq<Tx>)
    requires Sound(w)
    ensures Sound(Run(w, txs))
  {
    hide Step, Sound;
    if txs != [] {
      RunKeepsSound(w, txs[..|txs| - 1]);
      StepKeepsSound(Run(w, txs[..|txs| - 1]), txs[|txs| - 1]);
    }
  }

  // ----- tallies -----

  /** One accepted vote, with the voter's balance at that moment. */
  datatype Ballot = Ballot(voter: Address, support: bool, weight: int)

  predicate Votes(w: World, tx: Tx, id: nat) {
    tx.call.Vote? && tx.call.id == id && Apply(w, tx).Some?
  }

  function Cast(w: World, tx: Tx): Ballot
    requires tx.call.Vote?
  {
    Ballot(tx.call.voter, tx.call.support, T.BalanceOf(w.token, tx.call.voter))
  }

  /** The votes a run accepted on proposal `id`, in order. */
  function Ballots(w: World, txs: seq<Tx>, id: nat): seq<Ballot> {
    if txs == [] then [] else
      var front, last := txs[..|txs| - 1], txs[|txs| - 1];
      if Votes(Run(w, front), last, id) then Ballots(w, front, id) + [Cast(Run(w, front), last)] else Ballots(w, front, id)
  }

  function Weight(ballots: seq<Ballot>, support: bool): int {
    if ballots == [] then 0 else
      var last := ballots[|ballots| - 1];
      Weight(ballots[..|ballots| - 1], support) + if last.support == support then last.weight else 0
  }

  /** Proposal `id` shows exactly these ballots, one per voter. */
  predicate Shows(g: Gov, id: nat, ballots: seq<Ballot>) {
    && (id in g.proposals ==>
          && g.proposals[id].yes == Min(I128_MAX, Weight(ballots, true))
          && g.proposals[id].no == Min(I128_MAX, Weight(ballots, false)))
    && (id !in g.proposals ==> ballots == [])
    && (forall i, j :: 0 <= i < j < |ballots| ==> ballots[i].voter != ballots[j].voter)
    && (forall i :: 0 <= i < |ballots| ==> (id, ballots[i].voter) in g.voted && ballots[i].weight >= 0)
    && (forall v :: v in g.voted && v.0 == id ==> exists i :: 0 <= i < |ballots| && ballots[i].voter == v.1)
  }

  lemma {:induction false} WeightNonNegative(ballots: seq<Ballot>, support: bool)
    requires forall i :: 0 <= i < |ballots| ==> ballots[i].weight >= 0
    ensures Weight(ballots, support) >= 0
  {
    if ballots != [] {
      WeightNonNegative(ballots[..|ballots| - 1], support);
    }
  }

  lemma WeightAppend(ballots: seq<Ballot>, b: Ballot, support: bool)
    ensures Weight(ballots + [b], support) == Weight(ballots, support) + if b.support == support then b.weight else 0
  {
    assert (ballots + [b])[..|ballots|] == ballots;
  }

  lemma VoteShows(w: World, tx: Tx, id: nat, ballots: seq<Ballot>)
    requires Sound(w) && Shows(w.gov, id, ballots) && Votes(w, tx, id)
    ensures Shows(Step(w, tx).gov, id, ballots + [Cast(w, tx)])
  {
    var b := Cast(w, tx);
    var g' := Step(w, tx).gov;
    WeightNonNegative(ballots, true);
    WeightNonNegative(ballots, false);
    WeightAppend(ballots, b, true);
    WeightAppend(ballots, b, false);
    forall v | v in g'.voted && v.0 == id ensures exists i :: 0 <= i < |ballots + [b]| && (ballots + [b])[i].voter == v.1 {
      if v == (id, b.voter) {
        assert (ballots + [b])[|ballots|].voter == v.1;
      } else {
        var i :| 0 <= i < |ballots| && ballots[i].voter == v.1;
        assert (ballots + [b])[i].voter == v.1;
      }
    }
  }

  lemma OtherStepShows(w: World, tx: Tx, id: nat, ballots: seq<Ballot>)
    requires Sound(w) && Shows(w.gov, id, ballots) && !Votes(w, tx, id)
    ensures Shows(Step(w, tx).gov, id, ballots)
  {
  }

  /** Each tally is the saturated sum of its voters' balances when they voted, whatever the order,
      and nobody is counted twice. */
  lemma {:induction false} TalliesAreExact(w: World, txs: seq<Tx>, id: nat)
    requires Fresh(w)
    ensures Sound(Run(w, txs)) && Shows(Run(w, txs).gov, id, Ballots(w, txs, id))
  {
    RunKeepsSound(w, txs);
    hide Step, Sound, Shows, Votes;
    if txs == [] {
      FreshShows(w, id);
    } else {
      var front, last := txs[..|txs| - 1], txs[|txs| - 1];
      TalliesAreExact(w, front, id);
      if Votes(Run(w, front), last, id) {
        VoteShows(Run(w, front), last, id, Ballots(w, front, id));
      } else {
        OtherStepShows(Run(w, front), last, id, Ballots(w, front, id));
      }
    }
  }

  lemma FreshShows(w: World, id: nat)
    requires Fresh(w)
    ensures Sound(w) && Shows(w.gov, id, [])
  {
  }

  // ----- the lifecycle -----

  /** How a proposal may change: its status goes one way, and its tally only while it is active. */
  predicate Onward(p: Proposal, p': Proposal) {
    && p'.proposer == p.proposer && p'.endLedger == p.endLedger
    && (match p.status
        case Active => true
        case Passed => p'.status in {Passed, Executed}
        case Rejected => p'.status == Rejected
        case Executed => p'.status == Executed)
    && (p.status != Active ==> p'.yes == p.yes && p'.no == p.no)
    && (p.status == Active && p'.status in {Passed, Executed} ==> p'.yes > p'.no)
  }

  lemma StepOnward(w: World, tx: Tx, id: nat)
    requires Sound(w) && id in w.gov.proposals
    ensures id in Step(w, tx).gov.proposals && Onward(w.gov.proposals[id], Step(w, tx).gov.proposals[id])
    ensures tx.sequence > w.gov.proposals[id].endLedger ==>
              && Step(w, tx).gov.proposals[id].yes == w.gov.proposals[id].yes
              && Step(w, tx).gov.proposals[id].no == w.gov.proposals[id].no
  {
    hide QuorumVotes;
  }

  lemma {:induction false} LifecycleIsOneWay(w: World, txs: seq<Tx>, id: nat)
    requires Sound(w) && id in w.gov.proposals
    ensures id in Run(w, txs).gov.proposals && Onward(w.gov.proposals[id], Run(w, txs).gov.proposals[id])
  {
    RunKeepsSound(w, txs);
    if txs != [] {
      var front := txs[..|txs| - 1];
      LifecycleIsOneWay(w, front, id);
      RunKeepsSound(w, front);
      StepOnward(Run(w, front), txs[|txs| - 1], id);
      hide Step, Sound;
    }
  }

  /** Once a proposal's last ledger has passed, its tally never changes. */
  lemma {:induction false} TallyFreezes(w: World, txs: seq<Tx>, id: nat)
    requires Sound(w) && id in w.gov.proposals
    requires forall i :: 0 <= i < |txs| ==> txs[i].sequence > w.gov.proposals[id].endLedger
    ensures id in Run(w, txs).gov.proposals
    ensures Run(w, txs).gov.proposals[id].yes == w.gov.proposals[id].yes
    ensures Run(w, txs).gov.proposals[id].no == w.gov.proposals[id].no
  {
    if txs != [] {
      var front := txs[..|txs| - 1];
      TallyFreezes(w, front, id);
      LifecycleIsOneWay(w, front, id);
      RunKeepsSound(w, front);
      StepOnward(Run(w, front), txs[|txs| - 1], id);
      hide Step, Sound;
    }
  }

  // ----- the quorum -----

  /** The percentage quorum is the least number of votes worth the percentage, rounding up; it can
      be computed exactly while the product leaves room for the rounding term. */
  lemma {:induction false} QuorumIsCeiling(bps: nat, supply: int, votes: int)
    requires supply >= 0
    ensures QuorumVotes(Percent(bps), supply).Some? <==> supply * bps <= I128_MAX - (BPS - 1)
    ensures QuorumVotes(Percent(bps), supply).Some? ==>
              (votes >= QuorumVotes(Percent(bps), supply).value <==> votes * BPS >= supply * bps)
  {
    MulMono(supply, 0, bps);
    if supply * bps <= I128_MAX - (BPS - 1) {
      var x := supply * bps + (BPS - 1);
      DivBounds(x, BPS);
    }
  }

  /** What the quorum asks of a tally. */
  predicate Meets(q: Quorum, supply: int, yes: int) {
    match q
    case Absolute(amount) => yes >= amount
    case Percent(bps) => yes * 10_000 >= supply * bps
  }

  /** A finalisation goes through exactly when the period is over and the quorum can be computed,
      and the proposal then passes exactly when it meets the quorum with more yes than no. */
  lemma {:induction false} FinaliseDecides(w: World, tx: Tx, id: nat)
    requires tx.call == Finalise(id) && w.token.supply >= 0
    ensures Apply(w, tx).Some? <==>
            && id in w.gov.proposals && w.gov.proposals[id].status == Active && tx.sequence > w.gov.proposals[id].endLedger
            && (w.gov.quorum.Percent? ==> w.token.supply * w.gov.quorum.bps <= I128_MAX - (BPS - 1))
    ensures Apply(w, tx).Some? ==>
              var p := w.gov.proposals[id];
              && Step(w, tx).token == w.token && Step(w, tx).gov.voted == w.gov.voted
              && OnlyProposal(w.gov, Step(w, tx).gov, id,
                   p.(status := if Meets(w.gov.quorum, w.token.supply, p.yes) && p.yes > p.no then Passed else Rejected))
  {
    if w.gov.quorum.Percent? && id in w.gov.proposals {
      QuorumIsCeiling(w.gov.quorum.bps, w.token.supply, w.gov.proposals[id].yes);
    }
    hide QuorumVotes;
    if w.gov.quorum.Absolute? {
      AbsoluteQuorum(w.gov.quorum, w.token.supply);
    }
  }

  lemma AbsoluteQuorum(q: Quorum, supply: int)
    requires q.Absolute?
    ensures QuorumVotes(q, supply) == Some(q.amount)
  {
  }

  // ----- what each call does -----

  /** Only proposal `id` has changed, and to `p`; nothing else but the votes cast. */
  predicate OnlyProposal(g: Gov, g': Gov, id: nat, p: Proposal) {
    g' == g.(proposals := g.proposals[id := p], voted := g'.voted)
  }

  /** Anyone may propose for themself; voting is open for 120,960 ledgers from then on. */
  lemma ProposeEffect(w: World, sequence: nat, signed: set<Address>, proposer: Address)
    ensures var tx := Tx(sequence, signed, Propose(proposer));
            var id := w.gov.count + 1;
            && (Apply(w, tx).Some? <==> proposer in signed && id <= 0xFFFF_FFFF && sequence + 120_960 <= 0xFFFF_FFFF)
            && (Apply(w, tx).Some? ==>
                  && Step(w, tx).token == w.token
                  && Step(w, tx).gov == w.gov.(count := id,
                       proposals := w.gov.proposals[id := Proposal(proposer, 0, 0, sequence + 120_960, Active)]))
  {
  }

  /** A vote, on either side, is taken exactly if the voter signed it, has not voted on the proposal, and
      the proposal is active and in its period; it adds the voter's balance to that side alone. */
  lemma VoteEffect(w: World, sequence: nat, signed: set<Address>, voter: Address, id: nat, support: bool)
    ensures var tx := Tx(sequence, signed, Vote(voter, id, support));
            && (Apply(w, tx).Some? <==>
                && voter in signed && id in w.gov.proposals && (id, voter) !in w.gov.voted
                && w.gov.proposals[id].status == Active && sequence <= w.gov.proposals[id].endLedger)
            && (Apply(w, tx).Some? ==>
                  var p, held := w.gov.proposals[id], T.BalanceOf(w.token, voter);
                  && Step(w, tx).token == w.token && Step(w, tx).gov.voted == w.gov.voted + {(id, voter)}
                  && (IsI128(p.yes + held) && IsI128(p.no + held) ==>
                        OnlyProposal(w.gov, Step(w, tx).gov, id,
                                     if support then p.(yes := p.yes + held) else p.(no := p.no + held))))
  {
  }

  /** Only the admin executes, only what has passed, and only once. */
  lemma ExecuteEffect(w: World, sequence: nat, signed: set<Address>, id: nat)
    ensures var tx := Tx(sequence, signed, Execute(id));
            && (Apply(w, tx).Some? <==> w.gov.admin in signed && id in w.gov.proposals && w.gov.proposals[id].status == Passed)
            && (Apply(w, tx).Some? ==>
                  && Step(w, tx).token == w.token && Step(w, tx).gov.voted == w.gov.voted
                  && OnlyProposal(w.gov, Step(w, tx).gov, id, w.gov.proposals[id].(status := Executed))
                  && forall again: Tx :: again.call == Execute(id) ==> Apply(Step(w, tx), again).None?)
  {
  }

  lemma SetQuorumEffect(w: World, sequence: nat, signed: set<Address>, quorum: Quorum)
    ensures var tx := Tx(sequence, signed, SetQuorum(quorum));
            && (Apply(w, tx).Some? <==>
                w.gov.admin in signed && if quorum.Absolute? then quorum.amount > 0 else 0 < quorum.bps <= 10_000)
            && (Apply(w, tx).Some? ==> Step(w, tx) == w.(gov := w.gov.(quorum := quorum)))
  {
  }

  // ----- turnout -----

  /** Every mint in the run fits the supply counter. */
  predicate MintsFit(w: World, txs: seq<Tx>) {
    txs != [] ==>
      var front, last := txs[..|txs| - 1], txs[|txs| - 1];
      MintsFit(w, front) &&
      (last.call.OnToken? && last.call.call.Mint? ==> Run(w, front).token.supply + last.call.call.amount <= I128_MAX)
  }

  /** Between a proposal's first vote and its finalisation no balance falls. */
  ghost predicate Steady(w: World, txs: seq<Tx>, id: nat) {
    txs != [] ==>
      var front := txs[..|txs| - 1];
      Steady(w, front, id) &&
      (Ballots(w, front, id) != [] && Open(Run(w, front), id) ==>
         forall a :: T.BalanceOf(Run(w, front).token, a) <= T.BalanceOf(Run(w, txs).token, a))
  }

  predicate Open(w: World, id: nat) { id in w.gov.proposals && w.gov.proposals[id].status == Active }

  lemma {:induction false} RunStaysBacked(w: World, txs: seq<Tx>)
    requires T.Backed(w.token) && MintsFit(w, txs)
    ensures T.Backed(Run(w, txs).token)
  {
    if txs != [] {
      var front, last := txs[..|txs| - 1], txs[|txs| - 1];
      RunStaysBacked(w, front);
      if last.call.OnToken? {
        T.StepKeepsBacked(Run(w, front).token, T.Tx(last.sequence, last.signed, last.call.call));
      }
    }
  }

  predicate StillHeld(t: T.Token, ballots: seq<Ballot>) {
    forall i :: 0 <= i < |ballots| ==> 0 <= ballots[i].weight <= T.BalanceOf(t, ballots[i].voter)
  }

  lemma {:induction false} VotersStillHold(w: World, txs: seq<Tx>, id: nat)
    requires Fresh(w) && Steady(w, txs, id) && Open(Run(w, txs), id)
    ensures StillHeld(Run(w, txs).token, Ballots(w, txs, id))
  {
    TalliesAreExact(w, txs, id);
    if txs != [] {
      var front, last := txs[..|txs| - 1], txs[|txs| - 1];
      TalliesAreExact(w, front, id);
      var before := Run(w, front);
      WasOpen(before, last, id);
      if Open(before, id) {
        VotersStillHold(w, front, id);
      }
      VoteLeavesToken(before, last, id);
      hide Step, Sound, Votes;
    }
  }

  lemma WasOpen(w: World, tx: Tx, id: nat)
    requires Sound(w) && Open(Step(w, tx), id)
    ensures Open(w, id) || id !in w.gov.proposals
    ensures id !in w.gov.proposals ==> !Votes(w, tx, id)
  {
  }

  lemma VoteLeavesToken(w: World, tx: Tx, id: nat)
    requires BalancesNonNegative(w.token)
    ensures Votes(w, tx, id) ==> Step(w, tx).token == w.token && 0 <= Cast(w, tx).weight == T.BalanceOf(w.token, Cast(w, tx).voter)
  {
  }

  /** Distinct voters who still hold what they voted with cannot outweigh the supply. */
  lemma {:induction false} HeldWithinSum(m: map<Address, int>, ballots: seq<Ballot>)
    requires forall a :: a in m ==> m[a] >= 0
    requires forall i, j :: 0 <= i < j < |ballots| ==> ballots[i].voter != ballots[j].voter
    requires forall i :: 0 <= i < |ballots| ==>
               0 <= ballots[i].weight <= if ballots[i].voter in m then m[ballots[i].voter] else 0
    ensures Weight(ballots, true) + Weight(ballots, false) <= Sum(m)
  {
    if ballots == [] {
      SumByNonNegative(m, Same);
    } else {
      var front, last := ballots[..|ballots| - 1], ballots[|ballots| - 1];
      if last.voter in m {
        SumByRemove(m, last.voter, Same);
        HeldWithinSum(m - {last.voter}, front);
      } else {
        HeldWithinSum(m, front);
      }
    }
  }

  lemma ShownWithinSupply(w: World, id: nat, ballots: seq<Ballot>)
    requires Shows(w.gov, id, ballots) && StillHeld(w.token, ballots) && T.Backed(w.token) && id in w.gov.proposals
    ensures w.gov.proposals[id].yes + w.gov.proposals[id].no <= w.token.supply
  {
    HeldWithinSum(w.token.balances, ballots);
  }

  /** If no balance falls while a proposal is being voted on, yes and no together never exceed the
      token's supply. */
  lemma {:induction false} TurnoutWithinSupply(w: World, txs: seq<Tx>, id: nat)
    requires Fresh(w) && T.Backed(w.token) && MintsFit(w, txs)
    requires Steady(w, txs, id) && Open(Run(w, txs), id)
    ensures Run(w, txs).gov.proposals[id].yes + Run(w, txs).gov.proposals[id].no <= Run(w, txs).token.supply
  {
    RunStaysBacked(w, txs);
    TalliesAreExact(w, txs, id);
    VotersStillHold(w, txs, id);
    hide Run, Ballots, Shows, StillHeld, Steady, MintsFit, Sound, Fresh;
    ShownWithinSupply(Run(w, txs), id, Ballots(w, txs, id));
  }

  const TEN_HELD := World(T.Token(0, map[1 := 10], map[], 10), Gov(0, 0, map[], {}, Absolute(1)))

  const VOTED_TWICE := [Tx(0, {1}, Propose(1)), Tx(1, {1}, Vote(1, 1, true)),
                        Tx(2, {1}, OnToken(T.Transfer(1, 2, 10))), Tx(3, {2}, Vote(2, 1, true))]

  /** It may once a balance falls: a holder votes, passes the tokens on, and the receiver votes with
      them again. */
  lemma {:induction false} TokensCanVoteTwice()
    ensures Fresh(TEN_HELD) && T.Backed(TEN_HELD.token) && MintsFit(TEN_HELD, VOTED_TWICE)
    ensures !Steady(TEN_HELD, VOTED_TWICE, 1)
    ensures var w := Run(TEN_HELD, VOTED_TWICE); Open(w, 1) && w.gov.proposals[1].yes == 20 && w.token.supply == 10
  {
    var txs := VOTED_TWICE;
    var voted := VotedOnce();
    SumByUpdate(map[], 1, 10, Same);
    assert map[][1 := 10] == TEN_HELD.token.balances;
    assert txs[..4] == txs && txs[..4][..3] == txs[..3] && txs[..3][..2] == txs[..2];
    var passed := voted.(token := T.Token(0, map[1 := 0, 2 := 10], map[], 10));
    PassedOn(voted, txs[2]);
    assert Run(TEN_HELD, txs[..3]) == passed;
    assert T.BalanceOf(passed.token, 1) < T.BalanceOf(voted.token, 1);
    assert Run(TEN_HELD, txs) == Step(passed, txs[3]);
  }

  lemma VotedOnce() returns (w: World)
    ensures Run(TEN_HELD, VOTED_TWICE[..2]) == w && Ballots(TEN_HELD, VOTED_TWICE[..2], 1) != []
    ensures w.token == TEN_HELD.token && MintsFit(TEN_HELD, VOTED_TWICE[..2])
    ensures w.gov.proposals == map[1 := Proposal(1, 10, 0, VOTING_PERIOD, Active)] && w.gov.voted == {(1, 1)}
  {
    var txs := VOTED_TWICE;
    assert txs[..2][..1] == txs[..1] && txs[..1][..0] == [] && txs[..1][0] == txs[0] && txs[..2][1] == txs[1];
    var started := TEN_HELD.(gov := Gov(0, 1, map[1 := Proposal(1, 0, 0, VOTING_PERIOD, Active)], {}, Absolute(1)));
    assert Step(TEN_HELD, txs[0]).gov.proposals == started.gov.proposals;
    assert Run(TEN_HELD, txs[..1]) == started;
    w := Step(started, txs[1]);
    assert w.gov.proposals == map[1 := Proposal(1, 10, 0, VOTING_PERIOD, Active)];
  }

  lemma PassedOn(w: World, tx: Tx)
    requires w.token == TEN_HELD.token && tx.signed == {1} && tx.call == OnToken(T.Transfer(1, 2, 10))
    ensures Step(w, tx) == w.(token := T.Token(0, map[1 := 0, 2 := 10], map[], 10))
  {
    assert Step(w, tx).token.balances == map[1 := 0, 2 := 10];
  }

  // ----- the contract in place -----

  class GovernanceContract {
    var admin: Address
    var count: nat
    var proposals: map<nat, Proposal>
    var voted: set<(nat, Address)>
    var quorum: Quorum

    ghost function State(): Gov
      reads this
    {
      Gov(admin, count, proposals, voted, quorum)
    }

    /** Whether the call went through, and the state it left. */
    ghost predicate Did(before: Gov, token: T.Token, tx: Tx, ok: bool)
      requires !tx.call.OnToken?
      reads this
    {
      State() == ApplyGov(before, token, tx).GetOr(before) && (ok <==> ApplyGov(before, token, tx).Some?)
    }

    constructor (admin: Address, quorum: Quorum)
      requires ValidQuorum(quorum)
      ensures State() == Gov(admin, 0, map[], {}, quorum)
    {
      this.admin, count, proposals, voted, this.quorum := admin, 0, map[], {}, quorum;
    }

    method CreateProposal(sequence: nat, signed: set<Address>, token: T.Token, proposer: Address) returns (ok: bool)
      modifies this`count, this`proposals
      ensures Did(old(State()), token, Tx(sequence, signed, Propose(proposer)), ok)
    {
      if proposer !in signed || count + 1 > U32_MAX || sequence + VOTING_PERIOD > U32_MAX {
        return false;
      }
      count := count + 1;
      proposals := proposals[count := Proposal(proposer, 0, 0, sequence + VOTING_PERIOD, Active)];
      ok := true;
    }

    method CastVote(sequence: nat, signed: set<Address>, token: T.Token, voter: Address, id: nat, support: bool) returns (ok: bool)
      modifies this`proposals, this`voted
      ensures Did(old(State()), token, Tx(sequence, signed, Vote(voter, id, support)), ok)
    {
      if voter !in signed || (id, voter) in voted || id !in proposals {
        return false;
      }
      var proposal := proposals[id];
      if proposal.status != Active || sequence > proposal.endLedger {
        return false;
      }
      if support {
        proposal := proposal.(yes := SaturatingI128(proposal.yes + T.BalanceOf(token, voter)));
      } else {
        proposal := proposal.(no := SaturatingI128(proposal.no + T.BalanceOf(token, voter)));
      }
      proposals := proposals[id := proposal];
      voted := voted + {(id, voter)};
      ok := true;
    }

    method FinaliseProposal(sequence: nat, signed: set<Address>, token: T.Token, id: nat) returns (ok: bool)
      modifies this`proposals
      ensures Did(old(State()), token, Tx(sequence, signed, Finalise(id)), ok)
    {
      if id !in proposals || proposals[id].status != Active || sequence <= proposals[id].endLedger {
        return false;
      }
      var proposal := proposals[id];
      var needed := QuorumVotes(quorum, token.supply);
      if needed.None? {
        return false;
      }
      var passed := proposal.yes >= needed.value && proposal.yes > proposal.no;
      proposals := proposals[id := proposal.(status := if passed then Passed else Rejected)];
      ok := true;
    }

    method ExecuteProposal(sequence: nat, signed: set<Address>, token: T.Token, id: nat) returns (ok: bool)
      modifies this`proposals
      ensures Did(old(State()), token, Tx(sequence, signed, Execute(id)), ok)
    {
      if admin !in signed || id !in proposals || proposals[id].status != Passed {
        return false;
      }
      proposals := proposals[id := proposals[id].(status := Executed)];
      ok := true;
    }

    method ChangeQuorum(sequence: nat, signed: set<Address>, token: T.Token, quorum: Quorum) returns (ok: bool)
      modifies this`quorum
      ensures Did(old(State()), token, Tx(sequence, signed, SetQuorum(quorum)), ok)
    {
      ok := admin in signed && ValidQuorum(quorum);
      if ok {
        this.quorum := quorum;
      }
    }
  }
}
