/** The M-of-N upgrade approval protocol shared by the escrow, governance and state contracts. A
    call that panics changes nothing. */
module UpgradeApprovals {
  import opened Prelude

  type Hash = nat

  datatype Panel = Panel(signers: seq<Address>, threshold: nat, approvals: map<Hash, seq<Address>>)

  /** `signer` approves `hash`, with the authorizations in `signed`. */
  datatype Tx = Tx(signer: Address, hash: Hash, signed: set<Address>)

  /** The contracts' own check on their configuration. */
  function Initialize(signers: seq<Address>, threshold: nat): Option<Panel> {
    if threshold >= 1 && |signers| >= threshold then Some(Panel(signers, threshold, map[])) else None
  }

  function Pending(p: Panel, hash: Hash): seq<Address> {
    if hash in p.approvals then p.approvals[hash] else []
  }

  predicate Accepts(p: Panel, tx: Tx) {
    tx.signer in tx.signed && tx.signer in p.signers && tx.signer !in Pending(p, tx.hash)
  }

  /** This approval completes the threshold, and the upgrade takes place. */
  predicate Executes(p: Panel, tx: Tx) {
    Accepts(p, tx) && |Pending(p, tx.hash)| + 1 >= p.threshold
  }

  function Step(p: Panel, tx: Tx): Panel {
    if !Accepts(p, tx) then p
    else if Executes(p, tx) then p.(approvals := p.approvals - {tx.hash})
    else p.(approvals := p.approvals[tx.hash := Pending(p, tx.hash) + [tx.signer]])
  }

  function Run(p: Panel, txs: seq<Tx>): Panel {
    if txs == [] then p else Step(Run(p, txs[..|txs| - 1]), txs[|txs| - 1])
  }

  /** A configuration is accepted exactly if it needs at least one approval and lists as many signers; it
      starts with none pending. */
  lemma InitializeEffect(signers: seq<Address>, threshold: nat, hash: Hash)
    ensures Initialize(signers, threshold).Some? <==> 1 <= threshold <= |signers|
    ensures Initialize(signers, threshold).Some? ==>
              var p := Initialize(signers, threshold).value;
              p.signers == signers && p.threshold == threshold && Pending(p, hash) == []
  {
  }

  predicate Distinct(s: seq<Address>) { forall i, j :: 0 <= i < j < |s| ==> s[i] != s[j] }

  predicate Sound(p: Panel) {
    && 1 <= p.threshold
    && forall h :: h in p.approvals ==>
         && 0 < |p.approvals[h]| < p.threshold && Distinct(p.approvals[h])
         && forall a :: a in p.approvals[h] ==> a in p.signers
  }

  lemma StepKeepsSound(p: Panel, tx: Tx)
    requires Sound(p)
    ensures Sound(Step(p, tx))
  {
  }

  /** In every reachable state the approvals pending for a hash are fewer than the threshold, and
      come from distinct signers. */
  lemma {:induction false} PendingIsSound(signers: seq<Address>, threshold: nat, txs: seq<Tx>)
    requires Initialize(signers, threshold).Some?
    ensures Sound(Run(Initialize(signers, threshold).value, txs))
    ensures Run(Initialize(signers, threshold).value, txs).signers == signers
    ensures Run(Initialize(signers, threshold).value, txs).threshold == threshold
  {
    if txs != [] {
      PendingIsSound(signers, threshold, txs[..|txs| - 1]);
      StepKeepsSound(Run(Initialize(signers, threshold).value, txs[..|txs| - 1]), txs[|txs| - 1]);
      hide Sound;
    }
  }

  // ----- what each approval does -----

  /** An approval counts exactly if its signer is configured, has authorized it, and has none pending
      for that hash. It then joins those pending, or completes the threshold and clears them; other
      hashes keep theirs. */
  lemma ApprovalEffect(p: Panel, tx: Tx)
    ensures Accepts(p, tx) <==>
              && tx.signer in tx.signed && (exists i :: 0 <= i < |p.signers| && p.signers[i] == tx.signer)
              && (tx.hash in p.approvals ==> forall i :: 0 <= i < |p.approvals[tx.hash]| ==> p.approvals[tx.hash][i] != tx.signer)
    ensures Executes(p, tx) <==> Accepts(p, tx) && |Pending(p, tx.hash)| >= p.threshold - 1
    ensures Pending(Step(p, tx), tx.hash) ==
            if !Accepts(p, tx) then Pending(p, tx.hash) else if Executes(p, tx) then [] else Pending(p, tx.hash) + [tx.signer]
    ensures forall other: Hash :: other != tx.hash ==> Pending(Step(p, tx), other) == Pending(p, other)
    ensures Step(p, tx).signers == p.signers && Step(p, tx).threshold == p.threshold
  {
  }

  /** Every approval that backs an upgrade was given by its own signer, for that hash. */
  lemma {:induction false} BackersApproved(p: Panel, txs: seq<Tx>, hash: Hash)
    requires p.approvals == map[]
    ensures forall a :: a in Backers(p, txs, hash) ==>
              exists i :: 0 <= i < |txs| && txs[i].hash == hash && txs[i].signer == a && a in txs[i].signed
  {
    if txs != [] {
      var front, last := txs[..|txs| - 1], txs[|txs| - 1];
      BackersApproved(p, front, hash);
      forall a | a in Backers(p, txs, hash)
        ensures exists i :: 0 <= i < |txs| && txs[i].hash == hash && txs[i].signer == a && a in txs[i].signed
      {
        if a in Backers(p, front, hash) {
          var i :| 0 <= i < |front| && front[i].hash == hash && front[i].signer == a && a in front[i].signed;
          assert txs[i] == front[i];
        } else {
          assert txs[|txs| - 1].hash == hash && last.signer == a && a in last.signed;
        }
      }
    }
  }

  // ----- what backs an upgrade -----

  /** The signers whose approvals of `hash` the run accepted since the upgrade to it last took place. */
  function Backers(p: Panel, txs: seq<Tx>, hash: Hash): seq<Address> {
    if txs == [] then [] else
      var front, last := txs[..|txs| - 1], txs[|txs| - 1];
      if last.hash != hash || !Accepts(Run(p, front), last) then Backers(p, front, hash)
      else if Executes(Run(p, front), last) then []
      else Backers(p, front, hash) + [last.signer]
  }

  lemma {:induction false} PendingIsBackers(p: Panel, txs: seq<Tx>, hash: Hash)
    requires p.approvals == map[]
    ensures Pending(Run(p, txs), hash) == Backers(p, txs, hash)
  {
    if txs != [] {
      PendingIsBackers(p, txs[..|txs| - 1], hash);
    }
  }

  /** Whenever an upgrade takes place, exactly threshold-many distinct signers have approved that
      very hash since it last took place. */
  lemma {:induction false} UpgradesAreBacked(signers: seq<Address>, threshold: nat, txs: seq<Tx>, tx: Tx)
    requires Initialize(signers, threshold).Some?
    requires Executes(Run(Initialize(signers, threshold).value, txs), tx)
    ensures var backers := Backers(Initialize(signers, threshold).value, txs, tx.hash) + [tx.signer];
            |backers| == threshold && Distinct(backers) && forall a :: a in backers ==> a in signers
  {
    PendingIsSound(signers, threshold, txs);
    PendingIsBackers(Initialize(signers, threshold).value, txs, tx.hash);
  }

  // ----- hashes are independent -----

  function Only(txs: seq<Tx>, hash: Hash): seq<Tx> {
    if txs == [] then [] else
      var front := Only(txs[..|txs| - 1], hash);
      if txs[|txs| - 1].hash == hash then front + [txs[|txs| - 1]] else front
  }

  /** How many times the upgrade to `hash` took place. */
  function Upgrades(p: Panel, txs: seq<Tx>, hash: Hash): nat {
    if txs == [] then 0 else
      var front, last := txs[..|txs| - 1], txs[|txs| - 1];
      Upgrades(p, front, hash) + if last.hash == hash && Executes(Run(p, front), last) then 1 else 0
  }

  /** What happens to one hash is what would have happened had no other been approved. */
  lemma {:induction false} HashesDoNotInterfere(p: Panel, txs: seq<Tx>, hash: Hash)
    ensures Pending(Run(p, Only(txs, hash)), hash) == Pending(Run(p, txs), hash)
    ensures Upgrades(p, Only(txs, hash), hash) == Upgrades(p, txs, hash)
    ensures Run(p, txs).signers == p.signers == Run(p, Only(txs, hash)).signers
    ensures Run(p, txs).threshold == p.threshold == Run(p, Only(txs, hash)).threshold
  {
    if txs != [] {
      var front, last := txs[..|txs| - 1], txs[|txs| - 1];
      HashesDoNotInterfere(p, front, hash);
      if last.hash == hash {
        var kept := Only(front, hash);
        assert (kept + [last])[..|kept|] == kept;
      }
    }
  }

  // ----- when an upgrade is possible at all -----

  function Members(s: seq<Address>): set<Address> { set a | a in s }

  lemma {:induction false} DistinctSize(s: seq<Address>)
    requires Distinct(s)
    ensures |Members(s)| == |s|
  {
    if s != [] {
      var front, last := s[..|s| - 1], s[|s| - 1];
      DistinctSize(front);
      assert Members(s) == Members(front) + {last};
      assert last !in front;
    }
  }

  /** `backers` approving one after another, each for themself. */
  function Approving(backers: seq<Address>, hash: Hash): seq<Tx> {
    seq(|backers|, i requires 0 <= i < |backers| => Tx(backers[i], hash, {backers[i]}))
  }

  lemma {:induction false} ApprovalsAccumulate(p: Panel, backers: seq<Address>, hash: Hash)
    requires p.approvals == map[] && Distinct(backers) && Members(backers) <= Members(p.signers) && |backers| < p.threshold
    ensures Pending(Run(p, Approving(backers, hash)), hash) == backers
    ensures Run(p, Approving(backers, hash)).signers == p.signers && Run(p, Approving(backers, hash)).threshold == p.threshold
  {
    if backers != [] {
      var front, last := backers[..|backers| - 1], backers[|backers| - 1];
      var txs := Approving(backers, hash);
      assert txs[..|txs| - 1] == Approving(front, hash);
      assert Members(front) <= Members(backers) && last in Members(backers);
      ApprovalsAccumulate(p, front, hash);
      assert txs[|txs| - 1] == Tx(last, hash, {last});
      assert last !in front;
    }
  }

  lemma {:induction false} Enumerate(s: set<Address>, n: nat) returns (listed: seq<Address>)
    requires n <= |s|
    ensures |listed| == n && Distinct(listed) && Members(listed) <= s
  {
    listed := [];
    if n > 0 {
      var a :| a in s;
      var rest := Enumerate(s - {a}, n - 1);
      listed := rest + [a];
      assert Members(listed) == Members(rest) + {a};
      assert a !in Members(rest);
      assert forall b :: b in rest ==> b in Members(rest);
    }
  }

  /** Counting signers is not enough: an upgrade can ever take place exactly if at least threshold-many
      of the configured signers are different from one another. */
  lemma {:induction false} UpgradeIsPossible(signers: seq<Address>, threshold: nat, hash: Hash)
    requires Initialize(signers, threshold).Some?
    ensures (exists txs, tx: Tx :: tx.hash == hash && Executes(Run(Initialize(signers, threshold).value, txs), tx)) <==>
            |Members(signers)| >= threshold
  {
    var p := Initialize(signers, threshold).value;
    forall txs, tx: Tx | Executes(Run(p, txs), tx) ensures |Members(signers)| >= threshold {
      EnoughSigners(signers, threshold, txs, tx);
    }
    if |Members(signers)| >= threshold {
      var listed := Enumerate(Members(signers), threshold);
      var front, last := listed[..threshold - 1], listed[threshold - 1];
      assert Members(front) <= Members(listed) && last in Members(listed) && last !in front;
      ApprovalsAccumulate(p, front, hash);
      assert Executes(Run(p, Approving(front, hash)), Tx(last, hash, {last}));
    }
  }

  lemma EnoughSigners(signers: seq<Address>, threshold: nat, txs: seq<Tx>, tx: Tx)
    requires Initialize(signers, threshold).Some? && Executes(Run(Initialize(signers, threshold).value, txs), tx)
    ensures |Members(signers)| >= threshold
  {
    UpgradesAreBacked(signers, threshold, txs, tx);
    var backers := Backers(Initialize(signers, threshold).value, txs, tx.hash) + [tx.signer];
    DistinctSize(backers);
    assert Members(backers) <= Members(signers);
    SubsetSize(Members(backers), Members(signers));
  }

  lemma SubsetSize(s: set<Address>, t: set<Address>)
    requires s <= t
    ensures |s| <= |t|
  {
    assert t == s + (t - s);
  }

  class UpgradePanel {
    var signers: seq<Address>
    var threshold: nat
    var approvals: map<Hash, seq<Address>>

    ghost function State(): Panel
      reads this
    {
      Panel(signers, threshold, approvals)
    }

    constructor (signers: seq<Address>, threshold: nat)
      requires Initialize(signers, threshold).Some?
      ensures State() == Initialize(signers, threshold).value
    {
      this.signers, this.threshold, approvals := signers, threshold, map[];
    }

    method ApproveUpgrade(signer: Address, hash: Hash, signed: set<Address>) returns (ok: bool, executed: bool)
      modifies this`approvals
      ensures State() == Step(old(State()), Tx(signer, hash, signed))
      ensures ok <==> Accepts(old(State()), Tx(signer, hash, signed))
      ensures executed <==> Executes(old(State()), Tx(signer, hash, signed))
    {
      if signer !in signed || signer !in signers {
        return false, false;
      }
      var pending := if hash in approvals then approvals[hash] else [];
      if signer in pending {
        return false, false;
      }
      pending := pending + [signer];
      approvals := approvals[hash := pending];
      executed := |pending| >= threshold;
      if executed {
        approvals := approvals - {hash};
      }
      assert executed ==> approvals == old(approvals) - {hash};
      ok := true;
    }
  }
}
