/** The key/value state contract with snapshots kept by version. A call that panics changes nothing. */
module StateStore {
  import opened Prelude

  type Bytes = string

  datatype Store = Store(admin: Address, state: map<Bytes, Bytes>, snapshots: map<(Bytes, nat), Bytes>, version: nat)

  datatype Call =
    | Set(key: Bytes, value: Bytes)
    | Delete(key: Bytes)
    | Snapshot(key: Bytes)
    | Migrate
    | Recover(key: Bytes, version: nat)

  /** `signed` says whether the admin authorized the call. */
  datatype Tx = Tx(signed: bool, call: Call)

  function Apply(s: Store, tx: Tx): Option<Store> {
    if !tx.signed then None else
      match tx.call
      case Set(key, value) => if key == "" then None else Some(s.(state := s.state[key := value]))
      case Delete(key) => if key !in s.state then None else Some(s.(state := s.state - {key}))
      case Snapshot(key) =>
        if key !in s.state then None else Some(s.(snapshots := s.snapshots[(key, s.version) := s.state[key]]))
      case Migrate => if s.version >= U32_MAX then None else Some(s.(version := s.version + 1))
      case Recover(key, version) =>
        if (key, version) !in s.snapshots then None else Some(s.(state := s.state[key := s.snapshots[(key, version)]]))
  }

  function Step(s: Store, tx: Tx): Store { Apply(s, tx).GetOr(s) }

  function Run(s: Store, txs: seq<Tx>): Store {
    if txs == [] then s else Step(Run(s, txs[..|txs| - 1]), txs[|txs| - 1])
  }

  function SnapshotAt(s: Store, key: Bytes, version: nat): Option<Bytes> {
    if (key, version) in s.snapshots then Some(s.snapshots[(key, version)]) else None
  }

  /** A successful `snapshot` of `key` while the contract is at `version`. */
  predicate Takes(s: Store, tx: Tx, key: Bytes, version: nat) {
    tx.call == Snapshot(key) && s.version == version && Apply(s, tx).Some?
  }

  /** The value that was live at the run's last `snapshot` of `key` made at `version`; what was
      stored to begin with if the run made none. */
  function LastTaken(s: Store, txs: seq<Tx>, key: Bytes, version: nat): Option<Bytes> {
    if txs == [] then SnapshotAt(s, key, version) else
      var front, last := txs[..|txs| - 1], txs[|txs| - 1];
      var before := Run(s, front);
      if Takes(before, last, key, version) && key in before.state then Some(before.state[key])
      else LastTaken(s, front, key, version)
  }

  /** Whatever was set, deleted, recovered or migrated since, the snapshot of a key at a version is
      the value live at the last snapshot taken there. */
  lemma {:induction false} SnapshotsRemember(s: Store, txs: seq<Tx>, key: Bytes, version: nat)
    ensures SnapshotAt(Run(s, txs), key, version) == LastTaken(s, txs, key, version)
  {
    if txs != [] {
      SnapshotsRemember(s, txs[..|txs| - 1], key, version);
    }
  }

  /** A recovery succeeds exactly when such a snapshot was taken, and puts that value back, leaving
      every other key alone. */
  lemma {:induction false} RecoverReinstates(s: Store, txs: seq<Tx>, tx: Tx, key: Bytes, version: nat)
    requires tx.call == Recover(key, version)
    ensures var before, taken := Run(s, txs), LastTaken(s, txs, key, version);
            && (Apply(before, tx).Some? <==> tx.signed && taken.Some?)
            && (Apply(before, tx).Some? ==> Step(before, tx).state == before.state[key := taken.value])
  {
    SnapshotsRemember(s, txs, key, version);
  }

  lemma {:induction false} VersionNeverFalls(s: Store, txs: seq<Tx>)
    ensures s.version <= Run(s, txs).version
  {
    if txs != [] {
      VersionNeverFalls(s, txs[..|txs| - 1]);
    }
  }

  /** Once the contract has moved past a version, no snapshot there ever changes again. */
  lemma {:induction false} PastSnapshotsAreFrozen(s: Store, txs: seq<Tx>, key: Bytes, version: nat)
    requires version < s.version
    ensures SnapshotAt(Run(s, txs), key, version) == SnapshotAt(s, key, version)
  {
    if txs != [] {
      PastSnapshotsAreFrozen(s, txs[..|txs| - 1], key, version);
      VersionNeverFalls(s, txs[..|txs| - 1]);
    }
  }

  /** Snapshots are never removed either: one taken now can be recovered after any later run, and
      after a migration it brings back today's value. */
  lemma {:induction false} SnapshotSurvivesMigration(s: Store, txs: seq<Tx>, key: Bytes)
    requires key in s.state && s.version < U32_MAX
    ensures var taken := Step(Step(s, Tx(true, Snapshot(key))), Tx(true, Migrate));
            var later := Run(taken, txs);
            Apply(later, Tx(true, Recover(key, s.version))).Some? &&
            Step(later, Tx(true, Recover(key, s.version))).state == later.state[key := s.state[key]]
  {
    PastSnapshotsAreFrozen(Step(Step(s, Tx(true, Snapshot(key))), Tx(true, Migrate)), txs, key, s.version);
  }

  // ----- what each call does -----

  function Live(s: Store, key: Bytes): Option<Bytes> { if key in s.state then Some(s.state[key]) else None }

  /** The value under `key` is now `value`, or absent; nothing else has changed. */
  ghost predicate OnlyEntry(s: Store, s': Store, key: Bytes, value: Option<Bytes>) {
    && s' == s.(state := s'.state) && Live(s', key) == value
    && forall other: Bytes :: other != key ==> Live(s', other) == Live(s, other)
  }

  /** When each call goes through, and the one thing it changes. */
  lemma StepEffect(s: Store, tx: Tx)
    ensures Apply(s, tx).Some? <==> tx.signed && match tx.call
              case Set(key, _) => |key| > 0
              case Delete(key) => Live(s, key).Some?
              case Snapshot(key) => Live(s, key).Some?
              case Migrate => s.version < 0xFFFF_FFFF
              case Recover(key, version) => SnapshotAt(s, key, version).Some?
    ensures Apply(s, tx).Some? ==> match tx.call
              case Set(key, value) => OnlyEntry(s, Step(s, tx), key, Some(value))
              case Delete(key) => OnlyEntry(s, Step(s, tx), key, None)
              case Recover(key, version) => OnlyEntry(s, Step(s, tx), key, SnapshotAt(s, key, version))
              case Migrate => Step(s, tx) == s.(version := s.version + 1)
              case Snapshot(key) =>
                && Step(s, tx) == s.(snapshots := Step(s, tx).snapshots)
                && forall k: Bytes, v: nat ::
                     SnapshotAt(Step(s, tx), k, v) == if (k, v) == (key, s.version) then Live(s, key) else SnapshotAt(s, k, v)
  {
  }

  /** What the run last wrote under `key`: by setting it, deleting it, or recovering a snapshot of it. */
  function LastWritten(s: Store, txs: seq<Tx>, key: Bytes): Option<Bytes> {
    if txs == [] then Live(s, key) else
      var front, last := txs[..|txs| - 1], txs[|txs| - 1];
      if Apply(Run(s, front), last).None? then LastWritten(s, front, key) else
        match last.call
        case Set(k, value) => if k == key then Some(value) else LastWritten(s, front, key)
        case Delete(k) => if k == key then None else LastWritten(s, front, key)
        case Recover(k, version) => if k == key then LastTaken(s, front, key, version) else LastWritten(s, front, key)
        case _ => LastWritten(s, front, key)
  }

  /** After any run an entry holds what was last written there; a recovery writes what was live at the
      last snapshot of its version. */
  lemma {:induction false} EntriesRemember(s: Store, txs: seq<Tx>, key: Bytes)
    ensures Live(Run(s, txs), key) == LastWritten(s, txs, key)
  {
    if txs != [] {
      var front, last := txs[..|txs| - 1], txs[|txs| - 1];
      EntriesRemember(s, front, key);
      StepEffect(Run(s, front), last);
      if last.call.Recover? {
        SnapshotsRemember(s, front, last.call.key, last.call.version);
      }
      hide Apply;
    }
  }

  class StateContract {
    var admin: Address
    var state: map<Bytes, Bytes>
    var snapshots: map<(Bytes, nat), Bytes>
    var version: nat

    ghost function Contents(): Store
      reads this
    {
      Store(admin, state, snapshots, version)
    }

    ghost predicate Did(before: Store, tx: Tx, ok: bool)
      reads this
    {
      Contents() == Step(before, tx) && (ok <==> Apply(before, tx).Some?)
    }

    constructor (admin: Address)
      ensures Contents() == Store(admin, map[], map[], 0)
    {
      this.admin, state, snapshots, version := admin, map[], map[], 0;
    }

    method SetEntry(signed: bool, key: Bytes, value: Bytes) returns (ok: bool)
      modifies this`state
      ensures Did(old(Contents()), Tx(signed, Set(key, value)), ok)
    {
      ok := signed && key != "";
      if ok {
        state := state[key := value];
      }
    }

    method DeleteEntry(signed: bool, key: Bytes) returns (ok: bool)
      modifies this`state
      ensures Did(old(Contents()), Tx(signed, Delete(key)), ok)
    {
      ok := signed && key in state;
      if ok {
        state := state - {key};
      }
    }

    method SnapshotEntry(signed: bool, key: Bytes) returns (ok: bool)
      modifies this`snapshots
      ensures Did(old(Contents()), Tx(signed, Snapshot(key)), ok)
    {
      ok := signed && key in state;
      if ok {
        snapshots := snapshots[(key, version) := state[key]];
      }
    }

    method MigrateVersion(signed: bool) returns (ok: bool)
      modifies this`version
      ensures Did(old(Contents()), Tx(signed, Migrate), ok)
    {
      ok := signed && version < U32_MAX;
      if ok {
        version := version + 1;
      }
    }

    method RecoverEntry(signed: bool, key: Bytes, snapVersion: nat) returns (ok: bool)
      modifies this`state
      ensures Did(old(Contents()), Tx(signed, Recover(key, snapVersion)), ok)
    {
      ok := signed && (key, snapVersion) in snapshots;
      if ok {
        state := state[key := snapshots[(key, snapVersion)]];
      }
    }
  }
}
