/** The batch re-encryption script: what it decides for one value, the paginated pass over a
    table, and what any number of interrupted passes add up to. Encryption is ideal: a sealed
    value opens under its own key only, and text that merely looks sealed opens under none. */
module Reencryption {
  import opened Prelude

  type Id = int
  type Key = nat

  /** A stored string: text, or the output of encrypting `plain` under `key` with a random `iv`. */
  datatype Value = Text(text: string) | Sealed(plain: string, key: Key, iv: nat)

  // ----- one value -----

  predicate Base64Char(c: char) {
    'A' <= c <= 'Z' || 'a' <= c <= 'z' || '0' <= c <= '9' || c == '+' || c == '/'
  }

  predicate AllBase64(s: string) { forall i :: 0 <= i < |s| ==> Base64Char(s[i]) }

  predicate AllPadding(s: string) { forall i :: 0 <= i < |s| ==> s[i] == '=' }

  /** The pattern of `isEncrypted`: base64 characters, then padding, forty characters or more. */
  predicate LooksSealed(s: string) {
    |s| >= 40 && exists n :: 1 <= n <= |s| && AllBase64(s[..n]) && AllPadding(s[n..])
  }

  /** Encrypting yields at least 28 bytes in base64, which always fits the pattern. */
  predicate IsEncrypted(v: Value) { v.Sealed? || LooksSealed(v.text) }

  function TryDecryptWith(v: Value, key: Key): Option<string> {
    if !IsEncrypted(v) then Some(v.text)
    else if v.Sealed? && v.key == key then Some(v.plain)
    else None
  }

  /** The value to write, or nothing if the row is to be skipped. */
  function ComputeAction(v: Value, newKey: Key, oldKey: Option<Key>, iv: nat): Option<Value> {
    if !IsEncrypted(v) then Some(Sealed(v.text, newKey, iv))
    else if oldKey.None? then None
    else
      var plaintext := TryDecryptWith(v, oldKey.value);
      if plaintext.None? then None else Some(Sealed(plaintext.value, newKey, iv))
  }

  /** The plaintext a value stands for. */
  function Plain(v: Value): string { if v.Text? then v.text else v.plain }

  /** The values the script can tell how to read with the keys it is given. */
  predicate Readable(v: Value, newKey: Key, oldKey: Option<Key>) {
    match v
    case Text(s) => !LooksSealed(s)
    case Sealed(_, key, _) => key == newKey || oldKey == Some(key)
  }

  predicate NeedsUpdate(v: Value, newKey: Key, oldKey: Option<Key>) {
    ComputeAction(v, newKey, oldKey, 0).Some?
  }

  /** A plaintext of forty base64 characters or more, such as a secret of 64 hexadecimal digits,
      passes for ciphertext and is left as it stands. */
  lemma LongTokensAreSkipped(s: string, newKey: Key, oldKey: Option<Key>, iv: nat)
    requires |s| >= 40 && AllBase64(s)
    ensures ComputeAction(Text(s), newKey, oldKey, iv) == None
  {
    assert s[..|s|] == s && s[|s|..] == "";
  }

  /** A text passes for ciphertext exactly if it has forty characters or more, begins with a base64
      character, and goes on with base64 characters and then nothing but padding. */
  lemma {:induction false} LooksSealedMeaning(s: string)
    ensures LooksSealed(s) <==>
              && |s| >= 40
              && ('A' <= s[0] <= 'Z' || 'a' <= s[0] <= 'z' || '0' <= s[0] <= '9' || s[0] == '+' || s[0] == '/')
              && (forall i :: 0 <= i < |s| ==>
                    'A' <= s[i] <= 'Z' || 'a' <= s[i] <= 'z' || '0' <= s[i] <= '9' || s[i] == '+' || s[i] == '/' || s[i] == '=')
              && (forall i :: 0 <= i < |s| - 1 ==> s[i] == '=' ==> s[i + 1] == '=')
  {
    if LooksSealed(s) {
      var n :| 1 <= n <= |s| && AllBase64(s[..n]) && AllPadding(s[n..]);
      forall i | 0 <= i < |s| ensures if i < n then Base64Char(s[i]) else s[i] == '=' {
        if i < n {
          assert s[..n][i] == s[i];
        } else {
          assert s[n..][i - n] == s[i];
        }
      }
    } else if |s| >= 40 && Base64Char(s[0]) && (forall i :: 0 <= i < |s| ==> Base64Char(s[i]) || s[i] == '=') {
      var n := FirstPadding(s);
      assert AllBase64(s[..n]);
      assert !AllPadding(s[n..]);
    }
  }

  lemma FirstPadding(s: string) returns (n: nat)
    ensures n <= |s| && (forall i :: 0 <= i < n ==> s[i] != '=') && (n < |s| ==> s[n] == '=')
    ensures (forall i :: 0 <= i < |s| - 1 ==> s[i] == '=' ==> s[i + 1] == '=') ==> AllPadding(s[n..])
  {
    n := 0;
    while n < |s| && s[n] != '='
      invariant n <= |s| && forall i :: 0 <= i < n ==> s[i] != '='
    {
      n := n + 1;
    }
    if forall i :: 0 <= i < |s| - 1 ==> s[i] == '=' ==> s[i + 1] == '=' {
      PaddingGoesOn(s, n);
    }
  }

  lemma {:induction false} PaddingGoesOn(s: string, n: nat)
    requires n <= |s| && (n < |s| ==> s[n] == '=')
    requires forall i :: 0 <= i < |s| - 1 ==> s[i] == '=' ==> s[i + 1] == '='
    ensures AllPadding(s[n..])
    decreases |s| - n
  {
    if n < |s| {
      PaddingGoesOn(s, n + 1);
      assert s[n..] == [s[n]] + s[n + 1..];
    }
  }

  /** So any shorter text, and any text with a character outside the base64 alphabet, is encrypted as it
      stands. What is sealed is sealed afresh exactly if it opens under the old key. */
  lemma {:induction false} NeedsUpdateMeaning(v: Value, newKey: Key, oldKey: Option<Key>)
    ensures v.Text? && (|v.text| < 40 || exists i :: 0 <= i < |v.text| && !Base64Char(v.text[i]) && v.text[i] != '=') ==>
              NeedsUpdate(v, newKey, oldKey)
    ensures v.Sealed? ==> (NeedsUpdate(v, newKey, oldKey) <==> oldKey == Some(v.key))
    ensures v.Text? ==> (NeedsUpdate(v, newKey, oldKey) <==> !LooksSealed(v.text))
  {
    if v.Text? {
      LooksSealedMeaning(v.text);
    }
    hide LooksSealed;
  }

  // ----- one pass -----

  /** A column: `None` is a NULL. */
  type Rows = map<Id, Option<Value>>

  predicate Filled(rows: Rows, id: Id) { id in rows && rows[id].Some? }

  function Ids(rows: Rows): set<Id> { set id | id in rows && rows[id].Some? }

  /** The rows a pass leaves when its updates took effect on the rows of `applied` only. */
  function Pass(rows: Rows, newKey: Key, oldKey: Option<Key>, ivs: Id -> nat, applied: set<Id>): Rows {
    map id | id in rows ::
      if id in applied && rows[id].Some? && NeedsUpdate(rows[id].value, newKey, oldKey)
      then ComputeAction(rows[id].value, newKey, oldKey, ivs(id)) else rows[id]
  }

  /** What a value becomes never depends on the iv except in the iv itself. */
  lemma ActionMeaning(v: Value, newKey: Key, oldKey: Option<Key>, iv: nat)
    ensures ComputeAction(v, newKey, oldKey, iv).Some? <==> NeedsUpdate(v, newKey, oldKey)
    ensures NeedsUpdate(v, newKey, oldKey) ==>
              ComputeAction(v, newKey, oldKey, iv) == Some(Sealed(Plain(v), newKey, iv)) && Readable(v, newKey, oldKey)
    ensures Readable(v, newKey, oldKey) && !NeedsUpdate(v, newKey, oldKey) ==> v.Sealed? && v.key == newKey
  {
  }

  lemma PassKeepsIds(rows: Rows, newKey: Key, oldKey: Option<Key>, ivs: Id -> nat, applied: set<Id>)
    ensures Pass(rows, newKey, oldKey, ivs, applied).Keys == rows.Keys
    ensures Ids(Pass(rows, newKey, oldKey, ivs, applied)) == Ids(rows)
  {
    forall id | id in Ids(rows) ensures id in Ids(Pass(rows, newKey, oldKey, ivs, applied)) {
      ActionMeaning(rows[id].value, newKey, oldKey, ivs(id));
    }
    hide ComputeAction;
  }

  // ----- any number of passes -----

  /** One attempt: the updates that took effect before it failed or was cut off. */
  datatype Attempt = Attempt(applied: set<Id>, ivs: Id -> nat)

  ghost function Attempts(rows: Rows, newKey: Key, oldKey: Option<Key>, attempts: seq<Attempt>): Rows {
    if attempts == [] then rows else
      var last := attempts[|attempts| - 1];
      Pass(Attempts(rows, newKey, oldKey, attempts[..|attempts| - 1]), newKey, oldKey, last.ivs, last.applied)
  }

  /** `v'` is what `v` may have become: the same plaintext, still as readable, and rewritten only
      as a whole. */
  predicate Rewritten(v: Value, v': Value, newKey: Key, oldKey: Option<Key>) {
    v' == v || (v' == Sealed(Plain(v), newKey, if v'.Sealed? then v'.iv else 0) && Readable(v, newKey, oldKey))
  }

  /** However many passes fail or are interrupted, and wherever, no row loses its plaintext or
      becomes unreadable. */
  lemma {:induction false} NothingIsLost(rows: Rows, newKey: Key, oldKey: Option<Key>, attempts: seq<Attempt>)
    ensures var rows' := Attempts(rows, newKey, oldKey, attempts);
            && rows'.Keys == rows.Keys && Ids(rows') == Ids(rows)
            && forall id :: id in Ids(rows) ==> Rewritten(rows[id].value, rows'[id].value, newKey, oldKey)
  {
    hide LooksSealed;
    if attempts != [] {
      var front, last := attempts[..|attempts| - 1], attempts[|attempts| - 1];
      NothingIsLost(rows, newKey, oldKey, front);
      var mid := Attempts(rows, newKey, oldKey, front);
      PassKeepsIds(mid, newKey, oldKey, last.ivs, last.applied);
      assert Ids(Attempts(rows, newKey, oldKey, attempts)) == Ids(mid);
      forall id | id in Ids(rows)
        ensures Rewritten(rows[id].value, Attempts(rows, newKey, oldKey, attempts)[id].value, newKey, oldKey)
      {
        ActionMeaning(mid[id].value, newKey, oldKey, last.ivs(id));
      }
    }
  }

  /** With distinct keys, what is left to do after any attempts is exactly what needed doing at first
      and no attempt has done: a row is written once, however often the script is re-run. */
  lemma {:induction false} OnlyTheRestIsRedone(rows: Rows, newKey: Key, oldKey: Option<Key>, attempts: seq<Attempt>, id: Id)
    requires oldKey != Some(newKey) && id in Ids(rows)
    ensures var rows' := Attempts(rows, newKey, oldKey, attempts);
            && id in Ids(rows')
            && (NeedsUpdate(rows'[id].value, newKey, oldKey) <==>
                NeedsUpdate(rows[id].value, newKey, oldKey) && forall a :: a in attempts ==> id !in a.applied)
            && (NeedsUpdate(rows'[id].value, newKey, oldKey) ==> rows'[id] == rows[id])
  {
    hide LooksSealed;
    NothingIsLost(rows, newKey, oldKey, attempts);
    if attempts != [] {
      var front, last := attempts[..|attempts| - 1], attempts[|attempts| - 1];
      OnlyTheRestIsRedone(rows, newKey, oldKey, front, id);
      var mid := Attempts(rows, newKey, oldKey, front);
      ActionMeaning(mid[id].value, newKey, oldKey, last.ivs(id));
      assert forall a :: a in attempts <==> a in front || a == last;
    }
  }

  /** After any such attempts, one pass without failures leaves a row opening under the new key to
      its original plaintext exactly if it was readable to begin with; every other row is
      untouched. */
  lemma {:induction false} OneFullPassConverges(rows: Rows, newKey: Key, oldKey: Option<Key>, attempts: seq<Attempt>, full: Attempt, id: Id)
    requires id in Ids(rows) && full.applied >= Ids(rows)
    ensures var rows' := Attempts(rows, newKey, oldKey, attempts + [full]);
            && id in Ids(rows')
            && (Readable(rows[id].value, newKey, oldKey) <==>
                IsEncrypted(rows'[id].value) && TryDecryptWith(rows'[id].value, newKey) == Some(Plain(rows[id].value)))
            && (!Readable(rows[id].value, newKey, oldKey) ==> rows'[id] == rows[id])
  {
    NothingIsLost(rows, newKey, oldKey, attempts);
    NothingIsLost(rows, newKey, oldKey, attempts + [full]);
    assert (attempts + [full])[..|attempts|] == attempts;
    ActionMeaning(Attempts(rows, newKey, oldKey, attempts)[id].value, newKey, oldKey, full.ivs(id));
    hide LooksSealed;
  }

  /** A further pass then updates nothing, unless the old key is the new key: every readable row
      would be sealed afresh each time. */
  lemma {:induction false} FurtherPassesSettle(rows: Rows, newKey: Key, oldKey: Option<Key>, attempts: seq<Attempt>, full: Attempt)
    requires full.applied >= Ids(rows)
    ensures var rows' := Attempts(rows, newKey, oldKey, attempts + [full]);
            && Ids(rows') == Ids(rows)
            && ((forall id :: id in Ids(rows) ==> !NeedsUpdate(rows'[id].value, newKey, oldKey)) <==>
                oldKey != Some(newKey) || forall id :: id in Ids(rows) ==> !Readable(rows[id].value, newKey, oldKey))
  {
    NothingIsLost(rows, newKey, oldKey, attempts + [full]);
    var rows' := Attempts(rows, newKey, oldKey, attempts + [full]);
    forall id | id in Ids(rows)
      ensures NeedsUpdate(rows'[id].value, newKey, oldKey) <==>
              oldKey == Some(newKey) && Readable(rows[id].value, newKey, oldKey)
    {
      OneFullPassConverges(rows, newKey, oldKey, attempts, full, id);
      ActionMeaning(rows[id].value, newKey, oldKey, 0);
    }
    hide LooksSealed, Readable, NeedsUpdate, Pass;
  }

  // ----- the script -----

  /** The progress counters. */
  class Progress {
    var updated: nat
    var skipped: nat
    var failed: nat

    constructor ()
      ensures updated == 0 && skipped == 0 && failed == 0
    {
      updated, skipped, failed := 0, 0, 0;
    }

    method Tick(u: nat, s: nat, f: nat)
      modifies this
      ensures updated == old(updated) + u && skipped == old(skipped) + s && failed == old(failed) + f
    {
      updated, skipped, failed := updated + u, skipped + s, failed + f;
    }
  }

  predicate Past(cursor: Option<Id>, id: Id) { cursor.None? || cursor.value < id }

  predicate Increasing(ids: seq<Id>) { forall i, j :: 0 <= i < j < |ids| ==> ids[i] < ids[j] }

  function Elements(ids: seq<Id>): set<Id> { set id | id in ids }

  /** The rows a pass reached are those up to the cursor. */
  function Reached(rows: Rows, cursor: Option<Id>): set<Id> { set id | id in rows && rows[id].Some? && !Past(cursor, id) }

  /** One invocation on a table: its keys, whether it only counts, the iv each row would draw, and the
      rows whose update statement would fail. */
  datatype Job = Job(newKey: Key, oldKey: Option<Key>, dryRun: bool, ivs: Id -> nat, failing: set<Id>)

  /** Which counter a row lands in. */
  datatype Fate = Updated | Skipped | Failed

  function FateOf(v: Value, id: Id, job: Job): Fate {
    if !NeedsUpdate(v, job.newKey, job.oldKey) then Skipped
    else if !job.dryRun && id in job.failing then Failed
    else Updated
  }

  /** A row is skipped exactly if it needs no update; if it needs one, it counts as failed exactly if its
      update is tried and fails, which never happens when only counting. */
  lemma FateMeaning(v: Value, id: Id, job: Job)
    ensures FateOf(v, id, job) == Skipped <==> ComputeAction(v, job.newKey, job.oldKey, job.ivs(id)).None?
    ensures FateOf(v, id, job) == Failed <==>
              ComputeAction(v, job.newKey, job.oldKey, job.ivs(id)).Some? && !job.dryRun && id in job.failing
  {
    ActionMeaning(v, job.newKey, job.oldKey, job.ivs(id));
    hide ComputeAction, NeedsUpdate;
  }

  function WithFate(rows: Rows, within: set<Id>, fate: Fate, job: Job): set<Id> {
    set id | id in within && id in rows && rows[id].Some? && FateOf(rows[id].value, id, job) == fate
  }

  /** The counters say how many rows of `within` met each fate. */
  predicate Counted(rows: Rows, within: set<Id>, job: Job, updated: nat, skipped: nat, failed: nat) {
    && updated == |WithFate(rows, within, Updated, job)|
    && skipped == |WithFate(rows, within, Skipped, job)|
    && failed == |WithFate(rows, within, Failed, job)|
  }

  /** `rows` is what a single sweep over `within` makes of `begun`. */
  predicate Swept(begun: Rows, rows: Rows, within: set<Id>, job: Job) {
    rows == Pass(begun, job.newKey, job.oldKey, job.ivs, if job.dryRun then {} else within - job.failing)
  }

  lemma FateGrows(rows: Rows, within: set<Id>, id: Id, fate: Fate, job: Job)
    requires Filled(rows, id) && id !in within
    ensures |WithFate(rows, within + {id}, fate, job)| ==
            |WithFate(rows, within, fate, job)| + if FateOf(rows[id].value, id, job) == fate then 1 else 0
  {
    hide FateOf;
    var before, after := WithFate(rows, within, fate, job), WithFate(rows, within + {id}, fate, job);
    assert after == if FateOf(rows[id].value, id, job) == fate then before + {id} else before;
  }

  lemma CountOneMore(rows: Rows, within: set<Id>, id: Id, job: Job, updated: nat, skipped: nat, failed: nat)
    requires Filled(rows, id) && id !in within && Counted(rows, within, job, updated, skipped, failed)
    ensures match FateOf(rows[id].value, id, job)
            case Updated => Counted(rows, within + {id}, job, updated + 1, skipped, failed)
            case Skipped => Counted(rows, within + {id}, job, updated, skipped + 1, failed)
            case Failed => Counted(rows, within + {id}, job, updated, skipped, failed + 1)
  {
    hide FateOf, WithFate;
    FateGrows(rows, within, id, Updated, job);
    FateGrows(rows, within, id, Skipped, job);
    FateGrows(rows, within, id, Failed, job);
  }

  /** Carrying out one more row's decision sweeps one more row. */
  lemma SweepOneMore(begun: Rows, rows: Rows, within: set<Id>, id: Id, job: Job)
    requires Filled(begun, id) && id !in within && Swept(begun, rows, within, job)
    ensures Filled(rows, id) && rows[id] == begun[id]
    ensures Swept(begun,
                  if FateOf(begun[id].value, id, job).Updated? && !job.dryRun
                  then rows[id := ComputeAction(begun[id].value, job.newKey, job.oldKey, job.ivs(id))] else rows,
                  within + {id}, job)
  {
    hide ComputeAction, NeedsUpdate;
  }

  lemma SweepStarts(begun: Rows, job: Job)
    ensures Swept(begun, begun, {}, job) && Counted(begun, {}, job, 0, 0, 0)
  {
  }

  lemma SweptKeepsIds(begun: Rows, rows: Rows, within: set<Id>, job: Job)
    requires Swept(begun, rows, within, job)
    ensures Ids(rows) == Ids(begun)
  {
    PassKeepsIds(begun, job.newKey, job.oldKey, job.ivs, if job.dryRun then {} else within - job.failing);
  }

  lemma {:induction false} CountsAddUp(rows: Rows, job: Job, updated: nat, skipped: nat, failed: nat)
    requires Counted(rows, Ids(rows), job, updated, skipped, failed)
    ensures updated + skipped + failed == |Ids(rows)|
  {
    hide FateOf;
    var u, s, f := WithFate(rows, Ids(rows), Updated, job), WithFate(rows, Ids(rows), Skipped, job),
                   WithFate(rows, Ids(rows), Failed, job);
    forall id ensures id in Ids(rows) <==> id in u + s + f {
      FateIsOne(rows, id, job);
    }
    assert u * s == {} && (u + s) * f == {};
    hide WithFate, Ids;
    assert Ids(rows) == u + s + f;
  }

  lemma FateIsOne(rows: Rows, id: Id, job: Job)
    ensures id in Ids(rows) ==>
              id in WithFate(rows, Ids(rows), if Filled(rows, id) then FateOf(rows[id].value, id, job) else Skipped, job)
  {
    hide FateOf;
  }

  /** What the paginated query returns: the first `limit` filled rows past the cursor, in id order. */
  ghost predicate IsBatch(rows: Rows, cursor: Option<Id>, limit: nat, ids: seq<Id>) {
    && Increasing(ids) && |ids| <= limit
    && (forall id :: id in ids ==> Filled(rows, id) && Past(cursor, id))
    && (forall id, other :: Filled(rows, id) && Past(cursor, id) && id !in ids && other in ids ==> other < id)
    && (|ids| < limit ==> forall id :: Filled(rows, id) && Past(cursor, id) ==> id in ids)
  }

  lemma SameIdsSameBatch(begun: Rows, rows: Rows, cursor: Option<Id>, limit: nat, ids: seq<Id>)
    requires IsBatch(rows, cursor, limit, ids) && Ids(rows) == Ids(begun)
    ensures IsBatch(begun, cursor, limit, ids)
  {
    forall id ensures Filled(rows, id) <==> Filled(begun, id) {
      assert id in Ids(rows) <==> id in Ids(begun);
    }
  }

  /** An empty batch means every row has been reached; any other moves the cursor over exactly its rows. */
  lemma BatchOnward(rows: Rows, cursor: Option<Id>, limit: nat, ids: seq<Id>)
    requires IsBatch(rows, cursor, limit, ids) && limit >= 1
    ensures ids == [] ==> Reached(rows, cursor) == Ids(rows)
    ensures ids != [] ==>
              && Reached(rows, Some(ids[|ids| - 1])) == Reached(rows, cursor) + Elements(ids)
              && Elements(ids) <= Ids(rows) && Reached(rows, cursor) !! Elements(ids)
              && |Ids(rows) - Reached(rows, Some(ids[|ids| - 1]))| < |Ids(rows) - Reached(rows, cursor)|
  {
    if ids != [] {
      var last := ids[|ids| - 1];
      assert last in Elements(ids);
      forall id | id in ids ensures id <= last {
        var i :| 0 <= i < |ids| && ids[i] == id;
      }
      assert Reached(rows, Some(last)) == Reached(rows, cursor) + Elements(ids);
      FewerLeft(Ids(rows), Reached(rows, cursor), Elements(ids), last);
    } else {
      forall id | id in Ids(rows) ensures id in Reached(rows, cursor) {
        assert Filled(rows, id);
      }
    }
  }

  lemma FewerLeft(all: set<Id>, done: set<Id>, more: set<Id>, id: Id)
    requires more <= all && done !! more && id in more
    ensures |all - (done + more)| < |all - done|
  {
    assert all - (done + more) == all - done - more;
    assert id in all - done;
  }

  lemma IncreasingAppend(ids: seq<Id>, more: seq<Id>)
    requires Increasing(ids) && Increasing(more)
    requires forall i, j :: 0 <= i < |ids| && 0 <= j < |more| ==> ids[i] < more[j]
    ensures Increasing(ids + more) && Elements(ids + more) == Elements(ids) + Elements(more)
  {
  }

  lemma NonEmpty(ids: set<Id>)
    ensures ids == {} || exists id :: id in ids
  {
    if forall id :: id !in ids {
      assert ids == {};
    }
  }

  class Table {
    var rows: Rows

    constructor (rows: Rows)
      ensures this.rows == rows
    {
      this.rows := rows;
    }

    method Smallest(ids: set<Id>) returns (least: Id)
      requires |ids| > 0
      ensures least in ids && forall id :: id in ids ==> least <= id
    {
      NonEmpty(ids);
      least :| least in ids;
      var rest := ids - {least};
      while |rest| > 0
        invariant least in ids && rest <= ids
        invariant forall id :: id in ids ==> id in rest || least <= id
        decreases |rest|
      {
        NonEmpty(rest);
        var id :| id in rest;
        if id < least {
          least := id;
        }
        rest := rest - {id};
      }
    }

    method NextBatch(cursor: Option<Id>, limit: nat) returns (ids: seq<Id>)
      ensures IsBatch(rows, cursor, limit, ids)
    {
      var left := set id | id in rows && rows[id].Some? && Past(cursor, id);
      ids := [];
      while |ids| < limit && |left| > 0
        invariant Increasing(ids) && |ids| <= limit
        invariant forall id :: id in left <==> Filled(rows, id) && Past(cursor, id) && id !in ids
        invariant forall id :: id in ids ==> Filled(rows, id) && Past(cursor, id)
        invariant forall id, other :: id in left && other in ids ==> other < id
        decreases |left|
      {
        var next := Smallest(left);
        forall k | 0 <= k < |ids| ensures ids[k] < next {
          assert ids[k] in ids && next in left;
        }
        ids := ids + [next];
        left := left - {next};
      }
    }

    /** Decides on one row and carries the decision out. */
    method ProcessRow(id: Id, job: Job) returns (fate: Fate)
      requires Filled(rows, id)
      modifies this
      ensures fate == FateOf(old(rows)[id].value, id, job)
      ensures rows == if fate.Updated? && !job.dryRun
                      then old(rows)[id := ComputeAction(old(rows)[id].value, job.newKey, job.oldKey, job.ivs(id))]
                      else old(rows)
    {
      var value := rows[id].value;
      var newValue := ComputeAction(value, job.newKey, job.oldKey, job.ivs(id));
      ActionMeaning(value, job.newKey, job.oldKey, job.ivs(id));
      hide ComputeAction, NeedsUpdate;
      if newValue.None? {
        return Skipped;
      }
      if !job.dryRun {
        if id in job.failing {
          return Failed;
        }
        rows := rows[id := newValue];
      }
      fate := Updated;
    }

    /** One batch. Each row's update touches that row alone. */
    method ProcessBatch(ids: seq<Id>, job: Job, progress: Progress, ghost begun: Rows, ghost done: set<Id>)
      requires Increasing(ids) && Elements(ids) <= Ids(begun) && done !! Elements(ids)
      requires Swept(begun, rows, done, job)
      requires Counted(begun, done, job, progress.updated, progress.skipped, progress.failed)
      modifies this, progress
      ensures Swept(begun, rows, done + Elements(ids), job)
      ensures Counted(begun, done + Elements(ids), job, progress.updated, progress.skipped, progress.failed)
    {
      hide ComputeAction, NeedsUpdate, FateOf, Swept, Counted;
      var updated, skipped, failed := 0, 0, 0;
      var i := 0;
      assert done + Elements(ids[..0]) == done;
      while i < |ids|
        invariant 0 <= i <= |ids|
        invariant Swept(begun, rows, done + Elements(ids[..i]), job)
        invariant Counted(begun, done + Elements(ids[..i]), job,
                          progress.updated + updated, progress.skipped + skipped, progress.failed + failed)
        invariant unchanged(progress)
        decreases |ids| - i
      {
        ghost var soFar := done + Elements(ids[..i]);
        var id := ids[i];
        assert id in Elements(ids) && id !in soFar;
        assert done + Elements(ids[..i + 1]) == soFar + {id};
        SweepOneMore(begun, rows, soFar, id, job);
        CountOneMore(begun, soFar, id, job, progress.updated + updated, progress.skipped + skipped, progress.failed + failed);
        var fate := ProcessRow(id, job);
        match fate {
          case Updated => updated := updated + 1;
          case Skipped => skipped := skipped + 1;
          case Failed => failed := failed + 1;
        }
        i := i + 1;
      }
      assert ids[..i] == ids;
      progress.Tick(updated, skipped, failed);
    }

    /** The whole pass. It ends; it examines every filled row exactly once, in id order; its counters
        say how many rows met each fate; and it leaves the rows a single sweep would, whatever the
        batch size. */
    method ProcessTable(job: Job, batchSize: nat) returns (progress: Progress, ghost examined: seq<Id>)
      requires batchSize >= 1
      modifies this
      ensures Increasing(examined) && Elements(examined) == Ids(old(rows))
      ensures Swept(old(rows), rows, Ids(old(rows)), job)
      ensures Counted(old(rows), Ids(old(rows)), job, progress.updated, progress.skipped, progress.failed)
      ensures progress.updated + progress.skipped + progress.failed == |Ids(old(rows))|
    {
      hide Swept, Counted;
      ghost var begun := rows;
      progress := new Progress();
      examined := [];
      var cursor: Option<Id> := None;
      SweepStarts(begun, job);
      assert Increasing(examined) && Elements(examined) == Reached(begun, cursor) == {};
      hide Increasing, Elements, Reached, Ids, IsBatch;
      while true
        invariant fresh(progress)
        invariant Increasing(examined) && Elements(examined) == Reached(begun, cursor)
        invariant Swept(begun, rows, Reached(begun, cursor), job)
        invariant Counted(begun, Reached(begun, cursor), job, progress.updated, progress.skipped, progress.failed)
        decreases |Ids(begun) - Reached(begun, cursor)|
      {
        SweptKeepsIds(begun, rows, Reached(begun, cursor), job);
        var ids := NextBatch(cursor, batchSize);
        SameIdsSameBatch(begun, rows, cursor, batchSize, ids);
        BatchOnward(begun, cursor, batchSize, ids);
        if ids == [] {
          break;
        }
        ExaminedOnward(begun, cursor, batchSize, examined, ids);
        ProcessBatch(ids, job, progress, begun, Reached(begun, cursor));
        examined := examined + ids;
        cursor := Some(ids[|ids| - 1]);
      }
      CountsAddUp(begun, job, progress.updated, progress.skipped, progress.failed);
    }
  }

  lemma ExaminedOnward(rows: Rows, cursor: Option<Id>, limit: nat, examined: seq<Id>, ids: seq<Id>)
    requires Increasing(examined) && Elements(examined) == Reached(rows, cursor) && IsBatch(rows, cursor, limit, ids)
    ensures Increasing(ids) && Increasing(examined + ids)
    ensures Elements(examined + ids) == Reached(rows, cursor) + Elements(ids)
  {
    forall i, j | 0 <= i < |examined| && 0 <= j < |ids| ensures examined[i] < ids[j] {
      assert examined[i] in Elements(examined) && ids[j] in ids;
    }
    IncreasingAppend(examined, ids);
  }
}
