/**
 The table saves fill: rows by primary key, where the first row under a key stays. The
 archive is what Extract makes of each published ledger.
 */
module SavedRows {
  import opened Rows
  import opened Extract
  import opened JsonTree
  import opened Bytes

  type Archive = map<UInt32, seq<Invocation>>

  datatype Key = Key(hash: Hash, closedAt: int)

  type Table = map<Key, Invocation>

  function KeyOf(r: Invocation): Key {
    Key(r.hash, r.closedAt)
  }

  // ---------- what the archive guarantees ----------

  /** Ledger 0 does not exist, a ledger's rows carry its number, and equal keys mean equal rows. */
  ghost predicate ValidArchive(a: Archive) {
    && 0 !in a
    && (forall l, i :: l in a && 0 <= i < |a[l]| ==> a[l][i].ledger == l)
    && (forall l, m, i, j :: l in a && m in a && 0 <= i < |a[l]| && 0 <= j < |a[m]| ==>
          KeyOf(a[l][i]) == KeyOf(a[m][j]) ==> a[l][i] == a[m][j])
  }

  /** One close time a ledger, so rows of one ledger with one hash share a key. */
  ghost predicate OneCloseTime(a: Archive) {
    forall l, i, j :: l in a && 0 <= i < |a[l]| && 0 <= j < |a[l]| ==> a[l][i].closedAt == a[l][j].closedAt
  }

  ghost predicate ExtractedFrom(rows: seq<Invocation>, meta: CloseMeta, l: UInt32) {
    && meta.sequence == l
    && if meta.version == 0 then rows == [] else RecordsAll(rows, meta.processed, meta.sequence, meta.closeTime)
  }

  ghost predicate NoSharedHash(x: CloseMeta, y: CloseMeta) {
    forall i, j :: 0 <= i < |x.processed| && 0 <= j < |y.processed| ==> x.processed[i].hash != y.processed[j].hash
  }

  lemma ExtractedRows(rows: seq<Invocation>, meta: CloseMeta, l: UInt32, i: nat)
    requires ExtractedFrom(rows, meta, l) && i < |rows|
    ensures rows[i].ledger == l && rows[i].closedAt == meta.closeTime
    ensures exists n :: 0 <= n < |meta.processed| && meta.processed[n].hash == rows[i].hash
  {
    RecordsCarryLedger(rows, meta.processed, meta.sequence, meta.closeTime);
  }

  /** The guarantees follow from two facts of the network: ledgers start at 1 and transaction hashes are distinct. */
  lemma ExtractedArchiveIsValid(a: Archive, metas: map<UInt32, CloseMeta>)
    requires 0 !in a && a.Keys == metas.Keys
    requires forall l :: l in a ==> ExtractedFrom(a[l], metas[l], l) && DistinctHashes(metas[l].processed)
    requires forall l, m :: l in a && m in a && l != m ==> NoSharedHash(metas[l], metas[m])
    ensures ValidArchive(a) && OneCloseTime(a)
  {
    forall l, i | l in a && 0 <= i < |a[l]|
      ensures a[l][i].ledger == l && a[l][i].closedAt == metas[l].closeTime
      ensures exists n :: 0 <= n < |metas[l].processed| && metas[l].processed[n].hash == a[l][i].hash
    {
      ExtractedRows(a[l], metas[l], l, i);
    }
    forall l, m, i, j | l in a && m in a && 0 <= i < |a[l]| && 0 <= j < |a[m]|
      ensures KeyOf(a[l][i]) == KeyOf(a[m][j]) ==> a[l][i] == a[m][j]
    {
      if l != m {
        assert NoSharedHash(metas[l], metas[m]);
        HashesDiffer(a[l][i], metas[l], a[m][j], metas[m]);
      } else if i != j {
        OneRecordPerTransaction(a[l], metas[l].processed, metas[l].sequence, metas[l].closeTime);
      }
    }
  }

  lemma HashesDiffer(r: Invocation, x: CloseMeta, s: Invocation, y: CloseMeta)
    requires exists n :: 0 <= n < |x.processed| && x.processed[n].hash == r.hash
    requires exists n :: 0 <= n < |y.processed| && y.processed[n].hash == s.hash
    requires NoSharedHash(x, y)
    ensures r.hash != s.hash
  {
  }

  // ---------- the table ----------

  /** INSERT ... ON CONFLICT DO NOTHING. */
  function Insert(t: Table, r: Invocation): Table {
    if KeyOf(r) in t then t else t[KeyOf(r) := r]
  }

  function InsertAll(t: Table, rows: seq<Invocation>): Table {
    if rows == [] then t else Insert(InsertAll(t, rows[..|rows| - 1]), rows[|rows| - 1])
  }

  /** The ledger column takes no number above its largest, and text and jsonb no U+0000. */
  predicate RowFits(r: Invocation) {
    r.ledger <= MAX_LEDGER && FreeOfNul(r.function_) && TreeFreeOfNul(r.args)
  }

  /** One row that does not fit fails the whole save. */
  predicate FitColumns(rows: seq<Invocation>) {
    forall i :: 0 <= i < |rows| ==> RowFits(rows[i])
  }

  // ---------- checkpoints ----------

  const WORKER := "worker"

  function CheckpointOf(checkpoints: map<string, int>, name: string): int {
    if name in checkpoints then checkpoints[name] else 0
  }

  /** A save moves the worker checkpoint up to its ledger, never back. */
  function Raised(checkpoints: map<string, int>, ledger: UInt32): map<string, int> {
    var last := CheckpointOf(checkpoints, WORKER);
    checkpoints[WORKER := if last > ledger then last else ledger]
  }

  // ---------- rows of the table ----------

  predicate Holds(t: Table, r: Invocation) {
    KeyOf(r) in t && t[KeyOf(r)] == r
  }

  ghost predicate Stored(a: Archive, t: Table, l: int) {
    0 <= l < TWO_32 && l in a && forall i :: 0 <= i < |a[l]| ==> Holds(t, a[l][i])
  }

  /** Every ledger of lo..hi-1 is fully stored. */
  ghost predicate AllStored(a: Archive, t: Table, lo: int, hi: int) {
    forall l :: lo <= l < hi ==> Stored(a, t, l)
  }

  ghost predicate Published(a: Archive, t: Table, k: Key) {
    k in t ==> t[k].ledger in a && t[k] in a[t[k].ledger] && KeyOf(t[k]) == k
  }

  /** The table holds nothing the archive does not. */
  ghost predicate FromArchive(a: Archive, t: Table) {
    forall k {:trigger Published(a, t, k)} :: Published(a, t, k)
  }

  lemma {:induction false} InsertAllGrows(t: Table, rows: seq<Invocation>)
    ensures forall k :: k in t ==> k in InsertAll(t, rows) && InsertAll(t, rows)[k] == t[k]
  {
    if rows == [] {
    } else {
      InsertAllGrows(t, rows[..|rows| - 1]);
    }
  }

  /** What an insert leaves under a key: what was there, or the first new row that has it. */
  lemma {:induction false} InsertAllHas(t: Table, rows: seq<Invocation>)
    ensures forall i :: 0 <= i < |rows| ==> KeyOf(rows[i]) in InsertAll(t, rows)
    ensures forall k :: k in InsertAll(t, rows) ==> k in t || InsertAll(t, rows)[k] in rows
    ensures forall k :: k in InsertAll(t, rows) && k !in t ==> KeyOf(InsertAll(t, rows)[k]) == k
  {
    if rows == [] {
    } else {
      var init := rows[..|rows| - 1];
      InsertAllHas(t, init);
      assert forall i :: 0 <= i < |init| ==> rows[i] == init[i];
    }
  }

  lemma InsertLedger(a: Archive, t: Table, l: UInt32)
    requires ValidArchive(a) && FromArchive(a, t) && l in a
    ensures FromArchive(a, InsertAll(t, a[l])) && Stored(a, InsertAll(t, a[l]), l)
  {
    var u := InsertAll(t, a[l]);
    InsertAllGrows(t, a[l]);
    InsertAllHas(t, a[l]);
    forall k ensures Published(a, u, k) {
      assert Published(a, t, k);
      if k in u && k !in t {
        var i :| 0 <= i < |a[l]| && a[l][i] == u[k];
      }
    }
    forall i | 0 <= i < |a[l]| ensures Holds(u, a[l][i]) {
      var k := KeyOf(a[l][i]);
      assert Published(a, u, k);
      var m := u[k].ledger;
      var j :| 0 <= j < |a[m]| && a[m][j] == u[k];
    }
  }

  lemma {:induction false} InsertAllConcat(t: Table, x: seq<Invocation>, y: seq<Invocation>)
    ensures InsertAll(t, x + y) == InsertAll(InsertAll(t, x), y)
  {
    if y == [] {
      assert x + y == x;
    } else {
      InsertAllConcat(t, x, y[..|y| - 1]);
      assert (x + y)[..|x + y| - 1] == x + y[..|y| - 1];
    }
  }

  // ---------- batches ----------

  function RowsOf(rows: seq<Invocation>): set<Invocation> {
    set r | r in rows
  }

  /** The rows a list of saves brings in, in commit order, each save a batch of any size. */
  function Flat(saves: seq<seq<Invocation>>): seq<Invocation> {
    if saves == [] then [] else Flat(saves[..|saves| - 1]) + saves[|saves| - 1]
  }

  function Commit(t: Table, saves: seq<seq<Invocation>>): Table {
    if saves == [] then t else InsertAll(Commit(t, saves[..|saves| - 1]), saves[|saves| - 1])
  }

  lemma {:induction false} CommitIsFlat(t: Table, saves: seq<seq<Invocation>>)
    ensures Commit(t, saves) == InsertAll(t, Flat(saves))
  {
    if saves == [] {
    } else {
      CommitIsFlat(t, saves[..|saves| - 1]);
      InsertAllConcat(t, Flat(saves[..|saves| - 1]), saves[|saves| - 1]);
    }
  }
}
