/**
 From the archive to the screen: what a client gets by walking a contract's history is
 what the archive holds of it.
 */
module SavedToServed {
  import opened Wrappers
  import opened Bytes
  import opened Rows
  import opened JsonTree
  import opened JsonArgs
  import opened Extract
  import opened Dictionary
  import opened SavedRows
  import Paging
  import Api
  import Ingest
  import Indexer
  import SavesDecode
  import C = ConcurrentSaves
  import S = Store

  /** Contract addresses are texts, one to a contract. */
  ghost predicate Injective(text: Hash -> string) {
    forall x, y :: text(x) == text(y) ==> x == y
  }

  function RowOf(e: Encoded): Row {
    Row(e.contract, e.hash, e.ledger, e.closedAt, e.function_, e.args, e.feeCharged)
  }

  function ContractIds(d: Dict, text: Hash -> string): map<string, int>
    requires Injective(text)
  {
    map w | w in d && w.OfContract? :: text(w.contract) := d[w]
  }

  function FunctionIds(d: Dict): map<string, int> {
    map w | w in d && w.OfFunction? :: w.name := d[w]
  }

  function RowsIn(t: C.Table): set<Row> {
    set k | k in t :: RowOf(t[k].encoded)
  }

  /** The tables as the history endpoint queries them. */
  function Tables(db: S.Database, text: Hash -> string): Paging.Db
    requires Injective(text)
  {
    Paging.Db(RowsIn(db.table), ContractIds(db.committed, text), FunctionIds(db.committed))
  }

  /** One call as the endpoint serves it. */
  datatype Served = Served(hash: Hash, ledger: int, closedAt: int, function_: string, args: Json, feeCharged: int)

  function ServedAs(r: Invocation, args: Json): Served {
    Served(r.hash, r.ledger, r.closedAt, r.function_, args, r.feeCharged)
  }

  /** The call is one the query asks for. */
  predicate AskedFor(q: Paging.Query, text: Hash -> string, r: Invocation) {
    && text(r.contract) == q.contract && (q.function_ == "" || q.function_ == r.function_)
    && (q.from == 0 || q.from <= r.closedAt) && (q.to == 0 || r.closedAt <= q.to)
  }

  /** Newest first, and within a ledger by descending hash. */
  ghost predicate InOrder(shown: seq<Served>) {
    forall i, j :: 0 <= i < j < |shown| ==>
      || shown[i].ledger > shown[j].ledger
      || (shown[i].ledger == shown[j].ledger && Unsigned(shown[i].hash) > Unsigned(shown[j].hash))
  }

  // ---------- the stored rows, as queried ----------

  /** A store whose table holds nothing but the archive's rows. */
  ghost predicate Faithful(a: Archive, d: Dict, t: C.Table) {
    && ValidArchive(a) && OneCloseTime(a) && OneWordAnId(d) && SavesDecode.TableKept(d, t)
    && FromArchive(a, SavesDecode.Originals(t))
    && forall k :: k in t ==> t[k].original.ledger <= MAX_LEDGER
  }

  lemma StoredRow(a: Archive, d: Dict, t: C.Table, k: Key)
    requires Faithful(a, d, t) && k in t
    ensures var r, e := t[k].original, t[k].encoded;
            && k == KeyOf(r) && 1 <= r.ledger <= MAX_LEDGER && r.ledger in a && r in a[r.ledger]
            && OfContract(r.contract) in d && OfFunction(r.function_) in d
            && e == Encode(r, d) && e.contract == d[OfContract(r.contract)] && e.function_ == d[OfFunction(r.function_)]
            && FunctionsOf(d)[e.function_] == r.function_
  {
    var r := t[k].original;
    assert Published(a, SavesDecode.Originals(t), k);
    assert OfContract(r.contract) in RowWords(r) && OfFunction(r.function_) in RowWords(r);
    FunctionUndoes(d, r.function_);
  }

  /** The stored row behind a queried one. */
  ghost predicate Behind(t: C.Table, k: Key, row: Row) {
    k in t && row == RowOf(t[k].encoded)
  }

  ghost predicate HasCall(t: C.Table, row: Row) {
    exists k :: Behind(t, k, row)
  }

  lemma QueriedRow(a: Archive, d: Dict, t: C.Table, k: Key, row: Row)
    requires Faithful(a, d, t) && Behind(t, k, row)
    ensures k == Key(row.hash, row.closedAt) && 1 <= row.ledger <= MAX_LEDGER
    ensures row.ledger in a && exists i :: 0 <= i < |a[row.ledger]| && a[row.ledger][i].closedAt == row.closedAt
  {
    StoredRow(a, d, t, k);
    var i :| 0 <= i < |a[row.ledger]| && a[row.ledger][i] == t[k].original;
  }

  lemma QueriedRowsAgree(a: Archive, d: Dict, t: C.Table, k: Key, l: Key, r: Row, s: Row)
    requires Faithful(a, d, t) && Behind(t, k, r) && Behind(t, l, s)
    ensures r.hash == s.hash && r.closedAt == s.closedAt ==> r == s
    ensures r.ledger == s.ledger ==> r.closedAt == s.closedAt
  {
    QueriedRow(a, d, t, k, r);
    QueriedRow(a, d, t, l, s);
  }

  lemma TablesAreValid(a: Archive, db: S.Database, text: Hash -> string)
    requires Faithful(a, db.committed, db.table) && Injective(text)
    ensures Paging.ValidDb(Tables(db, text))
  {
    RowsHaveKeys(db.table);
    RowsAreValid(a, db.committed, db.table, RowsIn(db.table));
  }

  lemma RowsHaveKeys(t: C.Table)
    ensures forall r :: r in RowsIn(t) <==> HasCall(t, r)
  {
    forall r | r in RowsIn(t) ensures HasCall(t, r) {
      var k :| k in t && r == RowOf(t[k].encoded);
      assert Behind(t, k, r);
    }
  }

  lemma RowsAreValid(a: Archive, d: Dict, t: C.Table, rows: set<Row>)
    requires Faithful(a, d, t) && forall r :: r in rows ==> HasCall(t, r)
    ensures ValidTable(rows)
  {
    forall r | r in rows ensures 1 <= r.ledger <= MAX_LEDGER {
      var k :| Behind(t, k, r);
      QueriedRow(a, d, t, k, r);
    }
    forall r, s | r in rows && s in rows
      ensures r.hash == s.hash && r.closedAt == s.closedAt ==> r == s
      ensures r.ledger == s.ledger ==> r.closedAt == s.closedAt
    {
      var k, l :| Behind(t, k, r) && Behind(t, l, s);
      QueriedRowsAgree(a, d, t, k, l, r, s);
    }
  }

  /** What the query selects, in the tables' own terms. */
  predicate Selected(contracts: map<string, int>, functions: map<string, int>, q: Paging.Query, r: Row) {
    && q.contract in contracts && r.contract == contracts[q.contract]
    && (q.function_ == "" || (q.function_ in functions && r.function_ == functions[q.function_]))
    && (q.from == 0 || q.from <= r.closedAt) && (q.to == 0 || r.closedAt <= q.to)
  }

  lemma ContractByText(d: Dict, text: Hash -> string, s: string, c: Hash)
    requires Injective(text) && OneWordAnId(d) && OfContract(c) in d
    ensures (s in ContractIds(d, text) && ContractIds(d, text)[s] == d[OfContract(c)]) <==> s == text(c)
  {
    var contracts := ContractIds(d, text);
    assert OfContract(c).OfContract? && OfContract(c).contract == c;
    if s in contracts {
      var w :| w in d && w.OfContract? && text(w.contract) == s;
      assert contracts[text(w.contract)] == d[w];
    }
  }

  lemma FunctionByName(d: Dict, f: string, name: string)
    requires OneWordAnId(d) && OfFunction(name) in d
    ensures (f in FunctionIds(d) && FunctionIds(d)[f] == d[OfFunction(name)]) <==> f == name
  {
    var functions := FunctionIds(d);
    assert OfFunction(name).OfFunction? && OfFunction(name).name == name;
    if f in functions {
      var w :| w in d && w.OfFunction? && w.name == f;
      assert functions[w.name] == d[w];
    }
  }

  /** Asking by id is asking by name. */
  lemma SelectedIsAskedFor(d: Dict, text: Hash -> string, q: Paging.Query, r: Invocation, row: Row)
    requires Injective(text) && OneWordAnId(d) && OfContract(r.contract) in d && OfFunction(r.function_) in d
    requires row.contract == d[OfContract(r.contract)] && row.function_ == d[OfFunction(r.function_)]
    requires row.closedAt == r.closedAt
    ensures Selected(ContractIds(d, text), FunctionIds(d), q, row) <==> AskedFor(q, text, r)
  {
    ContractByText(d, text, q.contract, r.contract);
    FunctionByName(d, q.function_, r.function_);
  }

  // ---------- serving ----------

  /** The arguments a stored row comes back with. */
  lemma ArgsComeBack(d: Dict, r: Invocation)
    requires OneWordAnId(d) && RowWords(r) <= d.Keys
    ensures Encode(r, d).args == None <==> r.args.Null?
    ensures Encode(r, d).args.Some? ==>
              && !Encode(r, d).args.value.Null?
              && Resolved(Encode(r, d).args.value, AddressesOf(d)) == Resolved(r.args, AddressesOf(d))
  {
    forall x | x in Addresses(r.args) ensures OfAddress(x) in d { assert OfAddress(x) in RowWords(r); }
    AddressesUndo(d, Addresses(r.args));
    RewritingIsInvisible(r.args, AddressIds(d), AddressesOf(d));
  }

  /** The call a row was stored for, with what is shown of its arguments. */
  function ShownOf(d: Dict, r: Invocation): Served
    requires OneWordAnId(d)
  {
    ServedAs(r, Resolved(r.args, AddressesOf(d)))
  }

  function ServedRow(d: Dict, row: Row, args: Option<Json>): Served
    requires OneWordAnId(d) && row.function_ in FunctionsOf(d)
  {
    Served(row.hash, row.ledger, row.closedAt, FunctionsOf(d)[row.function_],
           if args.None? then Null else args.value, row.feeCharged)
  }

  lemma RowIsServed(a: Archive, d: Dict, t: C.Table, k: Key, row: Row, args: Option<Json>)
    requires Faithful(a, d, t) && Behind(t, k, row)
    requires row.args == None ==> args == None
    requires row.args.Some? && !row.args.value.Null? ==> args == Some(Resolved(row.args.value, AddressesOf(d)))
    ensures row.function_ in FunctionsOf(d) && ServedRow(d, row, args) == ShownOf(d, t[k].original)
  {
    StoredRow(a, d, t, k);
    FunctionUndoes(d, t[k].original.function_);
    ArgsComeBack(d, t[k].original);
  }

  /** The rows of the walk are those behind which a call stands that was asked for. */
  lemma WalkIsAskedFor(a: Archive, db: S.Database, text: Hash -> string, q: Paging.Query, all: seq<Row>, k: Key)
    requires Faithful(a, db.committed, db.table) && Injective(text) && k in db.table
    requires forall r :: r in all <==>
               r in RowsIn(db.table) && Selected(ContractIds(db.committed, text), FunctionIds(db.committed), q, r)
    ensures RowOf(db.table[k].encoded) in all <==> AskedFor(q, text, db.table[k].original)
  {
    StoredRow(a, db.committed, db.table, k);
    SelectedIsAskedFor(db.committed, text, q, db.table[k].original, RowOf(db.table[k].encoded));
  }

  /** A call that is stored and was asked for. */
  ghost predicate Serves(t: C.Table, q: Paging.Query, text: Hash -> string, k: Key) {
    k in t && AskedFor(q, text, t[k].original)
  }

  /** Each row of a walk beside what is served of it. */
  ghost predicate ServedAll(d: Dict, t: C.Table, all: seq<Row>, shown: seq<Served>)
    requires OneWordAnId(d)
  {
    && |shown| == |all|
    && (forall i :: 0 <= i < |all| ==> shown[i].ledger == all[i].ledger && shown[i].hash == all[i].hash)
    && (forall i :: 0 <= i < |all| ==> HasCall(t, all[i]))
    && forall i, k :: 0 <= i < |all| && Behind(t, k, all[i]) ==> shown[i] == ShownOf(d, t[k].original)
  }

  lemma WalkShows(d: Dict, t: C.Table, q: Paging.Query, text: Hash -> string, all: seq<Row>, shown: seq<Served>)
    requires OneWordAnId(d) && ServedAll(d, t, all, shown)
    requires forall k :: k in t ==> (RowOf(t[k].encoded) in all <==> AskedFor(q, text, t[k].original))
    ensures forall k :: Serves(t, q, text, k) ==> ShownOf(d, t[k].original) in shown
    ensures forall x :: x in shown ==> exists k :: Serves(t, q, text, k) && x == ShownOf(d, t[k].original)
  {
    forall k | Serves(t, q, text, k) ensures ShownOf(d, t[k].original) in shown {
      var i :| 0 <= i < |all| && all[i] == RowOf(t[k].encoded);
      assert Behind(t, k, all[i]);
      assert shown[i] in shown;
    }
    forall x | x in shown ensures exists k :: Serves(t, q, text, k) && x == ShownOf(d, t[k].original) {
      var i :| 0 <= i < |shown| && shown[i] == x;
      var k :| Behind(t, k, all[i]);
      assert all[i] in all && Serves(t, q, text, k);
    }
  }

  lemma NamesAreKnown(a: Archive, d: Dict, t: C.Table, all: seq<Row>)
    requires Faithful(a, d, t) && forall r :: r in all ==> r in RowsIn(t)
    ensures forall i :: 0 <= i < |all| ==> all[i].function_ in FunctionsOf(d)
  {
    RowsHaveKeys(t);
    forall i | 0 <= i < |all| ensures all[i].function_ in FunctionsOf(d) {
      assert all[i] in all;
      var k :| Behind(t, k, all[i]);
      StoredRow(a, d, t, k);
      FunctionUndoes(d, t[k].original.function_);
    }
  }

  /** Every row of a walk, with its arguments expanded, is served as the call it was stored for. */
  lemma WalkIsServed(a: Archive, d: Dict, t: C.Table, all: seq<Row>, args: seq<Option<Json>>, shown: seq<Served>)
    requires Faithful(a, d, t) && |args| == |all| == |shown| && forall r :: r in all ==> r in RowsIn(t)
    requires forall i :: 0 <= i < |all| && all[i].args == None ==> args[i] == None
    requires forall i :: 0 <= i < |all| && all[i].args.Some? && !all[i].args.value.Null? ==>
               args[i] == Some(Resolved(all[i].args.value, AddressesOf(d)))
    requires forall i :: 0 <= i < |all| ==>
               all[i].function_ in FunctionsOf(d) && shown[i] == ServedRow(d, all[i], args[i])
    ensures ServedAll(d, t, all, shown)
  {
    RowsHaveKeys(t);
    forall i, k | 0 <= i < |all| && Behind(t, k, all[i]) ensures shown[i] == ShownOf(d, t[k].original) {
      RowIsServed(a, d, t, k, all[i], args[i]);
    }
    forall i | 0 <= i < |all| ensures HasCall(t, all[i]) { assert all[i] in all; }
  }

  /** Every page of a history, one after the other. */
  method Walk(ghost a: Archive, db: S.Database, text: Hash -> string, q: Paging.Query) returns (all: seq<Row>)
    requires Faithful(a, db.committed, db.table) && Injective(text) && Api.QueryAcceptable(q)
    ensures forall r :: r in all <==>
              r in RowsIn(db.table) && Selected(ContractIds(db.committed, text), FunctionIds(db.committed), q, r)
    ensures forall i, j :: 0 <= i < j < |all| ==>
              || all[i].ledger > all[j].ledger
              || (all[i].ledger == all[j].ledger && Unsigned(all[i].hash) > Unsigned(all[j].hash))
  {
    TablesAreValid(a, db, text);
    var scans;
    all, scans := Api.FollowWholeHistory(Tables(db, text), q);
  }

  /** The arguments of the rows, with their addresses. */
  method Expanded(all: seq<Row>, addrs: map<Int32, string>) returns (args: seq<Option<Json>>)
    ensures |args| == |all|
    ensures forall i :: 0 <= i < |all| && all[i].args == None ==> args[i] == None
    ensures forall i :: 0 <= i < |all| && all[i].args.Some? && !all[i].args.value.Null? ==>
              args[i] == Some(Resolved(all[i].args.value, addrs))
  {
    args := ExpandArgs(seq(|all|, i requires 0 <= i < |all| => all[i].args), addrs);
  }

  /**
   Walks the history a query asks for and puts the addresses and the names back: exactly
   the stored calls asked for, newest first.
   */
  method ShowHistory(ghost a: Archive, db: S.Database, text: Hash -> string, q: Paging.Query)
      returns (shown: seq<Served>)
    requires Faithful(a, db.committed, db.table) && Injective(text) && Api.QueryAcceptable(q)
    ensures InOrder(shown)
    ensures forall k :: Serves(db.table, q, text, k) ==> ShownOf(db.committed, db.table[k].original) in shown
    ensures forall x :: x in shown ==>
              exists k :: Serves(db.table, q, text, k) && x == ShownOf(db.committed, db.table[k].original)
  {
    var all := Walk(a, db, text, q);
    var args := Expanded(all, AddressesOf(db.committed));
    NamesAreKnown(a, db.committed, db.table, all);
    shown := seq(|all|, i requires 0 <= i < |all| => ServedRow(db.committed, all[i], args[i]));
    WalkIsServed(a, db.committed, db.table, all, args, shown);
    forall k | k in db.table ensures RowOf(db.table[k].encoded) in all <==> AskedFor(q, text, db.table[k].original) {
      WalkIsAskedFor(a, db, text, q, all, k);
    }
    WalkShows(db.committed, db.table, q, text, all, shown);
  }

  // ---------- a store that was filled from an archive ----------

  lemma {:induction false} StoredAreCommitted(t: SavedRows.Table, commits: seq<seq<Invocation>>, k: Key)
    requires t == Commit(map[], commits) && k in t
    ensures t[k] in Flat(commits)
  {
    CommitIsFlat(map[], commits);
    InsertAllHas(map[], Flat(commits));
  }

  lemma StoredRowsFit(t: SavedRows.Table, commits: seq<seq<Invocation>>, k: Key)
    requires t == Commit(map[], commits) && FitColumns(Flat(commits)) && k in t
    ensures t[k].ledger <= MAX_LEDGER
  {
    StoredAreCommitted(t, commits, k);
    var i :| 0 <= i < |Flat(commits)| && Flat(commits)[i] == t[k];
  }

  /** What a store keeps at all times, and what the loops keep, make it faithful to its archive. */
  lemma StoreIsFaithful(a: Archive, db: S.Database, cache: Dict, commits: seq<seq<Invocation>>)
    requires ValidArchive(a) && OneCloseTime(a) && S.Sound(db.committed, cache, db.next, db.table, commits)
    requires FromArchive(a, SavesDecode.Originals(db.table))
    ensures Faithful(a, db.committed, db.table)
  {
    S.SoundMeans(db.committed, cache, db.next, db.table, commits);
    RecordedIsFaithful(a, db.committed, db.table, commits);
  }

  lemma RecordedIsFaithful(a: Archive, d: Dict, t: C.Table, commits: seq<seq<Invocation>>)
    requires ValidArchive(a) && OneCloseTime(a) && OneWordAnId(d) && SavesDecode.Recorded(d, t, commits)
    requires FromArchive(a, SavesDecode.Originals(t))
    ensures Faithful(a, d, t)
  {
    forall k | k in t ensures t[k].original.ledger <= MAX_LEDGER {
      StoredRowsFit(SavesDecode.Originals(t), commits, k);
    }
  }

  /** The archive holds this call. */
  ghost predicate Holds(a: Archive, l: UInt32, i: nat) {
    l in a && i < |a[l]|
  }

  /** Nothing in the archive's arguments looks like a placeholder. */
  ghost predicate AllPlain(a: Archive) {
    forall l: UInt32, i: nat :: Holds(a, l, i) ==> Plain(a[l][i].args)
  }

  /** The archive's call l, i is asked for, and this is how it is served: as it is. */
  ghost predicate IsCall(a: Archive, q: Paging.Query, text: Hash -> string, l: UInt32, i: nat, x: Served) {
    Holds(a, l, i) && AskedFor(q, text, a[l][i]) && x == ServedAs(a[l][i], a[l][i].args)
  }

  /** The calls of the archive that the query asks for, and nothing else. */
  ghost predicate ServesArchive(a: Archive, q: Paging.Query, text: Hash -> string, shown: seq<Served>) {
    && InOrder(shown)
    && forall x :: x in shown <==> exists l: UInt32, i: nat :: IsCall(a, q, text, l, i, x)
  }

  lemma CallIsShown(a: Archive, d: Dict, t: C.Table, q: Paging.Query,
                    text: Hash -> string, l: UInt32, i: nat, x: Served)
    requires Faithful(a, d, t) && AllPlain(a) && Stored(a, SavesDecode.Originals(t), l) && IsCall(a, q, text, l, i, x)
    ensures Serves(t, q, text, KeyOf(a[l][i])) && x == ShownOf(d, t[KeyOf(a[l][i])].original)
  {
    assert SavedRows.Holds(SavesDecode.Originals(t), a[l][i]);
    OnlyLookalikesChange(a[l][i].args, AddressesOf(d));
  }

  lemma ShownIsCall(a: Archive, d: Dict, t: C.Table, q: Paging.Query, text: Hash -> string, k: Key, x: Served)
    requires Faithful(a, d, t) && AllPlain(a) && Serves(t, q, text, k) && x == ShownOf(d, t[k].original)
    ensures exists l: UInt32, i: nat :: IsCall(a, q, text, l, i, x)
  {
    StoredRow(a, d, t, k);
    var r := t[k].original;
    var i: nat :| i < |a[r.ledger]| && a[r.ledger][i] == r;
    assert Holds(a, r.ledger, i);
    OnlyLookalikesChange(r.args, AddressesOf(d));
    assert IsCall(a, q, text, r.ledger, i, x);
  }

  lemma ShownIsArchive(a: Archive, d: Dict, t: C.Table, q: Paging.Query,
                       text: Hash -> string, lo: int, hi: int, shown: seq<Served>)
    requires Faithful(a, d, t) && AllPlain(a) && InOrder(shown)
    requires AllStored(a, SavesDecode.Originals(t), lo, hi) && forall l :: l in a ==> lo <= l < hi
    requires forall k :: Serves(t, q, text, k) ==> ShownOf(d, t[k].original) in shown
    requires forall x :: x in shown ==> exists k :: Serves(t, q, text, k) && x == ShownOf(d, t[k].original)
    ensures ServesArchive(a, q, text, shown)
  {
    forall x ensures x in shown <==> exists l: UInt32, i: nat :: IsCall(a, q, text, l, i, x) {
      if l: UInt32, i: nat :| IsCall(a, q, text, l, i, x) {
        assert Stored(a, SavesDecode.Originals(t), l);
        CallIsShown(a, d, t, q, text, l, i, x);
      }
      if x in shown {
        var k :| Serves(t, q, text, k) && x == ShownOf(d, t[k].original);
        ShownIsCall(a, d, t, q, text, k, x);
      }
    }
  }

  lemma EmptyIsKept(a: Archive, known: set<Word>)
    ensures Ingest.Kept(a, Ingest.State(map[], map[], map[], map[0 := known], map[]))
  {
    var s := Ingest.State(map[], map[], map[], map[0 := known], map[]);
    forall start: nat, end: nat ensures Ingest.RangeKept(a, s, start, end) { }
  }

  /** A backfill leaves nothing in the table that the archive does not hold. */
  lemma BackfillIsFromArchive(a: Archive, s: Ingest.State, start: UInt32, end: UInt32, concurrency: nat,
                              weather: seq<Indexer.Luck>)
    requires ValidArchive(a) && Ingest.Kept(a, s)
    ensures var filled := Indexer.Filled(a, s, start, end, concurrency, weather);
            FromArchive(a, Ingest.Apply(a, filled, Ingest.Stop(0)).table)
  {
    Indexer.FilledKeeps(a, s, start, end, concurrency, weather);
    Ingest.StepKeeps(a, Indexer.Filled(a, s, start, end, concurrency, weather), Ingest.Stop(0));
  }

  /**
   The whole way: an empty store is filled from an archive, whatever fails meanwhile, and a
   client walks a contract's history, whatever the pages. If the backfill completed, the
   client gets the archive's calls that it asked for, newest first, each as it was published.
   */
  method IndexAndServe(a: Archive, start: UInt32, end: UInt32, concurrency: nat, weather: seq<Indexer.Luck>,
                       text: Hash -> string, q: Paging.Query)
      returns (outcome: Indexer.Outcome, shown: seq<Served>)
    requires ValidArchive(a) && OneCloseTime(a) && AllPlain(a) && (forall l :: l in a ==> start <= l <= end)
    requires 0 < start <= end && 1 <= concurrency <= Ingest.MAX_CONCURRENCY
    requires Injective(text) && Api.QueryAcceptable(q)
    ensures !outcome.AlreadyComplete?
    ensures outcome.Complete? ==> ServesArchive(a, q, text, shown)
  {
    var st := new S.Store();
    EmptyIsKept(a, st.cache.Keys);
    ghost var s := Indexer.View(st, map[]);
    BackfillIsFromArchive(a, s, start, end, concurrency, weather);
    outcome := Indexer.Backfill(a, st, start, end, concurrency, weather);
    StoreIsFaithful(a, st.db, st.cache, st.commits);
    shown := ShowHistory(a, st.db, text, q);
    if outcome.Complete? {
      ShownIsArchive(a, st.db.committed, st.db.table, q, text, start, end + 1, shown);
    }
  }
}
