/**
 Whether the way saves were ordered, batched, retried or interleaved can be seen in the
 table they leave, as a reader decodes it.
 */
module SaveHistories {
  import opened Wrappers
  import opened Bytes
  import opened Rows
  import opened JsonTree
  import opened Extract
  import opened JsonArgs
  import opened Dictionary
  import opened Ids
  import opened Sequences
  import opened ConcurrentSaves
  import opened SavesDecode
  import opened SaveRuns
  import SavedRows

  // ---------- what can be stored at all ----------

  function WordsIn(rows: set<Invocation>): set<Word> {
    set r, w | r in rows && w in RowWords(r) :: w
  }

  /** Every row fits its columns, and every dictionary has an id for each of its words. */
  ghost predicate Storable(rows: set<Invocation>) {
    && (forall r :: r in rows ==> SavedRows.RowFits(r))
    && forall kind :: |Only(WordsIn(rows), kind)| <= Last(kind)
  }

  ghost predicate Brings(run: seq<Event>, rows: set<Invocation>) {
    SavedRows.RowsOf(SavedRows.Flat(Execute(run).commits)) == rows
  }

  lemma {:induction false} FewIds(d: Dict, words: set<Word>, kind: Kind, n: nat)
    requires OneWordAnId(d) && words <= d.Keys
    requires forall w :: w in words ==> KindOf(w) == kind && d[w] <= n
    ensures |words| <= n
    decreases n
  {
    if words == {} {
    } else {
      var some :| some in words;
      assert 0 < d[some] <= n;
      if w :| w in words && d[w] == n {
        FewIds(d, words - {w}, kind, n - 1);
      } else {
        FewIds(d, words, kind, n - 1);
      }
    }
  }

  lemma WordsOfRows(s: seq<Invocation>, rows: set<Invocation>)
    requires SavedRows.RowsOf(s) == rows
    ensures WordsOf(s) == WordsIn(rows)
  {
    forall w | w in WordsOf(s) ensures w in WordsIn(rows) {
      var i :| 0 <= i < |s| && w in RowWords(s[i]);
      assert s[i] in SavedRows.RowsOf(s);
    }
    forall w | w in WordsIn(rows) ensures w in WordsOf(s) {
      var r :| r in rows && w in RowWords(r);
      assert r in SavedRows.RowsOf(s);
      var i :| 0 <= i < |s| && s[i] == r;
    }
  }

  /** What no save can store, no run has committed. */
  lemma OnlyStorableRows(run: seq<Event>, rows: set<Invocation>)
    requires Brings(run, rows)
    ensures Storable(rows)
  {
    RunKeeps(run);
    RunRecords(run);
    var s := Execute(run);
    WordsOfRows(SavedRows.Flat(s.commits), rows);
    forall r | r in rows ensures SavedRows.RowFits(r) { assert r in SavedRows.RowsOf(SavedRows.Flat(s.commits)); }
    forall kind ensures |Only(WordsIn(rows), kind)| <= Last(kind) {
      IdsAreInColumn(s.committed, s.next, kind);
      FewIds(s.committed, Only(WordsIn(rows), kind), kind, Last(kind));
    }
  }

  lemma IdsAreInColumn(d: Dict, next: map<Kind, nat>, kind: Kind)
    requires Counting(next) && Issued(d, next)
    ensures forall w :: w in d && KindOf(w) == kind ==> d[w] <= Last(kind)
  {
    assert NextIn(next, kind) <= Last(kind) + 1;
  }

  // ---------- the claim ----------

  ghost function Reading(run: seq<Event>): map<SavedRows.Key, Option<Invocation>> {
    RunKeeps(run);
    Displayed(Execute(run).committed, Execute(run).table)
  }

  ghost predicate HistoryIsIrrelevant(rows: set<Invocation>) {
    forall p, q :: Brings(p, rows) && Brings(q, rows) ==> Reading(p) == Reading(q)
  }

  /** Rows under one key look the same to a reader. */
  ghost predicate AgreeAsRead(rows: set<Invocation>) {
    forall r, s :: r in rows && s in rows && SavedRows.KeyOf(r) == SavedRows.KeyOf(s) ==>
        Read(r, map[]) == Read(s, map[])
  }

  ghost predicate HasLookalike(rows: set<Invocation>) {
    exists r, n :: r in rows && n > 0 && n in PlaceholderIds(r.args)
  }

  ghost predicate HasAddress(rows: set<Invocation>) {
    exists r :: r in rows && Addresses(r.args) != {}
  }

  // ---------- when history cannot be seen ----------

  lemma NoAddressNoWord(rows: set<Invocation>, w: Word)
    requires w in WordsIn(rows) && !HasAddress(rows)
    ensures !w.OfAddress?
  {
    var r :| r in rows && w in RowWords(r);
    assert Addresses(r.args) == {};
  }

  lemma NoAddressNoEntry(rows: set<Invocation>, d: Dict)
    requires OneWordAnId(d) && d.Keys == WordsIn(rows) && !HasAddress(rows)
    ensures AddressesOf(d) == map[]
  {
    forall w | w in d ensures !w.OfAddress? { NoAddressNoWord(rows, w); }
  }

  /** Without both a lookalike and an address, every dictionary reads a row as the empty one does. */
  lemma ReadsAlike(rows: set<Invocation>, d: Dict, r: Invocation)
    requires OneWordAnId(d) && d.Keys == WordsIn(rows) && r in rows && !(HasLookalike(rows) && HasAddress(rows))
    ensures Read(r, AddressesOf(d)) == Read(r, map[])
  {
    if HasAddress(rows) {
      forall id | id in PlaceholderIds(r.args) ensures AddressOf(AddressesOf(d), id) == AddressOf(map[], id) {
        assert id <= 0;
        assert id !in AddressesOf(d);
      }
      OnlyTheseMatter(r.args, AddressesOf(d), map[]);
    } else {
      NoAddressNoEntry(rows, d);
    }
  }

  lemma KeysOfTable(s: seq<Invocation>, rows: set<Invocation>, k: SavedRows.Key)
    requires SavedRows.RowsOf(s) == rows
    ensures var t := SavedRows.InsertAll(map[], s);
            && (k in t <==> exists r :: r in rows && SavedRows.KeyOf(r) == k)
            && (k in t ==> t[k] in rows && SavedRows.KeyOf(t[k]) == k)
  {
    SavedRows.InsertAllHas(map[], s);
    var t := SavedRows.InsertAll(map[], s);
    if r :| r in rows && SavedRows.KeyOf(r) == k {
      assert r in SavedRows.RowsOf(s);
      var i :| 0 <= i < |s| && s[i] == r;
    }
    if k in t { assert t[k] in SavedRows.RowsOf(s); }
  }

  lemma ReadingIs(run: seq<Event>, rows: set<Invocation>)
    requires Brings(run, rows)
    ensures var d := Execute(run).committed;
            && OneWordAnId(d) && d.Keys == WordsIn(rows)
            && Reading(run) == ReadAll(SavedRows.InsertAll(map[], SavedRows.Flat(Execute(run).commits)), AddressesOf(d))
  {
    RunRecords(run);
    TableShowsFirstCommitted(run);
    WordsOfRows(SavedRows.Flat(Execute(run).commits), rows);
    SavedRows.CommitIsFlat(map[], Execute(run).commits);
  }

  lemma SameReads(x: seq<Invocation>, y: seq<Invocation>, rows: set<Invocation>, d: Dict, e: Dict, k: SavedRows.Key)
    requires SavedRows.RowsOf(x) == rows && SavedRows.RowsOf(y) == rows
    requires OneWordAnId(d) && OneWordAnId(e) && d.Keys == WordsIn(rows) && e.Keys == WordsIn(rows)
    requires AgreeAsRead(rows) && !(HasLookalike(rows) && HasAddress(rows))
    ensures var t, u := SavedRows.InsertAll(map[], x), SavedRows.InsertAll(map[], y);
            && (k in t <==> k in u)
            && (k in t ==> Read(t[k], AddressesOf(d)) == Read(u[k], AddressesOf(e)))
  {
    var t, u := SavedRows.InsertAll(map[], x), SavedRows.InsertAll(map[], y);
    KeysOfTable(x, rows, k);
    KeysOfTable(y, rows, k);
    if k in t {
      ReadsAlike(rows, d, t[k]);
      ReadsAlike(rows, e, u[k]);
    }
  }

  lemma SameTables(t: SavedRows.Table, u: SavedRows.Table, addrs: map<Int32, string>, addrs': map<Int32, string>)
    requires forall k :: (k in t <==> k in u) && (k in t ==> Read(t[k], addrs) == Read(u[k], addrs'))
    ensures ReadAll(t, addrs) == ReadAll(u, addrs')
  {
    assert t.Keys == u.Keys;
  }

  lemma SameReading(p: seq<Event>, q: seq<Event>, rows: set<Invocation>)
    requires Brings(p, rows) && Brings(q, rows) && AgreeAsRead(rows) && !(HasLookalike(rows) && HasAddress(rows))
    ensures Reading(p) == Reading(q)
  {
    var x, y := SavedRows.Flat(Execute(p).commits), SavedRows.Flat(Execute(q).commits);
    var d, e := Execute(p).committed, Execute(q).committed;
    ReadingIs(p, rows);
    ReadingIs(q, rows);
    var t, u := SavedRows.InsertAll(map[], x), SavedRows.InsertAll(map[], y);
    var addrs, addrs' := AddressesOf(d), AddressesOf(e);
    forall k ensures (k in t <==> k in u) && (k in t ==> Read(t[k], addrs) == Read(u[k], addrs')) {
      SameReads(x, y, rows, d, e, k);
    }
    SameTables(t, u, addrs, addrs');
  }

  // ---------- any address can be given any id ----------

  lemma {:induction false} Enumerated(s: set<Word>) returns (words: seq<Word>)
    ensures Distinct(words) && Words(words) == s
    decreases |s|
  {
    words := [];
    if s == {} {
    } else {
      var w :| w in s;
      var rest := Enumerated(s - {w});
      words := rest + [w];
      assert words[..|rest|] == rest;
      assert w !in Words(rest);
      OneMoreWord(words);
    }
  }

  lemma OnlyOneMore(words: set<Word>, w: Word, kind: Kind)
    requires w !in words
    ensures |Only(words + {w}, kind)| == |Only(words, kind)| + if KindOf(w) == kind then 1 else 0
  {
    if KindOf(w) == kind {
      assert Only(words + {w}, kind) == Only(words, kind) + {w};
    } else {
      assert Only(words + {w}, kind) == Only(words, kind);
    }
  }

  lemma {:induction false} CountIs(words: seq<Word>, kind: Kind)
    requires Distinct(words)
    ensures Count(words, kind) == |Only(Words(words), kind)|
  {
    if words == [] {
      assert Only(Words(words), kind) == {};
    } else {
      var init, last := words[..|words| - 1], words[|words| - 1];
      CountIs(init, kind);
      OneMoreWord(words);
      assert last !in Words(init);
      OnlyOneMore(Words(init), last, kind);
    }
  }

  lemma {:induction false} SubsetOfSize(s: set<Word>, n: nat) returns (part: set<Word>)
    requires n <= |s|
    ensures part <= s && |part| == n
  {
    part := {};
    if n == 0 {
    } else {
      part := SubsetOfSize(s, n - 1);
      assert |s - part| > 0;
      var w :| w in s - part;
      part := part + {w};
    }
  }

  lemma JoinedOnce(a: seq<Word>, w: Word, b: seq<Word>)
    requires Distinct(a) && Distinct(b) && Words(a) !! Words(b) && w !in Words(a) && w !in Words(b)
    ensures Distinct(a + [w] + b) && Words(a + [w] + b) == Words(a) + {w} + Words(b)
  {
    var all := a + [w] + b;
    forall i, j | 0 <= i < j < |all| ensures all[i] != all[j] {
      if i < |a| && j > |a| { assert a[i] in Words(a) && b[j - |a| - 1] in Words(b); }
    }
    forall v ensures v in Words(all) <==> v in Words(a) + {w} + Words(b) {
      if v in Words(a) { var i :| 0 <= i < |a| && a[i] == v; assert all[i] == v; }
      if v in Words(b) { var i :| 0 <= i < |b| && b[i] == v; assert all[|a| + 1 + i] == v; }
      if v == w { assert all[|a|] == v; }
    }
  }

  /** An order that puts an address behind so many others. */
  lemma Ordered(words: set<Word>, x: Word, before: nat) returns (order: seq<Word>, i: nat)
    requires x in words && x.OfAddress? && before < |Only(words, Addressees)|
    ensures Distinct(order) && Words(order) == words
    ensures i < |order| && order[i] == x && Count(order[..i], Addressees) == before
  {
    var first, rest := Parted(words, x, before);
    var a := Enumerated(first);
    var b := Enumerated(rest);
    order, i := a + [x] + b, |a|;
    JoinedOnce(a, x, b);
    PlaceOf(a, x, b);
    AddressesFirst(a, first);
  }

  /** So many of the other addresses, and everything else. */
  lemma Parted(words: set<Word>, x: Word, before: nat) returns (first: set<Word>, rest: set<Word>)
    requires x in words && x.OfAddress? && before < |Only(words, Addressees)|
    ensures |first| == before && forall w :: w in first ==> w.OfAddress?
    ensures first !! rest && x !in first && x !in rest && first + {x} + rest == words
  {
    var others := Only(words, Addressees) - {x};
    assert x in Only(words, Addressees);
    first := SubsetOfSize(others, before);
    rest := words - first - {x};
  }

  lemma PlaceOf(a: seq<Word>, x: Word, b: seq<Word>)
    ensures var order := a + [x] + b; order[|a|] == x && order[..|a|] == a
  {
  }

  lemma AddressesFirst(a: seq<Word>, words: set<Word>)
    requires Distinct(a) && Words(a) == words && forall w :: w in words ==> w.OfAddress?
    ensures Count(a, Addressees) == |words|
  {
    CountIs(a, Addressees);
    assert Only(words, Addressees) == words;
  }

  lemma RoomForAll(rows: set<Invocation>, order: seq<Word>, skipped: nat)
    requires Storable(rows) && Distinct(order) && Words(order) == WordsIn(rows)
    requires skipped + |Only(WordsIn(rows), Addressees)| <= Last(Addressees)
    ensures Room(Skipped(skipped), order)
  {
    forall kind ensures NextIn(Skipped(skipped), kind) + Count(order, kind) <= Last(kind) + 1 { CountIs(order, kind); }
  }

  /** One save can give an address the id behind any number of wasted and of other ids. */
  lemma Placed(rows: set<Invocation>, list: seq<Invocation>, x: Word, skipped: nat, before: nat)
      returns (run: seq<Event>)
    requires Storable(rows) && SavedRows.RowsOf(list) == rows && x in WordsIn(rows) && x.OfAddress?
    requires before < |Only(WordsIn(rows), Addressees)| <= Last(Addressees) - skipped
    ensures Execute(run).commits == [list]
    ensures x in Execute(run).committed && Execute(run).committed[x] == skipped + before + 1
  {
    WordsOfRows(list, rows);
    var order, i := Ordered(WordsIn(rows), x, before);
    RoomForAll(rows, order, skipped);
    FitsColumns(list, rows);
    AssignedIs(Skipped(skipped), order, i);
    run := Reaches(skipped, x, list, order);
  }

  lemma FitsColumns(list: seq<Invocation>, rows: set<Invocation>)
    requires Storable(rows) && SavedRows.RowsOf(list) == rows
    ensures SavedRows.FitColumns(list)
  {
    forall i | 0 <= i < |list| ensures SavedRows.RowFits(list[i]) { assert list[i] in SavedRows.RowsOf(list); }
  }

  /** An order of the words, and what is wasted before, that gives an address this id; and one that does not. */
  lemma Steered(rows: set<Invocation>, list: seq<Invocation>, x: Word, id: Int32) returns (p: seq<Event>, q: seq<Event>)
    requires Storable(rows) && SavedRows.RowsOf(list) == rows && x in WordsIn(rows) && x.OfAddress? && id > 0
    ensures Execute(p).commits == [list] && Execute(q).commits == [list]
    ensures x in Execute(p).committed && Execute(p).committed[x] == id
    ensures x in Execute(q).committed && Execute(q).committed[x] != id
  {
    var many := |Only(WordsIn(rows), Addressees)|;
    assert x in Only(WordsIn(rows), Addressees);
    var skipped := if id <= many then 0 else id - many;
    var before := if id <= many then id - 1 else many - 1;
    p := Placed(rows, list, x, skipped, before);
    if many > 1 {
      q := Placed(rows, list, x, skipped, if before == 0 then 1 else 0);
    } else {
      q := Placed(rows, list, x, if id == 1 then 1 else 0, 0);
    }
  }

  lemma LooksUpOneOnly(d: Dict, e: Dict, a: string, id: Int32)
    requires OneWordAnId(d) && OneWordAnId(e) && a != ""
    requires OfAddress(a) in d && OfAddress(a) in e && d[OfAddress(a)] == id && e[OfAddress(a)] != id
    ensures AddressOf(AddressesOf(d), id) == a && AddressOf(AddressesOf(e), id) != a
  {
    AddressUndoes(d, a);
  }

  // ---------- when history can be seen ----------

  lemma {:induction false} Listed(rows: set<Invocation>) returns (list: seq<Invocation>)
    ensures SavedRows.RowsOf(list) == rows
    decreases |rows|
  {
    list := [];
    if rows == {} {
    } else {
      var r :| r in rows;
      var rest := Listed(rows - {r});
      list := [r] + rest;
      assert SavedRows.RowsOf(list) == {r} + SavedRows.RowsOf(rest);
    }
  }

  lemma FirstStays(r: Invocation, rest: seq<Invocation>)
    ensures var t := SavedRows.InsertAll(map[], [r] + rest);
            SavedRows.KeyOf(r) in t && t[SavedRows.KeyOf(r)] == r
  {
    SavedRows.InsertAllConcat(map[], [r], rest);
    assert [r][..0] == [];
    SavedRows.InsertAllGrows(SavedRows.InsertAll(map[], [r]), rest);
  }

  lemma BringsItsList(run: seq<Event>, list: seq<Invocation>)
    requires Execute(run).commits == [list]
    ensures SavedRows.Flat(Execute(run).commits) == list
  {
    assert [list][..0] == [] && SavedRows.Flat([list]) == [] + list;
  }

  lemma ReadsOne(t: SavedRows.Table, addrs: map<Int32, string>, k: SavedRows.Key)
    requires k in t
    ensures k in ReadAll(t, addrs) && ReadAll(t, addrs)[k] == Some(Read(t[k], addrs))
  {
  }

  /** A run of one save shows the first row of its list. */
  lemma ShowsTheFirst(run: seq<Event>, r: Invocation, rest: seq<Invocation>, rows: set<Invocation>)
    requires Execute(run).commits == [[r] + rest] && r in rows && SavedRows.RowsOf(rest) == rows
    ensures Brings(run, rows) && OneWordAnId(Execute(run).committed)
    ensures SavedRows.KeyOf(r) in Reading(run)
    ensures Reading(run)[SavedRows.KeyOf(r)] == Some(Read(r, AddressesOf(Execute(run).committed)))
  {
    BringsItsList(run, [r] + rest);
    assert SavedRows.RowsOf([r] + rest) == {r} + SavedRows.RowsOf(rest);
    ReadingIs(run, rows);
    FirstStays(r, rest);
    var addrs := AddressesOf(Execute(run).committed);
    ReadsOne(SavedRows.InsertAll(map[], [r] + rest), addrs, SavedRows.KeyOf(r));
  }

  lemma AnyRun(rows: set<Invocation>, list: seq<Invocation>) returns (run: seq<Event>)
    requires Storable(rows) && SavedRows.RowsOf(list) == rows
    ensures Execute(run).commits == [list]
  {
    WordsOfRows(list, rows);
    var order := Enumerated(WordsIn(rows));
    RoomForAll(rows, order, 0);
    FitsColumns(list, rows);
    run := Reaches(0, OfAddress(""), list, order);
  }

  /** A lookalike shows whichever address happened to get its id. */
  lemma LookalikeTellsHistory(rows: set<Invocation>)
    requires Storable(rows) && HasLookalike(rows) && HasAddress(rows)
    ensures !HistoryIsIrrelevant(rows)
  {
    var r, id :| r in rows && id > 0 && id in PlaceholderIds(r.args);
    var a := SomeAddress(rows);
    var rest := Listed(rows);
    assert SavedRows.RowsOf([r] + rest) == {r} + SavedRows.RowsOf(rest);
    var p, q := Steered(rows, [r] + rest, OfAddress(a), id);
    ShowsTheFirst(p, r, rest, rows);
    ShowsTheFirst(q, r, rest, rows);
    LooksUpOneOnly(Execute(p).committed, Execute(q).committed, a, id);
    EachMatters(r.args, id, AddressesOf(Execute(p).committed), AddressesOf(Execute(q).committed));
    assert Brings(p, rows) && Brings(q, rows) && Reading(p) != Reading(q);
  }

  lemma SomeAddress(rows: set<Invocation>) returns (a: string)
    requires HasAddress(rows)
    ensures OfAddress(a) in WordsIn(rows) && a != ""
  {
    var r :| r in rows && Addresses(r.args) != {};
    a :| a in Addresses(r.args);
    assert OfAddress(a) in RowWords(r);
    AddressesAreLong(r.args, a);
  }

  lemma {:induction false} AddressesAreLong(v: Json, a: string)
    requires a in Addresses(v)
    ensures IsAddress(a)
  {
    match v
    case Array(items) =>
      var i :| 0 <= i < |items| && a in Addresses(items[i]);
      AddressesAreLong(items[i], a);
    case Object(fields) =>
      var k :| k in fields && a in Addresses(fields[k]);
      AddressesAreLong(fields[k], a);
    case _ =>
  }

  /** Of two rows under one key, the one saved first is shown. */
  lemma ConflictTellsHistory(rows: set<Invocation>)
    requires Storable(rows) && !AgreeAsRead(rows) && !(HasLookalike(rows) && HasAddress(rows))
    ensures !HistoryIsIrrelevant(rows)
  {
    var r, s :| r in rows && s in rows && SavedRows.KeyOf(r) == SavedRows.KeyOf(s) && Read(r, map[]) != Read(s, map[]);
    var rest := Listed(rows);
    assert SavedRows.RowsOf([r] + rest) == {r} + SavedRows.RowsOf(rest);
    assert SavedRows.RowsOf([s] + rest) == {s} + SavedRows.RowsOf(rest);
    var p := AnyRun(rows, [r] + rest);
    var q := AnyRun(rows, [s] + rest);
    ShowsTheFirst(p, r, rest, rows);
    ShowsTheFirst(q, s, rest, rows);
    ReadingIs(p, rows);
    ReadingIs(q, rows);
    ReadsAlike(rows, Execute(p).committed, r);
    ReadsAlike(rows, Execute(q).committed, s);
    assert Brings(p, rows) && Brings(q, rows) && Reading(p) != Reading(q);
  }

  /**
   Replaying, reordering, re-batching or interleaving the saves of a set of rows never
   shows in the table a reader sees, exactly when either the rows cannot all be stored, or
   rows with one key read alike and no lookalike of a positive id stands beside an address.
   */
  lemma HistoryIsIrrelevantExactly(rows: set<Invocation>)
    ensures HistoryIsIrrelevant(rows) <==>
            !Storable(rows) || (AgreeAsRead(rows) && !(HasLookalike(rows) && HasAddress(rows)))
  {
    if !Storable(rows) {
      forall p ensures !Brings(p, rows) {
        if Brings(p, rows) { OnlyStorableRows(p, rows); }
      }
    } else if HasLookalike(rows) && HasAddress(rows) {
      LookalikeTellsHistory(rows);
    } else if AgreeAsRead(rows) {
      forall p, q | Brings(p, rows) && Brings(q, rows) ensures Reading(p) == Reading(q) { SameReading(p, q, rows); }
    } else {
      ConflictTellsHistory(rows);
    }
  }

  // ---------- where it matters, and where it does not ----------

  lemma {:induction false} PlainHasNoPlaceholder(v: Json)
    requires Plain(v)
    ensures PlaceholderIds(v) == {}
  {
    match v
    case Array(items) =>
      forall i | 0 <= i < |items| ensures PlaceholderIds(items[i]) == {} { PlainHasNoPlaceholder(items[i]); }
    case Object(fields) =>
      forall k | k in fields ensures PlaceholderIds(fields[k]) == {} { PlainHasNoPlaceholder(fields[k]); }
    case _ =>
  }

  /** Rows whose key determines them, and whose arguments hold no lookalike, leave one table however they are saved. */
  lemma PlainRowsLeaveOneTable(rows: set<Invocation>)
    requires forall r, s :: r in rows && s in rows && SavedRows.KeyOf(r) == SavedRows.KeyOf(s) ==> r == s
    requires forall r :: r in rows ==> Plain(r.args)
    ensures HistoryIsIrrelevant(rows)
  {
    forall r | r in rows ensures PlaceholderIds(r.args) == {} { PlainHasNoPlaceholder(r.args); }
    HistoryIsIrrelevantExactly(rows);
  }

  /** Of what the archive publishes, only a lookalike of a positive id beside an address lets history show. */
  lemma ArchivedRowsExactly(a: SavedRows.Archive, rows: set<Invocation>)
    requires SavedRows.ValidArchive(a)
    requires forall r :: r in rows ==> r.ledger in a && r in a[r.ledger]
    ensures HistoryIsIrrelevant(rows) <==> !Storable(rows) || !(HasLookalike(rows) && HasAddress(rows))
  {
    forall r, s | r in rows && s in rows && SavedRows.KeyOf(r) == SavedRows.KeyOf(s) ensures r == s {
      var i :| 0 <= i < |a[r.ledger]| && a[r.ledger][i] == r;
      var j :| 0 <= j < |a[s.ledger]| && a[s.ledger][j] == s;
      assert SavedRows.KeyOf(a[r.ledger][i]) == SavedRows.KeyOf(a[s.ledger][j]);
    }
    HistoryIsIrrelevantExactly(rows);
  }

  /** Some history shows any of the rows' addresses where a lookalike of a positive id stands. */
  lemma AnyAddressCanShow(rows: set<Invocation>, r: Invocation, id: Int32, a: string) returns (run: seq<Event>)
    requires Storable(rows) && r in rows && id > 0 && OfAddress(a) in WordsIn(rows)
    ensures Brings(run, rows) && OneWordAnId(Execute(run).committed)
    ensures AddressOf(AddressesOf(Execute(run).committed), id) == a
    ensures SavedRows.KeyOf(r) in Reading(run)
    ensures Reading(run)[SavedRows.KeyOf(r)] == Some(Read(r, AddressesOf(Execute(run).committed)))
  {
    var rest := Listed(rows);
    assert SavedRows.RowsOf([r] + rest) == {r} + SavedRows.RowsOf(rest);
    var q;
    run, q := Steered(rows, [r] + rest, OfAddress(a), id);
    ShowsTheFirst(run, r, rest, rows);
    AddressUndoes(Execute(run).committed, a);
  }

  lemma FewWords(rows: set<Invocation>, words: set<Word>)
    requires forall r :: r in rows ==> SavedRows.RowFits(r) && RowWords(r) <= words
    requires |words| <= 0x7FFF
    ensures Storable(rows)
  {
    forall kind ensures |Only(WordsIn(rows), kind)| <= Last(kind) { SubsetSize(Only(WordsIn(rows), kind), words); }
  }

  /** An account text of one repeated character. */
  function Account(c: char): string {
    seq(56, i => if i == 0 then 'G' else c)
  }

  function HashOf(n: Byte): Hash {
    seq(32, _ => n)
  }

  function Sample(n: Byte, args: Json): Invocation {
    Invocation(HashOf(0), HashOf(n), 1, 0, "f", Array([args]), 0)
  }

  function SampleWords(): set<Word> {
    {OfContract(HashOf(0)), OfFunction("f"), OfAddress(Account('A')), OfAddress(Account('B'))}
  }

  lemma OneArgument(v: Json)
    ensures Addresses(Array([v])) == Addresses(v)
  {
    assert [v][0] == v;
  }

  lemma SampleFits(n: Byte, v: Json)
    requires TreeFreeOfNul(v)
    ensures SavedRows.RowFits(Sample(n, v))
  {
    assert [v][0] == v && FreeOfNul("f");
  }

  lemma AccountSample(n: Byte, c: char)
    requires c == 'A' || c == 'B'
    ensures RowWords(Sample(n, Text(Account(c)))) <= SampleWords() && SavedRows.RowFits(Sample(n, Text(Account(c))))
    ensures OfAddress(Account(c)) in RowWords(Sample(n, Text(Account(c))))
  {
    assert IsAddress(Account(c));
    AddressFreeOfNul(Account(c));
    SampleFits(n, Text(Account(c)));
    OneArgument(Text(Account(c)));
    assert Addresses(Sample(n, Text(Account(c))).args) == {Account(c)};
  }

  lemma LookalikeSample(n: Byte, id: Int32)
    ensures RowWords(Sample(n, Placeholder(id))) <= SampleWords() && SavedRows.RowFits(Sample(n, Placeholder(id)))
  {
    SampleFits(n, Placeholder(id));
    PlaceholderReads(id);
    LookalikeHasNoAddress(Placeholder(id).fields);
    OneArgument(Placeholder(id));
    assert Addresses(Sample(n, Placeholder(id)).args) == {};
  }

  lemma SampleReads(n: Byte, id: Int32, addrs: map<Int32, string>)
    ensures Read(Sample(n, Placeholder(id)), addrs) == Sample(n, Text(AddressOf(addrs, id)))
  {
    PlaceholderReads(id);
    assert Resolved(Array([Placeholder(id)]), addrs).items == [Text(AddressOf(addrs, id))];
  }

  /** Three rows of different transactions: two name an account, the third holds {"$a": 1}. */
  ghost predicate Samples(x: Invocation, y: Invocation, z: Invocation) {
    x == Sample(1, Text(Account('A'))) && y == Sample(2, Text(Account('B'))) && z == Sample(3, Placeholder(1))
  }

  lemma ThreeRows(x: Invocation, y: Invocation, z: Invocation, words: set<Word>)
    requires RowWords(x) <= words && RowWords(y) <= words && RowWords(z) <= words && |words| <= 0x7FFF
    requires SavedRows.RowFits(x) && SavedRows.RowFits(y) && SavedRows.RowFits(z)
    ensures Storable({x, y, z}) && RowWords(x) <= WordsIn({x, y, z}) && RowWords(y) <= WordsIn({x, y, z})
  {
    FewWords({x, y, z}, words);
    assert x in {x, y, z} && y in {x, y, z};
  }

  lemma FourWords()
    ensures |SampleWords()| <= 0x7FFF
  {
    var c, f, a, b := OfContract(HashOf(0)), OfFunction("f"), OfAddress(Account('A')), OfAddress(Account('B'));
    assert SampleWords() == {c} + {f} + {a} + {b};
  }

  lemma SamplesAreStorable(x: Invocation, y: Invocation, z: Invocation)
    requires Samples(x, y, z)
    ensures Storable({x, y, z})
    ensures OfAddress(Account('A')) in WordsIn({x, y, z}) && OfAddress(Account('B')) in WordsIn({x, y, z})
  {
    AccountSample(1, 'A');
    AccountSample(2, 'B');
    LookalikeSample(3, 1);
    FourWords();
    ThreeRows(x, y, z, SampleWords());
  }

  /** The same three rows, saved in two orders: the third shows whichever account was saved first. */
  lemma LookalikeShowsTheFirstAccount(x: Invocation, y: Invocation, z: Invocation)
      returns (p: seq<Event>, q: seq<Event>)
    requires Samples(x, y, z)
    ensures x.hash != y.hash && y.hash != z.hash && z.hash != x.hash
    ensures Brings(p, {x, y, z}) && Brings(q, {x, y, z})
    ensures SavedRows.KeyOf(z) in Reading(p) && SavedRows.KeyOf(z) in Reading(q)
    ensures Reading(p)[SavedRows.KeyOf(z)] == Some(Sample(3, Text(Account('A'))))
    ensures Reading(q)[SavedRows.KeyOf(z)] == Some(Sample(3, Text(Account('B'))))
  {
    assert HashOf(1)[0] != HashOf(2)[0] && HashOf(2)[0] != HashOf(3)[0] && HashOf(3)[0] != HashOf(1)[0];
    SamplesAreStorable(x, y, z);
    p := AnyAddressCanShow({x, y, z}, z, 1, Account('A'));
    q := AnyAddressCanShow({x, y, z}, z, 1, Account('B'));
    SampleReads(3, 1, AddressesOf(Execute(p).committed));
    SampleReads(3, 1, AddressesOf(Execute(q).committed));
  }
}
