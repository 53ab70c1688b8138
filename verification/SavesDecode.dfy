/** What caches, dictionaries and stored rows may be trusted for, in every interleaving of saves. */
module SavesDecode {
  import opened Wrappers
  import opened Extract
  import opened JsonArgs
  import opened Dictionary
  import opened ConcurrentSaves
  import SavedRows

  /** In every interleaving the cache knows only committed ids, so a rollback leaves no phantom behind. */
  lemma CacheIsCommitted(run: seq<Event>, w: Word)
    ensures var s := Execute(run); w in s.cache ==> w in s.committed && s.cache[w] == s.committed[w] > 0
  {
    RunKeeps(run);
  }

  // ---------- rows under a growing dictionary ----------

  ghost predicate TableKept(d: Dict, t: Table) {
    forall k :: k in t ==>
      && SavedRows.KeyOf(t[k].original) == k
      && RowWords(t[k].original) <= d.Keys
      && t[k].encoded == Encode(t[k].original, d)
  }

  function Originals(t: Table): SavedRows.Table {
    map k | k in t :: t[k].original
  }

  lemma GrowthKeepsTable(d: Dict, d': Dict, t: Table)
    requires TableKept(d, t) && Within(d, d')
    ensures TableKept(d', t)
  {
    forall k | k in t ensures RowWords(t[k].original) <= d'.Keys && t[k].encoded == Encode(t[k].original, d') {
      EncodingReadsOnlyItsWords(t[k].original, d, d');
    }
  }

  lemma WriteKeeps(d: Dict, t: Table, r: Invocation)
    requires TableKept(d, t) && RowWords(r) <= d.Keys
    ensures TableKept(d, Write(t, r, d))
  {
  }

  lemma {:induction false} WriteAllKeeps(d: Dict, t: Table, rows: seq<Invocation>)
    requires TableKept(d, t) && WordsOf(rows) <= d.Keys
    ensures TableKept(d, WriteAll(t, rows, d))
  {
    if rows == [] {
    } else {
      var init := rows[..|rows| - 1];
      WordsOfConcat(init, [rows[|rows| - 1]]);
      assert init + [rows[|rows| - 1]] == rows;
      WriteAllKeeps(d, t, init);
      RowWordsWithin(rows, |rows| - 1);
      WriteKeeps(d, WriteAll(t, init, d), rows[|rows| - 1]);
    }
  }

  /** The table with its ids taken away is the table of saved rows. */
  lemma {:induction false} WriteAllInserts(t: Table, rows: seq<Invocation>, ids: Dict)
    ensures Originals(WriteAll(t, rows, ids)) == SavedRows.InsertAll(Originals(t), rows)
  {
    if rows == [] {
    } else {
      WriteAllInserts(t, rows[..|rows| - 1], ids);
      WriteInserts(WriteAll(t, rows[..|rows| - 1], ids), rows[|rows| - 1], ids);
    }
  }

  lemma WriteInserts(t: Table, r: Invocation, ids: Dict)
    ensures Originals(Write(t, r, ids)) == SavedRows.Insert(Originals(t), r)
  {
  }

  lemma {:induction false} WritesAlike(t: Table, rows: seq<Invocation>, x: Dict, y: Dict)
    requires forall w :: w in WordsOf(rows) ==> w in x && w in y && x[w] == y[w]
    ensures WriteAll(t, rows, x) == WriteAll(t, rows, y)
  {
    if rows == [] {
    } else {
      var init, last := rows[..|rows| - 1], rows[|rows| - 1];
      WordsOfConcat(init, [last]);
      assert init + [last] == rows;
      WritesAlike(t, init, x, y);
      RowWordsWithin(rows, |rows| - 1);
      EncodingReadsOnlyItsWords(last, x, y);
    }
  }

  // ---------- what a run has recorded ----------

  ghost predicate WordsAreWanted(saves: map<nat, Save>) {
    forall id :: id in saves ==> saves[id].wanted == WordsOf(saves[id].rows) && saves[id].own.Keys <= saves[id].wanted
  }

  /** The dictionary has the committed rows' words, and the table the rows that came first. */
  ghost predicate Recorded(d: Dict, t: Table, commits: seq<seq<Invocation>>) {
    && TableKept(d, t)
    && d.Keys == WordsOf(SavedRows.Flat(commits))
    && Originals(t) == SavedRows.Commit(map[], commits)
    && SavedRows.FitColumns(SavedRows.Flat(commits))
  }

  lemma FlatOneMore(commits: seq<seq<Invocation>>, rows: seq<Invocation>)
    ensures SavedRows.Flat(commits + [rows]) == SavedRows.Flat(commits) + rows
    ensures SavedRows.Commit(map[], commits + [rows]) == SavedRows.InsertAll(SavedRows.Commit(map[], commits), rows)
  {
    assert (commits + [rows])[..|commits|] == commits;
  }

  /** The ids a save gathered are those of the dictionary it commits, for every word of its rows. */
  lemma GatheredIds(d: Dict, c: Save)
    requires SaveKept(d, c) && c.selected == ALL_KINDS && Apart(c.own, d) && c.wanted == WordsOf(c.rows)
    ensures forall w :: w in WordsOf(c.rows) ==>
              w in c.known + c.resolved && w in d + c.own && (c.known + c.resolved)[w] == (d + c.own)[w]
  {
    forall w | w in WordsOf(c.rows)
      ensures w in c.known + c.resolved && w in d + c.own && (c.known + c.resolved)[w] == (d + c.own)[w]
    {
      NoLookupFails(d, c, w);
    }
  }

  /** The rows of a save and the words it added keep the record. */
  lemma SaveRecords(d: Dict, own: Dict, t: Table, commits: seq<seq<Invocation>>, rows: seq<Invocation>)
    requires Recorded(d, t, commits) && Within(d, d + own) && SavedRows.FitColumns(rows)
    requires own.Keys <= WordsOf(rows) <= (d + own).Keys
    ensures Recorded(d + own, WriteAll(t, rows, d + own), commits + [rows])
    ensures (d + own).Keys == d.Keys + WordsOf(rows)
  {
    GrowthKeepsTable(d, d + own, t);
    WriteAllKeeps(d + own, t, rows);
    WriteAllInserts(t, rows, d + own);
    FlatOneMore(commits, rows);
    WordsOfConcat(SavedRows.Flat(commits), rows);
  }

  lemma CommitRecords(d: Dict, t: Table, commits: seq<seq<Invocation>>, c: Save)
    requires Recorded(d, t, commits) && SaveKept(d, c) && c.selected == ALL_KINDS && SavedRows.FitColumns(c.rows)
    requires Apart(c.own, d) && Within(d, d + c.own)
    requires c.wanted == WordsOf(c.rows) && c.own.Keys <= c.wanted
    ensures Recorded(d + c.own, WriteAll(t, c.rows, c.known + c.resolved), commits + [c.rows])
  {
    GatheredIds(d, c);
    WritesAlike(t, c.rows, c.known + c.resolved, d + c.own);
    SaveRecords(d, c.own, t, commits, c.rows);
  }

  lemma OnlyCommitsStore(s: State, e: Event)
    requires !(e.Commit? && Enabled(s, e))
    ensures Apply(s, e).committed == s.committed && Apply(s, e).table == s.table && Apply(s, e).commits == s.commits
  {
  }

  lemma ChangeKeepsWanted(saves: map<nat, Save>, id: nat, c: Save)
    requires WordsAreWanted(saves)
    requires c.own.Keys <= c.wanted
    requires c.wanted == WordsOf(c.rows) || (id in saves && c.wanted == saves[id].wanted && c.rows == saves[id].rows)
    ensures WordsAreWanted(saves[id := c])
  {
  }

  lemma LeavingKeepsWanted(saves: map<nat, Save>, id: nat)
    requires WordsAreWanted(saves)
    ensures WordsAreWanted(saves - {id})
  {
  }

  lemma StepKeepsWanted(s: State, e: Event)
    requires WordsAreWanted(s.saves) && Enabled(s, e)
    ensures WordsAreWanted(Apply(s, e).saves)
  {
    match e
    case Begin(id, rows) => ChangeKeepsWanted(s.saves, id, Fresh(rows));
    case Snapshot(id, kind, hits) =>
      var c := s.saves[id];
      ChangeKeepsWanted(s.saves, id, c.(snapped := c.snapped + {kind}, known := c.known + Cached(s, hits)));
    case Insert(id, w) =>
      if w in s.committed {
        ChangeKeepsWanted(s.saves, id, AfterSkip(s, id, w).saves[id]);
      } else {
        ChangeKeepsWanted(s.saves, id, AfterInsert(s, id, w).saves[id]);
      }
    case Select(id, kind) =>
      var c := s.saves[id];
      ChangeKeepsWanted(s.saves, id, c.(selected := c.selected + {kind}, resolved := c.resolved + Visible(s, c, kind)));
    case Commit(id) => ChangeKeepsWanted(s.saves, id, AfterCommit(s, id).saves[id]);
    case Rollback(id) => LeavingKeepsWanted(s.saves, id);
    case Merge(id) => LeavingKeepsWanted(s.saves, id);
  }

  lemma CommitStepRecords(s: State, id: nat)
    requires Kept(s) && Recorded(s.committed, s.table, s.commits) && WordsAreWanted(s.saves) && Enabled(s, Commit(id))
    ensures var t := AfterCommit(s, id); Recorded(t.committed, t.table, t.commits)
  {
    var c := s.saves[id];
    assert Owns(s.saves)[id] == c.own && OwnKept(s.committed, s.next, Owns(s.saves)[id]);
    UnionKept(s.committed, s.next, c.own);
    assert SaveKept(s.committed, c);
    CommitRecords(s.committed, s.table, s.commits, c);
  }

  lemma NothingRecorded()
    ensures Recorded(map[], map[], []) && WordsAreWanted(map[])
  {
  }

  /** In every interleaving the dictionary and the table are those of the saves committed so far. */
  lemma {:induction false} RunRecords(run: seq<Event>)
    ensures var s := Execute(run); Recorded(s.committed, s.table, s.commits) && WordsAreWanted(s.saves)
  {
    if run == [] {
      NothingRecorded();
    } else {
      var s, e := Execute(run[..|run| - 1]), run[|run| - 1];
      RunRecords(run[..|run| - 1]);
      if Enabled(s, e) { StepKeepsWanted(s, e); }
      if e.Commit? && Enabled(s, e) {
        RunKeeps(run[..|run| - 1]);
        CommitStepRecords(s, e.id);
      } else {
        OnlyCommitsStore(s, e);
      }
    }
  }

  /**
   In every interleaving of saves that commit or roll back, each stored row has positive
   ids and decodes to the row it was made from, unless its arguments held a lookalike.
   */
  lemma StoredRowsDecode(run: seq<Event>, k: SavedRows.Key)
    requires k in Execute(run).table
    ensures var s := Execute(run);
            var p := s.table[k];
            && p.encoded.contract > 0 && p.encoded.function_ > 0
            && OneWordAnId(s.committed)
            && (Decode(p.encoded, s.committed) == Some(p.original) <==> Plain(p.original.args))
  {
    RunKeeps(run);
    RunRecords(run);
    var s := Execute(run);
    assert OfContract(s.table[k].original.contract) in RowWords(s.table[k].original);
    DecodeUndoesEncode(s.table[k].original, s.committed);
  }

  /** What the table shows a reader: each row as the committed dictionary decodes it. */
  ghost function Displayed(d: Dict, t: Table): map<SavedRows.Key, Option<Invocation>>
    requires OneWordAnId(d)
  {
    map k | k in t :: Decode(t[k].encoded, d)
  }

  ghost function ReadAll(t: SavedRows.Table, addrs: map<Int32, string>): map<SavedRows.Key, Option<Invocation>> {
    map k | k in t :: Some(Read(t[k], addrs))
  }

  lemma ShowsOne(d: Dict, t: Table, k: SavedRows.Key)
    requires OneWordAnId(d) && TableKept(d, t) && k in t
    ensures Decode(t[k].encoded, d) == Some(Read(t[k].original, AddressesOf(d)))
  {
    DecodeReads(t[k].original, d);
  }

  lemma ReadsByKey(t: Table, addrs: map<Int32, string>, shown: map<SavedRows.Key, Option<Invocation>>)
    requires shown.Keys == t.Keys && forall k :: k in t ==> shown[k] == Some(Read(t[k].original, addrs))
    ensures shown == ReadAll(Originals(t), addrs)
  {
    assert Originals(t).Keys == t.Keys;
  }

  lemma ShowsItsOriginals(d: Dict, t: Table)
    requires OneWordAnId(d) && TableKept(d, t)
    ensures Displayed(d, t) == ReadAll(Originals(t), AddressesOf(d))
  {
    var addrs, shown := AddressesOf(d), Displayed(d, t);
    forall k | k in t ensures shown[k] == Some(Read(t[k].original, addrs)) { ShowsOne(d, t, k); }
    ReadsByKey(t, addrs, shown);
  }

  /**
   In every interleaving the encoded table shows, under each key, the first committed row
   that has it, read through the committed addresses. Ids change nothing else.
   */
  lemma TableShowsFirstCommitted(run: seq<Event>)
    ensures var s := Execute(run);
            && OneWordAnId(s.committed)
            && Displayed(s.committed, s.table) == ReadAll(SavedRows.Commit(map[], s.commits), AddressesOf(s.committed))
  {
    RunKeeps(run);
    RunRecords(run);
    ShowsItsOriginals(Execute(run).committed, Execute(run).table);
  }

  // ---------- replaying ----------

  lemma {:induction false} KnownKeysWriteNothing(t: Table, rows: seq<Invocation>, ids: Dict)
    requires forall i :: 0 <= i < |rows| ==> SavedRows.KeyOf(rows[i]) in t
    ensures WriteAll(t, rows, ids) == t
  {
    if rows == [] {
    } else {
      KnownKeysWriteNothing(t, rows[..|rows| - 1], ids);
    }
  }

  lemma CommittedRowsHaveKeys(t: Table, commits: seq<seq<Invocation>>, r: Invocation)
    requires Originals(t) == SavedRows.Commit(map[], commits) && r in SavedRows.Flat(commits)
    ensures SavedRows.KeyOf(r) in t
  {
    var flat := SavedRows.Flat(commits);
    SavedRows.CommitIsFlat(map[], commits);
    SavedRows.InsertAllHas(map[], flat);
    var i :| 0 <= i < |flat| && flat[i] == r;
    assert SavedRows.KeyOf(flat[i]) in Originals(t);
  }

  lemma NothingNewToOwn(own: Dict, d: Dict, words: set<Word>)
    requires Apart(own, d) && own.Keys <= words <= d.Keys
    ensures own == map[]
  {
    assert forall w :: w in own ==> w in words && w in d;
  }

  /** Saving rows that are all committed already changes neither the table nor the dictionary. */
  lemma ReplayIsANoOp(run: seq<Event>, id: nat)
    requires Enabled(Execute(run), Commit(id))
    requires forall r :: r in Execute(run).saves[id].rows ==> r in SavedRows.Flat(Execute(run).commits)
    ensures var s, after := Execute(run), Apply(Execute(run), Commit(id));
            after.table == s.table && after.committed == s.committed
  {
    RunKeeps(run);
    RunRecords(run);
    var s := Execute(run);
    var c := s.saves[id];
    assert Owns(s.saves)[id] == c.own && OwnKept(s.committed, s.next, Owns(s.saves)[id]);
    NoNewRows(s.table, s.commits, c.rows, c.known + c.resolved);
    NoNewWords(s.committed, SavedRows.Flat(s.commits), c.rows, c.own);
  }

  lemma NoNewRows(t: Table, commits: seq<seq<Invocation>>, rows: seq<Invocation>, ids: Dict)
    requires Originals(t) == SavedRows.Commit(map[], commits)
    requires forall r :: r in rows ==> r in SavedRows.Flat(commits)
    ensures WriteAll(t, rows, ids) == t
  {
    forall i | 0 <= i < |rows| ensures SavedRows.KeyOf(rows[i]) in t { CommittedRowsHaveKeys(t, commits, rows[i]); }
    KnownKeysWriteNothing(t, rows, ids);
  }

  lemma NoNewWords(d: Dict, flat: seq<Invocation>, rows: seq<Invocation>, own: Dict)
    requires d.Keys == WordsOf(flat) && Apart(own, d) && own.Keys <= WordsOf(rows)
    requires forall r :: r in rows ==> r in flat
    ensures d + own == d
  {
    FewerRowsFewerWords(rows, flat);
    NothingNewToOwn(own, d, WordsOf(rows));
    assert d + map[] == d;
  }

  lemma FewerRowsFewerWords(x: seq<Invocation>, y: seq<Invocation>)
    requires forall r :: r in x ==> r in y
    ensures WordsOf(x) <= WordsOf(y)
  {
    forall w | w in WordsOf(x) ensures w in WordsOf(y) {
      var i :| 0 <= i < |x| && w in RowWords(x[i]);
      assert x[i] in x;
      var j :| 0 <= j < |y| && y[j] == x[i];
    }
  }
}
