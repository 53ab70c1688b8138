/**
 Runs that reach a chosen dictionary: saves that roll back use ids up, then one save
 inserts its words in an order of its own and commits.
 */
module SaveRuns {
  import opened Extract
  import opened Dictionary
  import opened Ids
  import opened ConcurrentSaves
  import SavedRows

  // ---------- ids by order of insertion ----------

  function Count(words: seq<Word>, kind: Kind): nat {
    if words == [] then 0
    else Count(words[..|words| - 1], kind) + if KindOf(words[|words| - 1]) == kind then 1 else 0
  }

  function After(next: map<Kind, nat>, words: seq<Word>): map<Kind, nat> {
    if words == [] then next else Advance(After(next, words[..|words| - 1]), KindOf(words[|words| - 1]))
  }

  lemma {:induction false} AfterCounts(next: map<Kind, nat>, words: seq<Word>, kind: Kind)
    ensures NextIn(After(next, words), kind) == NextIn(next, kind) + Count(words, kind)
  {
    if words == [] {
    } else {
      AfterCounts(next, words[..|words| - 1], kind);
    }
  }

  ghost predicate Room(next: map<Kind, nat>, words: seq<Word>) {
    forall kind :: NextIn(next, kind) + Count(words, kind) <= Last(kind) + 1
  }

  lemma RoomForLess(next: map<Kind, nat>, words: seq<Word>)
    requires Room(next, words) && words != []
    ensures var init, kind := words[..|words| - 1], KindOf(words[|words| - 1]);
            Room(next, init) && NextIn(After(next, init), kind) <= Last(kind)
  {
    var init, kind := words[..|words| - 1], KindOf(words[|words| - 1]);
    AfterCounts(next, init, kind);
    assert Count(words, kind) == Count(init, kind) + 1;
    forall k ensures NextIn(next, k) + Count(init, k) <= Last(k) + 1 {
      assert Count(init, k) <= Count(words, k);
    }
  }

  /** Words inserted one after another take consecutive ids of their kind. */
  ghost function Assigned(next: map<Kind, nat>, words: seq<Word>): Dict
    requires Room(next, words)
  {
    if words == [] then map[]
    else
      RoomForLess(next, words);
      var init := words[..|words| - 1];
      Plus(Assigned(next, init), After(next, init), words[|words| - 1])
  }

  ghost predicate Distinct(words: seq<Word>) {
    forall i, j :: 0 <= i < j < |words| ==> words[i] != words[j]
  }

  function Words(words: seq<Word>): set<Word> {
    set w | w in words
  }

  lemma {:induction false} AssignedIs(next: map<Kind, nat>, words: seq<Word>, i: nat)
    requires Room(next, words) && Distinct(words) && i < |words|
    ensures words[i] in Assigned(next, words)
    ensures Assigned(next, words)[words[i]] == NextIn(next, KindOf(words[i])) + Count(words[..i], KindOf(words[i]))
  {
    var init := words[..|words| - 1];
    RoomForLess(next, words);
    if i == |words| - 1 {
      AfterCounts(next, init, KindOf(words[i]));
    } else {
      AssignedIs(next, init, i);
      assert init[..i] == words[..i];
    }
  }

  lemma {:induction false} AssignedKeys(next: map<Kind, nat>, words: seq<Word>)
    requires Room(next, words)
    ensures Assigned(next, words).Keys == Words(words)
  {
    if words == [] {
    } else {
      RoomForLess(next, words);
      AssignedKeys(next, words[..|words| - 1]);
      OneMoreWord(words);
    }
  }

  lemma OneMoreWord(words: seq<Word>)
    requires words != []
    ensures Words(words) == Words(words[..|words| - 1]) + {words[|words| - 1]}
  {
    assert words == words[..|words| - 1] + [words[|words| - 1]];
  }

  // ---------- one save, step by step ----------

  lemma Then(run: seq<Event>, e: Event)
    ensures Execute(run + [e]) == Apply(Execute(run), e)
  {
    assert (run + [e])[..|run|] == run;
  }

  /** Nothing but the sequences shows what went before. */
  function Blank(next: map<Kind, nat>): State {
    EMPTY.(next := next)
  }

  /** The only save, with its rows' words all missing and these inserted. */
  ghost function Alone(next: map<Kind, nat>, rows: seq<Invocation>, words: seq<Word>): State
    requires Room(next, words)
  {
    var c := Fresh(rows).(snapped := ALL_KINDS, tried := Words(words), own := Assigned(next, words));
    Blank(After(next, words)).(saves := map[0 := c])
  }

  /** Begun and through the three snapshots, with nothing in the cache to take. */
  function Snapped(next: map<Kind, nat>, rows: seq<Invocation>, snapped: set<Kind>): State {
    Blank(next).(saves := map[0 := Fresh(rows).(snapped := snapped)])
  }

  lemma Takes(run: seq<Event>, next: map<Kind, nat>, rows: seq<Invocation>, snapped: set<Kind>, kind: Kind)
      returns (run': seq<Event>)
    requires Execute(run) == Snapped(next, rows, snapped) && kind !in snapped
    ensures Execute(run') == Snapped(next, rows, snapped + {kind})
  {
    Then(run, Snapshot(0, kind, {}));
    assert Cached(Execute(run), {}) == map[];
    run' := run + [Snapshot(0, kind, {})];
  }

  lemma Begins(run: seq<Event>, next: map<Kind, nat>, rows: seq<Invocation>) returns (run': seq<Event>)
    requires Execute(run) == Blank(next) && Room(next, [])
    ensures Execute(run') == Alone(next, rows, [])
  {
    Then(run, Begin(0, rows));
    run' := Takes(run + [Begin(0, rows)], next, rows, {}, Contracts);
    run' := Takes(run', next, rows, {} + {Contracts}, Functions);
    run' := Takes(run', next, rows, {} + {Contracts} + {Functions}, Addressees);
    assert {} + {Contracts} + {Functions} + {Addressees} == ALL_KINDS;
    assert Words([]) == {};
  }

  lemma InsertsOne(next: map<Kind, nat>, rows: seq<Invocation>, words: seq<Word>)
    requires words != [] && Room(next, words) && Room(next, words[..|words| - 1])
    requires Distinct(words) && Words(words) <= WordsOf(rows) && Writables(Words(words))
    ensures var s := Alone(next, rows, words[..|words| - 1]);
            Apply(s, Insert(0, words[|words| - 1])) == Alone(next, rows, words)
  {
    var init, w := words[..|words| - 1], words[|words| - 1];
    var s := Alone(next, rows, init);
    RoomForLess(next, words);
    OneMoreWord(words);
    EveryKind(KindOf(w));
    assert w in Words(words) && w !in Words(init);
    assert Enabled(s, Insert(0, w));
    assert AfterInsert(s, 0, w).saves == Alone(next, rows, words).saves;
  }

  lemma {:induction false} Inserts(run: seq<Event>, next: map<Kind, nat>, rows: seq<Invocation>, words: seq<Word>)
      returns (run': seq<Event>)
    requires Room(next, []) && Execute(run) == Alone(next, rows, [])
    requires Room(next, words) && Distinct(words) && Words(words) <= WordsOf(rows) && Writables(Words(words))
    ensures Execute(run') == Alone(next, rows, words)
  {
    if words == [] {
      run' := run;
    } else {
      RoomForLess(next, words);
      OneMoreWord(words);
      run' := Inserts(run, next, rows, words[..|words| - 1]);
      Then(run', Insert(0, words[|words| - 1]));
      InsertsOne(next, rows, words);
      run' := run' + [Insert(0, words[|words| - 1])];
    }
  }

  /** A save that inserted all its words and has read back these kinds. */
  ghost predicate Ready(s: State, d: Dict, rows: seq<Invocation>, selected: set<Kind>) {
    && s.saves.Keys == {0} && s.committed == map[] && s.commits == []
    && var c := s.saves[0];
       && c.rows == rows && c.own == d && c.snapped == ALL_KINDS && c.selected == selected && !c.committed
       && Missing(c) <= c.tried
  }

  lemma SelectsOne(s: State, d: Dict, rows: seq<Invocation>, selected: set<Kind>, kind: Kind)
    requires Ready(s, d, rows, selected) && kind !in selected
    ensures Ready(Apply(s, Select(0, kind)), d, rows, selected + {kind})
  {
    var c := s.saves[0];
    assert MissingOf(c, kind) <= Missing(c);
    assert Missing(Apply(s, Select(0, kind)).saves[0]) == Missing(c);
  }

  lemma CommitsOne(s: State, d: Dict, rows: seq<Invocation>)
    requires Ready(s, d, rows, ALL_KINDS) && SavedRows.FitColumns(rows)
    ensures Apply(s, Commit(0)).committed == d && Apply(s, Commit(0)).commits == [rows]
  {
    assert map[] + d == d;
  }

  lemma Commits(run: seq<Event>, d: Dict, rows: seq<Invocation>) returns (run': seq<Event>)
    requires Ready(Execute(run), d, rows, {}) && SavedRows.FitColumns(rows)
    ensures Execute(run').committed == d && Execute(run').commits == [rows]
  {
    Then(run, Select(0, Contracts));
    SelectsOne(Execute(run), d, rows, {}, Contracts);
    run' := run + [Select(0, Contracts)];
    Then(run', Select(0, Functions));
    SelectsOne(Execute(run'), d, rows, {} + {Contracts}, Functions);
    run' := run' + [Select(0, Functions)];
    Then(run', Select(0, Addressees));
    SelectsOne(Execute(run'), d, rows, {} + {Contracts} + {Functions}, Addressees);
    run' := run' + [Select(0, Addressees)];
    assert {} + {Contracts} + {Functions} + {Addressees} == ALL_KINDS;
    Then(run', Commit(0));
    CommitsOne(Execute(run'), d, rows);
    run' := run' + [Commit(0)];
  }

  // ---------- ids used up ----------

  /** Sequences after this many address ids were drawn and rolled back. */
  function Skipped(n: nat): map<Kind, nat> {
    if n == 0 then map[] else map[Addressees := n + 1]
  }

  lemma RollsBack(next: map<Kind, nat>, rows: seq<Invocation>, words: seq<Word>)
    requires Room(next, words)
    ensures Apply(Alone(next, rows, words), Rollback(0)) == Blank(After(next, words))
  {
    assert Apply(Alone(next, rows, words), Rollback(0)).saves == map[];
  }

  lemma SkipsOne(run: seq<Event>, n: nat, x: Word, rows: seq<Invocation>) returns (run': seq<Event>)
    requires n < Last(Addressees) && x.OfAddress? && x in WordsOf(rows) && Execute(run) == Blank(Skipped(n))
    ensures Execute(run') == Blank(Skipped(n + 1))
  {
    var next := Skipped(n);
    OneFits(next, x);
    run' := Begins(run, next, rows);
    run' := Inserts(run', next, rows, [x]);
    Then(run', Rollback(0));
    RollsBack(next, rows, [x]);
    assert [x][..0] == [] && Advance(next, Addressees) == Skipped(n + 1);
    run' := run' + [Rollback(0)];
  }

  lemma {:induction false} Skips(n: nat, x: Word, rows: seq<Invocation>) returns (run: seq<Event>)
    requires n <= Last(Addressees) && x.OfAddress? && x in WordsOf(rows)
    ensures Execute(run) == Blank(Skipped(n))
  {
    run := [];
    if n == 0 {
    } else {
      run := Skips(n - 1, x, rows);
      run := SkipsOne(run, n - 1, x, rows);
    }
  }

  lemma OneFits(next: map<Kind, nat>, x: Word)
    requires forall kind :: NextIn(next, kind) <= Last(kind)
    ensures Room(next, []) && Room(next, [x])
  {
    assert [x][..0] == [];
    forall kind ensures Count([x], kind) <= 1 {}
  }

  /** After n ids went to waste, one save gives its words ids in this order. */
  lemma Reaches(n: nat, x: Word, rows: seq<Invocation>, words: seq<Word>) returns (run: seq<Event>)
    requires n <= Last(Addressees) && (n > 0 ==> x.OfAddress? && x in WordsOf(rows))
    requires Room(Skipped(n), words) && Distinct(words) && Words(words) == WordsOf(rows) && SavedRows.FitColumns(rows)
    ensures Execute(run).committed == Assigned(Skipped(n), words) && Execute(run).commits == [rows]
  {
    run := [];
    if n > 0 { run := Skips(n, x, rows); }
    var next := Skipped(n);
    assert Room(next, []);
    run := Begins(run, next, rows);
    FittingRowsAreWritable(rows);
    run := Inserts(run, next, rows, words);
    assert Ready(Execute(run), Assigned(next, words), rows, {});
    run := Commits(run, Assigned(next, words), rows);
  }
}
