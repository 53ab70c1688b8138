/**
 One save as the program runs it: snapshot the cache, insert and read back what it lacks
 inside a transaction, write the encoded rows, commit, and only then tell the cache.
 */
module Store {
  import opened Rows
  import opened JsonTree
  import opened JsonArgs
  import opened Extract
  import opened Dictionary
  import opened Ids
  import opened ConcurrentSaves
  import opened SavesDecode
  import SavedRows

  /** The dictionary and what one transaction adds to it, numbered by the sequences. */
  ghost predicate Numbered(d: Dict, next: map<Kind, nat>, own: Dict) {
    && Counting(next)
    && OneWordAnId(d) && Issued(d, next)
    && OwnKept(d, next, own)
  }

  /** Between saves nothing is uncommitted. */
  ghost predicate Settled(d: Dict, cache: Dict, next: map<Kind, nat>) {
    Numbered(d, next, map[]) && Within(cache, d)
  }

  /** A settled store is one that no interleaving has broken. */
  lemma SettledIsKept(s: State)
    requires s.saves == map[]
    ensures Settled(s.committed, s.cache, s.next) <==> Kept(s)
  {
    NothingOwned(s.committed, s.next);
    assert Owns(map[]) == map[];
  }

  /** What a transaction has inserted after one more insert that draws an id. */
  function WithWord(d: Dict, next: map<Kind, nat>, own: Dict, w: Word): Dict
    requires NextIn(next, KindOf(w)) <= Last(KindOf(w))
  {
    if w in d || w in own then own else Plus(own, next, w)
  }

  /** A dictionary statement under way: whether it still goes on, the sequences, and its inserts. */
  datatype Inserted = Inserted(ok: bool, next: map<Kind, nat>, own: Dict)

  function InsertedAll(d: Dict, next: map<Kind, nat>, own: Dict, values: seq<Word>): Inserted {
    if values == [] then Inserted(true, next, own)
    else
      var t, last := InsertedAll(d, next, own, values[..|values| - 1]), values[|values| - 1];
      if t.ok && NextIn(t.next, KindOf(last)) <= Last(KindOf(last))
      then Inserted(true, Advance(t.next, KindOf(last)), WithWord(d, t.next, t.own, last))
      else Inserted(false, t.next, t.own)
  }

  lemma OneMoreNumbered(d: Dict, next: map<Kind, nat>, own: Dict, w: Word)
    requires Numbered(d, next, own) && NextIn(next, KindOf(w)) <= Last(KindOf(w))
    ensures Numbered(d, Advance(next, KindOf(w)), WithWord(d, next, own, w)) && Within(own, WithWord(d, next, own, w))
  {
    SequenceAdvances(own, next, KindOf(w));
    SequenceAdvances(d, next, KindOf(w));
    CountingGoesOn(next, KindOf(w));
    if w !in d && w !in own {
      NewIdIsOwned(own, next, w);
      NewIdIsApart(d, own, next, w);
    }
  }

  // ---------- what becomes of a save ----------

  /**
   What the connection does to a save: its statements are the three dictionary inserts, the
   rows, the checkpoint and the commit. The last may take place without anyone hearing of it.
   */
  datatype Fate = Through | FailsAt(statement: nat) | Unseen

  predicate Breaks(fate: Fate, rows: nat) {
    fate.FailsAt? && fate.statement < rows + 5
  }

  /** How many dictionary statements are sent before the connection fails. */
  function Sent(fate: Fate): (n: nat)
    ensures n <= 3
  {
    if fate.FailsAt? && fate.statement < 3 then fate.statement else 3
  }

  /** A save is committed exactly when there is room for its names, its rows fit, and the connection holds. */
  ghost predicate Goes(next: map<Kind, nat>, missing: set<Word>, rows: seq<Invocation>, fate: Fate) {
    HasRoom(next, missing) && SavedRows.FitColumns(rows) && !Breaks(fate, |rows|)
  }

  /** The sequences after a save, committed or not: what was drawn stays drawn. */
  function NextAfter(next: map<Kind, nat>, missing: set<Word>, fate: Fate): map<Kind, nat> {
    DrawKinds(next, missing, IN_ORDER[..Sent(fate)])
  }

  lemma CommittedDrawsAll(next: map<Kind, nat>, missing: set<Word>, rows: seq<Invocation>, fate: Fate)
    requires Goes(next, missing, rows, fate) && missing <= WordsOf(rows)
    ensures NextAfter(next, missing, fate) == DrawAll(next, missing)
  {
    FittingRowsAreWritable(rows);
    InOrderIsAll(next, missing);
    assert IN_ORDER[..3] == IN_ORDER;
  }

  function Picked(d: Dict, words: set<Word>): Dict {
    map w | w in words && w in d :: d[w]
  }

  lemma PickedIs(d: Dict, words: set<Word>)
    requires words <= d.Keys
    ensures Picked(d, words).Keys == words && Within(Picked(d, words), d)
  {
  }

  /** What the transactions of all processes share. */
  datatype Database = Database(committed: Dict, next: map<Kind, nat>, table: Table, checkpoints: map<string, int>)

  /** A state of the interleavings with no save under way; commits lists the rows saved so far. */
  ghost predicate AtRest(s: State, d: Dict, cache: Dict, next: map<Kind, nat>, t: Table,
                         commits: seq<seq<Invocation>>)
  {
    s == State(d, cache, next, map[], t, commits) && Kept(s) && Recorded(d, t, commits)
  }

  /** Between saves the store is what every interleaving keeps. */
  ghost predicate Sound(d: Dict, cache: Dict, next: map<Kind, nat>, t: Table, commits: seq<seq<Invocation>>) {
    exists s :: AtRest(s, d, cache, next, t, commits)
  }

  lemma SoundMeans(d: Dict, cache: Dict, next: map<Kind, nat>, t: Table, commits: seq<seq<Invocation>>)
    ensures Sound(d, cache, next, t, commits) <==> Settled(d, cache, next) && Recorded(d, t, commits)
  {
    var s := State(d, cache, next, map[], t, commits);
    SettledIsKept(s);
    if Kept(s) && Recorded(d, t, commits) { assert AtRest(s, d, cache, next, t, commits); }
  }

  class Store {
    var cache: Dict
    var db: Database
    ghost var commits: seq<seq<Invocation>>

    constructor ()
      ensures Valid() && cache == map[] && db == Database(map[], map[], map[], map[]) && commits == []
    {
      cache, db, commits := map[], Database(map[], map[], map[], map[]), [];
      new;
      NothingRecorded();
      NothingOwned(map[], map[]);
      SoundMeans(map[], map[], map[], map[], []);
    }

    ghost predicate Valid()
      reads this
    {
      Sound(db.committed, cache, db.next, db.table, commits)
    }

    /** A process that starts on the database knows none of its ids. */
    method Restart()
      requires Valid()
      modifies this`cache
      ensures Valid() && cache == map[]
    {
      RestartsSound(db.committed, cache, db.next, db.table, commits);
      cache := map[];
    }

    method CheckpointLedger(name: string) returns (ledger: int)
      ensures ledger == SavedRows.CheckpointOf(db.checkpoints, name)
    {
      ledger := if name in db.checkpoints then db.checkpoints[name] else 0;
    }

    method SetCheckpoint(name: string, ledger: int)
      requires Valid()
      modifies this`db
      ensures Valid() && db == old(db).(checkpoints := old(db).checkpoints[name := ledger])
    {
      db := db.(checkpoints := db.checkpoints[name := ledger]);
    }

    /** Splits the wanted words of a kind into those the cache knows and the rest. */
    method Snapshot(wanted: set<Word>, kind: Kind) returns (known: Dict, missing: set<Word>)
      ensures forall w :: w in known <==> w in wanted && KindOf(w) == kind && w in cache
      ensures Within(known, cache)
      ensures forall w :: w in missing <==> w in wanted && KindOf(w) == kind && w !in cache
    {
      known, missing := map[], {};
      var left := wanted;
      while left != {}
        invariant left <= wanted
        invariant forall w :: w in known <==> w in wanted - left && KindOf(w) == kind && w in cache
        invariant Within(known, cache)
        invariant forall w :: w in missing <==> w in wanted - left && KindOf(w) == kind && w !in cache
        decreases |left|
      {
        var w :| w in left;
        if KindOf(w) == kind {
          if w in cache {
            known := known[w := cache[w]];
          } else {
            missing := missing + {w};
          }
        }
        left := left - {w};
      }
    }

    /** The three snapshots: what the cache knows of the wanted words, and what it lacks, by kind. */
    method TakeSnapshots(wanted: set<Word>)
        returns (known: Dict, contracts: set<Word>, functions: set<Word>, addresses: set<Word>)
      ensures Within(known, cache) && known.Keys == wanted * cache.Keys
      ensures contracts == Only(wanted - cache.Keys, Contracts)
      ensures functions == Only(wanted - cache.Keys, Functions)
      ensures addresses == Only(wanted - cache.Keys, Addressees)
    {
      var knownContracts, knownFunctions, knownAddresses;
      knownContracts, contracts := Snapshot(wanted, Contracts);
      knownFunctions, functions := Snapshot(wanted, Functions);
      knownAddresses, addresses := Snapshot(wanted, Addressees);
      known := knownContracts + knownFunctions + knownAddresses;
      forall w ensures w in known.Keys <==> w in wanted && w in cache { EveryKind(KindOf(w)); }
    }

    static method MergeInto(dst: Dict, src: Dict) returns (merged: Dict)
      ensures merged == dst + src
    {
      merged := dst;
      var left := src.Keys;
      while left != {}
        invariant left <= src.Keys
        invariant merged.Keys == dst.Keys + (src.Keys - left)
        invariant forall w :: w in merged ==> merged[w] == if w in src && w !in left then src[w] else dst[w]
        decreases |left|
      {
        var w :| w in left;
        merged := merged[w := src[w]];
        left := left - {w};
      }
    }

    /** One word's insert: it draws an id, and uses it unless the word is there already. */
    static method InsertOne(d: Dict, next: map<Kind, nat>, own: Dict, w: Word)
        returns (ok: bool, next': map<Kind, nat>, own': Dict)
      ensures ok <==> NextIn(next, KindOf(w)) <= Last(KindOf(w))
      ensures own' == if ok then WithWord(d, next, own, w) else own
      ensures next' == if ok then Advance(next, KindOf(w)) else next
    {
      if NextIn(next, KindOf(w)) > Last(KindOf(w)) {
        return false, next, own;
      }
      own' := own;
      if w !in d && w !in own {
        own' := Plus(own, next, w);
      }
      ok, next' := true, Advance(next, KindOf(w));
    }

    /**
     Inserts the words that the database lacks, skipping those it has. Both draw an id, kept
     or not, and it stays drawn if the transaction fails later; a sequence that runs out fails
     the save here.
     */
    static method InsertMissing(d: Dict, next: map<Kind, nat>, own: Dict, values: seq<Word>) returns (t: Inserted)
      ensures t == InsertedAll(d, next, own, values)
    {
      t := Inserted(true, next, own);
      var i := 0;
      while i < |values|
        invariant 0 <= i <= |values| && t == InsertedAll(d, next, own, values[..i])
      {
        var ok, next', own' := InsertOne(d, t.next, t.own, values[i]);
        t := if t.ok && ok then Inserted(true, next', own') else Inserted(false, t.next, t.own);
        assert values[..i + 1][..i] == values[..i];
        i := i + 1;
      }
      assert values[..i] == values;
    }

    /** The words in some order. */
    static method KeysOf(words: set<Word>) returns (values: seq<Word>)
      ensures |values| == |words| && forall w :: w in values <==> w in words
    {
      values := [];
      var left := words;
      while left != {}
        invariant left <= words && |values| + |left| == |words|
        invariant forall w :: w in values <==> w in words - left
        decreases |left|
      {
        var w :| w in left;
        values, left := values + [w], left - {w};
      }
    }

    /**
     Inserts the missing words of a kind and reads back the ids the transaction sees, its own
     and committed ones. A text the column refuses fails the statement before it draws any.
     */
    static method Resolve(d: Dict, next: map<Kind, nat>, own: Dict, missing: set<Word>, kind: Kind)
        returns (ok: bool, next': map<Kind, nat>, own': Dict, ids: Dict)
      requires Numbered(d, next, own) && missing == Only(missing, kind)
      ensures Numbered(d, next', own') && Within(own, own') && own'.Keys <= own.Keys + missing
      ensures ok <==> Granted(next, missing, kind)
      ensures ok ==> ids.Keys == missing && Within(ids, d + own')
      ensures next' == DrawKind(next, missing, kind)
    {
      ids := map[];
      if !Writables(missing) { return false, next, own, ids; }
      var values := KeysOf(missing);
      var t := InsertMissing(d, next, own, values);
      InsertedStatement(d, next, own, missing, values, kind);
      ok, next', own' := t.ok, t.next, t.own;
      if ok {
        ids := Picked(d + own', missing);
        PickedIs(d + own', missing);
      }
    }

    /** The three dictionaries in turn, inside one transaction, as far as the connection lasts. */
    static method ResolveAll(d: Dict, next: map<Kind, nat>, contracts: set<Word>, functions: set<Word>,
                             addresses: set<Word>, ghost missing: set<Word>, sent: nat)
        returns (ok: bool, next': map<Kind, nat>, own: Dict, resolved: Dict)
      requires Numbered(d, next, map[]) && sent <= 3
      requires contracts == Only(missing, Contracts) && functions == Only(missing, Functions)
      requires addresses == Only(missing, Addressees)
      ensures Numbered(d, next', own)
      ensures ok <==> sent == 3 && HasRoom(next, missing) && Writables(missing)
      ensures ok ==> own.Keys <= missing && resolved.Keys == missing && Within(resolved, d + own)
      ensures next' == DrawKinds(next, missing, IN_ORDER[..sent])
    {
      StatementsDraw(next, missing, sent);
      StatementsSucceed(next, missing);
      ByKind(missing, contracts, functions, addresses);
      ok, next', own, resolved := false, next, map[], map[];
      if sent == 0 { return; }
      OwnKindOnly(next', missing, Contracts);
      ok, next', own, resolved := Resolve(d, next', own, contracts, Contracts);
      if !ok || sent == 1 { return false, next', own, resolved; }
      ok, next', own, resolved := ResolveRest(d, next', own, resolved, contracts, functions, addresses, missing, sent);
    }

    /** The dictionaries after the first. */
    static method ResolveRest(d: Dict, next: map<Kind, nat>, own: Dict, ids: Dict, contracts: set<Word>,
                              functions: set<Word>, addresses: set<Word>, ghost missing: set<Word>, sent: nat)
        returns (ok: bool, next': map<Kind, nat>, own': Dict, resolved: Dict)
      requires Numbered(d, next, own) && 2 <= sent <= 3
      requires functions == Only(missing, Functions) && addresses == Only(missing, Addressees)
      requires contracts + functions + addresses == missing
      requires functions == Only(functions, Functions) && addresses == Only(addresses, Addressees)
      requires own.Keys <= contracts && ids.Keys == contracts && Within(ids, d + own)
      ensures Numbered(d, next', own')
      ensures ok ==> own'.Keys <= missing && resolved.Keys == missing && Within(resolved, d + own')
      ensures var x := DrawKind(next, missing, Functions);
              && (ok <==> sent == 3 && Granted(next, missing, Functions) && Granted(x, missing, Addressees))
              && next' == if sent == 2 || !Granted(next, missing, Functions) then x
                  else DrawKind(x, missing, Addressees)
    {
      var functionIds, addressIds;
      OwnKindOnly(next, missing, Functions);
      ok, next', own', functionIds := Resolve(d, next, own, functions, Functions);
      resolved := ids;
      if !ok || sent == 2 { return false, next', own', ids; }
      ghost var own2 := own';
      OwnKindOnly(next', missing, Addressees);
      ok, next', own', addressIds := Resolve(d, next', own', addresses, Addressees);
      if !ok { return; }
      AllVisible(d, ids, functionIds, addressIds, own, own2, own');
      AllOwned(contracts, functions, addresses, own.Keys, own2.Keys, own'.Keys);
      KeysOfThree(ids, functionIds, addressIds);
      resolved := ids + functionIds + addressIds;
    }

    /** The row inserts of the batch, in order; a value its column refuses fails them. */
    static method InsertRows(before: Table, rows: seq<Invocation>, ids: Dict) returns (ok: bool, after: Table)
      requires Writables(WordsOf(rows))
      ensures ok <==> SavedRows.FitColumns(rows)
      ensures ok ==> after == WriteAll(before, rows, ids)
    {
      after := before;
      var i := 0;
      while i < |rows|
        invariant 0 <= i <= |rows|
        invariant SavedRows.FitColumns(rows[..i])
        invariant after == WriteAll(before, rows[..i], ids)
      {
        var encoded := Encode(rows[i], ids);
        EncodedFits(rows, i, ids);
        OneMoreWritten(before, rows, i, ids);
        if encoded.ledger > MAX_LEDGER || (encoded.args.Some? && !TreeFreeOfNul(encoded.args.value)) {
          return false, before;
        }
        if SavedRows.KeyOf(rows[i]) !in after {
          after := after[SavedRows.KeyOf(rows[i]) := Stored(rows[i], encoded)];
        }
        i := i + 1;
      }
      assert rows[..i] == rows;
      ok := true;
    }

    /** Everything up to the commit: the ids, and the rows inserted with them. */
    method Prepare(rows: seq<Invocation>, fate: Fate)
        returns (ok: bool, next: map<Kind, nat>, own: Dict, resolved: Dict, after: Table)
      requires Valid()
      ensures Numbered(db.committed, next, own)
      ensures ok <==> Going(rows, fate)
      ensures ok ==> own.Keys <= WordsOf(rows) <= (db.committed + own).Keys && Within(resolved, db.committed + own)
      ensures ok ==> resolved.Keys == Missing(rows) && after == WriteAll(db.table, rows, db.committed + own)
      ensures next == NextAfter(db.next, Missing(rows), fate)
    {
      var known, contracts, functions, addresses;
      known, contracts, functions, addresses := TakeSnapshots(WordsOf(rows));
      ok, next, own, resolved :=
        ResolveAll(db.committed, db.next, contracts, functions, addresses, Missing(rows), Sent(fate));
      after := db.table;
      RefusedNames(db.committed, cache, db.next, db.table, commits, rows);
      SoundMeans(db.committed, cache, db.next, db.table, commits);
      if !ok { return; }
      ok, after := WriteRows(known, resolved, rows, fate, next, own);
    }

    /** The rows, encoded with the ids from the cache and those of the transaction. */
    method WriteRows(known: Dict, resolved: Dict, rows: seq<Invocation>, fate: Fate, ghost next: map<Kind, nat>,
                     ghost own: Dict)
        returns (ok: bool, after: Table)
      requires Writables(WordsOf(rows)) && Numbered(db.committed, next, own) && Within(cache, db.committed)
      requires Within(known, cache) && Within(resolved, db.committed + own)
      requires known.Keys == WordsOf(rows) * cache.Keys && resolved.Keys == WordsOf(rows) - cache.Keys
      ensures ok <==> SavedRows.FitColumns(rows) && !Breaks(fate, |rows|)
      ensures ok ==> after == WriteAll(db.table, rows, db.committed + own)
      ensures WordsOf(rows) <= (db.committed + own).Keys
    {
      var ids := MergeInto(known, resolved);
      ok, after := InsertRows(db.table, rows, ids);
      ok := ok && !Breaks(fate, |rows|);
      WritesAsCommitted(db.committed, cache, next, own, known, resolved, db.table, rows);
    }

    /** The names of these rows that the cache does not know. */
    ghost function Missing(rows: seq<Invocation>): set<Word>
      reads this
    {
      WordsOf(rows) - cache.Keys
    }

    ghost predicate Going(rows: seq<Invocation>, fate: Fate)
      reads this
    {
      Goes(db.next, Missing(rows), rows, fate)
    }

    /** The transaction: committed whole or not at all, while what it draws stays drawn. */
    method Transact(ledger: UInt32, rows: seq<Invocation>, fate: Fate) returns (ok: bool, resolved: Dict)
      requires Valid()
      modifies this`db, this`commits
      ensures Valid()
      ensures ok <==> old(Going(rows, fate))
      ensures ok ==> resolved.Keys == Missing(rows) && Within(resolved, db.committed)
      ensures db.next == NextAfter(old(db).next, Missing(rows), fate)
      ensures ok ==> Saves(old(db), db, ledger, rows) && commits == old(commits) + [rows]
      ensures !ok ==> db == old(db).(next := db.next) && commits == old(commits)
    {
      var next, own, after;
      ok, next, own, resolved, after := Prepare(rows, fate);
      if ok {
        CommittedStaysSound(db.committed, cache, db.next, db.table, commits, next, own, rows);
        Commit(ledger, rows, next, own, after);
      } else {
        FailedStaysSound(db.committed, cache, db.next, db.table, commits, next, own);
        db := db.(next := next);
      }
    }

    /**
     Saves the rows of one ledger and moves the worker checkpoint up to it: all of it or
     nothing. It is committed exactly when there is an id left for every name the cache does
     not know, every row fits and the connection holds; the cache hears of it unless the
     commit goes unseen. What a save draws from the sequences stays drawn either way.
     */
    method SaveLedger(ledger: UInt32, rows: seq<Invocation>, fate: Fate) returns (ok: bool)
      requires Valid()
      modifies this
      ensures Valid()
      ensures ok <==> old(Going(rows, fate)) && !fate.Unseen?
      ensures db.next == NextAfter(old(db).next, old(Missing(rows)), fate)
      ensures if ok then cache.Keys == old(cache).Keys + old(Missing(rows)) else cache == old(cache)
      ensures old(Going(rows, fate)) ==> Saves(old(db), db, ledger, rows) && commits == old(commits) + [rows]
      ensures !old(Going(rows, fate)) ==> db == old(db).(next := db.next) && commits == old(commits)
    {
      var resolved;
      ok, resolved := Transact(ledger, rows, fate);
      if ok && !fate.Unseen? {
        MergedStaysSound(db.committed, cache, db.next, db.table, commits, resolved);
        cache := MergeInto(cache, resolved);
      } else {
        ok := false;
      }
    }

    /** The commit: dictionary, sequences, rows and worker checkpoint at once. */
    method Commit(ledger: UInt32, rows: seq<Invocation>, next: map<Kind, nat>, own: Dict, after: Table)
      modifies this`db, this`commits
      ensures db == Database(old(db).committed + own, next, after, SavedRows.Raised(old(db).checkpoints, ledger))
      ensures commits == old(commits) + [rows]
    {
      var last := if SavedRows.WORKER in db.checkpoints then db.checkpoints[SavedRows.WORKER] else 0;
      var checkpoints := db.checkpoints[SavedRows.WORKER := if last > ledger then last else ledger];
      db, commits := Database(db.committed + own, next, after, checkpoints), commits + [rows];
    }
  }

  /** A commit: the dictionary has the rows' words, the table the rows under new keys, the checkpoint the ledger. */
  ghost predicate Saves(db: Database, db': Database, ledger: UInt32, rows: seq<Invocation>) {
    && Within(db.committed, db'.committed) && db'.committed.Keys == db.committed.Keys + WordsOf(rows)
    && db'.table == WriteAll(db.table, rows, db'.committed)
    && db'.checkpoints == SavedRows.Raised(db.checkpoints, ledger)
  }

  // ---------- counting what one statement draws ----------

  /** What n inserts of a kind draw, and whether they all got an id. */
  ghost predicate Drew(first: map<Kind, nat>, kind: Kind, n: nat, next: map<Kind, nat>, ok: bool) {
    next == DrawUpTo(first, kind, n) && (ok <==> NextIn(first, kind) + n <= Last(kind) + 1)
  }

  lemma DrewOneMore(first: map<Kind, nat>, kind: Kind, n: nat, next: map<Kind, nat>, ok: bool)
    requires Counting(first) && Drew(first, kind, n, next, ok)
    ensures if ok && NextIn(next, kind) <= Last(kind) then Drew(first, kind, n + 1, Advance(next, kind), true)
            else Drew(first, kind, n + 1, next, false)
  {
    assert 1 <= NextIn(first, kind) <= Last(kind) + 1;
    if ok && NextIn(next, kind) <= Last(kind) { assert Advance(next, kind) == Draw(first, kind, n + 1); }
  }

  /** What a statement draws. */
  lemma {:induction false} InsertingDraws(d: Dict, next: map<Kind, nat>, own: Dict, values: seq<Word>, kind: Kind)
    requires Counting(next) && forall i :: 0 <= i < |values| ==> KindOf(values[i]) == kind
    ensures var t := InsertedAll(d, next, own, values); Drew(next, kind, |values|, t.next, t.ok)
  {
    if values == [] {
      assert 1 <= NextIn(next, kind) <= Last(kind) + 1;
    } else {
      var init := values[..|values| - 1];
      InsertingDraws(d, next, own, init, kind);
      var t := InsertedAll(d, next, own, init);
      DrewOneMore(next, kind, |init|, t.next, t.ok);
    }
  }

  /** What a statement inserts: under new ids, nothing but its words, and all of them if it succeeds. */
  lemma {:induction false} InsertingKeeps(d: Dict, next: map<Kind, nat>, own: Dict, values: seq<Word>)
    requires Numbered(d, next, own)
    ensures var t := InsertedAll(d, next, own, values);
            && Numbered(d, t.next, t.own) && Within(own, t.own)
            && (forall w :: w in t.own ==> w in own || w in values)
            && (t.ok ==> forall w :: w in values ==> w in d || w in t.own)
  {
    if values == [] {
    } else {
      var init, last := values[..|values| - 1], values[|values| - 1];
      InsertingKeeps(d, next, own, init);
      var t := InsertedAll(d, next, own, init);
      assert forall w :: w in values <==> w in init || w == last;
      if t.ok && NextIn(t.next, KindOf(last)) <= Last(KindOf(last)) { OneMoreNumbered(d, t.next, t.own, last); }
    }
  }

  lemma InsertedStatement(d: Dict, next: map<Kind, nat>, own: Dict, missing: set<Word>, values: seq<Word>, kind: Kind)
    requires Numbered(d, next, own) && missing == Only(missing, kind) && Writables(missing)
    requires |values| == |missing| && forall w :: w in values <==> w in missing
    ensures var t := InsertedAll(d, next, own, values);
            && Numbered(d, t.next, t.own) && Within(own, t.own) && t.own.Keys <= own.Keys + missing
            && (t.ok <==> Granted(next, missing, kind)) && (t.ok ==> missing <= (d + t.own).Keys)
            && t.next == DrawKind(next, missing, kind)
  {
    OfTheKind(missing, kind, values);
    InsertingDraws(d, next, own, values, kind);
    InsertingKeeps(d, next, own, values);
  }

  lemma OfTheKind(missing: set<Word>, kind: Kind, values: seq<Word>)
    requires missing == Only(missing, kind) && forall w :: w in values <==> w in missing
    ensures forall i :: 0 <= i < |values| ==> KindOf(values[i]) == kind
  {
    forall i | 0 <= i < |values| ensures KindOf(values[i]) == kind { assert values[i] in Only(missing, kind); }
  }

  lemma ByKind(missing: set<Word>, contracts: set<Word>, functions: set<Word>, addresses: set<Word>)
    requires contracts == Only(missing, Contracts) && functions == Only(missing, Functions)
    requires addresses == Only(missing, Addressees)
    ensures contracts + functions + addresses == missing
    ensures contracts == Only(contracts, Contracts) && functions == Only(functions, Functions)
    ensures addresses == Only(addresses, Addressees)
  {
    forall w ensures w in contracts + functions + addresses <==> w in missing { EveryKind(KindOf(w)); }
  }

  // ---------- what a save refuses ----------

  /** A row is refused for its ledger or its stored arguments; its function's name was refused before. */
  lemma EncodedFits(rows: seq<Invocation>, i: nat, ids: Dict)
    requires i < |rows| && Writables(WordsOf(rows))
    ensures var e := Encode(rows[i], ids);
            e.ledger > MAX_LEDGER || (e.args.Some? && !TreeFreeOfNul(e.args.value)) <==> !SavedRows.RowFits(rows[i])
  {
    assert OfFunction(rows[i].function_) in RowWords(rows[i]);
    RowWordsWithin(rows, i);
    RewritingKeepsNul(rows[i].args, AddressIds(ids));
  }

  lemma OneMoreWritten(before: Table, rows: seq<Invocation>, i: nat, ids: Dict)
    requires i < |rows|
    ensures WriteAll(before, rows[..i + 1], ids) == Write(WriteAll(before, rows[..i], ids), rows[i], ids)
    ensures SavedRows.FitColumns(rows[..i + 1]) <==> SavedRows.FitColumns(rows[..i]) && SavedRows.RowFits(rows[i])
    ensures !SavedRows.RowFits(rows[i]) ==> !SavedRows.FitColumns(rows)
  {
    var x, y := rows[..i], rows[..i + 1];
    assert y[..i] == x && y[i] == rows[i];
    if SavedRows.FitColumns(y) {
      forall j | 0 <= j < i ensures SavedRows.RowFits(x[j]) { assert x[j] == y[j]; }
    }
    if SavedRows.FitColumns(x) && SavedRows.RowFits(rows[i]) {
      forall j | 0 <= j < |y| ensures SavedRows.RowFits(y[j]) { assert j < i ==> y[j] == x[j]; }
    }
  }

  /** Nothing the columns refuse is ever committed, so none of it is cached: a refused name is a missing one. */
  lemma RefusedNames(d: Dict, cache: Dict, next: map<Kind, nat>, t: Table, commits: seq<seq<Invocation>>,
                     rows: seq<Invocation>)
    requires Sound(d, cache, next, t, commits)
    ensures Writables(WordsOf(rows) - cache.Keys) <==> Writables(WordsOf(rows))
    ensures SavedRows.FitColumns(rows) ==> Writables(WordsOf(rows))
  {
    SoundMeans(d, cache, next, t, commits);
    FittingRowsAreWritable(SavedRows.Flat(commits));
    if SavedRows.FitColumns(rows) { FittingRowsAreWritable(rows); }
  }

  // ---------- ids and rows as committed ----------

  lemma StillVisible(d: Dict, ids: Dict, own: Dict, own': Dict)
    requires Within(ids, d + own) && Within(own, own') && Apart(own', d)
    ensures Within(ids, d + own')
  {
  }

  lemma AllOwned(x: set<Word>, y: set<Word>, z: set<Word>, own1: set<Word>, own2: set<Word>, own: set<Word>)
    requires own1 <= x && own2 <= own1 + y && own <= own2 + z
    ensures own <= x + y + z
  {
  }

  lemma KeysOfThree(x: Dict, y: Dict, z: Dict)
    ensures (x + y + z).Keys == x.Keys + y.Keys + z.Keys
  {
  }

  lemma AllVisible(d: Dict, x: Dict, y: Dict, z: Dict, own1: Dict, own2: Dict, own: Dict)
    requires Within(x, d + own1) && Within(y, d + own2) && Within(z, d + own)
    requires Within(own1, own2) && Within(own2, own) && Apart(own, d)
    ensures Within(x + y + z, d + own)
  {
    StillVisible(d, y, own2, own);
    StillVisible(d, x, own1, own);
  }

  /** Whatever was drawn, the database is settled with the transaction's words and without them. */
  lemma DrawnSettles(d: Dict, cache: Dict, next: map<Kind, nat>, own: Dict)
    requires Numbered(d, next, own) && Within(cache, d)
    ensures Settled(d, cache, next) && Settled(d + own, cache, next) && Within(d, d + own)
  {
    UnionKept(d, next, own);
    NothingOwned(d, next);
    NothingOwned(d + own, next);
  }

  lemma FailedStaysSound(d: Dict, cache: Dict, before: map<Kind, nat>, t: Table, commits: seq<seq<Invocation>>,
                         next: map<Kind, nat>, own: Dict)
    requires Sound(d, cache, before, t, commits) && Numbered(d, next, own)
    ensures Sound(d, cache, next, t, commits)
  {
    SoundMeans(d, cache, before, t, commits);
    DrawnSettles(d, cache, next, own);
    SoundMeans(d, cache, next, t, commits);
  }

  lemma RestartsSound(d: Dict, cache: Dict, next: map<Kind, nat>, t: Table, commits: seq<seq<Invocation>>)
    requires Sound(d, cache, next, t, commits)
    ensures Sound(d, map[], next, t, commits)
  {
    SoundMeans(d, cache, next, t, commits);
    SoundMeans(d, map[], next, t, commits);
  }

  lemma MergedStaysSound(d: Dict, cache: Dict, next: map<Kind, nat>, t: Table, commits: seq<seq<Invocation>>,
                         resolved: Dict)
    requires Sound(d, cache, next, t, commits) && Within(resolved, d)
    ensures Sound(d, cache + resolved, next, t, commits)
  {
    SoundMeans(d, cache, next, t, commits);
    MergedStaysSettled(d, cache, next, resolved);
    SoundMeans(d, cache + resolved, next, t, commits);
  }

  lemma MergedStaysSettled(d: Dict, cache: Dict, next: map<Kind, nat>, resolved: Dict)
    requires Settled(d, cache, next) && Within(resolved, d)
    ensures Settled(d, cache + resolved, next)
  {
  }

  /** A commit leaves the store sound before the cache hears of it. */
  lemma CommittedStaysSound(d: Dict, cache: Dict, before: map<Kind, nat>, t: Table, commits: seq<seq<Invocation>>,
                            next: map<Kind, nat>, own: Dict, rows: seq<Invocation>)
    requires Sound(d, cache, before, t, commits) && Numbered(d, next, own) && SavedRows.FitColumns(rows)
    requires own.Keys <= WordsOf(rows) <= (d + own).Keys
    ensures Sound(d + own, cache, next, WriteAll(t, rows, d + own), commits + [rows])
    ensures Within(d, d + own) && (d + own).Keys == d.Keys + WordsOf(rows)
  {
    SoundMeans(d, cache, before, t, commits);
    DrawnSettles(d, cache, next, own);
    SaveRecords(d, own, t, commits, rows);
    SoundMeans(d + own, cache, next, WriteAll(t, rows, d + own), commits + [rows]);
  }

  /** Rows written with the gathered ids are rows written with the dictionary as committed. */
  lemma WritesAsCommitted(d: Dict, cache: Dict, next: map<Kind, nat>, own: Dict, known: Dict, resolved: Dict,
                          t: Table, rows: seq<Invocation>)
    requires Numbered(d, next, own) && Within(cache, d) && Within(known, cache) && Within(resolved, d + own)
    requires known.Keys == WordsOf(rows) * cache.Keys && resolved.Keys == WordsOf(rows) - cache.Keys
    ensures WordsOf(rows) <= (d + own).Keys
    ensures WriteAll(t, rows, known + resolved) == WriteAll(t, rows, d + own)
  {
    UnionKept(d, next, own);
    KnownOrMissing(WordsOf(rows), cache.Keys);
    GatheredAlike(d, own, known, resolved, WordsOf(rows));
    WritesAlike(t, rows, known + resolved, d + own);
  }

  lemma KnownOrMissing(words: set<Word>, cached: set<Word>)
    ensures words * cached + (words - cached) == words
  {
  }

  /** Ids gathered from cache and transaction are those of the dictionary as committed. */
  lemma GatheredAlike(d: Dict, own: Dict, known: Dict, resolved: Dict, words: set<Word>)
    requires Within(known, d) && Within(d, d + own) && Within(resolved, d + own)
    requires known.Keys + resolved.Keys == words
    ensures words <= (d + own).Keys
    ensures forall w :: w in words ==>
              w in known + resolved && w in d + own && (known + resolved)[w] == (d + own)[w]
  {
  }
}
