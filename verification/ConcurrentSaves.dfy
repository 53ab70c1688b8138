/**
 Saves running at once against one database, in any number of processes. Each takes what
 its process's cache knows, inserts the rest inside its own transaction, reads the ids back,
 stores its rows, and tells the cache only after it has committed. Any may roll back before that.
 */
module ConcurrentSaves {
  import opened Extract
  import opened JsonArgs
  import opened Dictionary
  import opened Ids
  import SavedRows

  // ---------- states and steps ----------

  /** One SaveLedger call: own holds what it inserted and has not committed. */
  datatype Save = Save(rows: seq<Invocation>, wanted: set<Word>, snapped: set<Kind>, known: Dict, tried: set<Word>,
                       own: Dict, selected: set<Kind>, resolved: Dict, committed: bool)

  /** A row of the table beside the one it was made from. */
  datatype Stored = Stored(original: Invocation, encoded: Encoded)

  type Table = map<SavedRows.Key, Stored>

  /**
   cache is what any process has cached since it started: a save finds part of it, none
   after a restart. next is the sequence of each id column; it never steps back. commits
   lists the rows of every committed save, in commit order.
   */
  datatype State = State(committed: Dict, cache: Dict, next: map<Kind, nat>, saves: map<nat, Save>,
                         table: Table, commits: seq<seq<Invocation>>)

  datatype Event =
    | Begin(id: nat, rows: seq<Invocation>)
    | Snapshot(id: nat, kind: Kind, hits: set<Word>)
    | Insert(id: nat, word: Word)
    | Select(id: nat, kind: Kind)
    | Commit(id: nat)
    | Rollback(id: nat)
    | Merge(id: nat)

  const EMPTY := State(map[], map[], map[], map[], map[], [])

  /** A dictionary with one more word, under the next id of its kind. */
  function Plus(own: Dict, next: map<Kind, nat>, w: Word): Dict
    requires NextIn(next, KindOf(w)) <= Last(KindOf(w))
  {
    own[w := NextIn(next, KindOf(w))]
  }

  function Next(s: State, kind: Kind): nat {
    NextIn(s.next, kind)
  }

  function Missing(c: Save): set<Word> {
    set w | w in c.wanted && KindOf(w) in c.snapped && w !in c.known
  }

  function MissingOf(c: Save, kind: Kind): set<Word> {
    set w | w in Missing(c) && KindOf(w) == kind
  }

  /** A unique constraint makes an insert wait for another transaction that holds the same word. */
  ghost predicate Waits(s: State, id: nat, w: Word) {
    exists other :: other in s.saves && other != id && w in s.saves[other].own
  }

  /** An insert draws an id even where the word turns out to be there already. */
  ghost predicate Enabled(s: State, e: Event) {
    match e
    case Begin(id, rows) => id !in s.saves
    case Snapshot(id, kind, hits) =>
      && id in s.saves && !s.saves[id].committed && kind !in s.saves[id].snapped
      && hits <= s.cache.Keys * Only(s.saves[id].wanted, kind)
    case Insert(id, w) =>
      && id in s.saves && !s.saves[id].committed && s.saves[id].snapped == ALL_KINDS
      && w in Missing(s.saves[id]) && w !in s.saves[id].tried && Writable(w)
      && Next(s, KindOf(w)) <= Last(KindOf(w)) && (w in s.committed || !Waits(s, id, w))
    case Select(id, kind) =>
      && id in s.saves && !s.saves[id].committed && s.saves[id].snapped == ALL_KINDS
      && kind !in s.saves[id].selected && MissingOf(s.saves[id], kind) <= s.saves[id].tried
    case Commit(id) =>
      && id in s.saves && !s.saves[id].committed && s.saves[id].selected == ALL_KINDS
      && SavedRows.FitColumns(s.saves[id].rows)
    case Rollback(id) => id in s.saves && !s.saves[id].committed
    case Merge(id) => id in s.saves && s.saves[id].committed
  }

  function Fresh(rows: seq<Invocation>): Save {
    Save(rows, WordsOf(rows), {}, map[], {}, map[], {}, map[], false)
  }

  function With(s: State, id: nat, c: Save): State {
    s.(saves := s.saves[id := c])
  }

  /** What one snapshot adds to the ids a save knows. */
  function Cached(s: State, hits: set<Word>): Dict {
    map w | w in hits && w in s.cache :: s.cache[w]
  }

  /** What the transaction sees of the words it lacked: its own inserts and committed ones. */
  function Visible(s: State, c: Save, kind: Kind): Dict {
    map w | w in MissingOf(c, kind) && (w in c.own || w in s.committed) ::
      if w in c.own then c.own[w] else s.committed[w]
  }

  /** INSERT ... ON CONFLICT DO NOTHING of one encoded row. */
  function Write(t: Table, r: Invocation, ids: Dict): Table {
    if SavedRows.KeyOf(r) in t then t else t[SavedRows.KeyOf(r) := Stored(r, Encode(r, ids))]
  }

  function WriteAll(t: Table, rows: seq<Invocation>, ids: Dict): Table {
    if rows == [] then t else Write(WriteAll(t, rows[..|rows| - 1], ids), rows[|rows| - 1], ids)
  }

  function AfterSkip(s: State, id: nat, w: Word): State
    requires id in s.saves
  {
    With(s.(next := Advance(s.next, KindOf(w))), id, s.saves[id].(tried := s.saves[id].tried + {w}))
  }

  function AfterInsert(s: State, id: nat, w: Word): State
    requires id in s.saves && Next(s, KindOf(w)) <= Last(KindOf(w))
  {
    var c := s.saves[id];
    With(s.(next := Advance(s.next, KindOf(w))), id, c.(tried := c.tried + {w}, own := Plus(c.own, s.next, w)))
  }

  function AfterCommit(s: State, id: nat): State
    requires id in s.saves
  {
    var c := s.saves[id];
    With(s.(committed := s.committed + c.own, table := WriteAll(s.table, c.rows, c.known + c.resolved),
            commits := s.commits + [c.rows]),
         id, c.(own := map[], committed := true))
  }

  ghost function Apply(s: State, e: Event): State {
    if !Enabled(s, e) then s
    else match e
      case Begin(id, rows) => With(s, id, Fresh(rows))
      case Snapshot(id, kind, hits) =>
        var c := s.saves[id];
        With(s, id, c.(snapped := c.snapped + {kind}, known := c.known + Cached(s, hits)))
      case Insert(id, w) =>
        if w in s.committed then AfterSkip(s, id, w) else AfterInsert(s, id, w)
      case Select(id, kind) =>
        var c := s.saves[id];
        With(s, id, c.(selected := c.selected + {kind}, resolved := c.resolved + Visible(s, c, kind)))
      case Commit(id) => AfterCommit(s, id)
      case Rollback(id) => s.(saves := s.saves - {id})
      case Merge(id) => s.(cache := s.cache + s.saves[id].resolved, saves := s.saves - {id})
  }

  ghost function Execute(run: seq<Event>): State {
    if run == [] then EMPTY else Apply(Execute(run[..|run| - 1]), run[|run| - 1])
  }

  lemma FittingRowsAreWritable(rows: seq<Invocation>)
    requires SavedRows.FitColumns(rows)
    ensures Writables(WordsOf(rows))
  {
    forall w | w in WordsOf(rows) ensures Writable(w) {
      var i :| 0 <= i < |rows| && w in RowWords(rows[i]);
      assert SavedRows.RowFits(rows[i]);
    }
  }

  // ---------- what every interleaving keeps ----------

  ghost predicate Within(x: Dict, d: Dict) {
    forall w :: w in x ==> w in d && x[w] == d[w]
  }

  /** Every id was issued by its sequence. */
  ghost predicate Issued(x: Dict, next: map<Kind, nat>) {
    forall w :: w in x ==> 0 < x[w] < NextIn(next, KindOf(w))
  }

  /** Two dictionaries that share no word and, within a kind, no id. */
  ghost predicate Apart(x: Dict, y: Dict) {
    forall u, v :: u in x && v in y ==> u != v && (KindOf(u) == KindOf(v) ==> x[u] != y[v])
  }

  /** Uncommitted ids were issued, and belong to no committed word. */
  ghost predicate OwnKept(d: Dict, next: map<Kind, nat>, own: Dict) {
    Issued(own, next) && OneWordAnId(own) && Apart(own, d)
  }

  ghost predicate OwnsKept(d: Dict, next: map<Kind, nat>, owns: map<nat, Dict>) {
    && (forall id :: id in owns ==> OwnKept(d, next, owns[id]))
    && (forall i, j :: i in owns && j in owns && i != j ==> Apart(owns[i], owns[j]))
  }

  function Owns(saves: map<nat, Save>): map<nat, Dict> {
    map id | id in saves :: saves[id].own
  }

  /** A save's own bookkeeping against the committed dictionary. */
  ghost predicate SaveKept(d: Dict, c: Save) {
    && Within(c.known, d)
    && c.own.Keys <= c.tried <= c.own.Keys + d.Keys
    && Within(c.resolved, d + c.own)
    && (c.tried != {} || c.selected != {} ==> c.snapped == ALL_KINDS)
    && (forall k :: k in c.selected ==> MissingOf(c, k) <= c.resolved.Keys)
    && (c.committed ==> c.own == map[] && c.selected == ALL_KINDS)
  }

  ghost predicate SavesKept(d: Dict, saves: map<nat, Save>) {
    forall id :: id in saves ==> SaveKept(d, saves[id])
  }

  ghost predicate Kept(s: State) {
    && Counting(s.next)
    && OneWordAnId(s.committed) && Issued(s.committed, s.next)
    && OwnsKept(s.committed, s.next, Owns(s.saves))
    && Within(s.cache, s.committed)
    && SavesKept(s.committed, s.saves)
  }

  /** By the time a save may commit, every word of its rows has an id, and the right one. */
  lemma NoLookupFails(d: Dict, c: Save, w: Word)
    requires SaveKept(d, c) && c.selected == ALL_KINDS && w in c.wanted
    requires Apart(c.own, d)
    ensures w in c.known + c.resolved && w in d + c.own && (c.known + c.resolved)[w] == (d + c.own)[w]
  {
    EveryKind(KindOf(w));
    if w !in c.known {
      assert w in MissingOf(c, KindOf(w));
    } else {
      assert w in d;
    }
  }

  lemma GrowthKeepsSave(d: Dict, d': Dict, c: Save)
    requires SaveKept(d, c) && Within(d, d') && Apart(c.own, d')
    ensures SaveKept(d', c)
  {
  }

  lemma OneSaveChanges(d: Dict, saves: map<nat, Save>, id: nat, c: Save)
    requires SavesKept(d, saves) && SaveKept(d, c)
    ensures SavesKept(d, saves[id := c])
  {
  }

  lemma OwnsOf(saves: map<nat, Save>, id: nat, c: Save)
    ensures Owns(saves[id := c]) == Owns(saves)[id := c.own]
    ensures id in saves && c.own == saves[id].own ==> Owns(saves[id := c]) == Owns(saves)
  {
  }

  /** A change to one save that leaves its inserts alone. */
  lemma ChangeKeeps(s: State, id: nat, c: Save)
    requires Kept(s) && SaveKept(s.committed, c)
    requires id in s.saves && c.own == s.saves[id].own
    ensures Kept(With(s, id, c))
  {
    OwnsOf(s.saves, id, c);
    OneSaveChanges(s.committed, s.saves, id, c);
  }

  lemma NothingOwned(d: Dict, next: map<Kind, nat>)
    ensures OwnKept(d, next, map[])
    ensures Apart(map[], d) && Apart(d, map[])
  {
  }

  /** A save that holds nothing is apart from every other. */
  lemma HoldsNothing(d: Dict, next: map<Kind, nat>, owns: map<nat, Dict>, id: nat)
    requires OwnsKept(d, next, owns)
    ensures OwnsKept(d, next, owns[id := map[]])
  {
    var owns' := owns[id := map[]];
    NothingOwned(d, next);
    forall i, j | i in owns' && j in owns' && i != j ensures Apart(owns'[i], owns'[j]) {
      if i == id {
        NothingOwned(owns'[j], next);
      } else if j == id {
        NothingOwned(owns'[i], next);
      }
    }
  }

  lemma BeginKeeps(s: State, id: nat, rows: seq<Invocation>)
    requires Kept(s) && Enabled(s, Begin(id, rows))
    ensures Kept(Apply(s, Begin(id, rows)))
  {
    var c := Fresh(rows);
    HoldsNothing(s.committed, s.next, Owns(s.saves), id);
    OwnsOf(s.saves, id, c);
    OneSaveChanges(s.committed, s.saves, id, c);
  }

  lemma SnapshotKeeps(s: State, id: nat, kind: Kind, hits: set<Word>)
    requires Kept(s) && Enabled(s, Snapshot(id, kind, hits))
    ensures Kept(Apply(s, Snapshot(id, kind, hits)))
  {
    var c := s.saves[id];
    assert SaveKept(s.committed, c);
    EveryKind(kind);
    var c' := c.(snapped := c.snapped + {kind}, known := c.known + Cached(s, hits));
    assert c.selected == {} && c.tried == {};
    assert SaveKept(s.committed, c');
    ChangeKeeps(s, id, c');
  }

  lemma SameMissing(c: Save, c': Save, kind: Kind)
    requires c'.wanted == c.wanted && c'.snapped == c.snapped && c'.known == c.known
    ensures MissingOf(c', kind) == MissingOf(c, kind)
  {
  }

  lemma SelectedSaveKept(s: State, c: Save, kind: Kind)
    requires SaveKept(s.committed, c) && c.snapped == ALL_KINDS && MissingOf(c, kind) <= c.tried && !c.committed
    ensures SaveKept(s.committed, c.(selected := c.selected + {kind}, resolved := c.resolved + Visible(s, c, kind)))
  {
    var c' := c.(selected := c.selected + {kind}, resolved := c.resolved + Visible(s, c, kind));
    assert MissingOf(c, kind) <= Visible(s, c, kind).Keys;
    forall k | k in c'.selected ensures MissingOf(c', k) <= c'.resolved.Keys {
      SameMissing(c, c', k);
    }
    assert Within(Visible(s, c, kind), s.committed + c.own);
  }

  lemma SelectKeeps(s: State, id: nat, kind: Kind)
    requires Kept(s) && Enabled(s, Select(id, kind))
    ensures Kept(Apply(s, Select(id, kind)))
  {
    var c := s.saves[id];
    SelectedSaveKept(s, c, kind);
    ChangeKeeps(s, id, c.(selected := c.selected + {kind}, resolved := c.resolved + Visible(s, c, kind)));
  }

  lemma SequenceAdvances(x: Dict, next: map<Kind, nat>, kind: Kind)
    requires Issued(x, next)
    ensures Issued(x, Advance(next, kind))
  {
  }

  lemma OwnsAdvance(d: Dict, next: map<Kind, nat>, owns: map<nat, Dict>, kind: Kind)
    requires OwnsKept(d, next, owns)
    ensures OwnsKept(d, Advance(next, kind), owns)
  {
    forall i | i in owns ensures OwnKept(d, Advance(next, kind), owns[i]) {
      SequenceAdvances(owns[i], next, kind);
    }
  }

  lemma CountingGoesOn(next: map<Kind, nat>, kind: Kind)
    requires Counting(next) && NextIn(next, kind) <= Last(kind)
    ensures Counting(Advance(next, kind))
  {
    forall k ensures 1 <= NextIn(Advance(next, kind), k) <= Last(k) + 1 { assert 1 <= NextIn(next, k) <= Last(k) + 1; }
  }

  lemma SkippedSaveKept(d: Dict, c: Save, w: Word)
    requires SaveKept(d, c) && c.snapped == ALL_KINDS && w in d
    ensures SaveKept(d, c.(tried := c.tried + {w}))
  {
    var c' := c.(tried := c.tried + {w});
    forall k | k in c'.selected ensures MissingOf(c', k) <= c'.resolved.Keys { SameMissing(c, c', k); }
  }

  /** A word committed by another save in the meantime costs an id and inserts nothing. */
  lemma SkipKeeps(s: State, id: nat, w: Word)
    requires Kept(s) && Enabled(s, Insert(id, w)) && w in s.committed
    ensures Kept(Apply(s, Insert(id, w)))
  {
    var t := s.(next := Advance(s.next, KindOf(w)));
    CountingGoesOn(s.next, KindOf(w));
    SequenceAdvances(s.committed, s.next, KindOf(w));
    OwnsAdvance(s.committed, s.next, Owns(s.saves), KindOf(w));
    assert SaveKept(s.committed, s.saves[id]);
    SkippedSaveKept(s.committed, s.saves[id], w);
    ChangeKeeps(t, id, s.saves[id].(tried := s.saves[id].tried + {w}));
  }

  /** A new id is apart from everything issued before it. */
  lemma NewIdIsApart(x: Dict, own: Dict, next: map<Kind, nat>, w: Word)
    requires Issued(x, next) && Apart(own, x) && w !in x && NextIn(next, KindOf(w)) <= Last(KindOf(w))
    ensures Apart(Plus(own, next, w), x) && Apart(x, Plus(own, next, w))
  {
  }

  lemma NewIdIsOwned(own: Dict, next: map<Kind, nat>, w: Word)
    requires Issued(own, next) && OneWordAnId(own) && 0 < NextIn(next, KindOf(w)) <= Last(KindOf(w))
    ensures var next' := Advance(next, KindOf(w));
            Issued(Plus(own, next, w), next') && OneWordAnId(Plus(own, next, w))
  {
  }

  lemma InsertOwnsKept(d: Dict, next: map<Kind, nat>, owns: map<nat, Dict>, id: nat, w: Word)
    requires OwnsKept(d, next, owns) && Issued(d, next)
    requires id in owns && w !in d && 0 < NextIn(next, KindOf(w)) <= Last(KindOf(w))
    requires forall other :: other in owns && other != id ==> w !in owns[other]
    ensures OwnsKept(d, Advance(next, KindOf(w)), owns[id := Plus(owns[id], next, w)])
  {
    var owns' := owns[id := Plus(owns[id], next, w)];
    var next' := Advance(next, KindOf(w));
    forall i | i in owns' ensures OwnKept(d, next', owns'[i]) {
      assert OwnKept(d, next, owns[i]);
      if i == id {
        NewIdIsOwned(owns[id], next, w);
        NewIdIsApart(d, owns[id], next, w);
      } else {
        SequenceAdvances(owns[i], next, KindOf(w));
      }
    }
    forall i, j | i in owns' && j in owns' && i != j ensures Apart(owns'[i], owns'[j]) {
      NewPairIsApart(d, next, owns, i, j, id, w);
    }
  }

  lemma NewPairIsApart(d: Dict, next: map<Kind, nat>, owns: map<nat, Dict>, i: nat, j: nat, id: nat, w: Word)
    requires OwnsKept(d, next, owns) && id in owns && i in owns && j in owns && i != j
    requires forall other :: other in owns && other != id ==> w !in owns[other]
    requires 0 < NextIn(next, KindOf(w)) <= Last(KindOf(w))
    ensures var owns' := owns[id := Plus(owns[id], next, w)]; Apart(owns'[i], owns'[j])
  {
    assert OwnKept(d, next, owns[i]) && OwnKept(d, next, owns[j]);
    if i == id {
      NewIdIsApart(owns[j], owns[i], next, w);
    } else if j == id {
      assert Apart(owns[j], owns[i]);
      NewIdIsApart(owns[i], owns[j], next, w);
    }
  }

  lemma InsertedSaveKept(d: Dict, c: Save, w: Word, x: Int32)
    requires SaveKept(d, c) && c.snapped == ALL_KINDS && w !in d && w !in c.tried && !c.committed
    ensures SaveKept(d, c.(tried := c.tried + {w}, own := c.own[w := x]))
  {
    var c' := c.(tried := c.tried + {w}, own := c.own[w := x]);
    forall k | k in c'.selected ensures MissingOf(c', k) <= c'.resolved.Keys { SameMissing(c, c', k); }
    assert w !in c.resolved;
  }

  lemma InsertKeepsSaves(s: State, id: nat, w: Word)
    requires SavesKept(s.committed, s.saves) && Enabled(s, Insert(id, w)) && w !in s.committed
    ensures SavesKept(s.committed, AfterInsert(s, id, w).saves)
  {
    var c := s.saves[id];
    InsertedSaveKept(s.committed, c, w, Next(s, KindOf(w)));
    OneSaveChanges(s.committed, s.saves, id, AfterInsert(s, id, w).saves[id]);
  }

  lemma InsertKeepsOwns(s: State, id: nat, w: Word)
    requires OwnsKept(s.committed, s.next, Owns(s.saves)) && Issued(s.committed, s.next) && Next(s, KindOf(w)) > 0
    requires Enabled(s, Insert(id, w)) && w !in s.committed
    ensures OwnsKept(s.committed, Advance(s.next, KindOf(w)), Owns(AfterInsert(s, id, w).saves))
  {
    var owns := Owns(s.saves);
    forall other | other in owns && other != id ensures w !in owns[other] {
      assert other in s.saves && owns[other] == s.saves[other].own;
    }
    InsertOwnsKept(s.committed, s.next, owns, id, w);
    OwnsOf(s.saves, id, AfterInsert(s, id, w).saves[id]);
  }

  lemma InsertKeeps(s: State, id: nat, w: Word)
    requires Kept(s) && Enabled(s, Insert(id, w)) && w !in s.committed
    ensures Kept(Apply(s, Insert(id, w)))
  {
    InsertKeepsSaves(s, id, w);
    InsertKeepsOwns(s, id, w);
    CountingGoesOn(s.next, KindOf(w));
    SequenceAdvances(s.committed, s.next, KindOf(w));
  }

  // ---------- committing ----------

  lemma UnionKept(d: Dict, next: map<Kind, nat>, own: Dict)
    requires OneWordAnId(d) && Issued(d, next) && OwnKept(d, next, own)
    ensures OneWordAnId(d + own) && Issued(d + own, next) && Within(d, d + own)
  {
  }

  lemma ApartFromUnion(x: Dict, d: Dict, own: Dict)
    requires Apart(x, d) && Apart(x, own)
    ensures Apart(x, d + own)
  {
  }

  lemma CommitOwnsKept(d: Dict, next: map<Kind, nat>, owns: map<nat, Dict>, id: nat)
    requires OwnsKept(d, next, owns) && id in owns
    ensures OwnsKept(d + owns[id], next, owns[id := map[]])
  {
    HoldsNothing(d, next, owns, id);
    var owns' := owns[id := map[]];
    NothingOwned(d + owns[id], next);
    forall i | i in owns' ensures OwnKept(d + owns[id], next, owns'[i]) {
      if i != id {
        assert OwnKept(d, next, owns[i]) && Apart(owns[i], owns[id]);
        ApartFromUnion(owns[i], d, owns[id]);
      }
    }
  }

  lemma CommittedSaveKept(d: Dict, c: Save)
    requires SaveKept(d, c) && c.selected == ALL_KINDS && Apart(c.own, d)
    ensures SaveKept(d + c.own, c.(own := map[], committed := true))
  {
    var c' := c.(own := map[], committed := true);
    forall k | k in c'.selected ensures MissingOf(c', k) <= c'.resolved.Keys { SameMissing(c, c', k); }
  }

  lemma OtherSaveKept(d: Dict, next: map<Kind, nat>, saves: map<nat, Save>, id: nat, other: nat)
    requires OwnsKept(d, next, Owns(saves)) && id in saves && other in saves && other != id
    requires SaveKept(d, saves[other]) && Within(d, d + saves[id].own)
    ensures SaveKept(d + saves[id].own, saves[other])
  {
    var owns := Owns(saves);
    assert owns[id] == saves[id].own && owns[other] == saves[other].own;
    assert Apart(owns[other], owns[id]) && OwnKept(d, next, owns[other]);
    ApartFromUnion(owns[other], d, owns[id]);
    GrowthKeepsSave(d, d + owns[id], saves[other]);
  }

  lemma CommitKeepsSaves(s: State, id: nat)
    requires SavesKept(s.committed, s.saves) && OwnsKept(s.committed, s.next, Owns(s.saves))
    requires Enabled(s, Commit(id)) && Within(s.committed, s.committed + s.saves[id].own)
    requires Apart(s.saves[id].own, s.committed)
    ensures SavesKept(AfterCommit(s, id).committed, AfterCommit(s, id).saves)
  {
    CommittedSaveKept(s.committed, s.saves[id]);
    forall i | i in s.saves && i != id ensures SaveKept(s.committed + s.saves[id].own, s.saves[i]) {
      OtherSaveKept(s.committed, s.next, s.saves, id, i);
    }
  }

  lemma CommitKeeps(s: State, id: nat)
    requires Kept(s) && Enabled(s, Commit(id))
    ensures Kept(AfterCommit(s, id))
  {
    var owns := Owns(s.saves);
    assert owns[id] == s.saves[id].own && OwnKept(s.committed, s.next, owns[id]);
    UnionKept(s.committed, s.next, owns[id]);
    CommitOwnsKept(s.committed, s.next, owns, id);
    OwnsOf(s.saves, id, AfterCommit(s, id).saves[id]);
    CommitKeepsSaves(s, id);
  }

  // ---------- leaving ----------

  lemma LeavingKeeps(s: State, id: nat)
    requires Kept(s)
    ensures Kept(s.(saves := s.saves - {id}))
  {
    var saves' := s.saves - {id};
    assert forall i :: i in Owns(saves') ==> i in Owns(s.saves) && Owns(saves')[i] == Owns(s.saves)[i];
  }

  lemma MergeKeeps(s: State, id: nat)
    requires Kept(s) && Enabled(s, Merge(id))
    ensures Kept(Apply(s, Merge(id)))
  {
    var c := s.saves[id];
    assert SaveKept(s.committed, c);
    assert s.committed + c.own == s.committed;
    assert Within(s.cache + c.resolved, s.committed);
    LeavingKeeps(s.(cache := s.cache + c.resolved), id);
  }

  lemma StepKeeps(s: State, e: Event)
    requires Kept(s)
    ensures Kept(Apply(s, e))
  {
    if Enabled(s, e) {
      match e
      case Begin(id, rows) => BeginKeeps(s, id, rows);
      case Snapshot(id, kind, hits) => SnapshotKeeps(s, id, kind, hits);
      case Insert(id, w) => if w in s.committed { SkipKeeps(s, id, w); } else { InsertKeeps(s, id, w); }
      case Select(id, kind) => SelectKeeps(s, id, kind);
      case Commit(id) => CommitKeeps(s, id);
      case Rollback(id) => LeavingKeeps(s, id);
      case Merge(id) => MergeKeeps(s, id);
    }
  }

  lemma {:induction false} RunKeeps(run: seq<Event>)
    ensures Kept(Execute(run))
  {
    if run == [] {
    } else {
      RunKeeps(run[..|run| - 1]);
      StepKeeps(Execute(run[..|run| - 1]), run[|run| - 1]);
    }
  }

  /** In every interleaving a committed id fits its column: 16 bits for contracts and functions, 32 for addresses. */
  lemma IdsFitTheirColumns(run: seq<Event>, w: Word)
    requires w in Execute(run).committed
    ensures 1 <= Execute(run).committed[w] <= if w.OfAddress? then 2147483647 else 32767
  {
    RunKeeps(run);
  }
}
