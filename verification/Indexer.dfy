/**
 The indexer's own loops over a store: a batch is fetched as a whole and saved in ledger
 order, and follow and backfill run until they are stopped. Every outcome the program does
 not control is a parameter.
 */
module Indexer {
  import opened Wrappers
  import opened Bytes
  import opened Extract
  import opened Dictionary
  import opened Ids
  import opened SavedRows
  import opened Ingest
  import SavesDecode
  import S = Store

  /** A checkpoint write can take place without the program hearing of it, too. */
  datatype Record = Written | Refused | WrittenUnseen

  /** Which fetches of a turn succeed, what becomes of its save, and of its checkpoint. */
  datatype Luck = Luck(up: seq<bool>, fate: S.Fate, record: Record)

  function Fetch(a: Archive, l: UInt32, up: bool): Result<seq<Invocation>> {
    if up && l in a then Ok(a[l]) else Result.Fail
  }

  function Up(luck: Luck, i: nat): bool {
    i < |luck.up| && luck.up[i]
  }

  predicate AllFetched(a: Archive, asked: seq<UInt32>, luck: Luck) {
    Fetchable(a, asked) && forall i :: 0 <= i < |asked| ==> Up(luck, i)
  }

  // ---------- one attempt to save ----------

  /** The attempt gets to its commit. */
  ghost predicate Commits(a: Archive, s: State, asked: seq<UInt32>, luck: Luck) {
    && AllFetched(a, asked, luck)
    && var rows := Fetched(a, asked);
       S.Goes(s.next, WordsOf(rows) - Known(s, 0), rows, luck.fate)
  }

  /** The program gets to know that it was saved. */
  ghost predicate Succeeds(a: Archive, s: State, asked: seq<UInt32>, luck: Luck) {
    Commits(a, s, asked, luck) && !luck.fate.Unseen?
  }

  /** What it leaves: nothing if a fetch failed, and otherwise at least the ids it drew. */
  ghost function Attempted(a: Archive, s: State, asked: seq<UInt32>, ledger: UInt32, luck: Luck): State {
    if !AllFetched(a, asked, luck) then s else SavedAs(s, ledger, Fetched(a, asked), luck.fate)
  }

  ghost function SavedAs(s: State, ledger: UInt32, rows: seq<Invocation>, fate: S.Fate): State {
    var missing := WordsOf(rows) - Known(s, 0);
    if !S.Goes(s.next, missing, rows, fate) then s.(next := S.NextAfter(s.next, missing, fate))
    else if fate.Unseen? then Save(s, ledger, rows, missing)
    else Learn(Save(s, ledger, rows, missing), 0, missing)
  }

  // ---------- the loops, turn by turn ----------

  /** Where a process stands after a save it knows of. */
  function After(p: Process): Process
    requires !p.Saved?
  {
    if p.Following? then Following(p.first, Add32(p.next, 1)) else Saved(p.first, p.end, p.concurrency, UpTo(p))
  }

  /** A turn of a process that has something to save: an attempt, and on if it knows of its success. */
  ghost function Turn(a: Archive, s: State, luck: Luck): State
    requires Saving(s, 0)
  {
    var p := s.processes[0];
    var t := Attempted(a, s, Wanted(p), UpTo(p), luck);
    if Succeeds(a, s, Wanted(p), luck) then With(t, 0, After(p)) else t
  }

  ghost function FollowTurn(a: Archive, s: State, luck: Luck): State {
    if Saving(s, 0) && s.processes[0].Following? then Turn(a, s, luck) else s
  }

  ghost function FollowTurns(a: Archive, s: State, weather: seq<Luck>): State {
    if weather == [] then s else FollowTurn(a, FollowTurns(a, s, weather[..|weather| - 1]), weather[|weather| - 1])
  }

  predicate Unfinished(s: State) {
    0 in s.processes && s.processes[0].Filling? && s.processes[0].next <= s.processes[0].end
  }

  /** The range checkpoint after a batch that was saved; a process that cannot write it ends. */
  ghost function Recorded(s: State, record: Record): State
    requires 0 in s.processes && s.processes[0].Saved?
  {
    match record
    case Written => AfterCheckpoint(s, 0)
    case Refused => s.(processes := s.processes - {0})
    case WrittenUnseen => AfterCheckpoint(s, 0).(processes := s.processes - {0})
  }

  /** A backfill's turn tries to save a batch, and records it if it knows it saved. */
  ghost function FillTurn(a: Archive, s: State, luck: Luck): State {
    if !Unfinished(s) then s
    else if Succeeds(a, s, Wanted(s.processes[0]), luck) then Recorded(Turn(a, s, luck), luck.record)
    else Turn(a, s, luck)
  }

  ghost function FillTurns(a: Archive, s: State, weather: seq<Luck>): State {
    if weather == [] then s else FillTurn(a, FillTurns(a, s, weather[..|weather| - 1]), weather[|weather| - 1])
  }

  /** Where a backfill that starts now gets to. */
  ghost function Filled(a: Archive, s: State, start: UInt32, end: UInt32, concurrency: nat, weather: seq<Luck>): State {
    FillTurns(a, Apply(a, s, StartBackfill(0, start, end, concurrency)), weather)
  }

  datatype Outcome = AlreadyComplete | Complete | Stopped | CheckpointFailed

  /** How it ends, by whether it had anything to do, whether it still runs and whether it has more to do. */
  ghost function OutcomeOf(s: State, start: UInt32, end: UInt32, filled: State): Outcome {
    if FillFrom(s, start, end) > end then AlreadyComplete else EndOf(filled)
  }

  ghost function EndOf(filled: State): Outcome {
    if 0 !in filled.processes then CheckpointFailed else if Unfinished(filled) then Stopped else Complete
  }

  lemma {:induction false} NeverFollows(a: Archive, s: State, weather: seq<Luck>)
    requires 0 !in s.processes
    ensures FollowTurns(a, s, weather) == s
  {
    if weather == [] {
    } else {
      NeverFollows(a, s, weather[..|weather| - 1]);
    }
  }

  lemma OneMoreTurn(a: Archive, s: State, weather: seq<Luck>, i: nat)
    requires i < |weather|
    ensures FillTurns(a, s, weather[..i + 1]) == FillTurn(a, FillTurns(a, s, weather[..i]), weather[i])
  {
    assert weather[..i + 1][..i] == weather[..i];
  }

  lemma OneMoreFollowed(a: Archive, s: State, weather: seq<Luck>, i: nat)
    requires i < |weather|
    ensures FollowTurns(a, s, weather[..i + 1]) == FollowTurn(a, FollowTurns(a, s, weather[..i]), weather[i])
  {
    assert weather[..i + 1][..i] == weather[..i];
  }

  lemma {:induction false} NothingMoreToFill(a: Archive, s: State, weather: seq<Luck>, n: nat)
    requires n <= |weather| && !Unfinished(FillTurns(a, s, weather[..n]))
    ensures FillTurns(a, s, weather) == FillTurns(a, s, weather[..n])
    decreases |weather| - n
  {
    if n >= |weather| {
      assert weather[..n] == weather;
    } else {
      assert weather[..n + 1][..n] == weather[..n];
      NothingMoreToFill(a, s, weather, n + 1);
    }
  }

  /** A backfill that has ended, or has nothing left to fill, or has had all its weather. */
  lemma LoopEnds(a: Archive, s: State, weather: seq<Luck>, n: nat, t: State)
    requires n <= |weather| && t == FillTurns(a, s, weather[..n]) && (n == |weather| || !Unfinished(t))
    ensures t == FillTurns(a, s, weather)
  {
    if n == |weather| {
      assert weather[..n] == weather;
    } else {
      NothingMoreToFill(a, s, weather, n);
    }
  }

  // ---------- every turn takes steps of the protocol ----------

  /** The step of the protocol that an attempt of process 0 is, once everything is fetched. */
  ghost function StepOf(a: Archive, s: State, luck: Luck): Event
    requires Saving(s, 0) && AllFetched(a, Wanted(s.processes[0]), luck)
  {
    var p := s.processes[0];
    if !Commits(a, s, Wanted(p), luck) then
      Event.Fail(0, S.NextAfter(s.next, WordsOf(Fetched(a, Wanted(p))) - Known(s, 0), luck.fate))
    else if luck.fate.Unseen? then SaveUnseen(0)
    else if p.Following? then SaveOne(0)
    else SaveBatch(0)
  }

  lemma CommitIsAStep(a: Archive, s: State, luck: Luck)
    requires Saving(s, 0) && Commits(a, s, Wanted(s.processes[0]), luck)
    ensures Turn(a, s, luck) == Apply(a, s, StepOf(a, s, luck))
  {
    assert CanSave(a, s, 0);
  }

  lemma FailureIsAStep(a: Archive, s: State, luck: Luck)
    requires Saving(s, 0) && Counting(s.next) && AllFetched(a, Wanted(s.processes[0]), luck)
    requires !Commits(a, s, Wanted(s.processes[0]), luck)
    ensures Turn(a, s, luck) == Apply(a, s, StepOf(a, s, luck))
  {
    var missing := WordsOf(Fetched(a, Wanted(s.processes[0]))) - Known(s, 0);
    DrawKindsAdvance(s.next, missing, IN_ORDER[..S.Sent(luck.fate)]);
  }

  /** A turn takes a step of the protocol, or nothing came of its fetches and nothing changes. */
  lemma TurnIsAStep(a: Archive, s: State, luck: Luck)
    requires Saving(s, 0) && Counting(s.next)
    ensures Turn(a, s, luck) ==
            if AllFetched(a, Wanted(s.processes[0]), luck) then Apply(a, s, StepOf(a, s, luck)) else s
  {
    if AllFetched(a, Wanted(s.processes[0]), luck) {
      if Commits(a, s, Wanted(s.processes[0]), luck) {
        CommitIsAStep(a, s, luck);
      } else {
        FailureIsAStep(a, s, luck);
      }
    }
  }

  /** A checkpoint write, and the end of a process that cannot write it, are steps of the protocol. */
  lemma RecordingIsSteps(a: Archive, s: State, record: Record)
    requires 0 in s.processes && s.processes[0].Saved?
    ensures Recorded(s, record) ==
            match record
            case Written => Apply(a, s, SetRangeCheckpoint(0))
            case Refused => Apply(a, s, Stop(0))
            case WrittenUnseen => Apply(a, Apply(a, s, SetRangeCheckpoint(0)), Stop(0))
  {
    if record.WrittenUnseen? { assert AfterCheckpoint(s, 0).processes - {0} == s.processes - {0}; }
  }

  lemma RecordingKeeps(a: Archive, s: State, record: Record)
    requires ValidArchive(a) && Kept(a, s) && 0 in s.processes && s.processes[0].Saved?
    ensures Kept(a, Recorded(s, record))
  {
    RecordingIsSteps(a, s, record);
    StepKeeps(a, s, SetRangeCheckpoint(0));
    StepKeeps(a, s, Stop(0));
    StepKeeps(a, Apply(a, s, SetRangeCheckpoint(0)), Stop(0));
  }

  lemma FillTurnKeeps(a: Archive, s: State, luck: Luck)
    requires ValidArchive(a) && Kept(a, s)
    ensures Kept(a, FillTurn(a, s, luck))
  {
    if Unfinished(s) {
      TurnIsAStep(a, s, luck);
      if AllFetched(a, Wanted(s.processes[0]), luck) { StepKeeps(a, s, StepOf(a, s, luck)); }
      if Succeeds(a, s, Wanted(s.processes[0]), luck) { RecordingKeeps(a, Turn(a, s, luck), luck.record); }
    }
  }

  lemma {:induction false} FillTurnsKeep(a: Archive, s: State, weather: seq<Luck>)
    requires ValidArchive(a) && Kept(a, s)
    ensures Kept(a, FillTurns(a, s, weather))
  {
    if weather == [] {
    } else {
      FillTurnsKeep(a, s, weather[..|weather| - 1]);
      FillTurnKeeps(a, FillTurns(a, s, weather[..|weather| - 1]), weather[|weather| - 1]);
    }
  }

  lemma FilledKeeps(a: Archive, s: State, start: UInt32, end: UInt32, concurrency: nat, weather: seq<Luck>)
    requires ValidArchive(a) && Kept(a, s)
    ensures Kept(a, Filled(a, s, start, end, concurrency, weather))
  {
    StepKeeps(a, s, StartBackfill(0, start, end, concurrency));
    FillTurnsKeep(a, Apply(a, s, StartBackfill(0, start, end, concurrency)), weather);
  }

  // ---------- the steps of a process that runs alone ----------

  lemma StartsFilling(a: Archive, s: State, start: UInt32, end: UInt32, concurrency: nat)
    requires s.processes == map[] && 0 < start <= end && 1 <= concurrency <= MAX_CONCURRENCY
    ensures var from := FillFrom(s, start, end);
            Apply(a, s, StartBackfill(0, start, end, concurrency)) ==
            if from > end then s else s.(processes := map[0 := Filling(start, end, concurrency, from)])
  {
  }

  lemma AlreadyFilled(a: Archive, s: State, start: UInt32, end: UInt32)
    requires Kept(a, s) && 0 < start <= end
    ensures 0 <= Checkpoint(s, RangeName(start, end)) < TWO_32
    ensures FillFrom(s, start, end) > end <==> end + 1 < TWO_32 && Checkpoint(s, RangeName(start, end)) == end
    ensures FillFrom(s, start, end) > end ==> AllStored(a, s.table, start, end + 1)
  {
    assert RangeKept(a, s, start, end);
  }

  lemma AllFilled(a: Archive, s: State)
    requires Kept(a, s) && 0 in s.processes && s.processes[0].Filling? && s.processes[0].next > s.processes[0].end
    ensures AllStored(a, s.table, s.processes[0].first, s.processes[0].end + 1)
  {
    assert ProcessKept(a, s.table, s.processes[0]);
  }

  /** How a backfill that could write its checkpoints ends. */
  lemma Ends(a: Archive, filled: State, start: UInt32, end: UInt32, concurrency: nat, next: UInt32)
    requires Kept(a, filled) && filled.processes == map[0 := Filling(start, end, concurrency, next)]
    ensures EndOf(filled) == if next > end then Complete else Stopped
    ensures Apply(a, filled, Stop(0)) == filled.(processes := map[])
    ensures next > end ==> AllStored(a, filled.table, start, end + 1)
  {
    Leaves(a, filled, Filling(start, end, concurrency, next));
    if next > end { AllFilled(a, filled); }
  }

  // ---------- the store as the protocol sees it ----------

  /** The table without its ids, and the names this store's cache knows. */
  ghost function ViewOf(db: S.Database, known: set<Word>, processes: map<nat, Process>): State {
    State(SavesDecode.Originals(db.table), db.checkpoints, db.next, map[0 := known], processes)
  }

  ghost function View(st: S.Store, processes: map<nat, Process>): State
    reads st
  {
    ViewOf(st.db, st.cache.Keys, processes)
  }

  /** A save of the store is an attempt of the protocol. */
  lemma StoreSaves(db: S.Database, db': S.Database, known: set<Word>, known': set<Word>, ledger: UInt32,
                   rows: seq<Invocation>, fate: S.Fate, ps: map<nat, Process>)
    requires var missing := WordsOf(rows) - known;
             && db'.next == S.NextAfter(db.next, missing, fate)
             && (S.Goes(db.next, missing, rows, fate) ==> S.Saves(db, db', ledger, rows))
             && (!S.Goes(db.next, missing, rows, fate) ==> db' == db.(next := db'.next))
             && known' == if S.Goes(db.next, missing, rows, fate) && !fate.Unseen? then known + missing else known
    ensures ViewOf(db', known', ps) == SavedAs(ViewOf(db, known, ps), ledger, rows, fate)
  {
    var missing := WordsOf(rows) - known;
    if S.Goes(db.next, missing, rows, fate) {
      CommitInView(db, db', known, ledger, rows, fate, ps);
      LearnsInView(db', known, missing, ps);
    }
  }

  lemma LearnsInView(db: S.Database, known: set<Word>, names: set<Word>, ps: map<nat, Process>)
    ensures Learn(ViewOf(db, known, ps), 0, names) == ViewOf(db, known + names, ps)
  {
    assert map[0 := known][0 := known + names] == map[0 := known + names];
  }

  lemma CommitInView(db: S.Database, db': S.Database, known: set<Word>, ledger: UInt32, rows: seq<Invocation>,
                     fate: S.Fate, ps: map<nat, Process>)
    requires var missing := WordsOf(rows) - known;
             && S.Goes(db.next, missing, rows, fate) && S.Saves(db, db', ledger, rows)
             && db'.next == S.NextAfter(db.next, missing, fate)
    ensures ViewOf(db', known, ps) == Save(ViewOf(db, known, ps), ledger, rows, WordsOf(rows) - known)
  {
    S.CommittedDrawsAll(db.next, WordsOf(rows) - known, rows, fate);
    SavesDecode.WriteAllInserts(db.table, rows, db'.committed);
  }

  /** A save seen by the program is a turn of a process alone on the store. */
  lemma TurnInView(a: Archive, db: S.Database, db': S.Database, known: set<Word>, known': set<Word>, p: Process,
                   luck: Luck, saved: bool)
    requires !p.Saved? && (p.Filling? ==> p.next <= p.end)
    requires saved <==> Succeeds(a, ViewOf(db, known, map[]), Wanted(p), luck)
    requires ViewOf(db', known', map[0 := p]) == Attempted(a, ViewOf(db, known, map[0 := p]), Wanted(p), UpTo(p), luck)
    ensures ViewOf(db', known', map[0 := if saved then After(p) else p]) ==
        Turn(a, ViewOf(db, known, map[0 := p]), luck)
    ensures saved <==> Succeeds(a, ViewOf(db, known, map[0 := p]), Wanted(p), luck)
  {
    assert map[0 := p][0 := After(p)] == map[0 := After(p)];
  }

  // ---------- the program ----------

  /** Saves rows under a ledger's number: a save of the protocol or an attempt that failed. */
  method SaveRows(st: S.Store, ledger: UInt32, rows: seq<Invocation>, fate: S.Fate) returns (ok: bool)
    requires st.Valid()
    modifies st
    ensures st.Valid()
    ensures ok <==> old(st.Going(rows, fate)) && !fate.Unseen?
    ensures forall ps :: View(st, ps) == SavedAs(old(View(st, ps)), ledger, rows, fate)
  {
    ghost var db, known := st.db, st.cache.Keys;
    ok := st.SaveLedger(ledger, rows, fate);
    forall ps ensures View(st, ps) == SavedAs(ViewOf(db, known, ps), ledger, rows, fate) {
      StoreSaves(db, st.db, known, st.cache.Keys, ledger, rows, fate, ps);
    }
  }

  /** Fetches the ledgers from..to and saves them in order, if every one of them came. */
  method IndexBatch(a: Archive, st: S.Store, from: UInt32, to: UInt32, luck: Luck) returns (ok: bool)
    requires st.Valid()
    modifies st
    ensures st.Valid()
    ensures ok <==> Succeeds(a, old(View(st, map[])), Asked(from, Count(from, to)), luck)
    ensures forall ps :: View(st, ps) == Attempted(a, old(View(st, ps)), Asked(from, Count(from, to)), to, luck)
  {
    var results := FetchAll(a, from, Count(from, to), luck);
    var rows := Gather(a, Asked(from, Count(from, to)), luck, results);
    if rows.Fail? { return false; }
    ok := SaveRows(st, to, rows.value, luck.fate);
  }

  /** Every fetch of a batch has its own place, whatever the order they come back in. */
  method FetchAll(a: Archive, from: UInt32, count: nat, luck: Luck) returns (results: array<Result<seq<Invocation>>>)
    ensures fresh(results) && results.Length == count
    ensures forall j :: 0 <= j < count ==> results[j] == Fetch(a, Asked(from, count)[j], Up(luck, j))
  {
    results := new Result<seq<Invocation>>[count];
    var i := 0;
    while i < count
      invariant 0 <= i <= count
      invariant forall j :: 0 <= j < i ==> results[j] == Fetch(a, Asked(from, count)[j], Up(luck, j))
      modifies results
    {
      results[i] := Fetch(a, Add32(from, i), Up(luck, i));
      i := i + 1;
    }
  }

  /** The results in order; one that failed fails the batch. */
  method Gather(a: Archive, ghost asked: seq<UInt32>, luck: Luck, results: array<Result<seq<Invocation>>>)
      returns (all: Result<seq<Invocation>>)
    requires results.Length == |asked|
    requires forall j :: 0 <= j < |asked| ==> results[j] == Fetch(a, asked[j], Up(luck, j))
    ensures all == if AllFetched(a, asked, luck) then Ok(Fetched(a, asked)) else Result.Fail
  {
    var rows: seq<Invocation> := [];
    var i := 0;
    while i < results.Length
      invariant 0 <= i <= |asked|
      invariant Fetchable(a, asked[..i]) && rows == Fetched(a, asked[..i])
      invariant forall j :: 0 <= j < i ==> Up(luck, j)
    {
      if results[i].Fail? { return Result.Fail; }
      assert asked[..i + 1][..i] == asked[..i];
      rows := rows + results[i].value;
      i := i + 1;
    }
    assert asked[..i] == asked;
    all := Ok(rows);
  }

  /** One ledger: fetched, then saved under its own number. */
  method IndexOne(a: Archive, st: S.Store, ledger: UInt32, luck: Luck) returns (ok: bool)
    requires st.Valid()
    modifies st
    ensures st.Valid()
    ensures ok <==> Succeeds(a, old(View(st, map[])), [ledger], luck)
    ensures forall ps :: View(st, ps) == Attempted(a, old(View(st, ps)), [ledger], ledger, luck)
  {
    var fetched := Fetch(a, ledger, Up(luck, 0));
    if fetched.Fail? { return false; }
    FetchedOne(a, ledger);
    ok := SaveRows(st, ledger, fetched.value, luck.fate);
  }

  /** Follows the archive until it is stopped; refuses to start with neither a checkpoint nor a flag. */
  method Follow(a: Archive, st: S.Store, startFlag: UInt32, weather: seq<Luck>) returns (started: bool)
    requires st.Valid() && 0 <= Worker(View(st, map[])) < TWO_32
    modifies st
    ensures st.Valid()
    ensures started <==> Worker(old(View(st, map[]))) != 0 || startFlag != 0
    ensures View(st, map[]) ==
            var s := Apply(a, old(View(st, map[])), StartFollow(0, startFlag));
            Apply(a, FollowTurns(a, s, weather), Stop(0))
  {
    ghost var s := Apply(a, View(st, map[]), StartFollow(0, startFlag));
    var last := st.CheckpointLedger(WORKER);
    var next := Add32(last, 1);
    if last == 0 {
      if startFlag == 0 {
        NeverFollows(a, s, weather);
        return false;
      }
      next := startFlag;
    }
    started := true;
    ghost var first := next;
    next := FollowLoop(a, st, first, next, weather);
    Leaves(a, View(st, map[0 := Following(first, next)]), Following(first, next));
  }

  /** The ledgers, one after the other, while there is weather. */
  method FollowLoop(a: Archive, st: S.Store, ghost first: UInt32, next: UInt32, weather: seq<Luck>)
      returns (next': UInt32)
    requires st.Valid()
    modifies st
    ensures st.Valid()
    ensures View(st, map[0 := Following(first, next')])
         == FollowTurns(a, old(View(st, map[0 := Following(first, next)])), weather)
  {
    ghost var s := View(st, map[0 := Following(first, next)]);
    next' := next;
    var i := 0;
    while i < |weather|
      invariant 0 <= i <= |weather| && st.Valid()
      invariant View(st, map[0 := Following(first, next')]) == FollowTurns(a, s, weather[..i])
    {
      OneMoreFollowed(a, s, weather, i);
      next' := FollowOnce(a, st, first, next', weather[i]);
      i := i + 1;
    }
    assert weather[..i] == weather;
  }

  /** One turn of the follow loop. */
  method FollowOnce(a: Archive, st: S.Store, ghost first: UInt32, next: UInt32, luck: Luck) returns (next': UInt32)
    requires st.Valid()
    modifies st
    ensures st.Valid()
    ensures View(st, map[0 := Following(first, next')])
         == FollowTurn(a, old(View(st, map[0 := Following(first, next)])), luck)
  {
    ghost var db, known, p := st.db, st.cache.Keys, Following(first, next);
    ghost var s := View(st, map[0 := p]);
    var saved := IndexOne(a, st, next, luck);
    assert View(st, map[0 := p]) == Attempted(a, s, Wanted(p), UpTo(p), luck);
    TurnInView(a, db, st.db, known, st.cache.Keys, p, luck, saved);
    next' := if saved then Add32(next, 1) else next;
  }

  /** One turn of the backfill loop: a batch, and the range checkpoint if the batch was saved. */
  method FillOnce(a: Archive, st: S.Store, start: UInt32, end: UInt32, concurrency: nat, next: UInt32, luck: Luck)
      returns (next': UInt32, written: bool)
    requires st.Valid() && next <= end
    modifies st
    ensures st.Valid()
    ensures View(st, if written then map[0 := Filling(start, end, concurrency, next')] else map[])
         == FillTurn(a, old(View(st, map[0 := Filling(start, end, concurrency, next)])), luck)
  {
    var batchEnd := BatchEnd(next, end, concurrency);
    var saved := SaveOnce(a, st, start, end, concurrency, next, batchEnd, luck);
    if !saved { return next, true; }
    written := WriteCheckpoint(st, start, end, concurrency, batchEnd, luck.record);
    next' := if written then Add32(batchEnd, 1) else next;
  }

  /** The attempt to save the batch. */
  method SaveOnce(a: Archive, st: S.Store, ghost start: UInt32, ghost end: UInt32, ghost concurrency: nat,
                  next: UInt32, batchEnd: UInt32, luck: Luck)
      returns (saved: bool)
    requires st.Valid() && next <= end && batchEnd == BatchEnd(next, end, concurrency)
    modifies st
    ensures st.Valid()
    ensures var p := Filling(start, end, concurrency, next);
            var s := old(View(st, map[0 := p]));
            && (saved <==> Succeeds(a, s, Wanted(p), luck))
            && View(st, map[0 := if saved then After(p) else p]) == Turn(a, s, luck)
  {
    ghost var db, known, p := st.db, st.cache.Keys, Filling(start, end, concurrency, next);
    ghost var s := View(st, map[0 := p]);
    saved := IndexBatch(a, st, next, batchEnd, luck);
    assert View(st, map[0 := p]) == Attempted(a, s, Wanted(p), UpTo(p), luck);
    TurnInView(a, db, st.db, known, st.cache.Keys, p, luck, saved);
  }

  /** The checkpoint write of a batch that was saved. */
  method WriteCheckpoint(st: S.Store, start: UInt32, end: UInt32, concurrency: nat, batchEnd: UInt32, record: Record)
      returns (written: bool)
    requires st.Valid()
    modifies st
    ensures st.Valid() && (written <==> record.Written?)
    ensures View(st, if written then map[0 := Filling(start, end, concurrency, Add32(batchEnd, 1))] else map[])
         == Recorded(old(View(st, map[0 := Saved(start, end, concurrency, batchEnd)])), record)
  {
    ghost var p := Saved(start, end, concurrency, batchEnd);
    ghost var q := Filling(start, end, concurrency, Add32(batchEnd, 1));
    assert map[0 := p] - {0} == map[] && map[0 := p][0 := q] == map[0 := q];
    if !record.Refused? { st.SetCheckpoint(RangeName(start, end), batchEnd); }
    written := record.Written?;
  }

  /**
   Fills start..end from its own checkpoint on, batch by batch, until it is done, the
   weather ends, or a checkpoint cannot be written.
   */
  method Backfill(a: Archive, st: S.Store, start: UInt32, end: UInt32, concurrency: nat, weather: seq<Luck>)
      returns (outcome: Outcome)
    requires st.Valid() && 0 < start <= end && 1 <= concurrency <= MAX_CONCURRENCY
    requires ValidArchive(a) && Kept(a, View(st, map[]))
    modifies st
    ensures st.Valid()
    ensures var filled := Filled(a, old(View(st, map[])), start, end, concurrency, weather);
            && View(st, map[]) == Apply(a, filled, Stop(0))
            && outcome == OutcomeOf(old(View(st, map[])), start, end, filled)
    ensures outcome.AlreadyComplete? <==>
            end + 1 < 0x1_0000_0000 && old(CheckpointOf(st.db.checkpoints, RangeName(start, end))) == end
    ensures outcome.AlreadyComplete? ==> View(st, map[]) == old(View(st, map[]))
    ensures outcome.AlreadyComplete? || outcome.Complete? ==> AllStored(a, View(st, map[]).table, start, end + 1)
  {
    ghost var s := View(st, map[]);
    ghost var s1 := Apply(a, s, StartBackfill(0, start, end, concurrency));
    var done := st.CheckpointLedger(RangeName(start, end));
    AlreadyFilled(a, s, start, end);
    StartsFilling(a, s, start, end, concurrency);
    var next: UInt32 := start;
    if done >= start {
      next := Add32(done, 1);
    }
    if next > end {
      NothingMoreToFill(a, s1, weather, 0);
      return AlreadyComplete;
    }
    FilledKeeps(a, s, start, end, concurrency, weather);
    outcome := FillRest(a, st, start, end, concurrency, next, weather);
  }

  /** A backfill that has something left to fill. */
  method FillRest(a: Archive, st: S.Store, start: UInt32, end: UInt32, concurrency: nat, next: UInt32,
                  weather: seq<Luck>)
      returns (outcome: Outcome)
    requires st.Valid()
    requires Kept(a, FillTurns(a, View(st, map[0 := Filling(start, end, concurrency, next)]), weather))
    modifies st
    ensures st.Valid() && !outcome.AlreadyComplete?
    ensures var filled := FillTurns(a, old(View(st, map[0 := Filling(start, end, concurrency, next)])), weather);
            View(st, map[]) == Apply(a, filled, Stop(0)) && outcome == EndOf(filled)
    ensures outcome.Complete? ==> AllStored(a, View(st, map[]).table, start, end + 1)
  {
    var last, died := FillLoop(a, st, start, end, concurrency, next, weather);
    if died { return CheckpointFailed; }
    Ends(a, View(st, map[0 := Filling(start, end, concurrency, last)]), start, end, concurrency, last);
    outcome := if last > end then Complete else Stopped;
  }

  /** The batches, one after the other, while there is weather and something left to fill. */
  method FillLoop(a: Archive, st: S.Store, start: UInt32, end: UInt32, concurrency: nat, next: UInt32,
                  weather: seq<Luck>)
      returns (next': UInt32, died: bool)
    requires st.Valid()
    modifies st
    ensures st.Valid()
    ensures View(st, if died then map[] else map[0 := Filling(start, end, concurrency, next')])
         == FillTurns(a, old(View(st, map[0 := Filling(start, end, concurrency, next)])), weather)
  {
    ghost var s := View(st, map[0 := Filling(start, end, concurrency, next)]);
    next', died := next, false;
    var i := 0;
    while i < |weather| && next' <= end
      invariant 0 <= i <= |weather| && st.Valid()
      invariant View(st, map[0 := Filling(start, end, concurrency, next')]) == FillTurns(a, s, weather[..i])
    {
      var written;
      next', written := FillNext(a, st, start, end, concurrency, next', s, weather, i);
      if !written { return next', true; }
      i := i + 1;
    }
    LoopEnds(a, s, weather, i, View(st, map[0 := Filling(start, end, concurrency, next')]));
  }

  /** The turn after so many others; the last one, if the checkpoint cannot be written. */
  method FillNext(a: Archive, st: S.Store, start: UInt32, end: UInt32, concurrency: nat, next: UInt32, ghost s: State,
                  weather: seq<Luck>, i: nat)
      returns (next': UInt32, written: bool)
    requires st.Valid() && next <= end && i < |weather|
    requires View(st, map[0 := Filling(start, end, concurrency, next)]) == FillTurns(a, s, weather[..i])
    modifies st
    ensures st.Valid()
    ensures written ==>
              View(st, map[0 := Filling(start, end, concurrency, next')]) == FillTurns(a, s, weather[..i + 1])
    ensures !written ==> View(st, map[]) == FillTurns(a, s, weather)
  {
    OneMoreTurn(a, s, weather, i);
    next', written := FillOnce(a, st, start, end, concurrency, next, weather[i]);
    if !written { LoopEnds(a, s, weather, i + 1, View(st, map[])); }
  }
}
