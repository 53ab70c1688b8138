/**
 When the worker checkpoint can be trusted: a range of ledgers up to it is complete as
 long as no process starts beyond the first ledger still missing.
 */
module WorkerCheckpoint {
  import opened Bytes
  import opened Extract
  import opened Dictionary
  import opened Ids
  import opened SavedRows
  import opened Ingest

  /** Everything from origin to the worker checkpoint is stored. */
  ghost predicate Whole(a: Archive, s: State, origin: int) {
    AllStored(a, s.table, origin, Worker(s) + 1)
  }

  /** The first ledger the checkpoint does not vouch for. */
  function Frontier(s: State, origin: int): int {
    if Worker(s) + 1 > origin then Worker(s) + 1 else origin
  }

  /** No ledger is missing from there up to this one. */
  ghost predicate NoneMissing(a: Archive, s: State, origin: int, upTo: int) {
    AllStored(a, s.table, Frontier(s, origin), upTo)
  }

  ghost predicate Connected(a: Archive, s: State, origin: int) {
    forall id :: id in s.processes ==> NoneMissing(a, s, origin, s.processes[id].first)
  }

  /** A process may start anywhere up to the first ledger still missing. */
  ghost predicate StartsConnected(a: Archive, s: State, origin: int, e: Event) {
    match e
    case StartFollow(id, startFlag) => NoneMissing(a, s, origin, FollowFrom(s, startFlag))
    case StartBackfill(id, start, end, concurrency) => NoneMissing(a, s, origin, start)
    case _ => true
  }

  ghost predicate Disciplined(a: Archive, run: seq<Event>, origin: int) {
    || run == []
    || (&& Disciplined(a, run[..|run| - 1], origin)
        && StartsConnected(a, Execute(a, run[..|run| - 1]), origin, run[|run| - 1]))
  }

  // ---------- one save ----------

  predicate IsRange(asked: seq<UInt32>, lo: UInt32, to: UInt32) {
    lo <= to && |asked| == to - lo + 1 && forall i :: 0 <= i < |asked| ==> asked[i] == lo + i
  }

  lemma {:induction false} FetchedCarryTheirLedger(a: Archive, asked: seq<UInt32>)
    requires ValidArchive(a) && Fetchable(a, asked)
    ensures forall r :: r in Fetched(a, asked) ==> r.ledger in asked
  {
    if asked == [] {
    } else {
      FetchedCarryTheirLedger(a, asked[..|asked| - 1]);
    }
  }

  /** A save completes the ledgers it asked for and no other. */
  lemma SaveStoresExactly(a: Archive, s: State, asked: seq<UInt32>, l: int)
    requires ValidArchive(a) && Kept(a, s) && Fetchable(a, asked)
    ensures Stored(a, InsertAll(s.table, Fetched(a, asked)), l) <==>
        Stored(a, s.table, l) || (0 <= l < TWO_32 && l in asked)
  {
    var rows := Fetched(a, asked);
    var t := InsertAll(s.table, rows);
    FetchedAreStored(a, s.table, asked);
    InsertAllGrows(s.table, rows);
    InsertAllHas(s.table, rows);
    FetchedCarryTheirLedger(a, asked);
    if Stored(a, s.table, l) {
      assert AllStored(a, s.table, l, l + 1);
      GrowthKeepsStored(a, s.table, t, l, l + 1);
      assert l <= l < l + 1;
    }
    if Stored(a, t, l) && l !in asked {
      forall i | 0 <= i < |a[l]| ensures Holds(s.table, a[l][i]) {
        assert Holds(t, a[l][i]);
        assert a[l][i].ledger == l;
      }
    }
  }

  /**
   One save of lo..to keeps the promise exactly when it stays at or below the checkpoint
   or leaves no ledger missing between the frontier and its own first one.
   */
  lemma SaveKeepsWholeExactly(a: Archive, s: State, origin: int, asked: seq<UInt32>, lo: UInt32, to: UInt32,
                              names: set<Word>)
    requires ValidArchive(a) && Kept(a, s) && Fetchable(a, asked) && IsRange(asked, lo, to)
    requires Whole(a, s, origin)
    ensures Whole(a, Save(s, to, Fetched(a, asked), names), origin) <==>
            to <= Worker(s) || to < origin || AllStored(a, s.table, Frontier(s, origin), lo)
  {
    var s' := Save(s, to, Fetched(a, asked), names);
    SaveGrows(s, to, Fetched(a, asked), names);
    forall l: int ensures Stored(a, s'.table, l) <==> Stored(a, s.table, l) || lo <= l <= to {
      SaveStoresExactly(a, s, asked, l);
      assert lo <= l <= to ==> asked[l - lo] == l;
    }
    if to > Worker(s) && to >= origin {
      if Whole(a, s', origin) {
        forall l | Frontier(s, origin) <= l < lo ensures Stored(a, s.table, l) { assert Stored(a, s'.table, l); }
      }
      if AllStored(a, s.table, Frontier(s, origin), lo) {
        forall l | origin <= l <= to ensures Stored(a, s'.table, l) {
          assert lo <= l || Stored(a, s.table, l);
        }
      }
    }
  }

  // ---------- whole runs ----------

  /** As the table grows and the frontier advances, what was connected stays so. */
  lemma StaysConnected(a: Archive, s: State, s': State, origin: int, upTo: int)
    requires Grows(s.table, s'.table) && Worker(s) <= Worker(s') && NoneMissing(a, s, origin, upTo)
    ensures NoneMissing(a, s', origin, upTo)
  {
    GrowthKeepsStored(a, s.table, s'.table, Frontier(s, origin), upTo);
  }

  lemma NextIsConnected(a: Archive, s: State, origin: int, first: int, next: int)
    requires NoneMissing(a, s, origin, first) && AllStored(a, s.table, first, next)
    ensures NoneMissing(a, s, origin, next)
  {
  }

  /** One step that saves, of any kind: its first ledger, and the one it moves the checkpoint to. */
  lemma CommitStaysWholeExactly(a: Archive, s: State, id: nat, origin: int)
    requires ValidArchive(a) && Kept(a, s) && CanSave(a, s, id) && Whole(a, s, origin)
    ensures var p := s.processes[id];
            Whole(a, Committed(a, s, id), origin) <==>
            UpTo(p) <= Worker(s) || UpTo(p) < origin || NoneMissing(a, s, origin, p.next)
  {
    var p := s.processes[id];
    if p.Filling? {
      assert ProcessKept(a, s.table, p);
      BatchCanCommitExactly(a, p.next, p.end, p.concurrency, s.next, Known(s, id));
      BatchIsARange(p.next, p.end, p.concurrency);
    }
    SaveKeepsWholeExactly(a, s, origin, Wanted(p), p.next, UpTo(p), Missing(a, s, id));
  }

  lemma CommitAdvances(a: Archive, s: State, id: nat)
    requires CanSave(a, s, id)
    ensures Grows(s.table, Committed(a, s, id).table) && Worker(s) <= Worker(Committed(a, s, id))
  {
    var p := s.processes[id];
    SaveGrows(s, UpTo(p), Fetched(a, Wanted(p)), Missing(a, s, id));
  }

  lemma CommitStaysWhole(a: Archive, s: State, id: nat, origin: int)
    requires ValidArchive(a) && Kept(a, s) && CanSave(a, s, id)
    requires Whole(a, s, origin) && Connected(a, s, origin)
    ensures Whole(a, Committed(a, s, id), origin) && Connected(a, Committed(a, s, id), origin)
  {
    var p, s' := s.processes[id], Committed(a, s, id);
    assert ProcessKept(a, s.table, p);
    if p.Filling? { BatchCanCommitExactly(a, p.next, p.end, p.concurrency, s.next, Known(s, id)); }
    if p.next > 0 { NextIsConnected(a, s, origin, p.first, p.next); }
    CommitStaysWholeExactly(a, s, id, origin);
    CommitAdvances(a, s, id);
    forall i | i in s'.processes ensures NoneMissing(a, s', origin, s'.processes[i].first) {
      StaysConnected(a, s, s', origin, s.processes[i].first);
    }
  }

  /** Steps that save nothing leave the table and the worker checkpoint alone. */
  lemma OthersMoveNothing(a: Archive, s: State, e: Event)
    requires !(Enabled(a, s, e) && Saves(e))
    ensures Apply(a, s, e).table == s.table && Worker(Apply(a, s, e)) == Worker(s)
  {
    if e.SetRangeCheckpoint? && Enabled(a, s, e) {
      RangeNameInjective(s.processes[e.id].first, s.processes[e.id].end, 0, 0);
    }
  }

  predicate Saves(e: Event) {
    e.SaveOne? || e.SaveBatch? || e.SaveUnseen?
  }

  lemma SavesCommit(a: Archive, s: State, e: Event)
    requires Enabled(a, s, e) && Saves(e)
    ensures CanSave(a, s, e.id)
    ensures Apply(a, s, e).table == Committed(a, s, e.id).table
    ensures Worker(Apply(a, s, e)) == Worker(Committed(a, s, e.id))
    ensures forall id :: id in Apply(a, s, e).processes ==>
              id in s.processes && Apply(a, s, e).processes[id].first == s.processes[id].first
  {
    var s', p := Committed(a, s, e.id), s.processes[e.id];
    assert s'.processes == s.processes;
    match e
    case SaveOne(id) => MovingOn(s', id, Missing(a, s, id), Following(p.first, Add32(p.next, 1)));
    case SaveBatch(id) => MovingOn(s', id, Missing(a, s, id), Saved(p.first, p.end, p.concurrency, UpTo(p)));
    case SaveUnseen(id) =>
  }

  lemma MovingOn(s: State, id: nat, names: set<Word>, p: Process)
    requires id in s.processes && p.first == s.processes[id].first
    ensures var s' := With(Learn(s, id, names), id, p);
            && s'.table == s.table && Worker(s') == Worker(s) && s'.processes.Keys == s.processes.Keys
            && forall i :: i in s.processes ==> s'.processes[i].first == s.processes[i].first
  {
  }

  lemma StepStaysWhole(a: Archive, s: State, e: Event, origin: int)
    requires ValidArchive(a) && Kept(a, s) && StartsConnected(a, s, origin, e)
    requires Whole(a, s, origin) && Connected(a, s, origin)
    ensures Whole(a, Apply(a, s, e), origin) && Connected(a, Apply(a, s, e), origin)
  {
    if Enabled(a, s, e) && Saves(e) {
      SavesCommit(a, s, e);
      CommitStaysWhole(a, s, e.id, origin);
    } else {
      OthersMoveNothing(a, s, e);
    }
  }

  /**
   In every run whose processes start no further than the first missing ledger, every ledger from
   origin to the worker checkpoint is fully stored, whatever failed or died on the way.
   */
  lemma {:induction false} WorkerCheckpointIsHonest(a: Archive, run: seq<Event>, origin: int)
    requires ValidArchive(a) && origin > 0 && Disciplined(a, run, origin)
    ensures Whole(a, Execute(a, run), origin) && Connected(a, Execute(a, run), origin)
  {
    if run == [] {
    } else {
      var init := run[..|run| - 1];
      WorkerCheckpointIsHonest(a, init, origin);
      RunKeeps(a, EMPTY, init);
      StepStaysWhole(a, Execute(a, init), run[|run| - 1], origin);
    }
  }

  /** An enabled save meets the condition under which it keeps the promise. */
  ghost predicate LeavesNoGap(a: Archive, s: State, e: Event, origin: int) {
    Enabled(a, s, e) && Saves(e) ==>
      var p := s.processes[e.id];
      UpTo(p) <= Worker(s) || UpTo(p) < origin || NoneMissing(a, s, origin, p.next)
  }

  ghost predicate NoGaps(a: Archive, run: seq<Event>, origin: int) {
    run == [] ||
    (NoGaps(a, run[..|run| - 1], origin) && LeavesNoGap(a, Execute(a, run[..|run| - 1]), run[|run| - 1], origin))
  }

  ghost predicate WholeThroughout(a: Archive, run: seq<Event>, origin: int) {
    Whole(a, Execute(a, run), origin) && (run == [] || WholeThroughout(a, run[..|run| - 1], origin))
  }

  /**
   The worker checkpoint can be trusted at every moment of a run exactly when each save
   that commits stays at or below it or leaves no ledger missing before its own first one.
   */
  lemma {:induction false} HonestThroughoutExactly(a: Archive, run: seq<Event>, origin: int)
    requires ValidArchive(a) && origin > 0
    ensures WholeThroughout(a, run, origin) <==> NoGaps(a, run, origin)
  {
    if run == [] {
    } else {
      var init, e := run[..|run| - 1], run[|run| - 1];
      var s := Execute(a, init);
      HonestThroughoutExactly(a, init, origin);
      RunKeeps(a, EMPTY, init);
      if WholeThroughout(a, init, origin) {
        if Enabled(a, s, e) && Saves(e) {
          SavesCommit(a, s, e);
          CommitStaysWholeExactly(a, s, e.id, origin);
        } else {
          OthersMoveNothing(a, s, e);
        }
      }
    }
  }

  // ---------- the condition as an operator would keep it ----------

  /** A first follow from origin, and backfills that end at or below the checkpoint they find. */
  predicate StartsBelowWorker(s: State, origin: int, e: Event) {
    match e
    case StartFollow(id, startFlag) => Worker(s) == 0 ==> startFlag == origin
    case StartBackfill(id, start, end, concurrency) => end <= Worker(s)
    case _ => true
  }

  ghost predicate BelowWorker(a: Archive, run: seq<Event>, origin: int) {
    run == [] ||
    (&& BelowWorker(a, run[..|run| - 1], origin)
     && StartsBelowWorker(Execute(a, run[..|run| - 1]), origin, run[|run| - 1]))
  }

  /** Events that are not enabled change nothing, so they may be dropped from a run. */
  ghost predicate AllEnabled(a: Archive, run: seq<Event>) {
    run == [] || (AllEnabled(a, run[..|run| - 1]) && Enabled(a, Execute(a, run[..|run| - 1]), run[|run| - 1]))
  }

  lemma {:induction false} BelowWorkerIsEnough(a: Archive, run: seq<Event>, origin: int)
    requires ValidArchive(a) && origin > 0 && BelowWorker(a, run, origin) && AllEnabled(a, run)
    ensures Disciplined(a, run, origin)
    ensures Whole(a, Execute(a, run), origin)
  {
    if run != [] {
      BelowWorkerIsEnough(a, run[..|run| - 1], origin);
      RunKeeps(a, EMPTY, run[..|run| - 1]);
    }
    WorkerCheckpointIsHonest(a, run, origin);
  }

  // ---------- what goes wrong otherwise ----------

  lemma TwoEvents(a: Archive, s: State, e: Event, f: Event)
    ensures ExecuteFrom(a, s, [e, f]) == Apply(a, Apply(a, s, e), f)
  {
    OneMoreEvent(a, s, [], e);
    OneMoreEvent(a, s, [e], f);
    assert [] + [e] == [e] && [e] + [f] == [e, f];
  }

  lemma CanSaveOne(a: Archive, l: UInt32, ids: map<Kind, nat>)
    requires l in a && FitColumns(a[l]) && HasRoom(ids, WordsOf(a[l]))
    ensures CanCommit(a, [l], ids, {}) && Fetched(a, [l]) == a[l]
  {
    FetchedOne(a, l);
    assert WordsOf(a[l]) - {} == WordsOf(a[l]);
  }

  lemma FollowOnce(a: Archive, origin: UInt32)
    requires ValidArchive(a) && origin in a && FitColumns(a[origin]) && HasRoom(map[], WordsOf(a[origin]))
    ensures var s := Execute(a, [StartFollow(0, origin), SaveOne(0)]);
            && s.table == InsertAll(map[], a[origin]) && Worker(s) == origin
            && s.processes.Keys == {0} && s.caches.Keys == {0} && s.checkpoints.Keys == {WORKER}
            && s.next == DrawAll(map[], WordsOf(a[origin]))
  {
    TwoEvents(a, EMPTY, StartFollow(0, origin), SaveOne(0));
    assert WORKER !in EMPTY.checkpoints;
    var s1 := With(EMPTY, 0, Following(origin, origin));
    assert Apply(a, EMPTY, StartFollow(0, origin)) == s1;
    CanSaveOne(a, origin, map[]);
    assert WordsOf(a[origin]) - {} == WordsOf(a[origin]);
    assert CanSave(a, s1, 0) && Missing(a, s1, 0) == WordsOf(a[origin]);
    SaveGrows(s1, origin, a[origin], WordsOf(a[origin]));
  }

  lemma BackfillOnce(a: Archive, s: State, ahead: UInt32)
    requires ahead in a && FitColumns(a[ahead]) && HasRoom(s.next, WordsOf(a[ahead])) && ahead > 0 && ahead > Worker(s)
    requires s.processes.Keys == {0} && s.caches.Keys == {0} && s.checkpoints.Keys == {WORKER}
    ensures var s' := ExecuteFrom(a, s, [StartBackfill(1, ahead, ahead, 1), SaveBatch(1)]);
            s'.table == InsertAll(s.table, Fetched(a, [ahead])) && Worker(s') == ahead
  {
    TwoEvents(a, s, StartBackfill(1, ahead, ahead, 1), SaveBatch(1));
    RangeNameInjective(ahead, ahead, 0, 0);
    var s1 := With(s, 1, Filling(ahead, ahead, 1, ahead));
    assert Apply(a, s, StartBackfill(1, ahead, ahead, 1)) == s1;
    SavesAhead(a, s1, ahead);
  }

  lemma SavesAhead(a: Archive, s: State, ahead: UInt32)
    requires ahead in a && FitColumns(a[ahead]) && HasRoom(s.next, WordsOf(a[ahead])) && ahead > Worker(s)
    requires 1 in s.processes && s.processes[1] == Filling(ahead, ahead, 1, ahead) && 1 !in s.caches
    ensures var s' := Apply(a, s, SaveBatch(1));
            s'.table == InsertAll(s.table, Fetched(a, [ahead])) && Worker(s') == ahead
  {
    SavableAhead(a, s, ahead);
    SaveGrows(s, ahead, Fetched(a, [ahead]), Missing(a, s, 1));
  }

  lemma SavableAhead(a: Archive, s: State, ahead: UInt32)
    requires ahead in a && FitColumns(a[ahead]) && HasRoom(s.next, WordsOf(a[ahead]))
    requires 1 in s.processes && s.processes[1] == Filling(ahead, ahead, 1, ahead) && 1 !in s.caches
    ensures Wanted(s.processes[1]) == [ahead] && UpTo(s.processes[1]) == ahead && CanSave(a, s, 1)
  {
    BatchIsARange(ahead, ahead, 1);
    CanSaveOne(a, ahead, s.next);
    assert WordsOf(a[ahead]) - {} == WordsOf(a[ahead]);
  }

  lemma FirstLedgerOnly(a: Archive, origin: UInt32)
    requires ValidArchive(a) && origin in a && origin + 1 in a && a[origin + 1] != []
    ensures !Stored(a, InsertAll(map[], a[origin]), origin + 1)
  {
    RunKeeps(a, EMPTY, []);
    FetchedOne(a, origin);
    SaveStoresExactly(a, EMPTY, [origin], origin + 1);
    assert !Holds(map[], a[origin + 1][0]);
  }

  lemma BackfillPasses(a: Archive, s: State, missing: UInt32, ahead: UInt32)
    requires ValidArchive(a) && Kept(a, s) && ahead in a && FitColumns(a[ahead]) && HasRoom(s.next, WordsOf(a[ahead]))
    requires ahead > Worker(s) && ahead > missing && !Stored(a, s.table, missing)
    requires s.processes.Keys == {0} && s.caches.Keys == {0} && s.checkpoints.Keys == {WORKER}
    ensures var s' := ExecuteFrom(a, s, [StartBackfill(1, ahead, ahead, 1), SaveBatch(1)]);
            Worker(s') == ahead && !Stored(a, s'.table, missing)
  {
    BackfillOnce(a, s, ahead);
    SaveStoresExactly(a, s, [ahead], missing);
  }

  /** Both ledgers can be saved, by two processes with caches of their own. */
  ghost predicate BothSavable(a: Archive, l: UInt32, m: UInt32) {
    && l in a && m in a && FitColumns(a[l]) && FitColumns(a[m])
    && HasRoom(map[], WordsOf(a[l])) && HasRoom(DrawAll(map[], WordsOf(a[l])), WordsOf(a[m]))
  }

  /**
   A backfill that starts past a missing ledger moves the checkpoint over it, and a
   follower started afterwards resumes beyond it.
   */
  lemma BackfillAheadLeavesAHole(a: Archive, origin: UInt32, ahead: UInt32)
    requires ValidArchive(a) && BothSavable(a, origin, ahead) && ahead > origin + 1
    requires origin + 1 in a && a[origin + 1] != []
    ensures var s := ExecuteFrom(a, Execute(a, [StartFollow(0, origin), SaveOne(0)]),
                                 [StartBackfill(1, ahead, ahead, 1), SaveBatch(1)]);
            && Worker(s) == ahead && !Stored(a, s.table, origin + 1)
            && forall startFlag :: FollowFrom(s, startFlag) == Add32(ahead, 1)
  {
    FollowOnce(a, origin);
    FirstLedgerOnly(a, origin);
    RunKeeps(a, EMPTY, [StartFollow(0, origin), SaveOne(0)]);
    BackfillPasses(a, Execute(a, [StartFollow(0, origin), SaveOne(0)]), origin + 1, ahead);
  }
}
