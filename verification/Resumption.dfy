/** Stopping a loop and starting it again is as good as letting it run on. */
module Resumption {
  import opened Extract
  import opened Dictionary
  import opened SavedRows
  import opened Ingest
  import opened Indexer
  import opened BackfillEnds
  import S = Store

  // ---------- backfill ----------

  lemma {:induction false} FillTurnsJoin(a: Archive, s: State, x: seq<Luck>, y: seq<Luck>)
    ensures FillTurns(a, s, x + y) == FillTurns(a, FillTurns(a, s, x), y)
  {
    if y == [] {
      assert x + y == x;
    } else {
      var init, last := y[..|y| - 1], y[|y| - 1];
      FillTurnsJoin(a, s, x, init);
      OneTurnMore(a, s, x + init, last);
      OneTurnMore(a, FillTurns(a, s, x), init, last);
      assert y == init + [last] && x + y == x + init + [last];
    }
  }

  /** The process stands where one that starts now would begin. */
  ghost predicate AtCheckpoint(s: State, start: UInt32, end: UInt32, concurrency: nat) {
    Checkpoint(s, RangeName(start, end)) <= end && Going(s, start, end, concurrency, FillFrom(s, start, end))
  }

  lemma AttemptKeepsPlace(a: Archive, s: State, start: UInt32, end: UInt32, luck: Luck)
    requires Saving(s, 0)
    ensures var p := s.processes[0];
            var t := Attempted(a, s, Wanted(p), UpTo(p), luck);
            && t.processes == s.processes
            && Checkpoint(t, RangeName(start, end)) == Checkpoint(s, RangeName(start, end))
  {
    var p := s.processes[0];
    if AllFetched(a, Wanted(p), luck) {
      SavedKeepsPlace(s, UpTo(p), Fetched(a, Wanted(p)), luck.fate, RangeName(start, end), start, end);
    }
  }

  lemma SavedKeepsPlace(s: State, l: UInt32, rows: seq<Invocation>, fate: S.Fate, name: string, start: nat, end: nat)
    requires name == RangeName(start, end)
    ensures var t := SavedAs(s, l, rows, fate);
            t.processes == s.processes && Checkpoint(t, name) == Checkpoint(s, name)
  {
    SaveGrows(s, l, rows, WordsOf(rows) - Known(s, 0));
  }

  lemma RecordingMovesOn(t: State, start: UInt32, end: UInt32, concurrency: nat, to: UInt32)
    requires 0 in t.processes && t.processes[0] == Saved(start, end, concurrency, to)
    requires 0 < start <= to <= end && end + 1 < 0x1_0000_0000
    ensures AtCheckpoint(Recorded(t, Written), start, end, concurrency)
  {
  }

  /** A batch that was saved ends within the range and did not wrap. */
  lemma SavedBatchAdvances(a: Archive, s: State, start: UInt32, end: UInt32, concurrency: nat, next: UInt32, luck: Luck)
    requires ValidArchive(a) && Going(s, start, end, concurrency, next) && Plausible(next, end, concurrency)
    requires Succeeds(a, s, Wanted(s.processes[0]), luck)
    ensures next <= BatchEnd(next, end, concurrency) <= end
  {
    CommitsCanCommit(a, s, Wanted(s.processes[0]), luck);
    BatchCanCommitExactly(a, next, end, concurrency, s.next, Known(s, 0));
    BatchIsARange(next, end, concurrency);
  }

  lemma TurnStaysAtCheckpoint(a: Archive, s: State, start: UInt32, end: UInt32, concurrency: nat, luck: Luck)
    requires ValidArchive(a) && 0 < start <= end && end + 1 < 0x1_0000_0000 && 1 <= concurrency <= MAX_CONCURRENCY
    requires AtCheckpoint(s, start, end, concurrency) && luck.record.Written?
    ensures AtCheckpoint(FillTurn(a, s, luck), start, end, concurrency)
  {
    if FillFrom(s, start, end) > end {
      IdleTurn(a, s, luck);
    } else {
      BusyTurnStays(a, s, start, end, concurrency, FillFrom(s, start, end), luck);
    }
  }

  lemma BusyTurnStays(a: Archive, s: State, start: UInt32, end: UInt32, concurrency: nat, next: UInt32, luck: Luck)
    requires ValidArchive(a) && 0 < start <= next && end + 1 < 0x1_0000_0000 && Plausible(next, end, concurrency)
    requires AtCheckpoint(s, start, end, concurrency) && next == FillFrom(s, start, end) && luck.record.Written?
    ensures AtCheckpoint(FillTurn(a, s, luck), start, end, concurrency)
  {
    if Succeeds(a, s, Wanted(s.processes[0]), luck) {
      SavedTurnStays(a, s, start, end, concurrency, next, luck);
    } else {
      LostTurnStays(a, s, start, end, concurrency, luck);
    }
  }

  lemma IdleTurn(a: Archive, s: State, luck: Luck)
    requires !Unfinished(s)
    ensures FillTurn(a, s, luck) == s
  {
  }

  lemma SavedTurnStays(a: Archive, s: State, start: UInt32, end: UInt32, concurrency: nat, next: UInt32, luck: Luck)
    requires ValidArchive(a) && Going(s, start, end, concurrency, next) && Plausible(next, end, concurrency)
    requires 0 < start <= next && end + 1 < 0x1_0000_0000
    requires Succeeds(a, s, Wanted(s.processes[0]), luck) && luck.record.Written?
    ensures AtCheckpoint(FillTurn(a, s, luck), start, end, concurrency)
  {
    SavedBatchAdvances(a, s, start, end, concurrency, next, luck);
    TurnIsSaved(a, s, start, end, concurrency, next, luck);
    RecordingMovesOn(Turn(a, s, luck), start, end, concurrency, BatchEnd(next, end, concurrency));
  }

  lemma LostTurnStays(a: Archive, s: State, start: UInt32, end: UInt32, concurrency: nat, luck: Luck)
    requires AtCheckpoint(s, start, end, concurrency) && Plausible(FillFrom(s, start, end), end, concurrency)
    requires !Succeeds(a, s, Wanted(s.processes[0]), luck)
    ensures AtCheckpoint(FillTurn(a, s, luck), start, end, concurrency)
  {
    TurnIsLost(a, s, start, end, concurrency, FillFrom(s, start, end), luck);
  }

  lemma TurnIsSaved(a: Archive, s: State, start: UInt32, end: UInt32, concurrency: nat, next: UInt32, luck: Luck)
    requires Going(s, start, end, concurrency, next) && Plausible(next, end, concurrency)
    requires Succeeds(a, s, Wanted(s.processes[0]), luck)
    ensures var t := Turn(a, s, luck);
            && 0 in t.processes && t.processes[0] == Saved(start, end, concurrency, BatchEnd(next, end, concurrency))
            && FillTurn(a, s, luck) == Recorded(t, luck.record)
  {
  }

  lemma TurnIsLost(a: Archive, s: State, start: UInt32, end: UInt32, concurrency: nat, next: UInt32, luck: Luck)
    requires Going(s, start, end, concurrency, next) && Plausible(next, end, concurrency)
    requires !Succeeds(a, s, Wanted(s.processes[0]), luck)
    ensures var t := FillTurn(a, s, luck);
            Going(t, start, end, concurrency, next)
            && Checkpoint(t, RangeName(start, end)) == Checkpoint(s, RangeName(start, end))
  {
    AttemptKeepsPlace(a, s, start, end, luck);
  }

  lemma {:induction false} StaysAtCheckpoint(a: Archive, s: State, start: UInt32, end: UInt32, concurrency: nat,
                                             weather: seq<Luck>)
    requires ValidArchive(a) && 0 < start <= end && end + 1 < 0x1_0000_0000 && 1 <= concurrency <= MAX_CONCURRENCY
    requires AtCheckpoint(s, start, end, concurrency) && forall luck :: luck in weather ==> luck.record.Written?
    ensures AtCheckpoint(FillTurns(a, s, weather), start, end, concurrency)
  {
    if weather == [] {
    } else {
      var init, last := weather[..|weather| - 1], weather[|weather| - 1];
      StaysAtCheckpoint(a, s, start, end, concurrency, init);
      TurnStaysAtCheckpoint(a, FillTurns(a, s, init), start, end, concurrency, last);
    }
  }

  /** Ended and started again, a process stands where it stood, or had nothing left to do. */
  lemma StartsWhereItStopped(a: Archive, t: State, start: UInt32, end: UInt32, concurrency: nat)
    requires 0 < start <= end && 1 <= concurrency <= MAX_CONCURRENCY && AtCheckpoint(t, start, end, concurrency)
    ensures var again := Apply(a, Apply(a, t, Stop(0)), StartBackfill(0, start, end, concurrency));
            if Unfinished(t) then again == t else again == Apply(a, t, Stop(0))
  {
    var stopped := t.(processes := t.processes - {0});
    assert Apply(a, t, Stop(0)) == stopped;
    assert FillFrom(stopped, start, end) == FillFrom(t, start, end);
    assert (t.processes - {0})[0 := t.processes[0]] == t.processes;
  }

  lemma {:induction false} IdleTurns(a: Archive, s: State, weather: seq<Luck>)
    requires !Unfinished(s)
    ensures FillTurns(a, s, weather) == s
  {
    if weather == [] {
    } else {
      IdleTurns(a, s, weather[..|weather| - 1]);
    }
  }

  /** Where a backfill leaves the database when its weather is over. */
  ghost function LeftBy(a: Archive, s: State, start: UInt32, end: UInt32, concurrency: nat, weather: seq<Luck>): State {
    Apply(a, Filled(a, s, start, end, concurrency, weather), Stop(0))
  }

  /**
   A backfill that is stopped after any weather and started again leaves what one that was
   never stopped leaves, as long as its checkpoints were written and the ledger after its
   range is a number of 32 bits.
   */
  lemma StoppingLosesNothing(a: Archive, s: State, start: UInt32, end: UInt32, concurrency: nat, x: seq<Luck>,
                             y: seq<Luck>)
    requires ValidArchive(a) && Kept(a, s) && 0 !in s.processes
    requires 0 < start <= end && end + 1 < 0x1_0000_0000 && 1 <= concurrency <= MAX_CONCURRENCY
    requires forall luck :: luck in x ==> luck.record.Written?
    ensures LeftBy(a, LeftBy(a, s, start, end, concurrency, x), start, end, concurrency, y)
         == LeftBy(a, s, start, end, concurrency, x + y)
  {
    var s1 := Apply(a, s, StartBackfill(0, start, end, concurrency));
    var t := FillTurns(a, s1, x);
    FillTurnsJoin(a, s1, x, y);
    assert RangeKept(a, s, start, end);
    if FillFrom(s, start, end) > end {
      IdleTurns(a, s, x);
      IdleTurns(a, s, y);
    } else {
      StaysAtCheckpoint(a, s1, start, end, concurrency, x);
      GoesOnWhereItStopped(a, t, start, end, concurrency, y);
    }
  }

  lemma GoesOnWhereItStopped(a: Archive, t: State, start: UInt32, end: UInt32, concurrency: nat, y: seq<Luck>)
    requires 0 < start <= end && 1 <= concurrency <= MAX_CONCURRENCY && AtCheckpoint(t, start, end, concurrency)
    ensures LeftBy(a, Apply(a, t, Stop(0)), start, end, concurrency, y) == Apply(a, FillTurns(a, t, y), Stop(0))
  {
    StartsWhereItStopped(a, t, start, end, concurrency);
    if !Unfinished(t) {
      IdleTurns(a, t, y);
      IdleTurns(a, Apply(a, t, Stop(0)), y);
      StopsOnce(a, t);
    }
  }

  lemma StopsOnce(a: Archive, t: State)
    ensures Apply(a, Apply(a, t, Stop(0)), Stop(0)) == Apply(a, t, Stop(0))
  {
  }

  // ---------- what a complete backfill has recorded ----------

  /** A backfill that goes on has recorded all it saved, in both checkpoints; one that ended did not complete. */
  ghost predicate HasRecorded(s: State, start: UInt32, end: UInt32, concurrency: nat, from: UInt32) {
    0 in s.processes ==>
      && AtCheckpoint(s, start, end, concurrency)
      && (FillFrom(s, start, end) == from || Worker(s) >= FillFrom(s, start, end) - 1)
  }

  lemma SavedRaisesWorker(s: State, l: UInt32, rows: seq<Invocation>, fate: S.Fate)
    ensures var t := SavedAs(s, l, rows, fate);
            && Worker(t) >= Worker(s)
            && (S.Goes(s.next, WordsOf(rows) - Known(s, 0), rows, fate) ==> Worker(t) >= l)
  {
    SaveGrows(s, l, rows, WordsOf(rows) - Known(s, 0));
  }

  lemma AttemptRaisesWorker(a: Archive, s: State, asked: seq<UInt32>, l: UInt32, luck: Luck)
    ensures var t := Attempted(a, s, asked, l, luck);
            Worker(t) >= Worker(s) && (Succeeds(a, s, asked, luck) ==> Worker(t) >= l)
  {
    if AllFetched(a, asked, luck) { SavedRaisesWorker(s, l, Fetched(a, asked), luck.fate); }
  }

  lemma RecordingKeepsWorker(t: State, record: Record)
    requires 0 in t.processes && t.processes[0].Saved?
    ensures Worker(Recorded(t, record)) == Worker(t)
    ensures !record.Written? ==> 0 !in Recorded(t, record).processes
  {
    RangeNameInjective(t.processes[0].first, t.processes[0].end, 0, 0);
  }

  lemma SavedTurnRecords(a: Archive, s: State, start: UInt32, end: UInt32, concurrency: nat, next: UInt32, luck: Luck)
    requires ValidArchive(a) && Going(s, start, end, concurrency, next) && Plausible(next, end, concurrency)
    requires 0 < start <= next && end + 1 < 0x1_0000_0000 && Succeeds(a, s, Wanted(s.processes[0]), luck)
    ensures var t := FillTurn(a, s, luck);
            if luck.record.Written? then
              AtCheckpoint(t, start, end, concurrency) && Worker(t) >= FillFrom(t, start, end) - 1
            else 0 !in t.processes
  {
    AttemptRaisesWorker(a, s, Wanted(s.processes[0]), BatchEnd(next, end, concurrency), luck);
    SavedBatchAdvances(a, s, start, end, concurrency, next, luck);
    TurnIsSaved(a, s, start, end, concurrency, next, luck);
    RecordingKeepsWorker(Turn(a, s, luck), luck.record);
    if luck.record.Written? {
      RecordingMovesOn(Turn(a, s, luck), start, end, concurrency, BatchEnd(next, end, concurrency));
    }
  }

  lemma LostTurnRecords(a: Archive, s: State, start: UInt32, end: UInt32, concurrency: nat, from: UInt32, luck: Luck)
    requires 0 in s.processes && HasRecorded(s, start, end, concurrency, from)
    requires Plausible(FillFrom(s, start, end), end, concurrency) && !Succeeds(a, s, Wanted(s.processes[0]), luck)
    ensures HasRecorded(FillTurn(a, s, luck), start, end, concurrency, from)
  {
    var next := FillFrom(s, start, end);
    AttemptRaisesWorker(a, s, Wanted(s.processes[0]), BatchEnd(next, end, concurrency), luck);
    TurnIsLost(a, s, start, end, concurrency, next, luck);
  }

  lemma TurnRecords(a: Archive, s: State, start: UInt32, end: UInt32, concurrency: nat, from: UInt32, luck: Luck)
    requires ValidArchive(a) && 0 < start <= end && end + 1 < 0x1_0000_0000 && 1 <= concurrency <= MAX_CONCURRENCY
    requires HasRecorded(s, start, end, concurrency, from)
    ensures HasRecorded(FillTurn(a, s, luck), start, end, concurrency, from)
  {
    if !Unfinished(s) {
      IdleTurn(a, s, luck);
    } else {
      BusyTurnRecords(a, s, start, end, concurrency, from, FillFrom(s, start, end), luck);
    }
  }

  lemma BusyTurnRecords(a: Archive, s: State, start: UInt32, end: UInt32, concurrency: nat, from: UInt32,
                        next: UInt32, luck: Luck)
    requires ValidArchive(a) && 0 < start <= next && end + 1 < 0x1_0000_0000 && Plausible(next, end, concurrency)
    requires 0 in s.processes && HasRecorded(s, start, end, concurrency, from) && next == FillFrom(s, start, end)
    ensures HasRecorded(FillTurn(a, s, luck), start, end, concurrency, from)
  {
    if Succeeds(a, s, Wanted(s.processes[0]), luck) {
      SavedTurnRecords(a, s, start, end, concurrency, next, luck);
    } else {
      LostTurnRecords(a, s, start, end, concurrency, from, luck);
    }
  }

  lemma {:induction false} TurnsRecord(a: Archive, s: State, start: UInt32, end: UInt32, concurrency: nat,
                                       from: UInt32, weather: seq<Luck>)
    requires ValidArchive(a) && 0 < start <= end && end + 1 < 0x1_0000_0000 && 1 <= concurrency <= MAX_CONCURRENCY
    requires HasRecorded(s, start, end, concurrency, from)
    ensures HasRecorded(FillTurns(a, s, weather), start, end, concurrency, from)
  {
    if weather == [] {
    } else {
      var init, last := weather[..|weather| - 1], weather[|weather| - 1];
      TurnsRecord(a, s, start, end, concurrency, from, init);
      TurnRecords(a, FillTurns(a, s, init), start, end, concurrency, from, last);
    }
  }

  /** When a backfill says complete, its own checkpoint is its end and the worker checkpoint is not below it. */
  lemma CompleteIsRecorded(a: Archive, s: State, start: UInt32, end: UInt32, concurrency: nat, weather: seq<Luck>)
    requires ValidArchive(a) && Kept(a, s) && 0 !in s.processes
    requires 0 < start <= end && 1 <= concurrency <= MAX_CONCURRENCY
    requires OutcomeOf(s, start, end, Filled(a, s, start, end, concurrency, weather)) == Complete
    ensures var left := LeftBy(a, s, start, end, concurrency, weather);
            Checkpoint(left, RangeName(start, end)) == end && Worker(left) >= end
  {
    assert Completes(a, s, start, end, concurrency, weather);
    BackfillCanCompleteExactly(a, s, start, end, concurrency);
    assert RangeKept(a, s, start, end);
    var s1 := Apply(a, s, StartBackfill(0, start, end, concurrency));
    TurnsRecord(a, s1, start, end, concurrency, FillFrom(s, start, end), weather);
    EndIsRecorded(a, FillTurns(a, s1, weather), start, end, concurrency, FillFrom(s, start, end));
  }

  lemma EndIsRecorded(a: Archive, t: State, start: UInt32, end: UInt32, concurrency: nat, from: UInt32)
    requires 0 < start <= end && end + 1 < 0x1_0000_0000 && from <= end && EndOf(t) == Complete
    requires HasRecorded(t, start, end, concurrency, from)
    ensures Checkpoint(Apply(a, t, Stop(0)), RangeName(start, end)) == end && Worker(Apply(a, t, Stop(0))) >= end
  {
    assert Apply(a, t, Stop(0)) == Ended(t);
  }

  // ---------- follow ----------

  lemma OneMoreFollow(a: Archive, s: State, weather: seq<Luck>, luck: Luck)
    ensures FollowTurns(a, s, weather + [luck]) == FollowTurn(a, FollowTurns(a, s, weather), luck)
  {
    assert (weather + [luck])[..|weather|] == weather;
  }

  lemma {:induction false} FollowTurnsJoin(a: Archive, s: State, x: seq<Luck>, y: seq<Luck>)
    ensures FollowTurns(a, s, x + y) == FollowTurns(a, FollowTurns(a, s, x), y)
  {
    if y == [] {
      assert x + y == x;
    } else {
      var init, last := y[..|y| - 1], y[|y| - 1];
      FollowTurnsJoin(a, s, x, init);
      OneMoreFollow(a, s, x + init, last);
      OneMoreFollow(a, FollowTurns(a, s, x), init, last);
      assert y == init + [last] && x + y == x + init + [last];
    }
  }

  /** The follower stands where one that starts now would begin. */
  ghost predicate AtWorker(s: State, startFlag: UInt32) {
    && 0 <= Worker(s) < 0x1_0000_0000 && (Worker(s) != 0 || startFlag != 0)
    && 0 in s.processes && s.processes[0].Following? && s.processes[0].next == FollowFrom(s, startFlag)
  }

  lemma TurnStaysAtWorker(a: Archive, s: State, startFlag: UInt32, luck: Luck)
    requires ValidArchive(a) && AtWorker(s, startFlag) && !luck.fate.Unseen?
    ensures AtWorker(FollowTurn(a, s, luck), startFlag)
  {
    var p := s.processes[0];
    AttemptKeepsWorker(a, s, p.next, luck);
    var t := Attempted(a, s, [p.next], p.next, luck);
    if Succeeds(a, s, [p.next], luck) {
      assert Worker(With(t, 0, After(p))) == p.next;
    }
  }

  /** A save of the next ledger moves the worker checkpoint to it; a ledger 0 is never saved. */
  lemma AttemptKeepsWorker(a: Archive, s: State, l: UInt32, luck: Luck)
    requires ValidArchive(a) && !luck.fate.Unseen?
    ensures var t := Attempted(a, s, [l], l, luck);
            && t.processes == s.processes
            && (Succeeds(a, s, [l], luck) ==> 0 < l && Worker(t) == if Worker(s) > l then Worker(s) else l)
            && (!Succeeds(a, s, [l], luck) ==> Worker(t) == Worker(s))
  {
    assert [l][0] == l;
    if AllFetched(a, [l], luck) { SavedMovesWorker(s, l, Fetched(a, [l]), luck.fate); }
  }

  lemma SavedMovesWorker(s: State, l: UInt32, rows: seq<Invocation>, fate: S.Fate)
    ensures var t := SavedAs(s, l, rows, fate);
            && t.processes == s.processes
            && Worker(t) == if !S.Goes(s.next, WordsOf(rows) - Known(s, 0), rows, fate) || Worker(s) > l
                            then Worker(s) else l
  {
    SaveGrows(s, l, rows, WordsOf(rows) - Known(s, 0));
  }

  lemma {:induction false} StaysAtWorker(a: Archive, s: State, startFlag: UInt32, weather: seq<Luck>)
    requires ValidArchive(a) && AtWorker(s, startFlag) && forall luck :: luck in weather ==> !luck.fate.Unseen?
    ensures AtWorker(FollowTurns(a, s, weather), startFlag)
  {
    if weather == [] {
    } else {
      StaysAtWorker(a, s, startFlag, weather[..|weather| - 1]);
      TurnStaysAtWorker(a, FollowTurns(a, s, weather[..|weather| - 1]), startFlag, weather[|weather| - 1]);
    }
  }

  ghost function Ended(s: State): State {
    s.(processes := s.processes - {0})
  }

  /** Two followers with the same ledger before them, wherever they began. */
  ghost predicate Alike(s: State, t: State) {
    && Ended(s) == Ended(t) && 0 in s.processes && 0 in t.processes
    && s.processes[0].Following? && t.processes[0].Following? && s.processes[0].next == t.processes[0].next
  }

  lemma TurnsAlike(a: Archive, s: State, t: State, luck: Luck)
    requires Alike(s, t)
    ensures Alike(FollowTurn(a, s, luck), FollowTurn(a, t, luck))
  {
    var p, q := s.processes[0], t.processes[0];
    assert t == s.(processes := t.processes) by { SameButProcesses(s, t); }
    AttemptAlike(a, s, t.processes, [p.next], p.next, luck);
    var u := Attempted(a, s, [p.next], p.next, luck);
    assert s.processes[0 := After(p)] - {0} == s.processes - {0};
    assert t.processes[0 := After(q)] - {0} == t.processes - {0};
  }

  lemma SameButProcesses(s: State, t: State)
    requires Ended(s) == Ended(t)
    ensures t == s.(processes := t.processes)
  {
    assert Ended(s).(processes := t.processes) == Ended(t).(processes := t.processes);
  }

  lemma SavedAlike(s: State, ps: map<nat, Process>, ledger: UInt32, rows: seq<Invocation>, fate: S.Fate)
    ensures SavedAs(s.(processes := ps), ledger, rows, fate) == SavedAs(s, ledger, rows, fate).(processes := ps)
    ensures SavedAs(s, ledger, rows, fate).processes == s.processes
  {
  }

  /** An attempt looks at nothing of the processes. */
  lemma AttemptAlike(a: Archive, s: State, ps: map<nat, Process>, asked: seq<UInt32>, ledger: UInt32, luck: Luck)
    ensures Attempted(a, s.(processes := ps), asked, ledger, luck)
         == Attempted(a, s, asked, ledger, luck).(processes := ps)
    ensures Attempted(a, s, asked, ledger, luck).processes == s.processes
    ensures Succeeds(a, s.(processes := ps), asked, luck) <==> Succeeds(a, s, asked, luck)
  {
    if AllFetched(a, asked, luck) { SavedAlike(s, ps, ledger, Fetched(a, asked), luck.fate); }
  }

  lemma {:induction false} FollowersAlike(a: Archive, s: State, t: State, weather: seq<Luck>)
    requires Alike(s, t)
    ensures Alike(FollowTurns(a, s, weather), FollowTurns(a, t, weather))
  {
    if weather == [] {
    } else {
      var init, last := weather[..|weather| - 1], weather[|weather| - 1];
      FollowersAlike(a, s, t, init);
      TurnsAlike(a, FollowTurns(a, s, init), FollowTurns(a, t, init), last);
    }
  }

  /** Where a follower leaves the database when its weather is over. */
  ghost function FollowedBy(a: Archive, s: State, startFlag: UInt32, weather: seq<Luck>): State {
    Apply(a, FollowTurns(a, Apply(a, s, StartFollow(0, startFlag)), weather), Stop(0))
  }

  lemma FollowsOnWhereItStopped(a: Archive, t: State, startFlag: UInt32)
    requires AtWorker(t, startFlag)
    ensures Apply(a, t, Stop(0)) == Ended(t)
    ensures Alike(Apply(a, Ended(t), StartFollow(0, startFlag)), t)
  {
    assert FollowFrom(Ended(t), startFlag) == FollowFrom(t, startFlag);
    var again := Apply(a, Ended(t), StartFollow(0, startFlag));
    assert again.processes - {0} == Ended(t).processes;
  }

  /**
   A follower that is stopped after any weather and started again with the same flag leaves
   what one that was never stopped leaves, as long as it heard of every commit it made.
   */
  lemma StoppedFollowerLosesNothing(a: Archive, s: State, startFlag: UInt32, x: seq<Luck>, y: seq<Luck>)
    requires ValidArchive(a) && Kept(a, s) && 0 !in s.processes
    requires forall luck :: luck in x ==> !luck.fate.Unseen?
    ensures FollowedBy(a, FollowedBy(a, s, startFlag, x), startFlag, y) == FollowedBy(a, s, startFlag, x + y)
  {
    var s1 := Apply(a, s, StartFollow(0, startFlag));
    if Worker(s) == 0 && startFlag == 0 {
      NeverFollows(a, s, x);
      NeverFollows(a, s, y);
      NeverFollows(a, s, x + y);
    } else {
      var t := FollowTurns(a, s1, x);
      StaysAtWorker(a, s1, startFlag, x);
      FollowTurnsJoin(a, s1, x, y);
      FollowsOn(a, t, startFlag, y);
    }
  }

  lemma FollowsOn(a: Archive, t: State, startFlag: UInt32, y: seq<Luck>)
    requires AtWorker(t, startFlag)
    ensures FollowedBy(a, Apply(a, t, Stop(0)), startFlag, y) == Apply(a, FollowTurns(a, t, y), Stop(0))
  {
    FollowsOnWhereItStopped(a, t, startFlag);
    FollowersAlike(a, Apply(a, Ended(t), StartFollow(0, startFlag)), t, y);
  }
}
