/**
 The ingest protocol: followers and backfills share a table and its checkpoints, every
 save is one transaction, and any process may fail or die between any two steps.
 */
module Ingest {
  import opened Bytes
  import opened Decimal
  import opened Extract
  import opened Dictionary
  import opened Ids
  import opened SavedRows

  const MAX_CONCURRENCY := 64

  // ---------- checkpoint names ----------

  function RangeName(start: nat, end: nat): string {
    "backfill:" + Print(start) + "-" + Print(end)
  }

  lemma FirstDash(a: string, x: string, b: string, y: string)
    requires AllDigits(a) && AllDigits(b) && a + "-" + x == b + "-" + y
    ensures a == b && x == y
  {
    var whole := a + "-" + x;
    assert whole[|a|] == '-' && whole[|b|] == '-';
    assert |a| < |b| ==> whole[|a|] == b[|a|] && IsDigit(b[|a|]);
    assert |b| < |a| ==> whole[|b|] == a[|b|] && IsDigit(a[|b|]);
    assert a == whole[..|a|] && b == whole[..|b|];
    assert x == whole[|a| + 1..] && y == whole[|b| + 1..];
  }

  /** Two different ranges never share a checkpoint, and no range has the worker's. */
  lemma RangeNameInjective(start: nat, end: nat, start': nat, end': nat)
    ensures RangeName(start, end) == RangeName(start', end') ==> start == start' && end == end'
    ensures RangeName(start, end) != WORKER
  {
    assert RangeName(start, end)[0] == 'b' && WORKER[0] == 'w';
    if RangeName(start, end) == RangeName(start', end') {
      var a, b := Print(start) + "-" + Print(end), Print(start') + "-" + Print(end');
      assert RangeName(start, end)[9..] == a && RangeName(start', end')[9..] == b;
      FirstDash(Print(start), Print(end), Print(start'), Print(end'));
      PrintRoundTrip(start);
      PrintRoundTrip(start');
      PrintRoundTrip(end);
      PrintRoundTrip(end');
    }
  }

  // ---------- the ledgers of a batch, in 32-bit arithmetic ----------

  function Add32(x: int, y: int): UInt32 {
    (x + y) % 0x1_0000_0000
  }

  function BatchEnd(next: UInt32, end: UInt32, concurrency: nat): UInt32 {
    var last := Add32(next, concurrency - 1);
    if last > end then end else last
  }

  /** How many ledgers a batch asks the archive for. */
  function Count(from: UInt32, to: UInt32): nat {
    Add32(to - from, 1)
  }

  /** The ledgers from, from + 1, ... as a batch computes them. */
  function Asked(from: UInt32, count: nat): (s: seq<UInt32>)
    ensures |s| == count
  {
    seq(count, i requires 0 <= i < count => Add32(from, i))
  }

  predicate Fetchable(a: Archive, asked: seq<UInt32>) {
    forall i :: 0 <= i < |asked| ==> asked[i] in a
  }

  function Fetched(a: Archive, asked: seq<UInt32>): seq<Invocation>
    requires Fetchable(a, asked)
  {
    if asked == [] then [] else Fetched(a, asked[..|asked| - 1]) + a[asked[|asked| - 1]]
  }

  /** All of it can be fetched, and the table takes every row of it. */
  predicate Savable(a: Archive, asked: seq<UInt32>) {
    Fetchable(a, asked) && FitColumns(Fetched(a, asked))
  }

  /** The archive has the ledger, and the table takes every row of it. */
  predicate Fits(a: Archive, l: int) {
    0 <= l < TWO_32 && l in a && FitColumns(a[l])
  }

  lemma FitConcat(x: seq<Invocation>, y: seq<Invocation>)
    ensures FitColumns(x + y) <==> FitColumns(x) && FitColumns(y)
  {
    if FitColumns(x + y) {
      forall i | 0 <= i < |x| ensures RowFits(x[i]) { assert (x + y)[i] == x[i]; }
      forall i | 0 <= i < |y| ensures RowFits(y[i]) { assert (x + y)[|x| + i] == y[i]; }
    }
  }

  lemma {:induction false} SavableExactly(a: Archive, asked: seq<UInt32>)
    ensures Savable(a, asked) <==> forall i :: 0 <= i < |asked| ==> Fits(a, asked[i])
  {
    if asked == [] || !Fetchable(a, asked) {
    } else {
      var init, last := asked[..|asked| - 1], asked[|asked| - 1];
      SavableExactly(a, init);
      FitConcat(Fetched(a, init), a[last]);
      assert forall i :: 0 <= i < |asked| ==> asked[i] == if i < |init| then init[i] else last;
    }
  }

  predicate Plausible(next: UInt32, end: UInt32, concurrency: nat) {
    next <= end && 1 <= concurrency <= MAX_CONCURRENCY
  }

  /** A batch asks for exactly next..BatchEnd, unless adding its size wraps past 2^32. */
  lemma BatchIsARange(next: UInt32, end: UInt32, concurrency: nat)
    requires Plausible(next, end, concurrency) && next + concurrency - 1 < 0x1_0000_0000
    ensures next <= BatchEnd(next, end, concurrency) <= end
    ensures var to := BatchEnd(next, end, concurrency);
            && Count(next, to) == to - next + 1
            && Asked(next, Count(next, to)) == seq(to - next + 1, i requires 0 <= i < to - next + 1 => next + i)
  {
  }

  /** A batch whose size wraps asks for ledger 0 among others. */
  lemma WrappedBatchAsksForZero(next: UInt32, end: UInt32, concurrency: nat)
    requires Plausible(next, end, concurrency) && next + concurrency - 1 >= 0x1_0000_0000
    ensures 0 in Asked(next, Count(next, BatchEnd(next, end, concurrency)))
  {
    var to := BatchEnd(next, end, concurrency);
    var asked := Asked(next, Count(next, to));
    assert to == next + concurrency - 1 - 0x1_0000_0000;
    assert Count(next, to) == concurrency;
    assert asked[0x1_0000_0000 - next] == 0;
  }

  // ---------- the names of a range of ledgers ----------

  /** Every contract, function and address that the calls of these ledgers name. */
  function LedgerWords(a: Archive, lo: int, hi: int): set<Word> {
    set l, i, w | l in a && lo <= l <= hi && 0 <= i < |a[l]| && w in RowWords(a[l][i]) :: w
  }

  lemma {:induction false} FetchedWords(a: Archive, asked: seq<UInt32>, w: Word)
    requires Fetchable(a, asked)
    ensures w in WordsOf(Fetched(a, asked)) <==> exists i :: 0 <= i < |asked| && w in WordsOf(a[asked[i]])
  {
    if asked == [] {
    } else {
      var init, last := asked[..|asked| - 1], asked[|asked| - 1];
      FetchedWords(a, init, w);
      WordsOfConcat(Fetched(a, init), a[last]);
      if i :| 0 <= i < |asked| && w in WordsOf(a[asked[i]]) {
        assert i < |init| ==> init[i] == asked[i];
      }
      if i :| 0 <= i < |init| && w in WordsOf(a[init[i]]) { assert asked[i] == init[i]; }
      if w in WordsOf(a[last]) { assert asked[|asked| - 1] == last; }
    }
  }

  /** A batch that does not wrap names what its ledgers name. */
  lemma BatchWords(a: Archive, lo: UInt32, to: UInt32, asked: seq<UInt32>)
    requires lo <= to && |asked| == to - lo + 1 && forall i :: 0 <= i < |asked| ==> asked[i] == lo + i
    requires Fetchable(a, asked)
    ensures WordsOf(Fetched(a, asked)) == LedgerWords(a, lo, to)
  {
    forall w ensures w in WordsOf(Fetched(a, asked)) <==> w in LedgerWords(a, lo, to) {
      FetchedWords(a, asked, w);
      if w in LedgerWords(a, lo, to) {
        var l, i :| l in a && lo <= l <= to && 0 <= i < |a[l]| && w in RowWords(a[l][i]);
        assert asked[l - lo] == l && w in WordsOf(a[l]);
      }
    }
  }

  /**
   Exactly when a batch can ever commit: its range does not wrap or start at 0, the archive
   has it, every row of it fits its columns, and each sequence has an id for every name in
   it that the process has not cached.
   */
  lemma BatchCanCommitExactly(a: Archive, next: UInt32, end: UInt32, concurrency: nat, ids: map<Kind, nat>,
                              known: set<Word>)
    requires ValidArchive(a) && Plausible(next, end, concurrency)
    ensures var to := BatchEnd(next, end, concurrency);
            CanCommit(a, Asked(next, Count(next, to)), ids, known) <==>
            && 0 < next && next + concurrency - 1 < 0x1_0000_0000
            && (forall l: int :: next <= l <= to ==> Fits(a, l))
            && HasRoom(ids, LedgerWords(a, next, to) - known)
  {
    var to := BatchEnd(next, end, concurrency);
    var asked := Asked(next, Count(next, to));
    SavableExactly(a, asked);
    if next + concurrency - 1 >= 0x1_0000_0000 {
      WrappedBatchAsksForZero(next, end, concurrency);
    } else {
      BatchIsARange(next, end, concurrency);
      assert asked[0] == next;
      if Savable(a, asked) {
        forall l: int | next <= l <= to ensures Fits(a, l) { assert asked[l - next] == l; }
        BatchWords(a, next, to, asked);
      }
      if 0 < next && forall l: int :: next <= l <= to ==> Fits(a, l) {
        BatchWords(a, next, to, asked);
      }
    }
  }

  /** A save of these ledgers goes through when nothing but their rows and the sequences can stop it. */
  ghost predicate CanCommit(a: Archive, asked: seq<UInt32>, ids: map<Kind, nat>, known: set<Word>) {
    Savable(a, asked) && HasRoom(ids, WordsOf(Fetched(a, asked)) - known)
  }

  // ---------- states and steps ----------

  /** first is where a process began; the program keeps it only in its flags. */
  datatype Process =
    | Following(first: UInt32, next: UInt32)
    | Filling(first: UInt32, end: UInt32, concurrency: nat, next: UInt32)
    | Saved(first: UInt32, end: UInt32, concurrency: nat, batchEnd: UInt32)

  /** next holds the sequences of the id columns; caches the names each process has cached. */
  datatype State = State(table: Table, checkpoints: map<string, int>, next: map<Kind, nat>,
                         caches: map<nat, set<Word>>, processes: map<nat, Process>)

  /** A save is unseen when the database commits it and the connection breaks before saying so. */
  datatype Event =
    | Open(id: nat)
    | StartFollow(id: nat, startFlag: UInt32)
    | SaveOne(id: nat)
    | StartBackfill(id: nat, start: UInt32, end: UInt32, concurrency: nat)
    | SaveBatch(id: nat)
    | SaveUnseen(id: nat)
    | SetRangeCheckpoint(id: nat)
    | Fail(id: nat, drawn: map<Kind, nat>)
    | Stop(id: nat)

  const EMPTY := State(map[], map[], map[], map[], map[])

  function Checkpoint(s: State, name: string): int {
    CheckpointOf(s.checkpoints, name)
  }

  function Worker(s: State): int {
    Checkpoint(s, WORKER)
  }

  function Known(s: State, id: nat): set<Word> {
    if id in s.caches then s.caches[id] else {}
  }

  /** The ledgers a process's next save asks for. */
  function Wanted(p: Process): seq<UInt32>
    requires !p.Saved?
  {
    if p.Following? then [p.next] else Asked(p.next, Count(p.next, UpTo(p)))
  }

  /** The ledger that save moves the worker checkpoint to. */
  function UpTo(p: Process): UInt32
    requires !p.Saved?
  {
    if p.Following? then p.next else BatchEnd(p.next, p.end, p.concurrency)
  }

  /** What a commit does to the database: rows, worker checkpoint and sequences at once. */
  function Save(s: State, ledger: UInt32, rows: seq<Invocation>, missing: set<Word>): State {
    s.(table := InsertAll(s.table, rows), checkpoints := Raised(s.checkpoints, ledger),
       next := DrawAll(s.next, missing))
  }

  /** A process that sees its commit caches the names it had to ask for. */
  function Learn(s: State, id: nat, names: set<Word>): State {
    s.(caches := s.caches[id := Known(s, id) + names])
  }

  function With(s: State, id: nat, p: Process): State {
    s.(processes := s.processes[id := p])
  }

  function FollowFrom(s: State, startFlag: UInt32): UInt32 {
    if Worker(s) == 0 then startFlag else Add32(Worker(s), 1)
  }

  function FillFrom(s: State, start: UInt32, end: UInt32): UInt32 {
    var done := Checkpoint(s, RangeName(start, end));
    if done >= start then Add32(done, 1) else start
  }

  predicate Saving(s: State, id: nat) {
    && id in s.processes && !s.processes[id].Saved?
    && (s.processes[id].Filling? ==> s.processes[id].next <= s.processes[id].end)
  }

  ghost predicate CanSave(a: Archive, s: State, id: nat) {
    Saving(s, id) && CanCommit(a, Wanted(s.processes[id]), s.next, Known(s, id))
  }

  ghost predicate Enabled(a: Archive, s: State, e: Event) {
    match e
    case Open(id) => id !in s.processes
    case StartFollow(id, startFlag) => id !in s.processes && (Worker(s) != 0 || startFlag != 0)
    case StartBackfill(id, start, end, concurrency) =>
      id !in s.processes && 0 < start <= end && 1 <= concurrency <= MAX_CONCURRENCY && FillFrom(s, start, end) <= end
    case SaveOne(id) => CanSave(a, s, id) && s.processes[id].Following?
    case SaveBatch(id) => CanSave(a, s, id) && s.processes[id].Filling?
    case SaveUnseen(id) => CanSave(a, s, id)
    case SetRangeCheckpoint(id) => id in s.processes && s.processes[id].Saved?
    case Fail(id, drawn) => id in s.processes && Advances(s.next, drawn)
    case Stop(id) => id in s.processes
  }

  /** One event. An event that is not enabled changes nothing; a failure may still use ids up. */
  ghost function Apply(a: Archive, s: State, e: Event): State {
    if !Enabled(a, s, e) then s
    else match e
      case Open(id) => s.(caches := s.caches - {id})
      case StartFollow(id, startFlag) =>
        With(s, id, Following(FollowFrom(s, startFlag), FollowFrom(s, startFlag)))
      case StartBackfill(id, start, end, concurrency) =>
        With(s, id, Filling(start, end, concurrency, FillFrom(s, start, end)))
      case SaveOne(id) => AfterOne(a, s, id)
      case SaveBatch(id) => AfterBatch(a, s, id)
      case SaveUnseen(id) => Committed(a, s, id)
      case SetRangeCheckpoint(id) => AfterCheckpoint(s, id)
      case Fail(id, drawn) => s.(next := drawn)
      case Stop(id) => s.(processes := s.processes - {id})
  }

  /** The names a save has to ask the database about. */
  ghost function Missing(a: Archive, s: State, id: nat): set<Word>
    requires CanSave(a, s, id)
  {
    WordsOf(Fetched(a, Wanted(s.processes[id]))) - Known(s, id)
  }

  ghost function Committed(a: Archive, s: State, id: nat): State
    requires CanSave(a, s, id)
  {
    var p := s.processes[id];
    Save(s, UpTo(p), Fetched(a, Wanted(p)), Missing(a, s, id))
  }

  ghost function AfterOne(a: Archive, s: State, id: nat): State
    requires Enabled(a, s, SaveOne(id))
  {
    var p := s.processes[id];
    With(Learn(Committed(a, s, id), id, Missing(a, s, id)), id, Following(p.first, Add32(p.next, 1)))
  }

  ghost function AfterBatch(a: Archive, s: State, id: nat): State
    requires Enabled(a, s, SaveBatch(id))
  {
    var p := s.processes[id];
    With(Learn(Committed(a, s, id), id, Missing(a, s, id)), id, Saved(p.first, p.end, p.concurrency, UpTo(p)))
  }

  /** The range checkpoint, overwritten. */
  function WithRange(s: State, start: nat, end: nat, c: int): State {
    s.(checkpoints := s.checkpoints[RangeName(start, end) := c])
  }

  function AfterCheckpoint(s: State, id: nat): State
    requires id in s.processes && s.processes[id].Saved?
  {
    var p := s.processes[id];
    With(WithRange(s, p.first, p.end, p.batchEnd), id, Filling(p.first, p.end, p.concurrency, Add32(p.batchEnd, 1)))
  }

  /** The state a run leads to. */
  ghost function ExecuteFrom(a: Archive, s: State, run: seq<Event>): State {
    if run == [] then s else Apply(a, ExecuteFrom(a, s, run[..|run| - 1]), run[|run| - 1])
  }

  /** The state after a run from an empty database. */
  ghost function Execute(a: Archive, run: seq<Event>): State {
    ExecuteFrom(a, EMPTY, run)
  }

  lemma OneMoreEvent(a: Archive, s: State, run: seq<Event>, e: Event)
    ensures ExecuteFrom(a, s, run + [e]) == Apply(a, ExecuteFrom(a, s, run), e)
  {
    assert (run + [e])[..|run + [e]| - 1] == run;
  }

  /** The last process ends. */
  lemma Leaves(a: Archive, s: State, p: Process)
    requires s.processes == map[0 := p]
    ensures Apply(a, s, Stop(0)) == s.(processes := map[])
  {
    assert map[0 := p] - {0} == map[];
  }

  // ---------- what every run keeps ----------

  /** Everything from first up to next is stored; a counter that wrapped to 0 is past the last ledger. */
  ghost predicate Behind(a: Archive, t: Table, first: int, next: int) {
    next == 0 || (0 < first <= next && AllStored(a, t, first, next))
  }

  ghost predicate ProcessKept(a: Archive, t: Table, p: Process) {
    match p
    case Following(first, next) => Behind(a, t, first, next)
    case Filling(first, end, concurrency, next) =>
      1 <= concurrency <= MAX_CONCURRENCY && next - 1 <= end && Behind(a, t, first, next)
    case Saved(first, end, concurrency, batchEnd) =>
      && 1 <= concurrency <= MAX_CONCURRENCY && batchEnd <= end && 0 < first <= batchEnd
      && AllStored(a, t, first, batchEnd + 1)
  }

  ghost predicate RangeKept(a: Archive, s: State, start: nat, end: nat) {
    var c := Checkpoint(s, RangeName(start, end));
    0 <= c <= end && (c >= start > 0 ==> AllStored(a, s.table, start, c + 1))
  }

  ghost predicate Kept(a: Archive, s: State) {
    && FromArchive(a, s.table)
    && 0 <= Worker(s) < TWO_32
    && Counting(s.next)
    && (forall id :: id in s.processes ==> ProcessKept(a, s.table, s.processes[id]))
    && (forall start: nat, end: nat :: RangeKept(a, s, start, end))
  }

  ghost predicate Grows(t: Table, u: Table) {
    forall k :: k in t ==> k in u && u[k] == t[k]
  }

  lemma GrowthKeepsStored(a: Archive, t: Table, u: Table, lo: int, hi: int)
    requires Grows(t, u) && AllStored(a, t, lo, hi)
    ensures AllStored(a, u, lo, hi)
  {
    forall l | lo <= l < hi ensures Stored(a, u, l) {
      assert Stored(a, t, l);
      forall i | 0 <= i < |a[l]| ensures Holds(u, a[l][i]) { assert Holds(t, a[l][i]); }
    }
  }

  lemma GrowthKeepsProcess(a: Archive, t: Table, u: Table, p: Process)
    requires Grows(t, u) && ProcessKept(a, t, p)
    ensures ProcessKept(a, u, p)
  {
    match p
    case Following(first, next) => if next != 0 { GrowthKeepsStored(a, t, u, first, next); }
    case Filling(first, end, concurrency, next) => if next != 0 { GrowthKeepsStored(a, t, u, first, next); }
    case Saved(first, end, concurrency, batchEnd) => GrowthKeepsStored(a, t, u, first, batchEnd + 1);
  }

  lemma FetchedSnoc(a: Archive, t: Table, asked: seq<UInt32>)
    requires asked != [] && Fetchable(a, asked)
    ensures var init, last := asked[..|asked| - 1], asked[|asked| - 1];
            InsertAll(t, Fetched(a, asked)) == InsertAll(InsertAll(t, Fetched(a, init)), a[last])
  {
    InsertAllConcat(t, Fetched(a, asked[..|asked| - 1]), a[asked[|asked| - 1]]);
  }

  lemma OneMoreFetched(a: Archive, t: Table, init: seq<UInt32>, last: UInt32)
    requires ValidArchive(a) && FromArchive(a, t) && last in a
    requires forall i :: 0 <= i < |init| ==> Stored(a, t, init[i])
    ensures FromArchive(a, InsertAll(t, a[last])) && Stored(a, InsertAll(t, a[last]), last)
    ensures forall i :: 0 <= i < |init| ==> Stored(a, InsertAll(t, a[last]), init[i])
  {
    InsertLedger(a, t, last);
    forall i | 0 <= i < |init| ensures Stored(a, InsertAll(t, a[last]), init[i]) { OneLedgerMore(a, t, last, init[i]); }
  }

  /** Fetched ledgers, once inserted, are stored. */
  lemma {:induction false} FetchedAreStored(a: Archive, t: Table, asked: seq<UInt32>)
    requires ValidArchive(a) && FromArchive(a, t) && Fetchable(a, asked)
    ensures FromArchive(a, InsertAll(t, Fetched(a, asked)))
    ensures forall i :: 0 <= i < |asked| ==> Stored(a, InsertAll(t, Fetched(a, asked)), asked[i])
  {
    if asked == [] {
      assert InsertAll(t, []) == t;
    } else {
      var init, last := asked[..|asked| - 1], asked[|asked| - 1];
      FetchedAreStored(a, t, init);
      FetchedSnoc(a, t, asked);
      OneMoreFetched(a, InsertAll(t, Fetched(a, init)), init, last);
    }
  }

  lemma OneLedgerMore(a: Archive, t: Table, more: UInt32, l: int)
    requires more in a && Stored(a, t, l)
    ensures Stored(a, InsertAll(t, a[more]), l)
  {
    InsertAllGrows(t, a[more]);
    StaysStored(a, t, InsertAll(t, a[more]), l);
  }

  lemma StaysStored(a: Archive, t: Table, u: Table, l: int)
    requires Grows(t, u) && Stored(a, t, l)
    ensures Stored(a, u, l)
  {
    GrowthKeepsStored(a, t, u, l, l + 1);
    assert l <= l < l + 1;
  }

  // ---------- every step keeps it ----------

  lemma SaveGrows(s: State, ledger: UInt32, rows: seq<Invocation>, missing: set<Word>)
    ensures Grows(s.table, Save(s, ledger, rows, missing).table)
    ensures Worker(Save(s, ledger, rows, missing)) == if Worker(s) > ledger then Worker(s) else ledger
    ensures forall start: nat, end: nat ::
              Checkpoint(Save(s, ledger, rows, missing), RangeName(start, end)) == Checkpoint(s, RangeName(start, end))
  {
    InsertAllGrows(s.table, rows);
    forall start: nat, end: nat
      ensures Checkpoint(Save(s, ledger, rows, missing), RangeName(start, end)) == Checkpoint(s, RangeName(start, end))
    {
      RangeNameInjective(start, end, start, end);
    }
  }

  /** A save keeps everything already promised, of every process and every checkpoint. */
  lemma SaveKeeps(a: Archive, s: State, ledger: UInt32, asked: seq<UInt32>, missing: set<Word>)
    requires ValidArchive(a) && Kept(a, s) && Fetchable(a, asked) && HasRoom(s.next, missing)
    ensures Kept(a, Save(s, ledger, Fetched(a, asked), missing))
    ensures forall i :: 0 <= i < |asked| ==> Stored(a, Save(s, ledger, Fetched(a, asked), missing).table, asked[i])
  {
    var s' := Save(s, ledger, Fetched(a, asked), missing);
    SaveGrows(s, ledger, Fetched(a, asked), missing);
    FetchedAreStored(a, s.table, asked);
    RoomKeepsCounting(s.next, missing);
    forall id | id in s'.processes ensures ProcessKept(a, s'.table, s'.processes[id]) {
      GrowthKeepsProcess(a, s.table, s'.table, s.processes[id]);
    }
    forall start: nat, end: nat ensures RangeKept(a, s', start, end) {
      assert RangeKept(a, s, start, end);
      var c := Checkpoint(s, RangeName(start, end));
      if c >= start > 0 { GrowthKeepsStored(a, s.table, s'.table, start, c + 1); }
    }
  }

  /** Sequences and caches do not matter to what is stored. */
  lemma IdsKeep(a: Archive, s: State, next: map<Kind, nat>, caches: map<nat, set<Word>>)
    requires Kept(a, s) && Counting(next)
    ensures Kept(a, s.(next := next, caches := caches))
  {
    forall start: nat, end: nat ensures RangeKept(a, s.(next := next, caches := caches), start, end) {
      assert RangeKept(a, s, start, end);
    }
  }

  lemma WithKeeps(a: Archive, s: State, id: nat, p: Process)
    requires Kept(a, s) && ProcessKept(a, s.table, p)
    ensures Kept(a, With(s, id, p))
  {
    forall start: nat, end: nat ensures RangeKept(a, With(s, id, p), start, end) {
      assert RangeKept(a, s, start, end);
    }
  }

  lemma OneMoreStored(a: Archive, t: Table, first: int, next: int)
    requires 0 < first <= next && AllStored(a, t, first, next) && Stored(a, t, next)
    ensures AllStored(a, t, first, next + 1)
  {
  }

  lemma FetchedOne(a: Archive, l: UInt32)
    requires l in a
    ensures Fetched(a, [l]) == a[l]
  {
    assert [l][..0] == [];
    assert Fetched(a, []) == [];
    assert Fetched(a, [l]) == Fetched(a, [l][..0]) + a[l];
  }

  lemma FollowerMovesOn(a: Archive, t: Table, first: UInt32, next: UInt32)
    requires ValidArchive(a) && next in a && Stored(a, t, next) && ProcessKept(a, t, Following(first, next))
    ensures ProcessKept(a, t, Following(first, Add32(next, 1)))
  {
    OneMoreStored(a, t, first, next);
  }

  /** What a commit leaves, whether or not its process gets to know. */
  lemma CommitKeeps(a: Archive, s: State, id: nat)
    requires ValidArchive(a) && Kept(a, s) && CanSave(a, s, id)
    ensures Kept(a, Committed(a, s, id))
    ensures var asked := Wanted(s.processes[id]);
            forall i :: 0 <= i < |asked| ==> Stored(a, Committed(a, s, id).table, asked[i])
  {
    SaveKeeps(a, s, UpTo(s.processes[id]), Wanted(s.processes[id]), Missing(a, s, id));
  }

  lemma LearnKeeps(a: Archive, s: State, id: nat, names: set<Word>)
    requires Kept(a, s)
    ensures Kept(a, Learn(s, id, names))
  {
    IdsKeep(a, s, s.next, Learn(s, id, names).caches);
  }

  lemma OneStepKeeps(a: Archive, s: State, id: nat)
    requires ValidArchive(a) && Kept(a, s) && Enabled(a, s, SaveOne(id))
    ensures Kept(a, AfterOne(a, s, id))
  {
    var p := s.processes[id];
    var s' := Committed(a, s, id);
    CommitKeeps(a, s, id);
    LearnKeeps(a, s', id, Missing(a, s, id));
    assert Wanted(p)[0] == p.next;
    assert ProcessKept(a, s'.table, s'.processes[id]);
    FollowerMovesOn(a, s'.table, p.first, p.next);
    WithKeeps(a, Learn(s', id, Missing(a, s, id)), id, Following(p.first, Add32(p.next, 1)));
  }

  lemma BatchStored(a: Archive, t: Table, first: int, next: UInt32, to: UInt32)
    requires 0 < first <= next <= to && AllStored(a, t, first, next)
    requires AllStored(a, t, next, to + 1)
    ensures AllStored(a, t, first, to + 1)
  {
  }

  lemma FillerMovesOn(a: Archive, t: Table, p: Process, ids: map<Kind, nat>, known: set<Word>)
    requires ValidArchive(a) && p.Filling? && p.next <= p.end && ProcessKept(a, t, p)
    requires CanCommit(a, Wanted(p), ids, known)
    requires forall i :: 0 <= i < |Wanted(p)| ==> Stored(a, t, Wanted(p)[i])
    ensures ProcessKept(a, t, Saved(p.first, p.end, p.concurrency, UpTo(p)))
  {
    var to := UpTo(p);
    BatchCanCommitExactly(a, p.next, p.end, p.concurrency, ids, known);
    BatchIsARange(p.next, p.end, p.concurrency);
    forall l | p.next <= l < to + 1 ensures Stored(a, t, l) { assert Wanted(p)[l - p.next] == l; }
    BatchStored(a, t, p.first, p.next, to);
  }

  lemma BatchStepKeeps(a: Archive, s: State, id: nat)
    requires ValidArchive(a) && Kept(a, s) && Enabled(a, s, SaveBatch(id))
    ensures Kept(a, AfterBatch(a, s, id))
  {
    var p := s.processes[id];
    var s' := Committed(a, s, id);
    CommitKeeps(a, s, id);
    LearnKeeps(a, s', id, Missing(a, s, id));
    assert ProcessKept(a, s'.table, s'.processes[id]);
    FillerMovesOn(a, s'.table, p, s.next, Known(s, id));
    WithKeeps(a, Learn(s', id, Missing(a, s, id)), id, Saved(p.first, p.end, p.concurrency, UpTo(p)));
  }

  /** Recording a range up to a ledger that is stored. */
  lemma RecordingKeeps(a: Archive, s: State, start: nat, end: nat, c: int)
    requires Kept(a, s) && 0 < start <= c <= end && AllStored(a, s.table, start, c + 1)
    ensures Kept(a, WithRange(s, start, end, c))
  {
    RangeNameInjective(start, end, start, end);
    forall x: nat, y: nat ensures RangeKept(a, WithRange(s, start, end, c), x, y) {
      RangeNameInjective(x, y, start, end);
      assert RangeKept(a, s, x, y);
    }
  }

  lemma CheckpointStepKeeps(a: Archive, s: State, id: nat)
    requires Kept(a, s) && id in s.processes && s.processes[id].Saved?
    ensures Kept(a, AfterCheckpoint(s, id))
  {
    var p := s.processes[id];
    assert ProcessKept(a, s.table, p);
    RecordingKeeps(a, s, p.first, p.end, p.batchEnd);
    WithKeeps(a, WithRange(s, p.first, p.end, p.batchEnd), id,
        Filling(p.first, p.end, p.concurrency, Add32(p.batchEnd, 1)));
  }

  lemma StartStepKeeps(a: Archive, s: State, id: nat, start: UInt32, end: UInt32, concurrency: nat)
    requires Kept(a, s) && Enabled(a, s, StartBackfill(id, start, end, concurrency))
    ensures Kept(a, Apply(a, s, StartBackfill(id, start, end, concurrency)))
  {
    assert RangeKept(a, s, start, end);
    WithKeeps(a, s, id, Filling(start, end, concurrency, FillFrom(s, start, end)));
  }

  lemma StopStepKeeps(a: Archive, s: State, id: nat)
    requires Kept(a, s)
    ensures Kept(a, Apply(a, s, Stop(id)))
  {
    forall start: nat, end: nat ensures RangeKept(a, Apply(a, s, Stop(id)), start, end) {
      assert RangeKept(a, s, start, end);
    }
  }

  lemma StepKeeps(a: Archive, s: State, e: Event)
    requires ValidArchive(a) && Kept(a, s)
    ensures Kept(a, Apply(a, s, e))
  {
    if Enabled(a, s, e) {
      match e
      case Open(id) => IdsKeep(a, s, s.next, s.caches - {id});
      case StartFollow(id, startFlag) =>
        WithKeeps(a, s, id, Following(FollowFrom(s, startFlag), FollowFrom(s, startFlag)));
      case StartBackfill(id, start, end, concurrency) =>
        StartStepKeeps(a, s, id, start, end, concurrency);
      case SaveOne(id) => OneStepKeeps(a, s, id);
      case SaveBatch(id) => BatchStepKeeps(a, s, id);
      case SaveUnseen(id) => CommitKeeps(a, s, id);
      case SetRangeCheckpoint(id) => CheckpointStepKeeps(a, s, id);
      case Fail(id, drawn) => IdsKeep(a, s, drawn, s.caches);
      case Stop(id) => StopStepKeeps(a, s, id);
    }
  }

  lemma {:induction false} RunKeeps(a: Archive, s: State, run: seq<Event>)
    requires ValidArchive(a) && Kept(a, s)
    ensures Kept(a, ExecuteFrom(a, s, run))
  {
    if run == [] {
    } else {
      RunKeeps(a, s, run[..|run| - 1]);
      StepKeeps(a, ExecuteFrom(a, s, run[..|run| - 1]), run[|run| - 1]);
    }
  }

  // ---------- what a reader of the database may rely on ----------

  /**
   In every run, a backfill checkpoint that has reached its range means that the whole
   range up to it is in the table.
   */
  lemma RangeCheckpointIsHonest(a: Archive, run: seq<Event>, start: nat, end: nat)
    requires ValidArchive(a)
    ensures var s := Execute(a, run);
            var c := Checkpoint(s, RangeName(start, end));
            c >= start > 0 ==> c <= end && AllStored(a, s.table, start, c + 1)
  {
    RunKeeps(a, EMPTY, run);
    assert RangeKept(a, Execute(a, run), start, end);
  }

  /** No reachable table has two rows of one ledger with one transaction hash. */
  lemma HistoryKeysAreDistinct(a: Archive, run: seq<Event>, k: Key, m: Key)
    requires ValidArchive(a) && OneCloseTime(a)
    ensures var t := Execute(a, run).table;
            k in t && m in t && t[k].ledger == t[m].ledger && t[k].hash == t[m].hash ==> k == m
  {
    RunKeeps(a, EMPTY, run);
    var t := Execute(a, run).table;
    if k in t && m in t && t[k].ledger == t[m].ledger && t[k].hash == t[m].hash {
      assert Published(a, t, k) && Published(a, t, m);
      var l := t[k].ledger;
      var i :| 0 <= i < |a[l]| && a[l][i] == t[k];
      var j :| 0 <= j < |a[l]| && a[l][j] == t[m];
      assert a[l][i].closedAt == a[l][j].closedAt;
    }
  }
}
