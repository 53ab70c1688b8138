/** Which backfills can ever say that their range is complete, whatever luck they have. */
module BackfillEnds {
  import opened Extract
  import opened Dictionary
  import opened Ids
  import opened SavedRows
  import opened Ingest
  import opened Indexer
  import S = Store

  /** Some luck brings the backfill to the end of its range. */
  ghost predicate CanComplete(a: Archive, s: State, start: UInt32, end: UInt32, concurrency: nat) {
    exists weather :: Completes(a, s, start, end, concurrency, weather)
  }

  ghost predicate Completes(a: Archive, s: State, start: UInt32, end: UInt32, concurrency: nat, weather: seq<Luck>) {
    OutcomeOf(s, start, end, Filled(a, s, start, end, concurrency, weather)) in {AlreadyComplete, Complete}
  }

  /** The first ledger of the last batch, batches counted from here. */
  function LastBatch(from: nat, end: nat, concurrency: nat): (last: nat)
    requires 0 < concurrency && from <= end
    ensures from <= last <= end < last + concurrency
    decreases end - from
  {
    if from + concurrency <= end then LastBatch(from + concurrency, end, concurrency) else from
  }

  /**
   Everything left can be saved, there is an id for every name in it that is not cached,
   the last batch does not wrap, and neither does the ledger after it.
   */
  ghost predicate Finishable(a: Archive, ids: map<Kind, nat>, known: set<Word>, from: UInt32, end: UInt32,
                             concurrency: nat)
    requires 0 < concurrency && from <= end
  {
    && 0 < from
    && (forall l: int :: from <= l <= end ==> Fits(a, l))
    && HasRoom(ids, LedgerWords(a, from, end) - known)
    && LastBatch(from, end, concurrency) + concurrency - 1 < 0x1_0000_0000
    && end + 1 < 0x1_0000_0000
  }

  // ---------- names left and ids left ----------

  /** The ids a process needs from here on, on top of those already issued. */
  ghost function Demand(a: Archive, ids: map<Kind, nat>, known: set<Word>, from: int, end: int, kind: Kind): nat {
    NextIn(ids, kind) + |Only(LedgerWords(a, from, end) - known, kind)|
  }

  lemma WordsSplit(a: Archive, from: int, to: int, end: int)
    requires from <= to <= end
    ensures LedgerWords(a, from, end) == LedgerWords(a, from, to) + LedgerWords(a, to + 1, end)
  {
    forall w | w in LedgerWords(a, from, end) ensures w in LedgerWords(a, from, to) + LedgerWords(a, to + 1, end) {
      var l, i :| l in a && from <= l <= end && 0 <= i < |a[l]| && w in RowWords(a[l][i]);
      assert l <= to || to + 1 <= l;
    }
  }

  lemma Disjointly(all: set<Word>, now: set<Word>, later: set<Word>, known: set<Word>)
    requires all == now + later
    ensures all - known == (now - known) + (later - (known + (now - known)))
    ensures (now - known) !! (later - (known + (now - known)))
  {
  }

  /** A batch that is saved turns names left into ids issued, one for one. */
  lemma BatchKeepsDemand(a: Archive, ids: map<Kind, nat>, known: set<Word>, from: int, to: int, end: int, kind: Kind)
    requires from <= to <= end
    ensures var names := LedgerWords(a, from, to) - known;
            Demand(a, DrawAll(ids, names), known + names, to + 1, end, kind) == Demand(a, ids, known, from, end, kind)
  {
    var now, later := LedgerWords(a, from, to), LedgerWords(a, to + 1, end);
    WordsSplit(a, from, to, end);
    Disjointly(LedgerWords(a, from, end), now, later, known);
    OnlyMore(now - known, later - (known + (now - known)), kind);
    DrawAllMoves(ids, now - known, kind);
  }

  lemma RoomIsDemand(a: Archive, ids: map<Kind, nat>, known: set<Word>, from: int, end: int)
    ensures HasRoom(ids, LedgerWords(a, from, end) - known) <==>
            forall kind :: Demand(a, ids, known, from, end, kind) <= Last(kind) + 1
  {
    var words := LedgerWords(a, from, end) - known;
    if HasRoom(ids, words) {
      forall kind ensures Demand(a, ids, known, from, end, kind) <= Last(kind) + 1 { assert RoomFor(ids, words, kind); }
    }
    if forall kind :: Demand(a, ids, known, from, end, kind) <= Last(kind) + 1 {
      forall kind ensures RoomFor(ids, words, kind) { assert Demand(a, ids, known, from, end, kind) <= Last(kind) + 1; }
    }
  }

  // ---------- one turn ----------

  ghost predicate Going(s: State, start: UInt32, end: UInt32, concurrency: nat, next: UInt32) {
    0 in s.processes && s.processes[0] == Filling(start, end, concurrency, next)
  }

  /** A batch saved and recorded. */
  ghost predicate Advanced(a: Archive, s: State, s': State, start: UInt32, end: UInt32, concurrency: nat,
                           next: UInt32)
  {
    var to := BatchEnd(next, end, concurrency);
    var names := LedgerWords(a, next, to) - Known(s, 0);
    && Going(s', start, end, concurrency, Add32(to, 1))
    && s'.next == DrawAll(s.next, names) && Known(s', 0) == Known(s, 0) + names
  }

  /** A turn that did not get through: ids may be gone, nothing else the process goes by has changed. */
  ghost predicate StoodStill(s: State, s': State, start: UInt32, end: UInt32, concurrency: nat, next: UInt32) {
    Going(s', start, end, concurrency, next) && Advances(s.next, s'.next) && Known(s', 0) == Known(s, 0)
  }

  lemma BatchNames(a: Archive, next: UInt32, end: UInt32, concurrency: nat, ids: map<Kind, nat>, known: set<Word>)
    requires ValidArchive(a) && Plausible(next, end, concurrency)
    requires CanCommit(a, Asked(next, Count(next, BatchEnd(next, end, concurrency))), ids, known)
    ensures var to := BatchEnd(next, end, concurrency);
            && next <= to <= end
            && WordsOf(Fetched(a, Asked(next, Count(next, to)))) == LedgerWords(a, next, to)
  {
    BatchCanCommitExactly(a, next, end, concurrency, ids, known);
    BatchIsARange(next, end, concurrency);
    BatchWords(a, next, BatchEnd(next, end, concurrency), Asked(next, Count(next, BatchEnd(next, end, concurrency))));
  }

  lemma TurnSaves(a: Archive, s: State, p: Process, luck: Luck)
    requires Saving(s, 0) && s.processes[0] == p && p.Filling? && Succeeds(a, s, Wanted(p), luck)
    ensures var t := Turn(a, s, luck);
            var missing := WordsOf(Fetched(a, Wanted(p))) - Known(s, 0);
            && 0 in t.processes && t.processes[0] == Saved(p.first, p.end, p.concurrency, UpTo(p))
            && t.next == DrawAll(s.next, missing) && Known(t, 0) == Known(s, 0) + missing
  {
    var rows := Fetched(a, Wanted(p));
    SeenCommit(s, UpTo(p), rows, luck.fate);
  }

  lemma SeenCommit(s: State, ledger: UInt32, rows: seq<Invocation>, fate: S.Fate)
    requires S.Goes(s.next, WordsOf(rows) - Known(s, 0), rows, fate) && !fate.Unseen?
    ensures var t, missing := SavedAs(s, ledger, rows, fate), WordsOf(rows) - Known(s, 0);
            && t.processes == s.processes && t.next == DrawAll(s.next, missing)
            && Known(t, 0) == Known(s, 0) + missing
  {
  }

  lemma CommitsCanCommit(a: Archive, s: State, asked: seq<UInt32>, luck: Luck)
    requires Commits(a, s, asked, luck)
    ensures CanCommit(a, asked, s.next, Known(s, 0))
  {
  }

  lemma RecordedTurn(t: State, start: UInt32, end: UInt32, concurrency: nat, to: UInt32, record: Record)
    requires 0 in t.processes && t.processes[0] == Saved(start, end, concurrency, to)
    ensures var s := Recorded(t, record);
            && s.next == t.next && Known(s, 0) == Known(t, 0)
            && if record.Written? then Going(s, start, end, concurrency, Add32(to, 1)) else 0 !in s.processes
  {
  }

  /** What a seen commit does, whatever is recorded of it. */
  lemma SavedTurn(a: Archive, s: State, start: UInt32, end: UInt32, concurrency: nat, next: UInt32, luck: Luck)
    requires ValidArchive(a) && Going(s, start, end, concurrency, next) && Plausible(next, end, concurrency)
    requires Succeeds(a, s, Wanted(s.processes[0]), luck)
    ensures CanCommit(a, Wanted(s.processes[0]), s.next, Known(s, 0))
    ensures luck.record.Written? ==> Advanced(a, s, FillTurn(a, s, luck), start, end, concurrency, next)
    ensures !luck.record.Written? ==> 0 !in FillTurn(a, s, luck).processes
  {
    TurnSaves(a, s, s.processes[0], luck);
    CommitsCanCommit(a, s, Wanted(s.processes[0]), luck);
    BatchNames(a, next, end, concurrency, s.next, Known(s, 0));
    RecordedTurn(Turn(a, s, luck), start, end, concurrency, BatchEnd(next, end, concurrency), luck.record);
  }

  lemma FailedTurn(a: Archive, s: State, start: UInt32, end: UInt32, concurrency: nat, next: UInt32, luck: Luck)
    requires Going(s, start, end, concurrency, next) && Plausible(next, end, concurrency) && Counting(s.next)
    requires !Succeeds(a, s, Wanted(s.processes[0]), luck)
    ensures StoodStill(s, FillTurn(a, s, luck), start, end, concurrency, next)
  {
    if AllFetched(a, Wanted(s.processes[0]), luck) {
      var rows := Fetched(a, Wanted(s.processes[0]));
      var missing := WordsOf(rows) - Known(s, 0);
      if S.Goes(s.next, missing, rows, luck.fate) {
        DrawAllAdvances(s.next, missing);
      } else {
        DrawKindsAdvance(s.next, missing, IN_ORDER[..S.Sent(luck.fate)]);
      }
    }
  }

  /** What a turn can do to a backfill that is not done. */
  lemma AnyTurn(a: Archive, s: State, start: UInt32, end: UInt32, concurrency: nat, next: UInt32, luck: Luck)
    requires ValidArchive(a) && Going(s, start, end, concurrency, next) && Plausible(next, end, concurrency)
    requires Counting(s.next)
    ensures var to, s' := BatchEnd(next, end, concurrency), FillTurn(a, s, luck);
            || StoodStill(s, s', start, end, concurrency, next)
            || 0 !in s'.processes
            || (&& 0 < next <= to <= end && next + concurrency - 1 < 0x1_0000_0000
                && (forall l: int :: next <= l <= to ==> Fits(a, l))
                && HasRoom(s.next, LedgerWords(a, next, to) - Known(s, 0))
                && Advanced(a, s, s', start, end, concurrency, next))
  {
    if Succeeds(a, s, Wanted(s.processes[0]), luck) {
      SavedTurn(a, s, start, end, concurrency, next, luck);
      BatchCanCommitExactly(a, next, end, concurrency, s.next, Known(s, 0));
      BatchIsARange(next, end, concurrency);
    } else {
      FailedTurn(a, s, start, end, concurrency, next, luck);
    }
  }

  // ---------- enough luck brings it to the end ----------

  /** Luck under which nothing but the archive, the table and the sequences can stop a batch. */
  function Good(count: nat): Luck {
    Luck(seq(count, _ => true), S.Through, Written)
  }

  lemma FinishableBatch(a: Archive, ids: map<Kind, nat>, known: set<Word>, next: UInt32, end: UInt32, concurrency: nat)
    requires ValidArchive(a) && Plausible(next, end, concurrency) && Finishable(a, ids, known, next, end, concurrency)
    ensures next <= BatchEnd(next, end, concurrency) <= end
    ensures Add32(BatchEnd(next, end, concurrency), 1) == BatchEnd(next, end, concurrency) + 1
    ensures CanCommit(a, Asked(next, Count(next, BatchEnd(next, end, concurrency))), ids, known)
  {
    var to := BatchEnd(next, end, concurrency);
    BatchIsARange(next, end, concurrency);
    WordsSplit(a, next, to, end);
    LessRoomNeeded(ids, LedgerWords(a, next, end) - known, LedgerWords(a, next, to) - known);
    BatchCanCommitExactly(a, next, end, concurrency, ids, known);
  }

  lemma GoodTurn(a: Archive, s: State, start: UInt32, end: UInt32, concurrency: nat, next: UInt32) returns (luck: Luck)
    requires ValidArchive(a) && Going(s, start, end, concurrency, next) && Plausible(next, end, concurrency)
    requires Finishable(a, s.next, Known(s, 0), next, end, concurrency)
    ensures next <= BatchEnd(next, end, concurrency) <= end
    ensures Add32(BatchEnd(next, end, concurrency), 1) == BatchEnd(next, end, concurrency) + 1
    ensures Advanced(a, s, FillTurn(a, s, luck), start, end, concurrency, next)
  {
    FinishableBatch(a, s.next, Known(s, 0), next, end, concurrency);
    luck := Good(Count(next, BatchEnd(next, end, concurrency)));
    assert Succeeds(a, s, Wanted(s.processes[0]), luck);
    SavedTurn(a, s, start, end, concurrency, next, luck);
  }

  lemma FinishableFurther(a: Archive, ids: map<Kind, nat>, known: set<Word>, from: UInt32, end: UInt32,
                          concurrency: nat)
    requires Plausible(from, end, concurrency) && Finishable(a, ids, known, from, end, concurrency)
    ensures var to := BatchEnd(from, end, concurrency);
            var names := LedgerWords(a, from, to) - known;
            && from <= to <= end
            && (to == end || Finishable(a, DrawAll(ids, names), known + names, to + 1, end, concurrency))
  {
    var to := BatchEnd(from, end, concurrency);
    assert from <= to <= end;
    if to < end {
      RoomForTheRest(a, ids, known, from, to, end);
    }
  }

  lemma RoomForTheRest(a: Archive, ids: map<Kind, nat>, known: set<Word>, from: int, to: int, end: int)
    requires from <= to <= end && HasRoom(ids, LedgerWords(a, from, end) - known)
    ensures var names := LedgerWords(a, from, to) - known;
            HasRoom(DrawAll(ids, names), LedgerWords(a, to + 1, end) - (known + names))
  {
    var names := LedgerWords(a, from, to) - known;
    RoomIsDemand(a, ids, known, from, end);
    forall kind ensures Demand(a, DrawAll(ids, names), known + names, to + 1, end, kind) <= Last(kind) + 1 {
      BatchKeepsDemand(a, ids, known, from, to, end, kind);
      assert Demand(a, ids, known, from, end, kind) <= Last(kind) + 1;
    }
    RoomIsDemand(a, DrawAll(ids, names), known + names, to + 1, end);
  }

  lemma OneTurnMore(a: Archive, s: State, weather: seq<Luck>, luck: Luck)
    ensures FillTurns(a, s, weather + [luck]) == FillTurn(a, FillTurns(a, s, weather), luck)
  {
    assert (weather + [luck])[..|weather|] == weather;
  }

  /** A backfill that has got to its end, or to where it can still be finished. */
  ghost predicate Hopeful(a: Archive, s: State, start: UInt32, end: UInt32, concurrency: nat, next: UInt32)
    requires 0 < concurrency
  {
    && Going(s, start, end, concurrency, next)
    && (next > end || Finishable(a, s.next, Known(s, 0), next, end, concurrency))
  }

  /** With good luck a turn takes the backfill on, to its end or to where it can still be finished. */
  lemma FirstGoodTurn(a: Archive, s: State, start: UInt32, end: UInt32, concurrency: nat, next: UInt32)
      returns (luck: Luck, further: UInt32)
    requires ValidArchive(a) && Plausible(next, end, concurrency) && Hopeful(a, s, start, end, concurrency, next)
    ensures next < further && Hopeful(a, FillTurn(a, s, luck), start, end, concurrency, further)
  {
    luck := GoodTurn(a, s, start, end, concurrency, next);
    further := BatchEnd(next, end, concurrency) + 1;
    FinishableFurther(a, s.next, Known(s, 0), next, end, concurrency);
  }

  /** More of it, after some weather that has brought the backfill this far. */
  lemma {:induction false} GoodWeather(a: Archive, s: State, before: seq<Luck>, start: UInt32, end: UInt32,
                                       concurrency: nat, next: UInt32)
      returns (weather: seq<Luck>, last: UInt32)
    requires ValidArchive(a) && 1 <= concurrency <= MAX_CONCURRENCY
    requires Hopeful(a, FillTurns(a, s, before), start, end, concurrency, next)
    ensures Going(FillTurns(a, s, weather), start, end, concurrency, last) && last > end
    decreases end + 1 - next
  {
    weather, last := before, next;
    if next > end {
    } else {
      var longer, further := GoodWeatherOn(a, s, before, start, end, concurrency, next);
      weather, last := GoodWeather(a, s, longer, start, end, concurrency, further);
    }
  }

  lemma GoodWeatherOn(a: Archive, s: State, before: seq<Luck>, start: UInt32, end: UInt32, concurrency: nat,
                      next: UInt32)
      returns (weather: seq<Luck>, further: UInt32)
    requires ValidArchive(a) && 1 <= concurrency <= MAX_CONCURRENCY && next <= end
    requires Hopeful(a, FillTurns(a, s, before), start, end, concurrency, next)
    ensures next < further && Hopeful(a, FillTurns(a, s, weather), start, end, concurrency, further)
  {
    var luck;
    luck, further := FirstGoodTurn(a, FillTurns(a, s, before), start, end, concurrency, next);
    OneTurnMore(a, s, before, luck);
    weather := before + [luck];
  }

  // ---------- only a range that can be finished is ----------

  /** What a backfill began with. */
  datatype Origin = Origin(ids: map<Kind, nat>, known: set<Word>, from: UInt32)

  /** Demand never falls. */
  ghost predicate NoLessDemand(a: Archive, o: Origin, ids: map<Kind, nat>, known: set<Word>, next: int, end: int) {
    forall kind :: Demand(a, o.ids, o.known, o.from, end, kind) <= Demand(a, ids, known, next, end, kind)
  }

  /** Where a backfill that began so can have got to; past the end only if it could finish. */
  ghost predicate Reachable(a: Archive, o: Origin, end: UInt32, concurrency: nat, ids: map<Kind, nat>,
                            known: set<Word>, next: UInt32)
    requires 0 < concurrency && o.from <= end
  {
    || next == 0
    || (next > end && Finishable(a, o.ids, o.known, o.from, end, concurrency))
    || (&& 0 < o.from <= next <= end
        && (forall l: int :: o.from <= l < next ==> Fits(a, l))
        && LastBatch(o.from, end, concurrency) == LastBatch(next, end, concurrency)
        && NoLessDemand(a, o, ids, known, next, end))
  }

  lemma NextBatch(next: UInt32, end: UInt32, concurrency: nat)
    requires Plausible(next, end, concurrency) && next + concurrency - 1 < 0x1_0000_0000
    ensures next + concurrency > end ==> BatchEnd(next, end, concurrency) == end
    ensures next + concurrency <= end ==>
              && BatchEnd(next, end, concurrency) == next + concurrency - 1
              && Add32(BatchEnd(next, end, concurrency), 1) == next + concurrency
  {
  }

  lemma WaitingKeepsDemand(a: Archive, o: Origin, ids: map<Kind, nat>, ids': map<Kind, nat>, known: set<Word>,
                           next: int, end: int)
    requires NoLessDemand(a, o, ids, known, next, end) && Advances(ids, ids')
    ensures NoLessDemand(a, o, ids', known, next, end)
  {
    forall kind ensures Demand(a, o.ids, o.known, o.from, end, kind) <= Demand(a, ids', known, next, end, kind) {
      assert NextIn(ids, kind) <= NextIn(ids', kind);
      assert Demand(a, o.ids, o.known, o.from, end, kind) <= Demand(a, ids, known, next, end, kind);
    }
  }

  lemma SavingKeepsDemand(a: Archive, o: Origin, ids: map<Kind, nat>, known: set<Word>, next: int, to: int, end: int)
    requires NoLessDemand(a, o, ids, known, next, end) && next <= to <= end
    ensures var names := LedgerWords(a, next, to) - known;
            NoLessDemand(a, o, DrawAll(ids, names), known + names, to + 1, end)
  {
    var names := LedgerWords(a, next, to) - known;
    forall kind
      ensures Demand(a, o.ids, o.known, o.from, end, kind)
           <= Demand(a, DrawAll(ids, names), known + names, to + 1, end, kind)
    {
      BatchKeepsDemand(a, ids, known, next, to, end, kind);
      assert Demand(a, o.ids, o.known, o.from, end, kind) <= Demand(a, ids, known, next, end, kind);
    }
  }

  /** The last batch takes what is left, so all of it could be saved. */
  lemma LastOneReaches(a: Archive, o: Origin, end: UInt32, concurrency: nat, ids: map<Kind, nat>, known: set<Word>,
                       next: UInt32)
    requires 0 < concurrency && 0 < next <= end < next + concurrency && next + concurrency - 1 < 0x1_0000_0000
    requires o.from <= end && Reachable(a, o, end, concurrency, ids, known, next)
    requires (forall l: int :: next <= l <= end ==> Fits(a, l)) && HasRoom(ids, LedgerWords(a, next, end) - known)
    ensures var names := LedgerWords(a, next, end) - known;
            Reachable(a, o, end, concurrency, DrawAll(ids, names), known + names, Add32(end, 1))
  {
    if end + 1 < 0x1_0000_0000 { LastOneFinishes(a, o, end, concurrency, ids, known, next); }
  }

  lemma LastOneFinishes(a: Archive, o: Origin, end: UInt32, concurrency: nat, ids: map<Kind, nat>, known: set<Word>,
                        next: UInt32)
    requires 0 < concurrency && 0 < next <= end < next + concurrency && next + concurrency - 1 < 0x1_0000_0000
    requires o.from <= end && end + 1 < 0x1_0000_0000 && Reachable(a, o, end, concurrency, ids, known, next)
    requires (forall l: int :: next <= l <= end ==> Fits(a, l)) && HasRoom(ids, LedgerWords(a, next, end) - known)
    ensures Finishable(a, o.ids, o.known, o.from, end, concurrency)
  {
    assert LastBatch(next, end, concurrency) == next;
    RoomIsDemand(a, ids, known, next, end);
    RoomIsDemand(a, o.ids, o.known, o.from, end);
    forall kind ensures Demand(a, o.ids, o.known, o.from, end, kind) <= Last(kind) + 1 {
      assert Demand(a, o.ids, o.known, o.from, end, kind) <= Demand(a, ids, known, next, end, kind);
    }
  }

  lemma ReachesNext(a: Archive, o: Origin, end: UInt32, concurrency: nat, ids: map<Kind, nat>, known: set<Word>,
                    next: UInt32)
    requires Plausible(next, end, concurrency) && 0 < next && next + concurrency - 1 < 0x1_0000_0000
    requires o.from <= end && Reachable(a, o, end, concurrency, ids, known, next)
    requires forall l: int :: next <= l <= BatchEnd(next, end, concurrency) ==> Fits(a, l)
    requires HasRoom(ids, LedgerWords(a, next, BatchEnd(next, end, concurrency)) - known)
    ensures var to := BatchEnd(next, end, concurrency);
            var names := LedgerWords(a, next, to) - known;
            Reachable(a, o, end, concurrency, DrawAll(ids, names), known + names, Add32(to, 1))
  {
    NextBatch(next, end, concurrency);
    if next + concurrency > end {
      LastOneReaches(a, o, end, concurrency, ids, known, next);
    } else {
      FullOneReaches(a, o, end, concurrency, ids, known, next, BatchEnd(next, end, concurrency));
    }
  }

  lemma FullOneReaches(a: Archive, o: Origin, end: UInt32, concurrency: nat, ids: map<Kind, nat>, known: set<Word>,
                       next: UInt32, to: UInt32)
    requires 0 < concurrency && 0 < next && to == next + concurrency - 1 && to < end
    requires o.from <= end && Reachable(a, o, end, concurrency, ids, known, next)
    requires forall l: int :: next <= l <= to ==> Fits(a, l)
    ensures var names := LedgerWords(a, next, to) - known;
            Reachable(a, o, end, concurrency, DrawAll(ids, names), known + names, Add32(to, 1))
  {
    SavingKeepsDemand(a, o, ids, known, next, to, end);
    assert LastBatch(next, end, concurrency) == LastBatch(to + 1, end, concurrency);
  }

  /** A backfill in progress is where one that began so can have got to. */
  ghost predicate OnItsWay(a: Archive, s: State, o: Origin, start: UInt32, end: UInt32, concurrency: nat)
    requires 0 < concurrency && o.from <= end
  {
    Counting(s.next) &&
    exists next ::
      Going(s, start, end, concurrency, next) && Reachable(a, o, end, concurrency, s.next, Known(s, 0), next)
  }

  lemma AdvancesKeepCounting(ids: map<Kind, nat>, ids': map<Kind, nat>)
    requires Counting(ids) && Advances(ids, ids')
    ensures Counting(ids')
  {
    forall k
      ensures 1 <= NextIn(ids', k) <= Last(k) + 1
    {
      assert 1 <= NextIn(ids, k) <= NextIn(ids', k) <= Last(k) + 1;
    }
  }

  lemma TurnStaysReachable(a: Archive, s: State, o: Origin, start: UInt32, end: UInt32, concurrency: nat,
                           next: UInt32, luck: Luck)
    requires ValidArchive(a) && Going(s, start, end, concurrency, next) && 1 <= concurrency <= MAX_CONCURRENCY
    requires o.from <= end && Counting(s.next) && Reachable(a, o, end, concurrency, s.next, Known(s, 0), next)
    ensures var s' := FillTurn(a, s, luck); 0 !in s'.processes || OnItsWay(a, s', o, start, end, concurrency)
  {
    var s' := FillTurn(a, s, luck);
    if next > end {
      assert s' == s;
    } else {
      AnyTurn(a, s, start, end, concurrency, next, luck);
      if StoodStill(s, s', start, end, concurrency, next) {
        AdvancesKeepCounting(s.next, s'.next);
        if 0 < o.from <= next && NoLessDemand(a, o, s.next, Known(s, 0), next, end) {
          WaitingKeepsDemand(a, o, s.next, s'.next, Known(s, 0), next, end);
        }
        assert Reachable(a, o, end, concurrency, s'.next, Known(s', 0), next);
      } else if 0 in s'.processes {
        var to := BatchEnd(next, end, concurrency);
        RoomKeepsCounting(s.next, LedgerWords(a, next, to) - Known(s, 0));
        ReachesNext(a, o, end, concurrency, s.next, Known(s, 0), next);
        assert Going(s', start, end, concurrency, Add32(to, 1));
      }
    }
  }

  lemma {:induction false} StaysReachable(a: Archive, s: State, o: Origin, start: UInt32, end: UInt32,
                                          concurrency: nat, weather: seq<Luck>)
    requires ValidArchive(a) && 1 <= concurrency <= MAX_CONCURRENCY && o.from <= end
    requires OnItsWay(a, s, o, start, end, concurrency)
    ensures var s' := FillTurns(a, s, weather); 0 !in s'.processes || OnItsWay(a, s', o, start, end, concurrency)
  {
    if weather == [] {
    } else {
      var init := weather[..|weather| - 1];
      StaysReachable(a, s, o, start, end, concurrency, init);
      var t := FillTurns(a, s, init);
      if 0 in t.processes {
        var next :|
          Going(t, start, end, concurrency, next) && Reachable(a, o, end, concurrency, t.next, Known(t, 0), next);
        TurnStaysReachable(a, t, o, start, end, concurrency, next, weather[|weather| - 1]);
      }
    }
  }

  lemma StartsOnItsWay(a: Archive, s: State, start: UInt32, end: UInt32, concurrency: nat)
    requires 0 < start <= end && 1 <= concurrency <= MAX_CONCURRENCY && FillFrom(s, start, end) <= end
    requires 0 !in s.processes && Counting(s.next)
    ensures var s1 := Apply(a, s, StartBackfill(0, start, end, concurrency));
            && Going(s1, start, end, concurrency, FillFrom(s, start, end))
            && s1.next == s.next && Known(s1, 0) == Known(s, 0)
            && OnItsWay(a, s1, Origin(s.next, Known(s, 0), FillFrom(s, start, end)), start, end, concurrency)
  {
    var from := FillFrom(s, start, end);
    var o := Origin(s.next, Known(s, 0), from);
    var s1 := With(s, 0, Filling(start, end, concurrency, from));
    assert Apply(a, s, StartBackfill(0, start, end, concurrency)) == s1;
    assert Reachable(a, o, end, concurrency, s1.next, Known(s1, 0), from);
    assert Going(s1, start, end, concurrency, from);
  }

  /** A run of turns that ends past the range ends a backfill that could finish. */
  lemma OnlyFinishableFinishes(a: Archive, s: State, o: Origin, start: UInt32, end: UInt32, concurrency: nat)
    requires 1 <= concurrency && o.from <= end && OnItsWay(a, s, o, start, end, concurrency) && !Unfinished(s)
    ensures Finishable(a, o.ids, o.known, o.from, end, concurrency)
  {
  }

  /**
   A backfill can complete exactly when it already has, or when it resumes at a real ledger
   and everything left is published, fits its columns, has an id for every name the process
   has not cached, and fits 32 bits with one to spare, the last batch at its full size
   included. Otherwise it loses nothing but never ends.
   */
  lemma BackfillCanCompleteExactly(a: Archive, s: State, start: UInt32, end: UInt32, concurrency: nat)
    requires ValidArchive(a) && 0 < start <= end && 1 <= concurrency <= MAX_CONCURRENCY
    requires 0 !in s.processes && Counting(s.next)
    ensures var done := CheckpointOf(s.checkpoints, RangeName(start, end));
            var from := if start <= done then (done + 1) % 0x1_0000_0000 else start;
            CanComplete(a, s, start, end, concurrency) <==>
            from > end || Finishable(a, s.next, Known(s, 0), from, end, concurrency)
  {
    var from := FillFrom(s, start, end);
    if from > end {
      assert Completes(a, s, start, end, concurrency, []);
    } else {
      StartsOnItsWay(a, s, start, end, concurrency);
      if Finishable(a, s.next, Known(s, 0), from, end, concurrency) {
        CompletesWithLuck(a, s, start, end, concurrency);
      }
      if weather :| Completes(a, s, start, end, concurrency, weather) {
        CompletesOnlyFinishable(a, s, start, end, concurrency, weather);
      }
    }
  }

  lemma CompletesWithLuck(a: Archive, s: State, start: UInt32, end: UInt32, concurrency: nat)
    requires ValidArchive(a) && 0 < start <= end && 1 <= concurrency <= MAX_CONCURRENCY
    requires FillFrom(s, start, end) <= end
    requires 0 !in s.processes && Counting(s.next)
    requires Finishable(a, s.next, Known(s, 0), FillFrom(s, start, end), end, concurrency)
    ensures CanComplete(a, s, start, end, concurrency)
  {
    StartsOnItsWay(a, s, start, end, concurrency);
    var s1 := Apply(a, s, StartBackfill(0, start, end, concurrency));
    assert FillTurns(a, s1, []) == s1;
    var weather, last := GoodWeather(a, s1, [], start, end, concurrency, FillFrom(s, start, end));
    assert Completes(a, s, start, end, concurrency, weather);
  }

  lemma CompletesOnlyFinishable(a: Archive, s: State, start: UInt32, end: UInt32, concurrency: nat, weather: seq<Luck>)
    requires ValidArchive(a) && 0 < start <= end && 1 <= concurrency <= MAX_CONCURRENCY
    requires FillFrom(s, start, end) <= end
    requires 0 !in s.processes && Counting(s.next)
    requires Completes(a, s, start, end, concurrency, weather)
    ensures Finishable(a, s.next, Known(s, 0), FillFrom(s, start, end), end, concurrency)
  {
    var o := Origin(s.next, Known(s, 0), FillFrom(s, start, end));
    var s1 := Apply(a, s, StartBackfill(0, start, end, concurrency));
    StartsOnItsWay(a, s, start, end, concurrency);
    StaysReachable(a, s1, o, start, end, concurrency, weather);
    OnlyFinishableFinishes(a, FillTurns(a, s1, weather), o, start, end, concurrency);
  }
}
