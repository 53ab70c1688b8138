/**
 The paged reader of the index store: two plans for the next page of a contract's
 history, each proved against the single descending list of the rows still owed.
 A query is its meaning: a filter over the set of rows, then order, then limit.
 */
module Paging {
  import opened Wrappers
  import opened Bytes
  import opened Rows
  import opened Sequences

  const MAX_INT64 := 0x7FFF_FFFF_FFFF_FFFF
  const SCAN_WINDOW_LEDGERS := 30000
  const SCAN_WINDOWS_PER_PAGE := 4

  /** Ledgers one page of the window plan may cover: all its windows. */
  const SCAN_BUDGET := 120000

  datatype Cursor = Cursor(ledger: int, hash: Hash)

  /** A negative function id keeps every function; a zero time leaves that side open. */
  datatype Filter = Filter(contract: int, function_: int, from: int, to: int)

  /** ContinueLedger is zero when the page does not hand the scan on. */
  datatype Page = Page(transactions: seq<Row>, continueLedger: int)

  predicate InTime(f: Filter, r: Row) {
    (f.from == 0 || r.closedAt >= f.from) && (f.to == 0 || r.closedAt <= f.to)
  }

  predicate Matches(f: Filter, r: Row) {
    r.contract == f.contract && (f.function_ < 0 || r.function_ == f.function_) && InTime(f, r)
  }

  // ---------- what a page is a page of ----------

  /** The part of the list a page boundary leaves to be served. */
  datatype Bound = Unbounded | BelowLedger(ledger: int) | BelowRow(ledger: int, hash: Hash)

  predicate Under(b: Bound, r: Row) {
    match b
    case Unbounded => true
    case BelowLedger(l) => r.ledger < l
    case BelowRow(l, h) => r.ledger < l || (r.ledger == l && LexLess(r.hash, h))
  }

  function Remaining(rows: set<Row>, f: Filter, b: Bound): set<Row> {
    set r | r in rows && Matches(f, r) && Under(b, r)
  }

  function BoundOf(before: Option<Cursor>, continueScan: bool): Bound {
    match before
    case None => Unbounded
    case Some(c) => if continueScan then BelowLedger(c.ledger) else BelowRow(c.ledger, c.hash)
  }

  lemma ValidTableHasDistinctKeys(rows: set<Row>)
    requires ValidTable(rows)
    ensures DistinctKeys(rows)
  {
  }

  // ---------- the ledger-set plan ----------

  /** Rows in the same ledger as the cursor, with a smaller hash. */
  function RestOfLedger(rows: set<Row>, f: Filter, c: Cursor): set<Row> {
    set r | r in rows && Matches(f, r) && r.ledger == c.ledger && LexLess(r.hash, c.hash)
  }

  function InLedgers(rows: set<Row>, f: Filter, ledgers: seq<int>): set<Row> {
    set r | r in rows && Matches(f, r) && r.ledger in ledgers
  }

  function LedgersOf(rows: set<Row>): set<int> {
    set r | r in rows :: r.ledger
  }

  /** SELECT DISTINCT ledger ... ORDER BY ledger DESC LIMIT max. */
  ghost predicate NewestLedgers(ledgers: seq<int>, rows: set<Row>, max: nat) {
    && (forall i, j :: 0 <= i < j < |ledgers| ==> ledgers[i] > ledgers[j])
    && (forall l :: l in ledgers ==> l in LedgersOf(rows))
    && |ledgers| <= max
    && (|ledgers| < max ==> forall r :: r in rows ==> r.ledger in ledgers)
    && (forall r, l :: r in rows && r.ledger !in ledgers && l in ledgers ==> l > r.ledger)
  }

  method RecentLedgers(rows: set<Row>, f: Filter, below: int, max: nat) returns (ledgers: seq<int>)
    requires DistinctKeys(rows)
    ensures NewestLedgers(ledgers, Remaining(rows, f, BelowLedger(below)), max)
  {
    ledgers := [];
    var matching := Remaining(rows, f, BelowLedger(below));
    var rest := matching;
    while rest != {} && |ledgers| < max
      invariant |ledgers| <= max
      invariant rest == set r | r in matching && r.ledger !in ledgers
      invariant NewestLedgers(ledgers, matching, |ledgers|)
      decreases rest
    {
      var m := Newest(rest);
      assert m in rest && m in matching && m.ledger !in ledgers;
      assert forall i :: 0 <= i < |ledgers| ==> ledgers[i] in ledgers;
      forall r | r in matching && r.ledger !in ledgers && r.ledger != m.ledger ensures m.ledger > r.ledger {
        assert r in rest;
      }
      ghost var previous := ledgers;
      ledgers := ledgers + [m.ledger];
      assert forall l :: l in ledgers <==> l in previous || l == m.ledger;
      rest := set r | r in rest && r.ledger != m.ledger;
    }
    forall r | r in matching && r.ledger !in ledgers ensures |ledgers| == max {
      assert r in rest;
    }
  }

  lemma {:induction false} OneRowPerLedger(ledgers: seq<int>, rows: set<Row>)
    requires forall i, j :: 0 <= i < j < |ledgers| ==> ledgers[i] > ledgers[j]
    requires forall l :: l in ledgers ==> l in LedgersOf(rows)
    ensures |ledgers| <= |rows|
  {
    if ledgers == [] {
    } else {
      assert ledgers[0] in ledgers;
      var r :| r in rows && r.ledger == ledgers[0];
      var rest := rows - {r};
      forall l | l in ledgers[1..] ensures l in LedgersOf(rest) {
        assert l in ledgers;
        var q :| q in rows && q.ledger == l;
        assert q in rest;
      }
      OneRowPerLedger(ledgers[1..], rest);
    }
  }

  /** The newest max ledgers, taken whole, begin with the newest max rows. */
  lemma WholeLedgersHoldThePage(rows: set<Row>, f: Filter, below: int, ledgers: seq<int>, max: nat)
    requires ValidTable(rows)
    requires NewestLedgers(ledgers, Remaining(rows, f, BelowLedger(below)), max)
    ensures DistinctKeys(InLedgers(rows, f, ledgers)) && DistinctKeys(Remaining(rows, f, BelowLedger(below)))
    ensures Take(Listing(InLedgers(rows, f, ledgers)), max) ==
        Take(Listing(Remaining(rows, f, BelowLedger(below))), max)
    ensures ledgers == [] ==> InLedgers(rows, f, ledgers) == {}
  {
    var chosen := InLedgers(rows, f, ledgers);
    var owed := Remaining(rows, f, BelowLedger(below));
    var older := owed - chosen;
    assert chosen <= owed by {
      forall l | l in ledgers ensures l < below { assert l in LedgersOf(owed); }
    }
    assert chosen + older == owed;
    ListingConcat(chosen, older);
    if |ledgers| < max {
      assert older == {};
    } else {
      forall l | l in ledgers ensures l in LedgersOf(chosen) {
        var r :| r in owed && r.ledger == l;
        assert r in chosen;
      }
      OneRowPerLedger(ledgers, chosen);
      ListingSize(chosen);
      TakeConcat(Listing(chosen), Listing(older), max);
    }
  }

  /** The list under a row cursor: first what is left of its ledger, then the ledgers below. */
  lemma OwedSplits(rows: set<Row>, f: Filter, before: Option<Cursor>)
    requires ValidTable(rows)
    ensures var own := if before.Some? then RestOfLedger(rows, f, before.value) else {};
      var below := Remaining(rows, f, BelowLedger(if before.Some? then before.value.ledger else MAX_INT64));
      && DistinctKeys(own) && DistinctKeys(below) && DistinctKeys(Remaining(rows, f, BoundOf(before, false)))
      && Listing(Remaining(rows, f, BoundOf(before, false))) == Listing(own) + Listing(below)
  {
    var own := if before.Some? then RestOfLedger(rows, f, before.value) else {};
    var below := Remaining(rows, f, BelowLedger(if before.Some? then before.value.ledger else MAX_INT64));
    assert Remaining(rows, f, BoundOf(before, false)) == own + below;
    ListingConcat(own, below);
  }

  /** Adds the newest rows below a ledger to a page with room for so many more. */
  method FillFromBelow(rows: set<Row>, f: Filter, boundLedger: int, page: seq<Row>, limit: nat) returns (out: seq<Row>)
    requires ValidTable(rows) && |page| < limit
    ensures DistinctKeys(Remaining(rows, f, BelowLedger(boundLedger)))
    ensures out == page + Take(Listing(Remaining(rows, f, BelowLedger(boundLedger))), limit - |page|)
  {
    out := page;
    var ledgers := RecentLedgers(rows, f, boundLedger, limit - |page|);
    WholeLedgersHoldThePage(rows, f, boundLedger, ledgers, limit - |page|);
    if |ledgers| > 0 {
      var whole := Listing(InLedgers(rows, f, ledgers));
      TakeConcat(page, whole, limit);
      out := out + whole;
      if |out| > limit {
        out := out[..limit];
      }
    }
  }

  method PageByLedgers(rows: set<Row>, f: Filter, before: Option<Cursor>, limit: nat) returns (out: seq<Row>)
    requires ValidTable(rows)
    ensures out == Take(Listing(Remaining(rows, f, BoundOf(before, false))), limit)
  {
    OwedSplits(rows, f, before);
    out := [];
    var boundLedger := MAX_INT64;
    ghost var own: seq<Row> := [];
    if before.Some? {
      boundLedger := before.value.ledger;
      own := Listing(RestOfLedger(rows, f, before.value));
      out := Take(Listing(RestOfLedger(rows, f, before.value)), limit);
    }
    TakeConcat(own, Listing(Remaining(rows, f, BelowLedger(boundLedger))), limit);
    if limit - |out| > 0 {
      out := FillFromBelow(rows, f, boundLedger, out, limit);
    }
  }

  // ---------- the window plan ----------

  function Since(rows: set<Row>, contract: int, from: int): set<Row> {
    set r | r in rows && r.contract == contract && (from == 0 || r.closedAt >= from)
  }

  function Until(rows: set<Row>, contract: int, to: int): set<Row> {
    set r | r in rows && r.contract == contract && (to == 0 || r.closedAt <= to)
  }

  /** Zero exactly when nothing matches, which works because no stored ledger is zero. */
  method ScanFloor(rows: set<Row>, contract: int, from: int) returns (floor: int)
    requires ValidTable(rows)
    ensures floor == 0 <==> Since(rows, contract, from) == {}
    ensures forall r :: r in Since(rows, contract, from) ==> floor <= r.ledger
    ensures floor != 0 ==> exists r :: r in Since(rows, contract, from) && r.ledger == floor
  {
    var s := Listing(Since(rows, contract, from));
    ListingSorts(Since(rows, contract, from));
    if s == [] {
      floor := 0;
    } else {
      floor := s[|s| - 1].ledger;
      assert s[|s| - 1] in s;
    }
  }

  method ScanCeiling(rows: set<Row>, contract: int, to: int) returns (ceiling: int)
    requires ValidTable(rows)
    ensures ceiling == 0 <==> Until(rows, contract, to) == {}
    ensures forall r :: r in Until(rows, contract, to) ==> r.ledger <= ceiling
    ensures ceiling != 0 ==> exists r :: r in Until(rows, contract, to) && r.ledger == ceiling
  {
    var s := Listing(Until(rows, contract, to));
    ListingSorts(Until(rows, contract, to));
    if s == [] {
      ceiling := 0;
    } else {
      ceiling := s[0].ledger;
      assert s[0] in s;
    }
  }

  function AtOrAbove(rows: set<Row>, ledger: int): set<Row> {
    set r | r in rows && r.ledger >= ledger
  }

  /** Lowering the scan line from hi to lo appends exactly the window's rows. */
  lemma WindowExtends(owed: set<Row>, lo: int, hi: int, window: set<Row>, out: seq<Row>, limit: nat)
    requires DistinctKeys(owed) && lo <= hi && |out| <= limit
    requires window == set r | r in owed && lo <= r.ledger < hi
    requires out == Take(Listing(AtOrAbove(owed, hi)), limit + 1)
    ensures DistinctKeys(window)
    ensures out + Take(Listing(window), limit + 1 - |out|) == Take(Listing(AtOrAbove(owed, lo)), limit + 1)
  {
    var above := AtOrAbove(owed, hi);
    assert AtOrAbove(owed, lo) == above + window;
    assert DistinctKeys(above) && DistinctKeys(above + window);
    ListingConcat(above, window);
    assert Listing(AtOrAbove(owed, lo)) == out + Listing(window);
    TakeConcat(out, Listing(window), limit + 1);
  }

  /** One above the highest ledger the scan may still have to read. */
  predicate ScanStart(b: Bound, start: int) {
    match b
    case Unbounded => start <= MAX_LEDGER + 1
    case BelowLedger(l) => start == l
    case BelowRow(l, _) => start == l + 1
  }

  /** Where the scan begins: at the cursor, or one above the contract's newest ledger in the time bound. */
  function Begun(rows: set<Row>, contract: int, to: int, b: Bound): int
    requires DistinctKeys(rows)
  {
    match b
    case Unbounded => if Until(rows, contract, to) == {} then 0 else Newest(Until(rows, contract, to)).ledger + 1
    case BelowLedger(l) => l
    case BelowRow(l, _) => l + 1
  }

  /** The contract has a row under a ledger, from the time bound on. */
  ghost predicate ReachesBelow(rows: set<Row>, contract: int, from: int, ledger: int) {
    exists r :: r in Since(rows, contract, from) && r.ledger < ledger
  }

  /** The contract has a row at a ledger or above, up to the time bound. */
  ghost predicate ReachesUpTo(rows: set<Row>, contract: int, to: int, ledger: int) {
    exists r :: r in Until(rows, contract, to) && r.ledger >= ledger
  }

  /**
   What the budgeted downward scan promises. Its rows are the newest rows owed, at most
   one more than asked for. When it stopped on its budget it stopped exactly the whole
   budget below its start, every row owed at or above that ledger is on the page, the
   contract has rows further down, and a scan without a cursor began at its newest row;
   otherwise a page that is not over-full is everything that is owed.
   */
  ghost predicate WindowPage(page: Page, rows: set<Row>, f: Filter, b: Bound, limit: nat)
    requires DistinctKeys(rows)
  {
    var owed := Remaining(rows, f, b);
    && page.transactions == Take(Listing(owed), |page.transactions|)
    && |page.transactions| <= limit + 1
    && (page.continueLedger == 0 && |page.transactions| <= limit ==> page.transactions == Listing(owed))
    && (page.continueLedger != 0 ==>
          && |page.transactions| <= limit
          && page.continueLedger > 0
          && page.transactions == Listing(AtOrAbove(owed, page.continueLedger))
          && ScanStart(b, page.continueLedger + SCAN_BUDGET)
          && ReachesBelow(rows, f.contract, f.from, page.continueLedger)
          && (b.Unbounded? ==> ReachesUpTo(rows, f.contract, f.to, page.continueLedger + SCAN_BUDGET - 1)))
  }

  lemma OwedLiesBetween(rows: set<Row>, f: Filter, b: Bound)
    ensures Remaining(rows, f, b) <= Since(rows, f.contract, f.from) * Until(rows, f.contract, f.to)
  {
  }

  /** The SQL condition of one window selects the rows owed in it, with or without the row bound. */
  lemma SliceIsOwed(rows: set<Row>, f: Filter, before: Option<Cursor>, continueScan: bool, lo: int, hi: int)
    requires continueScan ==> before.Some?
    requires continueScan ==> hi <= before.value.ledger
    ensures var slice := set r | r in rows && Matches(f, r) && lo <= r.ledger < hi;
      var owed := set r | r in Remaining(rows, f, BoundOf(before, continueScan)) && lo <= r.ledger < hi;
      && (before.Some? && !continueScan && hi == before.value.ledger + 1 ==>
            (set r | r in slice && (r.ledger < before.value.ledger || LexLess(r.hash, before.value.hash))) == owed)
      && (before.None? || hi <= before.value.ledger ==> slice == owed)
  {
  }

  /** The windows from start down: what they hold of the rows owed, and where reading stopped. */
  method ReadWindows(rows: set<Row>, f: Filter, before: Option<Cursor>, continueScan: bool, floor: int, start: int,
      limit: nat)
    returns (out: seq<Row>, hi: int)
    requires ValidTable(rows) && (continueScan ==> before.Some?)
    requires before.Some? ==> start == if continueScan then before.value.ledger else before.value.ledger + 1
    requires AtOrAbove(Remaining(rows, f, BoundOf(before, continueScan)), start) == {}
    ensures DistinctKeys(Remaining(rows, f, BoundOf(before, continueScan)))
    ensures out == Take(Listing(AtOrAbove(Remaining(rows, f, BoundOf(before, continueScan)), hi)), limit + 1)
    ensures hi >= start - SCAN_BUDGET && (|out| <= limit && hi > floor ==> hi == start - SCAN_BUDGET)
  {
    ghost var owed := Remaining(rows, f, BoundOf(before, continueScan));
    var rowBound := before.Some? && !continueScan;
    var window := 0;
    out, hi := [], start;
    assert Listing(AtOrAbove(owed, hi)) == [];
    while window < SCAN_WINDOWS_PER_PAGE && hi > floor && |out| <= limit
      invariant 0 <= window <= SCAN_WINDOWS_PER_PAGE
      invariant hi <= start && hi >= start - window * 30000 && (hi > floor ==> hi == start - window * 30000)
      invariant rowBound ==> before.Some? && !continueScan && hi == before.value.ledger + 1
      invariant before.Some? && !rowBound ==> hi <= before.value.ledger
      invariant |out| <= limit + 1 && out == Take(Listing(AtOrAbove(owed, hi)), limit + 1)
      decreases SCAN_WINDOWS_PER_PAGE - window
    {
      var lo := hi - SCAN_WINDOW_LEDGERS;
      if lo < floor {
        lo := floor;
      }
      var slice := set r | r in rows && Matches(f, r) && lo <= r.ledger < hi;
      SliceIsOwed(rows, f, before, continueScan, lo, hi);
      if rowBound {
        slice := set r | r in slice && (r.ledger < before.value.ledger || LexLess(r.hash, before.value.hash));
        rowBound := false;
      }
      WindowExtends(owed, lo, hi, slice, out, limit);
      out := out + Take(Listing(slice), limit + 1 - |out|);
      hi := lo;
      window := window + 1;
    }
  }

  /** Where the windows begin; zero when no row of the contract is in the time bound. */
  method ScanBegin(rows: set<Row>, f: Filter, before: Option<Cursor>, continueScan: bool) returns (start: int)
    requires ValidTable(rows) && (before.Some? ==> before.value.ledger > 0) && (continueScan ==> before.Some?)
    ensures start == Begun(rows, f.contract, f.to, BoundOf(before, continueScan))
    ensures before.Some? ==> start == if continueScan then before.value.ledger else before.value.ledger + 1
    ensures before.None? && start != 0 ==> start <= MAX_LEDGER + 1 && ReachesUpTo(rows, f.contract, f.to, start - 1)
    ensures AtOrAbove(Remaining(rows, f, BoundOf(before, continueScan)), start) == {}
    ensures start == 0 ==> Remaining(rows, f, BoundOf(before, continueScan)) == {}
  {
    OwedLiesBetween(rows, f, BoundOf(before, continueScan));
    if before.Some? {
      start := if continueScan then before.value.ledger else before.value.ledger + 1;
    } else {
      var ceiling := ScanCeiling(rows, f.contract, f.to);
      start := if ceiling == 0 then 0 else ceiling + 1;
    }
  }

  method PageByWindows(rows: set<Row>, f: Filter, before: Option<Cursor>, continueScan: bool, limit: nat)
    returns (page: Page)
    requires ValidTable(rows)
    requires before.Some? ==> before.value.ledger > 0
    requires continueScan ==> before.Some?
    ensures WindowPage(page, rows, f, BoundOf(before, continueScan), limit)
    ensures |page.transactions| > limit <==> Overfull(rows, f, BoundOf(before, continueScan), limit)
  {
    var floor := ScanFloor(rows, f.contract, f.from);
    ghost var owed := Remaining(rows, f, BoundOf(before, continueScan));
    OwedLiesBetween(rows, f, BoundOf(before, continueScan));
    if floor == 0 {
      NothingOverfills(rows, f, BoundOf(before, continueScan), limit);
      return Page([], 0);
    }
    var start := ScanBegin(rows, f, before, continueScan);
    if start == 0 {
      NothingOverfills(rows, f, BoundOf(before, continueScan), limit);
      return Page([], 0);
    }
    var out, hi := ReadWindows(rows, f, before, continueScan, floor, start, limit);
    page := Page(out, 0);
    if |out| <= limit && hi > floor {
      page := Page(out, hi);
      assert ReachesBelow(rows, f.contract, f.from, hi);
    }
    ScanStopped(owed, floor, hi, out, limit);
    ScanOverfills(rows, f, BoundOf(before, continueScan), floor, start, hi, out, limit);
  }

  lemma ScanStopped(owed: set<Row>, floor: int, hi: int, out: seq<Row>, limit: nat)
    requires DistinctKeys(owed)
    requires forall r :: r in owed ==> floor <= r.ledger
    requires out == Take(Listing(AtOrAbove(owed, hi)), limit + 1)
    ensures out == Take(Listing(owed), |out|)
    ensures hi <= floor && |out| <= limit ==> out == Listing(owed)
  {
    var older := set r | r in owed && r.ledger < hi;
    assert owed == AtOrAbove(owed, hi) + older;
    ListingConcat(AtOrAbove(owed, hi), older);
    TakeConcat(Listing(AtOrAbove(owed, hi)), Listing(older), |out|);
    if hi <= floor {
      assert older == {};
    }
  }

  /** A page holds one row more than asked for exactly when the ledgers of one budget hold more than that. */
  ghost predicate Overfull(rows: set<Row>, f: Filter, b: Bound, limit: nat)
    requires DistinctKeys(rows)
  {
    |AtOrAbove(Remaining(rows, f, b), Begun(rows, f.contract, f.to, b) - SCAN_BUDGET)| > limit
  }

  lemma NothingOverfills(rows: set<Row>, f: Filter, b: Bound, limit: nat)
    requires DistinctKeys(rows) && Remaining(rows, f, b) == {}
    ensures !Overfull(rows, f, b, limit)
  {
    assert AtOrAbove(Remaining(rows, f, b), Begun(rows, f.contract, f.to, b) - SCAN_BUDGET) == {};
  }

  lemma ScanOverfills(rows: set<Row>, f: Filter, b: Bound, floor: int, start: int, hi: int, out: seq<Row>, limit: nat)
    requires DistinctKeys(rows) && start == Begun(rows, f.contract, f.to, b)
    requires forall r :: r in Remaining(rows, f, b) ==> floor <= r.ledger
    requires hi >= start - SCAN_BUDGET && (|out| <= limit && hi > floor ==> hi == start - SCAN_BUDGET)
    requires out == Take(Listing(AtOrAbove(Remaining(rows, f, b), hi)), limit + 1)
    ensures |out| > limit <==> Overfull(rows, f, b, limit)
  {
    var read, all := AtOrAbove(Remaining(rows, f, b), hi), AtOrAbove(Remaining(rows, f, b), start - SCAN_BUDGET);
    ListingSize(read);
    SubsetSize(read, all);
    if |out| <= limit {
      assert read == all;
    }
  }

  // ---------- one request to the store ----------

  /** The tables a history request reads: rows and the two dictionaries that name them. */
  datatype Db = Db(rows: set<Row>, contracts: map<string, int>, functions: map<string, int>)

  ghost predicate ValidDb(db: Db) {
    && ValidTable(db.rows)
    && (forall name :: name in db.functions ==> db.functions[name] >= 0)
  }

  /** An empty function name keeps every function; a zero time leaves that side open. */
  datatype Query = Query(contract: string, function_: string, from: int, to: int)

  /** Everything the request asks about, by name rather than by id. */
  function History(db: Db, q: Query): set<Row> {
    set r | r in db.rows
            && q.contract in db.contracts && r.contract == db.contracts[q.contract]
            && (q.function_ == "" || (q.function_ in db.functions && r.function_ == db.functions[q.function_]))
            && (q.from == 0 || r.closedAt >= q.from) && (q.to == 0 || r.closedAt <= q.to)
  }

  function Owed(db: Db, q: Query, b: Bound): set<Row> {
    set r | r in History(db, q) && Under(b, r)
  }

  ghost predicate HistoryReachesBelow(db: Db, q: Query, ledger: int) {
    q.contract in db.contracts && ReachesBelow(db.rows, db.contracts[q.contract], q.from, ledger)
  }

  ghost predicate HistoryReachesUpTo(db: Db, q: Query, ledger: int) {
    q.contract in db.contracts && ReachesUpTo(db.rows, db.contracts[q.contract], q.to, ledger)
  }

  /** A page of either plan: a full page, a page that ends the history, or a scan to resume. */
  ghost predicate StorePage(page: Page, owed: set<Row>, b: Bound, limit: nat)
    requires DistinctKeys(owed)
  {
    && page.transactions == Take(Listing(owed), |page.transactions|)
    && |page.transactions| <= limit + 1
    && (page.continueLedger == 0 && |page.transactions| < limit ==> page.transactions == Listing(owed))
    && (page.continueLedger != 0 ==>
          && page.continueLedger > 0
          && page.transactions == Listing(AtOrAbove(owed, page.continueLedger))
          && ScanStart(b, page.continueLedger + SCAN_BUDGET))
  }

  /** A scan to go on below a ledger: the contract has rows there, and without a cursor it began at its newest row. */
  ghost predicate ScansWithin(db: Db, q: Query, b: Bound, ledger: int) {
    && HistoryReachesBelow(db, q, ledger)
    && (b.Unbounded? ==> HistoryReachesUpTo(db, q, ledger + SCAN_BUDGET - 1))
  }

  /** Where a scan of the request would begin. */
  function HistoryBegun(db: Db, q: Query, b: Bound): int
    requires DistinctKeys(db.rows)
  {
    if q.contract !in db.contracts then 0 else Begun(db.rows, db.contracts[q.contract], q.to, b)
  }

  /** The ledgers of one scan budget hold more rows of the history than asked for. */
  ghost predicate BudgetHoldsMore(db: Db, q: Query, b: Bound, limit: nat)
    requires DistinctKeys(db.rows)
  {
    |AtOrAbove(Owed(db, q, b), HistoryBegun(db, q, b) - SCAN_BUDGET)| > limit
  }

  lemma NothingOwed(db: Db, q: Query, b: Bound, limit: nat)
    requires DistinctKeys(db.rows)
    requires q.contract !in db.contracts || (q.function_ != "" && q.function_ !in db.functions)
    ensures DistinctKeys(Owed(db, q, b)) && StorePage(Page([], 0), Owed(db, q, b), b, limit)
    ensures !BudgetHoldsMore(db, q, b, limit)
  {
    assert AtOrAbove({}, HistoryBegun(db, q, b) - SCAN_BUDGET) == {};
    assert Owed(db, q, b) == {};
  }

  function FilterOf(db: Db, q: Query): Filter
    requires q.contract in db.contracts && (q.function_ != "" ==> q.function_ in db.functions)
  {
    Filter(db.contracts[q.contract], if q.function_ == "" then -1 else db.functions[q.function_], q.from, q.to)
  }

  /** Asking by name is asking by id. */
  lemma NamesAreIds(db: Db, q: Query, b: Bound, limit: nat)
    requires ValidDb(db) && q.contract in db.contracts && (q.function_ != "" ==> q.function_ in db.functions)
    ensures FilterOf(db, q).function_ >= 0 <==> q.function_ != ""
    ensures Owed(db, q, b) == Remaining(db.rows, FilterOf(db, q), b)
    ensures BudgetHoldsMore(db, q, b, limit) <==> Overfull(db.rows, FilterOf(db, q), b, limit)
  {
  }

  /** The plans in turn, once the names are ids. */
  method PageOf(rows: set<Row>, f: Filter, before: Option<Cursor>, limit: nat, continueScan: bool, timedOut: bool)
    returns (page: Page)
    requires ValidTable(rows)
    requires before.Some? ==> before.value.ledger > 0
    requires continueScan ==> before.Some? && f.function_ >= 0
    ensures StorePage(page, Remaining(rows, f, BoundOf(before, continueScan)), BoundOf(before, continueScan), limit)
    ensures f.function_ < 0 ==> page.continueLedger == 0
    ensures |page.transactions| > limit <==>
            f.function_ >= 0 && (continueScan || timedOut) && Overfull(rows, f, BoundOf(before, continueScan), limit)
    ensures page.continueLedger != 0 ==>
              && ReachesBelow(rows, f.contract, f.from, page.continueLedger)
              && (before.None? ==> ReachesUpTo(rows, f.contract, f.to, page.continueLedger + SCAN_BUDGET - 1))
  {
    if f.function_ < 0 {
      var out := PageByLedgers(rows, f, before, limit);
      return Page(out, 0);
    }
    if !continueScan {
      var out := PageByLedgers(rows, f, before, limit);
      if !timedOut {
        return Page(out, 0);
      }
    }
    page := PageByWindows(rows, f, before, continueScan, limit);
  }

  /** timedOut says whether the streaming plan, when it is tried, runs into its deadline. */
  method TransactionsByContract(db: Db, q: Query, before: Option<Cursor>, limit: nat, continueScan: bool,
      timedOut: bool)
    returns (page: Page)
    requires ValidDb(db)
    requires before.Some? ==> before.value.ledger > 0
    requires continueScan ==> before.Some? && q.function_ != ""
    ensures DistinctKeys(Owed(db, q, BoundOf(before, continueScan)))
    ensures StorePage(page, Owed(db, q, BoundOf(before, continueScan)), BoundOf(before, continueScan), limit)
    ensures q.function_ == "" ==> page.continueLedger == 0
    ensures |page.transactions| > limit <==>
            && q.function_ != "" && (continueScan || timedOut)
            && BudgetHoldsMore(db, q, BoundOf(before, continueScan), limit)
    ensures page.continueLedger != 0 ==> ScansWithin(db, q, BoundOf(before, continueScan), page.continueLedger)
  {
    if q.contract !in db.contracts {
      NothingOwed(db, q, BoundOf(before, continueScan), limit);
      return Page([], 0);
    }
    var functionId := -1;
    if q.function_ != "" {
      if q.function_ !in db.functions {
        NothingOwed(db, q, BoundOf(before, continueScan), limit);
        return Page([], 0);
      }
      functionId := db.functions[q.function_];
    }
    var f := Filter(db.contracts[q.contract], functionId, q.from, q.to);
    NamesAreIds(db, q, BoundOf(before, continueScan), limit);
    page := PageOf(db.rows, f, before, limit, continueScan, timedOut);
  }

  // ---------- a page over its limit ----------

  function SampleRow(n: Byte): Row {
    Row(1, seq(32, _ => n), 5, 0, 1, None, 0)
  }

  /** Two calls of one function in one ledger. */
  function SampleDb(): Db {
    Db({SampleRow(1), SampleRow(2)}, map["C" := 1], map["f" := 1])
  }

  lemma BudgetHoldsTwoRows(q: Query)
    requires q == Query("C", "f", 0, 0)
    ensures ValidDb(SampleDb())
    ensures BudgetHoldsMore(SampleDb(), q, Unbounded, 1)
  {
    var x, y := SampleRow(1), SampleRow(2);
    assert x.hash[0] != y.hash[0];
    SampleOwes(q, {x, y});
    assert AtOrAbove({x, y}, 6 - SCAN_BUDGET) == {x, y};
  }

  lemma SampleOwes(q: Query, both: set<Row>)
    requires q == Query("C", "f", 0, 0) && both == {SampleRow(1), SampleRow(2)}
    ensures Until(SampleDb().rows, 1, 0) == both && Owed(SampleDb(), q, Unbounded) == both
  {
  }

  /** Asked for one row, the store returns both once the streaming plan has timed out. */
  method OnePageTwoRows() returns (page: Page)
    ensures |page.transactions| == 2 > 1
  {
    BudgetHoldsTwoRows(Query("C", "f", 0, 0));
    page := TransactionsByContract(SampleDb(), Query("C", "f", 0, 0), None, 1, false, true);
  }
}
