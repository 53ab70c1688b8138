/**
 The history endpoint: cursor texts, the one-extra-row test for a further page, and
 the walk a client makes by following next_cursor.
 */
module Api {
  import opened Wrappers
  import opened Bytes
  import opened Decimal
  import opened Rows
  import opened Sequences
  import opened Paging
  import JsonArgs

  const DEFAULT_LIMIT := 20
  const MAX_LIMIT := 50
  const MAX_UINT32 := 0xFFFF_FFFF
  const SCAN_PREFIX := "scan-"

  function ZeroHash(): Hash {
    seq(32, _ => 0)
  }

  // ---------- cursor texts ----------

  datatype ParsedCursor = ParsedCursor(cursor: Cursor, continueScan: bool)

  /** Length of the digits a text starts with. */
  function DigitRun(s: string): (n: nat)
    ensures n <= |s|
  {
    if s != "" && IsDigit(s[0]) then 1 + DigitRun(s[1..]) else 0
  }

  lemma {:induction false} DigitRunIsDigits(s: string)
    ensures AllDigits(s[..DigitRun(s)])
  {
    if s == "" || !IsDigit(s[0]) {
    } else {
      DigitRunIsDigits(s[1..]);
      assert s[..DigitRun(s)] == [s[0]] + s[1..][..DigitRun(s[1..])];
    }
  }

  function ParseCursor(raw: string): Option<ParsedCursor> {
    var continueScan := SCAN_PREFIX <= raw;
    var body := if continueScan then raw[|SCAN_PREFIX|..] else raw;
    var n := DigitRun(body);
    var tail := body[n..];
    if n == 0 || n > 10 then None
    else if tail != "" && !(|tail| == 65 && tail[0] == '-' && HexDecode(tail[1..]).Some?) then None
    else if continueScan && tail != "" then None
    else
      var ledger := Value(body[..n]);
      if ledger == 0 || ledger > MAX_UINT32 then None
      else if tail == "" then Some(ParsedCursor(Cursor(ledger, ZeroHash()), continueScan))
      else Some(ParsedCursor(Cursor(ledger, HexDecode(tail[1..]).value), false))
  }

  function RowCursor(ledger: nat, hash: Hash): string {
    Print(ledger) + "-" + HexEncode(hash)
  }

  function ScanCursor(ledger: nat): string {
    SCAN_PREFIX + Print(ledger)
  }

  /** The three texts that name a boundary, and the boundary each names. */
  ghost predicate Names(raw: string, digits: string, hash: Hash, p: ParsedCursor) {
    && AllDigits(digits) && 1 <= |digits| <= 10
    && p.cursor.ledger == Value(digits) && 1 <= Value(digits) <= MAX_UINT32
    && ( || (raw == digits && p.cursor.hash == ZeroHash() && !p.continueScan)
         || (raw == "scan-" + digits && p.cursor.hash == ZeroHash() && p.continueScan)
         || (raw == digits + "-" + HexEncode(hash) && p.cursor.hash == hash && !p.continueScan))
  }

  lemma {:induction false} DigitRunOf(digits: string, tail: string)
    requires AllDigits(digits) && (tail == "" || !IsDigit(tail[0]))
    ensures DigitRun(digits + tail) == |digits|
  {
    if digits == "" {
      assert digits + tail == tail;
    } else {
      DigitRunOf(digits[1..], tail);
      assert (digits + tail)[1..] == digits[1..] + tail;
    }
  }

  lemma ScanFormParses(digits: string)
    requires AllDigits(digits) && 1 <= |digits| <= 10 && 1 <= Value(digits) <= MAX_UINT32
    ensures ParseCursor(SCAN_PREFIX + digits) == Some(ParsedCursor(Cursor(Value(digits), ZeroHash()), true))
  {
    DigitRunOf(digits, "");
    assert digits + "" == digits;
    assert (SCAN_PREFIX + digits)[|SCAN_PREFIX|..] == digits;
    assert digits[..|digits|] == digits;
  }

  lemma RowFormParses(digits: string, tail: string)
    requires AllDigits(digits) && 1 <= |digits| <= 10 && 1 <= Value(digits) <= MAX_UINT32
    requires tail == "" || (|tail| == 65 && tail[0] == '-' && HexDecode(tail[1..]).Some?)
    ensures ParseCursor(digits + tail) ==
            Some(ParsedCursor(
              Cursor(Value(digits), if tail == "" then ZeroHash() else HexDecode(tail[1..]).value), false))
  {
    var raw := digits + tail;
    DigitRunOf(digits, tail);
    assert raw[0] == digits[0];
    assert raw[..|digits|] == digits && raw[|digits|..] == tail;
  }

  lemma NamedCursorParses(raw: string, digits: string, hash: Hash, p: ParsedCursor)
    requires Names(raw, digits, hash, p)
    ensures ParseCursor(raw) == Some(p)
  {
    if p.continueScan {
      ScanFormParses(digits);
    } else if raw == digits {
      RowFormParses(digits, "");
      assert digits + "" == raw;
    } else {
      var tail := "-" + HexEncode(hash);
      HexRoundTrip(hash);
      assert tail[1..] == HexEncode(hash);
      RowFormParses(digits, tail);
      assert digits + tail == raw;
    }
  }

  /** ParseCursor accepts exactly the three forms, and reads each as the boundary it names. */
  lemma ParseCursorIsExact(raw: string, p: ParsedCursor)
    ensures ParseCursor(raw) == Some(p) <==> exists digits, hash :: Names(raw, digits, hash, p)
  {
    if ParseCursor(raw) == Some(p) {
      var body := if SCAN_PREFIX <= raw then raw[|SCAN_PREFIX|..] else raw;
      var n := DigitRun(body);
      DigitRunIsDigits(body);
      if body[n..] == "" {
        assert body == body[..n];
        assert Names(raw, body[..n], ZeroHash(), p);
      } else {
        HexDecodeInjective(body[n..][1..]);
        assert body == body[..n] + "-" + body[n..][1..];
        assert Names(raw, body[..n], p.cursor.hash, p);
      }
    }
    forall digits, hash | Names(raw, digits, hash, p) ensures ParseCursor(raw) == Some(p) {
      NamedCursorParses(raw, digits, hash, p);
    }
  }

  lemma RowCursorParses(ledger: nat, hash: Hash)
    requires 1 <= ledger <= MAX_UINT32
    ensures ParseCursor(RowCursor(ledger, hash)) == Some(ParsedCursor(Cursor(ledger, hash), false))
  {
    PrintRoundTrip(ledger);
    TenDigits(ledger);
    NamedCursorParses(RowCursor(ledger, hash), Print(ledger), hash, ParsedCursor(Cursor(ledger, hash), false));
  }

  lemma ScanCursorParses(ledger: nat)
    requires 1 <= ledger <= MAX_UINT32
    ensures ParseCursor(ScanCursor(ledger)) == Some(ParsedCursor(Cursor(ledger, ZeroHash()), true))
  {
    PrintRoundTrip(ledger);
    TenDigits(ledger);
    NamedCursorParses(ScanCursor(ledger), Print(ledger), ZeroHash(), ParsedCursor(Cursor(ledger, ZeroHash()), true));
  }

  lemma TenDigits(n: nat)
    requires n <= MAX_UINT32
    ensures |Print(n)| <= 10
  {
    assert Pow10(5) == 100000 && Pow10(10) == 100000 * Pow10(5);
    PrintLength(n, 10);
  }

  // ---------- the endpoint ----------

  /** The limit and the cursor are texts of the request; empty means not given. */
  datatype Request = Request(query: Query, limit: string, cursor: string)

  datatype Response = BadRequest | ServerError | Served(rows: seq<Row>, nextCursor: Option<string>)

  /** A decimal number with an optional sign, from 1 to the maximum. */
  function LimitOf(raw: string): (limit: Option<nat>)
    ensures limit.Some? ==> 1 <= limit.value <= MAX_LIMIT
  {
    if raw == "" then Some(DEFAULT_LIMIT)
    else
      var n := JsonArgs.ParseInt32(raw);
      if n.Some? && 1 <= n.value <= MAX_LIMIT then Some(n.value) else None
  }

  /** The texts that ask for so many rows. */
  ghost predicate AsksFor(raw: string, digits: string, n: nat) {
    digits != "" && AllDigits(digits) && Value(digits) == n && raw in {digits, "+" + digits}
  }

  /** A limit is a number from 1 to 50, with a plus sign or without; without any it is 20. */
  lemma LimitOfExactly(raw: string, n: nat)
    ensures LimitOf(raw) == Some(n) <==>
            (raw == "" && n == 20) || (1 <= n <= 50 && exists digits :: AsksFor(raw, digits, n))
  {
    if LimitOf(raw) == Some(n) && raw != "" {
      if raw[0] == '+' {
        assert raw == "+" + raw[1..];
        assert AsksFor(raw, raw[1..], n);
      } else {
        assert AsksFor(raw, raw, n);
      }
    }
    if digits :| AsksFor(raw, digits, n) {
      assert IsDigit(digits[0]) && ("+" + digits)[1..] == digits;
    }
  }

  lemma LimitReadsBack(n: nat)
    ensures LimitOf(Print(n)) == if 1 <= n <= 50 then Some(n) else None
  {
    PrintRoundTrip(n);
    assert IsDigit(Print(n)[0]);
    assert AsksFor(Print(n), Print(n), n);
    LimitOfExactly(Print(n), n);
  }

  predicate IsBase32(c: char) {
    'A' <= c <= 'Z' || '2' <= c <= '7'
  }

  predicate ContractShape(s: string) {
    |s| == 56 && s[0] == 'C' && forall i :: 1 <= i < 56 ==> IsBase32(s[i])
  }

  /** Whatever the endpoint takes for a contract leaves the arguments it is stored in. */
  lemma ContractsAreAddresses(s: string)
    requires ContractShape(s)
    ensures JsonArgs.IsAddress(s)
  {
  }

  predicate IsWordStart(c: char) {
    'A' <= c <= 'Z' || 'a' <= c <= 'z' || c == '_'
  }

  predicate FunctionShape(s: string) {
    1 <= |s| <= 64 && IsWordStart(s[0]) && forall i :: 1 <= i < |s| ==> IsWordStart(s[i]) || IsDigit(s[i])
  }

  predicate QueryAcceptable(q: Query) {
    && ContractShape(q.contract)
    && (q.function_ == "" || FunctionShape(q.function_))
    && (q.from == 0 || q.to == 0 || q.from <= q.to)
  }

  /** Without a cursor text the list starts at its top; only a request for one function may resume a scan. */
  predicate CursorAcceptable(q: Query, cursor: string) {
    cursor == "" || (ParseCursor(cursor).Some? && (ParseCursor(cursor).value.continueScan ==> q.function_ != ""))
  }

  predicate Acceptable(req: Request) {
    QueryAcceptable(req.query) && LimitOf(req.limit).Some? && CursorAcceptable(req.query, req.cursor)
  }

  /** The boundary a request's cursor text names. */
  function BoundOfText(cursor: string): Bound
    requires cursor == "" || ParseCursor(cursor).Some?
  {
    if cursor == "" then Unbounded
    else BoundOf(Some(ParseCursor(cursor).value.cursor), ParseCursor(cursor).value.continueScan)
  }

  /** The list a boundary leaves to be served: the matching rows under it, newest first. */
  ghost function OwedList(db: Db, q: Query, b: Bound): seq<Row>
    requires ValidTable(db.rows)
  {
    Listing(Owed(db, q, b))
  }

  /**
   Where a next cursor may lead after rows: just below the last row of a full page, or
   to a ledger a whole scan budget below where this page's scan began.
   */
  ghost predicate LeadsOn(b: Bound, limit: int, rows: seq<Row>, next: Bound) {
    match next
    case Unbounded => false
    case BelowRow(l, h) => 0 < |rows| == limit && l == rows[limit - 1].ledger && h == rows[limit - 1].hash
    case BelowLedger(l) => l > 0 && ScanStart(b, l + SCAN_BUDGET)
  }

  /**
   What one response to a request at boundary b promises: it serves the front of the
   list owed there; without a next cursor that is all of it; and a next cursor is an
   acceptable one that is owed exactly the rest.
   */
  ghost predicate ServesFront(db: Db, q: Query, b: Bound, limit: int, resp: Response)
    requires ValidTable(db.rows)
  {
    && resp.Served?
    && |resp.rows| <= limit
    && match resp.nextCursor
       case None => resp.rows == OwedList(db, q, b)
       case Some(next) =>
         && next != "" && CursorAcceptable(q, next)
         && LeadsOn(b, limit, resp.rows, BoundOfText(next))
         && (BoundOfText(next).BelowLedger? ==> ScansWithin(db, q, b, BoundOfText(next).ledger))
         && resp.rows + OwedList(db, q, BoundOfText(next)) == OwedList(db, q, b)
  }

  lemma UnderIsDownwardClosed(b: Bound, a: Row, r: Row)
    requires Under(b, a) && Newer(a, r)
    ensures Under(b, r)
  {
    if b.BelowRow? && a.ledger == b.ledger && r.ledger == b.ledger {
      LexLessTransitive(r.hash, a.hash, b.hash);
    }
  }

  /** Naming the last row served owes exactly the rest of the list. */
  lemma RowBoundaryOwesTheRest(db: Db, q: Query, b: Bound, k: nat)
    requires ValidDb(db) && DistinctKeys(Owed(db, q, b))
    requires 0 < k <= |Listing(Owed(db, q, b))|
    ensures var list := Listing(Owed(db, q, b));
      var rest := Owed(db, q, BelowRow(list[k - 1].ledger, list[k - 1].hash));
      DistinctKeys(rest) && list[..k] + Listing(rest) == list
  {
    var owed := Owed(db, q, b);
    var last := Listing(owed)[k - 1];
    ListingSorts(owed);
    assert last in Listing(owed);
    var rest := Owed(db, q, BelowRow(last.ledger, last.hash));
    forall r | r in rest ensures r in owed {
      UnderIsDownwardClosed(b, last, r);
    }
    assert rest == OlderThan(owed, last);
    ListingTail(owed, k);
  }

  /** Handing the scan on below a ledger owes exactly the rows under that ledger. */
  lemma ScanBoundaryOwesTheRest(db: Db, q: Query, b: Bound, ledger: int)
    requires ValidDb(db) && DistinctKeys(Owed(db, q, b))
    requires ScanStart(b, ledger + SCAN_BUDGET)
    ensures var rest := Owed(db, q, BelowLedger(ledger));
      && DistinctKeys(rest) && DistinctKeys(AtOrAbove(Owed(db, q, b), ledger))
      && Listing(AtOrAbove(Owed(db, q, b), ledger)) + Listing(rest) == Listing(Owed(db, q, b))
  {
    var owed, rest := Owed(db, q, b), Owed(db, q, BelowLedger(ledger));
    assert owed == AtOrAbove(owed, ledger) + rest;
    ListingConcat(AtOrAbove(owed, ledger), rest);
  }

  /** What a cursor text names, by number: the matching rows below its ledger, and of it those with a smaller hash. */
  lemma RowCursorOwes(db: Db, q: Query, ledger: nat, hash: Hash, r: Row)
    requires ValidDb(db) && 1 <= ledger <= MAX_UINT32
    ensures ParseCursor(RowCursor(ledger, hash)).Some?
    ensures r in OwedList(db, q, BoundOfText(RowCursor(ledger, hash))) <==>
            && r in History(db, q)
            && (r.ledger < ledger || (r.ledger == ledger && Unsigned(r.hash) < Unsigned(hash)))
  {
    RowCursorParses(ledger, hash);
    ListingSorts(Owed(db, q, BelowRow(ledger, hash)));
    LexLessIsUnsigned(r.hash, hash);
  }

  lemma ScanCursorOwes(db: Db, q: Query, ledger: nat, r: Row)
    requires ValidDb(db) && 1 <= ledger <= MAX_UINT32
    ensures ParseCursor(ScanCursor(ledger)).Some?
    ensures r in OwedList(db, q, BoundOfText(ScanCursor(ledger))) <==> r in History(db, q) && r.ledger < ledger
  {
    ScanCursorParses(ledger);
    ListingSorts(Owed(db, q, BelowLedger(ledger)));
  }

  /** A cursor text that is only a ledger owes exactly the rows under that ledger. */
  lemma BareLedgerOwesBelow(db: Db, q: Query, ledger: nat)
    requires 1 <= ledger <= MAX_UINT32
    ensures CursorAcceptable(q, Print(ledger))
    ensures Owed(db, q, BoundOfText(Print(ledger))) == Owed(db, q, BelowLedger(ledger))
  {
    PrintRoundTrip(ledger);
    TenDigits(ledger);
    NamedCursorParses(Print(ledger), Print(ledger), ZeroHash(), ParsedCursor(Cursor(ledger, ZeroHash()), false));
    forall r: Row ensures !LexLess(r.hash, ZeroHash()) { NothingBelowZeros(r.hash, ZeroHash()); }
  }

  /** One above the highest ledger the rows under a boundary can have. */
  function Ceiling(b: Bound): int {
    match b
    case Unbounded => MAX_LEDGER + 1
    case BelowLedger(l) => l
    case BelowRow(l, _) => l + 1
  }

  /** The response made of a store page: a row beyond the limit is cut off and means there is more. */
  function Answer(page: Page, limit: nat): Response
    requires forall r :: r in page.transactions ==> r.ledger > 0
  {
    var more := |page.transactions| > limit;
    var rows := if more then page.transactions[..limit] else page.transactions;
    if more && |rows| > 0 then
      var last := rows[|rows| - 1];
      assert last in page.transactions;
      Served(rows, Some(RowCursor(last.ledger, last.hash)))
    else if page.continueLedger > 0 then Served(rows, Some(ScanCursor(page.continueLedger)))
    else Served(rows, None)
  }

  lemma FullPageServesFront(db: Db, q: Query, b: Bound, limit: nat, page: Page)
    requires ValidDb(db) && 1 <= limit < |page.transactions|
    requires page.transactions <= OwedList(db, q, b)
    requires forall r :: r in page.transactions ==> 0 < r.ledger <= MAX_LEDGER
    ensures ServesFront(db, q, b, limit, Answer(page, limit))
  {
    var last := page.transactions[limit - 1];
    assert last in page.transactions;
    var next := RowCursor(last.ledger, last.hash);
    RowCursorParses(last.ledger, last.hash);
    assert next != "" && CursorAcceptable(q, next) && BoundOfText(next) == BelowRow(last.ledger, last.hash);
    FrontAndRest(db, q, b, limit, page.transactions);
    assert Answer(page, limit) == Served(page.transactions[..limit], Some(next));
  }

  lemma FrontAndRest(db: Db, q: Query, b: Bound, k: nat, front: seq<Row>)
    requires ValidDb(db) && 1 <= k < |front| && front <= OwedList(db, q, b)
    ensures front[..k] + OwedList(db, q, BelowRow(front[k - 1].ledger, front[k - 1].hash)) == OwedList(db, q, b)
  {
    RowBoundaryOwesTheRest(db, q, b, k);
    assert front[..k] == OwedList(db, q, b)[..k];
  }

  lemma ScanPageServesFront(db: Db, q: Query, b: Bound, limit: nat, page: Page)
    requires ValidDb(db) && |page.transactions| <= limit
    requires StorePage(page, Owed(db, q, b), b, limit + 1)
    requires page.continueLedger > 0 && q.function_ != "" && ScansWithin(db, q, b, page.continueLedger)
    requires Ceiling(b) <= MAX_UINT32 + 1
    requires forall r :: r in page.transactions ==> r.ledger > 0
    ensures ServesFront(db, q, b, limit, Answer(page, limit))
  {
    ScanBoundaryOwesTheRest(db, q, b, page.continueLedger);
    ScanCursorParses(page.continueLedger);
  }

  lemma AnswerServesFront(db: Db, q: Query, b: Bound, limit: nat, page: Page)
    requires ValidDb(db) && limit >= 1 && Ceiling(b) <= MAX_UINT32 + 1
    requires StorePage(page, Owed(db, q, b), b, limit + 1)
    requires q.function_ == "" ==> page.continueLedger == 0
    requires page.continueLedger != 0 ==> ScansWithin(db, q, b, page.continueLedger)
    ensures forall r :: r in page.transactions ==> 0 < r.ledger <= MAX_LEDGER
    ensures ServesFront(db, q, b, limit, Answer(page, limit))
  {
    ListingSorts(Owed(db, q, b));
    assert page.transactions <= OwedList(db, q, b);
    assert forall r :: r in page.transactions ==> r in OwedList(db, q, b);
    if |page.transactions| > limit {
      FullPageServesFront(db, q, b, limit, page);
    } else if page.continueLedger > 0 {
      ScanPageServesFront(db, q, b, limit, page);
    }
  }

  /** broken says whether a query fails for any other reason than the streaming plan's deadline. */
  method ContractTransactions(db: Db, req: Request, timedOut: bool, broken: bool) returns (resp: Response)
    requires ValidDb(db)
    ensures resp.BadRequest? <==> !Acceptable(req)
    ensures resp.ServerError? <==> Acceptable(req) && broken
    ensures resp.Served? ==> ServesFront(db, req.query, BoundOfText(req.cursor), LimitOf(req.limit).value, resp)
  {
    var q := req.query;
    var limit := LimitOf(req.limit);
    if !QueryAcceptable(q) || limit.None? {
      return BadRequest;
    }
    var before: Option<Cursor> := None;
    var continueScan := false;
    if req.cursor != "" {
      var parsed := ParseCursor(req.cursor);
      if parsed.None? {
        return BadRequest;
      }
      if parsed.value.continueScan && q.function_ == "" {
        return BadRequest;
      }
      before := Some(parsed.value.cursor);
      continueScan := parsed.value.continueScan;
    }
    if broken {
      return ServerError;
    }
    var page := TransactionsByContract(db, q, before, limit.value + 1, continueScan, timedOut);
    AnswerServesFront(db, q, BoundOf(before, continueScan), limit.value, page);
    resp := Answer(page, limit.value);
  }

  // ---------- following next_cursor ----------

  lemma NextCursorDescends(db: Db, q: Query, b: Bound, limit: int, rows: seq<Row>, next: Bound)
    requires ValidTable(db.rows) && LeadsOn(b, limit, rows, next)
    requires rows <= OwedList(db, q, b)
    ensures Ceiling(next) > 0
    ensures next.BelowRow? ==> Ceiling(next) <= Ceiling(b) && |rows| > 0 && HistoryReachesUpTo(db, q, Ceiling(next) - 1)
    ensures next.BelowLedger? ==> Ceiling(next) + 120000 <= Ceiling(b)
    ensures !next.Unbounded?
  {
    if next.BelowRow? {
      ListingSorts(Owed(db, q, b));
      var last := rows[limit - 1];
      assert last in OwedList(db, q, b);
      assert last in Until(db.rows, db.contracts[q.contract], q.to);
    }
  }

  /** A scanned page pays a whole budget; another pays nothing. */
  function Paid(scanned: bool): int {
    if scanned then 120000 else 0
  }

  /** One page of a walk, with any page size and whether or not the streaming plan timed out. */
  method AnyPage(db: Db, q: Query, cursor: string) returns (rows: seq<Row>, next: Option<string>, scanned: bool)
    requires ValidDb(db) && QueryAcceptable(q) && CursorAcceptable(q, cursor)
    ensures next.None? ==> rows == OwedList(db, q, BoundOfText(cursor))
    ensures next.Some? ==>
              && next.value != "" && CursorAcceptable(q, next.value)
              && rows + OwedList(db, q, BoundOfText(next.value)) == OwedList(db, q, BoundOfText(cursor))
              && 0 < Ceiling(BoundOfText(next.value)) <= Ceiling(BoundOfText(cursor)) - Paid(scanned)
              && (scanned || |rows| > 0)
              && (scanned ==> HistoryReachesBelow(db, q, Ceiling(BoundOfText(next.value))))
              && (cursor == "" ==> HistoryReachesUpTo(db, q, Ceiling(BoundOfText(next.value)) + Paid(scanned) - 1))
  {
    assert LimitOf("").Some?;
    var limit: string :| LimitOf(limit).Some?;
    var timedOut: bool := *;
    var resp := ContractTransactions(db, Request(q, limit, cursor), timedOut, false);
    rows, next, scanned := resp.rows, resp.nextCursor, false;
    if next.Some? {
      scanned := ParseCursor(next.value).value.continueScan;
      assert rows <= OwedList(db, q, BoundOfText(cursor));
      NextCursorDescends(db, q, BoundOfText(cursor), LimitOf(limit).value, rows, BoundOfText(next.value));
    }
  }

  /** The scans so far and what is still to scan lie between top and the contract's oldest row. */
  ghost predicate SpanKept(db: Db, q: Query, cursor: string, at: Option<string>, scans: nat, top: int)
    requires CursorAcceptable(q, cursor) && (at.Some? ==> CursorAcceptable(q, at.value))
  {
    && (at == Some("") ==> cursor == "" && scans == 0)
    && (cursor != "" ==> top == Ceiling(BoundOfText(cursor)))
    && (cursor == "" && (scans > 0 || (at.Some? && at.value != "")) ==> HistoryReachesUpTo(db, q, top - 1))
    && (at.Some? ==> scans * 120000 + Ceiling(BoundOfText(at.value)) <= top)
    && (scans > 0 ==> HistoryReachesBelow(db, q, top - scans * 120000))
  }

  lemma SpanStep(db: Db, q: Query, cursor: string, at: string, next: string, scanned: bool, scans: nat, top: int)
    requires CursorAcceptable(q, cursor) && CursorAcceptable(q, at) && CursorAcceptable(q, next) && next != ""
    requires SpanKept(db, q, cursor, Some(at), scans, top)
    requires Ceiling(BoundOfText(next)) <= Ceiling(BoundOfText(at)) - Paid(scanned)
    requires scanned ==> HistoryReachesBelow(db, q, Ceiling(BoundOfText(next)))
    requires at == "" ==> HistoryReachesUpTo(db, q, Ceiling(BoundOfText(next)) + Paid(scanned) - 1)
    ensures SpanKept(db, q, cursor, Some(next), scans + (if scanned then 1 else 0),
                     if at == "" then Ceiling(BoundOfText(next)) + Paid(scanned) else top)
  {
    if scanned {
      var top' := if at == "" then Ceiling(BoundOfText(next)) + Paid(scanned) else top;
      ReachesFurther(db, q, Ceiling(BoundOfText(next)), top' - (scans + 1) * 120000);
    }
  }

  lemma ReachesFurther(db: Db, q: Query, low: int, high: int)
    requires HistoryReachesBelow(db, q, low) && low <= high
    ensures HistoryReachesBelow(db, q, high)
  {
  }

  ghost predicate Walkable(q: Query, at: Option<string>) {
    at.Some? ==> CursorAcceptable(q, at.value)
  }

  /** What is still to come at a point of the walk. */
  ghost function RestAt(db: Db, q: Query, at: Option<string>): seq<Row>
    requires ValidTable(db.rows) && Walkable(q, at)
  {
    if at.None? then [] else OwedList(db, q, BoundOfText(at.value))
  }

  ghost function HeightAt(q: Query, at: Option<string>): int
    requires Walkable(q, at)
  {
    if at.None? then 0 else Ceiling(BoundOfText(at.value))
  }

  /** One page more of the walk that began at cursor. */
  method TurnPage(db: Db, q: Query, ghost cursor: string, at: string, scans: nat, ghost top: int)
    returns (rows: seq<Row>, next: Option<string>, scans': nat, ghost top': int)
    requires ValidDb(db) && QueryAcceptable(q) && CursorAcceptable(q, cursor) && CursorAcceptable(q, at)
    requires SpanKept(db, q, cursor, Some(at), scans, top)
    ensures Walkable(q, next) && SpanKept(db, q, cursor, next, scans', top')
    ensures rows + RestAt(db, q, next) == RestAt(db, q, Some(at))
    ensures next.Some? ==> 0 <= HeightAt(q, next) && (|rows| > 0 || HeightAt(q, next) < HeightAt(q, Some(at)))
    ensures scans' == scans || scans' == scans + 1
    ensures scans' == scans && next.Some? ==> |rows| > 0
  {
    var scanned;
    rows, next, scanned := AnyPage(db, q, at);
    scans', top' := scans, top;
    if next.Some? {
      SpanStep(db, q, cursor, at, next.value, scanned, scans, top);
      top' := if at == "" then Ceiling(BoundOfText(next.value)) + Paid(scanned) else top;
      if scanned { scans' := scans + 1; }
    }
  }

  /**
   A client that follows next_cursor to its end, from any acceptable cursor text: each
   page may ask for a different number of rows and may or may not time out of the
   streaming plan. The walk ends, and the pages in order are exactly the rows owed,
   newest first, nothing skipped or repeated. Every page but the last is full or moves the
   scan by a whole budget, and the budgets fit between top, the cursor's own ledger or the
   contract's newest row, and the contract's oldest row.
   */
  method FollowHistory(db: Db, q: Query, cursor: string)
      returns (all: seq<Row>, scans: nat, fullPages: nat, ghost top: int)
    requires ValidDb(db) && QueryAcceptable(q) && CursorAcceptable(q, cursor)
    ensures all == OwedList(db, q, BoundOfText(cursor))
    ensures cursor != "" ==> top == Ceiling(BoundOfText(cursor))
    ensures scans > 0 ==> HistoryReachesBelow(db, q, top - scans * 120000)
    ensures cursor == "" && scans > 0 ==> HistoryReachesUpTo(db, q, top - 1)
    ensures fullPages <= |all|
  {
    all, scans, fullPages := [], 0, 0;
    top := Ceiling(BoundOfText(cursor));
    var at := Some(cursor);
    ghost var list := RestAt(db, q, at);
    while at.Some?
      invariant Walkable(q, at) && SpanKept(db, q, cursor, at, scans, top)
      invariant all + RestAt(db, q, at) == list
      invariant fullPages <= |all|
      decreases at.Some?, |RestAt(db, q, at)|, HeightAt(q, at)
    {
      var rows, next, more;
      rows, next, more, top := TurnPage(db, q, cursor, at.value, scans, top);
      ConcatIsAssociative(all, rows, RestAt(db, q, next));
      all := all + rows;
      if more == scans && next.Some? { fullPages := fullPages + 1; }
      at, scans := next, more;
    }
  }

  /**
   From no cursor, the walk is the whole history, whatever the plans and page sizes were,
   and all its scans together span no more ledgers than the contract's rows do.
   */
  method FollowWholeHistory(db: Db, q: Query) returns (all: seq<Row>, scans: nat)
    requires ValidDb(db) && QueryAcceptable(q)
    ensures forall r :: r in all <==>
              && r in db.rows && q.contract in db.contracts && r.contract == db.contracts[q.contract]
              && (q.function_ == "" || (q.function_ in db.functions && r.function_ == db.functions[q.function_]))
              && (q.from == 0 || q.from <= r.closedAt) && (q.to == 0 || r.closedAt <= q.to)
    ensures forall i, j :: 0 <= i < j < |all| ==>
              || all[i].ledger > all[j].ledger
              || (all[i].ledger == all[j].ledger && Unsigned(all[i].hash) > Unsigned(all[j].hash))
    ensures Descending(all) && Elements(all) == History(db, q) && |all| == |History(db, q)|
    ensures scans > 0 ==> q.contract in db.contracts && exists newest, oldest ::
              && newest in Until(db.rows, db.contracts[q.contract], q.to)
              && oldest in Since(db.rows, db.contracts[q.contract], q.from)
              && scans * 120000 <= newest.ledger - oldest.ledger
  {
    assert Owed(db, q, BoundOfText("")) == History(db, q);
    ListingSize(History(db, q));
    ListingSorts(History(db, q));
    ghost var top;
    var pages;
    all, scans, pages, top := FollowHistory(db, q, "");
    forall i, j | 0 <= i < j < |all|
      ensures || all[i].ledger > all[j].ledger
              || (all[i].ledger == all[j].ledger && Unsigned(all[i].hash) > Unsigned(all[j].hash))
    {
      assert Newer(all[i], all[j]);
      LexLessIsUnsigned(all[j].hash, all[i].hash);
    }
    if scans > 0 {
      ghost var newest :| newest in Until(db.rows, db.contracts[q.contract], q.to) && newest.ledger >= top - 1;
      ghost var oldest :| oldest in Since(db.rows, db.contracts[q.contract], q.from)
                          && oldest.ledger < top - scans * 120000;
    }
  }
}
