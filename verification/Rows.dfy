/**
 The rows of contract_transactions and the one list every history page is cut from:
 a set of rows in descending (ledger, tx_hash) order.
 */
module Rows {
  import opened Wrappers
  import opened Bytes
  import opened JsonTree

  type Hash = h: ByteString | |h| == 32 witness seq(32, _ => 0)

  /** The ledger column is a 32-bit integer. */
  const MAX_LEDGER := 0x7FFF_FFFF

  datatype Row = Row(contract: int, hash: Hash, ledger: int, closedAt: int,
                     function_: int, args: Option<Json>, feeCharged: int)

  /**
   What the schema and the archive guarantee of the table: ledgers start at 1, the
   primary key is (tx_hash, ledger_closed_at), and a ledger closed at one time.
   */
  ghost predicate ValidTable(rows: set<Row>) {
    && (forall r :: r in rows ==> 1 <= r.ledger <= MAX_LEDGER)
    && (forall r, s :: r in rows && s in rows && r.hash == s.hash && r.closedAt == s.closedAt ==> r == s)
    && (forall r, s :: r in rows && s in rows && r.ledger == s.ledger ==> r.closedAt == s.closedAt)
  }

  /** No two rows share the key a page boundary is named by. */
  ghost predicate DistinctKeys(rows: set<Row>) {
    forall r, s :: r in rows && s in rows && r.ledger == s.ledger && r.hash == s.hash ==> r == s
  }

  predicate Newer(a: Row, b: Row) {
    a.ledger > b.ledger || (a.ledger == b.ledger && LexLess(b.hash, a.hash))
  }

  ghost predicate Descending(s: seq<Row>) {
    forall i, j :: 0 <= i < j < |s| ==> Newer(s[i], s[j])
  }

  function Elements(s: seq<Row>): set<Row> {
    set r | r in s
  }

  lemma NewerIsTotal(a: Row, b: Row)
    ensures !Newer(a, a)
    ensures Newer(a, b) || Newer(b, a) || (a.ledger == b.ledger && a.hash == b.hash)
    ensures !(Newer(a, b) && Newer(b, a))
  {
    LexLessIrreflexive(a.hash);
    LexLessTotal(a.hash, b.hash);
    if Newer(a, b) && Newer(b, a) {
      LexLessTransitive(a.hash, b.hash, a.hash);
    }
  }

  lemma NewerTransitive(a: Row, b: Row, c: Row)
    requires Newer(a, b) && Newer(b, c)
    ensures Newer(a, c)
  {
    if a.ledger == b.ledger == c.ledger {
      LexLessTransitive(c.hash, b.hash, a.hash);
    }
  }

  predicate IsNewest(m: Row, rows: set<Row>) {
    m in rows && forall r :: r in rows && r != m ==> Newer(m, r)
  }

  lemma {:induction false} NewestExists(rows: set<Row>)
    requires rows != {} && DistinctKeys(rows)
    ensures exists m :: IsNewest(m, rows)
    decreases |rows|
  {
    var x :| x in rows;
    var rest := rows - {x};
    if rest == {} {
      assert rows == {x};
      assert IsNewest(x, rows);
    } else {
      NewestExists(rest);
      var y :| IsNewest(y, rest);
      NewerIsTotal(x, y);
      if Newer(x, y) {
        forall r | r in rest && r != y ensures Newer(x, r) { NewerTransitive(x, y, r); }
        assert IsNewest(x, rows);
      } else {
        assert IsNewest(y, rows);
      }
    }
  }

  lemma NewestUnique(rows: set<Row>, m: Row, n: Row)
    requires IsNewest(m, rows) && IsNewest(n, rows)
    ensures m == n
  {
    NewerIsTotal(m, n);
  }

  function Newest(rows: set<Row>): (m: Row)
    requires rows != {} && DistinctKeys(rows)
    ensures IsNewest(m, rows)
  {
    NewestExists(rows);
    assert forall m, n :: IsNewest(m, rows) && IsNewest(n, rows) ==> m == n by {
      forall m, n | IsNewest(m, rows) && IsNewest(n, rows) ensures m == n { NewestUnique(rows, m, n); }
    }
    var m :| m in rows && IsNewest(m, rows);
    m
  }

  /** ORDER BY ledger DESC, tx_hash DESC over a set of rows. */
  function Listing(rows: set<Row>): seq<Row>
    requires DistinctKeys(rows)
  {
    if rows == {} then [] else [Newest(rows)] + Listing(rows - {Newest(rows)})
  }

  lemma {:induction false} ListingSorts(rows: set<Row>)
    requires DistinctKeys(rows)
    ensures Elements(Listing(rows)) == rows && Descending(Listing(rows))
    ensures forall r :: r in Listing(rows) <==> r in rows
  {
    if rows == {} {
    } else {
      ListingSorts(rows - {Newest(rows)});
    }
  }

  lemma FrontIsNewest(s: seq<Row>)
    requires s != [] && Descending(s)
    ensures IsNewest(s[0], Elements(s))
  {
    assert s[0] in Elements(s);
    assert forall r :: r in Elements(s) ==> r in s;
  }

  lemma ElementsOfRest(s: seq<Row>)
    requires s != [] && forall i :: 1 <= i < |s| ==> s[i] != s[0]
    ensures Elements(s[1..]) == Elements(s) - {s[0]}
  {
    forall r | r in Elements(s) - {s[0]} ensures r in s[1..] {
      var i :| 0 <= i < |s| && s[i] == r;
      assert s[1..][i - 1] == r;
    }
  }

  lemma {:induction false} ListingUnique(s: seq<Row>, rows: set<Row>)
    requires DistinctKeys(rows) && Elements(s) == rows && Descending(s)
    ensures s == Listing(rows)
  {
    if s == [] {
      assert rows == {};
    } else {
      FrontIsNewest(s);
      NewestUnique(rows, s[0], Newest(rows));
      forall i | 1 <= i < |s| ensures s[i] != s[0] { NewerIsTotal(s[0], s[i]); }
      ElementsOfRest(s);
      ListingUnique(s[1..], rows - {s[0]});
      assert s == [s[0]] + s[1..];
    }
  }

  /** A block of newer rows lists before a block of older ones. */
  lemma ListingConcat(newer: set<Row>, older: set<Row>)
    requires DistinctKeys(newer + older)
    requires forall a, b :: a in newer && b in older ==> Newer(a, b)
    ensures DistinctKeys(newer) && DistinctKeys(older)
    ensures Listing(newer + older) == Listing(newer) + Listing(older)
  {
    var s, t := Listing(newer), Listing(older);
    ListingSorts(newer);
    ListingSorts(older);
    assert Elements(s + t) == newer + older;
    assert Descending(s + t);
    ListingUnique(s + t, newer + older);
  }

  lemma OlderIsLater(s: seq<Row>, k: nat, i: nat)
    requires Descending(s) && 0 < k <= |s| && i < |s|
    ensures Newer(s[k - 1], s[i]) <==> i >= k
  {
    NewerIsTotal(s[i], s[k - 1]);
  }

  function OlderThan(rows: set<Row>, last: Row): set<Row> {
    set r | r in rows && Newer(last, r)
  }

  lemma TailElements(s: seq<Row>, k: nat)
    requires Descending(s) && 0 < k <= |s|
    ensures Elements(s[k..]) == OlderThan(Elements(s), s[k - 1])
  {
    forall i | 0 <= i < |s| ensures Newer(s[k - 1], s[i]) <==> i >= k { OlderIsLater(s, k, i); }
    forall r | r in OlderThan(Elements(s), s[k - 1]) ensures r in s[k..] {
      var i :| 0 <= i < |s| && s[i] == r;
      assert s[k..][i - k] == r;
    }
  }

  /** What follows a position of the listing is the listing of everything older than it. */
  lemma ListingTail(rows: set<Row>, k: nat)
    requires DistinctKeys(rows) && 0 < k <= |Listing(rows)|
    ensures DistinctKeys(OlderThan(rows, Listing(rows)[k - 1]))
    ensures Listing(rows)[..k] + Listing(OlderThan(rows, Listing(rows)[k - 1])) == Listing(rows)
  {
    var s := Listing(rows);
    var older := OlderThan(rows, s[k - 1]);
    assert Listing(older) == s[k..] by {
      ListingSorts(rows);
      TailElements(s, k);
      ListingUnique(s[k..], older);
    }
    assert s[..k] + s[k..] == s;
  }

  /** A listing repeats nothing. */
  lemma {:induction false} ListingSize(rows: set<Row>)
    requires DistinctKeys(rows)
    ensures |Listing(rows)| == |rows|
  {
    if rows == {} {
    } else {
      ListingSize(rows - {Newest(rows)});
    }
  }
}
