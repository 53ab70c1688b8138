/**
 Who acts in each row: a call is made by the contract of the row it hangs under, the
 outermost ones by the invoker, and a movement stands right under its event.
 */
module CallActors {
  import opened Wrappers
  import opened Display
  import opened TraceTypes
  import opened CallTree

  /** Reading rows downwards: who acts at each depth, and the movement that is due next. */
  datatype Reading = Reading(actors: seq<Option<Strkey>>, due: Option<TraceEvent>)

  predicate Follows(row: TraceRow, r: Reading) {
    if r.due.Some? then
      row.kind == MoveRow(r.due.value) && row.actor == None && row.depth == |r.actors|
    else
      && row.depth < |r.actors|
      && match row.kind
         case CallRow(_, _, _, _) => row.actor == r.actors[row.depth]
         case EventRow(e) => row.actor == if e.contract.Some? then e.contract else r.actors[row.depth]
         case MoveRow(_) => false
  }

  function After(row: TraceRow, r: Reading): Reading {
    if row.depth >= |r.actors| then Reading(r.actors, None)
    else match row.kind
      case CallRow(target, _, _, _) => Reading(r.actors[..row.depth + 1] + [target], None)
      case EventRow(e) => Reading(r.actors[..row.depth + 1], if MovesTokens(e) then Some(e) else None)
      case MoveRow(_) => Reading(r.actors, None)
  }

  function AfterAll(rows: seq<TraceRow>, r: Reading): Reading {
    if rows == [] then r else AfterAll(rows[1..], After(rows[0], r))
  }

  predicate AllFollow(rows: seq<TraceRow>, r: Reading) {
    rows == [] || (Follows(rows[0], r) && AllFollow(rows[1..], After(rows[0], r)))
  }

  lemma {:induction false} FollowConcat(x: seq<TraceRow>, y: seq<TraceRow>, r: Reading)
    ensures AllFollow(x + y, r) <==> AllFollow(x, r) && AllFollow(y, AfterAll(x, r))
    ensures AfterAll(x + y, r) == AfterAll(y, AfterAll(x, r))
  {
    if x == [] {
      assert x + y == y;
    } else {
      FollowConcat(x[1..], y, After(x[0], r));
      assert (x + y)[1..] == x[1..] + y;
    }
  }

  /** Rows at or below a depth leave those who act above it as they were, and nothing due. */
  ghost predicate Settles(r: Reading, r': Reading, depth: nat) {
    r'.due == None && depth < |r.actors| && depth < |r'.actors| && r'.actors[..depth + 1] == r.actors[..depth + 1]
  }

  ghost predicate Ready(r: Reading, depth: nat, actor: Option<Strkey>) {
    r.due == None && depth < |r.actors| && r.actors[depth] == actor
  }

  lemma FollowOne(row: TraceRow, r: Reading)
    ensures AllFollow([row], r) <==> Follows(row, r)
    ensures AfterAll([row], r) == After(row, r)
  {
    assert [row][1..] == [];
  }

  lemma EventFollows(e: TraceEvent, owner: Option<Strkey>, guides: seq<bool>, last: bool, depth: nat, r: Reading)
    requires Ready(r, depth, owner)
    ensures var rows := EventRows(e, owner, guides, last, depth);
            AllFollow(rows, r) && Settles(r, AfterAll(rows, r), depth)
  {
    var rows := EventRows(e, owner, guides, last, depth);
    FollowOne(rows[0], r);
    if |rows| == 2 {
      FollowOne(rows[1], After(rows[0], r));
      assert rows == [rows[0]] + [rows[1]];
      FollowConcat([rows[0]], [rows[1]], r);
    } else {
      assert rows == [rows[0]];
    }
  }

  lemma {:induction false} CallFollows(call: TraceCall, caller: Option<Strkey>, guides: seq<bool>, last: bool,
                                       depth: nat, r: Reading)
    requires Ready(r, depth, caller)
    ensures var rows := CallRows(call, caller, guides, last, depth);
            AllFollow(rows, r) && Settles(r, AfterAll(rows, r), depth)
    decreases call, 1, 0
  {
    ChildrenAreOwn(call);
    var head := CallHead(call, caller, guides, last, depth);
    var below := ChildRows(call, Children(call), ChildGuides(guides, last, depth), depth + 1);
    ChildrenFollow(call, Children(call), ChildGuides(guides, last, depth), depth + 1, After(head, r));
    FollowOne(head, r);
    FollowConcat([head], below, r);
    Deeper(r, After(head, r), AfterAll(below, After(head, r)), depth);
  }

  lemma Deeper(r: Reading, r1: Reading, r2: Reading, depth: nat)
    requires depth < |r.actors| && depth + 1 < |r1.actors| && r1.actors[..depth + 1] == r.actors[..depth + 1]
    requires Settles(r1, r2, depth + 1)
    ensures Settles(r, r2, depth)
  {
    assert r2.actors[..depth + 1] == r2.actors[..depth + 2][..depth + 1];
    assert r1.actors[..depth + 1] == r1.actors[..depth + 2][..depth + 1];
  }

  lemma {:induction false} ChildrenFollow(parent: TraceCall, children: seq<Child>, guides: seq<bool>, depth: nat,
                                          r: Reading)
    requires forall c :: c in children && c.CallChild? ==> c.call in parent.calls
    requires Ready(r, depth, parent.contract)
    ensures var rows := ChildRows(parent, children, guides, depth);
            AllFollow(rows, r) && Settles(r, AfterAll(rows, r), depth)
    decreases parent, 0, |children|
  {
    if children == [] {
    } else {
      var last := |children| == 1;
      var first := OneChildRows(parent, children[0], guides, last, depth);
      assert children[0] in children;
      match children[0] {
        case EventChild(e) => EventFollows(e, parent.contract, guides, last, depth, r);
        case CallChild(k) => CallFollows(k, parent.contract, guides, last, depth, r);
      }
      var r1 := AfterAll(first, r);
      assert r1.actors[depth] == r1.actors[..depth + 1][depth] && r.actors[depth] == r.actors[..depth + 1][depth];
      ChildrenFollow(parent, children[1..], guides, depth, r1);
      FollowConcat(first, ChildRows(parent, children[1..], guides, depth), r);
    }
  }

  lemma {:induction false} TreesFollow(calls: seq<TraceCall>, invoker: Option<Strkey>, r: Reading)
    requires Ready(r, 0, invoker)
    ensures var rows := Flatten(calls, invoker); AllFollow(rows, r) && AfterAll(rows, r).due == None
  {
    if calls == [] {
    } else {
      var first := CallRows(calls[0], invoker, [], |calls| == 1, 0);
      CallFollows(calls[0], invoker, [], |calls| == 1, 0, r);
      var r1 := AfterAll(first, r);
      assert r1.actors[0] == r1.actors[..1][0] && r.actors[0] == r.actors[..1][0];
      TreesFollow(calls[1..], invoker, r1);
      FollowConcat(first, Flatten(calls[1..], invoker), r);
    }
  }

  // ---------- row by row ----------

  /** Row j is the call that row i hangs under: the last row above it that is less deep. */
  ghost predicate HangsUnder(rows: seq<TraceRow>, i: nat, j: nat) {
    && j < i < |rows| && rows[j].kind.CallRow? && rows[j].depth + 1 == rows[i].depth
    && forall k :: j < k < i ==> rows[k].depth >= rows[i].depth
  }

  /** The contract at work when row i happened. */
  ghost predicate AtWork(rows: seq<TraceRow>, i: nat, invoker: Option<Strkey>, actor: Option<Strkey>)
    requires i < |rows|
  {
    if rows[i].depth == 0 then actor == invoker
    else exists j: nat :: HangsUnder(rows, i, j) && actor == rows[j].kind.target
  }

  ghost predicate ActsRight(rows: seq<TraceRow>, i: nat, invoker: Option<Strkey>)
    requires i < |rows|
  {
    match rows[i].kind
    case CallRow(_, _, _, _) => AtWork(rows, i, invoker, rows[i].actor)
    case EventRow(e) =>
      && (if e.contract.Some? then rows[i].actor == e.contract else AtWork(rows, i, invoker, rows[i].actor))
      && (MovesTokens(e) <==> i + 1 < |rows| && rows[i + 1].kind == MoveRow(e))
    case MoveRow(e) =>
      i > 0 && rows[i - 1].kind == EventRow(e) && rows[i].depth == rows[i - 1].depth + 1 && rows[i].actor == None
  }

  /** Whoever acts at a depth is the last call one less deep, with nothing less deep after it. */
  ghost predicate Knows(rows: seq<TraceRow>, n: nat, r: Reading, invoker: Option<Strkey>)
    requires n <= |rows|
  {
    && r.actors != [] && r.actors[0] == invoker
    && (forall d: nat :: 0 < d < |r.actors| ==> LastActed(rows, n, d, r.actors[d]))
    && (r.due.Some? ==> n > 0 && rows[n - 1].kind == EventRow(r.due.value) && rows[n - 1].depth + 1 == |r.actors|)
    && (n > 0 && rows[n - 1].kind.EventRow? && MovesTokens(rows[n - 1].kind.event) ==> r.due.Some?)
  }

  ghost predicate LastActed(rows: seq<TraceRow>, n: nat, depth: nat, actor: Option<Strkey>)
    requires n <= |rows|
  {
    exists j: nat :: Acted(rows, n, depth, j) && actor == rows[j].kind.target
  }

  ghost predicate Acted(rows: seq<TraceRow>, n: nat, depth: nat, j: nat)
    requires n <= |rows|
  {
    && j < n && rows[j].kind.CallRow? && rows[j].depth + 1 == depth
    && forall k :: j < k < n ==> rows[k].depth >= depth
  }

  lemma KnowsMore(rows: seq<TraceRow>, n: nat, r: Reading, invoker: Option<Strkey>)
    requires n < |rows| && Knows(rows, n, r, invoker) && Follows(rows[n], r)
    ensures Knows(rows, n + 1, After(rows[n], r), invoker)
  {
    var row, r' := rows[n], After(rows[n], r);
    forall d: nat | 0 < d < |r'.actors| ensures LastActed(rows, n + 1, d, r'.actors[d]) {
      if row.kind.CallRow? && d == row.depth + 1 {
        assert Acted(rows, n + 1, d, n);
      } else {
        assert LastActed(rows, n, d, r.actors[d]);
        var j: nat :| Acted(rows, n, d, j) && r.actors[d] == rows[j].kind.target;
        assert Acted(rows, n + 1, d, j);
      }
    }
  }

  lemma RowActsRight(rows: seq<TraceRow>, n: nat, r: Reading, invoker: Option<Strkey>)
    requires n < |rows| && Knows(rows, n, r, invoker) && Follows(rows[n], r)
    requires AllFollow(rows[n + 1..], After(rows[n], r)) && AfterAll(rows[n + 1..], After(rows[n], r)).due == None
    ensures ActsRight(rows, n, invoker)
  {
    var row := rows[n];
    if !row.kind.MoveRow? && row.depth > 0 {
      assert LastActed(rows, n, row.depth, r.actors[row.depth]);
      var j: nat :| Acted(rows, n, row.depth, j) && r.actors[row.depth] == rows[j].kind.target;
      assert HangsUnder(rows, n, j);
    }
  }

  lemma {:induction false} RowsActRight(rows: seq<TraceRow>, n: nat, r: Reading, invoker: Option<Strkey>)
    requires n <= |rows| && Knows(rows, n, r, invoker)
    requires AllFollow(rows[n..], r) && AfterAll(rows[n..], r).due == None
    ensures forall i :: n <= i < |rows| ==> ActsRight(rows, i, invoker)
    decreases |rows| - n
  {
    if n >= |rows| {
    } else {
      assert rows[n..][1..] == rows[n + 1..];
      KnowsMore(rows, n, r, invoker);
      RowActsRight(rows, n, r, invoker);
      RowsActRight(rows, n + 1, After(rows[n], r), invoker);
    }
  }

  /** In the rows of any forest, every row has the right actor. */
  lemma FlattenActsRight(calls: seq<TraceCall>, invoker: Option<Strkey>)
    ensures var rows := Flatten(calls, invoker); forall i :: 0 <= i < |rows| ==> ActsRight(rows, i, invoker)
  {
    var rows, r := Flatten(calls, invoker), Reading([invoker], None);
    TreesFollow(calls, invoker, r);
    assert rows[0..] == rows;
    RowsActRight(rows, 0, r, invoker);
  }
}
