/**
 The call tree as rows: a call, then its events and sub-calls by sequence number,
 with the connector lines that redraw the nesting.
 */
module CallTree {
  import opened Wrappers
  import opened Display
  import opened TraceTypes
  import opened Sequences

  datatype RowKind =
    | CallRow(target: Option<Strkey>, fn: string, args: seq<Option<ScDisplay>>, result: Option<ScDisplay>)
    | EventRow(event: TraceEvent)
    | MoveRow(event: TraceEvent)

  /** guides[level] says whether the branch of that ancestor column continues below the row. */
  datatype TraceRow = TraceRow(depth: nat, guides: seq<bool>, lastSibling: bool, kind: RowKind, actor: Option<Strkey>)

  // ---------- a frame's children, put back into one order ----------

  datatype Child = EventChild(event: TraceEvent) | CallChild(call: TraceCall)

  function SeqOf(c: Child): nat {
    match c
    case EventChild(e) => e.seq_
    case CallChild(k) => k.seq_
  }

  function EventChildren(events: seq<TraceEvent>): seq<Child> {
    seq(|events|, i requires 0 <= i < |events| => EventChild(events[i]))
  }

  function CallChildren(calls: seq<TraceCall>): seq<Child> {
    seq(|calls|, i requires 0 <= i < |calls| => CallChild(calls[i]))
  }

  function Insert(c: Child, sorted: seq<Child>): seq<Child> {
    if sorted == [] || SeqOf(c) <= SeqOf(sorted[0]) then [c] + sorted
    else [sorted[0]] + Insert(c, sorted[1..])
  }

  /** A stable sort by sequence number. */
  function SortBySeq(children: seq<Child>): seq<Child> {
    if children == [] then [] else Insert(children[0], SortBySeq(children[1..]))
  }

  function Children(call: TraceCall): seq<Child> {
    SortBySeq(EventChildren(call.events) + CallChildren(call.calls))
  }

  lemma {:induction false} InsertMembers(c: Child, sorted: seq<Child>)
    ensures forall x :: x in Insert(c, sorted) <==> x == c || x in sorted
  {
    if sorted == [] || SeqOf(c) <= SeqOf(sorted[0]) {
    } else {
      InsertMembers(c, sorted[1..]);
      assert sorted == [sorted[0]] + sorted[1..];
    }
  }

  lemma {:induction false} SortMembers(children: seq<Child>)
    ensures forall x :: x in SortBySeq(children) <==> x in children
  {
    if children == [] {
    } else {
      SortMembers(children[1..]);
      InsertMembers(children[0], SortBySeq(children[1..]));
      assert children == [children[0]] + children[1..];
    }
  }

  /** Sorting loses no child, so the calls below a frame are its own sub-calls. */
  lemma ChildrenAreOwn(call: TraceCall)
    ensures forall c :: c in Children(call) && c.CallChild? ==> c.call in call.calls
    ensures forall e :: e in call.events ==> EventChild(e) in Children(call)
    ensures forall k :: k in call.calls ==> CallChild(k) in Children(call)
  {
    var all := EventChildren(call.events) + CallChildren(call.calls);
    SortMembers(all);
    forall e | e in call.events ensures EventChild(e) in all {
      var i :| 0 <= i < |call.events| && call.events[i] == e;
      assert all[i] == EventChild(e);
    }
    forall k | k in call.calls ensures CallChild(k) in all {
      var i :| 0 <= i < |call.calls| && call.calls[i] == k;
      assert all[|call.events| + i] == CallChild(k);
    }
  }

  // ---------- rows ----------

  function CallHead(call: TraceCall, caller: Option<Strkey>, guides: seq<bool>, last: bool, depth: nat): TraceRow {
    TraceRow(depth, guides, last, CallRow(call.contract, call.fn, call.args, call.result), caller)
  }

  /** Columns begin below the roots: a call under a root starts with none. */
  function ChildGuides(guides: seq<bool>, last: bool, depth: nat): seq<bool> {
    if depth == 0 then [] else guides + [!last]
  }

  /** An event's row, and under it a row for the tokens it moves, if any. */
  function EventRows(event: TraceEvent, owner: Option<Strkey>, guides: seq<bool>, last: bool, depth: nat)
    : seq<TraceRow>
  {
    [TraceRow(depth, guides, last, EventRow(event), if event.contract.Some? then event.contract else owner)]
    + if MovesTokens(event)
      then [TraceRow(depth + 1, if last then guides else guides + [true], true, MoveRow(event), None)]
      else []
  }

  function CallRows(call: TraceCall, caller: Option<Strkey>, guides: seq<bool>, last: bool, depth: nat): seq<TraceRow>
    decreases call, 1, 0
  {
    ChildrenAreOwn(call);
    [CallHead(call, caller, guides, last, depth)]
    + ChildRows(call, Children(call), ChildGuides(guides, last, depth), depth + 1)
  }

  function OneChildRows(parent: TraceCall, child: Child, guides: seq<bool>, last: bool, depth: nat): seq<TraceRow>
    requires child.CallChild? ==> child.call in parent.calls
    decreases parent, 0, 0
  {
    match child
    case EventChild(e) => EventRows(e, parent.contract, guides, last, depth)
    case CallChild(k) => CallRows(k, parent.contract, guides, last, depth)
  }

  /** The rows of the children still to come, the last of which is the last sibling. */
  function ChildRows(parent: TraceCall, children: seq<Child>, guides: seq<bool>, depth: nat): seq<TraceRow>
    requires forall c :: c in children && c.CallChild? ==> c.call in parent.calls
    decreases parent, 0, |children|
  {
    if children == [] then []
    else
      OneChildRows(parent, children[0], guides, |children| == 1, depth)
      + ChildRows(parent, children[1..], guides, depth)
  }

  /** The rows of a list of root calls. */
  function Flatten(calls: seq<TraceCall>, invoker: Option<Strkey>): seq<TraceRow> {
    if calls == [] then []
    else CallRows(calls[0], invoker, [], |calls| == 1, 0) + Flatten(calls[1..], invoker)
  }

  /** The rows of the children from a position on. */
  function RowsFrom(parent: TraceCall, children: seq<Child>, position: nat, guides: seq<bool>,
      depth: nat): seq<TraceRow>
    requires position <= |children| && forall c :: c in children && c.CallChild? ==> c.call in parent.calls
  {
    ChildRows(parent, children[position..], guides, depth)
  }

  lemma RowsFromSplits(parent: TraceCall, children: seq<Child>, position: nat, guides: seq<bool>, depth: nat)
    requires position < |children| && forall c :: c in children && c.CallChild? ==> c.call in parent.calls
    ensures RowsFrom(parent, children, position, guides, depth) ==
            OneChildRows(parent, children[position], guides, position == |children| - 1, depth)
            + RowsFrom(parent, children, position + 1, guides, depth)
  {
    assert children[position..][1..] == children[position + 1..];
  }

  /** flattenCall: the head row, then the rows of each child pushed in order. */
  method FlattenCall(call: TraceCall, caller: Option<Strkey>, guides: seq<bool>, last: bool, depth: nat)
    returns (rows: seq<TraceRow>)
    ensures rows == CallRows(call, caller, guides, last, depth)
    decreases call
  {
    rows := [CallHead(call, caller, guides, last, depth)];
    var childGuides := ChildGuides(guides, last, depth);
    var children := Children(call);
    ChildrenAreOwn(call);
    assert children[0..] == children;
    var position := 0;
    while position < |children|
      invariant 0 <= position <= |children|
      invariant rows + RowsFrom(call, children, position, childGuides, depth + 1) ==
          CallRows(call, caller, guides, last, depth)
    {
      var isLast := position == |children| - 1;
      var child := children[position];
      assert child in children;
      RowsFromSplits(call, children, position, childGuides, depth + 1);
      var more: seq<TraceRow>;
      match child {
        case EventChild(e) => more := EventRows(e, call.contract, childGuides, isLast, depth + 1);
        case CallChild(k) => more := FlattenCall(k, call.contract, childGuides, isLast, depth + 1);
      }
      ConcatIsAssociative(rows, more, RowsFrom(call, children, position + 1, childGuides, depth + 1));
      rows := rows + more;
      position := position + 1;
    }
  }

  lemma FlattenSplits(calls: seq<TraceCall>, invoker: Option<Strkey>, i: nat)
    requires i < |calls|
    ensures Flatten(calls[i..], invoker) ==
            CallRows(calls[i], invoker, [], i == |calls| - 1, 0) + Flatten(calls[i + 1..], invoker)
  {
    assert calls[i..][1..] == calls[i + 1..];
  }

  /** flatten: the rows of each root call, one after the other. */
  method FlattenTrace(calls: seq<TraceCall>, invoker: Option<Strkey>) returns (rows: seq<TraceRow>)
    ensures rows == Flatten(calls, invoker)
  {
    rows := [];
    var i := 0;
    while i < |calls|
      invariant 0 <= i <= |calls|
      invariant rows + Flatten(calls[i..], invoker) == Flatten(calls, invoker)
    {
      var more := FlattenCall(calls[i], invoker, [], i == |calls| - 1, 0);
      FlattenSplits(calls, invoker, i);
      ConcatIsAssociative(rows, more, Flatten(calls[i + 1..], invoker));
      rows := rows + more;
      i := i + 1;
    }
  }

  // ---------- lines and the rows they lead to ----------

  /**
   Whether, in the rows below, one at the given depth comes before any shallower one: a
   sibling there, which a line in that column would lead to.
   */
  predicate SiblingBelow(rows: seq<TraceRow>, depth: nat) {
    if rows == [] || rows[0].depth < depth then false
    else rows[0].depth == depth || SiblingBelow(rows[1..], depth)
  }

  lemma {:induction false} SiblingBelowMeans(rows: seq<TraceRow>, depth: nat)
    ensures SiblingBelow(rows, depth) <==>
            exists j :: 0 <= j < |rows| && rows[j].depth == depth && forall i :: 0 <= i < j ==> rows[i].depth > depth
  {
    if rows == [] || rows[0].depth <= depth {
    } else {
      SiblingBelowMeans(rows[1..], depth);
      if SiblingBelow(rows, depth) {
        var j :| && 0 <= j < |rows[1..]| && rows[1..][j].depth == depth
                 && forall i :: 0 <= i < j ==> rows[1..][i].depth > depth;
        assert rows[j + 1].depth == depth;
      }
      if j :| 0 <= j < |rows| && rows[j].depth == depth && forall i :: 0 <= i < j ==> rows[i].depth > depth {
        assert rows[1..][j - 1].depth == depth;
      }
    }
  }

  predicate Drawn(row: TraceRow, level: nat) {
    level < |row.guides| && row.guides[level]
  }

  /** Guides and stems agree with the rows below: drawn exactly when there is a sibling to reach. */
  ghost predicate LinesMatch(row: TraceRow, below: seq<TraceRow>) {
    && (row.lastSibling <==> !SiblingBelow(below, row.depth))
    && (forall level: nat :: level + 1 < row.depth ==> (Drawn(row, level) <==> SiblingBelow(below, level + 1)))
    && |row.guides| <= (if row.depth == 0 then 0 else row.depth - 1)
  }

  ghost predicate AllLinesMatch(rows: seq<TraceRow>, below: seq<TraceRow>) {
    rows == [] || (LinesMatch(rows[0], rows[1..] + below) && AllLinesMatch(rows[1..], below))
  }

  ghost predicate AllAtLeast(rows: seq<TraceRow>, depth: nat) {
    forall r :: r in rows ==> r.depth >= depth
  }

  lemma {:induction false} SkipDeeper(rows: seq<TraceRow>, below: seq<TraceRow>, depth: nat)
    requires AllAtLeast(rows, depth + 1)
    ensures SiblingBelow(rows + below, depth) == SiblingBelow(below, depth)
  {
    if rows == [] {
      assert rows + below == below;
    } else {
      assert rows[0] in rows;
      assert (rows + below)[1..] == rows[1..] + below;
      SkipDeeper(rows[1..], below, depth);
    }
  }

  lemma {:induction false} LinesConcat(a: seq<TraceRow>, b: seq<TraceRow>, below: seq<TraceRow>)
    requires AllLinesMatch(a, b + below) && AllLinesMatch(b, below)
    ensures AllLinesMatch(a + b, below)
  {
    if a == [] {
      assert a + b == b;
    } else {
      LinesConcat(a[1..], b, below);
      assert (a + b)[1..] == a[1..] + b;
      ConcatIsAssociative(a[1..], b, below);
    }
  }

  lemma {:induction false} CallRowsShape(call: TraceCall, caller: Option<Strkey>, guides: seq<bool>, last: bool,
      depth: nat)
    ensures var rows := CallRows(call, caller, guides, last, depth);
      && rows != [] && rows[0] == CallHead(call, caller, guides, last, depth)
      && AllAtLeast(rows, depth) && AllAtLeast(rows[1..], depth + 1)
    decreases call, 1, 0
  {
    ChildrenAreOwn(call);
    ChildRowsShape(call, Children(call), ChildGuides(guides, last, depth), depth + 1);
  }

  lemma {:induction false} OneChildShape(parent: TraceCall, child: Child, guides: seq<bool>, last: bool, depth: nat)
    requires child.CallChild? ==> child.call in parent.calls
    ensures var rows := OneChildRows(parent, child, guides, last, depth);
      rows != [] && rows[0].depth == depth && AllAtLeast(rows, depth)
    decreases parent, 0, 0
  {
    if child.CallChild? {
      CallRowsShape(child.call, parent.contract, guides, last, depth);
    }
  }

  lemma {:induction false} ChildRowsShape(parent: TraceCall, children: seq<Child>, guides: seq<bool>, depth: nat)
    requires forall c :: c in children && c.CallChild? ==> c.call in parent.calls
    ensures var rows := ChildRows(parent, children, guides, depth);
      && AllAtLeast(rows, depth)
      && (children == [] ==> rows == [])
      && (children != [] ==> rows != [] && rows[0].depth == depth)
    decreases parent, 0, |children|
  {
    if children == [] {
    } else {
      OneChildShape(parent, children[0], guides, |children| == 1, depth);
      ChildRowsShape(parent, children[1..], guides, depth);
    }
  }

  /** The columns to the left of a row agree with what lies below it. */
  ghost predicate ColumnsMatch(guides: seq<bool>, below: seq<TraceRow>, depth: nat) {
    && |guides| == (if depth == 0 then 0 else depth - 1)
    && forall level: nat :: level < |guides| ==> (guides[level] <==> SiblingBelow(below, level + 1))
  }

  ghost predicate EndsAbove(below: seq<TraceRow>, depth: nat) {
    below == [] || below[0].depth < depth
  }

  lemma {:induction false} EventLinesMatch(event: TraceEvent, owner: Option<Strkey>, guides: seq<bool>, last: bool,
      depth: nat, below: seq<TraceRow>)
    requires depth > 0 && ColumnsMatch(guides, below, depth) && EndsAbove(below, depth + 1)
    requires last <==> !SiblingBelow(below, depth)
    ensures AllLinesMatch(EventRows(event, owner, guides, last, depth), below)
  {
    var rows := EventRows(event, owner, guides, last, depth);
    if MovesTokens(event) {
      var move := rows[1];
      assert rows[1..] == [move] && [move][1..] == [];
      assert [] + below == below;
      assert LinesMatch(move, below);
      assert AllLinesMatch([move], below);
      forall level: nat | level <= depth ensures SiblingBelow([move] + below, level) == SiblingBelow(below, level) {
        SkipDeeper([move], below, level);
      }
      assert LinesMatch(rows[0], [move] + below);
    } else {
      assert rows[1..] == [] && [] + below == below;
    }
  }

  lemma {:induction false} CallLinesMatch(call: TraceCall, caller: Option<Strkey>, guides: seq<bool>, last: bool,
      depth: nat, below: seq<TraceRow>)
    requires ColumnsMatch(guides, below, depth) && EndsAbove(below, depth + 1)
    requires last <==> !SiblingBelow(below, depth)
    ensures AllLinesMatch(CallRows(call, caller, guides, last, depth), below)
    decreases call, 1, 0
  {
    ChildrenAreOwn(call);
    var columns := ChildGuides(guides, last, depth);
    var rows := ChildRows(call, Children(call), columns, depth + 1);
    ChildRowsShape(call, Children(call), columns, depth + 1);
    ChildLinesMatch(call, Children(call), columns, depth + 1, below);
    forall level: nat | level <= depth ensures SiblingBelow(rows + below, level) == SiblingBelow(below, level) {
      SkipDeeper(rows, below, level);
    }
    var head := CallHead(call, caller, guides, last, depth);
    assert LinesMatch(head, rows + below);
    assert ([head] + rows)[1..] == rows;
  }

  lemma {:induction false} ChildLinesMatch(parent: TraceCall, children: seq<Child>, guides: seq<bool>, depth: nat,
      below: seq<TraceRow>)
    requires forall c :: c in children && c.CallChild? ==> c.call in parent.calls
    requires depth > 0 && ColumnsMatch(guides, below, depth) && EndsAbove(below, depth)
    ensures AllLinesMatch(ChildRows(parent, children, guides, depth), below)
    decreases parent, 0, |children|
  {
    if children == [] {
    } else {
      var rest := ChildRows(parent, children[1..], guides, depth);
      var last := |children| == 1;
      ChildRowsShape(parent, children[1..], guides, depth);
      ChildLinesMatch(parent, children[1..], guides, depth, below);
      forall level: nat | level < depth ensures SiblingBelow(rest + below, level) == SiblingBelow(below, level) {
        SkipDeeper(rest, below, level);
      }
      if last {
        assert rest + below == below;
      } else {
        assert (rest + below)[0] == rest[0];
      }
      match children[0] {
        case EventChild(e) => EventLinesMatch(e, parent.contract, guides, last, depth, rest + below);
        case CallChild(k) => CallLinesMatch(k, parent.contract, guides, last, depth, rest + below);
      }
      LinesConcat(OneChildRows(parent, children[0], guides, last, depth), rest, below);
    }
  }

  /**
   For every call forest: a row's stem stops exactly when no sibling follows below it, and
   the line of an ancestor column is drawn beside it exactly when that column's branch has
   a row still to come.
   */
  lemma {:induction false} FlattenLinesMatch(calls: seq<TraceCall>, invoker: Option<Strkey>)
    ensures AllLinesMatch(Flatten(calls, invoker), [])
    ensures calls != [] ==> Flatten(calls, invoker) != [] && Flatten(calls, invoker)[0].depth == 0
  {
    if calls == [] {
    } else {
      var last := |calls| == 1;
      var head, rest := CallRows(calls[0], invoker, [], last, 0), Flatten(calls[1..], invoker);
      FlattenLinesMatch(calls[1..], invoker);
      CallRowsShape(calls[0], invoker, [], last, 0);
      assert rest + [] == rest;
      CallLinesMatch(calls[0], invoker, [], last, 0, rest);
      LinesConcat(head, rest, []);
    }
  }

  /** The same, row by row: what each position of the flattened list promises. */
  lemma {:induction false} LinesMatchAt(rows: seq<TraceRow>, i: nat)
    requires AllLinesMatch(rows, []) && i < |rows|
    ensures LinesMatch(rows[i], rows[i + 1..])
  {
    if i == 0 {
      assert rows[1..] + [] == rows[1..];
    } else {
      LinesMatchAt(rows[1..], i - 1);
      assert rows[1..][i..] == rows[i + 1..];
    }
  }
}
