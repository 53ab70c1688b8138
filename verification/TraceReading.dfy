/**
 Reading the finished forest: flattened into rows it lists the calls, and the contract
 events fired with a frame open, in stream order, each at the depth of the frames open
 when it happened.
 */
module TraceReading {
  import opened Wrappers
  import opened Display
  import opened TraceTypes
  import opened Trace
  import opened CallTree
  import opened Sequences

  // ---------- the forest a timeline stands for ----------

  lemma {:induction false} CallsAmongStay(t: seq<Item>, ks: seq<nat>, from: nat)
    requires forall i :: 0 <= i < |ks| ==> ks[i] >= from
    ensures forall i :: 0 <= i < |CallsAmong(t, ks)| ==> CallsAmong(t, ks)[i] >= from
  {
    if ks == [] {
    } else {
      CallsAmongStay(t, ks[..|ks| - 1], from);
    }
  }

  /** The tree of call k: what its node holds, with its sub-calls' trees. */
  function TreeOf(t: seq<Item>, k: nat): TraceCall
    requires IsCall(t, k)
    decreases |t| - k
  {
    var c := t[k].content;
    var cs := CallsAmong(t, ChildrenOf(t, k));
    CallsAmongStay(t, ChildrenOf(t, k), k + 1);
    TraceCall(c.contract, c.fn, c.args, c.result, EventsAmong(t, ChildrenOf(t, k)),
              seq(|cs|, i requires 0 <= i < |cs| => TreeOf(t, cs[i])), k)
  }

  function TreesOf(t: seq<Item>, cs: seq<nat>): seq<TraceCall>
    requires forall i :: 0 <= i < |cs| ==> IsCall(t, cs[i])
  {
    seq(|cs|, i requires 0 <= i < |cs| => TreeOf(t, cs[i]))
  }

  /** The root calls' trees. TraceObjects shows that the objects of a walk hold just these. */
  function ForestOf(t: seq<Item>): seq<TraceCall> {
    TreesOf(t, CallsAmong(t, Roots(t)))
  }

  // ---------- sorting a frame's children puts them back in order ----------

  function ChildAt(t: seq<Item>, k: nat): Child
    requires k < |t|
  {
    if IsCall(t, k) then CallChild(TreeOf(t, k)) else EventChild(EventAt(t, k))
  }

  function ChildrenAt(t: seq<Item>, ks: seq<nat>): seq<Child>
    requires forall i :: 0 <= i < |ks| ==> ks[i] < |t|
  {
    seq(|ks|, i requires 0 <= i < |ks| => ChildAt(t, ks[i]))
  }

  ghost predicate AllBefore(children: seq<Child>, last: nat) {
    forall i :: 0 <= i < |children| ==> SeqOf(children[i]) < last
  }

  lemma {:induction false} InsertBeforeMax(c: Child, sorted: seq<Child>, m: Child)
    requires SeqOf(c) < SeqOf(m)
    ensures Insert(c, sorted + [m]) == Insert(c, sorted) + [m]
  {
    if sorted == [] || SeqOf(c) <= SeqOf(sorted[0]) {
    } else {
      InsertBeforeMax(c, sorted[1..], m);
      assert (sorted + [m])[1..] == sorted[1..] + [m];
    }
  }

  lemma {:induction false} InsertMax(m: Child, sorted: seq<Child>)
    requires forall x :: x in sorted ==> SeqOf(x) < SeqOf(m)
    ensures Insert(m, sorted) == sorted + [m]
  {
    if sorted == [] {
    } else {
      assert sorted[0] in sorted;
      InsertMax(m, sorted[1..]);
      assert sorted == [sorted[0]] + sorted[1..];
    }
  }

  /** The child that happened last comes last, wherever it stood. */
  lemma {:induction false} SortWithMax(a: seq<Child>, m: Child, b: seq<Child>)
    requires AllBefore(a, SeqOf(m)) && AllBefore(b, SeqOf(m))
    ensures SortBySeq(a + [m] + b) == SortBySeq(a + b) + [m]
  {
    if a == [] {
      assert ([m] + b)[1..] == b && a + b == b && a + [m] + b == [m] + b;
      SortMembers(b);
      InsertMax(m, SortBySeq(b));
    } else {
      SortWithMax(a[1..], m, b);
      assert (a + [m] + b)[1..] == a[1..] + [m] + b && (a + b)[1..] == a[1..] + b;
      InsertBeforeMax(a[0], SortBySeq(a[1..] + b), m);
    }
  }

  ghost predicate Ascending(ks: seq<nat>) {
    forall i, j :: 0 <= i < j < |ks| ==> ks[i] < ks[j]
  }

  lemma {:induction false} GatherAscends(t: seq<Item>, from: nat, level: nat)
    ensures Ascending(Gather(t, from, level))
    decreases |t| - from
  {
    if from >= |t| || t[from].depth < level {
    } else {
      GatherAscends(t, from + 1, level);
    }
  }

  /** The two child lists of a frame, with one more item among its children. */
  lemma ListsSnoc(t: seq<Item>, ks: seq<nat>)
    requires ks != [] && forall i :: 0 <= i < |ks| ==> ks[i] < |t|
    ensures var init, k := ks[..|ks| - 1], ks[|ks| - 1];
      && EventChildren(EventsAmong(t, ks)) ==
         EventChildren(EventsAmong(t, init)) + (if IsCall(t, k) then [] else [ChildAt(t, k)])
      && CallChildren(TreesOf(t, CallsAmong(t, ks))) ==
         CallChildren(TreesOf(t, CallsAmong(t, init))) + (if IsCall(t, k) then [ChildAt(t, k)] else [])
  {
  }

  lemma {:induction false} AmongBelow(t: seq<Item>, ks: seq<nat>, last: nat)
    requires forall i :: 0 <= i < |ks| ==> ks[i] < |t| && ks[i] < last
    ensures AllBefore(EventChildren(EventsAmong(t, ks)), last)
    ensures AllBefore(CallChildren(TreesOf(t, CallsAmong(t, ks))), last)
  {
    if ks == [] {
    } else {
      AmongBelow(t, ks[..|ks| - 1], last);
      ListsSnoc(t, ks);
    }
  }

  lemma SortLastCall(events: seq<Child>, calls: seq<Child>, m: Child)
    requires AllBefore(events, SeqOf(m)) && AllBefore(calls, SeqOf(m))
    ensures SortBySeq(events + (calls + [m])) == SortBySeq(events + calls) + [m]
  {
    SortWithMax(events + calls, m, []);
    assert events + (calls + [m]) == events + calls + [m] + [] && events + calls + [] == events + calls;
  }

  lemma {:induction false} SortedAgain(t: seq<Item>, ks: seq<nat>)
    requires Ascending(ks) && forall i :: 0 <= i < |ks| ==> ks[i] < |t|
    ensures SortBySeq(EventChildren(EventsAmong(t, ks)) + CallChildren(TreesOf(t, CallsAmong(t, ks)))) ==
        ChildrenAt(t, ks)
  {
    if ks == [] {
    } else {
      var init, k := ks[..|ks| - 1], ks[|ks| - 1];
      SortedAgain(t, init);
      AmongBelow(t, init, k);
      ListsSnoc(t, ks);
      SortLast(EventChildren(EventsAmong(t, init)), CallChildren(TreesOf(t, CallsAmong(t, init))), ChildAt(t, k));
      ChildrenSnoc(t, ks);
    }
  }

  /** The newest child of all sorts last, whichever list it is in. */
  lemma SortLast(events: seq<Child>, calls: seq<Child>, m: Child)
    requires AllBefore(events, SeqOf(m)) && AllBefore(calls, SeqOf(m))
    ensures SortBySeq(events + (if m.CallChild? then [] else [m]) + (calls + if m.CallChild? then [m] else []))
         == SortBySeq(events + calls) + [m]
  {
    assert events + [] == events && calls + [] == calls;
    if m.CallChild? {
      SortLastCall(events, calls, m);
    } else {
      SortWithMax(events, m, calls);
    }
  }

  lemma ChildrenSnoc(t: seq<Item>, ks: seq<nat>)
    requires ks != [] && forall i :: 0 <= i < |ks| ==> ks[i] < |t|
    ensures ChildrenAt(t, ks) == ChildrenAt(t, ks[..|ks| - 1]) + [ChildAt(t, ks[|ks| - 1])]
  {
  }

  lemma ChildrenInOrder(t: seq<Item>, k: nat)
    requires IsCall(t, k)
    ensures Children(TreeOf(t, k)) == ChildrenAt(t, ChildrenOf(t, k))
  {
    GatherAscends(t, k + 1, t[k].depth + 1);
    SortedAgain(t, ChildrenOf(t, k));
    assert TreeOf(t, k).calls == TreesOf(t, CallsAmong(t, ChildrenOf(t, k)));
  }

  // ---------- the rows, read back ----------

  /** The item a row shows; a movement's row is only its event's annotation. */
  function ReadRow(row: TraceRow): seq<Item> {
    match row.kind
    case CallRow(target, fn, args, result) => [Item(row.depth, Called(target, fn, args, result))]
    case EventRow(e) => [Item(row.depth, Raised(e.contract, e.topics, e.data))]
    case MoveRow(_) => []
  }

  function ReadRows(rows: seq<TraceRow>): seq<Item> {
    if rows == [] then [] else ReadRow(rows[0]) + ReadRows(rows[1..])
  }

  lemma {:induction false} ReadConcat(a: seq<TraceRow>, b: seq<TraceRow>)
    ensures ReadRows(a + b) == ReadRows(a) + ReadRows(b)
  {
    if a == [] {
      assert a + b == b;
    } else {
      ReadConcat(a[1..], b);
      assert (a + b)[1..] == a[1..] + b;
      ConcatIsAssociative(ReadRow(a[0]), ReadRows(a[1..]), ReadRows(b));
    }
  }

  lemma ReadOne(row: TraceRow)
    ensures ReadRows([row]) == ReadRow(row)
  {
    assert ReadRows([row][1..]) == [];
  }

  /** Where a level is left, from a position on. */
  function LevelEnd(t: seq<Item>, from: nat, level: nat): (end: nat)
    requires from <= |t|
    ensures from <= end <= |t|
    decreases |t| - from
  {
    if from == |t| || t[from].depth < level then from else LevelEnd(t, from + 1, level)
  }

  /** Only a call makes the level rise, and then by one. */
  ghost predicate Disciplined(t: seq<Item>) {
    && (t != [] ==> t[0].depth == 0)
    && forall i :: 0 <= i < |t| - 1 ==> t[i + 1].depth <= t[i].depth + if t[i].content.Called? then 1 else 0
  }

  lemma {:induction false} GatherSkips(t: seq<Item>, from: nat, level: nat)
    requires from <= |t|
    ensures Gather(t, from, level) == Gather(t, LevelEnd(t, from, level + 1), level)
    decreases |t| - from
  {
    if from >= |t| || t[from].depth <= level {
    } else {
      GatherSkips(t, from + 1, level);
    }
  }

  lemma {:induction false} LevelEndStops(t: seq<Item>, from: nat, level: nat)
    requires from <= |t|
    ensures LevelEnd(t, from, level) < |t| ==> t[LevelEnd(t, from, level)].depth < level
    ensures LevelEnd(t, LevelEnd(t, from, level + 1), level) == LevelEnd(t, from, level)
    decreases |t| - from
  {
    if from >= |t| || t[from].depth < level {
    } else {
      LevelEndStops(t, from + 1, level);
    }
  }

  lemma StretchJoins(t: seq<Item>, a: nat, b: nat, c: nat)
    requires a <= b <= c <= |t|
    ensures t[a..b] + t[b..c] == t[a..c]
    ensures a < |t| && b == a + 1 ==> t[a..b] == [t[a]]
  {
  }

  lemma ReadEvent(t: seq<Item>, k: nat, owner: Option<Strkey>, guides: seq<bool>, last: bool)
    requires k < |t| && t[k].content.Raised?
    ensures ReadRows(EventRows(EventAt(t, k), owner, guides, last, t[k].depth)) == [t[k]]
  {
    var rows := EventRows(EventAt(t, k), owner, guides, last, t[k].depth);
    ReadOne(rows[0]);
    if |rows| == 2 {
      ReadOne(rows[1]);
      assert rows == [rows[0]] + [rows[1]];
      ReadConcat([rows[0]], [rows[1]]);
    } else {
      assert rows == [rows[0]];
    }
  }

  lemma ChildrenAreSubcalls(t: seq<Item>, k: nat)
    requires IsCall(t, k)
    ensures Children(TreeOf(t, k)) == ChildrenAt(t, ChildrenOf(t, k))
    ensures forall c :: c in ChildrenAt(t, ChildrenOf(t, k)) && c.CallChild? ==> c.call in TreeOf(t, k).calls
  {
    ChildrenInOrder(t, k);
    ChildrenAreOwn(TreeOf(t, k));
  }

  /** A call's rows: its own, then those of the items found below it. */
  lemma CallRowsOf(t: seq<Item>, k: nat, caller: Option<Strkey>, guides: seq<bool>, last: bool)
    requires IsCall(t, k)
    ensures var call, ks, d := TreeOf(t, k), ChildrenOf(t, k), t[k].depth;
      && (forall c :: c in ChildrenAt(t, ks) && c.CallChild? ==> c.call in call.calls)
      && CallRows(call, caller, guides, last, d) ==
         [CallHead(call, caller, guides, last, d)]
         + ChildRows(call, ChildrenAt(t, ks), ChildGuides(guides, last, d), d + 1)
  {
    ChildrenAreSubcalls(t, k);
  }

  lemma ReadHead(t: seq<Item>, k: nat, caller: Option<Strkey>, guides: seq<bool>, last: bool)
    requires IsCall(t, k)
    ensures ReadRows([CallHead(TreeOf(t, k), caller, guides, last, t[k].depth)]) == [t[k]]
  {
    ReadOne(CallHead(TreeOf(t, k), caller, guides, last, t[k].depth));
  }

  lemma JoinCallRows(t: seq<Item>, k: nat, end: nat, head: TraceRow, below: seq<TraceRow>)
    requires k < end <= |t| && ReadRows([head]) == [t[k]] && ReadRows(below) == t[k + 1..end]
    ensures ReadRows([head] + below) == t[k..end]
  {
    ReadConcat([head], below);
    StretchJoins(t, k, k + 1, end);
  }

  lemma {:induction false} ReadCall(t: seq<Item>, k: nat, caller: Option<Strkey>, guides: seq<bool>, last: bool)
    requires Disciplined(t) && IsCall(t, k)
    ensures ReadRows(CallRows(TreeOf(t, k), caller, guides, last, t[k].depth)) ==
        t[k..LevelEnd(t, k + 1, t[k].depth + 1)]
    decreases |t| - k, 1
  {
    var call, end := TreeOf(t, k), LevelEnd(t, k + 1, t[k].depth + 1);
    var columns := ChildGuides(guides, last, t[k].depth);
    CallRowsOf(t, k, caller, guides, last);
    ReadBelow(t, k, columns);
    ReadHead(t, k, caller, guides, last);
    JoinCallRows(t, k, end, CallHead(call, caller, guides, last, t[k].depth),
                 ChildRows(call, ChildrenAt(t, ChildrenOf(t, k)), columns, t[k].depth + 1));
  }

  /** The rows under a call's own. */
  lemma {:induction false} ReadBelow(t: seq<Item>, k: nat, guides: seq<bool>)
    requires Disciplined(t) && IsCall(t, k)
    ensures forall c :: c in ChildrenAt(t, ChildrenOf(t, k)) && c.CallChild? ==> c.call in TreeOf(t, k).calls
    ensures ReadRows(ChildRows(TreeOf(t, k), ChildrenAt(t, ChildrenOf(t, k)), guides, t[k].depth + 1))
         == t[k + 1..LevelEnd(t, k + 1, t[k].depth + 1)]
    decreases |t| - k, 0
  {
    ChildrenAreSubcalls(t, k);
    ReadChildren(t, TreeOf(t, k), k + 1, t[k].depth + 1, guides);
  }

  /** Where the next child of the same level begins. */
  function NextSibling(t: seq<Item>, k: nat): (next: nat)
    requires k < |t|
    ensures k < next <= |t|
  {
    if IsCall(t, k) then LevelEnd(t, k + 1, t[k].depth + 1) else k + 1
  }

  lemma NextSiblingKeepsLevel(t: seq<Item>, k: nat)
    requires Disciplined(t) && k < |t|
    ensures var next, level := NextSibling(t, k), t[k].depth;
      && (next < |t| ==> t[next].depth <= level)
      && LevelEnd(t, next, level) == LevelEnd(t, k, level)
      && Gather(t, k, level) == [k] + Gather(t, next, level)
  {
    var level := t[k].depth;
    if IsCall(t, k) {
      GatherSkips(t, k + 1, level);
      LevelEndStops(t, k + 1, level + 1);
      LevelEndStops(t, k + 1, level);
    }
  }

  lemma ReadOneChild(t: seq<Item>, k: nat, parent: TraceCall, guides: seq<bool>, last: bool)
    requires Disciplined(t) && k < |t|
    requires IsCall(t, k) ==> TreeOf(t, k) in parent.calls
    ensures ReadRows(OneChildRows(parent, ChildAt(t, k), guides, last, t[k].depth)) == t[k..NextSibling(t, k)]
    decreases |t| - k, 2
  {
    if IsCall(t, k) {
      ReadCall(t, k, parent.contract, guides, last);
    } else {
      ReadEvent(t, k, parent.contract, guides, last);
    }
  }

  lemma ChildrenCons(t: seq<Item>, k: nat, ks: seq<nat>)
    requires k < |t| && forall i :: 0 <= i < |ks| ==> ks[i] < |t|
    ensures var all := ChildrenAt(t, [k] + ks);
      && all == [ChildAt(t, k)] + ChildrenAt(t, ks) && all[0] in all
      && forall c :: c in ChildrenAt(t, ks) ==> c in all
  {
  }

  /** The rows of the children found from a position on read back as the stretch up to the level's end. */
  lemma {:induction false} ReadChildren(t: seq<Item>, parent: TraceCall, from: nat, level: nat, guides: seq<bool>)
    requires Disciplined(t) && from <= |t| && (from < |t| ==> t[from].depth <= level)
    requires forall c :: c in ChildrenAt(t, Gather(t, from, level)) && c.CallChild? ==> c.call in parent.calls
    ensures ReadRows(ChildRows(parent, ChildrenAt(t, Gather(t, from, level)), guides, level)) ==
        t[from..LevelEnd(t, from, level)]
    decreases |t| - from, 3
  {
    if from >= |t| || t[from].depth != level {
    } else {
      var next := NextSibling(t, from);
      NextSiblingKeepsLevel(t, from);
      var children := ChildrenAt(t, Gather(t, from, level));
      var rest := ChildrenAt(t, Gather(t, next, level));
      ChildrenCons(t, from, Gather(t, next, level));
      var last := |children| == 1;
      ReadOneChild(t, from, parent, guides, last);
      ReadChildren(t, parent, next, level, guides);
      assert children[1..] == rest;
      ReadConcat(OneChildRows(parent, children[0], guides, last, level), ChildRows(parent, rest, guides, level));
      StretchJoins(t, from, next, LevelEnd(t, next, level));
    }
  }

  // ---------- the whole forest ----------

  /** What a trace tree has a place for: every call, and every event fired with a frame open. */
  function Framed(t: seq<Item>): seq<Item> {
    if t == [] then []
    else (if t[0].depth > 0 || t[0].content.Called? then [t[0]] else []) + Framed(t[1..])
  }

  lemma {:induction false} FramedConcat(a: seq<Item>, b: seq<Item>)
    ensures Framed(a + b) == Framed(a) + Framed(b)
  {
    if a == [] {
      assert a + b == b;
    } else {
      FramedConcat(a[1..], b);
      assert (a + b)[1..] == a[1..] + b;
      ConcatIsAssociative(Framed([a[0]]), Framed(a[1..]), Framed(b));
      assert Framed([a[0]]) == (if a[0].depth > 0 || a[0].content.Called? then [a[0]] else []) by {
        assert [a[0]][1..] == [];
      }
    }
  }

  lemma {:induction false} FramedWhole(t: seq<Item>)
    requires forall i :: 0 <= i < |t| ==> t[i].depth > 0 || t[i].content.Called?
    ensures Framed(t) == t
  {
    if t == [] {
    } else {
      FramedWhole(t[1..]);
    }
  }

  lemma {:induction false} LevelHolds(t: seq<Item>, from: nat, level: nat, i: nat)
    requires from <= |t| && from <= i < LevelEnd(t, from, level)
    ensures t[i].depth >= level
    decreases |t| - from
  {
    if i <= from {
    } else {
      LevelHolds(t, from + 1, level, i);
    }
  }

  lemma {:induction false} CallsAmongCons(t: seq<Item>, k: nat, ks: seq<nat>)
    ensures CallsAmong(t, [k] + ks) == (if IsCall(t, k) then [k] else []) + CallsAmong(t, ks)
  {
    var all := [k] + ks;
    if ks == [] {
      assert all[..|all| - 1] == [];
    } else {
      CallsAmongCons(t, k, ks[..|ks| - 1]);
      assert all[..|all| - 1] == [k] + ks[..|ks| - 1];
    }
  }

  /** The trees of one level's items: the first one's, if it is a call, then the others'. */
  lemma LevelCons(t: seq<Item>, from: nat)
    requires Disciplined(t) && from < |t|
    ensures var level := t[from].depth;
      var trees := TreesOf(t, CallsAmong(t, Gather(t, from, level)));
      var rest := TreesOf(t, CallsAmong(t, Gather(t, NextSibling(t, from), level)));
      trees == if IsCall(t, from) then [TreeOf(t, from)] + rest else rest
  {
    var others := Gather(t, NextSibling(t, from), t[from].depth);
    NextSiblingKeepsLevel(t, from);
    CallsAmongCons(t, from, others);
    if IsCall(t, from) {
      TreesCons(t, from, CallsAmong(t, others));
    } else {
      assert [] + CallsAmong(t, others) == CallsAmong(t, others);
    }
  }

  lemma TreesCons(t: seq<Item>, k: nat, cs: seq<nat>)
    requires IsCall(t, k) && forall i :: 0 <= i < |cs| ==> IsCall(t, cs[i])
    ensures TreesOf(t, [k] + cs) == [TreeOf(t, k)] + TreesOf(t, cs)
  {
  }

  /** The first root item's whole stretch belongs in the tree, unless it is a loose event. */
  lemma FramedRoot(t: seq<Item>, k: nat)
    requires k < |t| && t[k].depth == 0
    ensures var stretch := t[k..NextSibling(t, k)]; Framed(stretch) == if IsCall(t, k) then stretch else []
  {
    var stretch := t[k..NextSibling(t, k)];
    if IsCall(t, k) {
      forall i | 0 < i < |stretch| ensures stretch[i].depth > 0 { LevelHolds(t, k + 1, 1, k + i); }
      FramedWhole(stretch);
    } else {
      assert stretch[1..] == [];
    }
  }

  lemma FramedFrom(t: seq<Item>, k: nat)
    requires k < |t| && t[k].depth == 0
    ensures Framed(t[k..]) ==
            (if IsCall(t, k) then t[k..NextSibling(t, k)] else []) + Framed(t[NextSibling(t, k)..])
  {
    var next := NextSibling(t, k);
    assert t[k..] == t[k..next] + t[next..];
    FramedConcat(t[k..next], t[next..]);
    FramedRoot(t, k);
    assert [] + Framed(t[next..]) == Framed(t[next..]);
  }

  lemma FlattenCons(t: seq<Item>, k: nat, rest: seq<TraceCall>, invoker: Option<Strkey>)
    requires Disciplined(t) && IsCall(t, k) && t[k].depth == 0
    ensures ReadRows(Flatten([TreeOf(t, k)] + rest, invoker)) ==
        t[k..NextSibling(t, k)] + ReadRows(Flatten(rest, invoker))
  {
    var trees := [TreeOf(t, k)] + rest;
    assert trees[0] == TreeOf(t, k) && trees[1..] == rest;
    ReadCall(t, k, invoker, [], |trees| == 1);
    ReadConcat(CallRows(trees[0], invoker, [], |trees| == 1, 0), Flatten(rest, invoker));
  }

  lemma {:induction false} ReadForestFrom(t: seq<Item>, from: nat, invoker: Option<Strkey>)
    requires Disciplined(t) && from <= |t| && (from < |t| ==> t[from].depth == 0)
    ensures ReadRows(Flatten(TreesOf(t, CallsAmong(t, Gather(t, from, 0))), invoker)) == Framed(t[from..])
    decreases |t| - from
  {
    if from >= |t| {
    } else {
      var next := NextSibling(t, from);
      NextSiblingKeepsLevel(t, from);
      ReadForestFrom(t, next, invoker);
      LevelCons(t, from);
      FramedFrom(t, from);
      if IsCall(t, from) {
        FlattenCons(t, from, TreesOf(t, CallsAmong(t, Gather(t, next, 0))), invoker);
      }
    }
  }

  /** How high the next item may lie after the last one. */
  function Reach(t: seq<Item>): nat {
    if t == [] then 0 else t[|t| - 1].depth + if t[|t| - 1].content.Called? then 1 else 0
  }

  lemma DisciplinedSnoc(t: seq<Item>, x: Item)
    requires Disciplined(t) && x.depth <= Reach(t)
    ensures Disciplined(t + [x])
  {
  }

  lemma LeaveKeepsShape(s: seq<Signal>, e: Signal)
    requires e.Leave?
    ensures |Timeline(s + [e])| == |Timeline(s)|
    ensures forall k :: 0 <= k < |Timeline(s)| ==>
              && Timeline(s + [e])[k].depth == Timeline(s)[k].depth
              && Timeline(s + [e])[k].content.Called? == Timeline(s)[k].content.Called?
  {
    StreamSnoc(s, e);
    forall k | 0 <= k < |Positions(s)|
      ensures ItemAt(s + [e], Positions(s)[k]) ==
              Item(ItemAt(s, Positions(s)[k]).depth,
                   ContentOf(s[Positions(s)[k]], ResultOf(StepScan(Scan(s, Positions(s)[k] + 1, 0), e))))
    {
      ItemSnoc(s, e, Positions(s)[k]);
    }
  }

  lemma DisciplineStep(s: seq<Signal>, e: Signal)
    requires Disciplined(Timeline(s)) && OpenCount(s) <= Reach(Timeline(s))
    ensures Disciplined(Timeline(s + [e])) && OpenCount(s + [e]) <= Reach(Timeline(s + [e]))
  {
    StreamSnoc(s, e);
    if e.Leave? {
      LeaveKeepsShape(s, e);
    } else {
      TimelinePassing(s, e);
      if e.Enter? || e.Raise? {
        DisciplinedSnoc(Timeline(s), Item(OpenCount(s), ContentOf(e, None)));
      }
    }
  }

  /** Any stream's timeline is disciplined: depth grows only through calls, one frame at a time. */
  lemma {:induction false} TimelineIsDisciplined(s: seq<Signal>)
    ensures Disciplined(Timeline(s)) && OpenCount(s) <= Reach(Timeline(s))
  {
    if s == [] {
    } else {
      TimelineIsDisciplined(s[..|s| - 1]);
      DisciplineStep(s[..|s| - 1], s[|s| - 1]);
      assert s == s[..|s| - 1] + [s[|s| - 1]];
    }
  }

  /**
   For every stream, balanced or not, within the caps or cut at them: the flattened forest,
   read top to bottom, is the stream's calls and framed events in stream order, each at the
   depth of the frames open when it happened and each call with its own return's value.
   */
  lemma TraceReadsInStreamOrder(stream: seq<RawEvent>, invoker: Option<Strkey>)
    ensures ReadRows(Flatten(ForestOf(Timeline(Walked(stream))), invoker)) == Framed(Timeline(Walked(stream)))
  {
    var t := Timeline(Walked(stream));
    TimelineIsDisciplined(Walked(stream));
    ReadForestFrom(t, 0, invoker);
    assert t[0..] == t;
  }
}
