/** The objects a walk leaves on the heap, read as the tree, the rows and the count shown to a user. */
module TraceObjects {
  import opened Wrappers
  import opened Display
  import opened TraceTypes
  import opened Trace
  import opened CallTree
  import opened TraceReading
  import opened TraceCount
  import opened CallActors
  import opened TraceStories

  /** A node's own fields, and below it one node of the walk a sub-call, hold this tree. */
  ghost predicate Holds(nodes: set<CallNode>, n: CallNode, tree: TraceCall)
    requires n in nodes
    reads nodes
    decreases tree
  {
    && n.contract == tree.contract && n.fn == tree.fn && n.args == tree.args && n.seq_ == tree.seq_
    && n.result == tree.result && n.events == tree.events && |n.calls| == |tree.calls|
    && forall i :: 0 <= i < |n.calls| ==> n.calls[i] in nodes && Holds(nodes, n.calls[i], tree.calls[i])
  }

  ghost predicate HoldsAll(nodes: set<CallNode>, ns: seq<CallNode>, trees: seq<TraceCall>)
    reads nodes
  {
    |ns| == |trees| && forall i :: 0 <= i < |ns| ==> ns[i] in nodes && Holds(nodes, ns[i], trees[i])
  }

  ghost function Objects(nodes: seq<CallNode?>): set<CallNode> {
    set n: CallNode | n in nodes
  }

  /** Every object of a walk holds the tree its call stands for. */
  lemma {:induction false} NodeHolds(nodes: seq<CallNode?>, t: seq<Item>, k: nat)
    requires Represents(nodes, t) && IsCall(t, k)
    ensures nodes[k] != null && Holds(Objects(nodes), nodes[k], TreeOf(t, k))
    decreases |t| - k
  {
    var cs := CallsAmong(t, ChildrenOf(t, k));
    CallsAmongStay(t, ChildrenOf(t, k), k + 1);
    assert ValueOf(nodes[k]) == Expected(nodes, t, k);
    forall i | 0 <= i < |cs|
      ensures nodes[cs[i]] != null && Holds(Objects(nodes), nodes[cs[i]], TreeOf(t, cs[i]))
    {
      NodeHolds(nodes, t, cs[i]);
    }
  }

  /** The root list of a walk holds the forest of its timeline. */
  lemma RootsHoldForest(nodes: seq<CallNode?>, t: seq<Item>, roots: seq<CallNode>)
    requires Represents(nodes, t) && roots == NodesAt(nodes, CallsAmong(t, Roots(t)))
    ensures HoldsAll(Objects(nodes), roots, ForestOf(t))
  {
    var cs := CallsAmong(t, Roots(t));
    forall i | 0 <= i < |cs| ensures roots[i] in Objects(nodes) && Holds(Objects(nodes), roots[i], TreeOf(t, cs[i])) {
      NodeHolds(nodes, t, cs[i]);
      assert roots[i] == nodes[cs[i]];
    }
  }

  /** Reads an object and all below it. */
  method ReadNode(n: CallNode, ghost nodes: set<CallNode>, ghost tree: TraceCall) returns (call: TraceCall)
    requires n in nodes && Holds(nodes, n, tree)
    ensures call == tree
    decreases tree
  {
    var calls := ReadNodes(n.calls, nodes, tree.calls);
    call := TraceCall(n.contract, n.fn, n.args, n.result, n.events, calls, n.seq_);
  }

  method ReadNodes(ns: seq<CallNode>, ghost nodes: set<CallNode>, ghost trees: seq<TraceCall>)
    returns (calls: seq<TraceCall>)
    requires HoldsAll(nodes, ns, trees)
    ensures calls == trees
    decreases trees
  {
    calls := [];
    var i := 0;
    while i < |ns|
      invariant 0 <= i <= |ns| && calls == trees[..i]
    {
      var call := ReadNode(ns[i], nodes, trees[i]);
      calls := calls + [call];
      i := i + 1;
    }
  }

  /**
   From the stream to the screen. Whatever the stream holds, balanced or not, within the
   caps or cut at them: the rows made from the walk's own objects, read top to bottom, are
   the walked calls and framed events in stream order, each at the depth of the frames open
   when it happened and each call with its own return's value; every connector line has a
   row to lead to; every row has its actor; and the count shown is the number of calls
   walked. A stream that was written by running calls, within the caps, tells just these.
   */
  method ShowTrace(stream: seq<RawEvent>, invoker: Option<Strkey>)
    returns (rows: seq<TraceRow>, count: nat, loose: seq<TraceEvent>, metrics: map<string, Shown>, truncated: bool)
    ensures forall steps :: stream == WrittenAll(steps) && AllProper(steps) ==> (truncated <==> !Modest(steps))
    ensures forall steps :: stream == WrittenAll(steps) && Modest(steps) ==>
              && count == CallCounts(steps)
              && ReadRows(rows) == Story(steps)
              && ContentsOf(loose) == Loose(steps)
              && metrics == AllCounters(map[], steps)
    ensures forall i :: 0 <= i < |rows| ==> ActsRight(rows, i, invoker)
    ensures ReadRows(rows) == Framed(Timeline(Walked(stream)))
    ensures AllLinesMatch(rows, [])
    ensures count == Calls(Walked(stream)) <= 500
    ensures loose == EventsAmong(Timeline(Walked(stream)), Roots(Timeline(Walked(stream))))
    ensures truncated <==> |Walked(stream)| < |stream|
  {
    var roots;
    ghost var nodes;
    roots, loose, metrics, truncated, nodes := WalkDiagnostics(stream);
    ghost var t := Timeline(Walked(stream));
    RootsHoldForest(nodes, t, roots);
    var calls := ReadNodes(roots, Objects(nodes), ForestOf(t));
    rows := FlattenTrace(calls, invoker);
    count := CountTraceCalls(calls);
    TraceReadsInStreamOrder(stream, invoker);
    FlattenLinesMatch(calls, invoker);
    ForestHoldsEveryCall(stream);
    FlattenActsRight(calls, invoker);
    forall steps | stream == WrittenAll(steps) && AllProper(steps) ensures truncated <==> !Modest(steps) {
      CutExactlyOverTheCaps(steps);
    }
    forall steps | stream == WrittenAll(steps) && Modest(steps)
      ensures && count == CallCounts(steps) && ReadRows(rows) == Story(steps)
              && ContentsOf(loose) == Loose(steps) && metrics == AllCounters(map[], steps)
    {
      StoryIsKept(steps);
    }
  }
}
