/** Counting the calls of a forest: as many as the walked stream has calls. */
module TraceCount {
  import opened Wrappers
  import opened TraceTypes
  import opened Trace
  import opened TraceReading

  function CallsIn(calls: seq<TraceCall>): nat {
    if calls == [] then 0 else 1 + CallsIn(calls[0].calls) + CallsIn(calls[1..])
  }

  /** The recursive count with its accumulator. */
  method CountTraceCalls(calls: seq<TraceCall>) returns (count: nat)
    ensures count == CallsIn(calls)
    decreases calls
  {
    count := 0;
    var i := 0;
    while i < |calls|
      invariant 0 <= i <= |calls|
      invariant count + CallsIn(calls[i..]) == CallsIn(calls)
    {
      var below := CountTraceCalls(calls[i].calls);
      assert calls[i..][1..] == calls[i + 1..];
      count := count + 1 + below;
      i := i + 1;
    }
  }

  function CalledIn(t: seq<Item>): nat {
    if t == [] then 0 else CalledIn(t[..|t| - 1]) + if t[|t| - 1].content.Called? then 1 else 0
  }

  lemma {:induction false} CalledConcat(a: seq<Item>, b: seq<Item>)
    ensures CalledIn(a + b) == CalledIn(a) + CalledIn(b)
  {
    if b == [] {
      assert a + b == a;
    } else {
      CalledConcat(a, b[..|b| - 1]);
      assert (a + b)[..|a + b| - 1] == a + b[..|b| - 1];
    }
  }

  lemma CalledOne(x: Item)
    ensures CalledIn([x]) == if x.content.Called? then 1 else 0
  {
    assert [x][..0] == [];
  }

  lemma CallsInCons(call: TraceCall, rest: seq<TraceCall>)
    ensures CallsIn([call] + rest) == 1 + CallsIn(call.calls) + CallsIn(rest)
  {
    assert ([call] + rest)[1..] == rest;
  }

  /** The trees of the calls of one level. */
  function LevelTrees(t: seq<Item>, from: nat, level: nat): seq<TraceCall> {
    TreesOf(t, CallsAmong(t, Gather(t, from, level)))
  }

  /** The calls of one item's tree; an event has none. */
  function TreeCalls(t: seq<Item>, k: nat): nat {
    if IsCall(t, k) then 1 + CallsIn(TreeOf(t, k).calls) else 0
  }

  lemma LevelTreesCons(t: seq<Item>, from: nat)
    requires Disciplined(t) && from < |t|
    ensures CallsIn(LevelTrees(t, from, t[from].depth)) ==
            TreeCalls(t, from) + CallsIn(LevelTrees(t, NextSibling(t, from), t[from].depth))
  {
    LevelCons(t, from);
    if IsCall(t, from) {
      CallsInCons(TreeOf(t, from), LevelTrees(t, NextSibling(t, from), t[from].depth));
    }
  }

  lemma SubtreesAreALevel(t: seq<Item>, k: nat)
    requires IsCall(t, k)
    ensures TreeOf(t, k).calls == LevelTrees(t, k + 1, t[k].depth + 1)
  {
  }

  /** An item's tree holds as many calls as its stretch. */
  lemma {:induction false} TreeCounts(t: seq<Item>, k: nat)
    requires Disciplined(t) && k < |t|
    ensures TreeCalls(t, k) == CalledIn(t[k..NextSibling(t, k)])
    decreases |t| - k, 0
  {
    var next := NextSibling(t, k);
    StretchJoins(t, k, k + 1, next);
    CalledConcat([t[k]], t[k + 1..next]);
    CalledOne(t[k]);
    if IsCall(t, k) {
      LevelCounts(t, k + 1, t[k].depth + 1);
      SubtreesAreALevel(t, k);
    }
  }

  /** The trees of a level hold as many calls as the stretch they cover. */
  lemma {:induction false} LevelCounts(t: seq<Item>, from: nat, level: nat)
    requires Disciplined(t) && from <= |t| && (from < |t| ==> t[from].depth <= level)
    ensures CallsIn(LevelTrees(t, from, level)) == CalledIn(t[from..LevelEnd(t, from, level)])
    decreases |t| - from, 1
  {
    if from >= |t| || t[from].depth != level {
    } else {
      var next, end := NextSibling(t, from), LevelEnd(t, from, level);
      NextSiblingKeepsLevel(t, from);
      LevelTreesCons(t, from);
      TreeCounts(t, from);
      LevelCounts(t, next, level);
      StretchJoins(t, from, next, end);
      CalledConcat(t[from..next], t[next..end]);
    }
  }

  lemma {:induction false} GroundLevel(t: seq<Item>, from: nat)
    requires from <= |t|
    ensures LevelEnd(t, from, 0) == |t|
    decreases |t| - from
  {
    if from >= |t| {
    } else {
      GroundLevel(t, from + 1);
    }
  }

  lemma SameKinds(a: seq<Item>, b: seq<Item>)
    requires |a| == |b| && forall k :: 0 <= k < |a| ==> (a[k].content.Called? <==> b[k].content.Called?)
    ensures CalledIn(a) == CalledIn(b)
    decreases |a|
  {
    if a != [] {
      SameKinds(a[..|a| - 1], b[..|b| - 1]);
    }
  }

  lemma {:induction false} TimelineCounts(s: seq<Signal>)
    ensures CalledIn(Timeline(s)) == Calls(s)
  {
    if s == [] {
    } else {
      var init, e := s[..|s| - 1], s[|s| - 1];
      TimelineCounts(init);
      assert s == init + [e];
      if e.Leave? {
        LeaveKeepsShape(init, e);
        SameKinds(Timeline(s), Timeline(init));
      } else {
        TimelinePassing(init, e);
        var more := if Trace.Shown(e) then [Item(OpenCount(init), ContentOf(e, None))] else [];
        CalledConcat(Timeline(init), more);
        if more != [] { CalledOne(more[0]); }
      }
    }
  }

  /** For every stream, the forest holds exactly the calls of the part of it that was walked. */
  lemma ForestHoldsEveryCall(stream: seq<RawEvent>)
    ensures CallsIn(ForestOf(Timeline(Walked(stream)))) == Calls(Walked(stream))
  {
    var s := Walked(stream);
    var t := Timeline(s);
    TimelineIsDisciplined(s);
    LevelCounts(t, 0, 0);
    GroundLevel(t, 0);
    assert t[0..|t|] == t;
    TimelineCounts(s);
  }
}
