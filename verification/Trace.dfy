/**
 The trace builder: a stack machine that turns the diagnostic stream into a forest of
 calls, each object of which is both on the stack and in its caller's list. It is proved
 against the stream read position by position.
 */
module Trace {
  import opened Wrappers
  import opened Bytes
  import opened Display
  import opened TraceTypes

  const MAX_ITEMS := 500

  // ---------- what one event of the stream is ----------

  function SymbolOf(d: Option<ScDisplay>): Option<string> {
    if d.Some? && d.value.Text? && d.value.kind.SymbolText? && d.value.shown.Plain?
    then Some(d.value.shown.text) else None
  }

  /** A full address, or 32 bytes shown whole, which name a contract. */
  function ContractOf(d: Option<ScDisplay>): Option<Strkey> {
    if d.None? then None
    else if d.value.Address? then Some(d.value.strkey)
    else if d.value.Text? && d.value.kind.BytesText? && d.value.shown.Plain? && |d.value.shown.text| == 66
            && HexDecode(d.value.shown.text[2..]).Some?
    then Some(Contract(HexDecode(d.value.shown.text[2..]).value))
    else None
  }

  function NotVoid(d: Option<ScDisplay>): Option<ScDisplay> {
    if d.Some? && d.value.Text? && d.value.kind.VoidText? then None else d
  }

  function ArgsOf(d: Option<ScDisplay>): seq<Option<ScDisplay>> {
    match d
    case None => []
    case Some(Vec(items)) => seq(|items|, i requires 0 <= i < |items| => Some(items[i]))
    case Some(_) => [d]
  }

  function FunctionName(d: Option<ScDisplay>): string {
    if SymbolOf(d).Some? && SymbolOf(d).value != "" then SymbolOf(d).value else "unknown"
  }

  /** What an event of the stream means to the walk. */
  datatype Signal =
    | Enter(contract: Option<Strkey>, fn: string, args: seq<Option<ScDisplay>>)
    | Leave(result: Option<ScDisplay>)
    | Raise(contract: Option<Strkey>, topics: seq<Option<ScDisplay>>, data: Option<ScDisplay>)
    | Metric(name: string, value: Shown)
    | Skip

  function Classify(e: RawEvent): Signal {
    if e.Unversioned? then Skip
    else if e.raised then Raise(e.contractId, e.topics, NotVoid(e.data))
    else
      var label_ := SymbolOf(Topic(e.topics, 0));
      if label_ == Some("core_metrics") then
        var name := SymbolOf(Topic(e.topics, 1));
        if name.Some? && e.data.Some? && e.data.value.Text? then Metric(name.value, e.data.value.shown) else Skip
      else if label_ == Some("fn_call") then
        Enter(ContractOf(Topic(e.topics, 1)), FunctionName(Topic(e.topics, 2)), ArgsOf(e.data))
      else if label_ == Some("fn_return") then Leave(NotVoid(e.data))
      else Skip
  }

  function Signals(stream: seq<RawEvent>): (s: seq<Signal>)
    ensures |s| == |stream|
  {
    seq(|stream|, i requires 0 <= i < |stream| => Classify(stream[i]))
  }

  // ---------- the stream, read position by position ----------

  /** Frames open after a stream; a return with nothing open closes nothing. */
  function OpenCount(s: seq<Signal>): nat {
    if s == [] then 0
    else
      var before := OpenCount(s[..|s| - 1]);
      match s[|s| - 1]
      case Enter(_, _, _) => before + 1
      case Leave(_) => if before == 0 then 0 else before - 1
      case _ => before
  }

  /** Looking for the return that matches a call: found, or still so many calls to close first. */
  datatype Match = Matched(value: Option<ScDisplay>) | Pending(inner: nat)

  function Scan(s: seq<Signal>, from: nat, inner: nat): Match
    requires from <= |s|
    decreases |s| - from
  {
    if from == |s| then Pending(inner)
    else
      match s[from]
      case Enter(_, _, _) => Scan(s, from + 1, inner + 1)
      case Leave(result) => if inner == 0 then Matched(result) else Scan(s, from + 1, inner - 1)
      case _ => Scan(s, from + 1, inner)
  }

  datatype Content =
    | Called(contract: Option<Strkey>, fn: string, args: seq<Option<ScDisplay>>, result: Option<ScDisplay>)
    | Raised(contract: Option<Strkey>, topics: seq<Option<ScDisplay>>, data: Option<ScDisplay>)

  /** A call or a raised event, and how many frames were open when it happened. */
  datatype Item = Item(depth: nat, content: Content)

  predicate Shown(e: Signal) {
    e.Enter? || e.Raise?
  }

  function ResultOf(m: Match): Option<ScDisplay> {
    if m.Matched? then m.value else None
  }

  function ContentOf(e: Signal, result: Option<ScDisplay>): Content
    requires Shown(e)
  {
    if e.Enter? then Called(e.contract, e.fn, e.args, result) else Raised(e.contract, e.topics, e.data)
  }

  /** What the event at a position of the stream is: a call has the result of its own return. */
  function ItemAt(s: seq<Signal>, p: nat): Item
    requires p < |s| && Shown(s[p])
  {
    Item(OpenCount(s[..p]), ContentOf(s[p], ResultOf(Scan(s, p + 1, 0))))
  }

  /** The positions of the calls and raised events, in stream order. */
  function Positions(s: seq<Signal>): (ps: seq<nat>)
    ensures forall k :: 0 <= k < |ps| ==> ps[k] < |s| && Shown(s[ps[k]])
  {
    if s == [] then []
    else
      var init := s[..|s| - 1];
      var before := Positions(init);
      assert forall k :: 0 <= k < |before| ==> init[before[k]] == s[before[k]];
      before + if Shown(s[|s| - 1]) then [|s| - 1] else []
  }

  /** Everything the stream shows, in stream order. */
  function Timeline(s: seq<Signal>): (t: seq<Item>)
    ensures |t| == |Positions(s)|
  {
    var ps := Positions(s);
    seq(|ps|, k requires 0 <= k < |ps| => ItemAt(s, ps[k]))
  }

  function MetricsOf(s: seq<Signal>): map<string, Shown> {
    if s == [] then map[]
    else
      var before, e := MetricsOf(s[..|s| - 1]), s[|s| - 1];
      if e.Metric? then before[e.name := e.value] else before
  }

  // ---------- the caps ----------

  function Calls(s: seq<Signal>): nat {
    if s == [] then 0 else Calls(s[..|s| - 1]) + (if s[|s| - 1].Enter? then 1 else 0)
  }

  function Raises(s: seq<Signal>): nat {
    if s == [] then 0 else Raises(s[..|s| - 1]) + (if s[|s| - 1].Raise? then 1 else 0)
  }

  /** The next event is one call or one raised event too many. */
  predicate OverCap(before: seq<Signal>, e: Signal) {
    (e.Enter? && Calls(before) >= MAX_ITEMS) || (e.Raise? && Raises(before) >= MAX_ITEMS)
  }

  /** How much of the stream is walked: up to the first event over its cap. */
  function Kept(s: seq<Signal>): (n: nat)
    ensures n <= |s|
  {
    if s == [] then 0
    else
      var init := s[..|s| - 1];
      if Kept(init) < |init| || OverCap(init, s[|s| - 1]) then Kept(init) else |s|
  }

  lemma {:induction false} KeptIsUnderTheCaps(s: seq<Signal>)
    ensures Calls(s[..Kept(s)]) <= MAX_ITEMS && Raises(s[..Kept(s)]) <= MAX_ITEMS
  {
    if s == [] {
    } else {
      var init := s[..|s| - 1];
      KeptIsUnderTheCaps(init);
      assert init[..Kept(init)] == s[..Kept(init)];
      assert init[..|init|] == init && s[..|s|] == s;
    }
  }

  lemma {:induction false} KeptStopsOnlyOverCap(s: seq<Signal>, i: nat)
    requires i <= Kept(s) && i < |s|
    ensures OverCap(s[..i], s[i]) <==> i == Kept(s)
  {
    var init := s[..|s| - 1];
    if i >= |init| {
    } else {
      KeptStopsOnlyOverCap(init, i);
      assert init[..i] == s[..i] && init[i] == s[i];
    }
  }

  // ---------- how the matching return is found ----------

  function StepScan(m: Match, e: Signal): Match {
    match m
    case Matched(_) => m
    case Pending(n) =>
      match e
      case Enter(_, _, _) => Pending(n + 1)
      case Leave(result) => if n == 0 then Matched(result) else Pending(n - 1)
      case _ => m
  }

  lemma {:induction false} ScanSnoc(s: seq<Signal>, e: Signal, from: nat, inner: nat)
    requires from <= |s|
    ensures Scan(s + [e], from, inner) == StepScan(Scan(s, from, inner), e)
    decreases |s| - from
  {
    if from >= |s| {
    } else {
      match s[from]
      case Enter(_, _, _) => ScanSnoc(s, e, from + 1, inner + 1);
      case Leave(_) => if inner > 0 { ScanSnoc(s, e, from + 1, inner - 1); }
      case _ => ScanSnoc(s, e, from + 1, inner);
    }
  }

  /** One more event changes an earlier item only by the result its return brings. */
  lemma ItemSnoc(s: seq<Signal>, e: Signal, p: nat)
    requires p < |s| && Shown(s[p])
    ensures (s + [e])[p] == s[p]
    ensures ItemAt(s + [e], p) == Item(ItemAt(s, p).depth, ContentOf(s[p], ResultOf(StepScan(Scan(s, p + 1, 0), e))))
    ensures Scan(s + [e], p + 1, 0) == StepScan(Scan(s, p + 1, 0), e)
  {
    assert (s + [e])[..p] == s[..p];
    ScanSnoc(s, e, p + 1, 0);
  }

  lemma StreamSnoc(s: seq<Signal>, e: Signal)
    ensures Positions(s + [e]) == Positions(s) + (if Shown(e) then [|s|] else [])
    ensures OpenCount(s + [e]) == (match e
                                   case Enter(_, _, _) => OpenCount(s) + 1
                                   case Leave(_) => if OpenCount(s) == 0 then 0 else OpenCount(s) - 1
                                   case _ => OpenCount(s))
    ensures Shown(e) ==> ItemAt(s + [e], |s|) == Item(OpenCount(s), ContentOf(e, None))
    ensures e.Enter? ==> Scan(s + [e], |s| + 1, 0) == Pending(0)
  {
    assert (s + [e])[..|s|] == s;
  }

  // ---------- the frames open at the end of a stream ----------

  predicate IsCall(t: seq<Item>, k: nat) {
    k < |t| && t[k].content.Called?
  }

  /** The stack: one open call a level, outermost first, and nothing since at or above its level. */
  ghost predicate OpenFrames(t: seq<Item>, open: seq<nat>) {
    && (forall j :: 0 <= j < |open| ==> IsCall(t, open[j]) && t[open[j]].depth == j)
    && (forall j, i :: 0 <= j < |open| && open[j] < i < |t| ==> t[i].depth > j)
  }

  /** Whether the k-th item is a call that still waits for its return, with so many to close first. */
  predicate WaitsFor(s: seq<Signal>, k: nat, inner: nat) {
    k < |Positions(s)| && Scan(s, Positions(s)[k] + 1, 0) == Pending(inner)
  }

  /** The open calls still wait for their returns, innermost first; every other call has had its own. */
  ghost predicate Waiting(s: seq<Signal>, open: seq<nat>) {
    && |open| == OpenCount(s)
    && (forall j :: 0 <= j < |open| ==>
        open[j] < |Positions(s)| && s[Positions(s)[open[j]]].Enter? && WaitsFor(s, open[j], |open| - 1 - j))
    && (forall k, n: nat :: 0 <= k < |Positions(s)| && s[Positions(s)[k]].Enter? && WaitsFor(s, k, n) ==> k in open)
  }

  /** How the wait of one item goes on when one more event arrives. */
  lemma WaitSnoc(s: seq<Signal>, e: Signal, k: nat, n: nat)
    requires k < |Positions(s)|
    ensures Positions(s + [e])[k] == Positions(s)[k] && (s + [e])[Positions(s)[k]] == s[Positions(s)[k]]
    ensures WaitsFor(s + [e], k, n) <==> (match e
                                          case Enter(_, _, _) => n > 0 && WaitsFor(s, k, n - 1)
                                          case Leave(_) => WaitsFor(s, k, n + 1)
                                          case _ => WaitsFor(s, k, n))
  {
    SameItem(s, e, k);
    ItemSnoc(s, e, Positions(s)[k]);
    PendingAfter(Scan(s, Positions(s)[k] + 1, 0), e, n);
  }

  lemma PendingAfter(m: Match, e: Signal, n: nat)
    ensures StepScan(m, e) == Pending(n) <==> (match e
                                               case Enter(_, _, _) => n > 0 && m == Pending(n - 1)
                                               case Leave(_) => m == Pending(n + 1)
                                               case _ => m == Pending(n))
  {
  }

  lemma SameItem(s: seq<Signal>, e: Signal, k: nat)
    requires k < |Positions(s)|
    ensures k < |Positions(s + [e])| && Positions(s + [e])[k] == Positions(s)[k]
    ensures (s + [e])[Positions(s)[k]] == s[Positions(s)[k]]
  {
    StreamSnoc(s, e);
  }

  lemma WaitingPassing(s: seq<Signal>, open: seq<nat>, e: Signal)
    requires Waiting(s, open) && !e.Enter? && !e.Leave?
    ensures Waiting(s + [e], open)
  {
    StreamSnoc(s, e);
    forall k, n: nat | 0 <= k < |Positions(s)|
      ensures WaitsFor(s + [e], k, n) <==> WaitsFor(s, k, n)
    {
      WaitSnoc(s, e, k, n);
    }
    forall k | 0 <= k < |Positions(s)|
      ensures (s + [e])[Positions(s)[k]] == s[Positions(s)[k]]
    {
      WaitSnoc(s, e, k, 0);
    }
  }

  lemma WaitingEnter(s: seq<Signal>, open: seq<nat>, e: Signal)
    requires Waiting(s, open) && e.Enter?
    ensures Waiting(s + [e], open + [|Positions(s)|])
  {
    StreamSnoc(s, e);
    forall k, n: nat | 0 <= k < |Positions(s)| ensures WaitsFor(s + [e], k, n) <==> (n > 0 && WaitsFor(s, k, n - 1)) {
      WaitSnoc(s, e, k, n);
    }
    forall k | 0 <= k < |Positions(s)|
      ensures (s + [e])[Positions(s)[k]] == s[Positions(s)[k]]
    {
      WaitSnoc(s, e, k, 0);
    }
  }

  lemma WaitingLeave(s: seq<Signal>, open: seq<nat>, e: Signal)
    requires Waiting(s, open) && e.Leave?
    ensures Waiting(s + [e], if open == [] then [] else open[..|open| - 1])
  {
    StreamSnoc(s, e);
    var rest := if open == [] then [] else open[..|open| - 1];
    forall k, n: nat | 0 <= k < |Positions(s)|
      ensures WaitsFor(s + [e], k, n) <==> WaitsFor(s, k, n + 1)
    {
      WaitSnoc(s, e, k, n);
    }
    forall k, n: nat | && 0 <= k < |Positions(s + [e])| && (s + [e])[Positions(s + [e])[k]].Enter?
                       && WaitsFor(s + [e], k, n)
      ensures k in rest
    {
      WaitSnoc(s, e, k, n);
      assert WaitsFor(s, k, n + 1);
      var j :| 0 <= j < |open| && open[j] == k;
      assert WaitsFor(s, open[j], |open| - 1 - j);
      assert rest[j] == k;
    }
  }

  lemma TimelinePassing(s: seq<Signal>, e: Signal)
    requires !e.Leave?
    ensures Timeline(s + [e]) == Timeline(s) + if Shown(e) then [Item(OpenCount(s), ContentOf(e, None))] else []
  {
    StreamSnoc(s, e);
    forall k | 0 <= k < |Positions(s)| ensures ItemAt(s + [e], Positions(s)[k]) == ItemAt(s, Positions(s)[k]) {
      ItemSnoc(s, e, Positions(s)[k]);
    }
  }

  lemma OnlyTheTopIsNext(s: seq<Signal>, open: seq<nat>, k: nat)
    requires Waiting(s, open) && WaitsFor(s, k, 0) && s[Positions(s)[k]].Enter?
    ensures open != [] && open[|open| - 1] == k
  {
    var j :| 0 <= j < |open| && open[j] == k;
    assert WaitsFor(s, open[j], |open| - 1 - j);
  }

  /** A return writes its value into the innermost open call and nothing else. */
  lemma TimelineLeave(s: seq<Signal>, open: seq<nat>, e: Signal)
    requires Waiting(s, open) && e.Leave?
    ensures open == [] ==> Timeline(s + [e]) == Timeline(s)
    ensures open != [] ==>
              var t, top := Timeline(s), open[|open| - 1];
              && IsCall(t, top)
              && Timeline(s + [e]) == t[top := t[top].(content := t[top].content.(result := e.result))]
  {
    StreamSnoc(s, e);
    var ps := Positions(s);
    var top := if open == [] then |ps| else open[|open| - 1];
    assert open != [] ==> WaitsFor(s, top, 0);
    forall k | 0 <= k < |ps|
      ensures ItemAt(s + [e], ps[k]) ==
              if k == top then ItemAt(s, ps[k]).(content := ContentOf(s[ps[k]], e.result)) else ItemAt(s, ps[k])
    {
      ItemSnoc(s, e, ps[k]);
      if s[ps[k]].Enter? && WaitsFor(s, k, 0) {
        OnlyTheTopIsNext(s, open, k);
      }
    }
  }

  // ---------- who belongs to whom ----------

  /** The items at a level from a position on, until the level is left. */
  function Gather(t: seq<Item>, from: nat, level: nat): (ks: seq<nat>)
    ensures forall i :: 0 <= i < |ks| ==> from <= ks[i] < |t|
    decreases |t| - from
  {
    if from >= |t| || t[from].depth < level then []
    else if t[from].depth == level then [from] + Gather(t, from + 1, level)
    else Gather(t, from + 1, level)
  }

  /** What a call set off itself: the items one deeper, until its own level comes up again. */
  function ChildrenOf(t: seq<Item>, k: nat): seq<nat>
    requires k < |t|
  {
    Gather(t, k + 1, t[k].depth + 1)
  }

  predicate NoneAbove(t: seq<Item>, from: nat, level: nat)
    decreases |t| - from
  {
    from >= |t| || (t[from].depth >= level && NoneAbove(t, from + 1, level))
  }

  lemma {:induction false} NoneAboveMeans(t: seq<Item>, from: nat, level: nat)
    ensures NoneAbove(t, from, level) <==> forall i :: from <= i < |t| ==> t[i].depth >= level
    decreases |t| - from
  {
    if from >= |t| {
    } else {
      NoneAboveMeans(t, from + 1, level);
    }
  }

  lemma {:induction false} GatherSnoc(t: seq<Item>, x: Item, from: nat, level: nat)
    requires from <= |t|
    ensures Gather(t + [x], from, level) ==
            Gather(t, from, level) + if NoneAbove(t, from, level) && x.depth == level then [|t|] else []
    decreases |t| - from
  {
    if from < |t| {
      assert (t + [x])[from] == t[from];
      if t[from].depth >= level {
        GatherSnoc(t, x, from + 1, level);
      }
    } else {
      assert Gather(t + [x], |t| + 1, level) == [];
    }
  }

  lemma {:induction false} GatherSeesDepths(t: seq<Item>, u: seq<Item>, from: nat, level: nat)
    requires |t| == |u| && forall i :: 0 <= i < |t| ==> t[i].depth == u[i].depth
    ensures Gather(t, from, level) == Gather(u, from, level)
    decreases |t| - from
  {
    if from >= |t| {
    } else {
      GatherSeesDepths(t, u, from + 1, level);
    }
  }

  /** The index of the frame a new item falls to, if any frame is open. */
  function Top(open: seq<nat>): int {
    if open == [] then -1 else open[|open| - 1]
  }

  /** A new item becomes the last child of the innermost open frame and of no other call. */
  lemma NewItemJoinsTheTop(t: seq<Item>, open: seq<nat>, x: Item, k: nat)
    requires OpenFrames(t, open) && x.depth == |open| && k < |t| && t[k].content.Called?
    ensures ChildrenOf(t + [x], k) == ChildrenOf(t, k) + if k == Top(open) then [|t|] else []
  {
    GatherSnoc(t, x, k + 1, t[k].depth + 1);
    NoneAboveMeans(t, k + 1, t[k].depth + 1);
    var d := t[k].depth;
    if NoneAbove(t, k + 1, d + 1) && x.depth == d + 1 {
      assert t[open[d]].depth == d;
      assert k == open[d];
    }
  }

  function CallsAmong(t: seq<Item>, ks: seq<nat>): (cs: seq<nat>)
    ensures forall i :: 0 <= i < |cs| ==> IsCall(t, cs[i])
  {
    if ks == [] then []
    else CallsAmong(t, ks[..|ks| - 1]) + if IsCall(t, ks[|ks| - 1]) then [ks[|ks| - 1]] else []
  }

  function EventAt(t: seq<Item>, k: nat): TraceEvent
    requires k < |t| && t[k].content.Raised?
  {
    TraceEvent(t[k].content.contract, t[k].content.topics, t[k].content.data, k)
  }

  function EventsAmong(t: seq<Item>, ks: seq<nat>): seq<TraceEvent>
    requires forall i :: 0 <= i < |ks| ==> ks[i] < |t|
  {
    if ks == [] then []
    else
      var k := ks[|ks| - 1];
      EventsAmong(t, ks[..|ks| - 1]) + if IsCall(t, k) then [] else [EventAt(t, k)]
  }

  lemma AmongSnoc(t: seq<Item>, ks: seq<nat>, k: nat)
    requires k < |t| && forall i :: 0 <= i < |ks| ==> ks[i] < |t|
    ensures CallsAmong(t, ks + [k]) == CallsAmong(t, ks) + if IsCall(t, k) then [k] else []
    ensures EventsAmong(t, ks + [k]) == EventsAmong(t, ks) + if IsCall(t, k) then [] else [EventAt(t, k)]
  {
    assert (ks + [k])[..|ks|] == ks;
  }

  /** Items keep their place and nature: what lies among them does not change otherwise. */
  lemma {:induction false} AmongAgrees(t: seq<Item>, u: seq<Item>, ks: seq<nat>)
    requires forall i :: 0 <= i < |ks| ==> ks[i] < |t| && ks[i] < |u|
    requires forall i :: 0 <= i < |ks| ==>
               IsCall(t, ks[i]) == IsCall(u, ks[i]) && (IsCall(t, ks[i]) || t[ks[i]].content == u[ks[i]].content)
    ensures CallsAmong(t, ks) == CallsAmong(u, ks) && EventsAmong(t, ks) == EventsAmong(u, ks)
  {
    if ks == [] {
    } else {
      AmongAgrees(t, u, ks[..|ks| - 1]);
    }
  }

  // ---------- the objects of the walk ----------

  /** A node of the tree under construction: its lists and its result are filled in later. */
  class CallNode {
    const contract: Option<Strkey>
    const fn: string
    const args: seq<Option<ScDisplay>>
    const seq_: nat
    var result: Option<ScDisplay>
    var events: seq<TraceEvent>
    var calls: seq<CallNode>

    constructor (contract: Option<Strkey>, fn: string, args: seq<Option<ScDisplay>>, seq_: nat)
      ensures this.contract == contract && this.fn == fn && this.args == args && this.seq_ == seq_
      ensures result == None && events == [] && calls == []
    {
      this.contract, this.fn, this.args, this.seq_ := contract, fn, args, seq_;
      result, events, calls := None, [], [];
    }
  }

  ghost function NodesAt(nodes: seq<CallNode?>, ks: seq<nat>): seq<CallNode?>
    requires forall i :: 0 <= i < |ks| ==> ks[i] < |nodes|
  {
    seq(|ks|, i requires 0 <= i < |ks| => nodes[ks[i]])
  }

  /** What the fields of a node are worth. */
  datatype NodeValue = NodeValue(contract: Option<Strkey>, fn: string, args: seq<Option<ScDisplay>>,
                                 result: Option<ScDisplay>, events: seq<TraceEvent>, calls: seq<CallNode?>, seq_: nat)

  ghost function ValueOf(n: CallNode): NodeValue
    reads n
  {
    NodeValue(n.contract, n.fn, n.args, n.result, n.events, n.calls, n.seq_)
  }

  /** What call k and its children say its node must hold. */
  ghost function Expected(nodes: seq<CallNode?>, t: seq<Item>, k: nat): NodeValue
    requires |nodes| == |t| && IsCall(t, k)
  {
    var c := t[k].content;
    NodeValue(c.contract, c.fn, c.args, c.result, EventsAmong(t, ChildrenOf(t, k)),
              NodesAt(nodes, CallsAmong(t, ChildrenOf(t, k))), k)
  }

  /** One object a call, and every object holds what its call and its children say. */
  ghost predicate Represents(nodes: seq<CallNode?>, t: seq<Item>)
    reads set n: CallNode | n in nodes
  {
    && |nodes| == |t|
    && (forall k :: 0 <= k < |t| ==> (nodes[k] != null <==> t[k].content.Called?))
    && (forall i, j :: 0 <= i < j < |t| && nodes[i] != null ==> nodes[i] != nodes[j])
    && (forall k: nat {:trigger Expected(nodes, t, k)} :: k < |t| && nodes[k] != null ==>
        ValueOf(nodes[k]) == Expected(nodes, t, k))
  }

  /** A new item adds to what the innermost open frame's node must hold, and to no other node's. */
  lemma ExpectedGrows(nodes: seq<CallNode?>, more: CallNode?, t: seq<Item>, open: seq<nat>, x: Item, k: nat)
    requires |nodes| == |t| && OpenFrames(t, open) && x.depth == |open| && IsCall(t, k)
    ensures var was := Expected(nodes, t, k);
      Expected(nodes + [more], t + [x], k) ==
      if k != Top(open) then was
      else if x.content.Called? then was.(calls := was.calls + [more])
      else was.(events := was.events + [EventAt(t + [x], |t|)])
  {
    var u, ks := t + [x], ChildrenOf(t, k);
    NewItemJoinsTheTop(t, open, x, k);
    AmongAgrees(t, u, ks);
    if k == Top(open) {
      AmongSnoc(u, ks, |t|);
    } else {
      assert ks + [] == ks;
    }
    assert NodesAt(nodes + [more], CallsAmong(t, ks)) == NodesAt(nodes, CallsAmong(t, ks));
  }

  lemma ExpectedOfNew(nodes: seq<CallNode?>, node: CallNode, t: seq<Item>, x: Item)
    requires |nodes| == |t| && x.content.Called?
    ensures Expected(nodes + [node], t + [x], |t|) ==
            NodeValue(x.content.contract, x.content.fn, x.content.args, x.content.result, [], [], |t|)
  {
    assert ChildrenOf(t + [x], |t|) == [];
  }

  function WithResult(t: seq<Item>, top: nat, result: Option<ScDisplay>): (u: seq<Item>)
    requires IsCall(t, top)
    ensures |u| == |t|
  {
    t[top := t[top].(content := t[top].content.(result := result))]
  }

  lemma ExpectedOfReturn(nodes: seq<CallNode?>, t: seq<Item>, top: nat, result: Option<ScDisplay>, k: nat)
    requires |nodes| == |t| && IsCall(t, top) && IsCall(t, k)
    ensures var was := Expected(nodes, t, k);
      Expected(nodes, WithResult(t, top, result), k) == if k == top then was.(result := result) else was
  {
    var u := WithResult(t, top, result);
    GatherSeesDepths(t, u, k + 1, t[k].depth + 1);
    AmongAgrees(t, u, ChildrenOf(t, k));
  }

  /** The items at the root level: the root calls and the events no frame was open for. */
  function Roots(t: seq<Item>): seq<nat> {
    Gather(t, 0, 0)
  }

  lemma RootsGrow(nodes: seq<CallNode?>, more: CallNode?, t: seq<Item>, x: Item)
    requires |nodes| == |t|
    ensures var u := t + [x];
      && EventsAmong(u, Roots(u)) ==
         EventsAmong(t, Roots(t)) + (if x.depth == 0 && x.content.Raised? then [EventAt(u, |t|)] else [])
      && NodesAt(nodes + [more], CallsAmong(u, Roots(u))) ==
         NodesAt(nodes, CallsAmong(t, Roots(t))) + (if x.depth == 0 && x.content.Called? then [more] else [])
  {
    RootListsGrow(t, x);
    NodesStay(nodes, more, CallsAmong(t, Roots(t)));
  }

  lemma NodesStay(nodes: seq<CallNode?>, more: CallNode?, cs: seq<nat>)
    requires forall i :: 0 <= i < |cs| ==> cs[i] < |nodes|
    ensures NodesAt(nodes + [more], cs) == NodesAt(nodes, cs)
    ensures NodesAt(nodes + [more], cs + [|nodes|]) == NodesAt(nodes, cs) + [more]
  {
  }

  lemma RootListsGrow(t: seq<Item>, x: Item)
    ensures var u := t + [x];
      && EventsAmong(u, Roots(u)) ==
         EventsAmong(t, Roots(t)) + (if x.depth == 0 && x.content.Raised? then [EventAt(u, |t|)] else [])
      && CallsAmong(u, Roots(u)) ==
         CallsAmong(t, Roots(t)) + (if x.depth == 0 && x.content.Called? then [|t|] else [])
  {
    var u := t + [x];
    GatherSnoc(t, x, 0, 0);
    NoneAboveMeans(t, 0, 0);
    AmongAgrees(t, u, Roots(t));
    if x.depth == 0 {
      AmongSnoc(u, Roots(t), |t|);
    } else {
      assert Roots(t) + [] == Roots(t);
    }
  }

  lemma RootsSeeDepths(nodes: seq<CallNode?>, t: seq<Item>, top: nat, result: Option<ScDisplay>)
    requires |nodes| == |t| && IsCall(t, top)
    ensures var u := WithResult(t, top, result);
      && EventsAmong(u, Roots(u)) == EventsAmong(t, Roots(t))
      && NodesAt(nodes, CallsAmong(u, Roots(u))) == NodesAt(nodes, CallsAmong(t, Roots(t)))
  {
    var u := WithResult(t, top, result);
    GatherSeesDepths(t, u, 0, 0);
    AmongAgrees(t, u, Roots(t));
  }

  // ---------- the walk ----------

  /** The stack holds the open frames' objects, outermost first. */
  ghost predicate StackIs(nodes: seq<CallNode?>, open: seq<nat>, stack: seq<CallNode>) {
    |stack| == |open| && forall j :: 0 <= j < |stack| ==> open[j] < |nodes| && stack[j] == nodes[open[j]]
  }

  lemma StackGrows(nodes: seq<CallNode?>, open: seq<nat>, stack: seq<CallNode>, more: CallNode?)
    requires StackIs(nodes, open, stack)
    ensures StackIs(nodes + [more], open, stack)
    ensures more != null ==> StackIs(nodes + [more], open + [|nodes|], stack + [more])
  {
  }

  /** The heap between two events: the stack is the open frames' objects, and the lists hold the roots. */
  ghost predicate HeapState(t: seq<Item>, open: seq<nat>, nodes: seq<CallNode?>,
                            stack: seq<CallNode>, calls: seq<CallNode>, events: seq<TraceEvent>)
    reads set n: CallNode | n in nodes
  {
    && OpenFrames(t, open) && Represents(nodes, t)
    && StackIs(nodes, open, stack)
    && calls == NodesAt(nodes, CallsAmong(t, Roots(t)))
    && events == EventsAmong(t, Roots(t))
  }

  lemma FramesGrow(t: seq<Item>, open: seq<nat>, x: Item)
    requires OpenFrames(t, open) && x.depth == |open|
    ensures OpenFrames(t + [x], open)
    ensures x.content.Called? ==> OpenFrames(t + [x], open + [|t|])
  {
    assert forall k :: 0 <= k < |t| ==> (t + [x])[k] == t[k];
  }

  /** The top frame's node is no other call's node. */
  lemma TopFrame(t: seq<Item>, open: seq<nat>, nodes: seq<CallNode?>, stack: seq<CallNode>)
    requires OpenFrames(t, open) && |nodes| == |t| && stack != []
    requires forall i, j :: 0 <= i < j < |t| && nodes[i] != null ==> nodes[i] != nodes[j]
    requires StackIs(nodes, open, stack)
    ensures 0 <= Top(open) < |t| && nodes[Top(open)] == stack[|stack| - 1]
    ensures forall k :: 0 <= k < |t| && nodes[k] != null && k != Top(open) ==> nodes[k] != stack[|stack| - 1]
  {
  }

  /** Objects that hold what the old items say, the top one already brought up to the new item. */
  ghost predicate UpToDate(nodes: seq<CallNode?>, t: seq<Item>, open: seq<nat>, more: CallNode?, x: Item)
    requires |nodes| == |t| && x.depth == |open|
    reads set n: CallNode | n in nodes
  {
    && (forall k :: 0 <= k < |t| ==> (nodes[k] != null <==> t[k].content.Called?))
    && (forall i, j :: 0 <= i < j < |t| && nodes[i] != null ==> nodes[i] != nodes[j])
    && (forall k: nat {:trigger Expected(nodes, t, k)} :: k < |t| && nodes[k] != null ==>
          var was := Expected(nodes, t, k);
          ValueOf(nodes[k]) ==
          if k != Top(open) then was
          else if x.content.Called? then was.(calls := was.calls + [more])
          else was.(events := was.events + [EventAt(t + [x], |t|)]))
  }

  lemma RepresentsOneMore(nodes: seq<CallNode?>, t: seq<Item>, open: seq<nat>, more: CallNode?, x: Item)
    requires |nodes| == |t| && OpenFrames(t, open) && x.depth == |open| && UpToDate(nodes, t, open, more, x)
    requires more != null <==> x.content.Called?
    requires more != null ==>
               var c := x.content;
               more !in nodes && ValueOf(more) == NodeValue(c.contract, c.fn, c.args, c.result, [], [], |t|)
    ensures Represents(nodes + [more], t + [x])
  {
    forall k | 0 <= k < |t| && nodes[k] != null ensures ValueOf(nodes[k]) == Expected(nodes + [more], t + [x], k) {
      ExpectedGrows(nodes, more, t, open, x, k);
    }
    if more != null {
      ExpectedOfNew(nodes, more, t, x);
    }
  }

  function RaisedItem(depth: nat, event: TraceEvent): Item {
    Item(depth, Raised(event.contract, event.topics, event.data))
  }

  /** The executing frame takes the event. */
  method TopTakesEvent(ghost t: seq<Item>, ghost open: seq<nat>, ghost nodes: seq<CallNode?>, stack: seq<CallNode>,
                       event: TraceEvent)
    requires OpenFrames(t, open) && Represents(nodes, t) && StackIs(nodes, open, stack)
    requires stack != [] && event.seq_ == |t|
    modifies stack[|stack| - 1]
    ensures UpToDate(nodes, t, open, null, RaisedItem(|open|, event))
  {
    ghost var x := RaisedItem(|open|, event);
    assert EventAt(t + [x], |t|) == event;
    TopFrame(t, open, nodes, stack);
    var frame := stack[|stack| - 1];
    frame.events := frame.events + [event];
  }

  /** The top of the stack takes the event; with an empty stack the loose list does. */
  method OnRaise(ghost t: seq<Item>, ghost open: seq<nat>, ghost nodes: seq<CallNode?>, stack: seq<CallNode>,
                 ghost calls: seq<CallNode>, events: seq<TraceEvent>, event: TraceEvent)
    returns (loose: seq<TraceEvent>)
    requires HeapState(t, open, nodes, stack, calls, events) && event.seq_ == |t|
    modifies if stack == [] then {} else {stack[|stack| - 1]}
    ensures HeapState(t + [Item(|open|, Raised(event.contract, event.topics, event.data))], open,
                      nodes + [null], stack, calls, loose)
  {
    ghost var x := RaisedItem(|open|, event);
    assert EventAt(t + [x], |t|) == event;
    if stack != [] {
      TopTakesEvent(t, open, nodes, stack, event);
      loose := events;
    } else {
      loose := events + [event];
    }
    RepresentsOneMore(nodes, t, open, null, x);
    RootsGrow(nodes, null, t, x);
    FramesGrow(t, open, x);
    StackGrows(nodes, open, stack, null);
  }

  /** A new call joins the top frame's calls, or the roots, and becomes the top. */
  method OnEnter(ghost t: seq<Item>, ghost open: seq<nat>, ghost nodes: seq<CallNode?>, stack: seq<CallNode>,
                 calls: seq<CallNode>, ghost events: seq<TraceEvent>, node: CallNode)
    returns (roots: seq<CallNode>)
    requires HeapState(t, open, nodes, stack, calls, events)
    requires node !in nodes && ValueOf(node) == NodeValue(node.contract, node.fn, node.args, None, [], [], |t|)
    modifies if stack == [] then {} else {stack[|stack| - 1]}
    ensures HeapState(t + [Item(|open|, Called(node.contract, node.fn, node.args, None))], open + [|t|],
                      nodes + [node], stack + [node], roots, events)
  {
    ghost var x := Item(|open|, Called(node.contract, node.fn, node.args, None));
    roots := calls;
    if stack != [] {
      TopFrame(t, open, nodes, stack);
      var frame := stack[|stack| - 1];
      frame.calls := frame.calls + [node];
    } else {
      roots := calls + [node];
    }
    assert UpToDate(nodes, t, open, node, x);
    RepresentsOneMore(nodes, t, open, node, x);
    RootsGrow(nodes, node, t, x);
    FramesGrow(t, open, x);
    StackGrows(nodes, open, stack, node);
  }

  /** The innermost frame takes the value and comes off the stack. */
  method OnLeave(ghost t: seq<Item>, ghost open: seq<nat>, ghost nodes: seq<CallNode?>, stack: seq<CallNode>,
                 ghost calls: seq<CallNode>, ghost events: seq<TraceEvent>, result: Option<ScDisplay>)
    requires HeapState(t, open, nodes, stack, calls, events) && stack != []
    modifies stack[|stack| - 1]
    ensures HeapState(WithResult(t, open[|open| - 1], result), open[..|open| - 1],
                      nodes, stack[..|stack| - 1], calls, events)
  {
    ghost var top := open[|open| - 1];
    var frame := stack[|stack| - 1];
    frame.result := result;
    RootsSeeDepths(nodes, t, top, result);
    forall k | 0 <= k < |t| && nodes[k] != null
      ensures ValueOf(nodes[k]) == Expected(nodes, WithResult(t, top, result), k)
    {
      ExpectedOfReturn(nodes, t, top, result, k);
    }
  }

  /** What a walk is judged against: the stream up to the first event over a cap. */
  function Walked(stream: seq<RawEvent>): seq<Signal> {
    Signals(stream)[..Kept(Signals(stream))]
  }

  /** The stream side of the walk's state. */
  ghost predicate Tracks(s: seq<Signal>, t: seq<Item>, open: seq<nat>) {
    t == Timeline(s) && Waiting(s, open)
  }

  /** How one more event moves the stream side of the state. */
  lemma TracksStep(s: seq<Signal>, t: seq<Item>, open: seq<nat>, e: Signal)
    requires Tracks(s, t, open)
    ensures e.Raise? ==> Tracks(s + [e], t + [Item(|open|, ContentOf(e, None))], open)
    ensures e.Enter? ==> Tracks(s + [e], t + [Item(|open|, ContentOf(e, None))], open + [|t|])
    ensures e.Metric? || e.Skip? ==> Tracks(s + [e], t, open)
    ensures e.Leave? && open == [] ==> Tracks(s + [e], t, open)
    ensures e.Leave? && open != [] ==>
              && IsCall(t, open[|open| - 1])
              && Tracks(s + [e], WithResult(t, open[|open| - 1], e.result), open[..|open| - 1])
  {
    match e
    case Enter(_, _, _) => WaitingEnter(s, open, e); TimelinePassing(s, e);
    case Leave(_) => WaitingLeave(s, open, e); TimelineLeave(s, open, e);
    case _ => WaitingPassing(s, open, e); TimelinePassing(s, e);
  }

  ghost predicate WalkState(s: seq<Signal>, t: seq<Item>, open: seq<nat>, nodes: seq<CallNode?>,
                            stack: seq<CallNode>, calls: seq<CallNode>, events: seq<TraceEvent>)
    reads set n: CallNode | n in nodes
  {
    Tracks(s, t, open) && HeapState(t, open, nodes, stack, calls, events)
  }

  method StepRaise(ghost s: seq<Signal>, ghost t: seq<Item>, ghost open: seq<nat>, ghost nodes: seq<CallNode?>,
                   stack: seq<CallNode>, ghost calls: seq<CallNode>, events: seq<TraceEvent>, e: Signal, seq_: nat)
    returns (loose: seq<TraceEvent>, ghost t': seq<Item>)
    requires WalkState(s, t, open, nodes, stack, calls, events) && e.Raise? && seq_ == |t|
    modifies if stack == [] then {} else {stack[|stack| - 1]}
    ensures |t'| == |t| + 1 && WalkState(s + [e], t', open, nodes + [null], stack, calls, loose)
  {
    TracksStep(s, t, open, e);
    loose := OnRaise(t, open, nodes, stack, calls, events, TraceEvent(e.contract, e.topics, e.data, seq_));
    t' := t + [Item(|open|, ContentOf(e, None))];
  }

  method StepEnter(ghost s: seq<Signal>, ghost t: seq<Item>, ghost open: seq<nat>, ghost nodes: seq<CallNode?>,
                   stack: seq<CallNode>, calls: seq<CallNode>, ghost events: seq<TraceEvent>, e: Signal, seq_: nat)
    returns (roots: seq<CallNode>, node: CallNode, ghost t': seq<Item>)
    requires WalkState(s, t, open, nodes, stack, calls, events) && e.Enter? && seq_ == |t|
    modifies if stack == [] then {} else {stack[|stack| - 1]}
    ensures fresh(node) && |t'| == |t| + 1
    ensures WalkState(s + [e], t', open + [|t|], nodes + [node], stack + [node], roots, events)
  {
    TracksStep(s, t, open, e);
    node := new CallNode(e.contract, e.fn, e.args, seq_);
    roots := OnEnter(t, open, nodes, stack, calls, events, node);
    t' := t + [Item(|open|, ContentOf(e, None))];
  }

  method StepLeave(ghost s: seq<Signal>, ghost t: seq<Item>, ghost open: seq<nat>, ghost nodes: seq<CallNode?>,
                   stack: seq<CallNode>, ghost calls: seq<CallNode>, ghost events: seq<TraceEvent>, e: Signal)
    returns (ghost t': seq<Item>, ghost open': seq<nat>, left: seq<CallNode>)
    requires WalkState(s, t, open, nodes, stack, calls, events) && e.Leave?
    modifies if stack == [] then {} else {stack[|stack| - 1]}
    ensures |t'| == |t| && left == (if stack == [] then [] else stack[..|stack| - 1])
    ensures WalkState(s + [e], t', open', nodes, left, calls, events)
  {
    TracksStep(s, t, open, e);
    t', open', left := t, open, stack;
    if |stack| > 0 {
      OnLeave(t, open, nodes, stack, calls, events, e.result);
      left := stack[..|stack| - 1];
      t', open' := WithResult(t, open[|open| - 1], e.result), open[..|open| - 1];
    }
  }

  lemma StepPast(s: seq<Signal>, t: seq<Item>, open: seq<nat>, nodes: seq<CallNode?>, stack: seq<CallNode>,
                 calls: seq<CallNode>, events: seq<TraceEvent>, e: Signal)
    requires WalkState(s, t, open, nodes, stack, calls, events) && (e.Metric? || e.Skip?)
    ensures WalkState(s + [e], t, open, nodes, stack, calls, events)
  {
    TracksStep(s, t, open, e);
  }

  lemma PrefixStep(s: seq<Signal>, i: nat)
    requires i < |s|
    ensures s[..i + 1] == s[..i] + [s[i]]
  {
  }

  function Tick(counted: bool): nat {
    if counted then 1 else 0
  }

  function WithMetric(metrics: map<string, Shown>, e: Signal): map<string, Shown> {
    if e.Metric? then metrics[e.name := e.value] else metrics
  }

  ghost predicate Counted(s: seq<Signal>, metrics: map<string, Shown>, count: nat, raised: nat) {
    metrics == MetricsOf(s) && count == Calls(s) && raised == Raises(s)
  }

  lemma CountsStep(s: seq<Signal>, e: Signal, metrics: map<string, Shown>, count: nat, raised: nat)
    requires Counted(s, metrics, count, raised)
    ensures Counted(s + [e], WithMetric(metrics, e), count + Tick(e.Enter?), raised + Tick(e.Raise?))
  {
    assert (s + [e])[..|s|] == s;
  }

  lemma EmptyWalk()
    ensures WalkState([], [], [], [], [], [], [])
    ensures Counted([], map[], 0, 0)
  {
  }

  /** One event that is not over a cap: what becomes of the stack and of the root lists. */
  method Step(ghost s: seq<Signal>, ghost t: seq<Item>, ghost open: seq<nat>, ghost nodes: seq<CallNode?>,
              stack: seq<CallNode>, calls: seq<CallNode>, events: seq<TraceEvent>, e: Signal, seq_: nat)
    returns (frames: seq<CallNode>, roots: seq<CallNode>, loose: seq<TraceEvent>, next: nat,
             ghost items: seq<Item>, ghost path: seq<nat>, ghost all: seq<CallNode?>)
    requires WalkState(s, t, open, nodes, stack, calls, events) && seq_ == |t|
    modifies if stack == [] then {} else {stack[|stack| - 1]}
    ensures WalkState(s + [e], items, path, all, frames, roots, loose) && next == |items|
    ensures forall n :: n in all && n != null ==> n in nodes || fresh(n)
  {
    frames, roots, loose, next := stack, calls, events, seq_;
    items, path, all := t, open, nodes;
    match e {
      case Raise(_, _, _) =>
        loose, items := StepRaise(s, t, open, nodes, stack, calls, events, e, seq_);
        all, next := nodes + [null], seq_ + 1;
      case Enter(_, _, _) =>
        var node;
        roots, node, items := StepEnter(s, t, open, nodes, stack, calls, events, e, seq_);
        frames, path, all, next := stack + [node], open + [|t|], nodes + [node], seq_ + 1;
      case Leave(_) =>
        items, path, frames := StepLeave(s, t, open, nodes, stack, calls, events, e);
      case _ =>
        StepPast(s, t, open, nodes, stack, calls, events, e);
    }
  }

  lemma FramesAreNodes(nodes: seq<CallNode?>, open: seq<nat>, stack: seq<CallNode>)
    requires StackIs(nodes, open, stack)
    ensures stack != [] ==> stack[|stack| - 1] in nodes
  {
  }

  /** How far the loop has come, and what it has counted on the way. */
  ghost predicate Progress(s: seq<Signal>, i: nat, done: seq<Signal>, truncated: bool,
                           metrics: map<string, Shown>, count: nat, raised: nat)
  {
    && i <= Kept(s) && done == s[..i] && Counted(done, metrics, count, raised)
    && (truncated ==> i == Kept(s) < |s|)
  }

  lemma Progresses(s: seq<Signal>, i: nat, done: seq<Signal>, metrics: map<string, Shown>, count: nat, raised: nat)
    requires Progress(s, i, done, false, metrics, count, raised) && i < |s|
    ensures var e := s[i];
            if (e.Raise? && raised >= MAX_ITEMS) || (e.Enter? && count >= MAX_ITEMS)
            then Progress(s, i, done, true, metrics, count, raised)
            else Progress(s, i + 1, done + [e], false, WithMetric(metrics, e), count + Tick(e.Enter?), raised +
                Tick(e.Raise?))
  {
    PrefixStep(s, i);
    KeptStopsOnlyOverCap(s, i);
    CountsStep(done, s[i], metrics, count, raised);
  }

  /** The loop over the stream, event by event. */
  method WalkSignals(s: seq<Signal>)
    returns (calls: seq<CallNode>, events: seq<TraceEvent>, metrics: map<string, Shown>, truncated: bool,
             ghost t: seq<Item>, ghost open: seq<nat>, ghost nodes: seq<CallNode?>, ghost stack: seq<CallNode>)
    ensures WalkState(s[..Kept(s)], t, open, nodes, stack, calls, events)
    ensures metrics == MetricsOf(s[..Kept(s)])
    ensures forall n :: n in nodes && n != null ==> fresh(n)
    ensures truncated <==> Kept(s) < |s|
  {
    ghost var done: seq<Signal> := [];
    calls, events, metrics, truncated := [], [], map[], false;
    var frames: seq<CallNode> := [];
    t, open, nodes := [], [], [];
    var count: nat, raised: nat, seq_: nat := 0, 0, 0;
    var i := 0;
    EmptyWalk();
    while i < |s| && !truncated
      invariant Progress(s, i, done, truncated, metrics, count, raised)
      invariant WalkState(done, t, open, nodes, frames, calls, events) && seq_ == |t|
      invariant forall n :: n in nodes && n != null ==> fresh(n)
      decreases !truncated, |s| - i
    {
      var e := s[i];
      Progresses(s, i, done, metrics, count, raised);
      FramesAreNodes(nodes, open, frames);
      if (e.Raise? && raised >= MAX_ITEMS) || (e.Enter? && count >= MAX_ITEMS) {
        truncated := true;
      } else {
        raised, count, metrics := raised + Tick(e.Raise?), count + Tick(e.Enter?), WithMetric(metrics, e);
        frames, calls, events, seq_, t, open, nodes := Step(done, t, open, nodes, frames, calls, events, e, seq_);
        done := done + [e];
        i := i + 1;
      }
    }
    stack := frames;
  }

  /**
   Over any stream, balanced or not: the objects built are one a call of the timeline up to
   the caps, each with that call's own return value and, in order, the events and the calls
   of its children; the root lists hold the items fired with no frame open; and the walk
   is cut short exactly when a call or a raised event would go over its cap.
   */
  method WalkDiagnostics(stream: seq<RawEvent>)
    returns (calls: seq<CallNode>, events: seq<TraceEvent>, metrics: map<string, Shown>, truncated: bool,
             ghost nodes: seq<CallNode?>)
    ensures var t := Timeline(Walked(stream));
      && Represents(nodes, t)
      && calls == NodesAt(nodes, CallsAmong(t, Roots(t)))
      && events == EventsAmong(t, Roots(t))
    ensures forall n :: n in nodes && n != null ==> fresh(n)
    ensures metrics == MetricsOf(Walked(stream))
    ensures truncated <==> |Walked(stream)| < |stream|
    ensures Calls(Walked(stream)) <= MAX_ITEMS && Raises(Walked(stream)) <= MAX_ITEMS
  {
    KeptIsUnderTheCaps(Signals(stream));
    ghost var t, open, stack;
    calls, events, metrics, truncated, t, open, nodes, stack := WalkSignals(Signals(stream));
  }
}
