/**
 The stream a host writes while it runs calls, and what a user is told of it: the walk
 gives back the calls that were made.
 */
module TraceStories {
  import opened Wrappers
  import opened Bytes
  import opened Display
  import opened ScVal
  import opened TraceTypes
  import opened Trace
  import opened TraceReading
  import opened Sequences

  // ---------- what happens while a transaction runs ----------

  /** A callee is named by its 32 bytes, or by some hosts by its address. */
  datatype Callee = ByHash(hash: ByteString) | ByAddress(strkey: Strkey)

  /** A call, what happens during it, and what it returns; emitter is whom its two events are logged for. */
  datatype HostCall = HostCall(emitter: Option<Strkey>, callee: Callee, fn: string, args: seq<Val>,
                               body: seq<Step>, result: Val)

  /** Logs is any other diagnostic event, Unread one of a version that is not read. */
  datatype Step =
    | Invokes(call: HostCall)
    | Emits(contract: Option<Strkey>, topics: seq<Val>, data: Val)
    | Reports(name: string, value: Val)
    | Logs(emitter: Option<Strkey>, topics: seq<Val>, data: Val)
    | Unread

  predicate OtherTopics(topics: seq<Val>) {
    topics == [] || topics[0] !in {Symbol("fn_call"), Symbol("fn_return"), Symbol("core_metrics")}
  }

  predicate Proper(step: Step) {
    match step
    case Invokes(call) => (call.callee.ByHash? ==> |call.callee.hash| == 32) && AllProper(call.body)
    case Logs(_, topics, _) => OtherTopics(topics)
    case _ => true
  }

  predicate AllProper(steps: seq<Step>) {
    forall i :: 0 <= i < |steps| ==> Proper(steps[i])
  }

  // ---------- the stream it writes ----------

  /** What a reader of a value's encoding gets: its display form, or nothing if it nests too deep. */
  function Decoded(v: Val): Option<ScDisplay> {
    if Height(v) <= 8 then Some(Shows(v)) else None
  }

  function DecodedAll(vals: seq<Val>): seq<Option<ScDisplay>> {
    seq(|vals|, i requires 0 <= i < |vals| => Decoded(vals[i]))
  }

  function Logged(emitter: Option<Strkey>, topics: seq<Val>, data: Val): RawEvent {
    Versioned(false, emitter, DecodedAll(topics), Decoded(data))
  }

  function CalleeTopic(callee: Callee): Val {
    match callee
    case ByHash(hash) => Bin(hash)
    case ByAddress(a) => Addr(a)
  }

  /** A single argument is logged as it is, any other number of them as a vector. */
  function Packed(args: seq<Val>): Val {
    if |args| == 1 then args[0] else List(args)
  }

  function CallEvent(c: HostCall): RawEvent {
    Logged(c.emitter, [Symbol("fn_call"), CalleeTopic(c.callee), Symbol(c.fn)], Packed(c.args))
  }

  function ReturnEvent(c: HostCall): RawEvent {
    Logged(c.emitter, [Symbol("fn_return"), Symbol(c.fn)], c.result)
  }

  function Written(step: Step): seq<RawEvent>
    decreases step, 0
  {
    match step
    case Invokes(c) => [CallEvent(c)] + WrittenAll(c.body) + [ReturnEvent(c)]
    case Emits(contract, topics, data) => [Versioned(true, contract, DecodedAll(topics), Decoded(data))]
    case Reports(name, value) => [Logged(None, [Symbol("core_metrics"), Symbol(name)], value)]
    case Logs(emitter, topics, data) => [Logged(emitter, topics, data)]
    case Unread => [Unversioned]
  }

  function WrittenAll(steps: seq<Step>): seq<RawEvent>
    decreases steps, 1
  {
    if steps == [] then [] else WrittenAll(steps[..|steps| - 1]) + Written(steps[|steps| - 1])
  }

  // ---------- what is told of it ----------

  function CalleeOf(callee: Callee): Strkey {
    match callee
    case ByHash(hash) => Contract(hash)
    case ByAddress(a) => a
  }

  function Each(vals: seq<Val>): seq<Option<ScDisplay>> {
    seq(|vals|, i requires 0 <= i < |vals| => Some(Shows(vals[i])))
  }

  /** The arguments one by one; a vector that is the only argument is told as if its elements were the arguments. */
  function ArgsTold(args: seq<Val>): seq<Option<ScDisplay>> {
    if Height(Packed(args)) > 8 then []
    else if |args| == 1 && args[0].List? then Each(args[0].elements)
    else if |args| == 1 && args[0].NoList? then []
    else Each(args)
  }

  function ValueTold(v: Val): Option<ScDisplay> {
    if v.Void? then None else Decoded(v)
  }

  function CallTold(c: HostCall, depth: nat): Item {
    Item(depth, Called(Some(CalleeOf(c.callee)), if c.fn == "" then "unknown" else c.fn, ArgsTold(c.args),
                       ValueTold(c.result)))
  }

  function Told(step: Step, depth: nat): seq<Item>
    decreases step, 0
  {
    match step
    case Invokes(c) => [CallTold(c, depth)] + ToldAll(c.body, depth + 1)
    case Emits(contract, topics, data) => [Item(depth, Raised(contract, DecodedAll(topics), ValueTold(data)))]
    case _ => []
  }

  function ToldAll(steps: seq<Step>, depth: nat): seq<Item>
    decreases steps, 1
  {
    if steps == [] then [] else ToldAll(steps[..|steps| - 1], depth) + Told(steps[|steps| - 1], depth)
  }

  /** The tree tells the calls of the outermost level, each with all that happened during it. */
  function Story(steps: seq<Step>): seq<Item> {
    if steps == [] then []
    else
      var last := steps[|steps| - 1];
      Story(steps[..|steps| - 1]) + if last.Invokes? then Told(last, 0) else []
  }

  function CallCount(step: Step): nat
    decreases step, 0
  {
    if step.Invokes? then 1 + CallCounts(step.call.body) else 0
  }

  function CallCounts(steps: seq<Step>): nat
    decreases steps, 1
  {
    if steps == [] then 0 else CallCounts(steps[..|steps| - 1]) + CallCount(steps[|steps| - 1])
  }

  function RaiseCount(step: Step): nat
    decreases step, 0
  {
    match step
    case Invokes(c) => RaiseCounts(c.body)
    case Emits(_, _, _) => 1
    case _ => 0
  }

  function RaiseCounts(steps: seq<Step>): nat
    decreases steps, 1
  {
    if steps == [] then 0 else RaiseCounts(steps[..|steps| - 1]) + RaiseCount(steps[|steps| - 1])
  }

  /** Steps whose calls and raised events the walk has room for. */
  predicate Modest(steps: seq<Step>) {
    AllProper(steps) && CallCounts(steps) <= 500 && RaiseCounts(steps) <= 500
  }

  // ---------- the stream as the walk takes it ----------

  function Signs(step: Step): seq<Signal>
    decreases step, 0
  {
    match step
    case Invokes(c) =>
      [Enter(Some(CalleeOf(c.callee)), if c.fn == "" then "unknown" else c.fn, ArgsTold(c.args))]
      + SignsAll(c.body) + [Leave(ValueTold(c.result))]
    case Emits(contract, topics, data) => [Raise(contract, DecodedAll(topics), ValueTold(data))]
    case Reports(name, value) =>
      [if Decoded(value).Some? && Shows(value).Text? then Metric(name, Shows(value).shown) else Skip]
    case _ => [Skip]
  }

  function SignsAll(steps: seq<Step>): seq<Signal>
    decreases steps, 1
  {
    if steps == [] then [] else SignsAll(steps[..|steps| - 1]) + Signs(steps[|steps| - 1])
  }

  lemma CalleeIsRead(callee: Callee)
    requires callee.ByHash? ==> |callee.hash| == 32
    ensures ContractOf(Decoded(CalleeTopic(callee))) == Some(CalleeOf(callee))
  {
    if callee.ByHash? {
      FormatShowsWhole(callee.hash);
    }
  }

  lemma {:induction false} ShownElements(vals: seq<Val>)
    ensures |ElementsShow(vals)| == |vals| && forall i :: 0 <= i < |vals| ==> ElementsShow(vals)[i] == Shows(vals[i])
  {
    if vals == [] {
    } else {
      ShownElements(vals[1..]);
    }
  }

  lemma ListIsRead(vals: seq<Val>)
    requires ElementsHeight(vals) <= 8
    ensures ArgsOf(Decoded(List(vals))) == Each(vals)
  {
    ShownElements(vals);
  }

  lemma ArgsAreRead(args: seq<Val>)
    ensures ArgsOf(Decoded(Packed(args))) == ArgsTold(args)
  {
    var v := Packed(args);
    if Height(v) <= 8 && v.List? { ListIsRead(v.elements); }
  }

  lemma NotItsOwnItem(d: ScDisplay)
    ensures d != Vec([d])
  {
    var v := Vec([d]);
    assert v.items[1..] == [] && ItemNodes(v.items) == Nodes(d) + ItemNodes([]);
    assert Nodes(v) == 1 + Nodes(d);
  }

  /** Arguments are told as they were passed, unless a vector was the only one. */
  lemma ArgsToldExactly(args: seq<Val>)
    requires Height(Packed(args)) <= 8
    ensures ArgsTold(args) == Each(args) <==> !(|args| == 1 && (args[0].List? || args[0].NoList?))
  {
    if |args| == 1 && args[0].List? {
      var elements := args[0].elements;
      ShownElements(elements);
      if |elements| == 1 {
        assert ElementsShow(elements) == [Shows(elements[0])];
        NotItsOwnItem(Shows(elements[0]));
        assert Each(elements)[0] != Each(args)[0];
      }
    }
  }

  lemma CallIsRead(c: HostCall)
    requires c.callee.ByHash? ==> |c.callee.hash| == 32
    ensures [Classify(CallEvent(c))] ==
            [Enter(Some(CalleeOf(c.callee)), if c.fn == "" then "unknown" else c.fn, ArgsTold(c.args))]
    ensures Classify(ReturnEvent(c)) == Leave(ValueTold(c.result))
  {
    CalleeIsRead(c.callee);
    ArgsAreRead(c.args);
  }

  lemma OtherIsSkipped(emitter: Option<Strkey>, topics: seq<Val>, data: Val)
    requires OtherTopics(topics)
    ensures Classify(Logged(emitter, topics, data)) == Skip
  {
  }

  lemma SignalsConcat(a: seq<RawEvent>, b: seq<RawEvent>)
    ensures Signals(a + b) == Signals(a) + Signals(b)
  {
  }

  lemma FramedSignals(first: RawEvent, body: seq<RawEvent>, last: RawEvent)
    ensures Signals([first] + body + [last]) == [Classify(first)] + Signals(body) + [Classify(last)]
  {
  }

  lemma {:induction false} StepIsRead(step: Step)
    requires Proper(step)
    ensures Signals(Written(step)) == Signs(step)
    decreases step, 0
  {
    match step
    case Invokes(c) =>
      CallIsRead(c);
      StepsAreRead(c.body);
      FramedSignals(CallEvent(c), WrittenAll(c.body), ReturnEvent(c));
    case Logs(emitter, topics, data) => OtherIsSkipped(emitter, topics, data);
    case _ =>
  }

  lemma {:induction false} StepsAreRead(steps: seq<Step>)
    requires AllProper(steps)
    ensures Signals(WrittenAll(steps)) == SignsAll(steps)
    decreases steps, 1
  {
    if steps == [] {
    } else {
      StepsAreRead(steps[..|steps| - 1]);
      StepIsRead(steps[|steps| - 1]);
      SignalsConcat(WrittenAll(steps[..|steps| - 1]), Written(steps[|steps| - 1]));
    }
  }

  // ---------- within the caps all of it is walked ----------

  lemma {:induction false} CountsConcat(a: seq<Signal>, b: seq<Signal>)
    ensures Calls(a + b) == Calls(a) + Calls(b) && Raises(a + b) == Raises(a) + Raises(b)
  {
    if b == [] {
      assert a + b == a;
    } else {
      CountsConcat(a, b[..|b| - 1]);
      assert (a + b)[..|a + b| - 1] == a + b[..|b| - 1];
    }
  }

  lemma CountsOne(e: Signal)
    ensures Calls([e]) == (if e.Enter? then 1 else 0) && Raises([e]) == if e.Raise? then 1 else 0
  {
    assert [e][..0] == [];
  }

  lemma {:induction false} StepCounts(step: Step)
    ensures Calls(Signs(step)) == CallCount(step) && Raises(Signs(step)) == RaiseCount(step)
    decreases step, 0
  {
    var s := Signs(step);
    CountsOne(s[0]);
    if step.Invokes? {
      var body, last := SignsAll(step.call.body), s[|s| - 1];
      StepsCount(step.call.body);
      CountsConcat([s[0]] + body, [last]);
      CountsConcat([s[0]], body);
      CountsOne(last);
    }
  }

  lemma {:induction false} StepsCount(steps: seq<Step>)
    ensures Calls(SignsAll(steps)) == CallCounts(steps) && Raises(SignsAll(steps)) == RaiseCounts(steps)
    decreases steps, 1
  {
    if steps == [] {
    } else {
      StepsCount(steps[..|steps| - 1]);
      StepCounts(steps[|steps| - 1]);
      CountsConcat(SignsAll(steps[..|steps| - 1]), Signs(steps[|steps| - 1]));
    }
  }

  lemma {:induction false} UnderTheCapsAllIsKept(s: seq<Signal>)
    requires Calls(s) <= MAX_ITEMS && Raises(s) <= MAX_ITEMS
    ensures Kept(s) == |s|
  {
    if s == [] {
    } else {
      UnderTheCapsAllIsKept(s[..|s| - 1]);
    }
  }

  /** Within the caps, the walk sees the whole stream. */
  lemma AllIsWalked(steps: seq<Step>)
    requires Modest(steps)
    ensures Walked(WrittenAll(steps)) == SignsAll(steps)
    ensures |WrittenAll(steps)| == |SignsAll(steps)|
  {
    StepsAreRead(steps);
    StepsCount(steps);
    UnderTheCapsAllIsKept(SignsAll(steps));
  }

  /** The walk sees the whole stream only if it has room for it. */
  lemma CutExactlyOverTheCaps(steps: seq<Step>)
    requires AllProper(steps)
    ensures |Walked(WrittenAll(steps))| == |WrittenAll(steps)| <==> Modest(steps)
  {
    StepsAreRead(steps);
    StepsCount(steps);
    var s := SignsAll(steps);
    KeptIsUnderTheCaps(s);
    if Kept(s) == |s| { assert s[..Kept(s)] == s; }
    if Modest(steps) { UnderTheCapsAllIsKept(s); }
  }

  // ---------- the timeline is the story ----------

  lemma {:induction false} StepPlays(s: seq<Signal>, open: seq<nat>, step: Step)
    requires Waiting(s, open)
    ensures Waiting(s + Signs(step), open)
    ensures Timeline(s + Signs(step)) == Timeline(s) + Told(step, |open|)
    decreases step, 0
  {
    if step.Invokes? {
      CallPlays(s, open, step.call);
    } else {
      PlainStepPlays(s, open, step);
    }
  }

  lemma PlainStepPlays(s: seq<Signal>, open: seq<nat>, step: Step)
    requires Waiting(s, open) && !step.Invokes?
    ensures Waiting(s + Signs(step), open)
    ensures Timeline(s + Signs(step)) == Timeline(s) + Told(step, |open|)
  {
    var e := Signs(step)[0];
    assert Signs(step) == [e];
    WaitingPassing(s, open, e);
    TimelinePassing(s, e);
  }

  lemma FrameOpens(s: seq<Signal>, open: seq<nat>, e: Signal)
    requires Waiting(s, open) && e.Enter?
    ensures Waiting(s + [e], open + [|Timeline(s)|])
    ensures Timeline(s + [e]) == Timeline(s) + [Item(|open|, Called(e.contract, e.fn, e.args, None))]
  {
    WaitingEnter(s, open, e);
    TimelinePassing(s, e);
  }

  lemma FrameCloses(s: seq<Signal>, open: seq<nat>, k: nat, e: Signal)
    requires Waiting(s, open + [k]) && e.Leave?
    ensures Waiting(s + [e], open)
    ensures var t := Timeline(s);
            IsCall(t, k) && Timeline(s + [e]) == t[k := t[k].(content := t[k].content.(result := e.result))]
  {
    WaitingLeave(s, open + [k], e);
    TimelineLeave(s, open + [k], e);
    assert (open + [k])[..|open|] == open;
  }

  lemma {:induction false} CallPlays(s: seq<Signal>, open: seq<nat>, c: HostCall)
    requires Waiting(s, open)
    ensures Waiting(s + Signs(Invokes(c)), open)
    ensures Timeline(s + Signs(Invokes(c))) == Timeline(s) + Told(Invokes(c), |open|)
    decreases c, 2
  {
    var x := CallTold(c, |open|);
    var enter, leave := Enter(x.content.contract, x.content.fn, x.content.args), Leave(x.content.result);
    var s1, k := s + [enter], |Timeline(s)|;
    FrameOpens(s, open, enter);
    StepsPlay(s1, open + [k], c.body);
    FrameCloses(s1 + SignsAll(c.body), open, k, leave);
    ResultIsTold(Timeline(s), x, ToldAll(c.body, |open| + 1));
    SignsOfCall(s, c, |open|);
  }

  /** A call enters, does what it does, and leaves. */
  lemma SignsOfCall(s: seq<Signal>, c: HostCall, depth: nat)
    ensures var x := CallTold(c, depth).content;
            s + Signs(Invokes(c)) == s + [Enter(x.contract, x.fn, x.args)] + SignsAll(c.body) + [Leave(x.result)]
  {
  }

  lemma ResultIsTold(before: seq<Item>, x: Item, body: seq<Item>)
    requires x.content.Called?
    ensures var t := before + [x.(content := x.content.(result := None))] + body;
            && IsCall(t, |before|)
            && t[|before| := t[|before|].(content := t[|before|].content.(result := x.content.result))]
            == before + ([x] + body)
  {
  }

  lemma {:induction false} StepsPlay(s: seq<Signal>, open: seq<nat>, steps: seq<Step>)
    requires Waiting(s, open)
    ensures Waiting(s + SignsAll(steps), open)
    ensures Timeline(s + SignsAll(steps)) == Timeline(s) + ToldAll(steps, |open|)
    decreases steps, 1
  {
    if steps == [] {
      assert s + [] == s;
    } else {
      var init, last := steps[..|steps| - 1], steps[|steps| - 1];
      StepsPlay(s, open, init);
      StepPlays(s + SignsAll(init), open, last);
      ConcatIsAssociative(s, SignsAll(init), Signs(last));
      ConcatIsAssociative(Timeline(s), ToldAll(init, |open|), Told(last, |open|));
    }
  }

  lemma TimelineIsTold(steps: seq<Step>)
    ensures Timeline(SignsAll(steps)) == ToldAll(steps, 0)
  {
    StepsPlay([], [], steps);
    assert [] + SignsAll(steps) == SignsAll(steps) && Timeline([]) + ToldAll(steps, 0) == ToldAll(steps, 0);
  }

  // ---------- the tree and what is left outside it ----------

  lemma {:induction false} ToldBelow(steps: seq<Step>, depth: nat)
    ensures forall i :: 0 <= i < |ToldAll(steps, depth)| ==> ToldAll(steps, depth)[i].depth >= depth
    decreases steps, 1
  {
    if steps == [] {
    } else {
      ToldBelow(steps[..|steps| - 1], depth);
      StepToldBelow(steps[|steps| - 1], depth);
    }
  }

  lemma {:induction false} StepToldBelow(step: Step, depth: nat)
    ensures forall i :: 0 <= i < |Told(step, depth)| ==> Told(step, depth)[i].depth >= depth
    ensures step.Invokes? ==> forall i :: 1 <= i < |Told(step, depth)| ==> Told(step, depth)[i].depth > depth
    decreases step, 0
  {
    if step.Invokes? { ToldBelow(step.call.body, depth + 1); }
  }

  lemma StepIsFramed(step: Step)
    ensures Framed(Told(step, 0)) == if step.Invokes? then Told(step, 0) else []
  {
    if step.Invokes? {
      StepToldBelow(step, 0);
      FramedWhole(Told(step, 0));
    } else if step.Emits? {
      assert Told(step, 0)[1..] == [];
    }
  }

  lemma {:induction false} StoryIsFramed(steps: seq<Step>)
    ensures Framed(ToldAll(steps, 0)) == Story(steps)
  {
    if steps == [] {
    } else {
      var init, last := steps[..|steps| - 1], steps[|steps| - 1];
      StoryIsFramed(init);
      StepIsFramed(last);
      FramedConcat(ToldAll(init, 0), Told(last, 0));
    }
  }

  /** The events raised with no call open. */
  function LooseOf(t: seq<Item>): seq<Content> {
    if t == [] then []
    else
      var x := t[|t| - 1];
      LooseOf(t[..|t| - 1]) + if x.depth == 0 && x.content.Raised? then [x.content] else []
  }

  function ContentsOf(events: seq<TraceEvent>): seq<Content> {
    seq(|events|, i requires 0 <= i < |events| => Raised(events[i].contract, events[i].topics, events[i].data))
  }

  lemma {:induction false} LooseAreRoots(t: seq<Item>)
    ensures ContentsOf(EventsAmong(t, Roots(t))) == LooseOf(t)
  {
    if t == [] {
    } else {
      var init, x := t[..|t| - 1], t[|t| - 1];
      LooseAreRoots(init);
      RootListsGrow(init, x);
      assert init + [x] == t;
    }
  }

  lemma {:induction false} LooseConcat(a: seq<Item>, b: seq<Item>)
    ensures LooseOf(a + b) == LooseOf(a) + LooseOf(b)
  {
    if b == [] {
      assert a + b == a;
    } else {
      LooseConcat(a, b[..|b| - 1]);
      assert (a + b)[..|a + b| - 1] == a + b[..|b| - 1];
    }
  }

  lemma {:induction false} NothingLoose(t: seq<Item>)
    requires forall i :: 0 <= i < |t| ==> t[i].depth > 0 || t[i].content.Called?
    ensures LooseOf(t) == []
  {
    if t == [] {
    } else {
      NothingLoose(t[..|t| - 1]);
    }
  }

  function Loose(steps: seq<Step>): seq<Content> {
    if steps == [] then []
    else
      var last := steps[|steps| - 1];
      Loose(steps[..|steps| - 1])
      + if last.Emits? then [Raised(last.contract, DecodedAll(last.topics), ValueTold(last.data))] else []
  }

  lemma {:induction false} LooseIsTold(steps: seq<Step>)
    ensures LooseOf(ToldAll(steps, 0)) == Loose(steps)
  {
    if steps == [] {
    } else {
      var init, last := steps[..|steps| - 1], steps[|steps| - 1];
      LooseIsTold(init);
      LooseConcat(ToldAll(init, 0), Told(last, 0));
      if last.Invokes? {
        StepToldBelow(last, 0);
        NothingLoose(Told(last, 0));
      } else if last.Emits? {
        assert Told(last, 0)[..0] == [];
      }
    }
  }

  // ---------- the counters ----------

  /** The counters reported, the last value of each name counting. */
  function Counters(before: map<string, Shown>, step: Step): map<string, Shown>
    decreases step, 0
  {
    match step
    case Invokes(c) => AllCounters(before, c.body)
    case Reports(name, value) =>
      if Height(value) <= 8 && Shows(value).Text? then before[name := Shows(value).shown] else before
    case _ => before
  }

  function AllCounters(before: map<string, Shown>, steps: seq<Step>): map<string, Shown>
    decreases steps, 1
  {
    if steps == [] then before
    else Counters(AllCounters(before, steps[..|steps| - 1]), steps[|steps| - 1])
  }

  lemma MetricsSnoc(s: seq<Signal>, e: Signal)
    ensures MetricsOf(s + [e]) == if e.Metric? then MetricsOf(s)[e.name := e.value] else MetricsOf(s)
  {
    assert (s + [e])[..|s|] == s;
  }

  lemma {:induction false} StepMetrics(s: seq<Signal>, step: Step)
    ensures MetricsOf(s + Signs(step)) == Counters(MetricsOf(s), step)
    decreases step, 0
  {
    if step.Invokes? {
      CallMetrics(s, step.call);
    } else {
      MetricsSnoc(s, Signs(step)[0]);
      assert Signs(step) == [Signs(step)[0]];
    }
  }

  lemma {:induction false} CallMetrics(s: seq<Signal>, c: HostCall)
    ensures MetricsOf(s + Signs(Invokes(c))) == AllCounters(MetricsOf(s), c.body)
    decreases c, 2
  {
    var x := CallTold(c, 0);
    var enter, leave := Enter(x.content.contract, x.content.fn, x.content.args), Leave(x.content.result);
    MetricsSnoc(s, enter);
    StepsMetrics(s + [enter], c.body);
    MetricsSnoc(s + [enter] + SignsAll(c.body), leave);
    SignsOfCall(s, c, 0);
  }

  lemma {:induction false} StepsMetrics(s: seq<Signal>, steps: seq<Step>)
    ensures MetricsOf(s + SignsAll(steps)) == AllCounters(MetricsOf(s), steps)
    decreases steps, 1
  {
    if steps == [] {
      assert s + [] == s;
    } else {
      var init, last := steps[..|steps| - 1], steps[|steps| - 1];
      StepsMetrics(s, init);
      StepMetrics(s + SignsAll(init), last);
      ConcatIsAssociative(s, SignsAll(init), Signs(last));
    }
  }

  /** The stream of what happened, walked and framed, is the story of what happened. */
  lemma StoryIsKept(steps: seq<Step>)
    requires Modest(steps)
    ensures var s := Walked(WrittenAll(steps));
            && |s| == |WrittenAll(steps)|
            && Framed(Timeline(s)) == Story(steps)
            && ContentsOf(EventsAmong(Timeline(s), Roots(Timeline(s)))) == Loose(steps)
            && Calls(s) == CallCounts(steps)
            && MetricsOf(s) == AllCounters(map[], steps)
  {
    AllIsWalked(steps);
    StepsCount(steps);
    TimelineIsTold(steps);
    StoryIsFramed(steps);
    LooseAreRoots(ToldAll(steps, 0));
    LooseIsTold(steps);
    StepsMetrics([], steps);
    assert [] + SignsAll(steps) == SignsAll(steps);
  }

  // ---------- token movements ----------

  /** Of the events that begin with a symbol, these move tokens. */
  lemma MovesExactly(contract: Option<Strkey>, topics: seq<Val>, data: Val, n: nat)
    requires topics != [] && topics[0].Symbol?
    ensures MovesTokens(TraceEvent(contract, DecodedAll(topics), ValueTold(data), n)) <==>
            && data.Num? && data.form in {I128, U128, I64, U64, I32, U32}
            && match topics[0].text
               case "transfer" => (|topics| > 1 && topics[1].Addr?) || (|topics| > 2 && topics[2].Addr?)
               case "mint" => |topics| > 1 && topics[1].Addr?
               case "burn" => |topics| > 1 && topics[1].Addr?
               case "clawback" => |topics| > 1 && topics[1].Addr?
               case _ => false
  {
  }
}
