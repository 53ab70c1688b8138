/** What the single-flight protocol promises the requests, in every interleaving. */
module FlightPromises {
  import opened SingleFlight

  ghost predicate IsLeading(s: State, id: nat, key: string) {
    id in s.requests && IsLeader(s.requests[id]) && s.requests[id].key == key
  }

  /** A key is in flight exactly when one request leads it, and never do two. */
  lemma OneLeaderAKey(run: seq<Event>, key: string, i: nat, j: nat)
    ensures var s := Execute(run);
            && (key in s.inFlight <==> exists id :: IsLeading(s, id, key))
            && (IsLeading(s, i, key) && IsLeading(s, j, key) ==> i == j)
  {
    RunKeeps(run);
    var s := Execute(run);
    if key in s.inFlight {
      assert Leads(s.requests, s.owner[key], key, s.inFlight[key]);
      assert IsLeading(s, s.owner[key], key);
    }
    forall id | IsLeading(s, id, key) ensures Owns(s.owner, id, key) {
      assert Owns(s.owner, id, s.requests[id].key);
    }
  }

  /** A release closes one channel, its leader's own, and never one that is closed already. */
  lemma NoChannelIsClosedTwice(run: seq<Event>, id: nat)
    requires Enabled(Execute(run), Release(id))
    ensures var s := Execute(run);
            var c := s.requests[id].channel;
            c !in s.closed && Apply(s, Release(id)).closed == s.closed + {c}
  {
    RunKeeps(run);
    ReleaseClosesItsOwn(Execute(run), id);
  }

  /** What a leader still does if everything from here on fails for it. */
  function Remaining(s: State, leader: nat): seq<Event>
    requires leader in s.requests
  {
    match s.requests[leader]
    case Leading(key, channel) => [ResolveError(leader), Release(leader)]
    case Storing(key, channel, entry) => [Store(leader, {}), Release(leader)]
    case Releasing(key, channel, outcome) => [Release(leader)]
    case _ => []
  }

  lemma ReleaseWakes(s: State, leader: nat, waiter: nat)
    requires Enabled(s, Release(leader)) && waiter in s.requests && s.requests[waiter].Waiting?
    requires s.requests[leader].key in s.inFlight
    requires s.inFlight[s.requests[leader].key] == s.requests[waiter].channel
    ensures Enabled(Apply(s, Release(leader)), Wake(waiter))
  {
  }

  lemma OneEvent(s: State, e: Event)
    ensures ExecuteFrom(s, [e]) == Apply(s, e)
  {
    assert [e][..0] == [];
    assert ExecuteFrom(s, []) == s;
  }

  lemma TwoEvents(s: State, e: Event, f: Event)
    ensures ExecuteFrom(s, [e, f]) == Apply(Apply(s, e), f)
  {
    assert [e, f][..1] == [e];
    OneEvent(s, e);
  }

  /** Even if resolving fails, a leader that finishes wakes those who wait on its channel. */
  lemma LeaderWakes(s: State, leader: nat, waiter: nat)
    requires leader in s.requests && IsLeader(s.requests[leader])
    requires waiter in s.requests && s.requests[waiter].Waiting?
    requires s.requests[leader].key in s.inFlight
    requires s.inFlight[s.requests[leader].key] == s.requests[waiter].channel
    ensures Enabled(ExecuteFrom(s, Remaining(s, leader)), Wake(waiter))
  {
    match s.requests[leader]
    case Leading(key, channel) =>
      TwoEvents(s, ResolveError(leader), Release(leader));
      ReleaseWakes(Apply(s, ResolveError(leader)), leader, waiter);
    case Storing(key, channel, entry) =>
      TwoEvents(s, Store(leader, {}), Release(leader));
      ReleaseWakes(Apply(s, Store(leader, {})), leader, waiter);
    case Releasing(key, channel, outcome) =>
      OneEvent(s, Release(leader));
      ReleaseWakes(s, leader, waiter);
    case _ =>
  }

  /**
   No waiter is stranded: its channel is closed already, or a leader that is still there
   owns it and, even if resolving fails, wakes it by the time it is done.
   */
  lemma NoWaiterIsStranded(run: seq<Event>, waiter: nat)
    requires waiter in Execute(run).requests && Execute(run).requests[waiter].Waiting?
    ensures var s := Execute(run);
            || Enabled(s, Wake(waiter))
            || exists leader :: IsLeading(s, leader, s.requests[waiter].key)
                 && Enabled(ExecuteFrom(s, Remaining(s, leader)), Wake(waiter))
  {
    RunKeeps(run);
    var s := Execute(run);
    var w := s.requests[waiter];
    assert Reachable(s.inFlight, s.closed, w.key, w.channel);
    if w.channel !in s.closed {
      var leader := s.owner[w.key];
      assert Leads(s.requests, leader, w.key, w.channel);
      assert IsLeading(s, leader, w.key);
      LeaderWakes(s, leader, waiter);
    }
  }

  /** Everything cached, and everything handed to a request, was resolved for its key without error. */
  lemma OnlyResolvedOutcomesAreShown(run: seq<Event>, key: string, id: nat)
    ensures var s := Execute(run);
            && (key in s.cache ==> (key, s.cache[key]) in s.resolved)
            && (id in s.requests && s.requests[id].Finished? && s.requests[id].outcome.Hit? ==>
                  (s.requests[id].key, s.requests[id].outcome.entry) in s.resolved)
  {
    RunKeeps(run);
    if id in Execute(run).requests {
      assert Honest(Execute(run).resolved, Execute(run).requests[id]);
    }
  }
}
