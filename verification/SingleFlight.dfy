/**
 The single-flight protocol of the icon service: requests that miss the cache agree on one
 leader a key, the others wait on its channel, and only what a leader resolved without
 error reaches the cache. A leader always gets to its release, even when resolving fails.
 */
module SingleFlight {
  import opened IconCache

  type Channel = nat

  datatype Outcome = Hit(entry: Entry) | Failed | Cancelled

  datatype Request =
    | Looking(key: string)
    | Claiming(key: string)
    | Waiting(key: string, channel: Channel)
    | Leading(key: string, channel: Channel)
    | Storing(key: string, channel: Channel, entry: Entry)
    | Releasing(key: string, channel: Channel, outcome: Outcome)
    | Finished(key: string, outcome: Outcome)

  /**
   made counts the channels ever made. Two fields only record history: owner, who won the
   claim of a key in flight, and resolved, every outcome a leader got without error.
   */
  datatype State = State(inFlight: map<string, Channel>, closed: set<Channel>, made: nat, owner: map<string, nat>,
                         requests: map<nat, Request>, cache: map<string, Entry>, resolved: set<(string, Entry)>)

  datatype Event =
    | Arrive(id: nat, key: string)
    | Lookup(id: nat, recent: bool)
    | Claim(id: nat)
    | Wake(id: nat)
    | Cancel(id: nat)
    | ResolveOk(id: nat, entry: Entry)
    | ResolveError(id: nat)
    | Store(id: nat, evicted: set<string>)
    | Release(id: nat)

  const EMPTY := State(map[], {}, 0, map[], map[], map[], {})

  predicate IsLeader(r: Request) {
    r.Leading? || r.Storing? || r.Releasing?
  }

  predicate Enabled(s: State, e: Event) {
    if e.Arrive? then e.id !in s.requests
    else
      e.id in s.requests &&
      var r := s.requests[e.id];
      match e
      case Lookup(id, recent) => r.Looking?
      case Claim(id) => r.Claiming?
      case Wake(id) => r.Waiting? && r.channel in s.closed
      case Cancel(id) => r.Waiting?
      case ResolveOk(id, entry) => r.Leading?
      case ResolveError(id) => r.Leading?
      case Store(id, evicted) => r.Storing?
      case Release(id) => r.Releasing?
      case _ => false
  }

  function With(s: State, id: nat, r: Request): State {
    s.(requests := s.requests[id := r])
  }

  /** A key already in flight is waited for; otherwise the caller leads under a new channel. */
  function AfterClaim(s: State, id: nat): State
    requires Enabled(s, Claim(id))
  {
    var key := s.requests[id].key;
    if key in s.inFlight then With(s, id, Waiting(key, s.inFlight[key]))
    else With(s.(inFlight := s.inFlight[key := s.made], made := s.made + 1, owner := s.owner[key := id]),
              id, Leading(key, s.made))
  }

  /** Release closes and removes whatever channel the key has. */
  function AfterRelease(s: State, id: nat): State
    requires Enabled(s, Release(id))
  {
    var r := s.requests[id];
    var s' := With(s, id, Finished(r.key, r.outcome));
    if r.key in s.inFlight then
      s'.(closed := s.closed + {s.inFlight[r.key]}, inFlight := s.inFlight - {r.key}, owner := s.owner - {r.key})
    else s'
  }

  function Apply(s: State, e: Event): State {
    if !Enabled(s, e) then s
    else match e
      case Arrive(id, key) => With(s, id, Looking(key))
      case Lookup(id, recent) =>
        var key := s.requests[id].key;
        With(s, id, if recent && key in s.cache then Finished(key, Hit(s.cache[key])) else Claiming(key))
      case Claim(id) => AfterClaim(s, id)
      case Wake(id) => With(s, id, Looking(s.requests[id].key))
      case Cancel(id) => With(s, id, Finished(s.requests[id].key, Cancelled))
      case ResolveOk(id, entry) =>
        var r := s.requests[id];
        With(s.(resolved := s.resolved + {(r.key, entry)}), id, Storing(r.key, r.channel, entry))
      case ResolveError(id) => With(s, id, Releasing(s.requests[id].key, s.requests[id].channel, Failed))
      case Store(id, evicted) =>
        var r := s.requests[id];
        With(s.(cache := s.cache[r.key := r.entry] - evicted), id, Releasing(r.key, r.channel, Hit(r.entry)))
      case Release(id) => AfterRelease(s, id)
  }

  function ExecuteFrom(s: State, run: seq<Event>): State {
    if run == [] then s else Apply(ExecuteFrom(s, run[..|run| - 1]), run[|run| - 1])
  }

  function Execute(run: seq<Event>): State {
    ExecuteFrom(EMPTY, run)
  }

  // ---------- what every interleaving keeps ----------

  type Requests = map<nat, Request>

  ghost predicate Leads(requests: Requests, id: nat, key: string, channel: Channel) {
    id in requests && IsLeader(requests[id]) && requests[id].key == key && requests[id].channel == channel
  }

  ghost predicate Owns(owner: map<string, nat>, id: nat, key: string) {
    key in owner && owner[key] == id
  }

  /** The keys in flight and the leaders are the same thing seen from two sides. */
  ghost predicate LeadersKept(inFlight: map<string, Channel>, owner: map<string, nat>, requests: Requests) {
    && owner.Keys == inFlight.Keys
    && (forall k :: k in inFlight ==> Leads(requests, owner[k], k, inFlight[k]))
    && (forall id :: id in requests && IsLeader(requests[id]) ==> Owns(owner, id, requests[id].key))
  }

  ghost predicate ChannelsKept(inFlight: map<string, Channel>, closed: set<Channel>, made: nat) {
    && (forall k :: k in inFlight ==> inFlight[k] < made && inFlight[k] !in closed)
    && (forall k, l :: k in inFlight && l in inFlight && k != l ==> inFlight[k] != inFlight[l])
    && (forall c :: c in closed ==> c < made)
  }

  /** A waiter's channel is closed already, or its key has it in flight. */
  ghost predicate Reachable(inFlight: map<string, Channel>, closed: set<Channel>, key: string, channel: Channel) {
    channel in closed || (key in inFlight && inFlight[key] == channel)
  }

  ghost predicate WaitersKept(inFlight: map<string, Channel>, closed: set<Channel>, requests: Requests) {
    forall id :: id in requests && requests[id].Waiting? ==>
      Reachable(inFlight, closed, requests[id].key, requests[id].channel)
  }

  /** Whatever a request is about to store or hands back was resolved for its key. */
  ghost predicate Honest(resolved: set<(string, Entry)>, r: Request) {
    match r
    case Storing(key, channel, entry) => (key, entry) in resolved
    case Releasing(key, channel, outcome) => outcome.Hit? ==> (key, outcome.entry) in resolved
    case Finished(key, outcome) => outcome.Hit? ==> (key, outcome.entry) in resolved
    case _ => true
  }

  ghost predicate OutcomesKept(cache: map<string, Entry>, resolved: set<(string, Entry)>, requests: Requests) {
    && (forall k :: k in cache ==> (k, cache[k]) in resolved)
    && (forall id :: id in requests ==> Honest(resolved, requests[id]))
  }

  ghost predicate Kept(s: State) {
    && LeadersKept(s.inFlight, s.owner, s.requests)
    && ChannelsKept(s.inFlight, s.closed, s.made)
    && WaitersKept(s.inFlight, s.closed, s.requests)
    && OutcomesKept(s.cache, s.resolved, s.requests)
  }

  // ---------- one request moves on ----------

  /** A request that moves on without starting or ceasing to lead. */
  ghost predicate SameRole(requests: Requests, id: nat, r: Request) {
    if id in requests && IsLeader(requests[id])
    then IsLeader(r) && r.key == requests[id].key && r.channel == requests[id].channel
    else !IsLeader(r)
  }

  lemma SameRoleKeepsLeaders(inFlight: map<string, Channel>, owner: map<string, nat>, requests: Requests, id: nat,
      r: Request)
    requires LeadersKept(inFlight, owner, requests) && SameRole(requests, id, r)
    ensures LeadersKept(inFlight, owner, requests[id := r])
  {
    var after := requests[id := r];
    forall k | k in inFlight ensures Leads(after, owner[k], k, inFlight[k]) {
      assert Leads(requests, owner[k], k, inFlight[k]);
    }
    forall i | i in after && IsLeader(after[i]) ensures Owns(owner, i, after[i].key) {
      assert Owns(owner, i, requests[i].key);
    }
  }

  lemma MovingOnKeepsWaiters(inFlight: map<string, Channel>, closed: set<Channel>, requests: Requests, id: nat,
      r: Request)
    requires WaitersKept(inFlight, closed, requests)
    requires r.Waiting? ==> Reachable(inFlight, closed, r.key, r.channel)
    ensures WaitersKept(inFlight, closed, requests[id := r])
  {
  }

  lemma MovingOnKeepsOutcomes(cache: map<string, Entry>, resolved: set<(string, Entry)>, requests: Requests, id: nat,
      r: Request)
    requires OutcomesKept(cache, resolved, requests) && Honest(resolved, r)
    ensures OutcomesKept(cache, resolved, requests[id := r])
  {
  }

  lemma SameRoleKeeps(s: State, id: nat, r: Request)
    requires Kept(s) && SameRole(s.requests, id, r) && Honest(s.resolved, r)
    requires r.Waiting? ==> Reachable(s.inFlight, s.closed, r.key, r.channel)
    ensures Kept(With(s, id, r))
  {
    SameRoleKeepsLeaders(s.inFlight, s.owner, s.requests, id, r);
    MovingOnKeepsWaiters(s.inFlight, s.closed, s.requests, id, r);
    MovingOnKeepsOutcomes(s.cache, s.resolved, s.requests, id, r);
  }

  // ---------- claiming ----------

  lemma NewLeader(inFlight: map<string, Channel>, owner: map<string, nat>, requests: Requests, id: nat, key: string,
      made: nat)
    requires LeadersKept(inFlight, owner, requests) && key !in inFlight
    requires id in requests && !IsLeader(requests[id])
    ensures LeadersKept(inFlight[key := made], owner[key := id], requests[id := Leading(key, made)])
  {
    var inFlight', owner', requests' := inFlight[key := made], owner[key := id], requests[id := Leading(key, made)];
    forall k | k in inFlight' ensures Leads(requests', owner'[k], k, inFlight'[k]) {
      if k != key { assert Leads(requests, owner[k], k, inFlight[k]); }
    }
    forall i | i in requests' && IsLeader(requests'[i]) ensures Owns(owner', i, requests'[i].key) {
      if i != id { assert Owns(owner, i, requests[i].key); }
    }
  }

  lemma NewChannel(inFlight: map<string, Channel>, closed: set<Channel>, made: nat, requests: Requests, key: string)
    requires ChannelsKept(inFlight, closed, made) && WaitersKept(inFlight, closed, requests) && key !in inFlight
    ensures ChannelsKept(inFlight[key := made], closed, made + 1)
    ensures WaitersKept(inFlight[key := made], closed, requests)
  {
  }

  lemma WinKeeps(s: State, id: nat)
    requires Kept(s) && Enabled(s, Claim(id)) && s.requests[id].key !in s.inFlight
    ensures Kept(AfterClaim(s, id))
  {
    var key, r := s.requests[id].key, Leading(s.requests[id].key, s.made);
    NewLeader(s.inFlight, s.owner, s.requests, id, key, s.made);
    NewChannel(s.inFlight, s.closed, s.made, s.requests, key);
    MovingOnKeepsWaiters(s.inFlight[key := s.made], s.closed, s.requests, id, r);
    MovingOnKeepsOutcomes(s.cache, s.resolved, s.requests, id, r);
  }

  // ---------- releasing ----------

  /** Release closes the leader's own channel, which nothing has closed before. */
  lemma ReleaseClosesItsOwn(s: State, id: nat)
    requires Kept(s) && Enabled(s, Release(id))
    ensures var r := s.requests[id];
            r.key in s.inFlight && s.inFlight[r.key] == r.channel && r.channel !in s.closed
  {
    var r := s.requests[id];
    assert Owns(s.owner, id, r.key);
    assert Leads(s.requests, id, r.key, s.inFlight[r.key]);
  }

  lemma LeaderGone(inFlight: map<string, Channel>, owner: map<string, nat>, requests: Requests, id: nat, r: Request)
    requires LeadersKept(inFlight, owner, requests) && id in requests && IsLeader(requests[id]) && !IsLeader(r)
    ensures LeadersKept(inFlight - {requests[id].key}, owner - {requests[id].key}, requests[id := r])
  {
    var key := requests[id].key;
    var inFlight', owner', requests' := inFlight - {key}, owner - {key}, requests[id := r];
    assert Owns(owner, id, key);
    forall k | k in inFlight' ensures Leads(requests', owner'[k], k, inFlight'[k]) {
      assert Leads(requests, owner[k], k, inFlight[k]);
    }
    forall i | i in requests' && IsLeader(requests'[i]) ensures Owns(owner', i, requests'[i].key) {
      assert Owns(owner, i, requests[i].key);
    }
  }

  lemma ChannelGone(inFlight: map<string, Channel>, closed: set<Channel>, made: nat, requests: Requests, key: string)
    requires ChannelsKept(inFlight, closed, made) && WaitersKept(inFlight, closed, requests) && key in inFlight
    ensures ChannelsKept(inFlight - {key}, closed + {inFlight[key]}, made)
    ensures WaitersKept(inFlight - {key}, closed + {inFlight[key]}, requests)
  {
    forall i | i in requests && requests[i].Waiting?
      ensures Reachable(inFlight - {key}, closed + {inFlight[key]}, requests[i].key, requests[i].channel)
    {
      assert Reachable(inFlight, closed, requests[i].key, requests[i].channel);
    }
  }

  lemma ReleaseKeeps(s: State, id: nat)
    requires Kept(s) && Enabled(s, Release(id))
    ensures Kept(AfterRelease(s, id))
  {
    ReleaseClosesItsOwn(s, id);
    var key, r := s.requests[id].key, Finished(s.requests[id].key, s.requests[id].outcome);
    LeaderGone(s.inFlight, s.owner, s.requests, id, r);
    ChannelGone(s.inFlight, s.closed, s.made, s.requests, key);
    MovingOnKeepsWaiters(s.inFlight - {key}, s.closed + {s.inFlight[key]}, s.requests, id, r);
    assert Honest(s.resolved, s.requests[id]);
    MovingOnKeepsOutcomes(s.cache, s.resolved, s.requests, id, r);
  }

  // ---------- resolving and storing ----------

  lemma MoreResolved(cache: map<string, Entry>, resolved: set<(string, Entry)>, requests: Requests, x: (string, Entry))
    requires OutcomesKept(cache, resolved, requests)
    ensures OutcomesKept(cache, resolved + {x}, requests)
  {
    forall id | id in requests ensures Honest(resolved + {x}, requests[id]) {
      assert Honest(resolved, requests[id]);
    }
  }

  lemma ResolveKeeps(s: State, id: nat, entry: Entry)
    requires Kept(s) && Enabled(s, ResolveOk(id, entry))
    ensures Kept(Apply(s, ResolveOk(id, entry)))
  {
    var r := s.requests[id];
    MoreResolved(s.cache, s.resolved, s.requests, (r.key, entry));
    SameRoleKeeps(s.(resolved := s.resolved + {(r.key, entry)}), id, Storing(r.key, r.channel, entry));
  }

  lemma MoreCached(cache: map<string, Entry>, resolved: set<(string, Entry)>, requests: Requests, key: string,
                   entry: Entry, evicted: set<string>)
    requires OutcomesKept(cache, resolved, requests) && (key, entry) in resolved
    ensures OutcomesKept(cache[key := entry] - evicted, resolved, requests)
  {
  }

  lemma StoreKeeps(s: State, id: nat, evicted: set<string>)
    requires Kept(s) && Enabled(s, Store(id, evicted))
    ensures Kept(Apply(s, Store(id, evicted)))
  {
    var r := s.requests[id];
    assert Honest(s.resolved, r);
    MoreCached(s.cache, s.resolved, s.requests, r.key, r.entry, evicted);
    SameRoleKeeps(s.(cache := s.cache[r.key := r.entry] - evicted), id, Releasing(r.key, r.channel, Hit(r.entry)));
  }

  // ---------- any step, any run ----------

  lemma LookupKeeps(s: State, id: nat, recent: bool)
    requires Kept(s) && Enabled(s, Lookup(id, recent))
    ensures Kept(Apply(s, Lookup(id, recent)))
  {
    SameRoleKeeps(s, id, Apply(s, Lookup(id, recent)).requests[id]);
  }

  lemma ClaimKeeps(s: State, id: nat)
    requires Kept(s) && Enabled(s, Claim(id))
    ensures Kept(AfterClaim(s, id))
  {
    var key := s.requests[id].key;
    if key in s.inFlight {
      SameRoleKeeps(s, id, Waiting(key, s.inFlight[key]));
    } else {
      WinKeeps(s, id);
    }
  }

  lemma StepKeeps(s: State, e: Event)
    requires Kept(s)
    ensures Kept(Apply(s, e))
  {
    if Enabled(s, e) {
      match e
      case Arrive(id, key) => SameRoleKeeps(s, id, Looking(key));
      case Lookup(id, recent) => LookupKeeps(s, id, recent);
      case Claim(id) => ClaimKeeps(s, id);
      case Wake(id) => SameRoleKeeps(s, id, Looking(s.requests[id].key));
      case Cancel(id) => SameRoleKeeps(s, id, Finished(s.requests[id].key, Cancelled));
      case ResolveOk(id, entry) => ResolveKeeps(s, id, entry);
      case ResolveError(id) =>
        SameRoleKeeps(s, id, Releasing(s.requests[id].key, s.requests[id].channel, Failed));
      case Store(id, evicted) => StoreKeeps(s, id, evicted);
      case Release(id) => ReleaseKeeps(s, id);
    }
  }

  lemma {:induction false} RunKeeps(run: seq<Event>)
    ensures Kept(Execute(run))
  {
    if run == [] {
    } else {
      RunKeeps(run[..|run| - 1]);
      StepKeeps(Execute(run[..|run| - 1]), run[|run| - 1]);
    }
  }

  // ---------- the two locked sections ----------

  /** The in-flight table as the service holds it; a channel is its number. */
  class Flights {
    var inFlight: map<string, Channel>
    var made: nat
    var closed: set<Channel>

    constructor ()
      ensures inFlight == map[] && made == 0 && closed == {}
    {
      inFlight, made, closed := map[], 0, {};
    }

    /** This table among the rest of the service. */
    ghost predicate Shows(s: State)
      reads this
    {
      inFlight == s.inFlight && made == s.made && closed == s.closed
    }

    method Claim(key: string) returns (done: Channel, leader: bool)
      modifies this
      ensures leader <==> key !in old(inFlight)
      ensures forall s, id :: old(Shows(s)) && Enabled(s, Event.Claim(id)) && s.requests[id].key == key ==>
                && Shows(Apply(s, Event.Claim(id)))
                && Apply(s, Event.Claim(id)).requests[id] == if leader then Leading(key, done) else Waiting(key, done)
    {
      if key in inFlight {
        return inFlight[key], false;
      }
      done, leader := made, true;
      made := made + 1;
      inFlight := inFlight[key := done];
    }

    method Release(key: string)
      modifies this
      ensures forall s, id :: old(Shows(s)) && Enabled(s, Event.Release(id)) && s.requests[id].key == key ==>
                Shows(Apply(s, Event.Release(id)))
    {
      if key in inFlight {
        closed := closed + {inFlight[key]};
        inFlight := inFlight - {key};
      }
    }
  }
}
