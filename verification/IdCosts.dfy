/** What stops a save although everything is published: names without ids, texts without a column. */
module IdCosts {
  import opened Sequences
  import opened Bytes
  import opened JsonTree
  import opened JsonArgs
  import opened Extract
  import opened Dictionary
  import opened Ids
  import opened SavedRows
  import opened Ingest
  import opened BackfillEnds
  import opened Rows

  // ---------- U+0000 in an argument ----------

  /** A published call that holds U+0000 keeps every backfill of its ledger from completing. */
  lemma NulNeverCompletes(a: Archive, s: State, start: UInt32, end: UInt32, concurrency: nat, l: UInt32, i: nat)
    requires ValidArchive(a) && 0 < start <= end && 1 <= concurrency <= MAX_CONCURRENCY
    requires 0 !in s.processes && Counting(s.next)
    requires FillFrom(s, start, end) <= l <= end && l in a && i < |a[l]| && !TreeFreeOfNul(a[l][i].args)
    ensures !CanComplete(a, s, start, end, concurrency)
  {
    BackfillCanCompleteExactly(a, s, start, end, concurrency);
    assert !RowFits(a[l][i]);
    assert !Fits(a, l);
  }

  function CallOf(contract: Hash, hash: Hash, ledger: UInt32, args: Json): Invocation {
    Invocation(contract, hash, ledger, 0, "f", args, 0)
  }

  /** One call in one ledger, with an argument that is the text of one U+0000 or a map under it. */
  lemma OneNulCallIsEnough(a: Archive, contract: Hash, hash: Hash, arg: Json)
    requires arg in {Text("\0"), Object(map["\0" := Null])}
    requires a == map[7 := [CallOf(contract, hash, 7, Array([arg]))]]
    ensures ValidArchive(a) && !CanComplete(a, EMPTY, 7, 7, 1)
    ensures forall ids, known :: !CanCommit(a, [7], ids, known)
  {
    assert "\0"[0] == '\0' && "\0" in map["\0" := Null];
    assert !TreeFreeOfNul(arg) && Array([arg]).items[0] == arg;
    assert !TreeFreeOfNul(Array([arg]));
    assert FillFrom(EMPTY, 7, 7) == 7 by { RangeNameInjective(7, 7, 7, 7); }
    NulNeverCompletes(a, EMPTY, 7, 7, 1, 7, 0);
    forall ids, known ensures !CanCommit(a, [7], ids, known) {
      FetchedOne(a, 7);
      assert !RowFits(a[7][0]);
    }
  }

  // ---------- more names than ids ----------

  predicate Distinct(hashes: seq<Hash>) {
    forall i, j :: 0 <= i < j < |hashes| ==> hashes[i] != hashes[j]
  }

  /** There are enough of them for what follows. */
  lemma ManyHashes(n: nat) returns (hashes: seq<Hash>)
    requires n <= 0x1_0000
    ensures |hashes| == n && Distinct(hashes)
  {
    hashes := seq(n, i requires 0 <= i < n => BigEndian(i, 32));
    forall i, j | 0 <= i < j < n ensures hashes[i] != hashes[j] { HashesDiffer(i, j); }
  }

  lemma HashesDiffer(x: nat, y: nat)
    requires x < y < 0x1_0000
    ensures BigEndian(x, 32) != BigEndian(y, 32)
  {
    SmallNumbersFit();
    BigEndianRoundTrip(x, 32);
    BigEndianRoundTrip(y, 32);
  }

  lemma SmallNumbersFit()
    ensures Pow256(32) >= 0x1_0000
  {
    Pow256Grows(2, 32);
    assert Pow256(2) == 256 * Pow256(1) && Pow256(1) == 256 * Pow256(0);
  }

  lemma {:induction false} Pow256Grows(m: nat, n: nat)
    requires m <= n
    ensures Pow256(m) <= Pow256(n)
  {
    if m == n {
    } else {
      Pow256Grows(m, n - 1);
    }
  }

  /** One call of each contract. */
  function ManyCalls(contracts: seq<Hash>): seq<Invocation> {
    seq(|contracts|, i requires 0 <= i < |contracts| => CallOf(contracts[i], contracts[i], 7, Null))
  }

  function Named(contracts: seq<Hash>): set<Word> {
    set i | 0 <= i < |contracts| :: OfContract(contracts[i])
  }

  lemma OneMoreNamed(contracts: seq<Hash>, contract: Hash)
    requires Distinct(contracts + [contract])
    ensures Distinct(contracts) && Named(contracts + [contract]) == Named(contracts) + {OfContract(contract)}
    ensures OfContract(contract) !in Named(contracts)
  {
    var all := contracts + [contract];
    assert all[|contracts|] == contract;
    forall i | 0 <= i < |contracts| ensures all[i] == contracts[i] && contracts[i] != contract {
      assert all[i] != all[|contracts|];
    }
  }

  lemma OneMoreCall(contracts: seq<Hash>, contract: Hash)
    ensures ManyCalls(contracts + [contract]) == ManyCalls(contracts) + [CallOf(contract, contract, 7, Null)]
  {
  }

  lemma {:induction false} ManyContracts(contracts: seq<Hash>)
    requires Distinct(contracts)
    ensures Only(WordsOf(ManyCalls(contracts)), Contracts) == Named(contracts) && |Named(contracts)| == |contracts|
  {
    if contracts == [] {
      assert WordsOf(ManyCalls([])) == {};
    } else {
      var init, last := contracts[..|contracts| - 1], contracts[|contracts| - 1];
      assert contracts == init + [last];
      OneMoreNamed(init, last);
      ManyContracts(init);
      OneMoreCall(init, last);
      OneMoreContract(ManyCalls(init), CallOf(last, last, 7, Null));
    }
  }

  /** Going on from rows that name so many contracts to one more. */
  lemma OneMoreContract(init: seq<Invocation>, last: Invocation)
    requires OfContract(last.contract) !in Only(WordsOf(init), Contracts)
    ensures Only(WordsOf(init + [last]), Contracts) == Only(WordsOf(init), Contracts) + {OfContract(last.contract)}
    ensures |Only(WordsOf(init + [last]), Contracts)| == |Only(WordsOf(init), Contracts)| + 1
  {
    WordsOfConcat(init, [last]);
    OneRowsContract(last);
    assert Only(WordsOf(init + [last]), Contracts) == Only(WordsOf(init), Contracts) + Only(WordsOf([last]), Contracts);
  }

  lemma OneRowsContract(r: Invocation)
    ensures Only(WordsOf([r]), Contracts) == {OfContract(r.contract)}
  {
    assert [r][0] == r && OfContract(r.contract) in RowWords(r);
  }

  /** A ledger whose calls name one contract more than the column has ids can never be saved. */
  lemma TooManyContracts(a: Archive, contracts: seq<Hash>)
    requires Distinct(contracts) && |contracts| == 0x8000 && a == map[7 := ManyCalls(contracts)]
    ensures ValidArchive(a) && Fits(a, 7) && !CanComplete(a, EMPTY, 7, 7, 1)
  {
    ManyContracts(contracts);
    OneLedgersWords(a, 7);
    assert FillFrom(EMPTY, 7, 7) == 7 by { RangeNameInjective(7, 7, 7, 7); }
    assert LedgerWords(a, 7, 7) - {} == WordsOf(ManyCalls(contracts));
    assert !RoomFor(map[], WordsOf(ManyCalls(contracts)), Contracts);
    BackfillCanCompleteExactly(a, EMPTY, 7, 7, 1);
  }

  lemma OneLedgersWords(a: Archive, l: UInt32)
    requires l in a
    ensures LedgerWords(a, l, l) == WordsOf(a[l])
  {
  }

  // ---------- what a restart costs ----------

  /** A follower that is restarted before every ledger. */
  function Restarts(n: nat): seq<Event> {
    if n == 0 then [] else Restarts(n - 1) + [Open(0), StartFollow(0, 1), SaveOne(0), Stop(0)]
  }

  ghost function Names(a: Archive, l: int, kind: Kind): set<Word> {
    if Fits(a, l) then Only(WordsOf(a[l]), kind) else {}
  }

  /** Every ledger pays for all its names, known to the database or not. */
  ghost function Paid(a: Archive, n: nat, kind: Kind): nat {
    if n == 0 then 0 else Paid(a, n - 1, kind) + |Names(a, n, kind)|
  }

  lemma Then(a: Archive, s: State, run: seq<Event>, t: State, e: Event, t': State)
    requires ExecuteFrom(a, s, run) == t && Apply(a, t, e) == t'
    ensures ExecuteFrom(a, s, run + [e]) == t'
  {
    OneMoreEvent(a, s, run, e);
  }

  lemma FourEvents(a: Archive, s: State, e: Event, s1: State, f: Event, s2: State, g: Event, s3: State, h: Event,
                   s4: State)
    requires Apply(a, s, e) == s1 && Apply(a, s1, f) == s2 && Apply(a, s2, g) == s3 && Apply(a, s3, h) == s4
    ensures ExecuteFrom(a, s, [e, f, g, h]) == s4
  {
    Then(a, s, [], s, e, s1);
    Then(a, s, [] + [e], s1, f, s2);
    Then(a, s, [] + [e] + [f], s2, g, s3);
    Then(a, s, [] + [e] + [f] + [g], s3, h, s4);
    assert [] + [e] + [f] + [g] + [h] == [e, f, g, h];
  }

  lemma {:induction false} RunsJoin(a: Archive, s: State, x: seq<Event>, y: seq<Event>)
    ensures ExecuteFrom(a, s, x + y) == ExecuteFrom(a, ExecuteFrom(a, s, x), y)
  {
    if y == [] {
      assert x + y == x;
    } else {
      RunsJoin(a, s, x, y[..|y| - 1]);
      assert (x + y)[..|x + y| - 1] == x + y[..|y| - 1];
    }
  }

  /** Between two processes of a restarted follower. */
  ghost predicate Idle(s: State, n: nat) {
    s.processes == map[] && Worker(s) == n
  }

  lemma OneRestart(a: Archive, s: State, n: UInt32)
    requires Idle(s, n) && n + 1 < TWO_32 && n + 1 in a && FitColumns(a[n + 1]) && HasRoom(s.next, WordsOf(a[n + 1]))
    ensures var s' := ExecuteFrom(a, s, [Open(0), StartFollow(0, 1), SaveOne(0), Stop(0)]);
            Idle(s', n + 1) && s'.next == DrawAll(s.next, WordsOf(a[n + 1]))
  {
    var s1 := s.(caches := s.caches - {0});
    var s2 := s1.(processes := map[0 := Following(n + 1, n + 1)]);
    Opens(a, s);
    Restarted(a, s1, n);
    SavesNext(a, s2, n + 1);
    var s3 := Apply(a, s2, SaveOne(0));
    Leaves(a, s3, Following(n + 1, Add32(n + 1, 1)));
    FourEvents(a, s, Open(0), s1, StartFollow(0, 1), s2, SaveOne(0), s3, Stop(0), s3.(processes := map[]));
  }

  lemma Opens(a: Archive, s: State)
    requires s.processes == map[]
    ensures Apply(a, s, Open(0)) == s.(caches := s.caches - {0})
  {
  }

  lemma Restarted(a: Archive, s: State, n: UInt32)
    requires Idle(s, n) && n + 1 < TWO_32
    ensures Apply(a, s, StartFollow(0, 1)) == s.(processes := map[0 := Following(n + 1, n + 1)])
  {
    assert map[][0 := Following(n + 1, n + 1)] == map[0 := Following(n + 1, n + 1)];
  }

  lemma SavesNext(a: Archive, s: State, l: UInt32)
    requires s.processes == map[0 := Following(l, l)] && 0 !in s.caches && Worker(s) < l
    requires l in a && FitColumns(a[l]) && HasRoom(s.next, WordsOf(a[l]))
    ensures var s' := Apply(a, s, SaveOne(0));
            && s'.processes == map[0 := Following(l, Add32(l, 1))] && Worker(s') == l
            && s'.next == DrawAll(s.next, WordsOf(a[l]))
  {
    FetchedOne(a, l);
    assert WordsOf(a[l]) - {} == WordsOf(a[l]);
    assert CanSave(a, s, 0) && Missing(a, s, 0) == WordsOf(a[l]);
    SaveGrows(s, l, a[l], WordsOf(a[l]));
    MovesOn(Save(s, l, a[l], WordsOf(a[l])), l, WordsOf(a[l]));
  }

  lemma MovesOn(s: State, l: UInt32, names: set<Word>)
    requires s.processes == map[0 := Following(l, l)]
    ensures var s' := With(Learn(s, 0, names), 0, Following(l, Add32(l, 1)));
            && s'.processes == map[0 := Following(l, Add32(l, 1))] && Worker(s') == Worker(s) && s'.next == s.next
  {
    assert map[0 := Following(l, l)][0 := Following(l, Add32(l, 1))] == map[0 := Following(l, Add32(l, 1))];
  }

  /** After so many restarts the sequences stand where all the ledgers' names together put them. */
  lemma {:induction false} RestartsPayAgain(a: Archive, n: nat)
    requires n + 1 < TWO_32 && forall l: int :: 1 <= l <= n ==> Fits(a, l)
    requires forall kind :: Paid(a, n, kind) <= Last(kind)
    ensures var s := Execute(a, Restarts(n));
            Idle(s, n) && forall kind :: NextIn(s.next, kind) == 1 + Paid(a, n, kind)
  {
    if n == 0 {
    } else {
      forall kind ensures Paid(a, n - 1, kind) <= Last(kind) { assert Paid(a, n, kind) <= Last(kind); }
      assert Fits(a, n);
      RestartsPayAgain(a, n - 1);
      var s := Execute(a, Restarts(n - 1));
      forall kind ensures RoomFor(s.next, WordsOf(a[n]), kind) { assert Paid(a, n, kind) <= Last(kind); }
      RunsJoin(a, EMPTY, Restarts(n - 1), [Open(0), StartFollow(0, 1), SaveOne(0), Stop(0)]);
      OneRestart(a, s, n - 1);
      forall kind ensures NextIn(Execute(a, Restarts(n)).next, kind) == 1 + Paid(a, n, kind) {
        DrawAllMoves(s.next, WordsOf(a[n]), kind);
      }
    }
  }

  /** Every one of the first n ledgers can be saved, and all its calls are of one contract. */
  ghost predicate OnlyCalls(a: Archive, c: Hash, n: nat) {
    forall l: int :: 1 <= l <= n ==> Fits(a, l) && Names(a, l, Contracts) == {OfContract(c)}
  }

  lemma {:induction false} OneNameALedger(a: Archive, n: nat, kind: Kind)
    requires forall l: int :: 1 <= l <= n ==> |Names(a, l, kind)| == 1
    ensures Paid(a, n, kind) == n
  {
    if n == 0 {
    } else {
      assert |Names(a, n, kind)| == 1;
      OneNameALedger(a, n - 1, kind);
    }
  }

  /**
   One contract can use up every id of its column: after 32767 restarts, each of which saved
   one ledger that calls it, no new process can save the next such ledger.
   */
  lemma OneContractUsesUpAll(a: Archive, c: Hash)
    requires OnlyCalls(a, c, 0x8000)
    requires forall kind :: Paid(a, 0x7FFF, kind) <= Last(kind)
    ensures var s := Execute(a, Restarts(0x7FFF)); Idle(s, 0x7FFF) && !CanCommit(a, [0x8000], s.next, {})
  {
    RestartsPayAgain(a, 0x7FFF);
    OneNameALedger(a, 0x7FFF, Contracts);
    assert Fits(a, 0x8000) && Names(a, 0x8000, Contracts) == {OfContract(c)};
    UsedUp(a, 0x8000, Execute(a, Restarts(0x7FFF)).next, c);
  }

  lemma UsedUp(a: Archive, l: UInt32, ids: map<Kind, nat>, c: Hash)
    requires l in a && NextIn(ids, Contracts) == 0x8000 && Only(WordsOf(a[l]), Contracts) == {OfContract(c)}
    ensures !CanCommit(a, [l], ids, {})
  {
    FetchedOne(a, l);
    NoRoomForOne(ids, WordsOf(a[l]), c);
  }

  lemma NoRoomForOne(ids: map<Kind, nat>, words: set<Word>, c: Hash)
    requires NextIn(ids, Contracts) == 0x8000 && Only(words, Contracts) == {OfContract(c)}
    ensures !HasRoom(ids, words - {})
  {
    assert words - {} == words;
    assert !RoomFor(ids, words, Contracts);
  }

  lemma {:induction false} PaidAtMost(a: Archive, n: nat, kind: Kind)
    requires forall l: int :: 1 <= l <= n ==> |Names(a, l, kind)| <= 1
    ensures Paid(a, n, kind) <= n
  {
    if n == 0 {
    } else {
      assert |Names(a, n, kind)| <= 1;
      PaidAtMost(a, n - 1, kind);
    }
  }

  lemma OneRowsNames(r: Invocation, kind: Kind)
    requires r.args == Null
    ensures |Only(WordsOf([r]), kind)| <= 1 && Only(WordsOf([r]), Contracts) == {OfContract(r.contract)}
  {
    OneRowsContract(r);
    assert Addresses(r.args) == {};
    var names := Only(WordsOf([r]), kind);
    SubsetSize(names, {if kind.Contracts? then OfContract(r.contract) else OfFunction(r.function_)});
  }

  /** One contract, called once in every ledger. */
  ghost predicate OneCallALedger(a: Archive, c: Hash, hashes: seq<Hash>)
    requires |hashes| == 0x8000
  {
    && (forall l :: l in a <==> 1 <= l <= 0x8000)
    && forall l :: l in a ==> a[l] == [CallOf(c, hashes[l - 1], l, Null)]
  }

  lemma OneCallsNames(a: Archive, c: Hash, hashes: seq<Hash>, l: int, kind: Kind)
    requires |hashes| == 0x8000 && OneCallALedger(a, c, hashes) && 1 <= l <= 0x8000
    ensures Fits(a, l) && |Names(a, l, kind)| <= 1 && Names(a, l, Contracts) == {OfContract(c)}
  {
    OneRowsNames(CallOf(c, hashes[l - 1], l, Null), kind);
    assert RowFits(CallOf(c, hashes[l - 1], l, Null));
  }

  lemma OneCallPays(a: Archive, c: Hash, hashes: seq<Hash>, kind: Kind)
    requires |hashes| == 0x8000 && OneCallALedger(a, c, hashes)
    ensures Paid(a, 0x7FFF, kind) <= Last(kind)
  {
    forall l: int | 1 <= l <= 0x7FFF ensures |Names(a, l, kind)| <= 1 { OneCallsNames(a, c, hashes, l, kind); }
    PaidAtMost(a, 0x7FFF, kind);
  }

  /** Such an archive: restarted before every ledger, the follower is stopped at ledger 32768. */
  lemma OneContractIsEnough(a: Archive, c: Hash, hashes: seq<Hash>)
    requires |hashes| == 0x8000 && Distinct(hashes) && OneCallALedger(a, c, hashes)
    ensures ValidArchive(a)
    ensures var s := Execute(a, Restarts(0x7FFF)); Idle(s, 0x7FFF) && !CanCommit(a, [0x8000], s.next, {})
  {
    forall l: int | 1 <= l <= 0x8000 ensures Fits(a, l) && Names(a, l, Contracts) == {OfContract(c)} {
      OneCallsNames(a, c, hashes, l, Contracts);
    }
    forall kind ensures Paid(a, 0x7FFF, kind) <= Last(kind) { OneCallPays(a, c, hashes, kind); }
    OneContractUsesUpAll(a, c);
  }
}
