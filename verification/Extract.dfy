/**
 What the indexer keeps of a closed ledger: the first top-level contract call each
 transaction reports, and the wide integers in its arguments.
 */
module Extract {
  import opened Wrappers
  import opened Bytes
  import opened JsonTree
  import opened Rows

  type UInt32 = x: int | 0 <= x < 0x1_0000_0000
  type UInt64 = x: int | 0 <= x < 0x1_0000_0000_0000_0000
  type Int64 = x: int | -0x8000_0000_0000_0000 <= x < 0x8000_0000_0000_0000

  datatype Topic = Sym(name: string) | Raw(data: ByteString) | OtherTopic

  /** A diagnostic event; the payload is already the JSON its arguments become. */
  datatype DiagnosticEvent = DiagnosticEvent(bodyVersion: int, topics: seq<Topic>, args: Json)

  /** Which part of a transaction's meta carries diagnostic events, by meta version. */
  datatype ApplyMeta =
    | V3(sorobanEvents: Option<seq<DiagnosticEvent>>)
    | V4(hasSoroban: bool, events: seq<DiagnosticEvent>)
    | OtherMeta

  datatype Processed = Processed(hash: Hash, feeCharged: Int64, meta: ApplyMeta)

  datatype CloseMeta = CloseMeta(version: int, sequence: UInt32, closeTime: int, processed: seq<Processed>)

  datatype Call = Call(contract: Hash, function_: string, args: Json)

  datatype Invocation = Invocation(contract: Hash, hash: Hash, ledger: UInt32, closedAt: int,
                                   function_: string, args: Json, feeCharged: Int64)

  // ---------- which event is the call ----------

  function FnCall(ev: DiagnosticEvent): Option<Call> {
    if ev.bodyVersion != 0 || |ev.topics| != 3 then None
    else if ev.topics[0] != Sym("fn_call") then None
    else if !ev.topics[1].Raw? || |ev.topics[1].data| != 32 then None
    else if !ev.topics[2].Sym? then None
    else Some(Call(ev.topics[1].data, ev.topics[2].name, ev.args))
  }

  function DiagnosticEvents(meta: ApplyMeta): Option<seq<DiagnosticEvent>> {
    match meta
    case V3(sorobanEvents) => sorobanEvents
    case V4(hasSoroban, events) => if hasSoroban then Some(events) else None
    case OtherMeta => None
  }

  /** The event a host logs as it makes a call. */
  function CallEvent(c: Call): DiagnosticEvent {
    DiagnosticEvent(0, [Sym("fn_call"), Raw(c.contract), Sym(c.function_)], c.args)
  }

  lemma FnCallExactly(ev: DiagnosticEvent, c: Call)
    ensures FnCall(ev) == Some(c) <==> ev == CallEvent(c)
  {
    if FnCall(ev) == Some(c) { assert ev.topics == [ev.topics[0], ev.topics[1], ev.topics[2]]; }
  }

  /** Where the two meta versions that have diagnostic events keep them. */
  lemma EventsExactly(meta: ApplyMeta, events: seq<DiagnosticEvent>)
    ensures DiagnosticEvents(meta) == Some(events) <==> meta in {V3(Some(events)), V4(true, events)}
  {
  }

  /** The transaction logs this call before any other. */
  ghost predicate LogsFirst(meta: ApplyMeta, c: Call) {
    exists before, after ::
      && meta in {V3(Some(before + [CallEvent(c)] + after)), V4(true, before + [CallEvent(c)] + after)}
      && forall d :: CallEvent(d) !in before
  }

  /** c is the call of the first event that is one. */
  ghost predicate IsFirstCall(events: seq<DiagnosticEvent>, c: Call) {
    exists i :: 0 <= i < |events| && FnCall(events[i]) == Some(c) && forall j :: 0 <= j < i ==> FnCall(events[j]).None?
  }

  ghost predicate Makes(meta: ApplyMeta, c: Call) {
    DiagnosticEvents(meta).Some? && IsFirstCall(DiagnosticEvents(meta).value, c)
  }

  ghost predicate MakesNone(meta: ApplyMeta) {
    DiagnosticEvents(meta).Some? ==>
      forall i :: 0 <= i < |DiagnosticEvents(meta).value| ==> FnCall(DiagnosticEvents(meta).value[i]).None?
  }

  lemma FirstCallsAreLogged(meta: ApplyMeta)
    ensures forall c :: LogsFirst(meta, c) <==> Makes(meta, c)
    ensures MakesNone(meta) <==> forall c :: !LogsFirst(meta, c)
  {
    forall c ensures LogsFirst(meta, c) <==> Makes(meta, c) {
      if LogsFirst(meta, c) { LoggedIsMade(meta, c); }
      if Makes(meta, c) { MadeIsLogged(meta, c); }
    }
    if !MakesNone(meta) {
      var c := FirstCall(DiagnosticEvents(meta).value);
      assert Makes(meta, c);
    }
  }

  lemma FirstCall(events: seq<DiagnosticEvent>) returns (c: Call)
    requires exists i :: 0 <= i < |events| && FnCall(events[i]).Some?
    ensures IsFirstCall(events, c)
  {
    var i := 0;
    while FnCall(events[i]).None?
      invariant 0 <= i < |events| && forall j :: 0 <= j < i ==> FnCall(events[j]).None?
      decreases |events| - i
    {
      i := i + 1;
    }
    c := FnCall(events[i]).value;
  }

  lemma LoggedIsMade(meta: ApplyMeta, c: Call)
    requires LogsFirst(meta, c)
    ensures Makes(meta, c)
  {
    var before, after :|
      && meta in {V3(Some(before + [CallEvent(c)] + after)), V4(true, before + [CallEvent(c)] + after)}
      && forall d :: CallEvent(d) !in before;
    var events := before + [CallEvent(c)] + after;
    FnCallExactly(events[|before|], c);
    forall j | 0 <= j < |before| ensures FnCall(events[j]).None? {
      assert events[j] in before;
      if FnCall(events[j]).Some? { FnCallExactly(events[j], FnCall(events[j]).value); }
    }
  }

  lemma MadeIsLogged(meta: ApplyMeta, c: Call)
    requires Makes(meta, c)
    ensures LogsFirst(meta, c)
  {
    var events := DiagnosticEvents(meta).value;
    var i :| 0 <= i < |events| && FnCall(events[i]) == Some(c) && forall j :: 0 <= j < i ==> FnCall(events[j]).None?;
    FnCallExactly(events[i], c);
    assert events == events[..i] + [CallEvent(c)] + events[i + 1..];
    forall e | e in events[..i] ensures FnCall(e).None? {
      var j :| 0 <= j < i && events[..i][j] == e;
    }
    forall d ensures CallEvent(d) !in events[..i] { FnCallExactly(CallEvent(d), d); }
  }

  ghost predicate Records(inv: Invocation, tx: Processed, sequence: UInt32, closeTime: int) {
    && inv.hash == tx.hash && inv.feeCharged == tx.feeCharged
    && inv.ledger == sequence && inv.closedAt == closeTime
    && Makes(tx.meta, Call(inv.contract, inv.function_, inv.args))
  }

  /** The list holds one record for each transaction that makes a call, in order, and no other. */
  ghost predicate RecordsAll(found: seq<Invocation>, txs: seq<Processed>, sequence: UInt32, closeTime: int) {
    if txs == [] then found == []
    else
      var last := txs[|txs| - 1];
      if MakesNone(last.meta) then RecordsAll(found, txs[..|txs| - 1], sequence, closeTime)
      else
        && found != []
        && Records(found[|found| - 1], last, sequence, closeTime)
        && RecordsAll(found[..|found| - 1], txs[..|txs| - 1], sequence, closeTime)
  }

  class LedgerResult {
    var sequence: UInt32
    var closedAt: int
    var txCount: nat
    var invocations: seq<Invocation>

    constructor (sequence: UInt32, closedAt: int)
      ensures this.sequence == sequence && this.closedAt == closedAt
      ensures txCount == 0 && invocations == []
    {
      this.sequence, this.closedAt := sequence, closedAt;
      txCount, invocations := 0, [];
    }

    /** Appends the transaction's call, if it makes one. */
    method AppendInvocation(tx: Processed)
      modifies this`invocations
      ensures forall c :: LogsFirst(tx.meta, c) ==>
                invocations == old(invocations)
                             + [Invocation(c.contract, tx.hash, sequence, closedAt, c.function_, c.args, tx.feeCharged)]
      ensures (forall c :: !LogsFirst(tx.meta, c)) ==> invocations == old(invocations)
      ensures MakesNone(tx.meta) ==> invocations == old(invocations)
      ensures !MakesNone(tx.meta) ==>
        exists inv :: Records(inv, tx, sequence, closedAt) && invocations == old(invocations) + [inv]
    {
      FirstCallsAreLogged(tx.meta);
      var events := DiagnosticEvents(tx.meta);
      if events.None? { return; }
      var i := 0;
      while i < |events.value|
        invariant 0 <= i <= |events.value|
        invariant invocations == old(invocations)
        invariant forall j :: 0 <= j < i ==> FnCall(events.value[j]).None?
      {
        var call := FnCall(events.value[i]);
        if call.Some? {
          var c := call.value;
          assert IsFirstCall(events.value, c);
          var inv := Invocation(c.contract, tx.hash, sequence, closedAt, c.function_, c.args, tx.feeCharged);
          assert Records(inv, tx, sequence, closedAt);
          invocations := invocations + [inv];
          return;
        }
        i := i + 1;
      }
    }
  }

  ghost predicate Describes(r: LedgerResult, meta: CloseMeta)
    reads r
  {
    && r.sequence == meta.sequence && r.closedAt == meta.closeTime
    && r.txCount == |meta.processed|
    && (if meta.version == 0 then r.invocations == []
        else RecordsAll(r.invocations, meta.processed, meta.sequence, meta.closeTime))
  }

  /** Fails on a meta version it does not know; version 0 predates contracts. */
  method Extract(meta: CloseMeta) returns (r: Result<LedgerResult>)
    ensures r.Ok? <==> meta.version in {0, 1, 2}
    ensures r.Ok? ==> fresh(r.value) && Describes(r.value, meta)
  {
    if meta.version != 0 && meta.version != 1 && meta.version != 2 { return Fail; }
    var result := new LedgerResult(meta.sequence, meta.closeTime);
    result.txCount := |meta.processed|;
    if meta.version != 0 {
      var i := 0;
      while i < |meta.processed|
        invariant 0 <= i <= |meta.processed|
        invariant result.sequence == meta.sequence && result.closedAt == meta.closeTime
        invariant result.txCount == |meta.processed|
        invariant RecordsAll(result.invocations, meta.processed[..i], meta.sequence, meta.closeTime)
      {
        ghost var before := result.invocations;
        result.AppendInvocation(meta.processed[i]);
        assert meta.processed[..i + 1][..i] == meta.processed[..i];
        assert result.invocations != before ==> result.invocations[..|before|] == before;
        i := i + 1;
      }
      assert meta.processed[..i] == meta.processed;
    }
    r := Ok(result);
  }

  // ---------- what the list is, read back ----------

  lemma FirstCallIsUnique(events: seq<DiagnosticEvent>, c: Call, d: Call)
    requires IsFirstCall(events, c) && IsFirstCall(events, d)
    ensures c == d
  {
    var i :| 0 <= i < |events| && FnCall(events[i]) == Some(c) && forall j :: 0 <= j < i ==> FnCall(events[j]).None?;
    var k :| 0 <= k < |events| && FnCall(events[k]) == Some(d) && forall j :: 0 <= j < k ==> FnCall(events[j]).None?;
    assert i == k;
  }

  /** The predicate leaves no freedom: one ledger has one list of records. */
  lemma {:induction false} RecordsAreDetermined(a: seq<Invocation>, b: seq<Invocation>, txs: seq<Processed>,
                                                sequence: UInt32, closeTime: int)
    requires RecordsAll(a, txs, sequence, closeTime) && RecordsAll(b, txs, sequence, closeTime)
    ensures a == b
  {
    if txs == [] {
    } else {
      var last, rest := txs[|txs| - 1], txs[..|txs| - 1];
      if MakesNone(last.meta) {
        RecordsAreDetermined(a, b, rest, sequence, closeTime);
      } else {
        RecordsAreDetermined(a[..|a| - 1], b[..|b| - 1], rest, sequence, closeTime);
        var x, y := a[|a| - 1], b[|b| - 1];
        FirstCallIsUnique(DiagnosticEvents(last.meta).value, Call(x.contract, x.function_, x.args),
                          Call(y.contract, y.function_, y.args));
        assert a == a[..|a| - 1] + [x] && b == b[..|b| - 1] + [y];
      }
    }
  }

  ghost predicate DistinctHashes(txs: seq<Processed>) {
    forall i, j :: 0 <= i < j < |txs| ==> txs[i].hash != txs[j].hash
  }

  lemma {:induction false} RecordsCarryLedger(found: seq<Invocation>, txs: seq<Processed>, sequence: UInt32,
                                              closeTime: int)
    requires RecordsAll(found, txs, sequence, closeTime)
    ensures |found| <= |txs|
    ensures forall k :: 0 <= k < |found| ==> found[k].ledger == sequence && found[k].closedAt == closeTime
    ensures forall k :: 0 <= k < |found| ==> exists i :: 0 <= i < |txs| && txs[i].hash == found[k].hash
  {
    if txs == [] {
    } else {
      var n := |txs| - 1;
      if MakesNone(txs[n].meta) {
        RecordsCarryLedger(found, txs[..n], sequence, closeTime);
      } else {
        RecordsCarryLedger(found[..|found| - 1], txs[..n], sequence, closeTime);
        forall k | 0 <= k < |found|
          ensures found[k].ledger == sequence && found[k].closedAt == closeTime
          ensures exists i :: 0 <= i < |txs| && txs[i].hash == found[k].hash
        {
          if k < |found| - 1 {
            assert found[..|found| - 1][k] == found[k];
            var i :| 0 <= i < n && txs[..n][i].hash == found[k].hash;
            assert txs[i].hash == found[k].hash;
          } else {
            assert txs[n].hash == found[k].hash;
          }
        }
      }
    }
  }

  /** Nested calls of a transaction never give it a second record. */
  lemma {:induction false} OneRecordPerTransaction(found: seq<Invocation>, txs: seq<Processed>, sequence: UInt32,
                                                   closeTime: int)
    requires RecordsAll(found, txs, sequence, closeTime) && DistinctHashes(txs)
    ensures forall j, k :: 0 <= j < k < |found| ==> found[j].hash != found[k].hash
  {
    if txs == [] {
    } else {
      var n := |txs| - 1;
      if MakesNone(txs[n].meta) {
        OneRecordPerTransaction(found, txs[..n], sequence, closeTime);
      } else {
        var rest := found[..|found| - 1];
        OneRecordPerTransaction(rest, txs[..n], sequence, closeTime);
        RecordsCarryLedger(rest, txs[..n], sequence, closeTime);
        forall j, k | 0 <= j < k < |found| ensures found[j].hash != found[k].hash {
          assert rest[j] == found[j];
          var i :| 0 <= i < n && txs[..n][i].hash == rest[j].hash;
          if k < |found| - 1 { assert rest[k] == found[k]; }
          assert txs[i].hash != txs[n].hash;
        }
      }
    }
  }

  // ---------- 128- and 256-bit integers from 64-bit words ----------

  function Joined(parts: seq<UInt64>): ByteString {
    if parts == [] then [] else Joined(parts[..|parts| - 1]) + BigEndian(parts[|parts| - 1], 8)
  }

  lemma ShiftAndAdd(bytes: ByteString, part: UInt64)
    ensures Unsigned(bytes + BigEndian(part, 8)) == Unsigned(bytes) * 0x1_0000_0000_0000_0000 + part
  {
    Pow256Eight();
    UnsignedConcat(bytes, BigEndian(part, 8));
    BigEndianRoundTrip(part, 8);
  }

  /** The words, most significant first, read as one unsigned number. */
  method BigFromUnsigned(parts: seq<UInt64>) returns (result: int)
    ensures result == Unsigned(Joined(parts))
  {
    result := 0;
    var i := 0;
    while i < |parts|
      invariant 0 <= i <= |parts|
      invariant result == Unsigned(Joined(parts[..i]))
    {
      assert parts[..i + 1][..i] == parts[..i];
      ShiftAndAdd(Joined(parts[..i]), parts[i]);
      result := result * 0x1_0000_0000_0000_0000;
      result := result + parts[i];
      i := i + 1;
    }
    assert parts[..i] == parts;
  }

  /** The word whose bits a signed high part has. */
  function Bits(hi: Int64): UInt64 {
    if hi < 0 then hi + 0x1_0000_0000_0000_0000 else hi
  }

  lemma BitsKeepTheSign(hi: Int64)
    ensures Signed(BigEndian(Bits(hi), 8)) == hi
  {
    Pow256Eight();
    BigEndianRoundTrip(Bits(hi), 8);
    SignBit(BigEndian(Bits(hi), 8));
  }

  lemma SignedStep(head: ByteString, rest: seq<UInt64>, i: nat)
    requires head != [] && i < |rest|
    ensures Signed(head + Joined(rest[..i + 1])) == Signed(head + Joined(rest[..i])) * 0x1_0000_0000_0000_0000 + rest[i]
  {
    var bytes, part := head + Joined(rest[..i]), BigEndian(rest[i], 8);
    assert rest[..i + 1][..i] == rest[..i];
    assert head + Joined(rest[..i + 1]) == bytes + part;
    Pow256Eight();
    SignedConcat(bytes, part);
    BigEndianRoundTrip(rest[i], 8);
  }

  /**
   The signed high word and the words after it, as one two's complement number: the
   integer the frontend's reader makes of the same bytes.
   */
  method BigFromSigned(hi: Int64, rest: seq<UInt64>) returns (result: int)
    ensures result == Signed(BigEndian(Bits(hi), 8) + Joined(rest))
  {
    result := hi;
    var i := 0;
    ghost var head := BigEndian(Bits(hi), 8);
    BitsKeepTheSign(hi);
    assert head + [] == head;
    while i < |rest|
      invariant 0 <= i <= |rest|
      invariant result == Signed(head + Joined(rest[..i]))
    {
      SignedStep(head, rest, i);
      result := result * 0x1_0000_0000_0000_0000;
      result := result + rest[i];
      i := i + 1;
    }
    assert rest[..i] == rest;
  }
}
