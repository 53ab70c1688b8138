/** The dictionaries rows are encoded with: contracts, functions and argument addresses by id. */
module Dictionary {
  import opened Wrappers
  import opened Rows
  import opened JsonTree
  import opened JsonArgs
  import opened Extract

  datatype Kind = Contracts | Functions | Addressees

  const ALL_KINDS := {Contracts, Functions, Addressees}

  /** An entry of one of the three dictionaries. */
  datatype Word = OfContract(contract: Hash) | OfFunction(name: string) | OfAddress(address: string)

  function KindOf(w: Word): Kind {
    match w
    case OfContract(_) => Contracts
    case OfFunction(_) => Functions
    case OfAddress(_) => Addressees
  }

  type Dict = map<Word, Int32>

  /** A text column takes no U+0000; addresses never hold one. */
  predicate Writable(w: Word) {
    w.OfFunction? ==> FreeOfNul(w.name)
  }

  /** A row as the table keeps it. */
  datatype Encoded = Encoded(contract: Int32, hash: Hash, ledger: UInt32, closedAt: int,
                             function_: Int32, args: Option<Json>, feeCharged: Int64)

  // ---------- encoding and decoding one row ----------

  function RowWords(r: Invocation): set<Word> {
    {OfContract(r.contract), OfFunction(r.function_)} + set a | a in Addresses(r.args) :: OfAddress(a)
  }

  function WordsOf(rows: seq<Invocation>): set<Word> {
    set i, w | 0 <= i < |rows| && w in RowWords(rows[i]) :: w
  }

  /** A word without an id reads as 0, as a lookup in the program does. */
  function Lookup(d: Dict, w: Word): Int32 {
    if w in d then d[w] else 0
  }

  function AddressIds(d: Dict): map<string, Int32> {
    map a | a in (set w | w in d && w.OfAddress? :: w.address) :: d[OfAddress(a)]
  }

  /** Arguments that are JSON null leave the column empty. */
  function Encode(r: Invocation, d: Dict): Encoded {
    Encoded(Lookup(d, OfContract(r.contract)), r.hash, r.ledger, r.closedAt, Lookup(d, OfFunction(r.function_)),
            if r.args.Null? then None else Some(Rewritten(r.args, AddressIds(d))), r.feeCharged)
  }

  /** Ids are positive and no two words of a kind share one. */
  ghost predicate OneWordAnId(d: Dict) {
    && (forall w :: w in d ==> d[w] > 0)
    && (forall u, v :: u in d && v in d && KindOf(u) == KindOf(v) && d[u] == d[v] ==> u == v)
  }

  function ContractsOf(d: Dict): map<Int32, Hash>
    requires OneWordAnId(d)
  {
    map w | w in d && w.OfContract? :: d[w] := w.contract
  }

  function FunctionsOf(d: Dict): map<Int32, string>
    requires OneWordAnId(d)
  {
    map w | w in d && w.OfFunction? :: d[w] := w.name
  }

  function AddressesOf(d: Dict): map<Int32, string>
    requires OneWordAnId(d)
  {
    map w | w in d && w.OfAddress? :: d[w] := w.address
  }

  /** A row whose contract or function has no entry drops out of the join that reads it. */
  function Decode(e: Encoded, d: Dict): Option<Invocation>
    requires OneWordAnId(d)
  {
    if e.contract !in ContractsOf(d) || e.function_ !in FunctionsOf(d) then None
    else
      var args := if e.args.None? then Null else Resolved(e.args.value, AddressesOf(d));
      Some(Invocation(ContractsOf(d)[e.contract], e.hash, e.ledger, e.closedAt,
                      FunctionsOf(d)[e.function_], args, e.feeCharged))
  }

  /** What reading a row shows of it: its arguments with every placeholder looked up. */
  function Read(r: Invocation, addrs: map<Int32, string>): Invocation {
    r.(args := Resolved(r.args, addrs))
  }

  lemma AddressIdsAre(d: Dict, a: string)
    ensures a in AddressIds(d) <==> OfAddress(a) in d
    ensures a in AddressIds(d) ==> AddressIds(d)[a] == d[OfAddress(a)]
  {
    if OfAddress(a) in d {
      assert OfAddress(a).address == a;
    }
    if a in AddressIds(d) {
      var w :| w in d && w.OfAddress? && w.address == a;
      assert w == OfAddress(a);
    }
  }

  lemma ContractUndoes(d: Dict, c: Hash)
    requires OneWordAnId(d) && OfContract(c) in d
    ensures d[OfContract(c)] in ContractsOf(d) && ContractsOf(d)[d[OfContract(c)]] == c
  {
  }

  lemma FunctionUndoes(d: Dict, f: string)
    requires OneWordAnId(d) && OfFunction(f) in d
    ensures d[OfFunction(f)] in FunctionsOf(d) && FunctionsOf(d)[d[OfFunction(f)]] == f
  {
  }

  lemma AddressUndoes(d: Dict, a: string)
    requires OneWordAnId(d) && OfAddress(a) in d
    ensures d[OfAddress(a)] in AddressesOf(d) && AddressesOf(d)[d[OfAddress(a)]] == a
  {
  }

  lemma AddressesUndo(d: Dict, used: set<string>)
    requires OneWordAnId(d) && forall a :: a in used ==> OfAddress(a) in d
    ensures Undoes(AddressesOf(d), AddressIds(d), used)
  {
    forall a | a in used
      ensures a in AddressIds(d) && AddressIds(d)[a] in AddressesOf(d) && AddressesOf(d)[AddressIds(d)[a]] == a
    {
      AddressIdsAre(d, a);
      AddressUndoes(d, a);
    }
  }

  /** A stored row whose words all have ids decodes to what reading the row itself would show. */
  lemma DecodeReads(r: Invocation, d: Dict)
    requires OneWordAnId(d) && RowWords(r) <= d.Keys
    ensures Decode(Encode(r, d), d) == Some(Read(r, AddressesOf(d)))
  {
    ContractUndoes(d, r.contract);
    FunctionUndoes(d, r.function_);
    forall a | a in Addresses(r.args) ensures OfAddress(a) in d { assert OfAddress(a) in RowWords(r); }
    AddressesUndo(d, Addresses(r.args));
    RewritingIsInvisible(r.args, AddressIds(d), AddressesOf(d));
  }

  /** It decodes to the row itself exactly when nothing in it looked like a placeholder. */
  lemma DecodeUndoesEncode(r: Invocation, d: Dict)
    requires OneWordAnId(d) && RowWords(r) <= d.Keys
    ensures Decode(Encode(r, d), d) == Some(r) <==> Plain(r.args)
  {
    DecodeReads(r, d);
    OnlyLookalikesChange(r.args, AddressesOf(d));
    assert Read(r, AddressesOf(d)) == r <==> Resolved(r.args, AddressesOf(d)) == r.args;
  }

  lemma {:induction false} RewritingReadsOnlyItsAddresses(v: Json, x: map<string, Int32>, y: map<string, Int32>)
    requires forall a :: a in Addresses(v) ==> IdOf(x, a) == IdOf(y, a)
    ensures Rewritten(v, x) == Rewritten(v, y)
  {
    match v
    case Array(items) =>
      forall i | 0 <= i < |items| ensures Rewritten(items[i], x) == Rewritten(items[i], y) {
        AddressesOfItem(items, i);
        RewritingReadsOnlyItsAddresses(items[i], x, y);
      }
    case Object(fields) =>
      forall k | k in fields ensures Rewritten(fields[k], x) == Rewritten(fields[k], y) {
        AddressesOfField(fields, k);
        RewritingReadsOnlyItsAddresses(fields[k], x, y);
      }
      assert FieldsRewritten(fields, x) == FieldsRewritten(fields, y);
    case _ =>
  }

  /** Encoding a row depends on the ids of its own words only. */
  lemma EncodingReadsOnlyItsWords(r: Invocation, x: Dict, y: Dict)
    requires forall w :: w in RowWords(r) ==> w in x && w in y && x[w] == y[w]
    ensures Encode(r, x) == Encode(r, y)
  {
    forall a | a in Addresses(r.args) ensures IdOf(AddressIds(x), a) == IdOf(AddressIds(y), a) {
      assert OfAddress(a) in RowWords(r);
      AddressIdsAre(x, a);
      AddressIdsAre(y, a);
    }
    RewritingReadsOnlyItsAddresses(r.args, AddressIds(x), AddressIds(y));
  }

  // ---------- the words of several rows ----------

  lemma RowWordsWithin(rows: seq<Invocation>, i: nat)
    requires i < |rows|
    ensures RowWords(rows[i]) <= WordsOf(rows)
  {
  }

  lemma WordsOfConcat(x: seq<Invocation>, y: seq<Invocation>)
    ensures WordsOf(x + y) == WordsOf(x) + WordsOf(y)
  {
    forall w | w in WordsOf(x) ensures w in WordsOf(x + y) {
      var i :| 0 <= i < |x| && w in RowWords(x[i]);
      assert (x + y)[i] == x[i];
    }
    forall w | w in WordsOf(y) ensures w in WordsOf(x + y) {
      var i :| 0 <= i < |y| && w in RowWords(y[i]);
      assert (x + y)[|x| + i] == y[i];
    }
  }
}
