/** What the reader promises: exact on every valid encoding, bounded on every byte string. */
module ScValTheorems {
  import opened Wrappers
  import opened Bytes
  import opened Decimal
  import opened Display
  import opened ScVal
  import opened Sequences

  // ---------- fixed-width pieces ----------

  lemma U32Head(n: nat, rest: ByteString)
    requires n < Pow256(4)
    ensures (U32Xdr(n) + rest)[..4] == U32Xdr(n) && (U32Xdr(n) + rest)[4..] == rest
    ensures Unsigned((U32Xdr(n) + rest)[..4]) == n
  {
    BigEndianRoundTrip(n, 4);
  }

  lemma UnsignedRoundTrip(n: nat, width: nat, rest: ByteString)
    requires FitsUnsigned(n, width)
    ensures UnsignedOf(IntXdr(n, width) + rest, width) == Got(n, width)
  {
    BigEndianRoundTrip(n, width);
    assert (IntXdr(n, width) + rest)[..width] == IntXdr(n, width);
  }

  lemma SignedRoundTrip(i: int, width: nat, rest: ByteString)
    requires width > 0 && FitsSigned(i, width)
    ensures SignedOf(IntXdr(i, width) + rest, width) == Got(i, width)
  {
    var bytes := IntXdr(i, width);
    BigEndianRoundTrip(Wrapped(i, width), width);
    TopByte(bytes);
    assert (bytes + rest)[..width] == bytes;
  }

  lemma OpaqueRoundTrip(data: ByteString, rest: ByteString)
    requires FitsUnsigned(|data|, 4)
    ensures OpaqueOf(OpaqueXdr(data) + rest) == Got(data, |OpaqueXdr(data)|)
  {
    var pad: ByteString := seq(Padding(|data|), _ => 0);
    var s := OpaqueXdr(data) + rest;
    assert s == U32Xdr(|data|) + (data + pad + rest);
    U32Head(|data|, data + pad + rest);
    assert s[4..4 + |data|] == data;
  }

  lemma SymbolRoundTrip(text: string, rest: ByteString)
    requires IsSymbol(text)
    ensures SymbolShown(OpaqueOf(OpaqueXdr(Codes(text)) + rest)) ==
        Got(PlainText(SymbolText, text), |OpaqueXdr(Codes(text))|)
  {
    Pow256Four();
    OpaqueRoundTrip(Codes(text), rest);
    assert Chars(Codes(text)) == text;
  }

  lemma ErrorRoundTrip(kind: nat, code: nat, rest: ByteString)
    requires kind < 10 && FitsUnsigned(code, 4)
    ensures ErrorOf(U32Xdr(kind) + U32Xdr(code) + rest) == Got(PlainText(FailureText, ErrorText(kind, code)), 8)
  {
    Pow256Four();
    var s := U32Xdr(kind) + U32Xdr(code) + rest;
    U32Head(kind, U32Xdr(code) + rest);
    U32Head(code, rest);
    assert s == U32Xdr(kind) + (U32Xdr(code) + rest);
    assert s[4..8] == s[4..][..4];
  }

  lemma MuxedRoundTrip(payload: ByteString, rest: ByteString)
    requires |payload| == 40
    ensures var p := payload[32..] + payload[..32] + rest; p[8..40] + p[..8] == payload
  {
    var p := payload[32..] + payload[..32] + rest;
    assert p[8..40] == payload[..32] && p[..8] == payload[32..];
  }

  lemma ZeroHead(key: ByteString, rest: ByteString)
    requires |key| == 32
    ensures var p := U32Xdr(0) + key + rest; Unsigned(p[..4]) == 0 && p[4..36] == key
  {
    Pow256Four();
    U32Head(0, key + rest);
    assert U32Xdr(0) + key + rest == U32Xdr(0) + (key + rest);
  }

  lemma StrkeyRoundTrip(a: Strkey, rest: ByteString)
    requires ValidStrkey(a)
    ensures StrkeyOf(StrkeyTag(a), StrkeyBody(a) + rest) == Got(a, |StrkeyBody(a)|)
  {
    match a {
      case Account(key) => ZeroHead(key, rest);
      case Contract(hash) => assert (hash + rest)[..32] == hash;
      case Muxed(payload) => MuxedRoundTrip(payload, rest);
      case ClaimableBalance(payload) =>
        ZeroHead(payload[1..], rest);
        assert [0] + payload[1..] == payload;
      case LiquidityPool(hash) => assert (hash + rest)[..32] == hash;
    }
  }

  lemma AddressRoundTrip(a: Strkey, rest: ByteString)
    requires ValidStrkey(a)
    ensures AddressOf(AddressXdr(a) + rest) == Got(Address(a), |AddressXdr(a)|)
  {
    Pow256Four();
    assert AddressXdr(a) + rest == U32Xdr(StrkeyTag(a)) + (StrkeyBody(a) + rest);
    U32Head(StrkeyTag(a), StrkeyBody(a) + rest);
    StrkeyRoundTrip(a, rest);
  }

  // ---------- every valid value is read back, whole ----------

  lemma {:induction false} ElementsTakeFourBytesEach(vals: seq<Val>)
    requires AllValid(vals)
    ensures |ElementsXdr(vals)| >= 4 * |vals|
  {
    if vals == [] {
    } else {
      ElementsTakeFourBytesEach(vals[1..]);
    }
  }

  lemma {:induction false} ElementHeights(vals: seq<Val>)
    requires vals != []
    ensures ElementsHeight(vals) >= 1 + Height(vals[0]) && ElementsHeight(vals) >= ElementsHeight(vals[1..])
  {
  }

  /** The encoding of a present container: its flag, its count and its values. */
  function ContainerXdr(count: nat, vals: seq<Val>): ByteString
    requires AllValid(vals)
  {
    U32Xdr(1) + (U32Xdr(count) + ElementsXdr(vals))
  }

  lemma {:induction false} AbsentContainerRoundTrip(rest: ByteString, depth: nat, paired: bool)
    ensures ContainerOf(U32Xdr(0) + rest, depth, paired) == Got([], 4)
  {
    Pow256Four();
    U32Head(0, rest);
  }

  lemma {:induction false} PresentContainer(p: ByteString, depth: nat, paired: bool)
    ensures ContainerOf(U32Xdr(1) + p, depth, paired) ==
            match CountedOf(p, depth, paired)
            case Bad => Bad
            case Got(items, used) => Got(items, 4 + used)
  {
    Pow256Four();
    U32Head(1, p);
  }

  /** The count guard lets every real container through: each value takes at least four bytes. */
  lemma {:induction false} CountedValues(count: nat, vals: seq<Val>, rest: ByteString, depth: nat, paired: bool)
    requires AllValid(vals) && FitsUnsigned(count, 4) && |vals| == if paired then 2 * count else count
    ensures CountedOf(U32Xdr(count) + (ElementsXdr(vals) + rest), depth, paired) ==
            match ItemsOf(ElementsXdr(vals) + rest, depth, |vals|)
            case Bad => Bad
            case Got(items, used) => Got(items, 4 + used)
  {
    Pow256Four();
    U32Head(count, ElementsXdr(vals) + rest);
    ElementsTakeFourBytesEach(vals);
  }

  /** A container is its presence, its count and its items. */
  lemma ContainerFraming(count: nat, vals: seq<Val>, rest: ByteString, depth: nat, paired: bool)
    requires AllValid(vals) && FitsUnsigned(count, 4) && |vals| == if paired then 2 * count else count
    ensures ContainerOf(ContainerXdr(count, vals) + rest, depth, paired) ==
            match ItemsOf(ElementsXdr(vals) + rest, depth, |vals|)
            case Bad => Bad
            case Got(items, used) => Got(items, 8 + used)
    ensures |ContainerXdr(count, vals)| == 8 + |ElementsXdr(vals)|
  {
    var tail := ElementsXdr(vals) + rest;
    assert ContainerXdr(count, vals) + rest == U32Xdr(1) + (U32Xdr(count) + tail);
    PresentContainer(U32Xdr(count) + tail, depth, paired);
    CountedValues(count, vals, rest, depth, paired);
  }

  /** A value is its discriminant and the arm that follows it. */
  lemma {:induction false} Tagged(tag: nat, body: ByteString, rest: ByteString, depth: nat)
    requires tag < 256 && depth <= MAX_DEPTH
    ensures ScValOf(U32Xdr(tag) + body + rest, depth) ==
            match BodyOf(tag, body + rest, depth)
            case Bad => Bad
            case Got(d, used) => Got(d, 4 + used)
    ensures |U32Xdr(tag) + body| == 4 + |body|
  {
    Pow256Four();
    assert U32Xdr(tag) + body + rest == U32Xdr(tag) + (body + rest);
    U32Head(tag, body + rest);
  }

  lemma {:induction false} ScValRoundTrip(v: Val, rest: ByteString, depth: nat)
    requires Valid(v) && depth + Height(v) <= MAX_DEPTH
    ensures ScValOf(Xdr(v) + rest, depth) == Got(Shows(v), |Xdr(v)|)
    decreases v, 3
  {
    Tagged(Tag(v), Body(v), rest, depth);
    BodyRoundTrip(v, rest, depth);
  }

  lemma {:induction false} BodyRoundTrip(v: Val, rest: ByteString, depth: nat)
    requires Valid(v) && depth + Height(v) <= MAX_DEPTH
    ensures BodyOf(Tag(v), Body(v) + rest, depth) == Got(Shows(v), |Body(v)|)
    decreases v, 2
  {
    if IsLeaf(v) {
      LeafRoundTrip(v, rest);
      LeafArm(v, Body(v) + rest, depth);
    } else if v.NoList? || v.NoDict? {
      AbsentRoundTrip(v, rest, depth);
    } else if v.List? {
      ListRoundTrip(v, rest, depth);
    } else if v.Dict? {
      DictRoundTrip(v, rest, depth);
    } else {
      InstanceRoundTrip(v, rest, depth);
    }
  }

  lemma {:induction false} ContainerRoundTrip(count: nat, vals: seq<Val>, rest: ByteString, depth: nat, paired: bool)
    requires AllValid(vals) && FitsUnsigned(count, 4) && |vals| == if paired then 2 * count else count
    requires vals == [] || depth + ElementsHeight(vals) <= MAX_DEPTH + 1
    ensures ContainerOf(ContainerXdr(count, vals) + rest, depth, paired)
            == Got(ElementsShow(vals), |ContainerXdr(count, vals)|)
    decreases vals, 1
  {
    ContainerFraming(count, vals, rest, depth, paired);
    ElementsRoundTrip(vals, rest, depth);
  }

  lemma {:induction false} ListRoundTrip(v: Val, rest: ByteString, depth: nat)
    requires Valid(v) && v.List? && depth + Height(v) <= MAX_DEPTH
    ensures BodyOf(Tag(v), Body(v) + rest, depth) == Got(Shows(v), |Body(v)|)
    decreases v, 0
  {
    assert Body(v) == ContainerXdr(|v.elements|, v.elements);
    ContainerRoundTrip(|v.elements|, v.elements, rest, depth + 1, false);
  }

  lemma {:induction false} DictRoundTrip(v: Val, rest: ByteString, depth: nat)
    requires Valid(v) && v.Dict? && depth + Height(v) <= MAX_DEPTH
    ensures BodyOf(Tag(v), Body(v) + rest, depth) == Got(Shows(v), |Body(v)|)
    decreases v, 0
  {
    assert Body(v) == ContainerXdr(|v.cells| / 2, v.cells);
    ContainerRoundTrip(|v.cells| / 2, v.cells, rest, depth + 1, true);
  }

  lemma {:induction false} AbsentRoundTrip(v: Val, rest: ByteString, depth: nat)
    requires (v.NoList? || v.NoDict?) && depth <= MAX_DEPTH
    ensures BodyOf(Tag(v), Body(v) + rest, depth) == Got(Shows(v), |Body(v)|)
  {
    AbsentContainerRoundTrip(rest, depth + 1, v.NoDict?);
  }

  predicate IsLeaf(v: Val) {
    !v.NoList? && !v.NoDict? && !v.List? && !v.Dict? && !v.Instance?
  }

  lemma LeafArm(v: Val, p: ByteString, depth: nat)
    requires IsLeaf(v) && depth <= MAX_DEPTH
    ensures BodyOf(Tag(v), p, depth) == LeafOf(Tag(v), p)
  {
    LeafTag(v);
    OtherArm(Tag(v), p, depth);
  }

  lemma LeafTag(v: Val)
    requires IsLeaf(v)
    ensures Tag(v) !in {16, 17, 19}
  {
  }

  lemma OtherArm(tag: nat, p: ByteString, depth: nat)
    requires tag !in {16, 17, 19} && depth <= MAX_DEPTH
    ensures BodyOf(tag, p, depth) == LeafOf(tag, p)
  {
  }

  ghost predicate ReadsAsLeaf(v: Val, rest: ByteString)
    requires Valid(v)
  {
    LeafOf(Tag(v), Body(v) + rest) == Got(Shows(v), |Body(v)|)
  }

  lemma {:induction false} LeafRoundTrip(v: Val, rest: ByteString)
    requires Valid(v) && IsLeaf(v)
    ensures ReadsAsLeaf(v, rest)
  {
    if v.Num? {
      NumberLeafRoundTrip(v, rest);
    } else if v.Bin? || v.Str? || v.Symbol? {
      OpaqueLeafRoundTrip(v, rest);
    } else if v.Addr? {
      AddressLeafRoundTrip(v, rest);
    } else {
      FixedLeafRoundTrip(v, rest);
    }
  }

  lemma AddressLeafRoundTrip(v: Val, rest: ByteString)
    requires Valid(v) && v.Addr?
    ensures ReadsAsLeaf(v, rest)
  {
    AddressRoundTrip(v.strkey, rest);
  }

  lemma {:induction false} OpaqueLeafRoundTrip(v: Val, rest: ByteString)
    requires Valid(v) && (v.Bin? || v.Str? || v.Symbol?)
    ensures ReadsAsLeaf(v, rest)
  {
    match v
    case Bin(data) => OpaqueRoundTrip(data, rest);
    case Str(data) => OpaqueRoundTrip(data, rest);
    case Symbol(text) => SymbolRoundTrip(text, rest);
  }

  lemma BoolLeafRoundTrip(v: Val, rest: ByteString)
    requires Valid(v) && v.Bool?
    ensures ReadsAsLeaf(v, rest)
  {
    Pow256Four();
    U32Head(if v.b then 1 else 0, rest);
  }

  lemma EmptyLeafRoundTrip(v: Val, rest: ByteString)
    requires v.Void? || v.LedgerKey?
    ensures ReadsAsLeaf(v, rest)
  {
  }

  lemma {:induction false} FixedLeafRoundTrip(v: Val, rest: ByteString)
    requires Valid(v) && (v.Bool? || v.Void? || v.Error? || v.LedgerKey?)
    ensures ReadsAsLeaf(v, rest)
  {
    if v.Error? {
      ErrorRoundTrip(v.kind, v.code, rest);
    } else if v.Bool? {
      BoolLeafRoundTrip(v, rest);
    } else {
      EmptyLeafRoundTrip(v, rest);
    }
  }

  lemma {:induction false} NumberLeafRoundTrip(v: Val, rest: ByteString)
    requires Valid(v) && v.Num?
    ensures ReadsAsLeaf(v, rest)
  {
    assert FormOf(FormTag(v.form)) == Some(v.form);
    NumberRoundTrip(v.form, v.i, rest);
  }

  lemma {:induction false} NumberRoundTrip(form: NumForm, i: int, rest: ByteString)
    requires Fits(form, i)
    ensures NumberOf(form, IntXdr(i, Width(form)) + rest) == Got(PlainText(NumberText(form), PrintInt(i)), Width(form))
  {
    if IsSigned(form) {
      SignedRoundTrip(i, Width(form), rest);
    } else {
      UnsignedRoundTrip(i, Width(form), rest);
    }
  }

  lemma ExecutableRoundTrip(wasm: Option<ByteString>, tail: ByteString)
    requires wasm.Some? ==> |wasm.value| == 32
    ensures var p := ExecutableXdr(wasm) + tail;
      ExecutableSize(p) == |ExecutableXdr(wasm)| && p[ExecutableSize(p)..] == tail
  {
    Pow256Four();
    if wasm.Some? {
      U32Head(0, wasm.value + tail);
      assert ExecutableXdr(wasm) + tail == U32Xdr(0) + (wasm.value + tail);
    } else {
      U32Head(1, tail);
    }
  }

  /** An instance's storage: an optional map, or its absence. */
  function StorageXdr(v: Val): ByteString
    requires Valid(v) && v.Instance?
  {
    if v.stored then ContainerXdr(|v.cells| / 2, v.cells) else U32Xdr(0)
  }

  lemma InstanceBody(v: Val)
    requires Valid(v) && v.Instance?
    ensures Body(v) == ExecutableXdr(v.wasm) + StorageXdr(v)
  {
  }

  lemma {:induction false} StorageRoundTrip(v: Val, rest: ByteString, depth: nat)
    requires Valid(v) && v.Instance? && depth + Height(v) <= MAX_DEPTH
    ensures ContainerOf(StorageXdr(v) + rest, depth + 1, true)
         == Got(if v.stored then ElementsShow(v.cells) else [], |StorageXdr(v)|)
    decreases v, 0
  {
    if v.stored {
      ContainerRoundTrip(|v.cells| / 2, v.cells, rest, depth + 1, true);
    } else {
      AbsentContainerRoundTrip(rest, depth + 1, true);
    }
  }

  lemma {:induction false} InstanceRoundTrip(v: Val, rest: ByteString, depth: nat)
    requires Valid(v) && v.Instance? && depth + Height(v) <= MAX_DEPTH
    ensures BodyOf(Tag(v), Body(v) + rest, depth) == Got(Shows(v), |Body(v)|)
    decreases v, 1
  {
    InstanceBody(v);
    ConcatIsAssociative(ExecutableXdr(v.wasm), StorageXdr(v), rest);
    StorageRoundTrip(v, rest, depth);
    InstanceArm(v.wasm, StorageXdr(v) + rest, depth, if v.stored then ElementsShow(v.cells) else [], |StorageXdr(v)|);
  }

  lemma InstanceArm(wasm: Option<ByteString>, tail: ByteString, depth: nat, items: seq<ScDisplay>, used: nat)
    requires (wasm.Some? ==> |wasm.value| == 32) && depth <= MAX_DEPTH
    requires ContainerOf(tail, depth + 1, true) == Got(items, used)
    ensures BodyOf(19, ExecutableXdr(wasm) + tail, depth) == Got(Opaque(ContractInstance), |ExecutableXdr(wasm)| + used)
  {
    ExecutableRoundTrip(wasm, tail);
  }

  lemma {:induction false} ElementsRoundTrip(vals: seq<Val>, rest: ByteString, depth: nat)
    requires AllValid(vals) && (vals == [] || depth + ElementsHeight(vals) <= MAX_DEPTH + 1)
    ensures ItemsOf(ElementsXdr(vals) + rest, depth, |vals|) == Got(ElementsShow(vals), |ElementsXdr(vals)|)
    decreases vals, 0
  {
    if vals == [] {
    } else {
      var first, others := Xdr(vals[0]), ElementsXdr(vals[1..]);
      assert ElementsXdr(vals) + rest == first + (others + rest);
      ElementHeights(vals);
      ScValRoundTrip(vals[0], others + rest, depth);
      assert (first + (others + rest))[|first|..] == others + rest;
      ElementsRoundTrip(vals[1..], rest, depth);
    }
  }

  // ---------- nesting ----------

  lemma {:induction false} TooDeepIsRefused(v: Val, rest: ByteString, depth: nat)
    requires Valid(v) && depth <= MAX_DEPTH < depth + Height(v)
    ensures ScValOf(Xdr(v) + rest, depth) == Bad
    decreases v, 2
  {
    Tagged(Tag(v), Body(v), rest, depth);
    if v.List? {
      assert Body(v) == ContainerXdr(|v.elements|, v.elements);
      ContainerTooDeep(|v.elements|, v.elements, rest, depth + 1, false);
    } else if v.Dict? {
      assert Body(v) == ContainerXdr(|v.cells| / 2, v.cells);
      ContainerTooDeep(|v.cells| / 2, v.cells, rest, depth + 1, true);
    } else {
      InstanceTooDeep(v, rest, depth);
    }
  }

  lemma {:induction false} InstanceTooDeep(v: Val, rest: ByteString, depth: nat)
    requires Valid(v) && v.Instance? && depth <= MAX_DEPTH < depth + Height(v)
    ensures InstanceOf(Body(v) + rest, depth + 1) == Bad
    decreases v, 1
  {
    var storage := ContainerXdr(|v.cells| / 2, v.cells);
    assert Body(v) + rest == ExecutableXdr(v.wasm) + (storage + rest);
    ExecutableRoundTrip(v.wasm, storage + rest);
    ContainerTooDeep(|v.cells| / 2, v.cells, rest, depth + 1, true);
  }

  lemma {:induction false} ContainerTooDeep(count: nat, vals: seq<Val>, rest: ByteString, depth: nat, paired: bool)
    requires AllValid(vals) && FitsUnsigned(count, 4) && |vals| == if paired then 2 * count else count
    requires depth <= MAX_DEPTH + 1 && vals != [] && depth + ElementsHeight(vals) > MAX_DEPTH + 1
    ensures ContainerOf(ContainerXdr(count, vals) + rest, depth, paired) == Bad
    decreases vals, 1
  {
    var tail := ElementsXdr(vals) + rest;
    ContainerParts(count, vals, rest);
    PresentContainer(U32Xdr(count) + tail, depth, paired);
    CountedValues(count, vals, rest, depth, paired);
    ElementsTooDeep(vals, rest, depth);
  }

  lemma ContainerParts(count: nat, vals: seq<Val>, rest: ByteString)
    requires AllValid(vals)
    ensures ContainerXdr(count, vals) + rest == U32Xdr(1) + (U32Xdr(count) + (ElementsXdr(vals) + rest))
  {
  }

  lemma BadAfterFirst(first: ByteString, others: ByteString, depth: nat, count: nat)
    requires count > 0 && ScValOf(first + others, depth).Got? && ScValOf(first + others, depth).used == |first|
    requires ItemsOf(others, depth, count - 1) == Bad
    ensures ItemsOf(first + others, depth, count) == Bad
  {
    assert (first + others)[|first|..] == others;
  }

  lemma {:induction false} ElementsTooDeep(vals: seq<Val>, rest: ByteString, depth: nat)
    requires AllValid(vals) && depth <= MAX_DEPTH + 1
    requires vals != [] && depth + ElementsHeight(vals) > MAX_DEPTH + 1
    ensures ItemsOf(ElementsXdr(vals) + rest, depth, |vals|) == Bad
    decreases vals, 0
  {
    var first, others := Xdr(vals[0]), ElementsXdr(vals[1..]);
    assert ElementsXdr(vals) + rest == first + (others + rest);
    if depth > MAX_DEPTH {
    } else {
      if depth + Height(vals[0]) > MAX_DEPTH {
        TooDeepIsRefused(vals[0], others + rest, depth);
      } else {
        ScValRoundTrip(vals[0], others + rest, depth);
        ElementsTooDeep(vals[1..], rest, depth);
        BadAfterFirst(first, others + rest, depth, |vals|);
      }
    }
  }

  /**
   The reader returns a valid value's display form, and stops exactly at the end of its
   encoding, precisely when its containers nest at most eight deep.
   */
  lemma ReaderIsExact(v: Val, rest: ByteString)
    requires Valid(v)
    ensures ScValOf(Xdr(v) + rest, 0) ==
            if Height(v) <= 8 then Got(Shows(v), |Xdr(v)|) else Bad
  {
    if Height(v) <= 8 {
      ScValRoundTrip(v, rest, 0);
    } else {
      TooDeepIsRefused(v, rest, 0);
    }
  }

  // ---------- arbitrary bytes ----------

  /** How deep containers nest in a display form. */
  function ShownDepth(d: ScDisplay): nat {
    match d
    case Vec(items) => ItemsShownDepth(items)
    case Map(cells) => ItemsShownDepth(cells)
    case _ => 0
  }

  function ItemsShownDepth(items: seq<ScDisplay>): nat {
    if items == [] then 0 else Max(1 + ShownDepth(items[0]), ItemsShownDepth(items[1..]))
  }

  lemma LeavesAreSingle(tag: nat, p: ByteString)
    requires LeafOf(tag, p).Got?
    ensures Nodes(LeafOf(tag, p).value) == 1 && ShownDepth(LeafOf(tag, p).value) == 0
  {
  }

  /** Hostile bytes cannot make much of little: four bytes a node, and no deeper than the cap. */
  lemma {:induction false} OutputIsBounded(s: ByteString, depth: nat)
    requires ScValOf(s, depth).Got?
    ensures 4 * Nodes(ScValOf(s, depth).value) <= ScValOf(s, depth).used
    ensures depth + ShownDepth(ScValOf(s, depth).value) <= MAX_DEPTH
    decreases Budget(depth), 1, 0
  {
    var tag, p := Unsigned(s[..4]), s[4..];
    if tag == 16 || tag == 17 {
      ContainerIsBounded(p, depth + 1, tag == 17);
    } else if tag == 19 {
      assert InstanceOf(p, depth + 1).value == Opaque(ContractInstance);
    } else {
      LeavesAreSingle(tag, p);
    }
  }

  lemma {:induction false} ContainerIsBounded(p: ByteString, depth: nat, paired: bool)
    requires depth <= MAX_DEPTH + 1 && ContainerOf(p, depth, paired).Got?
    ensures 4 * ItemNodes(ContainerOf(p, depth, paired).value) <= ContainerOf(p, depth, paired).used
    ensures depth + ItemsShownDepth(ContainerOf(p, depth, paired).value) <= MAX_DEPTH + 1
    decreases Budget(depth), 3, 0
  {
    if Unsigned(p[..4]) == 1 {
      var q := p[4..];
      var count := Unsigned(q[..4]);
      ItemsAreBounded(q[4..], depth, if paired then 2 * count else count);
    }
  }

  lemma OneMoreIsBounded(d: ScDisplay, rest: seq<ScDisplay>, n: nat, used: nat, depth: nat)
    requires 4 * Nodes(d) <= n && 4 * ItemNodes(rest) <= used
    requires depth + ShownDepth(d) <= MAX_DEPTH && depth + ItemsShownDepth(rest) <= MAX_DEPTH + 1
    ensures 4 * ItemNodes([d] + rest) <= n + used && depth + ItemsShownDepth([d] + rest) <= MAX_DEPTH + 1
  {
    assert ([d] + rest)[1..] == rest;
  }

  lemma OneMoreItem(s: ByteString, depth: nat, count: nat)
    requires count > 0 && ItemsOf(s, depth, count).Got?
    ensures var first := ScValOf(s, depth);
            && first.Got?
            && var rest := ItemsOf(s[first.used..], depth, count - 1);
               rest.Got? && ItemsOf(s, depth, count) == Got([first.value] + rest.value, first.used + rest.used)
  {
  }

  lemma {:induction false} ItemsAreBounded(s: ByteString, depth: nat, count: nat)
    requires depth <= MAX_DEPTH + 1 && ItemsOf(s, depth, count).Got?
    ensures 4 * ItemNodes(ItemsOf(s, depth, count).value) <= ItemsOf(s, depth, count).used
    ensures depth + ItemsShownDepth(ItemsOf(s, depth, count).value) <= MAX_DEPTH + 1
    decreases Budget(depth), 2, count
  {
    if count == 0 {
    } else {
      OneMoreItem(s, depth, count);
      var first := ScValOf(s, depth);
      var rest := ItemsOf(s[first.used..], depth, count - 1);
      OutputIsBounded(s, depth);
      ItemsAreBounded(s[first.used..], depth, count - 1);
      OneMoreIsBounded(first.value, rest.value, first.used, rest.used, depth);
    }
  }

  // ---------- alignment ----------

  lemma AddressIsAligned(a: Strkey)
    requires ValidStrkey(a)
    ensures |AddressXdr(a)| % 4 == 0
  {
  }

  lemma OpaqueIsAligned(data: ByteString)
    ensures |OpaqueXdr(data)| % 4 == 0
  {
    assert |OpaqueXdr(data)| == 4 + Padded(|data|);
    FourMore(Padded(|data|));
  }

  lemma FourMore(n: nat)
    ensures (4 + n) % 4 == n % 4
  {
  }

  lemma JoinIsAligned(x: ByteString, y: ByteString)
    requires |x| % 4 == 0 && |y| % 4 == 0
    ensures |x + y| % 4 == 0
  {
  }

  lemma LeafIsAligned(v: Val)
    requires Valid(v) && IsLeaf(v)
    ensures |Body(v)| % 4 == 0
  {
    match v
    case Bin(data) => OpaqueIsAligned(data);
    case Str(data) => OpaqueIsAligned(data);
    case Symbol(text) => OpaqueIsAligned(Codes(text));
    case Addr(a) => AddressIsAligned(a);
    case Num(form, _) => assert Width(form) % 4 == 0;
    case _ =>
  }

  lemma CountedIsAligned(n: nat, elements: ByteString)
    requires |elements| % 4 == 0
    ensures |U32Xdr(1) + (U32Xdr(n) + elements)| % 4 == 0
  {
  }

  lemma {:induction false} BodyIsAligned(v: Val)
    requires Valid(v)
    ensures |Body(v)| % 4 == 0
    decreases v, 0
  {
    if v.List? {
      ElementsAreAligned(v.elements);
      CountedIsAligned(|v.elements|, ElementsXdr(v.elements));
    } else if v.Dict? {
      ElementsAreAligned(v.cells);
      CountedIsAligned(|v.cells| / 2, ElementsXdr(v.cells));
    } else if v.Instance? {
      ElementsAreAligned(v.cells);
      CountedIsAligned(|v.cells| / 2, ElementsXdr(v.cells));
    } else if IsLeaf(v) {
      LeafIsAligned(v);
    }
  }

  /** Every value takes a multiple of four bytes (section 3 of RFC 4506). */
  lemma {:induction false} EncodingIsAligned(v: Val)
    requires Valid(v)
    ensures |Xdr(v)| % 4 == 0
    decreases v, 1
  {
    BodyIsAligned(v);
    JoinIsAligned(U32Xdr(Tag(v)), Body(v));
  }

  lemma {:induction false} ElementsAreAligned(vals: seq<Val>)
    requires AllValid(vals)
    ensures |ElementsXdr(vals)| % 4 == 0
    decreases vals, 2
  {
    if vals == [] {
    } else {
      EncodingIsAligned(vals[0]);
      ElementsAreAligned(vals[1..]);
      JoinIsAligned(Xdr(vals[0]), ElementsXdr(vals[1..]));
    }
  }
}
