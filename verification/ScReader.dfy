/**
 The reader itself: a class with a position that every read advances, and the recursive
 procedures that drive it. Each is proved to do what ScVal says of the bytes that were
 left when it was called; a thrown error is a failed result.
 */
module ScReader {
  import opened Wrappers
  import opened Bytes
  import opened Decimal
  import opened Display
  import opened ScVal
  import opened ScValTheorems

  const TWO_63 := 0x8000_0000_0000_0000
  const TWO_64 := 0x1_0000_0000_0000_0000

  class Reader {
    const bytes: ByteString
    var at: nat

    ghost predicate Valid()
      reads this
    {
      at <= |bytes|
    }

    /** The bytes not read yet. */
    ghost function Rest(): ByteString
      requires Valid()
      reads this
    {
      bytes[at..]
    }

    /**
     A read that began at start came out as said: the value, and the position moved by
     what it used; or a failure. Either way it never moved back nor past the end.
     */
    ghost predicate Did<T>(start: nat, r: Result<T>, said: Read<T>)
      reads this
    {
      && start <= at <= |bytes|
      && match said
         case Bad => r.Fail?
         case Got(value, used) => r == Ok(value) && at == start + used
    }

    constructor (bytes: ByteString)
      ensures Valid() && this.bytes == bytes && at == 0
    {
      this.bytes := bytes;
      at := 0;
    }

    method Fixed(count: nat) returns (r: Result<ByteString>)
      requires Valid()
      modifies this`at
      ensures Did(old(at), r, FixedOf(old(Rest()), count))
    {
      if at + count > |bytes| {
        return Fail;
      }
      assert bytes[at..at + count] == Rest()[..count];
      r := Ok(bytes[at..at + count]);
      at := at + count;
    }

    method U32() returns (r: Result<int>)
      requires Valid()
      modifies this`at
      ensures Did(old(at), r, UnsignedOf(old(Rest()), 4))
    {
      var data := Fixed(4);
      if data.Fail? {
        return Fail;
      }
      var d := data.value;
      FourBytes(d);
      r := Ok((d[0] as int) * 0x100_0000 + (d[1] as int) * 0x1_0000 + (d[2] as int) * 0x100 + d[3]);
    }

    /** u32() | 0. */
    method I32() returns (r: Result<int>)
      requires Valid()
      modifies this`at
      ensures Did(old(at), r, SignedOf(old(Rest()), 4))
    {
      ghost var s := Rest();
      var n := U32();
      if n.Fail? {
        return Fail;
      }
      SignBit(s[..4]);
      Pow256Four();
      r := Ok(if n.value >= 0x8000_0000 then n.value - TWO_32 else n.value);
    }

    method U64() returns (r: Result<int>)
      requires Valid()
      modifies this`at
      ensures Did(old(at), r, UnsignedOf(old(Rest()), 8))
    {
      var data := Fixed(8);
      if data.Fail? {
        return Fail;
      }
      var value: int := 0;
      var i := 0;
      while i < |data.value|
        invariant 0 <= i <= |data.value|
        invariant value == Unsigned(data.value[..i])
      {
        assert data.value[..i + 1][..i] == data.value[..i];
        value := value * 256 + (data.value[i] as int);
        i := i + 1;
      }
      assert data.value[..i] == data.value;
      r := Ok(value);
    }

    method I64() returns (r: Result<int>)
      requires Valid()
      modifies this`at
      ensures Did(old(at), r, SignedOf(old(Rest()), 8))
    {
      ghost var s := Rest();
      var n := U64();
      if n.Fail? {
        return Fail;
      }
      SignBit(s[..8]);
      Pow256Eight();
      r := Ok(if n.value >= TWO_63 then n.value - TWO_64 else n.value);
    }

    method Remaining() returns (n: nat)
      requires Valid()
      ensures n == |Rest()|
    {
      n := |bytes| - at;
    }

    method Opaque() returns (r: Result<ByteString>)
      requires Valid()
      modifies this`at
      ensures Did(old(at), r, OpaqueOf(old(Rest())))
    {
      ghost var s := Rest();
      var length := U32();
      if length.Fail? {
        return Fail;
      }
      var left := Remaining();
      if length.value > left {
        return Fail;
      }
      var data := Fixed(length.value);
      var padding := Fixed((4 - length.value % 4) % 4);
      if padding.Fail? {
        return Fail;
      }
      assert data.value == s[4..4 + length.value];
      r := data;
    }
  }

  // ---------- arithmetic of the pieces ----------

  lemma FourBytes(d: ByteString)
    requires |d| == 4
    ensures Unsigned(d) == (d[0] as int) * 0x100_0000 + (d[1] as int) * 0x1_0000 + (d[2] as int) * 0x100 + d[3]
  {
    assert d[..3][..2] == d[..2] && d[..2][..1] == d[..1] && d[..1][..0] == [];
    assert Unsigned(d[..1]) == d[0];
    assert Unsigned(d[..2]) == (d[0] as int) * 256 + d[1];
    assert Unsigned(d[..3]) == ((d[0] as int) * 256 + d[1]) * 256 + d[2];
  }

  /** Two numbers read one after the other, the first weighted by the width of the second. */
  lemma TwoParts(s: ByteString, high: nat, low: nat)
    requires high > 0 && |s| >= high + low
    ensures Unsigned(s[..high + low]) == Unsigned(s[..high]) * Pow256(low) + Unsigned(s[high..][..low])
    ensures Signed(s[..high + low]) == Signed(s[..high]) * Pow256(low) + Unsigned(s[high..][..low])
  {
    var a, b := s[..high], s[high..][..low];
    assert s[..high + low] == a + b;
    UnsignedConcat(a, b);
    SignedConcat(a, b);
  }

  // ---------- numbers wider than a word ----------

  /** hi * TWO_64 + lo. */
  function Word(hi: int, lo: int): int {
    hi * 0x1_0000_0000_0000_0000 + lo
  }

  /** Two words read one after the other. */
  method ReadTwoWords(reader: Reader, signed: bool) returns (r: Result<int>)
    requires reader.Valid()
    modifies reader`at
    ensures var s := old(reader.Rest());
            reader.Did(old(reader.at), r, if signed then SignedOf(s, 16) else UnsignedOf(s, 16))
  {
    ghost var s := reader.Rest();
    var hi: Result<int>;
    if signed {
      hi := reader.I64();
    } else {
      hi := reader.U64();
    }
    if hi.Fail? {
      return Fail;
    }
    assert reader.Rest() == s[8..];
    var lo := reader.U64();
    if lo.Fail? {
      return Fail;
    }
    Pow256Eight();
    TwoParts(s, 8, 8);
    r := Ok(Word(hi.value, lo.value));
  }

  lemma FourWords(s: ByteString)
    requires |s| >= 32
    ensures Unsigned(s[..32]) == Word(Word(Unsigned(s[..16]), Unsigned(s[16..][..8])), Unsigned(s[24..][..8]))
    ensures Signed(s[..32]) == Word(Word(Signed(s[..16]), Unsigned(s[16..][..8])), Unsigned(s[24..][..8]))
  {
    Pow256Eight();
    TwoParts(s, 16, 8);
    TwoParts(s, 24, 8);
  }

  method ReadFourWords(reader: Reader, signed: bool) returns (r: Result<int>)
    requires reader.Valid()
    modifies reader`at
    ensures var s := old(reader.Rest());
            reader.Did(old(reader.at), r, if signed then SignedOf(s, 32) else UnsignedOf(s, 32))
  {
    ghost var s := reader.Rest();
    var hi := ReadTwoWords(reader, signed);
    if hi.Fail? {
      return Fail;
    }
    assert reader.Rest() == s[16..];
    var loHi := reader.U64();
    if loHi.Fail? {
      return Fail;
    }
    assert reader.Rest() == s[24..];
    var loLo := reader.U64();
    if loLo.Fail? {
      return Fail;
    }
    FourWords(s);
    r := Ok(Word(Word(hi.value, loHi.value), loLo.value));
  }

  method ReadNumber(reader: Reader, form: NumForm) returns (r: Result<ScDisplay>)
    requires reader.Valid()
    modifies reader`at
    ensures reader.Did(old(reader.at), r, NumberOf(form, old(reader.Rest())))
  {
    var n := ReadValue(reader, form);
    if n.Fail? {
      return Fail;
    }
    r := Ok(PlainText(NumberText(form), PrintInt(n.value)));
  }

  /** The number itself, by its arm's width and sign. */
  method ReadValue(reader: Reader, form: NumForm) returns (n: Result<int>)
    requires reader.Valid()
    modifies reader`at
    ensures var s, width := old(reader.Rest()), Width(form);
            reader.Did(old(reader.at), n, if IsSigned(form) then SignedOf(s, width) else UnsignedOf(s, width))
  {
    match form {
      case U32 => n := reader.U32();
      case I32 => n := reader.I32();
      case I64 => n := reader.I64();
      case Nonce => n := reader.I64();
      case U128 => n := ReadTwoWords(reader, false);
      case I128 => n := ReadTwoWords(reader, true);
      case U256 => n := ReadFourWords(reader, false);
      case I256 => n := ReadFourWords(reader, true);
      case _ => n := reader.U64();
    }
  }

  // ---------- the other leaves ----------

  method ReadError(reader: Reader) returns (r: Result<ScDisplay>)
    requires reader.Valid()
    modifies reader`at
    ensures reader.Did(old(reader.at), r, ErrorOf(old(reader.Rest())))
  {
    ghost var s := reader.Rest();
    var errorType := reader.U32();
    if errorType.Fail? {
      return Fail;
    }
    var code := reader.U32();
    if code.Fail? {
      return Fail;
    }
    assert s[4..8] == s[4..][..4];
    r := Ok(PlainText(FailureText, ErrorText(errorType.value, code.value)));
  }

  method ReadSymbol(reader: Reader) returns (r: Result<ScDisplay>)
    requires reader.Valid()
    modifies reader`at
    ensures reader.Did(old(reader.at), r, SymbolShown(OpaqueOf(old(reader.Rest()))))
  {
    var data := reader.Opaque();
    if data.Fail? || !IsSymbol(Chars(data.value)) {
      return Fail;
    }
    r := Ok(PlainText(SymbolText, Chars(data.value)));
  }

  /** A zero word, then 32 bytes: the only key and balance id types there are. */
  method ReadTyped32(reader: Reader) returns (r: Result<ByteString>)
    requires reader.Valid()
    modifies reader`at
    ensures var s := old(reader.Rest());
      reader.Did(old(reader.at), r, if |s| < 36 || Unsigned(s[..4]) != 0 then Bad else Got(s[4..36], 36))
  {
    ghost var s := reader.Rest();
    var kind := reader.U32();
    if kind.Fail? || kind.value != 0 {
      return Fail;
    }
    r := reader.Fixed(32);
    assert |s| >= 36 ==> s[4..36] == s[4..][..32];
  }

  method ReadStrkey(reader: Reader, kind: nat) returns (r: Result<Strkey>)
    requires reader.Valid()
    modifies reader`at
    ensures reader.Did(old(reader.at), r, StrkeyOf(kind, old(reader.Rest())))
  {
    ghost var p := reader.Rest();
    match kind {
      case 0 =>
        var key := ReadTyped32(reader);
        if key.Fail? {
          return Fail;
        }
        r := Ok(Account(key.value));
      case 2 =>
        var id := reader.Fixed(8);
        if id.Fail? {
          return Fail;
        }
        var ed25519 := reader.Fixed(32);
        if ed25519.Fail? {
          return Fail;
        }
        assert p[8..40] == p[8..][..32];
        r := Ok(Muxed(ed25519.value + id.value));
      case 3 =>
        var id := ReadTyped32(reader);
        if id.Fail? {
          return Fail;
        }
        r := Ok(ClaimableBalance([0] + id.value));
      case 1 =>
        var hash := reader.Fixed(32);
        if hash.Fail? {
          return Fail;
        }
        r := Ok(Contract(hash.value));
      case 4 =>
        var hash := reader.Fixed(32);
        if hash.Fail? {
          return Fail;
        }
        r := Ok(LiquidityPool(hash.value));
      case _ => r := Fail;
    }
  }

  method ReadAddress(reader: Reader) returns (r: Result<ScDisplay>)
    requires reader.Valid()
    modifies reader`at
    ensures reader.Did(old(reader.at), r, AddressOf(old(reader.Rest())))
  {
    ghost var s := reader.Rest();
    var kind := reader.U32();
    if kind.Fail? {
      return Fail;
    }
    assert reader.Rest() == s[4..];
    var a := ReadStrkey(reader, kind.value);
    if a.Fail? {
      return Fail;
    }
    r := Ok(Address(a.value));
  }

  method ReadLeaf(reader: Reader, tag: nat) returns (r: Result<ScDisplay>)
    requires reader.Valid()
    modifies reader`at
    ensures reader.Did(old(reader.at), r, LeafOf(tag, old(reader.Rest())))
  {
    if FormOf(tag).Some? {
      r := ReadNumber(reader, FormOf(tag).value);
      return;
    }
    match tag {
      case 0 =>
        var b := reader.U32();
        r := if b.Fail? then Fail else Ok(PlainText(BoolText, if b.value == 0 then "false" else "true"));
      case 1 => r := Ok(PlainText(VoidText, "void"));
      case 2 => r := ReadError(reader);
      case 13 =>
        var data := reader.Opaque();
        r := if data.Fail? then Fail else Ok(PlainText(BytesText, FormatBytes(data.value)));
      case 14 =>
        var data := reader.Opaque();
        r := if data.Fail? then Fail else Ok(Text(StringText, Utf8(data.value)));
      case 15 => r := ReadSymbol(reader);
      case 18 => r := ReadAddress(reader);
      case 20 => r := Ok(Opaque(LedgerKeyInstance));
      case _ => r := Fail;
    }
  }

  // ---------- containers and the whole value ----------

  method ReadPresence(reader: Reader) returns (r: Result<bool>)
    requires reader.Valid()
    modifies reader`at
    ensures var s := old(reader.Rest());
      reader.Did(old(reader.at), r, if |s| < 4 || Unsigned(s[..4]) > 1 then Bad else Got(Unsigned(s[..4]) == 1, 4))
  {
    var flag := reader.U32();
    if flag.Fail? || flag.value > 1 {
      return Fail;
    }
    r := Ok(flag.value == 1);
  }

  method ReadCount(reader: Reader) returns (r: Result<nat>)
    requires reader.Valid()
    modifies reader`at
    ensures var s := old(reader.Rest());
      reader.Did(old(reader.at), r,
                 if |s| < 4 || 4 * Unsigned(s[..4]) > |s| - 4 then Bad else Got(Unsigned(s[..4]), 4))
  {
    var count := reader.U32();
    if count.Fail? {
      return Fail;
    }
    var left := reader.Remaining();
    // count > left / 4 over the rationals
    if 4 * count.value > left {
      return Fail;
    }
    r := Ok(count.value);
  }

  /** Values already read, put before what reading the rest comes to. */
  function Prepend(items: seq<ScDisplay>, used: nat, r: Read<seq<ScDisplay>>): Read<seq<ScDisplay>> {
    match r
    case Bad => Bad
    case Got(rest, more) => Got(items + rest, used + more)
  }

  lemma PrependOneMore(items: seq<ScDisplay>, used: nat, s: ByteString, depth: nat, count: nat)
    requires count > 0
    ensures Prepend(items, used, ItemsOf(s, depth, count)) ==
            match ScValOf(s, depth)
            case Bad => Bad
            case Got(d, n) => Prepend(items + [d], used + n, ItemsOf(s[n..], depth, count - 1))
  {
    if ScValOf(s, depth).Got? {
      var d, n := ScValOf(s, depth).value, ScValOf(s, depth).used;
      var rest := ItemsOf(s[n..], depth, count - 1);
      if rest.Got? {
        assert items + ([d] + rest.value) == items + [d] + rest.value;
      }
    }
  }

  lemma PrependEnds(items: seq<ScDisplay>, used: nat, s: ByteString, depth: nat, count: nat)
    ensures Prepend([], 0, ItemsOf(s, depth, count)) == ItemsOf(s, depth, count)
    ensures Prepend(items, used, ItemsOf(s, depth, 0)) == Got(items, used)
  {
    if ItemsOf(s, depth, count).Got? {
      assert [] + ItemsOf(s, depth, count).value == ItemsOf(s, depth, count).value;
    }
    assert items + [] == items;
  }

  /** So many values are still to come after these. */
  ghost predicate SoFar(said: Read<seq<ScDisplay>>, items: seq<ScDisplay>, used: int, s: ByteString, depth: nat,
                        count: nat)
  {
    used >= 0 && said == Prepend(items, used, ItemsOf(s, depth, count))
  }

  /** One turn of the loop: what the rest comes to, after the items already read. */
  method ReadOneMore(reader: Reader, depth: nat, count: nat, items: seq<ScDisplay>,
                     ghost start: nat, ghost said: Read<seq<ScDisplay>>)
      returns (r: Result<seq<ScDisplay>>)
    requires reader.Valid() && start <= reader.at && count > 0
    requires SoFar(said, items, reader.at - start, reader.Rest(), depth, count)
    modifies reader`at
    ensures start <= reader.at <= |reader.bytes|
    ensures r.Ok? ==> SoFar(said, r.value, reader.at - start, reader.Rest(), depth, count - 1)
    ensures r.Fail? ==> said.Bad?
    decreases Budget(depth), 2
  {
    ghost var rest, used := reader.Rest(), reader.at - start;
    PrependOneMore(items, used, rest, depth, count);
    var item := ReadScVal(reader, depth);
    if item.Fail? {
      return Fail;
    }
    assert reader.Rest() == rest[ScValOf(rest, depth).used..];
    r := Ok(items + [item.value]);
  }

  /** The loop of readVecItems, and of readMapEntries with two values an entry. */
  method ReadItems(reader: Reader, depth: nat, count: nat) returns (r: Result<seq<ScDisplay>>)
    requires reader.Valid()
    modifies reader`at
    ensures reader.Did(old(reader.at), r, ItemsOf(old(reader.Rest()), depth, count))
    decreases Budget(depth), 3
  {
    ghost var start := reader.at;
    ghost var said := ItemsOf(reader.Rest(), depth, count);
    var items: seq<ScDisplay> := [];
    var index := 0;
    PrependEnds([], 0, reader.Rest(), depth, count);
    while index < count
      invariant 0 <= index <= count
      invariant start <= reader.at <= |reader.bytes|
      invariant SoFar(said, items, reader.at - start, reader.Rest(), depth, count - index)
    {
      var more := ReadOneMore(reader, depth, count - index, items, start, said);
      if more.Fail? {
        return Fail;
      }
      items := more.value;
      index := index + 1;
    }
    PrependEnds(items, reader.at - start, reader.Rest(), depth, 0);
    r := Ok(items);
  }

  /** readPresence, then readVecItems or readMapEntries. */
  method ReadContainer(reader: Reader, depth: nat, paired: bool) returns (r: Result<seq<ScDisplay>>)
    requires reader.Valid()
    modifies reader`at
    ensures reader.Did(old(reader.at), r, ContainerOf(old(reader.Rest()), depth, paired))
    decreases Budget(depth), 4
  {
    ghost var s := reader.Rest();
    var present := ReadPresence(reader);
    if present.Fail? {
      return Fail;
    }
    if !present.value {
      return Ok([]);
    }
    assert reader.Rest() == s[4..];
    var count := ReadCount(reader);
    if count.Fail? {
      return Fail;
    }
    assert reader.Rest() == s[4..][4..];
    r := ReadItems(reader, depth, if paired then 2 * count.value else count.value);
  }

  method ReadInstance(reader: Reader, depth: nat) returns (r: Result<ScDisplay>)
    requires reader.Valid()
    modifies reader`at
    ensures reader.Did(old(reader.at), r, InstanceOf(old(reader.Rest()), depth))
    decreases Budget(depth), 5
  {
    ghost var s := reader.Rest();
    var executable := reader.U32();
    if executable.Fail? {
      return Fail;
    }
    if executable.value == 0 {
      var hash := reader.Fixed(32);
      if hash.Fail? {
        return Fail;
      }
    }
    assert reader.Rest() == s[ExecutableSize(s)..];
    var storage := ReadContainer(reader, depth, true);
    if storage.Fail? {
      return Fail;
    }
    r := Ok(Opaque(ContractInstance)); // instance storage is read but not shown
  }

  method ReadScVal(reader: Reader, depth: nat) returns (r: Result<ScDisplay>)
    requires reader.Valid()
    modifies reader`at
    ensures reader.Did(old(reader.at), r, ScValOf(old(reader.Rest()), depth))
    decreases Budget(depth), 1
  {
    if depth > MAX_DEPTH {
      return Fail;
    }
    ghost var s := reader.Rest();
    var tag := reader.U32();
    if tag.Fail? {
      return Fail;
    }
    assert reader.Rest() == s[4..];
    match tag.value {
      case 16 =>
        var items := ReadContainer(reader, depth + 1, false);
        r := if items.Fail? then Fail else Ok(Vec(items.value));
      case 17 =>
        var cells := ReadContainer(reader, depth + 1, true);
        r := if cells.Fail? then Fail else Ok(Map(cells.value));
      case 19 => r := ReadInstance(reader, depth + 1);
      case _ => r := ReadLeaf(reader, tag.value);
    }
  }

  /**
   Text that is no base64 and bytes that are malformed, truncated or of an unknown type
   decode to nothing; bytes after the value are ignored.
   */
  method DecodeScVal(bytesOf: string -> Option<ByteString>, base64: string) returns (r: Option<ScDisplay>)
    ensures bytesOf(base64).None? ==> r == None
    ensures bytesOf(base64).Some? ==>
              r == match ScValOf(bytesOf(base64).value, 0) case Bad => None case Got(value, _) => Some(value)
  {
    var bytes := bytesOf(base64);
    if bytes.None? {
      return None;
    }
    var reader := new Reader(bytes.value);
    assert reader.Rest() == bytes.value;
    var value := ReadScVal(reader, 0);
    r := if value.Fail? then None else Some(value.value);
  }

  /** What decodeScVal makes of a text for a valid value's encoding, whatever follows it. */
  method DecodeEncoded(bytesOf: string -> Option<ByteString>, base64: string, v: Val, rest: ByteString)
    returns (r: Option<ScDisplay>)
    requires ScVal.Valid(v) && bytesOf(base64) == Some(Xdr(v) + rest)
    ensures r == if Height(v) <= 8 then Some(Shows(v)) else None
  {
    ReaderIsExact(v, rest);
    r := DecodeScVal(bytesOf, base64);
  }
}
