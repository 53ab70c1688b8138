/**
 Signer hints from the tail of a transaction envelope: the decorated signatures are the
 envelope's last field, and their sizes follow from the signatures the provider reports.
 */
module Signatures {
  import opened Wrappers
  import opened Bytes

  /** hint is hexadecimal; signature is the provider's own text. */
  datatype Decorated = Decorated(hint: string, signature: string)

  function U32At(bytes: ByteString, at: nat): nat
    requires at + 4 <= |bytes|
  {
    Unsigned(bytes[at..at + 4])
  }

  /** The size of the decorated signatures themselves. */
  function Room(bodies: seq<ByteString>): nat {
    if bodies == [] then 0 else 8 + Padded(|bodies[0]|) + Room(bodies[1..])
  }

  // ---------- the encoding (sections 4.10 and 4.13 of RFC 4506) ----------

  /** One decorated signature: a 4-byte hint, then variable-length opaque data and its fill. */
  datatype Item = Item(hint: ByteString, body: ByteString, fill: ByteString)

  predicate WellFormed(item: Item) {
    |item.hint| == 4 && |item.body| < TWO_32 && |item.body| + |item.fill| == Padded(|item.body|)
  }

  predicate AllWellFormed(items: seq<Item>) {
    forall i :: 0 <= i < |items| ==> WellFormed(items[i])
  }

  function ItemXdr(item: Item): ByteString {
    item.hint + BigEndian(|item.body|, 4) + item.body + item.fill
  }

  function ItemsXdr(items: seq<Item>): ByteString {
    if items == [] then [] else ItemXdr(items[0]) + ItemsXdr(items[1..])
  }

  function VectorXdr(items: seq<Item>): ByteString {
    BigEndian(|items|, 4) + ItemsXdr(items)
  }

  function Bodies(items: seq<Item>): seq<ByteString> {
    seq(|items|, i requires 0 <= i < |items| => items[i].body)
  }

  function Hints(items: seq<Item>): seq<ByteString> {
    seq(|items|, i requires 0 <= i < |items| => items[i].hint)
  }

  // ---------- what the loop reads ----------

  /** The hints of the items a byte string consists of, if their signatures are these. */
  function ReadItems(s: ByteString, bodies: seq<ByteString>): Option<seq<ByteString>>
    requires |s| == Room(bodies)
  {
    if bodies == [] then Some([])
    else
      var n := |bodies[0]|;
      if U32At(s, 4) != n || s[8..8 + n] != bodies[0] then None
      else
        var rest := ReadItems(s[8 + Padded(n)..], bodies[1..]);
        if rest.None? then None else Some([s[..4]] + rest.value)
  }

  function ReadTail(envelope: ByteString, bodies: seq<ByteString>): Option<seq<ByteString>> {
    var size := 4 + Room(bodies);
    if |envelope| < size then None
    else
      var tail := envelope[|envelope| - size..];
      if U32At(tail, 0) != |bodies| then None else ReadItems(tail[4..], bodies)
  }

  // ---------- soundness and completeness ----------

  lemma FourBytes(n: nat, s: ByteString)
    requires |s| == 4
    ensures n < TWO_32 ==> (Unsigned(s) == n <==> s == BigEndian(n, 4))
    ensures Unsigned(s) == n ==> n < TWO_32
  {
    Pow256Four();
    UnsignedBound(s);
    if n < TWO_32 {
      BigEndianRoundTrip(n, 4);
      if Unsigned(s) == n { UnsignedInjective(s, BigEndian(n, 4)); }
    }
  }

  lemma ItemParts(item: Item, rest: ByteString)
    requires WellFormed(item)
    ensures var s := ItemXdr(item) + rest;
            var n := |item.body|;
            && |ItemXdr(item)| == 8 + Padded(n)
            && s[..4] == item.hint && s[4..8] == BigEndian(n, 4) && s[8..8 + n] == item.body
            && s[8 + Padded(n)..] == rest
  {
  }

  lemma {:induction false} EncodedSize(items: seq<Item>)
    requires AllWellFormed(items)
    ensures |ItemsXdr(items)| == Room(Bodies(items))
  {
    if items == [] {
    } else {
      ItemParts(items[0], []);
      EncodedSize(items[1..]);
      assert Bodies(items)[1..] == Bodies(items[1..]);
    }
  }

  /** Reading what was encoded gives the hints back, whatever the fill bytes are. */
  lemma {:induction false} ReadsItsEncoding(items: seq<Item>)
    requires AllWellFormed(items)
    ensures |ItemsXdr(items)| == Room(Bodies(items))
    ensures ReadItems(ItemsXdr(items), Bodies(items)) == Some(Hints(items))
  {
    EncodedSize(items);
    if items == [] {
      assert Hints(items) == [];
    } else {
      ReadsItsEncoding(items[1..]);
      ItemParts(items[0], ItemsXdr(items[1..]));
      assert Bodies(items)[1..] == Bodies(items[1..]);
      assert Hints(items) == [items[0].hint] + Hints(items[1..]);
      FourBytes(|items[0].body|, BigEndian(|items[0].body|, 4));
    }
  }

  /** The items a byte string consists of when reading succeeds. */
  function ItemsIn(s: ByteString, bodies: seq<ByteString>): seq<Item>
    requires |s| == Room(bodies)
  {
    if bodies == [] then []
    else
      var n := |bodies[0]|;
      [Item(s[..4], bodies[0], s[8 + n..8 + Padded(n)])] + ItemsIn(s[8 + Padded(n)..], bodies[1..])
  }

  lemma FirstItem(s: ByteString, body: ByteString)
    requires |s| >= 8 + Padded(|body|) && U32At(s, 4) == |body| && s[8..8 + |body|] == body
    ensures var item := Item(s[..4], body, s[8 + |body|..8 + Padded(|body|)]);
            WellFormed(item) && s == ItemXdr(item) + s[8 + Padded(|body|)..]
  {
    FourBytes(|body|, s[4..8]);
    assert s == s[..4] + s[4..8] + s[8..8 + |body|] + s[8 + |body|..8 + Padded(|body|)] + s[8 + Padded(|body|)..];
  }

  lemma FrontOfItems(item: Item, rest: seq<Item>)
    ensures Bodies([item] + rest) == [item.body] + Bodies(rest)
    ensures Hints([item] + rest) == [item.hint] + Hints(rest)
    ensures ItemsXdr([item] + rest) == ItemXdr(item) + ItemsXdr(rest)
  {
    assert ([item] + rest)[1..] == rest;
  }

  /** Whatever is read was encoded there. */
  lemma {:induction false} ReadIsEncoded(s: ByteString, bodies: seq<ByteString>)
    requires |s| == Room(bodies) && ReadItems(s, bodies).Some?
    ensures var items := ItemsIn(s, bodies);
            && AllWellFormed(items) && Bodies(items) == bodies
            && s == ItemsXdr(items) && ReadItems(s, bodies) == Some(Hints(items))
  {
    if bodies == [] {
      assert Hints([]) == [] && Bodies([]) == [];
    } else {
      var n := |bodies[0]|;
      var rest := s[8 + Padded(n)..];
      ReadIsEncoded(rest, bodies[1..]);
      FirstItem(s, bodies[0]);
      var item := Item(s[..4], bodies[0], s[8 + n..8 + Padded(n)]);
      FrontOfItems(item, ItemsIn(rest, bodies[1..]));
      assert bodies == [bodies[0]] + bodies[1..];
    }
  }

  /** The envelope ends in the vector of these items. */
  ghost predicate EndsIn(envelope: ByteString, items: seq<Item>) {
    && AllWellFormed(items) && |items| < TWO_32
    && |envelope| >= |VectorXdr(items)|
    && envelope[|envelope| - |VectorXdr(items)|..] == VectorXdr(items)
  }

  /** Complete: a prefix followed by the vector of decorated signatures gives every hint, in order. */
  lemma EveryHintIsFound(prefix: ByteString, items: seq<Item>)
    requires AllWellFormed(items) && |items| < TWO_32
    ensures ReadTail(prefix + VectorXdr(items), Bodies(items)) == Some(Hints(items))
  {
    ReadsItsEncoding(items);
    var envelope, v := prefix + VectorXdr(items), VectorXdr(items);
    assert envelope[|envelope| - |v|..] == v;
    assert v[0..4] == BigEndian(|items|, 4) && v[4..] == ItemsXdr(items);
    FourBytes(|items|, v[0..4]);
  }

  /**
   Sound and complete: hints are read exactly when the envelope ends in a vector of
   decorated signatures with these signatures, and they are that vector's hints.
   */
  lemma HintsAreReadExactly(envelope: ByteString, bodies: seq<ByteString>, hints: seq<ByteString>)
    ensures ReadTail(envelope, bodies) == Some(hints) <==>
            exists items :: EndsIn(envelope, items) && Bodies(items) == bodies && Hints(items) == hints
  {
    if ReadTail(envelope, bodies) == Some(hints) {
      var tail := envelope[|envelope| - 4 - Room(bodies)..];
      var items := ItemsIn(tail[4..], bodies);
      ReadIsEncoded(tail[4..], bodies);
      FourBytes(|bodies|, tail[0..4]);
      assert tail == VectorXdr(items);
      assert EndsIn(envelope, items);
    }
    forall items | EndsIn(envelope, items) && Bodies(items) == bodies && Hints(items) == hints
      ensures ReadTail(envelope, bodies) == Some(hints)
    {
      var k := |envelope| - |VectorXdr(items)|;
      EveryHintIsFound(envelope[..k], items);
      assert envelope == envelope[..k] + VectorXdr(items);
    }
  }

  // ---------- the program's own loop ----------

  method SameBytes(a: ByteString, b: ByteString) returns (same: bool)
    ensures same <==> a == b
  {
    if |a| != |b| { return false; }
    var index := 0;
    while index < |a|
      invariant 0 <= index <= |a|
      invariant a[..index] == b[..index]
    {
      if a[index] != b[index] { return false; }
      index := index + 1;
    }
    same := true;
  }

  function Prepend(hints: seq<ByteString>, r: Option<seq<ByteString>>): Option<seq<ByteString>> {
    if r.None? then None else Some(hints + r.value)
  }

  lemma PrependNothing(r: Option<seq<ByteString>>)
    ensures Prepend([], r) == r
  {
    assert r.Some? ==> [] + r.value == r.value;
  }

  /** The signatures' bytes, if every one of them is valid base64. */
  function Decoded(decode: string -> Option<ByteString>, signatures: seq<string>): Option<seq<ByteString>> {
    if signatures == [] then Some([])
    else
      var init := Decoded(decode, signatures[..|signatures| - 1]);
      var last := decode(signatures[|signatures| - 1]);
      if init.None? || last.None? then None else Some(init.value + [last.value])
  }

  method DecodeAll(decode: string -> Option<ByteString>, signatures: seq<string>) returns (r: Option<seq<ByteString>>)
    ensures r == Decoded(decode, signatures)
    ensures r.Some? ==> |r.value| == |signatures|
  {
    var expected: seq<ByteString> := [];
    var i := 0;
    while i < |signatures|
      invariant 0 <= i <= |signatures| && |expected| == i
      invariant Decoded(decode, signatures[..i]) == Some(expected)
    {
      assert signatures[..i + 1][..i] == signatures[..i];
      var bytes := decode(signatures[i]);
      if bytes.None? {
        NeverDecodes(decode, signatures, i);
        return None;
      }
      expected := expected + [bytes.value];
      i := i + 1;
    }
    assert signatures[..i] == signatures;
    r := Some(expected);
  }

  lemma {:induction false} NeverDecodes(decode: string -> Option<ByteString>, signatures: seq<string>, i: nat)
    requires i < |signatures| && decode(signatures[i]).None?
    ensures Decoded(decode, signatures).None?
  {
    if i >= |signatures| - 1 {
    } else {
      NeverDecodes(decode, signatures[..|signatures| - 1], i);
    }
  }

  lemma PrependMore(a: seq<ByteString>, b: seq<ByteString>, r: Option<seq<ByteString>>)
    ensures Prepend(a, Prepend(b, r)) == Prepend(a + b, r)
  {
    assert r.Some? ==> a + (b + r.value) == a + b + r.value;
  }

  /** The item at a position, as the loop checks it. */
  lemma NextItem(envelope: ByteString, at: nat, bodies: seq<ByteString>)
    requires bodies != [] && at + Room(bodies) == |envelope|
    ensures var n := |bodies[0]|;
            ReadItems(envelope[at..], bodies) ==
            if U32At(envelope, at + 4) != n || envelope[at + 8..at + 8 + n] != bodies[0] then None
            else Prepend([envelope[at..at + 4]], ReadItems(envelope[at + 8 + Padded(n)..], bodies[1..]))
  {
    var s, n := envelope[at..], |bodies[0]|;
    assert s[4..8] == envelope[at + 4..at + 8] && s[8..8 + n] == envelope[at + 8..at + 8 + n];
    assert s[..4] == envelope[at..at + 4] && s[8 + Padded(n)..] == envelope[at + 8 + Padded(n)..];
  }

  /** The hints read so far, put before those still to read, are what reading from the start comes to. */
  ghost predicate SoFar(said: Option<seq<ByteString>>, envelope: ByteString, expected: seq<ByteString>, at: nat,
                        index: nat, out: seq<ByteString>)
  {
    && index <= |expected| && at + Room(expected[index..]) == |envelope|
    && said == Prepend(out, ReadItems(envelope[at..], expected[index..]))
  }

  lemma OneMoreItem(said: Option<seq<ByteString>>, envelope: ByteString, expected: seq<ByteString>, at: nat,
                    index: nat, out: seq<ByteString>)
    requires SoFar(said, envelope, expected, at, index, out) && index < |expected|
    ensures var n := |expected[index]|;
            && at + 8 + Padded(n) <= |envelope|
            && if U32At(envelope, at + 4) != n || envelope[at + 8..at + 8 + n] != expected[index] then said == None
               else SoFar(said, envelope, expected, at + 8 + Padded(n), index + 1, out + [envelope[at..at + 4]])
  {
    NextItem(envelope, at, expected[index..]);
    assert expected[index..][1..] == expected[index + 1..];
    var next := at + 8 + Padded(|expected[index]|);
    PrependMore(out, [envelope[at..at + 4]], ReadItems(envelope[next..], expected[index + 1..]));
  }

  /** Reads the items from a position on, one after the other. */
  method ReadLoop(envelope: ByteString, start: nat, expected: seq<ByteString>) returns (r: Option<seq<ByteString>>)
    requires start + Room(expected) == |envelope|
    ensures r == ReadItems(envelope[start..], expected)
  {
    ghost var said := ReadItems(envelope[start..], expected);
    var at: nat := start;
    var out: seq<ByteString> := [];
    var index := 0;
    assert expected[0..] == expected;
    PrependNothing(said);
    while index < |expected|
      invariant SoFar(said, envelope, expected, at, index, out)
    {
      OneMoreItem(said, envelope, expected, at, index, out);
      var hint := envelope[at..at + 4];
      at := at + 4;
      if U32At(envelope, at) != |expected[index]| { return None; }
      at := at + 4;
      var body := envelope[at..at + |expected[index]|];
      at := at + Padded(|expected[index]|);
      var same := SameBytes(body, expected[index]);
      if !same { return None; }
      out := out + [hint];
      index := index + 1;
    }
    NothingMoreToRead(said, envelope, expected, at, out);
    r := Some(out);
  }

  lemma NothingMoreToRead(said: Option<seq<ByteString>>, envelope: ByteString, expected: seq<ByteString>, at: nat,
                          out: seq<ByteString>)
    requires SoFar(said, envelope, expected, at, |expected|, out)
    ensures said == Some(out)
  {
    assert expected[|expected|..] == [] && out + [] == out;
  }

  /**
   Gives the hints of the envelope's decorated signatures, or nothing unless the tail
   carries exactly the signatures the provider reports. decode is base64, which may fail.
   */
  method ExtractSignatureHints(decode: string -> Option<ByteString>, envelopeXdr: string, signatures: seq<string>)
      returns (r: Option<seq<Decorated>>)
    ensures r.Some? <==>
              && decode(envelopeXdr).Some? && signatures != [] && Decoded(decode, signatures).Some?
              && ReadTail(decode(envelopeXdr).value, Decoded(decode, signatures).value).Some?
    ensures r.Some? ==>
              var hints := ReadTail(decode(envelopeXdr).value, Decoded(decode, signatures).value).value;
              && |r.value| == |hints| == |signatures|
              && forall i :: 0 <= i < |hints| ==>
                   r.value[i].signature == signatures[i] && HexDecode(r.value[i].hint) == Some(hints[i])
    ensures forall prefix: ByteString, items: seq<Item> ::
              decode(envelopeXdr) == Some(prefix + VectorXdr(items)) && Signed(decode, signatures, items) ==>
              && r.Some? && |r.value| == |items|
              && forall i :: 0 <= i < |items| ==>
                   r.value[i].signature == signatures[i] && HexDecode(r.value[i].hint) == Some(items[i].hint)
  {
    forall prefix: ByteString, items: seq<Item>
      | decode(envelopeXdr) == Some(prefix + VectorXdr(items)) && Signed(decode, signatures, items)
      ensures ReadTail(prefix + VectorXdr(items), Bodies(items)) == Some(Hints(items))
    {
      EveryHintIsFound(prefix, items);
    }
    var envelope := decode(envelopeXdr);
    if envelope.None? || signatures == [] { return None; }
    var expected := DecodeAll(decode, signatures);
    if expected.None? { return None; }
    var size := 4 + Room(expected.value);
    if |envelope.value| < size { return None; }
    var tail := envelope.value[|envelope.value| - size..];
    if U32At(tail, 0) != |signatures| { return None; }
    var hints := ReadLoop(tail, 4, expected.value);
    if hints.None? { return None; }
    ReadIsEncoded(tail[4..], expected.value);
    var labelled := LabelAll(hints.value, signatures);
    r := Some(labelled);
  }

  /** The provider reports the signatures of these decorated signatures. */
  ghost predicate Signed(decode: string -> Option<ByteString>, signatures: seq<string>, items: seq<Item>) {
    && items != [] && |items| < TWO_32 && AllWellFormed(items) && |signatures| == |items|
    && Decoded(decode, signatures) == Some(Bodies(items))
  }

  /** Each hint in hexadecimal, beside the provider's text of its signature. */
  method LabelAll(hints: seq<ByteString>, signatures: seq<string>) returns (out: seq<Decorated>)
    requires |hints| == |signatures|
    ensures |out| == |hints|
    ensures forall j :: 0 <= j < |out| ==> out[j].signature == signatures[j] && HexDecode(out[j].hint) == Some(hints[j])
  {
    out := [];
    var i := 0;
    while i < |signatures|
      invariant 0 <= i <= |signatures| && |out| == i
      invariant forall j :: 0 <= j < i ==> out[j].signature == signatures[j] && HexDecode(out[j].hint) == Some(hints[j])
    {
      HexRoundTrip(hints[i]);
      out := out + [Decorated(HexEncode(hints[i]), signatures[i])];
      i := i + 1;
    }
  }
}
