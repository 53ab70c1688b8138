/** Byte strings: their database order, big-endian numbers and hexadecimal text. */
module Bytes {
  import opened Wrappers

  const TWO_32 := 0x1_0000_0000

  type Byte = b: int | 0 <= b < 256

  type ByteString = seq<Byte>

  // ---------- the order of bytea columns ----------

  /** memcmp order, a proper prefix first: how the database compares bytea values. */
  predicate LexLess(a: ByteString, b: ByteString) {
    if b == [] then false
    else if a == [] then true
    else a[0] < b[0] || (a[0] == b[0] && LexLess(a[1..], b[1..]))
  }

  lemma {:induction false} LexLessIrreflexive(a: ByteString)
    ensures !LexLess(a, a)
  {
    if a == [] {
    } else {
      LexLessIrreflexive(a[1..]);
    }
  }

  lemma {:induction false} LexLessTransitive(a: ByteString, b: ByteString, c: ByteString)
    requires LexLess(a, b) && LexLess(b, c)
    ensures LexLess(a, c)
  {
    if a == [] || a[0] != b[0] || b[0] != c[0] {
    } else {
      LexLessTransitive(a[1..], b[1..], c[1..]);
    }
  }

  lemma {:induction false} LexLessTotal(a: ByteString, b: ByteString)
    ensures a == b || LexLess(a, b) || LexLess(b, a)
  {
    if a == [] || b == [] || a[0] != b[0] {
    } else {
      LexLessTotal(a[1..], b[1..]);
      assert a == [a[0]] + a[1..] && b == [b[0]] + b[1..];
    }
  }

  /** No byte string sorts below the all-zero one of the same length. */
  lemma {:induction false} NothingBelowZeros(a: ByteString, zeros: ByteString)
    requires |a| == |zeros| && forall i :: 0 <= i < |zeros| ==> zeros[i] == 0
    ensures !LexLess(a, zeros)
  {
    if a == [] {
    } else {
      NothingBelowZeros(a[1..], zeros[1..]);
    }
  }

  /** The first byte that differs decides, or the end of the shorter string. */
  ghost predicate FirstDiffers(a: ByteString, b: ByteString, k: nat) {
    && k <= |a| && k < |b| && (forall i :: 0 <= i < k ==> a[i] == b[i])
    && (k < |a| ==> a[k] < b[k])
  }

  lemma {:induction false} LexLessExactly(a: ByteString, b: ByteString)
    ensures LexLess(a, b) <==> exists k: nat :: FirstDiffers(a, b, k)
  {
    if b == [] {
    } else if a == [] || a[0] < b[0] {
      assert FirstDiffers(a, b, 0);
    } else if a[0] > b[0] {
      forall k: nat ensures !FirstDiffers(a, b, k) { assert k > 0 ==> a[0] != b[0]; }
    } else {
      LexLessExactly(a[1..], b[1..]);
      if k: nat :| FirstDiffers(a[1..], b[1..], k) {
        forall i | 0 <= i < k + 1 ensures a[i] == b[i] { assert i > 0 ==> a[1..][i - 1] == b[1..][i - 1]; }
        assert FirstDiffers(a, b, k + 1);
      }
      if k: nat :| FirstDiffers(a, b, k) {
        assert k > 0;
        assert FirstDiffers(a[1..], b[1..], k - 1);
      }
    }
  }

  // ---------- big-endian numbers ----------

  function Pow256(n: nat): (p: nat)
    ensures p > 0
  {
    if n == 0 then 1 else 256 * Pow256(n - 1)
  }

  /** The unsigned big-endian number a byte string spells. */
  function Unsigned(bytes: ByteString): nat {
    if bytes == [] then 0 else Unsigned(bytes[..|bytes| - 1]) * 256 + bytes[|bytes| - 1]
  }

  /** The two's complement number of the whole byte string. */
  function Signed(bytes: ByteString): int {
    if bytes == [] || bytes[0] < 128 then Unsigned(bytes)
    else Unsigned(bytes) - Pow256(|bytes|)
  }

  lemma {:induction false} UnsignedBound(bytes: ByteString)
    ensures Unsigned(bytes) < Pow256(|bytes|)
  {
    if bytes == [] {
    } else {
      UnsignedBound(bytes[..|bytes| - 1]);
    }
  }

  lemma {:induction false} UnsignedConcat(a: ByteString, b: ByteString)
    ensures Unsigned(a + b) == Unsigned(a) * Pow256(|b|) + Unsigned(b)
  {
    if b == [] {
      assert a + b == a;
    } else {
      var init := b[..|b| - 1];
      UnsignedConcat(a, init);
      assert (a + b)[..|a + b| - 1] == a + init;
      MulStep(Unsigned(a), Pow256(|init|), Unsigned(init), b[|b| - 1]);
    }
  }

  lemma MulStep(x: nat, p: nat, y: nat, last: nat)
    ensures (x * p + y) * 256 + last == x * (256 * p) + (y * 256 + last)
  {
  }

  lemma Pow256Four()
    ensures Pow256(4) == 0x1_0000_0000
  {
    assert Pow256(2) == 65536 && Pow256(4) == 65536 * Pow256(2);
  }

  lemma Pow256Eight()
    ensures Pow256(8) == 0x1_0000_0000_0000_0000
  {
    Pow256Four();
    assert Pow256(6) == 65536 * Pow256(4) && Pow256(8) == 65536 * Pow256(6);
  }

  lemma JoinParts(u: int, w: int, p: int, v: int, s: int, whole: int, weight: int)
    requires s == u - w && whole == u * p + v && weight == w * p
    ensures whole - weight == s * p + v
  {
    assert s * p == u * p - w * p;
  }

  lemma {:induction false} PowSum(m: nat, n: nat)
    ensures Pow256(m + n) == Pow256(m) * Pow256(n)
  {
    if m == 0 {
    } else {
      PowSum(m - 1, n);
      Associate(Pow256(m - 1), Pow256(n));
    }
  }

  lemma Associate(a: int, b: int)
    ensures 256 * (a * b) == (256 * a) * b
  {
  }

  lemma TimesKeepsOrder(x: int, y: int, p: nat)
    requires x <= y
    ensures x * p <= y * p
  {
  }

  lemma TopByteArithmetic(top: Byte, p: nat, low: nat)
    requires low < p
    ensures top < 128 <==> 2 * (top * p + low) < 256 * p
  {
    if top < 128 {
      TimesKeepsOrder(top, 127, p);
    } else {
      TimesKeepsOrder(128, top, p);
    }
  }

  /** The first byte decides the sign. */
  lemma TopByte(bytes: ByteString)
    requires bytes != []
    ensures bytes[0] < 128 <==> 2 * Unsigned(bytes) < Pow256(|bytes|)
  {
    var top, low := [bytes[0]], bytes[1..];
    assert bytes == top + low;
    UnsignedConcat(top, low);
    UnsignedBound(low);
    assert top[..0] == [];
    TopByteArithmetic(bytes[0], Pow256(|low|), Unsigned(low));
  }

  lemma SignBit(bytes: ByteString)
    requires bytes != []
    ensures Signed(bytes) ==
            if 2 * Unsigned(bytes) >= Pow256(|bytes|) then Unsigned(bytes) - Pow256(|bytes|) else Unsigned(bytes)
  {
    TopByte(bytes);
  }

  function SignWeight(bytes: ByteString): int {
    if bytes == [] || bytes[0] < 128 then 0 else Pow256(|bytes|)
  }

  lemma SignWeightConcat(a: ByteString, b: ByteString)
    requires a != []
    ensures SignWeight(a + b) == SignWeight(a) * Pow256(|b|)
  {
    assert (a + b)[0] == a[0] && |a + b| == |a| + |b|;
    PowSum(|a|, |b|);
  }

  /** Signed numbers join like unsigned ones: only the first part carries the sign. */
  lemma SignedConcat(a: ByteString, b: ByteString)
    requires a != []
    ensures Signed(a + b) == Signed(a) * Pow256(|b|) + Unsigned(b)
  {
    SignWeightConcat(a, b);
    UnsignedConcat(a, b);
    JoinParts(Unsigned(a), SignWeight(a), Pow256(|b|), Unsigned(b), Signed(a), Unsigned(a + b), SignWeight(a + b));
  }

  /** The n bytes of x, most significant first; higher digits of x are dropped. */
  function BigEndian(x: nat, n: nat): (bytes: ByteString)
    ensures |bytes| == n
  {
    if n == 0 then [] else BigEndian(x / 256, n - 1) + [x % 256]
  }

  lemma {:induction false} BigEndianRoundTrip(x: nat, n: nat)
    requires x < Pow256(n)
    ensures Unsigned(BigEndian(x, n)) == x
  {
    if n == 0 {
    } else {
      BigEndianRoundTrip(x / 256, n - 1);
      var all := BigEndian(x, n);
      assert all[..|all| - 1] == BigEndian(x / 256, n - 1);
    }
  }

  lemma {:induction false} UnsignedInjective(a: ByteString, b: ByteString)
    requires |a| == |b| && Unsigned(a) == Unsigned(b)
    ensures a == b
  {
    if a == [] {
    } else {
      UnsignedInjective(a[..|a| - 1], b[..|b| - 1]);
      assert a == a[..|a| - 1] + [a[|a| - 1]] && b == b[..|b| - 1] + [b[|b| - 1]];
    }
  }

  lemma TopByteWeighs(x: Byte, y: Byte, p: nat, low: nat, high: nat)
    requires x < y && low < p
    ensures x * p + low < y * p + high
  {
    TimesKeepsOrder(x + 1, y, p);
    assert (x + 1) * p == x * p + p;
  }

  /** Among byte strings of one length, the order of the column is that of the numbers they spell. */
  lemma {:induction false} LexLessIsUnsigned(a: ByteString, b: ByteString)
    requires |a| == |b|
    ensures LexLess(a, b) <==> Unsigned(a) < Unsigned(b)
  {
    if a == [] {
    } else {
      var n := |a| - 1;
      TopFirst(a);
      TopFirst(b);
      UnsignedBound(a[1..]);
      UnsignedBound(b[1..]);
      if a[0] < b[0] {
        TopByteWeighs(a[0], b[0], Pow256(n), Unsigned(a[1..]), Unsigned(b[1..]));
      } else if b[0] < a[0] {
        TopByteWeighs(b[0], a[0], Pow256(n), Unsigned(b[1..]), Unsigned(a[1..]));
      } else {
        LexLessIsUnsigned(a[1..], b[1..]);
      }
    }
  }

  lemma TopFirst(a: ByteString)
    requires a != []
    ensures Unsigned(a) == a[0] * Pow256(|a| - 1) + Unsigned(a[1..])
  {
    assert a == [a[0]] + a[1..];
    UnsignedOne(a[0]);
    UnsignedConcat([a[0]], a[1..]);
  }

  lemma UnsignedOne(b: Byte)
    ensures Unsigned([b]) == b
  {
    assert [b][..0] == [];
  }

  // ---------- hexadecimal text ----------

  predicate IsHexDigit(c: char) {
    '0' <= c <= '9' || 'a' <= c <= 'f'
  }

  function HexValue(c: char): (v: int)
    requires IsHexDigit(c)
    ensures 0 <= v < 16
  {
    if c <= '9' then c as int - '0' as int else c as int - 'a' as int + 10
  }

  function HexDigit(v: nat): (c: char)
    requires v < 16
    ensures IsHexDigit(c) && HexValue(c) == v
  {
    if v < 10 then '0' + v as char else 'a' + (v - 10) as char
  }

  function HexEncode(bytes: ByteString): (text: string)
    ensures |text| == 2 * |bytes| && forall i :: 0 <= i < |text| ==> IsHexDigit(text[i])
  {
    if bytes == [] then ""
    else [HexDigit(bytes[0] / 16), HexDigit(bytes[0] % 16)] + HexEncode(bytes[1..])
  }

  /** hex.DecodeString on lower-case text: None on an odd length or a stray character. */
  function HexDecode(text: string): (r: Option<ByteString>)
    ensures r.Some? ==> 2 * |r.value| == |text|
  {
    if text == "" then Some([])
    else if |text| == 1 || !IsHexDigit(text[0]) || !IsHexDigit(text[1]) then None
    else
      var rest := HexDecode(text[2..]);
      if rest.None? then None else Some([HexValue(text[0]) * 16 + HexValue(text[1])] + rest.value)
  }

  lemma {:induction false} HexRoundTrip(bytes: ByteString)
    ensures HexDecode(HexEncode(bytes)) == Some(bytes)
  {
    if bytes == [] {
    } else {
      HexRoundTrip(bytes[1..]);
      assert HexEncode(bytes)[2..] == HexEncode(bytes[1..]);
      assert bytes == [bytes[0]] + bytes[1..];
    }
  }

  lemma HexDigitText(v: nat)
    requires v < 16
    ensures HexDigit(v) == "0123456789abcdef"[v]
  {
  }

  /** Two digits a byte, the high half first. */
  lemma {:induction false} HexDigitsOf(bytes: ByteString, i: nat)
    requires i < |bytes|
    ensures HexEncode(bytes)[2 * i..2 * i + 2] == [HexDigit(bytes[i] / 16), HexDigit(bytes[i] % 16)]
  {
    if i == 0 {
    } else {
      HexDigitsOf(bytes[1..], i - 1);
      assert HexEncode(bytes)[2..] == HexEncode(bytes[1..]);
    }
  }

  lemma HexDigitOfValue(c: char)
    requires IsHexDigit(c)
    ensures HexDigit(HexValue(c)) == c
  {
  }

  lemma HexPair(high: char, low: char, v: ByteString)
    requires IsHexDigit(high) && IsHexDigit(low) && v != []
    requires v[0] == HexValue(high) * 16 + HexValue(low)
    ensures HexEncode(v) == [high, low] + HexEncode(v[1..])
  {
    HexDigitOfValue(high);
    HexDigitOfValue(low);
    assert v[0] / 16 == HexValue(high) && v[0] % 16 == HexValue(low);
  }

  /** Decoding loses nothing: the text is the encoding of what it decodes to. */
  lemma {:induction false} HexDecodeInjective(text: string)
    requires HexDecode(text).Some?
    ensures HexEncode(HexDecode(text).value) == text
    decreases |text|
  {
    if text == "" {
    } else {
      HexDecodeInjective(text[2..]);
      HexPair(text[0], text[1], HexDecode(text).value);
      assert text == [text[0], text[1]] + text[2..];
    }
  }

  // ---------- the fill of variable-length opaque data (section 4.10 of RFC 4506) ----------

  function Padding(length: nat): (fill: nat)
    ensures fill < 4 && (length + fill) % 4 == 0
  {
    (4 - length % 4) % 4
  }

  function Padded(length: nat): (size: nat)
    ensures length <= size < length + 4 && size % 4 == 0
  {
    length + Padding(length)
  }
}
