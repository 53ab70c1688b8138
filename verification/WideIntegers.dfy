/** One wide integer, two decoders: the indexer joins 64-bit words, the frontend reads bytes. */
module WideIntegers {
  import opened Bytes
  import opened Decimal
  import opened Display
  import opened ScVal
  import opened ScValTheorems
  import opened Extract

  /** The 64-bit words a byte string consists of, as the XDR classes hand them over. */
  function WordsIn(bytes: ByteString): (words: seq<UInt64>)
    requires |bytes| % 8 == 0
    ensures |words| == |bytes| / 8
  {
    if bytes == [] then []
    else
      Pow256Eight();
      UnsignedBound(bytes[|bytes| - 8..]);
      WordsIn(bytes[..|bytes| - 8]) + [Unsigned(bytes[|bytes| - 8..])]
  }

  lemma WordBytes(word: ByteString)
    requires |word| == 8
    ensures BigEndian(Unsigned(word), 8) == word
  {
    UnsignedBound(word);
    BigEndianRoundTrip(Unsigned(word), 8);
    UnsignedInjective(BigEndian(Unsigned(word), 8), word);
  }

  lemma {:induction false} JoinedWords(bytes: ByteString)
    requires |bytes| % 8 == 0
    ensures Joined(WordsIn(bytes)) == bytes
  {
    if bytes == [] {
    } else {
      var init, last := bytes[..|bytes| - 8], bytes[|bytes| - 8..];
      JoinedWords(init);
      WordBytes(last);
      assert WordsIn(bytes)[..|WordsIn(bytes)| - 1] == WordsIn(init);
      assert init + last == bytes;
    }
  }

  /** A signed high word and the words after it carry the bytes they came from. */
  lemma SignedWords(bytes: ByteString)
    requires |bytes| % 8 == 0 && bytes != []
    ensures -0x8000_0000_0000_0000 <= Signed(bytes[..8]) < 0x8000_0000_0000_0000
    ensures BigEndian(Bits(Signed(bytes[..8])), 8) + Joined(WordsIn(bytes[8..])) == bytes
  {
    var high := bytes[..8];
    Pow256Eight();
    SignBit(high);
    UnsignedBound(high);
    assert Bits(Signed(high)) == Unsigned(high);
    WordBytes(high);
    JoinedWords(bytes[8..]);
    assert bytes[..8] + bytes[8..] == bytes;
  }

  /**
   For every signed 128- and 256-bit value, the words of its encoding join to that value
   on the indexer's side, and the frontend's reader shows the same value.
   */
  lemma SignedSidesAgree(form: NumForm, i: int, rest: ByteString)
    requires (form.I128? || form.I256?) && Fits(form, i)
    ensures var bytes := IntXdr(i, Width(form));
            && -0x8000_0000_0000_0000 <= Signed(bytes[..8]) < 0x8000_0000_0000_0000
            && Signed(BigEndian(Bits(Signed(bytes[..8])), 8) + Joined(WordsIn(bytes[8..]))) == i
            && NumberOf(form, bytes + rest) == Got(PlainText(NumberText(form), PrintInt(i)), Width(form))
  {
    SignedWords(IntXdr(i, Width(form)));
    SignedRoundTrip(i, Width(form), []);
    assert IntXdr(i, Width(form)) + [] == IntXdr(i, Width(form));
    NumberRoundTrip(form, i, rest);
  }

  lemma UnsignedSidesAgree(form: NumForm, i: int, rest: ByteString)
    requires (form.U128? || form.U256?) && Fits(form, i)
    ensures var bytes := IntXdr(i, Width(form));
            && Unsigned(Joined(WordsIn(bytes))) == i
            && NumberOf(form, bytes + rest) == Got(PlainText(NumberText(form), PrintInt(i)), Width(form))
  {
    JoinedWords(IntXdr(i, Width(form)));
    BigEndianRoundTrip(i, Width(form));
    NumberRoundTrip(form, i, rest);
  }
}
