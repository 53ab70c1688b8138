/** Exact printing and parsing of amounts that never pass through a floating-point number. */
module Format {
  import opened Wrappers
  import opened Decimal
  import opened Sequences

  // ---------- string pieces ----------

  function PadStart(s: string, width: nat): string {
    if |s| >= width then s else Zeros(width - |s|) + s
  }

  function PadEnd(s: string, width: nat): string {
    if |s| >= width then s else s + Zeros(width - |s|)
  }

  function TrimZeros(s: string): (t: string)
    ensures t <= s
  {
    if s != "" && s[|s| - 1] == '0' then TrimZeros(s[..|s| - 1]) else s
  }

  /** The position of the first '.', or the length when there is none. */
  function Dot(s: string): (n: nat)
    ensures n <= |s|
  {
    if s == "" || s[0] == '.' then 0 else 1 + Dot(s[1..])
  }

  /** A comma wherever a positive multiple of three digits follows. */
  function Group(s: string): string {
    if s == "" then ""
    else [s[0]] + (if |s| > 1 && (|s| - 1) % 3 == 0 then "," else "") + Group(s[1..])
  }

  function Ungroup(s: string): string {
    if s == "" then ""
    else if s[0] == ',' then Ungroup(s[1..])
    else [s[0]] + Ungroup(s[1..])
  }

  function WithFraction(whole: string, fraction: string): string {
    if fraction == "" then whole else whole + ("." + fraction)
  }

  // ---------- the functions ----------

  /** Bidirectional marks and overrides, and control characters other than tab and newline. */
  predicate IsHostile(c: char) {
    || c <= '\U{8}' || c == '\U{B}' || c == '\U{C}' || '\U{E}' <= c <= '\U{1F}' || '\U{7F}' <= c <= '\U{9F}'
    || c == '\U{200E}' || c == '\U{200F}' || '\U{202A}' <= c <= '\U{202E}' || '\U{2066}' <= c <= '\U{2069}'
  }

  function SanitizeChainText(s: string): (t: string)
    ensures |t| == |s| && forall i :: 0 <= i < |s| ==> !IsHostile(t[i])
    ensures forall i :: 0 <= i < |s| ==> t[i] == s[i] || (IsHostile(s[i]) && t[i] == '\U{FFFD}')
  {
    seq(|s|, i requires 0 <= i < |s| => if IsHostile(s[i]) then '\U{FFFD}' else s[i])
  }

  predicate IsInteger(s: string) {
    var digits := if s != "" && s[0] == '-' then s[1..] else s;
    digits != "" && AllDigits(digits)
  }

  function FormatDigits(raw: string, decimals: nat): string {
    var digits := PadStart(raw, decimals + 1);
    WithFraction(Group(digits[..|digits| - decimals]), TrimZeros(digits[|digits| - decimals..]))
  }

  function FormatAmount(raw: string, decimals: nat): string {
    if !IsInteger(raw) then SanitizeChainText(raw)
    else if raw[0] == '-' then "-" + FormatDigits(raw[1..], decimals)
    else FormatDigits(raw, decimals)
  }

  function DecimalToStroops(value: string): Option<nat> {
    var dot := Dot(value);
    var whole, rest := value[..dot], value[dot..];
    if whole == "" || !AllDigits(whole) then None
    else if rest == "" then Some(Value(whole + Zeros(7)))
    else
      var fraction := rest[1..];
      if !(1 <= |fraction| <= 7) || !AllDigits(fraction) then None
      else Some(Value(whole + PadEnd(fraction, 7)))
  }

  function SubtractDecimalStrings(minuend: string, subtrahend: string): Option<string> {
    var left, right := DecimalToStroops(minuend), DecimalToStroops(subtrahend);
    if left.None? || right.None? then None
    else if left.value < right.value then None
    else
      var digits := PadStart(Print(left.value - right.value), 8);
      Some(WithFraction(digits[..|digits| - 7], TrimZeros(digits[|digits| - 7..])))
  }

  function DropPoint(s: string): string {
    if s != "" && s[|s| - 1] == '.' then s[..|s| - 1] else s
  }

  /** At most five digits after the point, without zeros at the end. */
  function ShortDisplay(full: string): string {
    var dot := Dot(full);
    if dot == |full| || |full| - dot - 1 <= 5 then full
    else DropPoint(TrimZeros(full[..dot + 6]))
  }

  function FormatXlmDisplay(stroops: string): string {
    ShortDisplay(FormatAmount(stroops, 7))
  }

  // ---------- pieces fit together ----------

  lemma {:induction false} GroupKeepsDigits(s: string)
    requires AllDigits(s)
    ensures Ungroup(Group(s)) == s
  {
    if s == "" {
    } else {
      GroupKeepsDigits(s[1..]);
      var rest := Group(s[1..]);
      assert s == [s[0]] + s[1..];
      if |s| > 1 && (|s| - 1) % 3 == 0 {
        assert Group(s)[1..] == "," + rest && Group(s)[2..] == rest;
        assert Group(s)[1..][1..] == rest;
      } else {
        assert Group(s)[1..] == rest;
      }
    }
  }

  lemma {:induction false} UngroupConcat(a: string, b: string)
    ensures Ungroup(a + b) == Ungroup(a) + Ungroup(b)
  {
    if a == "" {
      assert a + b == b;
    } else {
      UngroupConcat(a[1..], b);
      assert (a + b)[0] == a[0] && (a + b)[1..] == a[1..] + b;
      ConcatIsAssociative([a[0]], Ungroup(a[1..]), Ungroup(b));
    }
  }

  lemma {:induction false} UngroupNothing(s: string)
    requires forall i :: 0 <= i < |s| ==> s[i] != ','
    ensures Ungroup(s) == s
  {
    if s == "" {
    } else {
      UngroupNothing(s[1..]);
      assert s == [s[0]] + s[1..];
    }
  }

  lemma {:induction false} DotAfter(a: string, b: string)
    requires forall i :: 0 <= i < |a| ==> a[i] != '.'
    ensures Dot(a + b) == |a| + Dot(b)
  {
    if a == "" {
      assert a + b == b;
    } else {
      DotAfter(a[1..], b);
      assert (a + b)[1..] == a[1..] + b;
    }
  }

  /** Trimming loses only zeros at the end. */
  lemma {:induction false} TrimLosesZeros(s: string)
    ensures TrimZeros(s) + Zeros(|s| - |TrimZeros(s)|) == s
  {
    if s == "" || s[|s| - 1] != '0' {
    } else {
      TrimLosesZeros(s[..|s| - 1]);
    }
  }

  lemma {:induction false} TrimStopsAt(a: string, c: char, b: string)
    requires c != '0'
    ensures TrimZeros(a + [c] + b) == a + [c] + TrimZeros(b)
  {
    var s := a + [c] + b;
    if b != "" && b[|b| - 1] == '0' {
      TrimStopsAt(a, c, b[..|b| - 1]);
      assert s[..|s| - 1] == a + [c] + b[..|b| - 1];
    } else if b == "" {
      assert s[|s| - 1] == c;
    }
  }

  lemma LeadingZeros(s: string, width: nat)
    ensures Value(PadStart(s, width)) == Value(s)
  {
    if |s| < width {
      ValueConcat(Zeros(width - |s|), s);
      ZerosValue(width - |s|);
    }
  }

  lemma {:induction false} GroupHasNoDot(s: string)
    requires AllDigits(s)
    ensures forall i :: 0 <= i < |Group(s)| ==> Group(s)[i] != '.'
  {
    if s == "" {
    } else {
      GroupHasNoDot(s[1..]);
    }
  }

  lemma DotOf(whole: string, rest: string)
    requires AllDigits(whole) && (rest == "" || rest[0] == '.')
    ensures Dot(whole + rest) == |whole|
    ensures (whole + rest)[..|whole|] == whole && (whole + rest)[|whole|..] == rest
  {
    DotAfter(whole, rest);
  }

  lemma ReadsWhole(whole: string)
    requires whole != "" && AllDigits(whole)
    ensures DecimalToStroops(whole) == Some(Value(whole + Zeros(7)))
  {
    DotOf(whole, "");
    assert whole + "" == whole;
  }

  lemma ReadsFraction(whole: string, fraction: string)
    requires whole != "" && AllDigits(whole) && AllDigits(fraction) && 1 <= |fraction| <= 7
    ensures DecimalToStroops(whole + ("." + fraction)) == Some(Value(whole + PadEnd(fraction, 7)))
  {
    DotOf(whole, "." + fraction);
    assert ("." + fraction)[1..] == fraction;
  }

  /** Reading an amount written as a whole part and a fraction of at most seven digits. */
  lemma ReadsWithFraction(whole: string, fraction: string)
    requires whole != "" && AllDigits(whole) && AllDigits(fraction) && |fraction| <= 7
    ensures DecimalToStroops(WithFraction(whole, fraction)) == Some(Value(whole + PadEnd(fraction, 7)))
  {
    if fraction == "" {
      ReadsWhole(whole);
      assert PadEnd("", 7) == "" + Zeros(7) == Zeros(7);
    } else {
      ReadsFraction(whole, fraction);
    }
  }

  lemma OneMoreZero(s: string, n: nat)
    ensures s + Zeros(n + 1) == (s + ['0']) + Zeros(n)
  {
  }

  lemma PadsItself(s: string, width: nat)
    requires |s| <= width
    ensures PadEnd(s, width) == s + Zeros(width - |s|)
  {
    assert s + Zeros(0) == s;
  }

  /** Trimming zeros and padding them back. */
  lemma {:induction false} TrimThenPad(s: string, width: nat)
    requires |s| <= width
    ensures PadEnd(TrimZeros(s), width) == s + Zeros(width - |s|)
  {
    if s != "" && s[|s| - 1] == '0' {
      var init := s[..|s| - 1];
      TrimThenPad(init, width);
      OneMoreZero(init, width - |s|);
      assert init + ['0'] == s;
    } else {
      PadsItself(s, width);
    }
  }

  lemma TrimmedSeven(f: string)
    requires |f| == 7
    ensures PadEnd(TrimZeros(f), 7) == f
  {
    TrimThenPad(f, 7);
    assert f + Zeros(0) == f;
  }

  lemma ReadsTrimmed(whole: string, f: string)
    requires whole != "" && AllDigits(whole) && |f| == 7 && AllDigits(f)
    ensures DecimalToStroops(WithFraction(whole, TrimZeros(f))) == Some(Value(whole + f))
  {
    TrimmedSeven(f);
    ReadsWithFraction(whole, TrimZeros(f));
  }

  /** An unsigned amount before its last seven digits, and those seven. */
  function WholePart(raw: string): string {
    var digits := PadStart(raw, 8);
    digits[..|digits| - 7]
  }

  function LastSeven(raw: string): string {
    var digits := PadStart(raw, 8);
    digits[|digits| - 7..]
  }

  lemma PartsOf(raw: string)
    requires AllDigits(raw)
    ensures WholePart(raw) != "" && AllDigits(WholePart(raw))
    ensures |LastSeven(raw)| == 7 && AllDigits(LastSeven(raw))
    ensures Value(WholePart(raw) + LastSeven(raw)) == Value(raw)
  {
    LeadingZeros(raw, 8);
    Rejoins(PadStart(raw, 8), |PadStart(raw, 8)| - 7);
  }

  lemma UngroupsPoint(fraction: string)
    requires AllDigits(fraction)
    ensures Ungroup("." + fraction) == "." + fraction
  {
    UngroupNothing("." + fraction);
  }

  lemma UngroupsWithFraction(whole: string, fraction: string)
    requires AllDigits(whole) && AllDigits(fraction)
    ensures Ungroup(WithFraction(Group(whole), fraction)) == WithFraction(whole, fraction)
  {
    GroupKeepsDigits(whole);
    UngroupsPoint(fraction);
    UngroupConcat(Group(whole), "." + fraction);
  }

  // ---------- exactness ----------

  /** What an unsigned integer prints as. */
  lemma PrintedAmount(raw: string)
    requires raw != "" && AllDigits(raw)
    ensures FormatAmount(raw, 7) == WithFraction(Group(WholePart(raw)), TrimZeros(LastSeven(raw)))
  {
    DigitsAreNoSign(raw);
  }

  lemma DigitsAreNoSign(raw: string)
    requires raw != "" && AllDigits(raw)
    ensures IsInteger(raw) && raw[0] != '-'
  {
    assert IsDigit(raw[0]);
  }

  /** Printing loses nothing: with the commas removed, an amount reads back as the same number. */
  lemma AmountRoundTrip(raw: string)
    requires raw != "" && AllDigits(raw)
    ensures DecimalToStroops(Ungroup(FormatAmount(raw, 7))) == Some(Value(raw))
  {
    PrintedAmount(raw);
    PartsOf(raw);
    UngroupsWithFraction(WholePart(raw), TrimZeros(LastSeven(raw)));
    ReadsTrimmed(WholePart(raw), LastSeven(raw));
  }

  /** A negative amount prints as its magnitude behind a minus sign. */
  lemma NegativeAmount(digits: string, decimals: nat)
    requires digits != "" && AllDigits(digits)
    ensures FormatAmount("-" + digits, decimals) == "-" + FormatAmount(digits, decimals)
  {
    DigitsAreNoSign(digits);
    var raw := "-" + digits;
    assert raw[1..] == digits && raw[0] == '-';
    assert IsInteger(raw);
  }

  /** whole.fraction is the number that digits spell in units of 10^-decimals, without needless zeros at its end. */
  ghost predicate IsExactly(whole: string, fraction: string, digits: string, decimals: nat) {
    && whole != "" && AllDigits(whole) && AllDigits(fraction) && |fraction| <= decimals
    && (fraction != "" ==> fraction[|fraction| - 1] != '0')
    && Value(whole + fraction) * Pow10(decimals - |fraction|) == Value(digits)
  }

  /** Whatever the number of decimals, the text is the exact amount, its whole part grouped. */
  lemma AmountIsExact(digits: string, decimals: nat) returns (whole: string, fraction: string)
    requires digits != "" && AllDigits(digits)
    ensures IsExactly(whole, fraction, digits, decimals)
    ensures FormatAmount(digits, decimals) == WithFraction(Group(whole), fraction)
    ensures Ungroup(FormatAmount(digits, decimals)) == WithFraction(whole, fraction)
  {
    var rest;
    whole, rest := AmountParts(digits, decimals);
    fraction := TrimZeros(rest);
    TrimmedIsExact(whole, rest, digits, decimals);
    UngroupsWithFraction(whole, fraction);
  }

  lemma TrimmedIsExact(whole: string, rest: string, digits: string, decimals: nat)
    requires whole != "" && AllDigits(whole) && AllDigits(rest) && |rest| == decimals
    requires Value(whole + rest) == Value(digits)
    ensures IsExactly(whole, TrimZeros(rest), digits, decimals)
  {
    TrimsToTheEnd(rest);
    TrimmedValue(whole, rest);
  }

  /** The digits before the point, at least one, and all those after it. */
  lemma AmountParts(digits: string, decimals: nat) returns (whole: string, rest: string)
    requires digits != "" && AllDigits(digits)
    ensures whole != "" && AllDigits(whole) && AllDigits(rest) && |rest| == decimals
    ensures Value(whole + rest) == Value(digits)
    ensures FormatAmount(digits, decimals) == WithFraction(Group(whole), TrimZeros(rest))
  {
    DigitsAreNoSign(digits);
    LeadingZeros(digits, decimals + 1);
    var padded := PadStart(digits, decimals + 1);
    var n := |padded| - decimals;
    whole, rest := padded[..n], padded[n..];
    Rejoins(padded, n);
  }

  lemma {:induction false} TrimsToTheEnd(s: string)
    ensures TrimZeros(s) != "" ==> TrimZeros(s)[|TrimZeros(s)| - 1] != '0'
  {
    if s == "" || s[|s| - 1] != '0' {
    } else {
      TrimsToTheEnd(s[..|s| - 1]);
    }
  }

  lemma TrimmedValue(whole: string, rest: string)
    ensures var kept := TrimZeros(rest); Value(whole + kept) * Pow10(|rest| - |kept|) == Value(whole + rest)
  {
    var kept := TrimZeros(rest);
    var zeros := Zeros(|rest| - |kept|);
    TrimLosesZeros(rest);
    assert whole + rest == whole + kept + zeros;
    ValueConcat(whole + kept, zeros);
    ZerosValue(|rest| - |kept|);
  }

  ghost predicate SpellsInteger(raw: string, digits: string) {
    digits != "" && AllDigits(digits) && raw in {digits, "-" + digits}
  }

  /** Only digits, with a minus sign or without, are taken for an amount. */
  lemma IntegersExactly(raw: string)
    ensures IsInteger(raw) <==> exists digits :: SpellsInteger(raw, digits)
  {
    if IsInteger(raw) {
      if raw[0] == '-' {
        assert raw == "-" + raw[1..];
        assert SpellsInteger(raw, raw[1..]);
      } else {
        assert SpellsInteger(raw, raw);
      }
    }
    if digits :| SpellsInteger(raw, digits) {
      DigitsAreNoSign(digits);
      assert ("-" + digits)[1..] == digits;
    }
  }

  /** Any other text is shown as it is, but for its hostile characters. */
  lemma OtherTextIsShown(raw: string, decimals: nat)
    requires forall digits :: !SpellsInteger(raw, digits)
    ensures |FormatAmount(raw, decimals)| == |raw|
    ensures forall i :: 0 <= i < |raw| ==>
              FormatAmount(raw, decimals)[i] == if IsHostile(raw[i]) then '\U{FFFD}' else raw[i]
  {
    IntegersExactly(raw);
  }

  /** The texts an amount can be read from: digits, and a fraction of one to seven digits if there is a point. */
  ghost predicate Spells(value: string, whole: string, fraction: string) {
    && whole != "" && AllDigits(whole) && AllDigits(fraction) && |fraction| <= 7
    && value == WithFraction(whole, fraction)
  }

  /** The number a whole part and a fraction stand for, in units of 10^-7. */
  function Units(whole: string, fraction: string): nat {
    Value(whole) * 10000000 + Value(PadEnd(fraction, 7))
  }

  /** And then it reads as the number it spells. */
  lemma ReadsWhatItSpells(value: string, whole: string, fraction: string)
    requires Spells(value, whole, fraction)
    ensures DecimalToStroops(value) == Some(Units(whole, fraction))
  {
    ReadsWithFraction(whole, fraction);
    ShiftBySeven(whole, fraction);
  }

  lemma ShiftBySeven(whole: string, fraction: string)
    requires |fraction| <= 7
    ensures Value(whole + PadEnd(fraction, 7)) == Units(whole, fraction)
  {
    var f := PadEnd(fraction, 7);
    ValueConcat(whole, f);
    TenToTheSeven();
    Weighted(Value(whole), Pow10(7), 10000000, Value(f), Value(whole + f));
  }

  lemma Weighted(x: int, p: int, q: int, y: int, v: int)
    requires v == x * p + y && p == q
    ensures v == x * q + y
  {
  }

  lemma ReadsOnlySpelled(value: string)
    requires DecimalToStroops(value).Some?
    ensures IsAmount(value)
  {
    var dot := Dot(value);
    var whole, rest := value[..dot], value[dot..];
    assert value == whole + rest;
    if rest == "" {
      assert Spells(value, whole, "");
    } else {
      DotIsADot(value);
      assert rest == "." + rest[1..];
      assert Spells(value, whole, rest[1..]);
    }
  }

  ghost predicate IsAmount(value: string) {
    exists whole, fraction :: Spells(value, whole, fraction)
  }

  /** A text reads as an amount exactly when it spells one. */
  lemma ReadsExactly(value: string)
    ensures DecimalToStroops(value).Some? <==> IsAmount(value)
  {
    if DecimalToStroops(value).Some? {
      ReadsOnlySpelled(value);
    }
    if IsAmount(value) {
      var whole, fraction :| Spells(value, whole, fraction);
      ReadsWhatItSpells(value, whole, fraction);
    }
  }

  lemma {:induction false} DotIsADot(s: string)
    requires Dot(s) < |s|
    ensures s[Dot(s)] == '.'
  {
    if s[0] == '.' {
    } else {
      DotIsADot(s[1..]);
    }
  }

  lemma TenToTheSeven()
    ensures Pow10(7) == 10000000 && Pow10(2) == 100
  {
    assert Pow10(3) == 1000;
    assert Pow10(5) == 100000;
  }

  lemma PrintedDifference(n: nat)
    ensures DecimalToStroops(WithFraction(WholePart(Print(n)), TrimZeros(LastSeven(Print(n))))) == Some(n)
  {
    PrintRoundTrip(n);
    PartsOf(Print(n));
    ReadsTrimmed(WholePart(Print(n)), LastSeven(Print(n)));
  }

  /** The difference is exact, and missing only for a text that cannot be read or a negative result. */
  lemma DifferenceIsExact(minuend: string, subtrahend: string)
    ensures var left, right := DecimalToStroops(minuend), DecimalToStroops(subtrahend);
            var r := SubtractDecimalStrings(minuend, subtrahend);
            && (r.Some? <==> left.Some? && right.Some? && left.value >= right.value)
            && (r.Some? ==> DecimalToStroops(r.value) == Some(left.value - right.value))
  {
    var left, right := DecimalToStroops(minuend), DecimalToStroops(subtrahend);
    if left.Some? && right.Some? && left.value >= right.value {
      PrintedDifference(left.value - right.value);
    }
  }

  // ---------- grouping and the short display ----------

  lemma {:induction false} GroupLength(s: string)
    requires s != ""
    ensures |Group(s)| == |s| + (|s| - 1) / 3
  {
    if |s| > 1 {
      GroupLength(s[1..]);
    } else {
      assert s[1..] == "";
    }
  }

  lemma GroupResidue(g: int, n: int)
    requires n >= 1 && g == n + (n - 1) / 3
    ensures g % 4 == (n - 1) % 3 + 1
  {
    var k, r := (n - 1) / 3, (n - 1) % 3;
    assert n - 1 == 3 * k + r;
    assert g == 4 * k + (r + 1);
  }

  /** Commas stand before every third digit from the end, and nowhere else. */
  lemma {:induction false} CommasEveryThreeDigits(s: string)
    requires s != "" && AllDigits(s)
    ensures forall i :: 0 <= i < |Group(s)| ==> (Group(s)[i] == ',' <==> (|Group(s)| - i) % 4 == 0)
  {
    GroupLength(s);
    GroupResidue(|Group(s)|, |s|);
    if |s| > 1 {
      var rest := Group(s[1..]);
      GroupLength(s[1..]);
      GroupResidue(|rest|, |s| - 1);
      CommasEveryThreeDigits(s[1..]);
      var head := [s[0]] + if (|s| - 1) % 3 == 0 then "," else "";
      assert Group(s) == head + rest;
      forall i | |head| <= i < |Group(s)| ensures Group(s)[i] == rest[i - |head|] { }
    } else {
      assert s[1..] == "" && Group(s) == [s[0]] + "" + "";
    }
  }

  /** Where the point of a printed amount is. */
  lemma DotOfAmount(whole: string, fraction: string)
    requires AllDigits(whole)
    ensures Dot(WithFraction(Group(whole), fraction)) == |Group(whole)|
  {
    GroupHasNoDot(whole);
    if fraction == "" {
      DotAfter(Group(whole), "");
      assert Group(whole) + "" == Group(whole);
    } else {
      DotAfter(Group(whole), "." + fraction);
    }
  }

  /** Cutting a printed fraction to five digits and trimming what is left. */
  lemma CutsToFive(whole: string, fraction: string)
    requires |fraction| > 5 && AllDigits(fraction)
    ensures DropPoint(TrimZeros(WithFraction(whole, fraction)[..|whole| + 6])) ==
        WithFraction(whole, TrimZeros(fraction[..5]))
  {
    var kept := TrimZeros(fraction[..5]);
    assert WithFraction(whole, fraction)[..|whole| + 6] == whole + ['.'] + fraction[..5];
    TrimStopsAt(whole, '.', fraction[..5]);
    var cut := whole + ['.'] + kept;
    if kept == "" {
      assert cut[..|cut| - 1] == whole;
    } else {
      assert cut == whole + ("." + kept);
      assert cut[|cut| - 1] == fraction[|kept| - 1];
    }
  }

  /** Of seven fraction digits, the display keeps the first five and trims them. */
  lemma DisplaysFive(whole: string, f: string)
    requires AllDigits(whole) && |f| == 7 && AllDigits(f)
    ensures ShortDisplay(WithFraction(Group(whole), TrimZeros(f))) == WithFraction(Group(whole), TrimZeros(f[..5]))
  {
    var fraction := TrimZeros(f);
    DotOfAmount(whole, fraction);
    if |fraction| > 5 {
      CutsToFive(Group(whole), fraction);
      assert fraction[..5] == f[..5];
    } else {
      ShortTrim(f);
    }
  }

  /** If trimming leaves at most five of seven digits, only zeros were beyond them. */
  lemma ShortTrim(f: string)
    requires |f| == 7 && |TrimZeros(f)| <= 5
    ensures TrimZeros(f[..5]) == TrimZeros(f)
  {
    TrimLosesZeros(f);
    assert f[5] == '0' && f[6] == '0';
    assert f[..6][..5] == f[..5];
    assert TrimZeros(f) == TrimZeros(f[..6]) == TrimZeros(f[..6][..5]);
  }

  lemma LastTwoDigits(whole: string, f: string, n: nat)
    requires |f| == 7 && AllDigits(f) && n == Value(whole + f)
    ensures Value(whole + (f[..5] + "00")) == WithoutLastTwo(n)
  {
    var head, tail := whole + f[..5], f[5..];
    assert whole + f == head + tail && whole + (f[..5] + "00") == head + Zeros(2);
    ValueConcat(head, tail);
    ValueConcat(head, Zeros(2));
    ZerosValue(2);
    ValueBound(tail);
    TenToTheSeven();
    Remainder(Value(head), Pow10(2), Value(tail), n, Value(head + Zeros(2)));
  }

  lemma Remainder(x: nat, p: int, y: nat, n: nat, m: int)
    requires p == 100 && y < p && n == x * p + y && m == x * p
    ensures m == WithoutLastTwo(n)
  {
  }

  lemma ReadsFive(whole: string, f: string)
    requires whole != "" && AllDigits(whole) && |f| == 7 && AllDigits(f)
    ensures DecimalToStroops(WithFraction(whole, TrimZeros(f[..5]))) == Some(Value(whole + (f[..5] + "00")))
  {
    assert PadEnd(TrimZeros(f[..5]), 7) == f[..5] + "00" by {
      TrimThenPad(f[..5], 7);
      assert Zeros(2) == "00";
    }
    ReadsWithFraction(whole, TrimZeros(f[..5]));
  }

  lemma ShortText(raw: string)
    requires raw != "" && AllDigits(raw)
    ensures FormatXlmDisplay(raw) == WithFraction(Group(WholePart(raw)), TrimZeros(LastSeven(raw)[..5]))
  {
    PrintedAmount(raw);
    PartsOf(raw);
    DisplaysFive(WholePart(raw), LastSeven(raw));
  }

  lemma ShortDisplayOf(raw: string)
    requires raw != "" && AllDigits(raw)
    ensures Ungroup(FormatXlmDisplay(raw)) == WithFraction(WholePart(raw), TrimZeros(LastSeven(raw)[..5]))
  {
    ShortText(raw);
    PartsOf(raw);
    UngroupsWithFraction(WholePart(raw), TrimZeros(LastSeven(raw)[..5]));
  }

  /** The amount without its last two digits. */
  function WithoutLastTwo(n: nat): nat {
    n - n % 100
  }

  /** The short display shows the amount without its last two digits: less than 100 stroops are hidden. */
  lemma DisplayTruncates(raw: string)
    requires raw != "" && AllDigits(raw)
    ensures DecimalToStroops(Ungroup(FormatXlmDisplay(raw))) == Some(WithoutLastTwo(Value(raw)))
  {
    ShortDisplayOf(raw);
    PartsOf(raw);
    ReadsDisplay(Ungroup(FormatXlmDisplay(raw)), WholePart(raw), LastSeven(raw), Value(raw));
  }

  lemma ReadsDisplay(shown: string, whole: string, f: string, n: nat)
    requires whole != "" && AllDigits(whole) && |f| == 7 && AllDigits(f) && Value(whole + f) == n
    requires shown == WithFraction(whole, TrimZeros(f[..5]))
    ensures DecimalToStroops(shown) == Some(WithoutLastTwo(n))
  {
    ReadsFive(whole, f);
    LastTwoDigits(whole, f, n);
  }
}
