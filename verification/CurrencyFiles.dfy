/**
 What an issuer writes into a stellar.toml is what is read from it, however it is spaced,
 quoted and capitalised.
 */
module CurrencyFiles {
  import opened Wrappers
  import opened Currency

  // ---------- how a line may be written ----------

  predicate Blank(s: string) {
    forall i :: 0 <= i < |s| ==> IsSpace(s[i])
  }

  /** Text that begins and ends with something to see. */
  predicate Trimmed(s: string) {
    s != "" && !IsSpace(s[0]) && !IsSpace(s[|s| - 1])
  }

  /** The key in ASCII letters, large or small. */
  predicate Spelled(text: string, key: string) {
    && |text| == |key|
    && forall i :: 0 <= i < |key| ==> 'a' <= key[i] <= 'z' && (text[i] == key[i] || text[i] == key[i] - 'a' + 'A')
  }

  /** A value in either kind of quotes, or bare if nothing of it would be lost. */
  predicate Quotes(text: string, value: string) {
    || text == "\"" + value + "\"" || text == "'" + value + "'"
    || (text == value && Trimmed(value)
        && !(|value| >= 2 && value[0] in {'"', '\''} && value[|value| - 1] == value[0]))
  }

  ghost predicate SetsWith(raw: string, key: string, value: string, lead: string, name: string, gap: string,
                           space: string, text: string, tail: string)
  {
    && raw == lead + (name + gap + "=" + (space + text)) + tail
    && Blank(lead) && Blank(gap) && Blank(space) && Blank(tail)
    && key != "" && Spelled(name, key) && Quotes(text, value)
  }

  /** The line sets a key. */
  ghost predicate Sets(raw: string, key: string, value: string) {
    exists lead, name, gap, space, text, tail :: SetsWith(raw, key, value, lead, name, gap, space, text, tail)
  }

  ghost predicate OpensWith(raw: string, lead: string, text: string, tail: string) {
    raw == lead + text + tail && Blank(lead) && Blank(tail) && Trimmed(text)
  }

  /** The line opens a section of an asset; spaces in it do not count. */
  ghost predicate OpensCurrency(raw: string) {
    exists lead, text, tail ::
      OpensWith(raw, lead, text, tail) && text[0] == '[' && WithoutSpaces(text) == "[[CURRENCIES]]"
  }

  // ---------- trimming ----------

  lemma {:induction false} TrimsLead(lead: string, s: string)
    requires Blank(lead) && (s == "" || !IsSpace(s[0]))
    ensures TrimLeft(lead + s) == s
  {
    if lead == "" {
      assert lead + s == s;
    } else {
      TrimsLead(lead[1..], s);
      assert (lead + s)[1..] == lead[1..] + s;
    }
  }

  lemma {:induction false} TrimsTail(s: string, tail: string)
    requires Blank(tail) && (s == "" || !IsSpace(s[|s| - 1]))
    ensures TrimRight(s + tail) == s
  {
    if tail == "" {
      assert s + tail == s;
    } else {
      TrimsTail(s, tail[..|tail| - 1]);
      assert (s + tail)[..|s + tail| - 1] == s + tail[..|tail| - 1];
    }
  }

  lemma TrimsBoth(lead: string, s: string, tail: string)
    requires Blank(lead) && Blank(tail) && Trimmed(s)
    ensures TrimSpace(lead + s + tail) == s
  {
    assert lead + s + tail == lead + (s + tail);
    TrimsLead(lead, s + tail);
    TrimsTail(s, tail);
  }

  lemma {:induction false} TrimsMoreLead(lead: string, s: string)
    requires Blank(lead)
    ensures TrimLeft(lead + s) == TrimLeft(s)
  {
    if lead == "" {
      assert lead + s == s;
    } else {
      TrimsMoreLead(lead[1..], s);
      assert (lead + s)[1..] == lead[1..] + s;
    }
  }

  lemma {:induction false} TrimsMoreTail(s: string, tail: string)
    requires Blank(tail)
    ensures TrimRight(s + tail) == TrimRight(s)
  {
    if tail == "" {
      assert s + tail == s;
    } else {
      TrimsMoreTail(s, tail[..|tail| - 1]);
      assert (s + tail)[..|s + tail| - 1] == s + tail[..|tail| - 1];
    }
  }

  lemma {:induction false} TrimsTailLater(s: string, tail: string)
    requires Blank(tail)
    ensures TrimRight(TrimLeft(s + tail)) == TrimRight(TrimLeft(s))
  {
    if s == "" {
      assert s + tail == tail && tail + "" == tail;
      TrimsMoreLead(tail, "");
    } else if IsSpace(s[0]) {
      assert (s + tail)[1..] == s[1..] + tail;
      TrimsTailLater(s[1..], tail);
    } else {
      TrimsMoreTail(s, tail);
    }
  }

  /** Space around a line does not matter; a carriage return is space. */
  lemma SpaceAroundDoesNotMatter(lead: string, raw: string, tail: string)
    requires Blank(lead) && Blank(tail)
    ensures ReadLine(lead + raw + tail) == ReadLine(raw)
  {
    assert lead + raw + tail == lead + (raw + tail);
    TrimsMoreLead(lead, raw + tail);
    TrimsTailLater(raw, tail);
  }

  lemma BothKindsOfLineEnd(raw: string)
    ensures ReadLine(raw + "\r") == ReadLine(raw) && ReadLine("\t" + raw) == ReadLine(raw)
  {
    SpaceAroundDoesNotMatter("", raw, "\r");
    SpaceAroundDoesNotMatter("\t", raw, "");
    assert "" + raw + "\r" == raw + "\r" && "\t" + raw + "" == "\t" + raw;
  }

  // ---------- reading the line back ----------

  lemma {:induction false} CutsAt(name: string, rest: string)
    requires '=' !in name
    ensures CutAtEquals(name + ['='] + rest) == Some((name, rest))
  {
    var s := name + ['='] + rest;
    if name == "" {
      assert s[1..] == rest;
    } else {
      CutsAt(name[1..], rest);
      assert s[1..] == name[1..] + ['='] + rest && name == [name[0]] + name[1..];
    }
  }

  lemma LettersAreKept(name: string, key: string)
    requires key != "" && Spelled(name, key)
    ensures ToLower(name) == key && Trimmed(name) && '=' !in name && name[0] != '[' && name[0] != '#'
  {
  }

  lemma BlankHasNoEquals(gap: string)
    requires Blank(gap)
    ensures '=' !in gap
  {
  }

  lemma KeyIsRead(name: string, key: string, gap: string)
    requires Trimmed(name) && '=' !in name && ToLower(name) == key && Blank(gap)
    ensures '=' !in name + gap && ToLower(TrimSpace(name + gap)) == key
  {
    BlankHasNoEquals(gap);
    TrimsBoth("", name, gap);
    assert "" + name + gap == name + gap;
  }

  lemma ValueIsRead(space: string, text: string, value: string)
    requires Blank(space) && Quotes(text, value)
    ensures Trimmed(text) && Unquote(space + text) == value
  {
    assert text == value || (|text| == |value| + 2 && text[1..|text| - 1] == value);
    assert Trimmed(text);
    TrimsBoth(space, text, "");
    assert space + text + "" == space + text;
  }

  /** A line that sets a key is read as setting it. */
  lemma SettingIsRead(raw: string, key: string, value: string)
    requires Sets(raw, key, value)
    ensures ReadLine(raw) == Setting(key, value)
  {
    var lead, name, gap, space, text, tail :| SetsWith(raw, key, value, lead, name, gap, space, text, tail);
    LettersAreKept(name, key);
    KeyIsRead(name, key, gap);
    ValueIsRead(space, text, value);
    var line := name + gap + "=" + (space + text);
    assert line[0] == name[0] && line[|line| - 1] == text[|text| - 1];
    TrimsBoth(lead, line, tail);
    CutsAt(name + gap, space + text);
  }

  lemma HeaderIsRead(raw: string)
    requires OpensCurrency(raw)
    ensures ReadLine(raw) == Header(true)
  {
    var lead, text, tail :|
      OpensWith(raw, lead, text, tail) && text[0] == '[' && WithoutSpaces(text) == "[[CURRENCIES]]";
    TrimsBoth(lead, text, tail);
  }

  // ---------- the file ----------

  function Join(lines: seq<string>): string {
    if lines == [] then "" else if |lines| == 1 then lines[0] else lines[0] + ['\n'] + Join(lines[1..])
  }

  lemma {:induction false} FirstLineSplits(line: string, rest: string)
    requires '\n' !in line
    ensures SplitLines(line + ['\n'] + rest) == [line] + SplitLines(rest)
  {
    var s := line + ['\n'] + rest;
    if line == "" {
      assert s[1..] == rest;
    } else {
      assert s[1..] == line[1..] + ['\n'] + rest && line == [line[0]] + line[1..];
      FirstLineSplits(line[1..], rest);
    }
  }

  lemma {:induction false} OneLineSplits(line: string)
    requires '\n' !in line
    ensures SplitLines(line) == [line]
  {
    if line == "" {
    } else {
      OneLineSplits(line[1..]);
      assert line == [line[0]] + line[1..];
    }
  }

  lemma {:induction false} SplitsWhatWasJoined(lines: seq<string>)
    requires lines != [] && forall i :: 0 <= i < |lines| ==> '\n' !in lines[i]
    ensures SplitLines(Join(lines)) == lines
  {
    if |lines| == 1 {
      OneLineSplits(lines[0]);
    } else {
      SplitsWhatWasJoined(lines[1..]);
      FirstLineSplits(lines[0], Join(lines[1..]));
    }
  }

  datatype Asset = Asset(code: string, issuer: string, name: string, desc: string, image: string)

  function Keys(): seq<string> {
    ["code", "issuer", "name", "desc", "image"]
  }

  function Fields(asset: Asset): seq<string> {
    [asset.code, asset.issuer, asset.name, asset.desc, asset.image]
  }

  /** Six lines that give an asset a section of its own. */
  ghost predicate Writes(raw: seq<string>, asset: Asset) {
    && |raw| == 6 && (forall i :: 0 <= i < 6 ==> '\n' !in raw[i])
    && OpensCurrency(raw[0])
    && forall k :: 0 <= k < 5 ==> Sets(raw[k + 1], Keys()[k], Fields(asset)[k])
  }

  ghost predicate WritesAll(parts: seq<seq<string>>, assets: seq<Asset>) {
    |parts| == |assets| && forall i :: 0 <= i < |parts| ==> Writes(parts[i], assets[i])
  }

  function Flat(parts: seq<seq<string>>): seq<string> {
    if parts == [] then [] else Flat(parts[..|parts| - 1]) + parts[|parts| - 1]
  }

  function SettingsOf(asset: Asset): seq<Line> {
    [Setting("code", asset.code), Setting("issuer", asset.issuer), Setting("name", asset.name),
     Setting("desc", asset.desc), Setting("image", asset.image)]
  }

  lemma SettingsByKey(asset: Asset, k: nat)
    requires k < 5
    ensures SettingsOf(asset)[k] == Setting(Keys()[k], Fields(asset)[k])
  {
    match k
    case 0 =>
    case 1 =>
    case 2 =>
    case 3 =>
    case 4 =>
  }

  lemma PartIsRead(raw: seq<string>, asset: Asset)
    requires Writes(raw, asset)
    ensures Lines(raw) == [Header(true)] + SettingsOf(asset)
  {
    HeaderIsRead(raw[0]);
    forall k | 0 <= k < 5 ensures ReadLine(raw[k + 1]) == SettingsOf(asset)[k] {
      SettingIsRead(raw[k + 1], Keys()[k], Fields(asset)[k]);
      SettingsByKey(asset, k);
    }
  }

  function Filled(s: seq<Section>, settings: seq<Line>): seq<Section>
    requires s != []
  {
    var open := s[|s| - 1];
    s[..|s| - 1] + [Section(open.isCurrency, open.settings + settings)]
  }

  lemma FilledNothing(s: seq<Section>)
    requires s != []
    ensures Filled(s, []) == s
  {
    assert s[|s| - 1].settings + [] == s[|s| - 1].settings;
  }

  lemma FilledSnoc(s: seq<Section>, init: seq<Line>, last: Line)
    requires s != [] && !last.Header?
    ensures Extend(Filled(s, init), last) == Filled(s, init + [last])
  {
    var open := s[|s| - 1];
    assert open.settings + init + [last] == open.settings + (init + [last]);
  }

  /** Settings all go into the section that is open. */
  lemma {:induction false} SettingsFill(before: seq<Line>, settings: seq<Line>)
    requires forall line :: line in settings ==> !line.Header?
    ensures Sections(before + settings) == Filled(Sections(before), settings)
  {
    if settings == [] {
      FillsNothing(before);
    } else {
      var init, last := settings[..|settings| - 1], settings[|settings| - 1];
      assert settings == init + [last];
      SettingsFill(before, init);
      FillsOneMore(before, init, last);
    }
  }

  lemma FillsNothing(before: seq<Line>)
    ensures Sections(before + []) == Filled(Sections(before), [])
  {
    FilledNothing(Sections(before));
    assert before + [] == before;
  }

  lemma FillsOneMore(before: seq<Line>, init: seq<Line>, last: Line)
    requires !last.Header? && Sections(before + init) == Filled(Sections(before), init)
    ensures Sections(before + (init + [last])) == Filled(Sections(before), init + [last])
  {
    FilledSnoc(Sections(before), init, last);
    SectionsSnoc(before + init, last);
    assert before + (init + [last]) == before + init + [last];
  }

  lemma SectionsSnoc(lines: seq<Line>, last: Line)
    ensures Sections(lines + [last]) == Extend(Sections(lines), last)
  {
    assert (lines + [last])[..|lines|] == lines;
  }

  lemma PartIsASection(before: seq<Line>, asset: Asset)
    ensures Sections(before + ([Header(true)] + SettingsOf(asset)))
         == Sections(before) + [Section(true, SettingsOf(asset))]
  {
    var headed := before + [Header(true)];
    assert headed[..|headed| - 1] == before;
    SettingsFill(headed, SettingsOf(asset));
    assert before + ([Header(true)] + SettingsOf(asset)) == headed + SettingsOf(asset);
    assert [] + SettingsOf(asset) == SettingsOf(asset);
  }

  function EntryFor(asset: Asset): Entry {
    Entry(asset.name, asset.desc, asset.image)
  }

  lemma SectionIsOfAsset(asset: Asset, code: string, issuer: string)
    ensures var s := Section(true, SettingsOf(asset));
            && (Matches(s, code, issuer) <==> asset.code == code && asset.issuer == issuer)
            && EntryOf(s) == EntryFor(asset)
  {
    var s := SettingsOf(asset);
    assert s == s[..4] + [s[4]] && s[..4] == s[..3] + [s[3]] && s[..3] == s[..2] + [s[2]];
    assert s[..2] == s[..1] + [s[1]] && s[..1] == [] + [s[0]];
    forall key ensures LastValue(s, key) == (match key
                         case "code" => Some(asset.code)
                         case "issuer" => Some(asset.issuer)
                         case "name" => Some(asset.name)
                         case "desc" => Some(asset.desc)
                         case "image" => Some(asset.image)
                         case _ => None) {
      LastValueSnoc(s[..4], s[4], key);
      LastValueSnoc(s[..3], s[3], key);
      LastValueSnoc(s[..2], s[2], key);
      LastValueSnoc(s[..1], s[1], key);
      LastValueSnoc([], s[0], key);
    }
  }

  /** The entries of an asset, in the order of the file. */
  function EntriesOf(assets: seq<Asset>, code: string, issuer: string): seq<Entry> {
    if assets == [] then []
    else
      var last := assets[|assets| - 1];
      EntriesOf(assets[..|assets| - 1], code, issuer)
      + if last.code == code && last.issuer == issuer then [EntryFor(last)] else []
  }

  lemma LinesConcat(a: seq<string>, b: seq<string>)
    ensures Lines(a + b) == Lines(a) + Lines(b)
  {
  }

  lemma {:induction false} AssetsAreMatched(parts: seq<seq<string>>, assets: seq<Asset>, code: string, issuer: string)
    requires WritesAll(parts, assets)
    ensures Matching(Sections(Lines(Flat(parts))), code, issuer) == EntriesOf(assets, code, issuer)
  {
    if parts == [] {
      var s := Sections([]);
      assert s == [Section(false, [])] && s[..0] == [];
    } else {
      var n := |parts| - 1;
      AssetsAreMatched(parts[..n], assets[..n], code, issuer);
      PartIsRead(parts[n], assets[n]);
      LinesConcat(Flat(parts[..n]), parts[n]);
      var before, section := Lines(Flat(parts[..n])), Section(true, SettingsOf(assets[n]));
      PartIsASection(before, assets[n]);
      SectionIsOfAsset(assets[n], code, issuer);
      assert (Sections(before) + [section])[..|Sections(before)|] == Sections(before);
    }
  }

  // ---------- what is read of the file ----------

  predicate IsFor(asset: Asset, code: string, issuer: string) {
    asset.code == code && asset.issuer == issuer
  }

  lemma {:induction false} EntriesConcat(a: seq<Asset>, b: seq<Asset>, code: string, issuer: string)
    ensures EntriesOf(a + b, code, issuer) == EntriesOf(a, code, issuer) + EntriesOf(b, code, issuer)
  {
    if b == [] {
      assert a + b == a;
    } else {
      EntriesConcat(a, b[..|b| - 1], code, issuer);
      assert (a + b)[..|a + b| - 1] == a + b[..|b| - 1];
    }
  }

  lemma {:induction false} NoneFor(assets: seq<Asset>, code: string, issuer: string)
    requires forall j :: 0 <= j < |assets| ==> !IsFor(assets[j], code, issuer)
    ensures EntriesOf(assets, code, issuer) == []
  {
    if assets == [] {
    } else {
      NoneFor(assets[..|assets| - 1], code, issuer);
    }
  }

  lemma {:induction false} NoImageFor(assets: seq<Asset>, code: string, issuer: string)
    requires forall j :: 0 <= j < |assets| && IsFor(assets[j], code, issuer) ==> assets[j].image == ""
    ensures WithImage(EntriesOf(assets, code, issuer)) == []
  {
    if assets == [] {
    } else {
      var init, last := assets[..|assets| - 1], assets[|assets| - 1];
      NoImageFor(init, code, issuer);
      var more := if IsFor(last, code, issuer) then [EntryFor(last)] else [];
      WithImageOne(EntryFor(last));
      WithImageConcat(EntriesOf(init, code, issuer), more);
      assert EntriesOf(assets, code, issuer) == EntriesOf(init, code, issuer) + more;
    }
  }

  lemma SplitsAt(assets: seq<Asset>, i: nat, code: string, issuer: string)
    requires i < |assets| && IsFor(assets[i], code, issuer)
    ensures EntriesOf(assets, code, issuer) ==
            EntriesOf(assets[..i], code, issuer) + [EntryFor(assets[i])] + EntriesOf(assets[i + 1..], code, issuer)
  {
    var one := [assets[i]];
    assert assets == assets[..i] + one + assets[i + 1..] && one[..0] == [];
    EntriesConcat(assets[..i] + one, assets[i + 1..], code, issuer);
    EntriesConcat(assets[..i], one, code, issuer);
  }

  /** The asset's first section with an image or, if none has one, its first. */
  ghost predicate Chosen(assets: seq<Asset>, i: nat, code: string, issuer: string) {
    && i < |assets| && IsFor(assets[i], code, issuer)
    && if assets[i].image != "" then forall j :: 0 <= j < i && IsFor(assets[j], code, issuer) ==> assets[j].image == ""
       else && (forall j :: 0 <= j < i ==> !IsFor(assets[j], code, issuer))
            && forall j :: 0 <= j < |assets| && IsFor(assets[j], code, issuer) ==> assets[j].image == ""
  }

  lemma ChosenIsBest(assets: seq<Asset>, i: nat, code: string, issuer: string)
    requires Chosen(assets, i, code, issuer)
    ensures Best(EntriesOf(assets, code, issuer)) == EntryFor(assets[i])
  {
    SplitsAt(assets, i, code, issuer);
    if assets[i].image != "" {
      NoImageFor(assets[..i], code, issuer);
      var later := EntriesOf(assets[i + 1..], code, issuer);
      FirstImageWins(EntriesOf(assets[..i], code, issuer), EntryFor(assets[i]), later);
    } else {
      NoneFor(assets[..i], code, issuer);
      NoImageFor(assets, code, issuer);
    }
  }

  lemma {:induction false} FlatHasNoBreaks(parts: seq<seq<string>>, assets: seq<Asset>)
    requires WritesAll(parts, assets)
    ensures forall line :: line in Flat(parts) ==> '\n' !in line
    ensures parts != [] ==> Flat(parts) != []
  {
    if parts == [] {
    } else {
      var n := |parts| - 1;
      FlatHasNoBreaks(parts[..n], assets[..n]);
      assert Writes(parts[n], assets[n]);
      forall line | line in Flat(parts) ensures '\n' !in line {
        if line in parts[n] {
          var k :| 0 <= k < 6 && parts[n][k] == line;
        }
      }
    }
  }

  lemma FilePublishes(parts: seq<seq<string>>, assets: seq<Asset>, code: string, issuer: string)
    requires parts != [] && WritesAll(parts, assets)
    ensures Published(Join(Flat(parts)), code, issuer) == Best(EntriesOf(assets, code, issuer))
  {
    FlatHasNoBreaks(parts, assets);
    SplitsWhatWasJoined(Flat(parts));
    AssetsAreMatched(parts, assets, code, issuer);
  }

  /**
   From a file that gives each asset a section, what is read of an asset is what its first
   section with an image says, or its first section if none has one.
   */
  lemma FileIsRead(parts: seq<seq<string>>, assets: seq<Asset>, code: string, issuer: string, i: nat)
    requires parts != [] && WritesAll(parts, assets) && Chosen(assets, i, code, issuer)
    ensures Published(Join(Flat(parts)), code, issuer) == Entry(assets[i].name, assets[i].desc, assets[i].image)
  {
    FilePublishes(parts, assets, code, issuer);
    ChosenIsBest(assets, i, code, issuer);
  }

  /** Of an asset that has none, nothing is read. */
  lemma OtherAssetsAreUnknown(parts: seq<seq<string>>, assets: seq<Asset>, code: string, issuer: string)
    requires parts != [] && WritesAll(parts, assets)
    requires forall i :: 0 <= i < |assets| ==> !IsFor(assets[i], code, issuer)
    ensures Published(Join(Flat(parts)), code, issuer) == Entry("", "", "")
  {
    FilePublishes(parts, assets, code, issuer);
    NoneFor(assets, code, issuer);
  }
}
