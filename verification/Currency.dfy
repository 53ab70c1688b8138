/**
 Reading one asset's entry out of a stellar.toml: a tolerant line parser, and the plain
 statement of which section it picks.
 */
module Currency {
  import opened Wrappers

  datatype Entry = Entry(name: string, desc: string, image: string)

  const NOTHING := Entry("", "", "")

  // ---------- lines ----------

  /** Unicode white space. */
  predicate IsSpace(c: char) {
    || '\t' <= c <= '\r' || c == ' ' || c == '\U{85}' || c == '\U{A0}' || c == '\U{1680}'
    || '\U{2000}' <= c <= '\U{200A}' || c == '\U{2028}' || c == '\U{2029}' || c == '\U{202F}'
    || c == '\U{205F}' || c == '\U{3000}'
  }

  function TrimLeft(s: string): (t: string)
    ensures |t| <= |s| && (t != "" ==> !IsSpace(t[0]))
  {
    if s != "" && IsSpace(s[0]) then TrimLeft(s[1..]) else s
  }

  function TrimRight(s: string): (t: string)
    ensures t <= s && (t != "" ==> !IsSpace(t[|t| - 1]))
  {
    if s != "" && IsSpace(s[|s| - 1]) then TrimRight(s[..|s| - 1]) else s
  }

  function TrimSpace(s: string): string {
    TrimRight(TrimLeft(s))
  }

  /** Lower case as far as it can yield one of the ASCII letters. */
  function Lower(c: char): char {
    if 'A' <= c <= 'Z' then c - 'A' + 'a'
    else if c == '\U{130}' then 'i'
    else if c == '\U{212A}' then 'k'
    else c
  }

  function ToLower(s: string): string {
    seq(|s|, i requires 0 <= i < |s| => Lower(s[i]))
  }

  function WithoutSpaces(s: string): string {
    if s == "" then ""
    else if s[0] == ' ' then WithoutSpaces(s[1..])
    else [s[0]] + WithoutSpaces(s[1..])
  }

  /** The text around the first '='. */
  function CutAtEquals(s: string): Option<(string, string)> {
    if s == "" then None
    else if s[0] == '=' then Some(("", s[1..]))
    else
      var rest := CutAtEquals(s[1..]);
      if rest.None? then None else Some(([s[0]] + rest.value.0, rest.value.1))
  }

  function Unquote(value: string): string {
    var v := TrimSpace(value);
    if |v| >= 2 && (v[0] == '"' || v[0] == '\'') && v[|v| - 1] == v[0] then v[1..|v| - 1] else v
  }

  datatype Line =
    | Header(isCurrency: bool)
    | Setting(key: string, value: string)
    | Ignored

  /** What a raw line of the file says. */
  function ReadLine(raw: string): Line {
    var line := TrimSpace(raw);
    if line != "" && line[0] == '[' then Header(WithoutSpaces(line) == "[[CURRENCIES]]")
    else if line == "" || line[0] == '#' then Ignored
    else
      var cut := CutAtEquals(line);
      if cut.None? then Ignored
      else Setting(ToLower(TrimSpace(cut.value.0)), Unquote(cut.value.1))
  }

  function SplitLines(text: string): (raw: seq<string>)
    ensures raw != []
  {
    if text == "" then [""]
    else
      var rest := SplitLines(text[1..]);
      if text[0] == '\n' then [""] + rest else [[text[0]] + rest[0]] + rest[1..]
  }

  function Lines(raw: seq<string>): (lines: seq<Line>)
    ensures |lines| == |raw|
  {
    seq(|raw|, i requires 0 <= i < |raw| => ReadLine(raw[i]))
  }

  // ---------- sections, declaratively ----------

  /** A header and the settings under it; the file opens with an unnamed section. */
  datatype Section = Section(isCurrency: bool, settings: seq<Line>)

  /** One more line opens a section or goes into the last one. */
  function Extend(before: seq<Section>, line: Line): (s: seq<Section>)
    requires before != []
    ensures s != []
  {
    if line.Header? then before + [Section(line.isCurrency, [])]
    else
      var open := before[|before| - 1];
      before[..|before| - 1] + [Section(open.isCurrency, open.settings + [line])]
  }

  function Sections(lines: seq<Line>): (s: seq<Section>)
    ensures s != []
  {
    if lines == [] then [Section(false, [])] else Extend(Sections(lines[..|lines| - 1]), lines[|lines| - 1])
  }

  /** The value a key has in a section: the last line that sets it. */
  function LastValue(settings: seq<Line>, key: string): Option<string> {
    if settings == [] then None
    else
      var last := settings[|settings| - 1];
      if last.Setting? && last.key == key then Some(last.value) else LastValue(settings[..|settings| - 1], key)
  }

  function ValueOr(settings: seq<Line>, key: string): string {
    var v := LastValue(settings, key);
    if v.None? then "" else v.value
  }

  function EntryOf(s: Section): Entry {
    Entry(ValueOr(s.settings, "name"), ValueOr(s.settings, "desc"), ValueOr(s.settings, "image"))
  }

  predicate Matches(s: Section, code: string, issuer: string) {
    s.isCurrency && LastValue(s.settings, "code") == Some(code) && LastValue(s.settings, "issuer") == Some(issuer)
  }

  /** The entries of the matching sections, in order. */
  function Matching(sections: seq<Section>, code: string, issuer: string): seq<Entry> {
    if sections == [] then []
    else
      var last := sections[|sections| - 1];
      Matching(sections[..|sections| - 1], code, issuer) + if Matches(last, code, issuer) then [EntryOf(last)] else []
  }

  function WithImage(entries: seq<Entry>): seq<Entry> {
    if entries == [] then []
    else
      var last := entries[|entries| - 1];
      WithImage(entries[..|entries| - 1]) + if last.image != "" then [last] else []
  }

  /** The first entry with an image, else the first entry, else nothing. */
  function Best(entries: seq<Entry>): Entry {
    if WithImage(entries) != [] then WithImage(entries)[0]
    else if entries != [] then entries[0]
    else NOTHING
  }

  /** What a file says of an asset. */
  function Published(text: string, code: string, issuer: string): Entry {
    Best(Matching(Sections(Lines(SplitLines(text))), code, issuer))
  }

  // ---------- how sections and entries join ----------

  lemma {:induction false} MatchingConcat(a: seq<Section>, b: seq<Section>, code: string, issuer: string)
    ensures Matching(a + b, code, issuer) == Matching(a, code, issuer) + Matching(b, code, issuer)
  {
    if b == [] {
      assert a + b == a;
    } else {
      MatchingConcat(a, b[..|b| - 1], code, issuer);
      assert (a + b)[..|a + b| - 1] == a + b[..|b| - 1];
    }
  }

  lemma {:induction false} WithImageConcat(a: seq<Entry>, b: seq<Entry>)
    ensures WithImage(a + b) == WithImage(a) + WithImage(b)
  {
    if b == [] {
      assert a + b == a;
    } else {
      WithImageConcat(a, b[..|b| - 1]);
      assert (a + b)[..|a + b| - 1] == a + b[..|b| - 1];
    }
  }

  lemma WithImageOne(e: Entry)
    ensures WithImage([e]) == if e.image != "" then [e] else []
  {
    assert [e][..0] == [];
  }

  /** The first entry with an image settles the matter, whatever follows. */
  lemma FirstImageWins(closed: seq<Entry>, e: Entry, more: seq<Entry>)
    requires WithImage(closed) == [] && e.image != ""
    ensures Best(closed + [e] + more) == e
  {
    WithImageOne(e);
    WithImageConcat(closed, [e]);
    WithImageConcat(closed + [e], more);
  }

  lemma ExtendConcat(p: seq<Section>, q: seq<Section>, line: Line)
    requires q != []
    ensures Extend(p + q, line) == p + Extend(q, line)
  {
    var whole := p + q;
    assert whole[|whole| - 1] == q[|q| - 1];
    assert whole[..|whole| - 1] == p + q[..|q| - 1];
  }

  /** A header ends what came before it: the two parts of a file read separately. */
  lemma {:induction false} SectionsSplit(a: seq<Line>, b: seq<Line>)
    requires b != [] && b[0].Header?
    ensures |Sections(b)| >= 2 && Sections(a + b) == Sections(a) + Sections(b)[1..]
    decreases |b|
  {
    var init, last := b[..|b| - 1], b[|b| - 1];
    assert (a + b)[..|a + b| - 1] == a + init;
    if init == [] {
      assert a + init == a;
      assert Sections(b) == Sections([]) + [Section(last.isCurrency, [])];
    } else {
      SectionsSplit(a, init);
      var head, tail := Sections(init)[..1], Sections(init)[1..];
      assert Sections(init) == head + tail;
      ExtendConcat(head, tail, last);
      ExtendConcat(Sections(a), tail, last);
    }
  }

  /** The sections a part of a file adds, if it begins with a header or holds nothing. */
  function OwnSections(part: seq<Line>): seq<Section> {
    if part == [] then [] else Sections(part)[1..]
  }

  predicate Separate(part: seq<Line>) {
    part == [] || part[0].Header?
  }

  lemma SectionsJoin(a: seq<Line>, part: seq<Line>)
    requires Separate(part)
    ensures Sections(a + part) == Sections(a) + OwnSections(part)
  {
    if part == [] {
      assert a + part == a;
    } else {
      SectionsSplit(a, part);
    }
  }

  /** A part of a file, from a header to before the next or to the end, that does not match is as good as absent. */
  lemma OtherSectionsDoNotMatter(a: seq<Line>, b: seq<Line>, c: seq<Line>, code: string, issuer: string)
    requires Separate(b) && Separate(c)
    requires Matching(OwnSections(b), code, issuer) == []
    ensures Best(Matching(Sections(a + b + c), code, issuer)) == Best(Matching(Sections(a + c), code, issuer))
  {
    var x, y, z := Sections(a), OwnSections(b), OwnSections(c);
    SectionsJoin(a + b, c);
    SectionsJoin(a, b);
    SectionsJoin(a, c);
    MatchingConcat(x + y, z, code, issuer);
    MatchingConcat(x, y, code, issuer);
    MatchingConcat(x, z, code, issuer);
    assert Matching(x, code, issuer) + [] == Matching(x, code, issuer);
  }

  // ---------- the one-pass parser ----------

  /** What the parser has noted of the section it is reading. */
  ghost predicate Notes(open: Section, current: Entry, codeMatch: bool, issuerMatch: bool, code: string,
                        issuer: string)
  {
    && current == (if open.isCurrency then EntryOf(open) else NOTHING)
    && codeMatch == (open.isCurrency && LastValue(open.settings, "code") == Some(code))
    && issuerMatch == (open.isCurrency && LastValue(open.settings, "issuer") == Some(issuer))
  }

  /** No entry of the sections already ended has an image; best is the first of them. */
  ghost predicate Weighed(closed: seq<Entry>, haveBest: bool, best: Entry) {
    && WithImage(closed) == []
    && haveBest == (closed != [])
    && best == if closed != [] then closed[0] else NOTHING
  }

  lemma NothingNoted(isCurrency: bool, code: string, issuer: string)
    ensures Notes(Section(isCurrency, []), NOTHING, false, false, code, issuer)
  {
  }

  /** What one more line of a section changes. */
  function Noted(current: Entry, line: Line): Entry {
    if !line.Setting? then current
    else if line.key == "name" then current.(name := line.value)
    else if line.key == "desc" then current.(desc := line.value)
    else if line.key == "image" then current.(image := line.value)
    else current
  }

  lemma LastValueSnoc(settings: seq<Line>, line: Line, key: string)
    ensures LastValue(settings + [line], key) ==
            if line.Setting? && line.key == key then Some(line.value) else LastValue(settings, key)
  {
    assert (settings + [line])[..|settings|] == settings;
  }

  lemma NotedIs(open: Section, line: Line)
    ensures EntryOf(Section(open.isCurrency, open.settings + [line])) == Noted(EntryOf(open), line)
  {
    LastValueSnoc(open.settings, line, "name");
    LastValueSnoc(open.settings, line, "desc");
    LastValueSnoc(open.settings, line, "image");
  }

  lemma NotesGoOn(open: Section, line: Line, current: Entry, codeMatch: bool, issuerMatch: bool, code: string,
      issuer: string)
    requires Notes(open, current, codeMatch, issuerMatch, code, issuer)
    ensures !open.isCurrency || !line.Setting? ==>
              Notes(Section(open.isCurrency, open.settings + [line]), current, codeMatch, issuerMatch, code, issuer)
    ensures open.isCurrency && line.Setting? ==>
              Notes(Section(open.isCurrency, open.settings + [line]), Noted(current, line),
                    if line.key == "code" then line.value == code else codeMatch,
                    if line.key == "issuer" then line.value == issuer else issuerMatch, code, issuer)
  {
    NotedIs(open, line);
    LastValueSnoc(open.settings, line, "code");
    LastValueSnoc(open.settings, line, "issuer");
  }

  class Parser {
    const code: string
    const issuer: string
    var current: Entry
    var best: Entry
    var codeMatch: bool
    var issuerMatch: bool
    var inCurrency: bool
    var haveBest: bool
    ghost var ended: seq<Section>
    ghost var open: Section

    constructor (code: string, issuer: string)
      ensures this.code == code && this.issuer == issuer
      ensures Valid() && ended == [] && open == Section(false, [])
    {
      this.code, this.issuer := code, issuer;
      current, best := NOTHING, NOTHING;
      codeMatch, issuerMatch, inCurrency, haveBest := false, false, false, false;
      ended, open := [], Section(false, []);
    }

    /**
     The variables say exactly what has been read: the sections already ended offer no
     image, best is the first of them that matches, and open is the one being read.
     */
    ghost predicate Valid()
      reads this
    {
      && inCurrency == open.isCurrency
      && Notes(open, current, codeMatch, issuerMatch, code, issuer)
      && NoImageIn(ended)
    }

    ghost predicate NoImageIn(sections: seq<Section>)
      reads this
    {
      Weighed(Matching(sections, code, issuer), haveBest, best)
    }

    /** The open section matches and carries an image, which settles the answer. */
    ghost predicate Settles()
      reads this
    {
      Matches(open, code, issuer) && EntryOf(open).image != ""
    }

    /** Weighs the open section as it ends. */
    method Consider() returns (settled: bool)
      requires Valid()
      modifies this`best, this`haveBest
      ensures settled <==> Settles()
      ensures if settled then best == EntryOf(open) else NoImageIn(ended + [open])
    {
      MatchingOneMore(ended, open, code, issuer);
      WithImageOne(EntryOf(open));
      WithImageConcat(Matching(ended, code, issuer), [EntryOf(open)]);
      if !(codeMatch && issuerMatch) {
        assert Matching(ended, code, issuer) + [] == Matching(ended, code, issuer);
        return false;
      }
      if current.image != "" {
        best := current;
        return true;
      }
      if !haveBest {
        best, haveBest := current, true;
      }
      settled := false;
    }

    /** Any line but a header. */
    method ReadSetting(line: Line)
      requires Valid() && !line.Header?
      modifies this
      ensures Valid() && ended == old(ended) && open == Section(old(open.isCurrency), old(open.settings) + [line])
    {
      NotesGoOn(open, line, current, codeMatch, issuerMatch, code, issuer);
      open := Section(open.isCurrency, open.settings + [line]);
      if !inCurrency || line.Ignored? { return; }
      match line.key {
        case "code" => codeMatch := line.value == code;
        case "issuer" => issuerMatch := line.value == issuer;
        case "name" => current := current.(name := line.value);
        case "desc" => current := current.(desc := line.value);
        case "image" => current := current.(image := line.value);
        case _ =>
      }
    }

    /** A line that opens a section. */
    method ReadHeader(isCurrency: bool) returns (settled: bool)
      requires Valid()
      modifies this
      ensures settled <==> old(Settles())
      ensures if settled then best == EntryOf(old(open))
              else Valid() && ended == old(ended) + [old(open)] && open == Section(isCurrency, [])
    {
      settled := Consider();
      if !settled {
        inCurrency := isCurrency;
        current, codeMatch, issuerMatch := NOTHING, false, false;
        ended, open := ended + [open], Section(isCurrency, []);
        NothingNoted(isCurrency, code, issuer);
      }
    }

    method Read(line: Line) returns (settled: bool)
      requires Valid()
      modifies this
      ensures settled <==> line.Header? && old(Settles())
      ensures if settled then best == EntryOf(old(open))
              else Valid() && ended + [open] == Extend(old(ended) + [old(open)], line)
    {
      ExtendConcat(ended, [open], line);
      if line.Header? {
        settled := ReadHeader(line.isCurrency);
      } else {
        ReadSetting(line);
        settled := false;
      }
    }

    /** The variables stand after these lines. */
    ghost predicate HasRead(lines: seq<Line>)
      reads this
    {
      Valid() && Sections(lines) == ended + [open]
    }

    /** Reads the next line of a file; a settled answer is the answer of the whole file. */
    method ReadNext(lines: seq<Line>, i: nat) returns (settled: bool)
      requires i < |lines| && HasRead(lines[..i])
      modifies this
      ensures if settled then best == Best(Matching(Sections(lines), code, issuer)) else HasRead(lines[..i + 1])
    {
      ghost var before, last := ended, open;
      SectionsOneMore(lines, i);
      settled := Read(lines[i]);
      if settled { SettledEarly(lines, i, before, last, code, issuer); }
    }

    /** Weighs the last section, which no header ends. */
    method Finish() returns (entry: Entry)
      requires Valid()
      modifies this
      ensures entry == Best(Matching(old(ended) + [old(open)], code, issuer))
    {
      ghost var before, last := ended, open;
      MatchingOneMore(before, last, code, issuer);
      var settled := Consider();
      if settled { FirstImageWins(Matching(before, code, issuer), EntryOf(last), []); }
      entry := best;
    }
  }

  /** One pass over the lines, stopping at the first section that settles the answer. */
  method ReadAll(lines: seq<Line>, code: string, issuer: string) returns (entry: Entry)
    ensures entry == Best(Matching(Sections(lines), code, issuer))
  {
    var parser := new Parser(code, issuer);
    var i := 0;
    while i < |lines|
      invariant 0 <= i <= |lines|
      invariant fresh(parser) && parser.code == code && parser.issuer == issuer
      invariant parser.HasRead(lines[..i])
    {
      var settled := parser.ReadNext(lines, i);
      if settled {
        return parser.best;
      }
      i := i + 1;
    }
    assert lines[..i] == lines;
    entry := parser.Finish();
  }

  method CurrencyMeta(text: string, code: string, issuer: string) returns (entry: Entry)
    ensures entry == Published(text, code, issuer)
  {
    entry := ReadAll(Lines(SplitLines(text)), code, issuer);
  }

  lemma SectionsOneMore(lines: seq<Line>, i: nat)
    requires i < |lines|
    ensures Sections(lines[..i + 1]) == Extend(Sections(lines[..i]), lines[i])
  {
    assert lines[..i + 1][..i] == lines[..i];
  }

  lemma MatchingOneMore(ended: seq<Section>, s: Section, code: string, issuer: string)
    ensures Matching(ended + [s], code, issuer) ==
            Matching(ended, code, issuer) + if Matches(s, code, issuer) then [EntryOf(s)] else []
  {
    assert (ended + [s])[..|ended + [s]| - 1] == ended;
  }

  /** Stopping at a header whose section settles the answer gives the answer of the whole file. */
  lemma SettledEarly(lines: seq<Line>, i: nat, ended: seq<Section>, open: Section, code: string, issuer: string)
    requires i < |lines| && lines[i].Header? && Sections(lines[..i]) == ended + [open]
    requires WithImage(Matching(ended, code, issuer)) == []
    requires Matches(open, code, issuer) && EntryOf(open).image != ""
    ensures Best(Matching(Sections(lines), code, issuer)) == EntryOf(open)
  {
    assert lines == lines[..i] + lines[i..];
    SectionsSplit(lines[..i], lines[i..]);
    var rest := Sections(lines[i..])[1..];
    MatchingConcat(ended + [open], rest, code, issuer);
    MatchingOneMore(ended, open, code, issuer);
    FirstImageWins(Matching(ended, code, issuer), EntryOf(open), Matching(rest, code, issuer));
  }
}
