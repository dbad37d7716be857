/** How a lockfile is written down, and what the two line parsers recover from it. */
module LockfileLayout {
  import opened Lockfile
  import opened Text
  import opened Wrappers

  // ---------------------------------------------------------------- layouts

  /** A line of content at an indentation. */
  datatype Line = Line(indent: nat, content: string)

  datatype Style = Bare | Single | Double

  datatype Scalar = Scalar(style: Style, text: string)

  datatype Dependency = Dependency(name: Scalar, specifier: Scalar, version: Scalar)

  datatype Section =
    | Dependencies(dev: bool, dependencies: seq<Dependency>)
    | OtherSection(header: string, body: seq<Line>)

  datatype Importer =
    | Root(style: Style, sections: seq<Section>)
    | Foreign(name: Scalar, sections: seq<Section>)
    | OtherImporter(name: Scalar, body: seq<Line>)

  datatype TopLevel =
    | Importers(importers: seq<Importer>)
    | OtherTop(header: string, body: seq<Line>)

  function Written(s: Scalar): string {
    match s.style
    case Bare => s.text
    case Single => "'" + s.text + "'"
    case Double => "\"" + s.text + "\""
  }

  function Spaces(n: nat): string {
    if n == 0 then "" else " " + Spaces(n - 1)
  }

  function LineText(line: Line): string {
    Spaces(line.indent) + line.content
  }

  function LineTexts(lines: seq<Line>): seq<string> {
    if lines == [] then [] else [LineText(lines[0])] + LineTexts(lines[1..])
  }

  function DependencyLines(d: Dependency): seq<Line> {
    [Line(6, Written(d.name) + ":"), Line(8, "specifier: " + Written(d.specifier)),
     Line(8, "version: " + Written(d.version))]
  }

  function AllDependencyLines(ds: seq<Dependency>): seq<Line> {
    if ds == [] then [] else DependencyLines(ds[0]) + AllDependencyLines(ds[1..])
  }

  function SectionLines(s: Section): seq<Line> {
    match s
    case Dependencies(dev, ds) =>
      [Line(4, if dev then "devDependencies:" else "dependencies:")] + AllDependencyLines(ds)
    case OtherSection(header, body) => [Line(4, header)] + body
  }

  function AllSectionLines(ss: seq<Section>): seq<Line> {
    if ss == [] then [] else SectionLines(ss[0]) + AllSectionLines(ss[1..])
  }

  function ImporterLines(i: Importer): seq<Line> {
    match i
    case Root(style, sections) => [Line(2, Written(Scalar(style, ".")) + ":")] + AllSectionLines(sections)
    case Foreign(name, sections) => [Line(2, Written(name) + ":")] + AllSectionLines(sections)
    case OtherImporter(name, body) => [Line(2, Written(name) + ":")] + body
  }

  function AllImporterLines(importers: seq<Importer>): seq<Line> {
    if importers == [] then [] else ImporterLines(importers[0]) + AllImporterLines(importers[1..])
  }

  function TopLines(t: TopLevel): seq<Line> {
    match t
    case Importers(importers) => [Line(0, "importers:")] + AllImporterLines(importers)
    case OtherTop(header, body) => [Line(0, header)] + body
  }

  function DocumentLines(ts: seq<TopLevel>): seq<Line> {
    if ts == [] then [] else TopLines(ts[0]) + DocumentLines(ts[1..])
  }

  // ---------------------------------------------------------------- what a layout may hold

  /** Text that stripping leaves alone. */
  predicate Solid(s: string) {
    s != "" && !Space(s[0]) && !Space(s[|s| - 1])
  }

  predicate Plain(s: string) {
    Solid(s) && !QuoteMark(s[0]) && !QuoteMark(s[|s| - 1]) && s[0] != '#'
  }

  predicate DependencyOk(d: Dependency) {
    Plain(d.name.text) && Plain(d.specifier.text) && Plain(d.version.text)
  }

  predicate DependenciesOk(ds: seq<Dependency>) {
    forall k :: 0 <= k < |ds| ==> DependencyOk(ds[k])
  }

  predicate BodyOk(body: seq<Line>, least: nat) {
    forall line :: line in body ==> line.indent >= least && Solid(line.content)
  }

  predicate HeaderOk(header: string) {
    Solid(header) && header[0] != '#'
  }

  predicate SectionOk(s: Section) {
    match s
    case Dependencies(_, ds) => DependenciesOk(ds)
    case OtherSection(header, body) => HeaderOk(header) && !DependencyHeader(header) && BodyOk(body, 5)
  }

  predicate SectionsOk(ss: seq<Section>) {
    forall k :: 0 <= k < |ss| ==> SectionOk(ss[k])
  }

  predicate ImporterOk(i: Importer) {
    match i
    case Root(_, sections) => SectionsOk(sections)
    case Foreign(name, sections) => Plain(name.text) && name.text != "." && SectionsOk(sections)
    case OtherImporter(name, body) => Plain(name.text) && name.text != "." && BodyOk(body, 3)
  }

  predicate ImportersOk(importers: seq<Importer>) {
    forall k :: 0 <= k < |importers| ==> ImporterOk(importers[k])
  }

  predicate TopOk(t: TopLevel) {
    match t
    case Importers(importers) => ImportersOk(importers)
    case OtherTop(header, body) => HeaderOk(header) && header != "importers:" && BodyOk(body, 1)
  }

  predicate DocumentOk(ts: seq<TopLevel>) {
    forall k :: 0 <= k < |ts| ==> TopOk(ts[k])
  }

  // ---------------------------------------------------------------- what it means

  function OfSection(s: Section): seq<Dependency> {
    if s.Dependencies? then s.dependencies else []
  }

  function OfSections(ss: seq<Section>): seq<Dependency> {
    if ss == [] then [] else OfSection(ss[0]) + OfSections(ss[1..])
  }

  function OfImporter(i: Importer): seq<Dependency> {
    if i.Root? then OfSections(i.sections) else []
  }

  function OfImporters(importers: seq<Importer>): seq<Dependency> {
    if importers == [] then [] else OfImporter(importers[0]) + OfImporters(importers[1..])
  }

  function OfTop(t: TopLevel): seq<Dependency> {
    if t.Importers? then OfImporters(t.importers) else []
  }

  /** The dependencies of the root importer, in the order they are written. */
  function OfDocument(ts: seq<TopLevel>): seq<Dependency> {
    if ts == [] then [] else OfTop(ts[0]) + OfDocument(ts[1..])
  }

  function Full(d: Dependency): Entry {
    Entry(Some(d.specifier.text), Some(d.version.text))
  }

  function Record(m: Entries, d: Dependency): Entries {
    m[d.name.text := Full(d)]
  }

  // ---------------------------------------------------------------- text

  lemma {:induction false} StripPad(n: nat, content: string)
    requires Solid(content)
    ensures StripLeft(Spaces(n) + content, Space) == content
    ensures Indent(Spaces(n) + content) == n
  {
    if n == 0 {
      assert Spaces(0) + content == content;
    } else {
      assert (Spaces(n) + content)[1..] == Spaces(n - 1) + content;
      StripPad(n - 1, content);
    }
  }

  lemma TextReads(line: Line)
    requires Solid(line.content)
    ensures Strip(LineText(line)) == line.content && Indent(LineText(line)) == line.indent
  {
    StripPad(line.indent, line.content);
  }

  lemma QuotesFallAway(s: Scalar)
    requires Plain(s.text)
    ensures StripQuotes(Written(s)) == s.text
    ensures Solid(Written(s)) && Written(s)[0] != '#'
  {
    var w := Written(s);
    if s.style != Bare {
      assert w[1..] == s.text + [w[|w| - 1]];
      assert StripLeft(w, QuoteMark) == StripLeft(w[1..], QuoteMark) == w[1..];
      assert w[1..][..|w| - 2] == s.text;
      assert StripRight(w[1..], QuoteMark) == StripRight(s.text, QuoteMark) == s.text;
    }
  }

  lemma ValueReads(key: string, s: Scalar)
    requires ':' !in key && Plain(s.text)
    ensures Value(key + ": " + Written(s)) == s.text
  {
    QuotesFallAway(s);
    var w := Written(s);
    assert key + ": " + w == key + ":" + (" " + w);
    BehindTheColon(key, " " + w);
    assert (" " + w)[1..] == w;
    assert StripLeft(" " + w, Space) == StripLeft(w, Space) == w;
  }

  // ---------------------------------------------------------------- reading a layout line by line

  function Step(s: State, line: Line): State {
    if Skipped(line.content) then s else OnToken(s, line.indent, line.content)
  }

  function OldStep(s: OldState, line: Line): OldState {
    if line.content == "" then s else OldOnToken(s, line.indent, line.content)
  }

  predicate AllSolid(lines: seq<Line>) {
    forall line :: line in lines ==> Solid(line.content)
  }

  lemma {:induction false} TextsRead(s: State, lines: seq<Line>)
    requires AllSolid(lines)
    ensures Scan(s, LineTexts(lines)) == Fold(Step, s, lines)
    decreases |lines|
  {
    if lines != [] {
      TextReads(lines[0]);
      assert LineTexts(lines)[1..] == LineTexts(lines[1..]);
      TextsRead(Step(s, lines[0]), lines[1..]);
    }
  }

  lemma {:induction false} OldTextsRead(s: OldState, lines: seq<Line>)
    requires AllSolid(lines)
    ensures Fold(OldOnLine, s, LineTexts(lines)) == Fold(OldStep, s, lines)
    decreases |lines|
  {
    if lines != [] {
      TextReads(lines[0]);
      assert LineTexts(lines)[1..] == LineTexts(lines[1..]);
      OldTextsRead(OldStep(s, lines[0]), lines[1..]);
    }
  }

  lemma {:induction false} FoldStays<S, T>(step: (S, T) -> S, s: S, items: seq<T>)
    requires forall x :: x in items ==> step(s, x) == s
    ensures Fold(step, s, items) == s
    decreases |items|
  {
    if items != [] {
      FoldStays(step, s, items[1..]);
    }
  }

  /** One step of `Fold` over a line put in front. */
  lemma FoldFirst<S, T>(step: (S, T) -> S, s: S, x: T, rest: seq<T>)
    ensures Fold(step, s, [x] + rest) == Fold(step, step(s, x), rest)
  {
    assert ([x] + rest)[1..] == rest;
  }

  // ---------------------------------------------------------------- lines of content

  lemma DependencySolid(d: Dependency)
    requires DependencyOk(d)
    ensures AllSolid(DependencyLines(d))
  {
    QuotesFallAway(d.name);
    QuotesFallAway(d.specifier);
    QuotesFallAway(d.version);
    var ls := DependencyLines(d);
    assert Solid(ls[0].content) && Solid(ls[1].content) && Solid(ls[2].content);
  }

  lemma {:induction false} DependenciesSolid(ds: seq<Dependency>)
    requires DependenciesOk(ds)
    ensures AllSolid(AllDependencyLines(ds))
  {
    if ds != [] {
      DependencySolid(ds[0]);
      DependenciesSolid(ds[1..]);
    }
  }

  lemma {:induction false} SectionsSolid(ss: seq<Section>)
    requires SectionsOk(ss)
    ensures AllSolid(AllSectionLines(ss))
  {
    if ss != [] {
      if ss[0].Dependencies? {
        DependenciesSolid(ss[0].dependencies);
      }
      SectionsSolid(ss[1..]);
    }
  }

  lemma {:induction false} DependenciesDeep(ds: seq<Dependency>)
    requires DependenciesOk(ds)
    ensures BodyOk(AllDependencyLines(ds), 3)
  {
    DependenciesSolid(ds);
    if ds != [] {
      DependenciesDeep(ds[1..]);
    }
  }

  lemma {:induction false} SectionsDeep(ss: seq<Section>)
    requires SectionsOk(ss)
    ensures BodyOk(AllSectionLines(ss), 3)
  {
    SectionsSolid(ss);
    if ss != [] {
      if ss[0].Dependencies? {
        DependenciesDeep(ss[0].dependencies);
      }
      SectionsDeep(ss[1..]);
    }
  }

  // ---------------------------------------------------------------- the root importer parser on layouts

  lemma KeyReads(name: Scalar)
    requires Plain(name.text)
    ensures var key := Written(name) + ":";
      Solid(key) && key[0] != '#' && EndsWithColon(key) && key[..|key| - 1] == Written(name)
      && StripQuotes(Written(name)) == name.text
  {
    QuotesFallAway(name);
  }

  predicate InSection(s: State) {
    s.inImporters && s.inRoot && s.section.Some?
  }

  lemma NameReads(s: State, name: Scalar)
    requires InSection(s) && Plain(name.text)
    ensures var t := Step(s, Line(6, Written(name) + ":"));
      t == s.(current := Some(name.text), entries := t.entries)
      && name.text in t.entries && t.entries[name.text := Entry(None, None)] == s.entries[name.text := Entry(None, None)]
  {
    KeyReads(name);
  }

  lemma FieldReads(s: State, key: string, value: Scalar)
    requires InSection(s) && s.current.Some? && s.current.value != "" && s.current.value in s.entries
    requires Plain(value.text) && (key == "specifier" || key == "version")
    ensures var before := s.entries[s.current.value];
      Step(s, Line(8, key + ": " + Written(value))) == s.(entries := s.entries[s.current.value :=
        if key == "specifier" then before.(specifier := Some(value.text)) else before.(version := Some(value.text))])
  {
    ValueReads(key, value);
    var content := key + ": " + Written(value);
    if key == "specifier" {
      assert content[..10] == "specifier:";
    } else {
      assert content[0] == 'v' && content[..8] == "version:";
    }
  }

  lemma FoldThree<S, T>(step: (S, T) -> S, s: S, x: T, y: T, z: T)
    ensures Fold(step, s, [x, y, z]) == step(step(step(s, x), y), z)
  {
    assert [x, y, z] == [x] + [y, z] && [y, z] == [y] + [z] && [z] == [z] + [];
    FoldFirst(step, s, x, [y, z]);
    FoldFirst(step, step(s, x), y, [z]);
    FoldFirst(step, step(step(s, x), y), z, []);
  }

  lemma FieldsRead(named: State, d: Dependency)
    requires InSection(named) && named.current == Some(d.name.text) && d.name.text in named.entries && DependencyOk(d)
    ensures var ls := DependencyLines(d);
      Step(Step(named, ls[1]), ls[2]) == named.(entries := named.entries[d.name.text := Full(d)])
  {
    var ls := DependencyLines(d);
    assert "specifier" + ": " == "specifier: " && "version" + ": " == "version: ";
    FieldReads(named, "specifier", d.specifier);
    FieldReads(Step(named, ls[1]), "version", d.version);
  }

  /** What one dependency block does to the parser. */
  lemma DependencyReads(s: State, d: Dependency)
    requires InSection(s) && DependencyOk(d)
    ensures Fold(Step, s, DependencyLines(d))
         == s.(current := Some(d.name.text), entries := Record(s.entries, d))
  {
    var ls := DependencyLines(d);
    FoldThree(Step, s, ls[0], ls[1], ls[2]);
    NameReads(s, d.name);
    FieldsRead(Step(s, ls[0]), d);
    assert Step(s, ls[0]).entries[d.name.text := Full(d)] == Record(s.entries, d);
  }

  lemma {:induction false} DependenciesRead(s: State, ds: seq<Dependency>)
    requires s.inImporters && s.inRoot && s.section.Some? && DependenciesOk(ds)
    ensures var t := Fold(Step, s, AllDependencyLines(ds));
      t.inImporters && t.inRoot && t.entries == Fold(Record, s.entries, ds)
    decreases |ds|
  {
    if ds != [] {
      DependencyReads(s, ds[0]);
      FoldAppend(Step, s, DependencyLines(ds[0]), AllDependencyLines(ds[1..]));
      DependenciesRead(s.(current := Some(ds[0].name.text), entries := Record(s.entries, ds[0])), ds[1..]);
    }
  }

  lemma SectionReads(s: State, section: Section)
    requires s.inImporters && s.inRoot && SectionOk(section)
    ensures var t := Fold(Step, s, SectionLines(section));
      t.inImporters && t.inRoot && t.entries == Fold(Record, s.entries, OfSection(section))
  {
    var ls := SectionLines(section);
    FoldFirst(Step, s, ls[0], ls[1..]);
    assert ls == [ls[0]] + ls[1..];
    var open := Step(s, ls[0]);
    if section.Dependencies? {
      assert ls[1..] == AllDependencyLines(section.dependencies);
      DependenciesRead(open, section.dependencies);
    } else {
      assert ls[1..] == section.body;
      FoldStays(Step, open, section.body);
    }
  }

  lemma {:induction false} SectionsRead(s: State, ss: seq<Section>)
    requires s.inImporters && s.inRoot && SectionsOk(ss)
    ensures var t := Fold(Step, s, AllSectionLines(ss));
      t.inImporters && t.entries == Fold(Record, s.entries, OfSections(ss))
    decreases |ss|
  {
    if ss != [] {
      SectionReads(s, ss[0]);
      FoldAppend(Step, s, SectionLines(ss[0]), AllSectionLines(ss[1..]));
      FoldAppend(Record, s.entries, OfSection(ss[0]), OfSections(ss[1..]));
      SectionsRead(Fold(Step, s, SectionLines(ss[0])), ss[1..]);
    }
  }

  lemma ImporterOpens(s: State, i: Importer)
    requires s.inImporters && ImporterOk(i)
    ensures Step(s, ImporterLines(i)[0]) == s.(inRoot := i.Root?, section := None, current := None)
  {
    KeyReads(if i.Root? then Scalar(i.style, ".") else i.name);
  }

  lemma ImporterReads(s: State, i: Importer)
    requires s.inImporters && ImporterOk(i)
    ensures var t := Fold(Step, s, ImporterLines(i));
      t.inImporters && t.entries == Fold(Record, s.entries, OfImporter(i))
  {
    var ls := ImporterLines(i);
    FoldFirst(Step, s, ls[0], ls[1..]);
    assert ls == [ls[0]] + ls[1..];
    ImporterOpens(s, i);
    var open := Step(s, ls[0]);
    if i.Root? {
      assert ls[1..] == AllSectionLines(i.sections);
      SectionsRead(open, i.sections);
    } else {
      var body := if i.Foreign? then AllSectionLines(i.sections) else i.body;
      assert ls[1..] == body;
      if i.Foreign? {
        SectionsDeep(i.sections);
      }
      FoldStays(Step, open, body);
    }
  }

  lemma {:induction false} ImportersRead(s: State, importers: seq<Importer>)
    requires s.inImporters && ImportersOk(importers)
    ensures Fold(Step, s, AllImporterLines(importers)).entries == Fold(Record, s.entries, OfImporters(importers))
    decreases |importers|
  {
    if importers != [] {
      ImporterReads(s, importers[0]);
      FoldAppend(Step, s, ImporterLines(importers[0]), AllImporterLines(importers[1..]));
      FoldAppend(Record, s.entries, OfImporter(importers[0]), OfImporters(importers[1..]));
      ImportersRead(Fold(Step, s, ImporterLines(importers[0])), importers[1..]);
    }
  }

  lemma TopReads(s: State, t: TopLevel)
    requires TopOk(t)
    ensures Fold(Step, s, TopLines(t)).entries == Fold(Record, s.entries, OfTop(t))
  {
    var ls := TopLines(t);
    FoldFirst(Step, s, ls[0], ls[1..]);
    assert ls == [ls[0]] + ls[1..];
    var open := Step(s, ls[0]);
    if t.Importers? {
      assert ls[1..] == AllImporterLines(t.importers);
      ImportersRead(open, t.importers);
    } else {
      assert ls[1..] == t.body;
      FoldStays(Step, open, t.body);
    }
  }

  lemma {:induction false} DocumentReads(s: State, ts: seq<TopLevel>)
    requires DocumentOk(ts)
    ensures Fold(Step, s, DocumentLines(ts)).entries == Fold(Record, s.entries, OfDocument(ts))
    decreases |ts|
  {
    if ts != [] {
      TopReads(s, ts[0]);
      FoldAppend(Step, s, TopLines(ts[0]), DocumentLines(ts[1..]));
      FoldAppend(Record, s.entries, OfTop(ts[0]), OfDocument(ts[1..]));
      DocumentReads(Fold(Step, s, TopLines(ts[0])), ts[1..]);
    }
  }

  lemma {:induction false} ImportersSolid(importers: seq<Importer>)
    requires ImportersOk(importers)
    ensures AllSolid(AllImporterLines(importers))
  {
    if importers != [] {
      var first := importers[0];
      KeyReads(if first.Root? then Scalar(first.style, ".") else first.name);
      if !first.OtherImporter? {
        SectionsSolid(first.sections);
      }
      ImportersSolid(importers[1..]);
    }
  }

  lemma TopSolid(t: TopLevel)
    requires TopOk(t)
    ensures AllSolid(TopLines(t))
  {
    if t.Importers? {
      ImportersSolid(t.importers);
    }
  }

  lemma {:induction false} DocumentSolid(ts: seq<TopLevel>)
    requires DocumentOk(ts)
    ensures AllSolid(DocumentLines(ts))
  {
    if ts != [] {
      TopSolid(ts[0]);
      DocumentSolid(ts[1..]);
    }
  }

  function Document(ts: seq<TopLevel>): seq<string> {
    LineTexts(DocumentLines(ts))
  }

  predicate Names(ds: seq<Dependency>, n: string) {
    exists k :: 0 <= k < |ds| && ds[k].name.text == n
  }

  predicate LastOfItsName(ds: seq<Dependency>, i: nat) {
    i < |ds| && forall j :: i < j < |ds| ==> ds[j].name.text != ds[i].name.text
  }

  lemma {:induction false} RecordedNames(m: Entries, ds: seq<Dependency>, n: string)
    ensures n in Fold(Record, m, ds) <==> n in m || Names(ds, n)
    ensures !Names(ds, n) && n in m ==> Fold(Record, m, ds)[n] == m[n]
    decreases |ds|
  {
    if ds != [] {
      RecordedNames(Record(m, ds[0]), ds[1..], n);
      assert Names(ds, n) <==> ds[0].name.text == n || Names(ds[1..], n) by {
        if k :| 0 <= k < |ds| && ds[k].name.text == n {
          assert k > 0 ==> ds[1..][k - 1].name.text == n;
        }
        if k :| 0 <= k < |ds[1..]| && ds[1..][k].name.text == n {
          assert ds[k + 1].name.text == n;
        }
      }
    }
  }

  lemma {:induction false} RecordedLast(m: Entries, ds: seq<Dependency>, i: nat)
    requires LastOfItsName(ds, i)
    ensures ds[i].name.text in Fold(Record, m, ds) && Fold(Record, m, ds)[ds[i].name.text] == Full(ds[i])
    decreases |ds|
  {
    if i == 0 {
      RecordedNames(Record(m, ds[0]), ds[1..], ds[0].name.text);
    } else {
      RecordedLast(Record(m, ds[0]), ds[1..], i - 1);
    }
  }

  /** The parser gives back the dependencies of the root importer, whatever other importers, sections and
      top-level blocks stand around them: the names are exactly theirs, and a repeated name keeps its last
      entry. */
  lemma RootImporterIsRecovered(ts: seq<TopLevel>)
    requires DocumentOk(ts)
    ensures var ds, found := OfDocument(ts), Locked(Document(ts));
      && (forall n :: n in found <==> Names(ds, n))
      && (forall i: nat :: LastOfItsName(ds, i) ==>
            ds[i].name.text in found
            && found[ds[i].name.text] == Entry(Some(ds[i].specifier.text), Some(ds[i].version.text)))
  {
    RecoveredAsFolded(ts);
    var ds, found := OfDocument(ts), Locked(Document(ts));
    forall n ensures n in found <==> Names(ds, n) {
      RecordedNames(map[], ds, n);
    }
    forall i: nat | LastOfItsName(ds, i)
      ensures ds[i].name.text in found && found[ds[i].name.text] == Full(ds[i])
    {
      RecordedLast(map[], ds, i);
    }
  }

  lemma RecoveredAsFolded(ts: seq<TopLevel>)
    requires DocumentOk(ts)
    ensures Locked(Document(ts)) == Fold(Record, map[], OfDocument(ts))
  {
    DocumentSolid(ts);
    TextsRead(INITIAL, DocumentLines(ts));
    DocumentReads(INITIAL, ts);
  }

  /** A blank line or a comment can stand anywhere. */
  lemma NoiseIsInvisible(before: seq<string>, line: string, after: seq<string>)
    requires Strip(line) == "" || Strip(line)[0] == '#'
    ensures Locked(before + [line] + after) == Locked(before + after)
  {
    FoldAppend(OnLine, INITIAL, before + [line], after);
    FoldAppend(OnLine, INITIAL, before, [line]);
    FoldAppend(OnLine, INITIAL, before, after);
    FoldFirst(OnLine, Fold(OnLine, INITIAL, before), line, []);
    assert [line] + [] == [line];
  }

  // ---------------------------------------------------------------- the older parser on layouts

  /** Lines from which the older parser takes nothing: none could start a section, or none names a specifier
      where one would stand in a section. */
  predicate Quiet(body: seq<Line>) {
    (forall line :: line in body ==> !(line.indent == 4 && DependencyHeader(line.content))) ||
    (forall line :: line in body ==> !(line.indent == 8 && "specifier:" <= line.content))
  }

  predicate QuietImporter(i: Importer) {
    i.OtherImporter? ==> Quiet(i.body)
  }

  predicate QuietImporters(importers: seq<Importer>) {
    forall k :: 0 <= k < |importers| ==> QuietImporter(importers[k])
  }

  predicate QuietTop(t: TopLevel) {
    match t
    case Importers(importers) => QuietImporters(importers)
    case OtherTop(_, body) => Quiet(body)
  }

  predicate QuietDocument(ts: seq<TopLevel>) {
    forall k :: 0 <= k < |ts| ==> QuietTop(ts[k])
  }

  function OldRecord(m: map<string, string>, d: Dependency): map<string, string> {
    m[d.name.text := d.specifier.text]
  }

  lemma OldDependencyReads(s: OldState, d: Dependency)
    requires s.section.Some? && DependencyOk(d)
    ensures Fold(OldStep, s, DependencyLines(d)) == s.(current := None, specifiers := OldRecord(s.specifiers, d))
  {
    var ls := DependencyLines(d);
    FoldThree(OldStep, s, ls[0], ls[1], ls[2]);
    KeyReads(d.name);
    assert "specifier" + ": " == "specifier: ";
    ValueReads("specifier", d.specifier);
    assert ls[1].content[..10] == "specifier:";
  }

  lemma {:induction false} OldDependenciesRead(s: OldState, ds: seq<Dependency>)
    requires s.section.Some? && DependenciesOk(ds)
    ensures Fold(OldStep, s, AllDependencyLines(ds)).specifiers == Fold(OldRecord, s.specifiers, ds)
    decreases |ds|
  {
    if ds != [] {
      OldDependencyReads(s, ds[0]);
      FoldAppend(OldStep, s, DependencyLines(ds[0]), AllDependencyLines(ds[1..]));
      OldDependenciesRead(s.(current := None, specifiers := OldRecord(s.specifiers, ds[0])), ds[1..]);
    }
  }

  lemma OldSectionReads(s: OldState, section: Section)
    requires SectionOk(section)
    ensures Fold(OldStep, s, SectionLines(section)).specifiers == Fold(OldRecord, s.specifiers, OfSection(section))
  {
    var ls := SectionLines(section);
    FoldFirst(OldStep, s, ls[0], ls[1..]);
    assert ls == [ls[0]] + ls[1..];
    var open := OldStep(s, ls[0]);
    if section.Dependencies? {
      assert ls[1..] == AllDependencyLines(section.dependencies);
      OldDependenciesRead(open, section.dependencies);
    } else {
      assert ls[1..] == section.body;
      FoldStays(OldStep, open, section.body);
    }
  }

  lemma {:induction false} OldSectionsRead(s: OldState, ss: seq<Section>)
    requires SectionsOk(ss)
    ensures Fold(OldStep, s, AllSectionLines(ss)).specifiers == Fold(OldRecord, s.specifiers, OfSections(ss))
    decreases |ss|
  {
    if ss != [] {
      OldSectionReads(s, ss[0]);
      FoldAppend(OldStep, s, SectionLines(ss[0]), AllSectionLines(ss[1..]));
      FoldAppend(OldRecord, s.specifiers, OfSection(ss[0]), OfSections(ss[1..]));
      OldSectionsRead(Fold(OldStep, s, SectionLines(ss[0])), ss[1..]);
    }
  }

  /** All dependencies that are written in sections, the root's and the others'. */
  function AllOfImporter(i: Importer): seq<Dependency> {
    if i.OtherImporter? then [] else OfSections(i.sections)
  }

  function AllOfImporters(importers: seq<Importer>): seq<Dependency> {
    if importers == [] then [] else AllOfImporter(importers[0]) + AllOfImporters(importers[1..])
  }

  function AllOfTop(t: TopLevel): seq<Dependency> {
    if t.Importers? then AllOfImporters(t.importers) else []
  }

  function AllOfDocument(ts: seq<TopLevel>): seq<Dependency> {
    if ts == [] then [] else AllOfTop(ts[0]) + AllOfDocument(ts[1..])
  }

  lemma {:induction false} NoSpecifierRead(s: OldState, body: seq<Line>)
    requires forall line :: line in body ==> !(line.indent == 8 && "specifier:" <= line.content)
    ensures Fold(OldStep, s, body).specifiers == s.specifiers
    decreases |body|
  {
    if |body| > 0 {
      NoSpecifierRead(OldStep(s, body[0]), body[1..]);
    }
  }

  lemma QuietReads(s: OldState, body: seq<Line>)
    requires s.section.None? && Quiet(body)
    ensures Fold(OldStep, s, body).specifiers == s.specifiers
  {
    if forall line :: line in body ==> !(line.indent == 4 && DependencyHeader(line.content)) {
      NoSectionRead(s, body);
    } else {
      NoSpecifierRead(s, body);
    }
  }

  lemma {:induction false} NoSectionRead(s: OldState, body: seq<Line>)
    requires s.section.None?
    requires forall line :: line in body ==> !(line.indent == 4 && DependencyHeader(line.content))
    ensures Fold(OldStep, s, body).specifiers == s.specifiers
    decreases |body|
  {
    if |body| > 0 {
      NoSectionRead(OldStep(s, body[0]), body[1..]);
    }
  }

  lemma OldImporterReads(s: OldState, i: Importer)
    requires ImporterOk(i) && QuietImporter(i)
    ensures Fold(OldStep, s, ImporterLines(i)).specifiers == Fold(OldRecord, s.specifiers, AllOfImporter(i))
  {
    var ls := ImporterLines(i);
    FoldFirst(OldStep, s, ls[0], ls[1..]);
    assert ls == [ls[0]] + ls[1..];
    var open := OldStep(s, ls[0]);
    assert open == s.(section := None, current := None);
    if i.OtherImporter? {
      assert ls[1..] == i.body;
      QuietReads(open, i.body);
    } else {
      assert ls[1..] == AllSectionLines(i.sections);
      OldSectionsRead(open, i.sections);
    }
  }

  lemma {:induction false} OldImportersRead(s: OldState, importers: seq<Importer>)
    requires ImportersOk(importers) && QuietImporters(importers)
    ensures Fold(OldStep, s, AllImporterLines(importers)).specifiers
         == Fold(OldRecord, s.specifiers, AllOfImporters(importers))
    decreases |importers|
  {
    if importers != [] {
      OldImporterReads(s, importers[0]);
      FoldAppend(OldStep, s, ImporterLines(importers[0]), AllImporterLines(importers[1..]));
      FoldAppend(OldRecord, s.specifiers, AllOfImporter(importers[0]), AllOfImporters(importers[1..]));
      OldImportersRead(Fold(OldStep, s, ImporterLines(importers[0])), importers[1..]);
    }
  }

  lemma OldTopReads(s: OldState, t: TopLevel)
    requires TopOk(t) && QuietTop(t)
    ensures Fold(OldStep, s, TopLines(t)).specifiers == Fold(OldRecord, s.specifiers, AllOfTop(t))
  {
    var ls := TopLines(t);
    FoldFirst(OldStep, s, ls[0], ls[1..]);
    assert ls == [ls[0]] + ls[1..];
    var open := OldStep(s, ls[0]);
    assert open == s.(section := None, current := None);
    if t.Importers? {
      assert ls[1..] == AllImporterLines(t.importers);
      OldImportersRead(open, t.importers);
    } else {
      assert ls[1..] == t.body;
      QuietReads(open, t.body);
    }
  }

  lemma {:induction false} OldDocumentReads(s: OldState, ts: seq<TopLevel>)
    requires DocumentOk(ts) && QuietDocument(ts)
    ensures Fold(OldStep, s, DocumentLines(ts)).specifiers == Fold(OldRecord, s.specifiers, AllOfDocument(ts))
    decreases |ts|
  {
    if ts != [] {
      OldTopReads(s, ts[0]);
      FoldAppend(OldStep, s, TopLines(ts[0]), DocumentLines(ts[1..]));
      FoldAppend(OldRecord, s.specifiers, AllOfTop(ts[0]), AllOfDocument(ts[1..]));
      OldDocumentReads(Fold(OldStep, s, TopLines(ts[0])), ts[1..]);
    }
  }

  lemma {:induction false} RecordsAgree(m: Entries, o: map<string, string>, ds: seq<Dependency>)
    requires Coherent(m, o) && DependenciesOk(ds)
    ensures Coherent(Fold(Record, m, ds), Fold(OldRecord, o, ds))
    decreases |ds|
  {
    if ds != [] {
      RecordsAgree(Record(m, ds[0]), OldRecord(o, ds[0]), ds[1..]);
    }
  }

  lemma {:induction false} SectionDependenciesOk(ss: seq<Section>)
    requires SectionsOk(ss)
    ensures DependenciesOk(OfSections(ss))
  {
    if ss != [] {
      SectionDependenciesOk(ss[1..]);
    }
  }

  lemma {:induction false} ImporterDependenciesOk(importers: seq<Importer>)
    requires ImportersOk(importers)
    ensures DependenciesOk(OfImporters(importers))
  {
    if importers != [] {
      if importers[0].Root? {
        SectionDependenciesOk(importers[0].sections);
      }
      ImporterDependenciesOk(importers[1..]);
    }
  }

  lemma {:induction false} DocumentDependenciesOk(ts: seq<TopLevel>)
    requires DocumentOk(ts)
    ensures DependenciesOk(OfDocument(ts))
  {
    if ts != [] {
      if ts[0].Importers? {
        ImporterDependenciesOk(ts[0].importers);
      }
      DocumentDependenciesOk(ts[1..]);
    }
  }

  // ---------------------------------------------------------------- when the parsers agree

  /** The older parser takes the dependencies of all importers for the root's, in the order they are written. */
  lemma OlderReadsAll(ts: seq<TopLevel>)
    requires DocumentOk(ts) && QuietDocument(ts)
    ensures Older(Document(ts)) == Fold(OldRecord, map[], AllOfDocument(ts))
  {
    DocumentSolid(ts);
    OldTextsRead(OLD_INITIAL, DocumentLines(ts));
    OldDocumentReads(OLD_INITIAL, ts);
  }

  function Older(lines: seq<string>): map<string, string> {
    Fold(OldOnLine, OLD_INITIAL, lines).specifiers
  }

  lemma {:induction false} OldRecordedNames(o: map<string, string>, ds: seq<Dependency>, n: string)
    ensures n in Fold(OldRecord, o, ds) <==> n in o || Names(ds, n)
    ensures !Names(ds, n) && n in o ==> Fold(OldRecord, o, ds)[n] == o[n]
    decreases |ds|
  {
    if |ds| > 0 {
      OldRecordedNames(OldRecord(o, ds[0]), ds[1..], n);
    }
  }

  lemma {:induction false} OldRecordedLast(o: map<string, string>, ds: seq<Dependency>, i: nat)
    requires LastOfItsName(ds, i)
    ensures ds[i].name.text in Fold(OldRecord, o, ds) && Fold(OldRecord, o, ds)[ds[i].name.text] == ds[i].specifier.text
    decreases |ds|
  {
    if i == 0 {
      OldRecordedNames(OldRecord(o, ds[0]), ds[1..], ds[0].name.text);
    } else {
      OldRecordedLast(OldRecord(o, ds[0]), ds[1..], i - 1);
    }
  }

  /** Where a name is last written. */
  lemma {:induction false} LastExists(ds: seq<Dependency>, n: string) returns (i: nat)
    requires Names(ds, n)
    ensures LastOfItsName(ds, i) && ds[i].name.text == n
  {
    if Names(ds[1..], n) {
      i := LastExists(ds[1..], n);
      i := i + 1;
    } else {
      i := 0;
      assert forall j :: 0 < j < |ds| ==> ds[j] == ds[1..][j - 1];
    }
  }

  /** The dependency at `i` is the last of its name among all, and the root's last of that name says the same. */
  ghost predicate RootSays(all: seq<Dependency>, roots: seq<Dependency>, i: nat)
    requires i < |all|
  {
    exists j: nat :: LastOfItsName(roots, j) && roots[j].name.text == all[i].name.text
                     && roots[j].specifier.text == all[i].specifier.text
  }

  ghost predicate RootSaysAll(all: seq<Dependency>, roots: seq<Dependency>) {
    forall i: nat :: LastOfItsName(all, i) ==> RootSays(all, roots, i)
  }

  /** Two lists of dependencies record the same exactly when the last ones of their names say the same. */
  lemma SameRecordsExactly(all: seq<Dependency>, roots: seq<Dependency>)
    requires forall n :: Names(roots, n) ==> Names(all, n)
    ensures Fold(OldRecord, map[], all) == Fold(OldRecord, map[], roots) <==> RootSaysAll(all, roots)
  {
    var a, r := Fold(OldRecord, map[], all), Fold(OldRecord, map[], roots);
    if a == r {
      forall i: nat | LastOfItsName(all, i) ensures RootSays(all, roots, i) {
        OldRecordedLast(map[], all, i);
        OldRecordedNames(map[], roots, all[i].name.text);
        var j := LastExists(roots, all[i].name.text);
        OldRecordedLast(map[], roots, j);
      }
    }
    if RootSaysAll(all, roots) {
      forall n ensures n in a <==> n in r {
        OldRecordedNames(map[], all, n);
        OldRecordedNames(map[], roots, n);
        if Names(all, n) {
          NamedBoth(all, roots, n);
        }
      }
      forall n | n in a ensures a[n] == r[n] {
        OldRecordedNames(map[], all, n);
        NamedBoth(all, roots, n);
      }
    }
  }

  lemma NamedBoth(all: seq<Dependency>, roots: seq<Dependency>, n: string)
    requires RootSaysAll(all, roots) && Names(all, n)
    ensures var a, r := Fold(OldRecord, map[], all), Fold(OldRecord, map[], roots);
      Names(roots, n) && n in a && n in r && a[n] == r[n]
  {
    var i := LastExists(all, n);
    assert RootSays(all, roots, i);
    var j: nat :| LastOfItsName(roots, j) && roots[j].name.text == n
                  && roots[j].specifier.text == all[i].specifier.text;
    OldRecordedLast(map[], all, i);
    OldRecordedLast(map[], roots, j);
  }

  lemma NamesAppend(a: seq<Dependency>, b: seq<Dependency>, n: string)
    ensures Names(a + b, n) <==> Names(a, n) || Names(b, n)
  {
    if k :| 0 <= k < |a| && a[k].name.text == n {
      assert (a + b)[k] == a[k];
    }
    if k :| 0 <= k < |b| && b[k].name.text == n {
      assert (a + b)[|a| + k] == b[k];
    }
    if k :| 0 <= k < |a + b| && (a + b)[k].name.text == n {
      assert k >= |a| ==> b[k - |a|].name.text == n;
    }
  }

  lemma {:induction false} RootIsAmongImporters(importers: seq<Importer>, n: string)
    ensures Names(OfImporters(importers), n) ==> Names(AllOfImporters(importers), n)
  {
    if importers != [] {
      RootIsAmongImporters(importers[1..], n);
      NamesAppend(OfImporter(importers[0]), OfImporters(importers[1..]), n);
      NamesAppend(AllOfImporter(importers[0]), AllOfImporters(importers[1..]), n);
    }
  }

  lemma {:induction false} RootIsAmongAll(ts: seq<TopLevel>, n: string)
    ensures Names(OfDocument(ts), n) ==> Names(AllOfDocument(ts), n)
  {
    if ts != [] {
      RootIsAmongAll(ts[1..], n);
      NamesAppend(OfTop(ts[0]), OfDocument(ts[1..]), n);
      NamesAppend(AllOfTop(ts[0]), AllOfDocument(ts[1..]), n);
      if ts[0].Importers? {
        RootIsAmongImporters(ts[0].importers, n);
      }
    }
  }

  /** The same names with the same specifiers. */
  predicate Agree(found: Entries, older: map<string, string>) {
    found.Keys == older.Keys && forall n :: n in found ==> found[n].specifier == Some(older[n])
  }

  lemma AgreeExactly(found: Entries, same: map<string, string>, older: map<string, string>)
    requires Coherent(found, same)
    ensures Agree(found, older) <==> older == same
  {
    if Agree(found, older) {
      forall n | n in older ensures older[n] == same[n] {
        assert n in found.Keys;
        assert found[n].specifier == Some(older[n]);
      }
      assert older.Keys == same.Keys;
      assert older == same;
    }
  }

  /** The root importer's dependencies, recorded by both. */
  lemma RootRecorded(ts: seq<TopLevel>)
    requires DocumentOk(ts)
    ensures Coherent(Locked(Document(ts)), Fold(OldRecord, map[], OfDocument(ts)))
  {
    RecoveredAsFolded(ts);
    DocumentDependenciesOk(ts);
    RecordsAgree(map[], map[], OfDocument(ts));
  }

  /** The two parsers agree on names and specifiers exactly when the last dependency of each name, over all
      importers, has the specifier that the root importer gives that name. */
  lemma ParsersAgreeExactly(ts: seq<TopLevel>)
    requires DocumentOk(ts) && QuietDocument(ts)
    ensures Agree(Locked(Document(ts)), Older(Document(ts))) <==> RootSaysAll(AllOfDocument(ts), OfDocument(ts))
  {
    forall n ensures Names(OfDocument(ts), n) ==> Names(AllOfDocument(ts), n) {
      RootIsAmongAll(ts, n);
    }
    RootRecorded(ts);
    AgreeExactly(Locked(Document(ts)), Fold(OldRecord, map[], OfDocument(ts)), Older(Document(ts)));
    OlderReadsAll(ts);
    SameRecordsExactly(AllOfDocument(ts), OfDocument(ts));
  }

  predicate NoForeign(ts: seq<TopLevel>) {
    forall k :: 0 <= k < |ts| && ts[k].Importers? ==> NoForeignIn(ts[k].importers)
  }

  predicate NoForeignIn(importers: seq<Importer>) {
    forall j :: 0 <= j < |importers| ==> !importers[j].Foreign?
  }

  lemma {:induction false} OnlyRootIn(importers: seq<Importer>)
    requires NoForeignIn(importers)
    ensures AllOfImporters(importers) == OfImporters(importers)
  {
    if importers != [] {
      OnlyRootIn(importers[1..]);
    }
  }

  lemma {:induction false} OnlyRoot(ts: seq<TopLevel>)
    requires NoForeign(ts)
    ensures AllOfDocument(ts) == OfDocument(ts)
  {
    if ts != [] {
      OnlyRoot(ts[1..]);
      if ts[0].Importers? {
        OnlyRootIn(ts[0].importers);
      }
    }
  }

  /** They always agree when no other importer has dependencies in sections. */
  lemma ParsersAgree(ts: seq<TopLevel>)
    requires DocumentOk(ts) && QuietDocument(ts) && NoForeign(ts)
    ensures Agree(Locked(Document(ts)), Older(Document(ts)))
  {
    OnlyRoot(ts);
    RootRecorded(ts);
    OlderReadsAll(ts);
  }

  /** On a laid out lockfile the gate accepts the dependencies exactly when package.json declares the same
      names with the same specifiers. */
  lemma AcceptedExactly(ts: seq<TopLevel>, declared: map<string, string>)
    requires DocumentOk(ts)
    ensures Coherent(Locked(Document(ts)), declared) <==> declared == Fold(OldRecord, map[], OfDocument(ts))
  {
    RootRecorded(ts);
    if Coherent(Locked(Document(ts)), declared) {
      AgreeExactly(Locked(Document(ts)), Fold(OldRecord, map[], OfDocument(ts)), declared);
    }
  }

  /** Without a root importer, the dependencies of the others are nobody's to the one parser, and all the root's to
      the older one. */
  lemma ForeignDependenciesLeak(name: Scalar, ss: seq<Section>)
    requires Plain(name.text) && name.text != "." && SectionsOk(ss)
    ensures var lines := Document([Importers([Foreign(name, ss)])]);
      Locked(lines) == map[] && Older(lines) == Fold(OldRecord, map[], OfSections(ss))
  {
    var importers := [Foreign(name, ss)];
    var ts := [Importers(importers)];
    assert ImporterOk(importers[0]) && TopOk(ts[0]);
    assert importers[1..] == [] && ts[1..] == [];
    assert OfImporters(importers) == OfImporter(importers[0]) + OfImporters([]) == [];
    assert OfDocument(ts) == OfTop(ts[0]) + OfDocument([]) == [];
    assert AllOfImporters(importers) == OfSections(ss) + [] == OfSections(ss);
    assert AllOfDocument(ts) == OfSections(ss) + [] == OfSections(ss);
    RecoveredAsFolded(ts);
    OlderReadsAll(ts);
  }
}
